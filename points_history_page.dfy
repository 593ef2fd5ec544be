/** The points history page: the reward catalogue, the labels shown for history entries, the
    redeem buttons' state and how an amount is styled. */
module PointsHistoryPage {
  import opened Wrappers
  import opened Text
  import opened Store
  import opened PointsService
  import opened UserService
  import opened DocumentService
  import opened EsportsService
  import opened UsersController

  datatype Reward = Reward(id: string, name: string, points: int)

  /** The catalogue, in display order. */
  const Rewards: seq<Reward> := [
    Reward("tshirt", "Camiseta Furia", 100),
    Reward("vip", "1 Mês de VIP", 200),
    Reward("coupon", "Cupom de Desconto", 50),
    Reward("Sticker", "Sticker Furia", 5)
  ]

  /** The labels of the known action tags. */
  const ActionLabels: map<string, string> := map[
    "PROFILE_UPDATE" := "Atualização de Perfil",
    "DOCUMENT_VALIDATION" := "Validação de Documento",
    "SOCIAL_LINK_TWITTER" := "Vínculo com Twitter",
    "SOCIAL_LINK_INSTAGRAM" := "Vínculo com Instagram",
    "SOCIAL_LINK_FACEBOOK" := "Vínculo com Facebook",
    "SOCIAL_LINK_TWITCH" := "Vínculo com Twitch",
    "SOCIAL_LINK_DISCORD" := "Vínculo com Discord",
    "ESPORTS_VALIDATION_STEAM" := "Validação de Perfil Steam",
    "ESPORTS_VALIDATION_VALORANT" := "Validação de Perfil Valorant",
    "ESPORTS_VALIDATION_GAMERSCLUB" := "Validação de Perfil GamersClub",
    "ESPORTS_VALIDATION_LOL" := "Validação de Perfil League of Legends",
    "ESPORTS_VALIDATION_CS2" := "Validação de Perfil CS2",
    "ESPORTS_VALIDATION_RAINBOWSIX" := "Validação de Perfil Rainbow Six",
    "REDEMPTION_tshirt" := "Resgate: Camiseta Furia",
    "REDEMPTION_vip" := "Resgate: 1 Mês de VIP",
    "REDEMPTION_coupon" := "Resgate: Cupom de Desconto",
    "REDEMPTION_Sticker" := "Resgate: Sticker Furia"
  ]

  /** `getActionDescription`: the tag's label, or the tag itself when it has none (an empty label
      would also fall back, but none is empty). */
  function ActionDescription(action: string): (shown: string)
    ensures action in ActionLabels ==> shown == ActionLabels[action]
    ensures action !in ActionLabels ==> shown == action
  {
    if action in ActionLabels && ActionLabels[action] != "" then ActionLabels[action] else action
  }

  /** A tag is shown as itself exactly when it has no label: no label repeats its tag. */
  lemma ShownRawIff(action: string)
    ensures ActionDescription(action) == action <==> action !in ActionLabels
  {
    if action in ActionLabels {
      assert ActionLabels[action][0] != action[0] || |ActionLabels[action]| != |action|;
    }
  }

  /** The redemption tag of every catalogue reward is labelled "Resgate: " followed by the reward's
      name. */
  lemma RedemptionsLabelled()
    ensures forall r | r in Rewards :: ActionDescription(RedemptionTag(r.id)) == "Resgate: " + r.name
  {
    TshirtLabelled();
    VipLabelled();
    CouponLabelled();
    StickerLabelled();
  }

  // The helpers below spell out one constant each, so that the quantified lemmas never unfold
  // the whole label map at once.

  lemma TshirtLabelled()
    ensures ActionDescription(RedemptionTag(Rewards[0].id)) == "Resgate: " + Rewards[0].name
  {
    assert Rewards[0] == Reward("tshirt", "Camiseta Furia", 100);
    RedemptionLabelled("tshirt", "Camiseta Furia", "REDEMPTION_tshirt", "Resgate: Camiseta Furia");
  }

  lemma VipLabelled()
    ensures ActionDescription(RedemptionTag(Rewards[1].id)) == "Resgate: " + Rewards[1].name
  {
    assert Rewards[1] == Reward("vip", "1 Mês de VIP", 200);
    RedemptionLabelled("vip", "1 Mês de VIP", "REDEMPTION_vip", "Resgate: 1 Mês de VIP");
  }

  lemma CouponLabelled()
    ensures ActionDescription(RedemptionTag(Rewards[2].id)) == "Resgate: " + Rewards[2].name
  {
    assert Rewards[2] == Reward("coupon", "Cupom de Desconto", 50);
    RedemptionLabelled("coupon", "Cupom de Desconto", "REDEMPTION_coupon", "Resgate: Cupom de Desconto");
  }

  lemma StickerLabelled()
    ensures ActionDescription(RedemptionTag(Rewards[3].id)) == "Resgate: " + Rewards[3].name
  {
    assert Rewards[3] == Reward("Sticker", "Sticker Furia", 5);
    RedemptionLabelled("Sticker", "Sticker Furia", "REDEMPTION_Sticker", "Resgate: Sticker Furia");
  }

  /** One reward's label, once its tag and label are spelled out. */
  lemma RedemptionLabelled(id: string, name: string, tag: string, shown: string)
    requires tag == RedemptionTag(id) && shown == "Resgate: " + name
    requires tag in ActionLabels && ActionLabels[tag] == shown
    ensures ActionDescription(RedemptionTag(id)) == "Resgate: " + name
  {
  }

  /** The profile and document awards are labelled; the users controller's lower-case profile tag
      has no label and is shown as it is. */
  lemma ProfileTagsLabelled()
    ensures ActionDescription(ProfileUpdateTag) == "Atualização de Perfil"
    ensures ActionDescription(DocumentValidationTag) == "Validação de Documento"
    ensures ActionDescription(ControllerProfileTag) == ControllerProfileTag
  {
  }

  /** The link award of every provider the backend reports is labelled. */
  lemma SocialLinkTagsLabelled()
    ensures forall p | p in SocialProviders :: SocialLinkTag(p) in ActionLabels
  {
    forall p | p in SocialProviders ensures SocialLinkTag(p) in ActionLabels {
      if p in SocialProviders[..2] {
        FirstProvidersLabelled(p);
      } else {
        assert p in SocialProviders[2..];
        LastProvidersLabelled(p);
      }
    }
  }

  lemma FirstProvidersLabelled(p: string)
    requires p in ["twitter", "instagram"]
    ensures SocialLinkTag(p) in ActionLabels
  {
    if p == "twitter" {
      assert SocialLinkTag(p) == "SOCIAL_LINK_TWITTER";
    } else {
      assert SocialLinkTag(p) == "SOCIAL_LINK_INSTAGRAM";
    }
  }

  lemma LastProvidersLabelled(p: string)
    requires p in ["facebook", "twitch", "discord"]
    ensures SocialLinkTag(p) in ActionLabels
  {
    if p == "facebook" {
      assert SocialLinkTag(p) == "SOCIAL_LINK_FACEBOOK";
    } else if p == "twitch" {
      assert SocialLinkTag(p) == "SOCIAL_LINK_TWITCH";
    } else {
      assert SocialLinkTag(p) == "SOCIAL_LINK_DISCORD";
    }
  }

  /** The platforms the settings page validates, under the names it sends. */
  const EsportsPlatforms: seq<string> := ["steam", "valorant", "cs2", "gamersclub", "lol", "rainbowSix"]

  /** Every platform the settings page validates is paid under a labelled tag. */
  lemma EsportsTagsLabelled()
    ensures forall p | p in EsportsPlatforms :: EsportsTag(p) in ActionLabels
  {
    forall p | p in EsportsPlatforms ensures EsportsTag(p) in ActionLabels {
      if p in EsportsPlatforms[..3] {
        FirstPlatformsLabelled(p);
      } else {
        assert p in EsportsPlatforms[3..];
        LastPlatformsLabelled(p);
      }
    }
  }

  lemma FirstPlatformsLabelled(p: string)
    requires p in ["steam", "valorant", "cs2"]
    ensures EsportsTag(p) in ActionLabels
  {
    if p == "steam" {
      assert EsportsTag(p) == "ESPORTS_VALIDATION_STEAM";
    } else if p == "valorant" {
      assert EsportsTag(p) == "ESPORTS_VALIDATION_VALORANT";
    } else {
      assert EsportsTag(p) == "ESPORTS_VALIDATION_CS2";
    }
  }

  lemma LastPlatformsLabelled(p: string)
    requires p in ["gamersclub", "lol", "rainbowSix"]
    ensures EsportsTag(p) in ActionLabels
  {
    if p == "gamersclub" {
      assert EsportsTag(p) == "ESPORTS_VALIDATION_GAMERSCLUB";
    } else if p == "lol" {
      assert EsportsTag(p) == "ESPORTS_VALIDATION_LOL";
    } else {
      assert EsportsTag(p) == "ESPORTS_VALIDATION_RAINBOWSIX";
    }
  }

  // The redeem buttons

  /** A reward's button is disabled while that reward is being redeemed, when the balance does not
      cover it, or while any redemption is in progress. */
  function RedeemDisabled(redeeming: Option<string>, isButtonDisabled: bool, balance: int, reward: Reward): (disabled: bool)
    ensures !disabled <==> redeeming != Some(reward.id) && balance >= reward.points && !isButtonDisabled
  {
    redeeming == Some(reward.id) || balance < reward.points || isButtonDisabled
  }

  /** The page's two redemption flags. */
  class RedeemFlags {
    var isButtonDisabled: bool
    var redeeming: Option<string>

    /** While a reward is marked as being redeemed, the buttons are also disabled. */
    predicate Valid()
      reads this
    {
      redeeming.Some? ==> isButtonDisabled
    }

    constructor ()
      ensures Valid() && !isButtonDisabled && redeeming == None
    {
      isButtonDisabled := false;
      redeeming := None;
    }

    /** The start of `handleRedeem`: nothing happens while the buttons are disabled; otherwise both
        flags are set. */
    method Begin(rewardId: string) returns (started: bool)
      requires Valid()
      modifies this
      ensures Valid()
      ensures started == !old(isButtonDisabled)
      ensures started ==> isButtonDisabled && redeeming == Some(rewardId)
      ensures !started ==> isButtonDisabled == old(isButtonDisabled) && redeeming == old(redeeming)
    {
      if isButtonDisabled {
        return false;
      }
      isButtonDisabled := true;
      redeeming := Some(rewardId);
      return true;
    }

    /** The `finally` of `handleRedeem`: both flags are cleared whatever the outcome. */
    method Finish()
      modifies this
      ensures Valid() && !isButtonDisabled && redeeming == None
    {
      redeeming := None;
      isButtonDisabled := false;
    }

    /** `handleRedeem`: `outcome` is how the redemption request and the reload of the points ended,
        success or the error they rejected with (for the request, `RequestOutcome` of the backend's
        result). The toast shown is returned; none when the call was ignored. */
    method HandleRedeem(rewardId: string, outcome: Result<()>) returns (toast: Option<string>)
      requires Valid()
      modifies this
      ensures Valid()
      ensures old(isButtonDisabled) ==> toast == None && isButtonDisabled && redeeming == old(redeeming)
      ensures !old(isButtonDisabled) ==> !isButtonDisabled && redeeming == None && toast == Some(RedeemToast(outcome))
    {
      var started := Begin(rewardId);
      if !started {
        return None;
      }
      Finish();
      return Some(RedeemToast(outcome));
    }
  }

  /** The toast after a redemption: the success message, the error's message, or a generic one when
      that message is empty. */
  function RedeemToast(outcome: Result<()>): (m: string)
    ensures outcome.Ok? ==> m == "Resgate realizado com sucesso!"
    ensures outcome.Err? && outcome.error.Message() != "" ==> m == outcome.error.Message()
    ensures m != ""
  {
    if outcome.Ok? then "Resgate realizado com sucesso!"
    else if outcome.error.Message() != "" then outcome.error.Message()
    else "Erro ao resgatar pontos"
  }

  /** While a redemption is in progress every reward's button is disabled, whatever the balance;
      once it has finished a button is enabled exactly when the balance covers its cost. */
  lemma InProgressDisablesAll(rewardId: string, balance: int)
    ensures forall r | r in Rewards :: RedeemDisabled(Some(rewardId), true, balance, r)
    ensures forall r | r in Rewards :: !RedeemDisabled(None, false, balance, r) <==> balance >= r.points
  {
  }

  // The request boundary

  /** The status the server answers a thrown error with: an HTTP exception keeps its own status, and
      anything else (a plain `Error`, a store error, a foreign call's failure) becomes 500. */
  function HttpStatus(e: Error): (code: nat)
    ensures e.Failure? ==> code == 500
    ensures 400 <= code <= 500
    ensures code < 500 <==> e.BadRequest? || e.Unauthorized? || e.NotFound? || e.Conflict?
  {
    match e
    case BadRequest(_) => 400
    case Unauthorized(_) => 401
    case NotFound(_) => 404
    case Conflict(_) => 409
    case _ => 500
  }

  const StatusPrefix: string := "Request failed with status code "

  /** How `await redeemPoints(...)` ends when the backend's redemption returned `out`: it resolves on
      success; on an error status it rejects with the HTTP client's error, whose `message` names the
      status only. The response body, with the backend's message, is not read. */
  function RequestOutcome(out: Result<PointEntry>): (o: Result<()>)
    ensures o.Ok? <==> out.Ok?
    ensures out.Err? ==> o.error.Message() == StatusPrefix + DecimalString(HttpStatus(out.error))
  {
    if out.Ok? then Ok(()) else Err(External(StatusPrefix + DecimalString(HttpStatus(out.error))))
  }

  /** The toast after a failed redemption depends only on the status: two errors answered with the
      same status show the same text, whatever their messages. */
  lemma OnlyStatusShown(e1: Error, e2: Error)
    requires HttpStatus(e1) == HttpStatus(e2)
    ensures RedeemToast(RequestOutcome(Err(e1))) == RedeemToast(RequestOutcome(Err(e2)))
    ensures RedeemToast(RequestOutcome(Err(e1))) == StatusPrefix + DecimalString(HttpStatus(e1))
  {
  }

  /** A refusal of an uncovered redemption does not reach the page with its text: the service throws
      a plain `Error`, the server answers 500, and the toast names that status instead of "Pontos
      insuficientes para resgate". */
  lemma InsufficientShownAsStatus(s: State, userId: UserId, rewardId: string, points: int)
    requires GetUserPoints(s, userId).points < points
    ensures RedeemToast(RequestOutcome(RedeemPointsStep(s, userId, rewardId, points).out))
      == "Request failed with status code 500"
    ensures RedeemToast(RequestOutcome(RedeemPointsStep(s, userId, rewardId, points).out)) != InsufficientPoints
  {
    RedeemInsufficient(s, userId, rewardId, points);
    assert DecimalString(500) == "500" by {
      assert DecimalString(5) == "5";
      assert DecimalString(50) == "5" + "0";
    }
    var shown := RedeemToast(RequestOutcome(RedeemPointsStep(s, userId, rewardId, points).out));
    assert shown[0] == 'R' && InsufficientPoints[0] == 'P';
  }

  // History amounts

  datatype AmountStyle = AmountStyle(sign: string, color: string)

  /** A positive amount is shown green with a plus sign; zero and debits red with no sign. */
  function StyleAmount(points: int): (st: AmountStyle)
    ensures st.sign == "+" <==> points > 0
    ensures st.color == "text-green-500" <==> points > 0
    ensures st.sign == "" <==> points <= 0
    ensures st.color == "text-red-500" <==> points <= 0
  {
    if points > 0 then AmountStyle("+", "text-green-500") else AmountStyle("", "text-red-500")
  }

  /** The debit a covered redemption of a priced reward appends is shown red and unsigned, and an
      award of 10 green with a plus sign. */
  lemma RedemptionShownAsDebit(s: State, userId: UserId, rewardId: string, points: int)
    requires userId < |s.users| && Balance(s.history, userId) >= points > 0
    ensures var st := RedeemPointsStep(s, userId, rewardId, points);
      st.out.Ok? && StyleAmount(st.out.value.points) == AmountStyle("", "text-red-500")
    ensures StyleAmount(10) == AmountStyle("+", "text-green-500")
  {
    RedeemCovered(s, userId, rewardId, points);
  }
}
