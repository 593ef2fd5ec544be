/** The profile card's list of linked social accounts, built from the `/users/me` response by one
    conditional push per provider, each with a link to the provider's profile page. */
module UserProfileCard {
  import opened Wrappers
  import opened Store
  import opened UserService

  datatype CardAccount = CardAccount(provider: string, socialId: string, url: string)

  /** The profile link: a fixed per-provider prefix followed by the id; Discord gets no link. */
  function ProfileUrl(provider: string, id: string): (url: string)
    ensures provider == "twitter" ==> url == "https://twitter.com/" + id
    ensures provider == "instagram" ==> url == "https://instagram.com/" + id
    ensures provider == "facebook" ==> url == "https://facebook.com/" + id
    ensures provider == "twitch" ==> url == "https://twitch.tv/" + id
    ensures provider == "discord" ==> url == "#"
  {
    match provider
    case "twitter" => "https://twitter.com/" + id
    case "instagram" => "https://instagram.com/" + id
    case "facebook" => "https://facebook.com/" + id
    case "twitch" => "https://twitch.tv/" + id
    case _ => "#"
  }

  /** The card entries for the accounts the backend lists, with their links. */
  function WithUrls(accounts: seq<SocialAccount>): (r: seq<CardAccount>)
    ensures |r| == |accounts|
    ensures forall i | 0 <= i < |r| ::
      r[i] == CardAccount(accounts[i].provider, accounts[i].socialId, ProfileUrl(accounts[i].provider, accounts[i].socialId))
  {
    if accounts == [] then []
    else
      var a := accounts[0];
      [CardAccount(a.provider, a.socialId, ProfileUrl(a.provider, a.socialId))] + WithUrls(accounts[1..])
  }

  lemma {:induction false} WithUrlsAppend(a: seq<SocialAccount>, b: seq<SocialAccount>)
    ensures WithUrls(a + b) == WithUrls(a) + WithUrls(b)
  {
    if a == [] {
      assert a + b == b;
    } else {
      assert (a + b)[1..] == a[1..] + b;
      WithUrlsAppend(a[1..], b);
    }
  }

  /** `loadProfile`: without a session token, or when the profile request does not succeed, no list
      is built (`None`); otherwise the accounts of the five providers whose id is set, in order.
      `profile` is the response's fields, `None` for a failed request. */
  method LoadProfile(token: string, profile: Option<map<string, string>>) returns (r: Option<seq<CardAccount>>)
    ensures token == "" || profile.None? ==> r == None
    ensures token != "" && profile.Some? ==> r == Some(WithUrls(LinkedAccounts(profile.value)))
  {
    if token == "" {
      return None;
    }
    if profile.None? {
      return None;
    }
    var userData := profile.value;
    var socialAccounts: seq<CardAccount> := [];
    ghost var listed: seq<SocialAccount> := [];
    ghost var before: seq<CardAccount>;
    assert "twitter" + "Id" == "twitterId" && "instagram" + "Id" == "instagramId" && "facebook" + "Id" == "facebookId"
      && "twitch" + "Id" == "twitchId" && "discord" + "Id" == "discordId";
    before := socialAccounts;
    if Truthy(userData, "twitterId") {
      socialAccounts := socialAccounts + [CardAccount("twitter", userData["twitterId"], "https://twitter.com/" + userData["twitterId"])];
    }
    PushStep(userData, "twitter", "twitterId", listed, before, socialAccounts);
    listed := listed + Entry(userData, "twitter");
    assert listed == Entry(userData, "twitter");
    before := socialAccounts;
    if Truthy(userData, "instagramId") {
      socialAccounts := socialAccounts + [CardAccount("instagram", userData["instagramId"], "https://instagram.com/" + userData["instagramId"])];
    }
    PushStep(userData, "instagram", "instagramId", listed, before, socialAccounts);
    listed := listed + Entry(userData, "instagram");
    before := socialAccounts;
    if Truthy(userData, "facebookId") {
      socialAccounts := socialAccounts + [CardAccount("facebook", userData["facebookId"], "https://facebook.com/" + userData["facebookId"])];
    }
    PushStep(userData, "facebook", "facebookId", listed, before, socialAccounts);
    listed := listed + Entry(userData, "facebook");
    before := socialAccounts;
    if Truthy(userData, "twitchId") {
      socialAccounts := socialAccounts + [CardAccount("twitch", userData["twitchId"], "https://twitch.tv/" + userData["twitchId"])];
    }
    PushStep(userData, "twitch", "twitchId", listed, before, socialAccounts);
    listed := listed + Entry(userData, "twitch");
    before := socialAccounts;
    if Truthy(userData, "discordId") {
      socialAccounts := socialAccounts + [CardAccount("discord", userData["discordId"], "#")];
    }
    PushStep(userData, "discord", "discordId", listed, before, socialAccounts);
    listed := listed + Entry(userData, "discord");
    assert listed == Entry(userData, "twitter") + Entry(userData, "instagram") + Entry(userData, "facebook")
      + Entry(userData, "twitch") + Entry(userData, "discord");
    LinkedAccountsUnfolded(userData);
    return Some(socialAccounts);
  }

  /** One push of the list: after the step for provider `p`, the list is the card of the accounts
      listed so far followed by `p`'s, when its column `col` is set. */
  lemma PushStep(fields: map<string, string>, p: string, col: string, listed: seq<SocialAccount>,
                 before: seq<CardAccount>, after: seq<CardAccount>)
    requires col == p + "Id" && before == WithUrls(listed)
    requires after == if Truthy(fields, col) then before + [CardAccount(p, fields[col], ProfileUrl(p, fields[col]))] else before
    ensures after == WithUrls(listed + Entry(fields, p))
  {
    WithUrlsAppend(listed, Entry(fields, p));
  }

  /** The card shows what the backend's `getSocialAccounts` reports for the same fields: at most five
      entries, only providers with a set id, each with its stored id, every such provider, in the
      fixed provider order, and Discord always with `#`. */
  lemma CardMatchesBackend(fields: map<string, string>)
    ensures var card := WithUrls(LinkedAccounts(fields));
      && |card| <= 5
      && (forall k | 0 <= k < |card| ::
            card[k].provider in SocialProviders && Truthy(fields, card[k].provider + "Id")
            && card[k].socialId == fields[card[k].provider + "Id"])
      && (forall p | p in SocialProviders && Truthy(fields, p + "Id") :: exists k | 0 <= k < |card| :: card[k].provider == p)
      && (forall k, l | 0 <= k < l < |card| ::
            IndexOf(SocialProviders, card[k].provider) < IndexOf(SocialProviders, card[l].provider))
      && (forall k | 0 <= k < |card| && card[k].provider == "discord" :: card[k].url == "#")
  {
    LinkedAccountsListed(fields);
    var l := LinkedAccounts(fields);
    var card := WithUrls(l);
    forall p | p in SocialProviders && Truthy(fields, p + "Id") ensures exists k | 0 <= k < |card| :: card[k].provider == p {
      var k :| 0 <= k < |l| && l[k].provider == p;
      assert card[k].provider == p;
    }
  }
}
