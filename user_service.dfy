/** The user service: registration, login, profile updates with the profile award, social
    account linking with its per-provider award, the terms flag, and the social sign-in flow.

    Password hashing and comparison, token signing and the OAuth provider lookups are foreign
    calls: their results are parameters. */
module UserService {
  import opened Wrappers
  import opened Text
  import opened Store
  import opened PointsService

  const EmailInUse: string := "Email já está em uso"
  const CreateFailed: string := "Erro ao criar usuário"
  const BadCredentials: string := "E-mail ou senha incorretos"
  const LoginSucceeded: string := "Login bem-sucedido"
  const UserLookupFailed: string := "Erro ao buscar usuário"
  const UserMissing: string := "Usuário não encontrado"
  const TermsReadFailed: string := "Erro ao verificar aceitação dos termos"
  const TermsWriteFailed: string := "Erro ao atualizar aceitação dos termos"
  const UnsupportedProvider: string := "Unsupported provider"

  const ProfileUpdateTag: string := "PROFILE_UPDATE"
  const SocialLinkPrefix: string := "SOCIAL_LINK_"

  /** The columns whose presence in an update earns the profile award. */
  const ProfileFields: seq<string> := ["address", "cpf", "interests", "activities"]

  /** The providers `getSocialAccounts` reports, in the order it reports them. */
  const SocialProviders: seq<string> := ["twitter", "instagram", "facebook", "twitch", "discord"]

  /** The providers `handleSocialAuth` accepts, matched exactly. */
  const AuthProviders: set<string> := {"facebook", "twitter", "twitch", "discord", "instagram"}

  /** A user record with the password left out. */
  datatype PublicUser = PublicUser(
    id: UserId,
    name: string,
    email: string,
    points: int,
    hasAcceptedTerms: bool,
    fields: map<string, string>)

  function WithoutPassword(u: User): PublicUser {
    PublicUser(u.id, u.name, u.email, u.points, u.hasAcceptedTerms, u.fields)
  }

  // createUser

  /** `createUser`: refuse a used email; otherwise store the hashed password and return the
      record without it. `hasAcceptedTerms` takes its column default, modelled as false. */
  function CreateUserStep(s: State, name: string, email: string, hashedPassword: string): Step<PublicUser> {
    if UserWithEmail(s.users, email).Some? then Step(s, Err(Conflict(EmailInUse)))
    else
      var created := InsertUserStep(s, name, email, hashedPassword, false);
      if created.out.Err? then Step(created.next, Err(InternalServerError(CreateFailed)))
      else Step(created.next, Ok(WithoutPassword(created.out.value)))
  }

  method CreateUser(db: Database, name: string, email: string, hashedPassword: string) returns (r: Result<PublicUser>)
    modifies db
    ensures db.Snapshot() == CreateUserStep(old(db.Snapshot()), name, email, hashedPassword).next
    ensures r == CreateUserStep(old(db.Snapshot()), name, email, hashedPassword).out
  {
    if UserWithEmail(db.users, email).Some? {
      return Err(Conflict(EmailInUse));
    }
    var user := db.InsertUser(name, email, hashedPassword, false);
    if user.Err? {
      return Err(InternalServerError(CreateFailed));
    }
    return Ok(WithoutPassword(user.value));
  }

  lemma CreateUserConflict(s: State, name: string, email: string, hashedPassword: string)
    requires exists i | 0 <= i < |s.users| :: s.users[i].email == email
    ensures CreateUserStep(s, name, email, hashedPassword) == Step(s, Err(Conflict(EmailInUse)))
  {
  }

  /** A new email: exactly one user is appended, with no points, no optional column and the terms
      not accepted, and the password-free view of it is returned. */
  lemma CreateUserFresh(s: State, name: string, email: string, hashedPassword: string)
    requires forall i | 0 <= i < |s.users| :: s.users[i].email != email
    ensures var st := CreateUserStep(s, name, email, hashedPassword);
      && st.next == s.(users := s.users + [User(|s.users|, name, email, hashedPassword, 0, false, map[])])
      && st.out == Ok(PublicUser(|s.users|, name, email, 0, false, map[]))
  {
  }

  // login

  datatype LoginResponse = LoginResponse(message: string, token: string)

  /** `login`: `passwordMatches(plain, hash)` stands for the hash comparison and `sign(id, email)` for
      the token; both failures give the same error. */
  function Login(s: State, email: string, password: string, passwordMatches: (string, string) -> bool,
                 sign: (UserId, string) -> string): (r: Result<LoginResponse>)
    ensures r.Err? ==> r == Err(Unauthorized(BadCredentials))
    ensures r.Ok? ==> exists i | 0 <= i < |s.users| :: s.users[i].email == email && passwordMatches(password, s.users[i].password)
  {
    var found := UserWithEmail(s.users, email);
    if found.None? then Err(Unauthorized(BadCredentials))
    else
      var user := s.users[found.value];
      if !passwordMatches(password, user.password) then Err(Unauthorized(BadCredentials))
      else Ok(LoginResponse(LoginSucceeded, sign(user.id, user.email)))
  }

  /** With unique emails, login succeeds exactly for a stored email whose hash the password matches. */
  lemma LoginSucceedsIff(s: State, email: string, password: string, passwordMatches: (string, string) -> bool,
                         sign: (UserId, string) -> string)
    requires WellFormed(s)
    ensures Login(s, email, password, passwordMatches, sign).Ok? <==>
      exists i | 0 <= i < |s.users| :: s.users[i].email == email && passwordMatches(password, s.users[i].password)
  {
    if exists i | 0 <= i < |s.users| :: s.users[i].email == email && passwordMatches(password, s.users[i].password) {
      var i :| 0 <= i < |s.users| && s.users[i].email == email && passwordMatches(password, s.users[i].password);
      var found := UserWithEmail(s.users, email);
      assert found.value == i;
    }
  }

  /** A registered user can log in with the password whose hash was stored. */
  lemma LoginAfterCreateUser(s: State, name: string, email: string, password: string, hashedPassword: string,
                             passwordMatches: (string, string) -> bool, sign: (UserId, string) -> string)
    requires forall i | 0 <= i < |s.users| :: s.users[i].email != email
    requires passwordMatches(password, hashedPassword)
    ensures Login(CreateUserStep(s, name, email, hashedPassword).next, email, password, passwordMatches, sign)
      == Ok(LoginResponse(LoginSucceeded, sign(|s.users|, email)))
  {
    CreateUserFresh(s, name, email, hashedPassword);
  }

  // updateUser

  /** Some profile column is defined in the update (a null counts as defined). */
  predicate HasProfileUpdate(dto: Patch) {
    exists i | 0 <= i < |ProfileFields| :: ProfileFields[i] in dto
  }

  /** `updateUser`: write the update, then award 10 under `PROFILE_UPDATE` when a profile column is
      in it; the user as written by the update is returned. */
  function UpdateUserStep(s: State, userId: UserId, dto: Patch): Step<User> {
    var updated := UpdateFieldsStep(s, userId, dto);
    if updated.out.Err? || !HasProfileUpdate(dto) then updated
    else
      var award := AddPointsStep(updated.next, userId, 10, ProfileUpdateTag);
      if award.out.Err? then Step(award.next, Err(award.out.error)) else Step(award.next, updated.out)
  }

  method UpdateUser(db: Database, userId: UserId, dto: Patch) returns (r: Result<User>)
    modifies db
    ensures db.Snapshot() == UpdateUserStep(old(db.Snapshot()), userId, dto).next
    ensures r == UpdateUserStep(old(db.Snapshot()), userId, dto).out
  {
    var user := db.UpdateFields(userId, dto);
    if user.Err? {
      return user;
    }
    var hasProfileUpdate := false;
    for i := 0 to |ProfileFields|
      invariant hasProfileUpdate <==> exists j | 0 <= j < i :: ProfileFields[j] in dto
    {
      if ProfileFields[i] in dto {
        hasProfileUpdate := true;
      }
    }
    if hasProfileUpdate {
      var award := PointsService.AddPoints(db, userId, 10, ProfileUpdateTag);
      if award.Err? {
        return Err(award.error);
      }
    }
    return user;
  }

  /** An update the store refuses (a column it does not have, a null in a required column, a missing
      user or another user's email) changes nothing and awards nothing. */
  lemma UpdateUserRejected(s: State, userId: UserId, dto: Patch)
    requires !Accepts(s, userId, dto)
    ensures UpdateUserStep(s, userId, dto).next == s
    ensures UpdateUserStep(s, userId, dto).out.Err?
  {
    UpdateFieldsOutcome(s, userId, dto);
  }

  /** An accepted update writes exactly the update into the user's row and returns that row; the
      profile award (10 more on the user's counter, one entry) is paid iff a profile column is in the
      update and the award was not paid before. No other user, and no document, changes. */
  lemma UpdateUserAward(s: State, userId: UserId, dto: Patch)
    requires Accepts(s, userId, dto)
    ensures var st := UpdateUserStep(s, userId, dto);
      var paid := HasProfileUpdate(dto) && !HasEntry(s.history, userId, ProfileUpdateTag);
      var u := s.users[userId];
      && st.out == Ok(Write(u, dto))
      && st.next.users == s.users[userId := Write(u, dto).(points := u.points + (if paid then 10 else 0))]
      && st.next.history == (if paid then s.history + [PointEntry(userId, 10, ProfileUpdateTag, s.clock)] else s.history)
      && st.next.documents == s.documents
      && st.next.clock == (if paid then s.clock + 1 else s.clock)
      && Balance(st.next.history, userId) == Balance(s.history, userId) + (if paid then 10 else 0)
  {
    if HasProfileUpdate(dto) && !HasEntry(s.history, userId, ProfileUpdateTag) {
      UpdateUserPaid(s, userId, dto);
      BalanceAppend(s.history, PointEntry(userId, 10, ProfileUpdateTag, s.clock), userId);
    } else {
      UpdateUserUnpaid(s, userId, dto);
      UpdateTwice(s.users, userId, Write(s.users[userId], dto), Write(s.users[userId], dto));
    }
  }

  /** The paid case of `UpdateUserAward`, as one state. */
  lemma UpdateUserPaid(s: State, userId: UserId, dto: Patch)
    requires Accepts(s, userId, dto)
    requires HasProfileUpdate(dto) && !HasEntry(s.history, userId, ProfileUpdateTag)
    ensures var u := s.users[userId];
      var written := Write(u, dto);
      UpdateUserStep(s, userId, dto) == Step(
        State(s.users[userId := written.(points := u.points + 10)],
              s.history + [PointEntry(userId, 10, ProfileUpdateTag, s.clock)], s.documents, s.clock + 1),
        Ok(written))
  {
    var u := s.users[userId];
    var written := Write(u, dto);
    UpdateFieldsAccepted(s, userId, dto);
    var updated := UpdateFieldsStep(s, userId, dto);
    AddPointsFreshState(updated.next, userId, 10, ProfileUpdateTag);
    UpdateTwice(s.users, userId, written, written.(points := u.points + 10));
  }

  /** The unpaid case of `UpdateUserAward`: only the row is written. */
  lemma UpdateUserUnpaid(s: State, userId: UserId, dto: Patch)
    requires Accepts(s, userId, dto)
    requires !(HasProfileUpdate(dto) && !HasEntry(s.history, userId, ProfileUpdateTag))
    ensures UpdateUserStep(s, userId, dto) == Step(s.(users := s.users[userId := Write(s.users[userId], dto)]), Ok(Write(s.users[userId], dto)))
  {
    UpdateFieldsAccepted(s, userId, dto);
    if HasProfileUpdate(dto) {
      AddPointsDuplicate(UpdateFieldsStep(s, userId, dto).next, userId, 10, ProfileUpdateTag);
    }
  }

  /** Updating only `events` or `purchases` awards nothing. */
  lemma UpdateEventsOnlyAwardsNothing(s: State, userId: UserId, dto: Patch)
    requires dto.Keys <= {"events", "purchases"}
    ensures UpdateUserStep(s, userId, dto).next.history == s.history
  {
    assert !HasProfileUpdate(dto) by {
      forall i | 0 <= i < |ProfileFields| ensures ProfileFields[i] !in dto {
        assert ProfileFields[i] !in {"events", "purchases"};
      }
    }
  }

  // getUserById

  /** The columns `getUserById` selects: everything but the password, the counter and the terms flag. */
  datatype UserProfile = UserProfile(id: UserId, name: string, email: string, fields: map<string, string>)

  /** `getUserById`: the "not found" thrown inside the try is replaced by the catch, so a missing user
      surfaces as an internal error. */
  function GetUserById(s: State, userId: UserId): (r: Result<UserProfile>)
    ensures r.Ok? <==> userId < |s.users|
    ensures r.Ok? ==> r.value == UserProfile(userId, s.users[userId].name, s.users[userId].email, s.users[userId].fields)
    ensures r.Err? ==> r.error == InternalServerError(UserLookupFailed)
  {
    if userId >= |s.users| then Err(InternalServerError(UserLookupFailed))
    else
      var u := s.users[userId];
      Ok(UserProfile(userId, u.name, u.email, u.fields))
  }

  // linkSocialAccount and unlinkSocialAccount

  /** The column a provider's id is stored in: `${provider.toLowerCase()}Id`. */
  function SocialColumn(provider: string): string {
    Lower(provider) + "Id"
  }

  function SocialLinkTag(provider: string): string {
    SocialLinkPrefix + Upper(provider)
  }

  /** `linkSocialAccount`: store the id in the provider's column, then award 10 under
      `SOCIAL_LINK_<PROVIDER>`; the user as written by the update is returned. */
  function LinkSocialAccountStep(s: State, userId: UserId, provider: string, socialId: string): Step<User> {
    var updated := UpdateFieldsStep(s, userId, map[SocialColumn(provider) := Some(socialId)]);
    if updated.out.Err? then updated
    else
      var award := AddPointsStep(updated.next, userId, 10, SocialLinkTag(provider));
      if award.out.Err? then Step(award.next, Err(award.out.error)) else Step(award.next, updated.out)
  }

  method LinkSocialAccount(db: Database, userId: UserId, provider: string, socialId: string) returns (r: Result<User>)
    modifies db
    ensures db.Snapshot() == LinkSocialAccountStep(old(db.Snapshot()), userId, provider, socialId).next
    ensures r == LinkSocialAccountStep(old(db.Snapshot()), userId, provider, socialId).out
  {
    var user := db.UpdateFields(userId, map[SocialColumn(provider) := Some(socialId)]);
    if user.Err? {
      return user;
    }
    var award := PointsService.AddPoints(db, userId, 10, SocialLinkTag(provider));
    if award.Err? {
      return Err(award.error);
    }
    return user;
  }

  /** `unlinkSocialAccount`: write null into the provider's column; no points call. */
  function UnlinkSocialAccountStep(s: State, userId: UserId, provider: string): Step<User> {
    UpdateFieldsStep(s, userId, map[SocialColumn(provider) := None])
  }

  method UnlinkSocialAccount(db: Database, userId: UserId, provider: string) returns (r: Result<User>)
    modifies db
    ensures db.Snapshot() == UnlinkSocialAccountStep(old(db.Snapshot()), userId, provider).next
    ensures r == UnlinkSocialAccountStep(old(db.Snapshot()), userId, provider).out
  {
    r := db.UpdateFields(userId, map[SocialColumn(provider) := None]);
  }

  /** A provider whose column the user table lacks: the update is refused before any award. */
  lemma LinkUnknownColumn(s: State, userId: UserId, provider: string, socialId: string)
    requires SocialColumn(provider) !in UserColumns
    ensures LinkSocialAccountStep(s, userId, provider, socialId) == Step(s, Err(UnknownArgument))
  {
    SocialColumnNotRequired(provider);
    var patch := map[SocialColumn(provider) := Some(socialId)];
    assert SocialColumn(provider) !in UserColumns + RequiredColumns;
    assert !(patch.Keys <= UserColumns + RequiredColumns);
  }

  /** A provider's column ends in "Id", so it is never the name, the email or the password. */
  lemma SocialColumnNotRequired(provider: string)
    ensures SocialColumn(provider) !in RequiredColumns
  {
    var c := SocialColumn(provider);
    assert c[|c| - 2] == 'I';
  }

  /** Linking sets exactly the provider's column to the id, raises the user's counter by 10 and
      appends the provider's tag unless it was paid before; no other column, no other user and no
      document changes. */
  lemma LinkSocialAccountEffect(s: State, userId: UserId, provider: string, socialId: string)
    requires userId < |s.users| && SocialColumn(provider) in UserColumns
    ensures var st := LinkSocialAccountStep(s, userId, provider, socialId);
      var tag := SocialLinkTag(provider);
      var paid := !HasEntry(s.history, userId, tag);
      var u := s.users[userId];
      && |st.next.users| == |s.users|
      && st.next.users == s.users[userId := u.(fields := u.fields[SocialColumn(provider) := socialId],
                                               points := u.points + (if paid then 10 else 0))]
      && st.out == Ok(u.(fields := u.fields[SocialColumn(provider) := socialId]))
      && st.next.history == (if paid then s.history + [PointEntry(userId, 10, tag, s.clock)] else s.history)
      && st.next.documents == s.documents
      && st.next.clock == (if paid then s.clock + 1 else s.clock)
      && HasEntry(st.next.history, userId, tag)
  {
    var col := SocialColumn(provider);
    var tag := SocialLinkTag(provider);
    var u := s.users[userId];
    var written := u.(fields := u.fields[col := socialId]);
    LinkWrites(s, userId, provider, socialId);
    var updated := UpdateFieldsStep(s, userId, map[col := Some(socialId)]);
    if HasEntry(s.history, userId, tag) {
      AddPointsDuplicate(updated.next, userId, 10, tag);
      UpdateTwice(s.users, userId, written, written);
    } else {
      AddPointsFreshState(updated.next, userId, 10, tag);
      UpdateTwice(s.users, userId, written, written.(points := u.points + 10));
      var h := s.history + [PointEntry(userId, 10, tag, s.clock)];
      assert h[|h| - 1].userId == userId && h[|h| - 1].action == tag;
    }
  }

  /** The store write of a link: only the provider's column of that row. */
  lemma LinkWrites(s: State, userId: UserId, provider: string, socialId: string)
    requires userId < |s.users| && SocialColumn(provider) in UserColumns
    ensures var u := s.users[userId];
      var written := u.(fields := u.fields[SocialColumn(provider) := socialId]);
      UpdateFieldsStep(s, userId, map[SocialColumn(provider) := Some(socialId)])
        == Step(s.(users := s.users[userId := written]), Ok(written))
  {
    var patch := map[SocialColumn(provider) := Some(socialId)];
    UpdateFieldsAccepted(s, userId, patch);
    WriteNullable(s.users[userId], patch);
    ApplySet(s.users[userId].fields, SocialColumn(provider), socialId);
  }

  /** Unlinking removes exactly the provider's column and leaves the ledger as it was. */
  lemma UnlinkSocialAccountEffect(s: State, userId: UserId, provider: string)
    requires userId < |s.users| && SocialColumn(provider) in UserColumns
    ensures var st := UnlinkSocialAccountStep(s, userId, provider);
      && st.next.users == s.users[userId := s.users[userId].(fields := s.users[userId].fields - {SocialColumn(provider)})]
      && st.next.history == s.history
      && st.next.documents == s.documents
  {
    var patch := map[SocialColumn(provider) := None];
    UpdateFieldsAccepted(s, userId, patch);
    WriteNullable(s.users[userId], patch);
    ApplyClear(s.users[userId].fields, SocialColumn(provider));
  }

  /** Link, unlink and link again: the second link stores the new id but pays nothing, because the
      tag was paid by the first. */
  lemma RelinkEarnsNothing(s: State, userId: UserId, provider: string, first: string, second: string)
    requires userId < |s.users| && SocialColumn(provider) in UserColumns
    ensures var s1 := LinkSocialAccountStep(s, userId, provider, first).next;
      var s2 := UnlinkSocialAccountStep(s1, userId, provider).next;
      var s3 := LinkSocialAccountStep(s2, userId, provider, second).next;
      && s3.history == s1.history
      && Balance(s3.history, userId) == Balance(s1.history, userId)
      && userId < |s3.users| && SocialColumn(provider) in s3.users[userId].fields
      && s3.users[userId].fields[SocialColumn(provider)] == second
  {
    var tag := SocialLinkTag(provider);
    LinkSocialAccountEffect(s, userId, provider, first);
    var s1 := LinkSocialAccountStep(s, userId, provider, first).next;
    assert userId < |s1.users| && HasEntry(s1.history, userId, tag);
    UnlinkSocialAccountEffect(s1, userId, provider);
    var s2 := UnlinkSocialAccountStep(s1, userId, provider).next;
    assert userId < |s2.users| && s2.history == s1.history;
    LinkSocialAccountEffect(s2, userId, provider, second);
    var s3 := LinkSocialAccountStep(s2, userId, provider, second).next;
    assert s3.history == s2.history;
  }

  // getSocialAccounts

  datatype SocialAccount = SocialAccount(provider: string, socialId: string)

  /** The accounts of these providers whose column holds a truthy id, in the providers' order. */
  function LinkedFrom(providers: seq<string>, fields: map<string, string>): seq<SocialAccount> {
    if providers == [] then []
    else
      Entry(fields, providers[0]) + LinkedFrom(providers[1..], fields)
  }

  function LinkedAccounts(fields: map<string, string>): seq<SocialAccount> {
    LinkedFrom(SocialProviders, fields)
  }

  /** `getSocialAccounts`: not found for a missing user; otherwise one push per set column, in order. */
  method GetSocialAccounts(db: Database, userId: UserId) returns (r: Result<seq<SocialAccount>>)
    ensures userId >= |db.users| ==> r == Err(NotFound(UserMissing))
    ensures userId < |db.users| ==> r == Ok(LinkedAccounts(db.users[userId].fields))
  {
    if userId >= |db.users| {
      return Err(NotFound(UserMissing));
    }
    var user := db.users[userId].fields;
    var accounts: seq<SocialAccount> := [];
    assert "twitter" + "Id" == "twitterId" && "instagram" + "Id" == "instagramId" && "facebook" + "Id" == "facebookId"
      && "twitch" + "Id" == "twitchId" && "discord" + "Id" == "discordId";
    if Truthy(user, "twitterId") {
      accounts := accounts + [SocialAccount("twitter", user["twitterId"])];
    }
    assert accounts == Entry(user, "twitter");
    if Truthy(user, "instagramId") {
      accounts := accounts + [SocialAccount("instagram", user["instagramId"])];
    }
    assert accounts == Entry(user, "twitter") + Entry(user, "instagram");
    if Truthy(user, "facebookId") {
      accounts := accounts + [SocialAccount("facebook", user["facebookId"])];
    }
    assert accounts == Entry(user, "twitter") + Entry(user, "instagram") + Entry(user, "facebook");
    if Truthy(user, "twitchId") {
      accounts := accounts + [SocialAccount("twitch", user["twitchId"])];
    }
    assert accounts == Entry(user, "twitter") + Entry(user, "instagram") + Entry(user, "facebook") + Entry(user, "twitch");
    if Truthy(user, "discordId") {
      accounts := accounts + [SocialAccount("discord", user["discordId"])];
    }
    assert accounts == Entry(user, "twitter") + Entry(user, "instagram") + Entry(user, "facebook") + Entry(user, "twitch")
      + Entry(user, "discord");
    LinkedAccountsUnfolded(user);
    return Ok(accounts);
  }

  function Entry(fields: map<string, string>, p: string): seq<SocialAccount> {
    if Truthy(fields, p + "Id") then [SocialAccount(p, fields[p + "Id"])] else []
  }

  lemma LinkedFromCons(providers: seq<string>, fields: map<string, string>)
    requires providers != []
    ensures LinkedFrom(providers, fields) == Entry(fields, providers[0]) + LinkedFrom(providers[1..], fields)
  {
  }

  lemma LinkedAccountsUnfolded(fields: map<string, string>)
    ensures LinkedAccounts(fields) == Entry(fields, "twitter") + Entry(fields, "instagram") + Entry(fields, "facebook")
      + Entry(fields, "twitch") + Entry(fields, "discord")
  {
    LinkedFromFive("twitter", "instagram", "facebook", "twitch", "discord", fields);
  }

  lemma LinkedFromFive(a: string, b: string, c: string, d: string, e: string, fields: map<string, string>)
    ensures LinkedFrom([a, b, c, d, e], fields)
      == Entry(fields, a) + Entry(fields, b) + Entry(fields, c) + Entry(fields, d) + Entry(fields, e)
  {
    LinkedFromFiveNested(a, b, c, d, e, fields);
    ConcatAssoc5(Entry(fields, a), Entry(fields, b), Entry(fields, c), Entry(fields, d), Entry(fields, e));
  }

  lemma LinkedFromFiveNested(a: string, b: string, c: string, d: string, e: string, fields: map<string, string>)
    ensures LinkedFrom([a, b, c, d, e], fields)
      == Entry(fields, a) + (Entry(fields, b) + (Entry(fields, c) + (Entry(fields, d) + Entry(fields, e))))
  {
    LinkedFromPrepend(e, [], fields);
    assert [e] + [] == [e];
    LinkedFromPrepend(d, [e], fields);
    assert [d] + [e] == [d, e];
    LinkedFromPrepend(c, [d, e], fields);
    assert [c] + [d, e] == [c, d, e];
    LinkedFromPrepend(b, [c, d, e], fields);
    assert [b] + [c, d, e] == [b, c, d, e];
    LinkedFromPrepend(a, [b, c, d, e], fields);
    assert [a] + [b, c, d, e] == [a, b, c, d, e];
  }

  lemma ConcatAssoc5<T>(x1: seq<T>, x2: seq<T>, x3: seq<T>, x4: seq<T>, x5: seq<T>)
    ensures x1 + (x2 + (x3 + (x4 + x5))) == x1 + x2 + x3 + x4 + x5
  {
    ConcatAssoc(x3, x4, x5);
    ConcatAssoc(x2, x3 + x4, x5);
    ConcatAssoc(x2, x3, x4);
    ConcatAssoc(x1, x2 + x3 + x4, x5);
    ConcatAssoc(x1, x2 + x3, x4);
    ConcatAssoc(x1, x2, x3);
  }

  lemma ConcatAssoc<T>(x: seq<T>, y: seq<T>, z: seq<T>)
    ensures x + (y + z) == x + y + z
  {
  }

  lemma LinkedFromPrepend(p: string, rest: seq<string>, fields: map<string, string>)
    ensures LinkedFrom([p] + rest, fields) == Entry(fields, p) + LinkedFrom(rest, fields)
  {
    var ps := [p] + rest;
    assert ps[0] == p && ps[1..] == rest;
    LinkedFromCons(ps, fields);
  }

  /** The position of `p` in `ps`, or `|ps|` when absent. */
  function IndexOf(ps: seq<string>, p: string): nat {
    if ps == [] then 0 else if ps[0] == p then 0 else 1 + IndexOf(ps[1..], p)
  }

  /** Only listed providers with a truthy id appear, each with its stored id. */
  lemma {:induction false} LinkedFromSound(providers: seq<string>, fields: map<string, string>)
    ensures var r := LinkedFrom(providers, fields);
      && |r| <= |providers|
      && (forall k | 0 <= k < |r| ::
            r[k].provider in providers && Truthy(fields, r[k].provider + "Id") && r[k].socialId == fields[r[k].provider + "Id"])
  {
    if providers != [] {
      var tail := providers[1..];
      LinkedFromSound(tail, fields);
      LinkedFromCons(providers, fields);
      var head := Entry(fields, providers[0]);
      var rest := LinkedFrom(tail, fields);
      var r := LinkedFrom(providers, fields);
      forall k | 0 <= k < |r|
        ensures r[k].provider in providers && Truthy(fields, r[k].provider + "Id") && r[k].socialId == fields[r[k].provider + "Id"]
      {
        if k >= |head| {
          assert r[k] == rest[k - |head|];
          assert r[k].provider in tail;
        }
      }
    }
  }

  /** Every listed provider with a truthy id appears. */
  lemma {:induction false} LinkedFromComplete(providers: seq<string>, fields: map<string, string>)
    ensures var r := LinkedFrom(providers, fields);
      forall p | p in providers && Truthy(fields, p + "Id") :: exists k | 0 <= k < |r| :: r[k].provider == p
  {
    if providers != [] {
      var tail := providers[1..];
      LinkedFromComplete(tail, fields);
      LinkedFromCons(providers, fields);
      var head := Entry(fields, providers[0]);
      var rest := LinkedFrom(tail, fields);
      var r := LinkedFrom(providers, fields);
      forall q | q in providers && Truthy(fields, q + "Id") ensures exists k | 0 <= k < |r| :: r[k].provider == q {
        if q == providers[0] {
          assert r[0].provider == q;
        } else {
          assert q in tail;
          var k :| 0 <= k < |rest| && rest[k].provider == q;
          assert r[k + |head|].provider == q;
        }
      }
    }
  }

  /** Over distinct providers, the list follows the providers' order. */
  lemma {:induction false} LinkedFromOrdered(providers: seq<string>, fields: map<string, string>)
    requires forall i, j | 0 <= i < j < |providers| :: providers[i] != providers[j]
    ensures var r := LinkedFrom(providers, fields);
      forall k, l | 0 <= k < l < |r| :: IndexOf(providers, r[k].provider) < IndexOf(providers, r[l].provider)
  {
    if providers != [] {
      var p := providers[0];
      var tail := providers[1..];
      LinkedFromOrdered(tail, fields);
      LinkedFromSound(tail, fields);
      LinkedFromCons(providers, fields);
      var head := Entry(fields, p);
      var rest := LinkedFrom(tail, fields);
      var r := LinkedFrom(providers, fields);
      forall k | 0 <= k < |rest| ensures rest[k].provider != p && IndexOf(providers, rest[k].provider) == 1 + IndexOf(tail, rest[k].provider) {
        var i :| 0 <= i < |tail| && tail[i] == rest[k].provider;
        assert providers[i + 1] == tail[i];
      }
      forall k, l | 0 <= k < l < |r| ensures IndexOf(providers, r[k].provider) < IndexOf(providers, r[l].provider) {
        assert r[l] == rest[l - |head|];
        if k >= |head| {
          assert r[k] == rest[k - |head|];
        }
      }
    }
  }

  /** `getSocialAccounts` lists exactly the providers with a set id, each once, in the fixed order
      twitter, instagram, facebook, twitch, discord, so at most five. */
  lemma LinkedAccountsListed(fields: map<string, string>)
    ensures var r := LinkedAccounts(fields);
      && |r| <= 5
      && (forall k | 0 <= k < |r| ::
            r[k].provider in SocialProviders && Truthy(fields, r[k].provider + "Id") && r[k].socialId == fields[r[k].provider + "Id"])
      && (forall p | p in SocialProviders && Truthy(fields, p + "Id") :: exists k | 0 <= k < |r| :: r[k].provider == p)
      && (forall k, l | 0 <= k < l < |r| :: IndexOf(SocialProviders, r[k].provider) < IndexOf(SocialProviders, r[l].provider))
  {
    LinkedFromSound(SocialProviders, fields);
    LinkedFromComplete(SocialProviders, fields);
    LinkedFromOrdered(SocialProviders, fields);
  }

  // Terms acceptance

  /** `getTermsAcceptance`: the flag, or an internal error for a missing user (the "not found" thrown
      inside the try is replaced by the catch). */
  function GetTermsAcceptance(s: State, userId: UserId): (r: Result<bool>)
    ensures r.Ok? <==> userId < |s.users|
    ensures r.Ok? ==> r.value == s.users[userId].hasAcceptedTerms
    ensures r.Err? ==> r.error == InternalServerError(TermsReadFailed)
  {
    if userId >= |s.users| then Err(InternalServerError(TermsReadFailed))
    else Ok(s.users[userId].hasAcceptedTerms)
  }

  /** `updateTermsAcceptance`: set the flag and return it; any store error becomes an internal error. */
  function UpdateTermsAcceptanceStep(s: State, userId: UserId, accepted: bool): Step<bool> {
    var updated := SetTermsStep(s, userId, accepted);
    if updated.out.Err? then Step(updated.next, Err(InternalServerError(TermsWriteFailed)))
    else Step(updated.next, Ok(updated.out.value.hasAcceptedTerms))
  }

  method UpdateTermsAcceptance(db: Database, userId: UserId, accepted: bool) returns (r: Result<bool>)
    modifies db
    ensures db.Snapshot() == UpdateTermsAcceptanceStep(old(db.Snapshot()), userId, accepted).next
    ensures r == UpdateTermsAcceptanceStep(old(db.Snapshot()), userId, accepted).out
  {
    var user := db.SetTerms(userId, accepted);
    if user.Err? {
      return Err(InternalServerError(TermsWriteFailed));
    }
    return Ok(user.value.hasAcceptedTerms);
  }

  /** Writing the flag and reading it back gives what was written; for a missing user both fail
      with their internal errors and nothing changes. */
  lemma TermsRoundTrip(s: State, userId: UserId, accepted: bool)
    ensures var st := UpdateTermsAcceptanceStep(s, userId, accepted);
      && (userId < |s.users| ==> st.out == Ok(accepted) && GetTermsAcceptance(st.next, userId) == Ok(accepted))
      && (userId >= |s.users| ==> st == Step(s, Err(InternalServerError(TermsWriteFailed))))
      && st.next.history == s.history
  {
  }

  // create and handleSocialAuth

  /** `create`: store a user with the terms not accepted; store errors propagate unchanged. */
  function CreateStep(s: State, email: string, name: string, hashedPassword: string): Step<User> {
    InsertUserStep(s, name, email, hashedPassword, false)
  }

  method Create(db: Database, email: string, name: string, hashedPassword: string) returns (r: Result<User>)
    modifies db
    ensures db.Snapshot() == CreateStep(old(db.Snapshot()), email, name, hashedPassword).next
    ensures r == CreateStep(old(db.Snapshot()), email, name, hashedPassword).out
  {
    r := db.InsertUser(name, email, hashedPassword, false);
  }

  /** What the provider reports about the token's owner. */
  datatype ProviderProfile = ProviderProfile(id: string, email: string, name: string)

  datatype AuthUser = AuthUser(id: UserId, email: string, name: string)

  datatype SocialAuthResponse = SocialAuthResponse(token: string, user: AuthUser)

  /** `handleSocialAuth`: `verified` is the provider lookup's result, `hashedPassword` the hash of the
      random password and `sign(id, email)` the token. Find the user by email or create one, link the
      provider, and return the token and the user's id, email and name. */
  function HandleSocialAuthStep(s: State, provider: string, verified: Result<ProviderProfile>, hashedPassword: string,
                                sign: (UserId, string) -> string): Step<SocialAuthResponse> {
    if provider !in AuthProviders then Step(s, Err(Failure(UnsupportedProvider)))
    else if verified.Err? then Step(s, Err(verified.error))
    else
      var profile := verified.value;
      var existing := UserWithEmail(s.users, profile.email);
      var found := if existing.Some? then Step(s, Ok(s.users[existing.value]))
                   else CreateStep(s, profile.email, profile.name, hashedPassword);
      if found.out.Err? then Step(found.next, Err(found.out.error))
      else
        var user := found.out.value;
        var linked := LinkSocialAccountStep(found.next, user.id, provider, profile.id);
        if linked.out.Err? then Step(linked.next, Err(linked.out.error))
        else Step(linked.next, Ok(SocialAuthResponse(sign(user.id, user.email), AuthUser(user.id, user.email, user.name))))
  }

  method HandleSocialAuth(db: Database, provider: string, verified: Result<ProviderProfile>, hashedPassword: string,
                          sign: (UserId, string) -> string) returns (r: Result<SocialAuthResponse>)
    modifies db
    ensures db.Snapshot() == HandleSocialAuthStep(old(db.Snapshot()), provider, verified, hashedPassword, sign).next
    ensures r == HandleSocialAuthStep(old(db.Snapshot()), provider, verified, hashedPassword, sign).out
  {
    if provider !in AuthProviders {
      return Err(Failure(UnsupportedProvider));
    }
    if verified.Err? {
      return Err(verified.error);
    }
    var profile := verified.value;
    var existing := UserWithEmail(db.users, profile.email);
    var user: User;
    if existing.Some? {
      user := db.users[existing.value];
    } else {
      var created := Create(db, profile.email, profile.name, hashedPassword);
      match created {
        case Err(e) => return Err(e);
        case Ok(u) => user := u;
      }
    }
    var linked := LinkSocialAccount(db, user.id, provider, profile.id);
    if linked.Err? {
      return Err(linked.error);
    }
    return Ok(SocialAuthResponse(sign(user.id, user.email), AuthUser(user.id, user.email, user.name)));
  }

  /** An unsupported provider (matched case-sensitively) is refused before any lookup or write. */
  lemma SocialAuthUnsupported(s: State, provider: string, verified: Result<ProviderProfile>, hashedPassword: string,
                              sign: (UserId, string) -> string)
    requires provider !in AuthProviders
    ensures HandleSocialAuthStep(s, provider, verified, hashedPassword, sign) == Step(s, Err(Failure(UnsupportedProvider)))
  {
  }

  lemma AuthProviderColumn(provider: string)
    requires provider in AuthProviders
    ensures SocialColumn(provider) == provider + "Id"
    ensures SocialColumn(provider) in UserColumns
  {
    assert Lower(provider) == provider by {
      forall i | 0 <= i < |provider| ensures !IsUpper(provider[i]) {
      }
    }
    if provider == "facebook" {
      assert provider + "Id" == "facebookId";
    } else if provider == "twitter" {
      assert provider + "Id" == "twitterId";
    } else if provider == "twitch" {
      assert provider + "Id" == "twitchId";
    } else if provider == "discord" {
      assert provider + "Id" == "discordId";
    } else {
      assert provider + "Id" == "instagramId";
    }
  }

  /** A known email: that user is reused, no user is created, the provider's id is stored in its
      column, and the token is signed for that user. */
  lemma SocialAuthExistingUser(s: State, provider: string, profile: ProviderProfile, hashedPassword: string,
                               sign: (UserId, string) -> string, i: UserId)
    requires WellFormed(s)
    requires provider in AuthProviders
    requires i < |s.users| && s.users[i].email == profile.email
    ensures var st := HandleSocialAuthStep(s, provider, Ok(profile), hashedPassword, sign);
      && |st.next.users| == |s.users|
      && st.next.users[i].fields == s.users[i].fields[provider + "Id" := profile.id]
      && st.out == Ok(SocialAuthResponse(sign(i, profile.email), AuthUser(i, profile.email, s.users[i].name)))
  {
    assert UserWithEmail(s.users, profile.email) == Some(i);
    AuthProviderColumn(provider);
    LinkSocialAccountEffect(s, i, provider, profile.id);
  }

  /** An unknown email: exactly one user is created, with the provider's name and email, the terms
      not accepted and only the provider's column set, and the token is signed for it. */
  lemma SocialAuthNewUser(s: State, provider: string, profile: ProviderProfile, hashedPassword: string,
                          sign: (UserId, string) -> string)
    requires provider in AuthProviders
    requires forall i | 0 <= i < |s.users| :: s.users[i].email != profile.email
    ensures var st := HandleSocialAuthStep(s, provider, Ok(profile), hashedPassword, sign);
      var n := |s.users|;
      && |st.next.users| == n + 1
      && st.next.users[..n] == s.users
      && st.next.users[n].name == profile.name && st.next.users[n].email == profile.email
      && !st.next.users[n].hasAcceptedTerms
      && st.next.users[n].fields == map[provider + "Id" := profile.id]
      && st.out == Ok(SocialAuthResponse(sign(n, profile.email), AuthUser(n, profile.email, profile.name)))
  {
    var n := |s.users|;
    AuthProviderColumn(provider);
    var created := CreateStep(s, profile.email, profile.name, hashedPassword);
    assert created.out == Ok(User(n, profile.name, profile.email, hashedPassword, 0, false, map[]));
    LinkSocialAccountEffect(created.next, n, provider, profile.id);
    var st := HandleSocialAuthStep(s, provider, Ok(profile), hashedPassword, sign);
    assert st.next.users[..n] == s.users by {
      forall i | 0 <= i < n ensures st.next.users[i] == s.users[i] {
        assert created.next.users[i] == s.users[i];
      }
    }
  }

  // Every operation keeps the store and ledger invariant.

  lemma CreateUserKeepsValid(s: State, name: string, email: string, hashedPassword: string)
    requires Valid(s)
    ensures Valid(CreateUserStep(s, name, email, hashedPassword).next)
  {
    InsertUserKeepsWellFormed(s, name, email, hashedPassword, false);
  }

  lemma UpdateUserKeepsValid(s: State, userId: UserId, dto: Patch)
    requires Valid(s)
    ensures Valid(UpdateUserStep(s, userId, dto).next)
  {
    UpdateFieldsKeepsWellFormed(s, userId, dto);
    AddPointsKeepsValid(UpdateFieldsStep(s, userId, dto).next, userId, 10, ProfileUpdateTag);
  }

  lemma LinkSocialAccountKeepsValid(s: State, userId: UserId, provider: string, socialId: string)
    requires Valid(s)
    ensures Valid(LinkSocialAccountStep(s, userId, provider, socialId).next)
  {
    var patch := map[SocialColumn(provider) := Some(socialId)];
    UpdateFieldsKeepsWellFormed(s, userId, patch);
    AddPointsKeepsValid(UpdateFieldsStep(s, userId, patch).next, userId, 10, SocialLinkTag(provider));
  }

  lemma UnlinkSocialAccountKeepsValid(s: State, userId: UserId, provider: string)
    requires Valid(s)
    ensures Valid(UnlinkSocialAccountStep(s, userId, provider).next)
  {
    UpdateFieldsKeepsWellFormed(s, userId, map[SocialColumn(provider) := None]);
  }

  lemma UpdateTermsAcceptanceKeepsValid(s: State, userId: UserId, accepted: bool)
    requires Valid(s)
    ensures Valid(UpdateTermsAcceptanceStep(s, userId, accepted).next)
  {
    SetTermsKeepsWellFormed(s, userId, accepted);
  }

  lemma HandleSocialAuthKeepsValid(s: State, provider: string, verified: Result<ProviderProfile>, hashedPassword: string,
                                   sign: (UserId, string) -> string)
    requires Valid(s)
    ensures Valid(HandleSocialAuthStep(s, provider, verified, hashedPassword, sign).next)
  {
    if provider in AuthProviders && verified.Ok? {
      var profile := verified.value;
      var existing := UserWithEmail(s.users, profile.email);
      if existing.Some? {
        LinkSocialAccountKeepsValid(s, s.users[existing.value].id, provider, profile.id);
      } else {
        var created := CreateStep(s, profile.email, profile.name, hashedPassword);
        InsertUserKeepsWellFormed(s, profile.name, profile.email, hashedPassword, false);
        if created.out.Ok? {
          LinkSocialAccountKeepsValid(created.next, created.out.value.id, provider, profile.id);
        }
      }
    }
  }
}
