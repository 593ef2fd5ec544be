/** The `users` controller: its profile update, which pays its own award on every call, and the
    significant-update test it declares. The service it delegates the update to is not part of this
    model; its update is taken to be the store's user update. */
module UsersController {
  import opened Wrappers
  import opened Store
  import opened PointsService
  import UserService

  /** The award tag the controller pays; tags are compared exactly, so it is not `PROFILE_UPDATE`. */
  const ControllerProfileTag: string := "profile_update"

  /** The fields whose first setting counts as a significant update. */
  const FieldsToCheck: seq<string> := [
    "address", "cpf", "interests", "activities", "events", "purchases", "steam",
    "epic", "origin", "battleNet", "riot", "xbox", "playstation", "nintendo"
  ]

  /** `dto[k]` is truthy: present, not null and not empty. */
  predicate PatchTruthy(dto: Patch, k: string) {
    k in dto && dto[k].Some? && dto[k].value != ""
  }

  /** Some checked field is truthy in the update and falsy in the current record. */
  predicate Significant(current: map<string, string>, dto: Patch) {
    exists i | 0 <= i < |FieldsToCheck| :: PatchTruthy(dto, FieldsToCheck[i]) && !Truthy(current, FieldsToCheck[i])
  }

  /** `checkSignificantUpdates`: scan the checked fields and stop at the first one the update sets
      for the first time. Both arguments are values, so neither is changed. */
  method CheckSignificantUpdates(current: map<string, string>, dto: Patch) returns (b: bool)
    ensures b <==> Significant(current, dto)
  {
    for i := 0 to |FieldsToCheck|
      invariant forall j | 0 <= j < i :: !(PatchTruthy(dto, FieldsToCheck[j]) && !Truthy(current, FieldsToCheck[j]))
    {
      var field := FieldsToCheck[i];
      if PatchTruthy(dto, field) && !Truthy(current, field) {
        return true;
      }
    }
    return false;
  }

  /** A field outside the checked list, in the update or in the current record, never changes the
      answer. */
  lemma UncheckedFieldsIrrelevant(current: map<string, string>, dto: Patch, k: string, v: Option<string>, w: string)
    requires k !in FieldsToCheck
    ensures Significant(current, dto[k := v]) <==> Significant(current, dto)
    ensures Significant(current[k := w], dto) <==> Significant(current, dto)
  {
    forall i | 0 <= i < |FieldsToCheck|
      ensures PatchTruthy(dto[k := v], FieldsToCheck[i]) == PatchTruthy(dto, FieldsToCheck[i])
      ensures Truthy(current[k := w], FieldsToCheck[i]) == Truthy(current, FieldsToCheck[i])
    {
      assert FieldsToCheck[i] != k;
    }
  }

  /** An update that only repeats values the record already has, or only clears fields, is never
      significant. */
  lemma NothingNewIsNotSignificant(current: map<string, string>, dto: Patch)
    requires forall k | k in dto && dto[k].Some? && dto[k].value != "" :: Truthy(current, k)
    ensures !Significant(current, dto)
  {
  }

  /** `update`: write the update through the service, then always award 10 under `profile_update`,
      whatever the update holds; the updated user is returned. */
  function UpdateStep(s: State, userId: UserId, dto: Patch): Step<User> {
    var updated := UpdateFieldsStep(s, userId, dto);
    if updated.out.Err? then updated
    else
      var award := AddPointsStep(updated.next, userId, 10, ControllerProfileTag);
      if award.out.Err? then Step(award.next, Err(award.out.error)) else Step(award.next, updated.out)
  }

  method Update(db: Database, userId: UserId, dto: Patch) returns (r: Result<User>)
    modifies db
    ensures db.Snapshot() == UpdateStep(old(db.Snapshot()), userId, dto).next
    ensures r == UpdateStep(old(db.Snapshot()), userId, dto).out
  {
    var updatedUser := db.UpdateFields(userId, dto);
    if updatedUser.Err? {
      return updatedUser;
    }
    var award := PointsService.AddPoints(db, userId, 10, ControllerProfileTag);
    if award.Err? {
      return Err(award.error);
    }
    return updatedUser;
  }

  /** Even an empty update earns the controller's award the first time. */
  lemma UpdateAlwaysAwards(s: State, userId: UserId, dto: Patch)
    requires Accepts(s, userId, dto)
    requires !HasEntry(s.history, userId, ControllerProfileTag)
    ensures var st := UpdateStep(s, userId, dto);
      var u := s.users[userId];
      && |st.next.users| == |s.users|
      && st.next.users == s.users[userId := Write(u, dto).(points := u.points + 10)]
      && st.next.history == s.history + [PointEntry(userId, 10, ControllerProfileTag, s.clock)]
      && st.next.documents == s.documents
      && st.next.clock == s.clock + 1
      && Balance(st.next.history, userId) == Balance(s.history, userId) + 10
      && st.out == Ok(Write(u, dto))
  {
    UpdatePaid(s, userId, dto);
    BalanceAppend(s.history, PointEntry(userId, 10, ControllerProfileTag, s.clock), userId);
  }

  /** The state `UpdateAlwaysAwards` describes, without the balance. */
  lemma UpdatePaid(s: State, userId: UserId, dto: Patch)
    requires Accepts(s, userId, dto)
    requires !HasEntry(s.history, userId, ControllerProfileTag)
    ensures var u := s.users[userId];
      var written := Write(u, dto);
      UpdateStep(s, userId, dto) == Step(
        State(s.users[userId := written.(points := u.points + 10)],
              s.history + [PointEntry(userId, 10, ControllerProfileTag, s.clock)], s.documents, s.clock + 1),
        Ok(written))
  {
    var u := s.users[userId];
    var written := Write(u, dto);
    UpdateFieldsAccepted(s, userId, dto);
    var updated := UpdateFieldsStep(s, userId, dto);
    AddPointsFreshState(updated.next, userId, 10, ControllerProfileTag);
    UpdateTwice(s.users, userId, written, written.(points := u.points + 10));
  }

  /** The controller's tag and the service's tag differ, so a user who first updates a profile field
      through the controller and then through the service is paid both awards. */
  lemma BothProfileAwardsPaid(s: State, userId: UserId, dto: Patch)
    requires Accepts(s, userId, dto) && UserService.HasProfileUpdate(dto)
    requires !HasEntry(s.history, userId, ControllerProfileTag)
    requires !HasEntry(s.history, userId, UserService.ProfileUpdateTag)
    ensures var s1 := UpdateStep(s, userId, dto).next;
      var s2 := UserService.UpdateUserStep(s1, userId, dto).next;
      Balance(s2.history, userId) == Balance(s.history, userId) + 20
  {
    var s1 := UpdateStep(s, userId, dto).next;
    assert Accepts(s1, userId, dto)
      && !HasEntry(s1.history, userId, UserService.ProfileUpdateTag)
      && Balance(s1.history, userId) == Balance(s.history, userId) + 10 by {
      UpdateAlwaysAwards(s, userId, dto);
      var e := PointEntry(userId, 10, ControllerProfileTag, s.clock);
      assert ControllerProfileTag != UserService.ProfileUpdateTag;
      HasEntryAppend(s.history, e, userId, UserService.ProfileUpdateTag);
      AcceptsAfterOwnWrite(s, userId, dto, s1);
    }
    UserService.UpdateUserAward(s1, userId, dto);
  }

  /** A store that differs from `s` only in this user's row, with the email `Write` gave it, accepts
      the same update again: the other users' emails are the same. */
  lemma AcceptsAfterOwnWrite(s: State, userId: UserId, dto: Patch, t: State)
    requires Accepts(s, userId, dto)
    requires |t.users| == |s.users| && forall i | 0 <= i < |s.users| && i != userId :: t.users[i] == s.users[i]
    ensures Accepts(t, userId, dto)
  {
  }

  lemma UpdateKeepsValid(s: State, userId: UserId, dto: Patch)
    requires Valid(s)
    ensures Valid(UpdateStep(s, userId, dto).next)
  {
    UpdateFieldsKeepsWellFormed(s, userId, dto);
    AddPointsKeepsValid(UpdateFieldsStep(s, userId, dto).next, userId, 10, ControllerProfileTag);
  }
}
