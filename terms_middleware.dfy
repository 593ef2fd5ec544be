/** The terms-of-service gate every request passes through. */
module TermsMiddleware {
  import opened Wrappers
  import opened Text
  import opened Store
  import UserService

  const ExemptPath: string := "/users/terms"
  const UserNotFound: string := "User not found"
  const TermsRequired: string := "Terms of service must be accepted"

  /** Either the request goes on to the next handler or it is refused with an error. */
  datatype Decision = Next | Refuse(error: Error)

  /** `TermsMiddleware.use`: the terms routes and anonymous requests pass; otherwise the caller's
      record must exist and have accepted the terms. `userId` is `None` when the request carries
      no authenticated user. */
  function Gate(s: State, path: string, userId: Option<UserId>): (d: Decision)
    ensures d.Next? <==>
      Contains(path, ExemptPath) || userId.None? || (userId.value < |s.users| && s.users[userId.value].hasAcceptedTerms)
    ensures d.Refuse? ==> d.error == Unauthorized(UserNotFound) || d.error == Unauthorized(TermsRequired)
    ensures d == Refuse(Unauthorized(UserNotFound)) <==>
      !Contains(path, ExemptPath) && userId.Some? && userId.value >= |s.users|
  {
    if Contains(path, ExemptPath) then Next
    else if userId.None? then Next
    else if userId.value >= |s.users| then Refuse(Unauthorized(UserNotFound))
    else if !s.users[userId.value].hasAcceptedTerms then Refuse(Unauthorized(TermsRequired))
    else Next
  }

  /** An exempt path or an anonymous request is decided without looking at the store. */
  lemma GateNeedsNoLookup(s: State, t: State, path: string, userId: Option<UserId>)
    requires Contains(path, ExemptPath) || userId.None?
    ensures Gate(s, path, userId) == Gate(t, path, userId) == Next
  {
  }

  /** Every path under the terms routes is exempt. */
  lemma TermsRoutesExempt(prefix: string, suffix: string, userId: Option<UserId>, s: State)
    ensures Gate(s, prefix + ExemptPath + suffix, userId) == Next
  {
    var path := prefix + ExemptPath + suffix;
    assert path[|prefix|..|prefix| + |ExemptPath|] == ExemptPath;
    assert OccursAt(path, ExemptPath, |prefix|);
  }

  /** Once a user accepts the terms through the service, the gate lets that user through. */
  lemma AcceptingOpensGate(s: State, path: string, userId: UserId)
    requires userId < |s.users|
    ensures Gate(UserService.UpdateTermsAcceptanceStep(s, userId, true).next, path, Some(userId)) == Next
  {
  }

  /** Withdrawing acceptance closes the gate on every path outside the terms routes. */
  lemma WithdrawingClosesGate(s: State, path: string, userId: UserId)
    requires userId < |s.users| && !Contains(path, ExemptPath)
    ensures Gate(UserService.UpdateTermsAcceptanceStep(s, userId, false).next, path, Some(userId))
      == Refuse(Unauthorized(TermsRequired))
  {
  }
}
