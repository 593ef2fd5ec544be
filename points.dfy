/** The points ledger: a stored per-user counter (`user.points`) and the append-only
    `pointHistory` table of `(userId, points, action)` entries.

    - an award is paid at most once per exact `(user, action)` tag;
    - the balance a reader sees is the sum of the user's entries, never the stored counter;
    - a redemption is a debit entry guarded by that balance, with no tag deduplication,
      that leaves the stored counter alone. */
module PointsService {
  import opened Wrappers
  import opened Text
  import opened Store

  const RedemptionPrefix: string := "REDEMPTION_"

  const InsufficientPoints: string := "Pontos insuficientes para resgate"

  /** The action tag of a redemption of `rewardId`. */
  function RedemptionTag(rewardId: string): string {
    RedemptionPrefix + rewardId
  }

  predicate IsRedemptionTag(action: string) {
    StartsWith(action, RedemptionPrefix)
  }

  /** The user's entries, oldest first. */
  function EntriesOf(h: seq<PointEntry>, u: UserId): (r: seq<PointEntry>)
    ensures |r| <= |h|
    ensures forall e :: e in r <==> e in h && e.userId == u
  {
    if h == [] then []
    else
      assert h == h[..|h| - 1] + [h[|h| - 1]];
      EntriesOf(h[..|h| - 1], u) + (if h[|h| - 1].userId == u then [h[|h| - 1]] else [])
  }

  /** `entries.reduce((sum, e) => sum + e.points, 0)` */
  function Sum(h: seq<PointEntry>): int {
    if h == [] then 0 else Sum(h[..|h| - 1]) + h[|h| - 1].points
  }

  /** A user's balance: the sum of the amounts of their entries. */
  function Balance(h: seq<PointEntry>, u: UserId): int {
    Sum(EntriesOf(h, u))
  }

  /** The number of entries with exactly this user and this tag. */
  function Count(h: seq<PointEntry>, u: UserId, action: string): nat {
    if h == [] then 0
    else Count(h[..|h| - 1], u, action) + (if h[|h| - 1].userId == u && h[|h| - 1].action == action then 1 else 0)
  }

  /** Newest first. */
  function Reverse<T(==, !new)>(h: seq<T>): (r: seq<T>)
    ensures |r| == |h|
    ensures forall k | 0 <= k < |h| :: r[k] == h[|h| - 1 - k]
    ensures forall e :: e in r <==> e in h
  {
    if h == [] then []
    else
      assert h == h[..|h| - 1] + [h[|h| - 1]];
      [h[|h| - 1]] + Reverse(h[..|h| - 1])
  }

  ghost predicate OldestFirst(h: seq<PointEntry>) {
    forall k, l | 0 <= k < l < |h| :: h[k].createdAt < h[l].createdAt
  }

  ghost predicate NewestFirst(h: seq<PointEntry>) {
    forall k, l | 0 <= k < l < |h| :: h[k].createdAt > h[l].createdAt
  }

  /** A tag is ever repeated for a user only by a redemption entry: every award tag is paid once. */
  ghost predicate AwardsUnique(h: seq<PointEntry>) {
    forall k, l | 0 <= k < l < |h| && h[k].userId == h[l].userId && h[k].action == h[l].action ::
      IsRedemptionTag(h[l].action)
  }

  /** The invariant of the store and the ledger. */
  ghost predicate Valid(s: State) {
    WellFormed(s) && AwardsUnique(s.history)
  }

  // hasActionBeenPerformed

  /** `hasActionBeenPerformed`: whether the user has an entry with exactly this tag. Reads only. */
  method HasActionBeenPerformed(db: Database, userId: UserId, action: string) returns (b: bool)
    ensures b <==> HasEntry(db.history, userId, action)
  {
    var existing := db.FindFirstEntry(userId, action);
    b := existing.Some?;
  }

  // addPoints

  /** `addPoints(userId, points, action)`: a no-op returning null when the tag was already paid;
      otherwise increment the stored counter, append the entry and return the updated user. */
  function AddPointsStep(s: State, userId: UserId, points: int, action: string): Step<Option<User>> {
    if HasEntry(s.history, userId, action) then Step(s, Ok(None))
    else
      var inc := IncrementPointsStep(s, userId, points);
      if inc.out.Err? then Step(inc.next, Err(inc.out.error))
      else
        var created := InsertEntryStep(inc.next, userId, points, action);
        if created.out.Err? then Step(created.next, Err(created.out.error))
        else Step(created.next, Ok(Some(inc.out.value)))
  }

  method AddPoints(db: Database, userId: UserId, points: int, action: string) returns (r: Result<Option<User>>)
    modifies db
    ensures db.Snapshot() == AddPointsStep(old(db.Snapshot()), userId, points, action).next
    ensures r == AddPointsStep(old(db.Snapshot()), userId, points, action).out
  {
    var hasAction := HasActionBeenPerformed(db, userId, action);
    if hasAction {
      return Ok(None);
    }
    var user := db.IncrementPoints(userId, points);
    if user.Err? {
      return Err(user.error);
    }
    var entry := db.InsertEntry(userId, points, action);
    if entry.Err? {
      return Err(entry.error);
    }
    return Ok(Some(user.value));
  }

  // getUserPoints

  datatype PointsView = PointsView(points: int, pointsHistory: seq<PointEntry>)

  /** `getUserPoints`: the user's entries newest first and their sum; `{0, []}` for a missing user.
      The stored counter is not read. */
  function GetUserPoints(s: State, userId: UserId): (r: PointsView)
    ensures userId >= |s.users| ==> r == PointsView(0, [])
    ensures userId < |s.users| ==> r.points == Balance(s.history, userId)
    ensures forall e :: e in r.pointsHistory <==> userId < |s.users| && e in s.history && e.userId == userId
  {
    if userId >= |s.users| then PointsView(0, [])
    else
      var newest := Reverse(EntriesOf(s.history, userId));
      SumReverse(EntriesOf(s.history, userId));
      PointsView(Sum(newest), newest)
  }

  // redeemPoints

  /** `redeemPoints(userId, rewardId, points)`: refuse when the balance is below the cost; otherwise
      append one entry of `-points` tagged `REDEMPTION_<rewardId>`. No tag check, no counter update. */
  function RedeemPointsStep(s: State, userId: UserId, rewardId: string, points: int): Step<PointEntry> {
    if GetUserPoints(s, userId).points < points then Step(s, Err(Failure(InsufficientPoints)))
    else InsertEntryStep(s, userId, -points, RedemptionTag(rewardId))
  }

  method RedeemPoints(db: Database, userId: UserId, rewardId: string, points: int) returns (r: Result<PointEntry>)
    modifies db
    ensures db.Snapshot() == RedeemPointsStep(old(db.Snapshot()), userId, rewardId, points).next
    ensures r == RedeemPointsStep(old(db.Snapshot()), userId, rewardId, points).out
  {
    var userPoints := GetUserPoints(db.Snapshot(), userId);
    if userPoints.points < points {
      return Err(Failure(InsufficientPoints));
    }
    r := db.InsertEntry(userId, -points, RedemptionTag(rewardId));
  }

  // Sums.

  lemma {:induction false} SumAppend(a: seq<PointEntry>, b: seq<PointEntry>)
    ensures Sum(a + b) == Sum(a) + Sum(b)
  {
    if b != [] {
      assert (a + b)[..|a + b| - 1] == a + b[..|b| - 1];
      SumAppend(a, b[..|b| - 1]);
    } else {
      assert a + b == a;
    }
  }

  lemma {:induction false} SumReverse(h: seq<PointEntry>)
    ensures Sum(Reverse(h)) == Sum(h)
  {
    if h != [] {
      var last := h[|h| - 1];
      SumReverse(h[..|h| - 1]);
      SumAppend([last], Reverse(h[..|h| - 1]));
      assert [last][..0] == [];
    }
  }

  lemma EntriesOfAppend(h: seq<PointEntry>, e: PointEntry, u: UserId)
    ensures EntriesOf(h + [e], u) == EntriesOf(h, u) + (if e.userId == u then [e] else [])
  {
    assert (h + [e])[..|h + [e]| - 1] == h;
  }

  /** Appending an entry moves only its owner's balance, by its amount. */
  lemma BalanceAppend(h: seq<PointEntry>, e: PointEntry, u: UserId)
    ensures Balance(h + [e], u) == Balance(h, u) + (if e.userId == u then e.points else 0)
  {
    EntriesOfAppend(h, e, u);
    SumAppend(EntriesOf(h, u), if e.userId == u then [e] else []);
    assert Sum([e]) == Sum([]) + e.points by { assert [e][..0] == []; }
  }

  lemma CountAppend(h: seq<PointEntry>, e: PointEntry, u: UserId, action: string)
    ensures Count(h + [e], u, action) == Count(h, u, action) + (if e.userId == u && e.action == action then 1 else 0)
  {
    assert (h + [e])[..|h + [e]| - 1] == h;
  }

  lemma HasEntryAppend(h: seq<PointEntry>, e: PointEntry, u: UserId, action: string)
    ensures HasEntry(h + [e], u, action) <==> HasEntry(h, u, action) || (e.userId == u && e.action == action)
  {
    var r := h + [e];
    if HasEntry(r, u, action) && !(e.userId == u && e.action == action) {
      var k :| 0 <= k < |r| && r[k].userId == u && r[k].action == action;
      assert k < |h| && h[k] == r[k];
    }
    if HasEntry(h, u, action) {
      var k :| 0 <= k < |h| && h[k].userId == u && h[k].action == action;
      assert r[k] == h[k];
    }
    if e.userId == u && e.action == action {
      assert r[|h|] == e;
    }
  }

  lemma {:induction false} CountPositive(h: seq<PointEntry>, u: UserId, action: string)
    ensures Count(h, u, action) > 0 <==> HasEntry(h, u, action)
  {
    if h != [] {
      var p := h[..|h| - 1];
      CountPositive(p, u, action);
      if HasEntry(p, u, action) {
        var k :| 0 <= k < |p| && p[k].userId == u && p[k].action == action;
        assert h[k] == p[k];
      }
      if HasEntry(h, u, action) && !(h[|h| - 1].userId == u && h[|h| - 1].action == action) {
        var k :| 0 <= k < |h| && h[k].userId == u && h[k].action == action;
        assert p[k] == h[k];
      }
    }
  }

  // The ledger's rules.

  /** Under the invariant, every tag that is not a redemption has at most one entry per user. */
  lemma {:induction false} AwardPaidAtMostOnce(h: seq<PointEntry>, u: UserId, action: string)
    requires AwardsUnique(h)
    requires !IsRedemptionTag(action)
    ensures Count(h, u, action) <= 1
  {
    if h != [] {
      var p := h[..|h| - 1];
      var last := h[|h| - 1];
      assert AwardsUnique(p) by {
        forall k, l | 0 <= k < l < |p| && p[k].userId == p[l].userId && p[k].action == p[l].action
          ensures IsRedemptionTag(p[l].action)
        {
          assert h[k] == p[k] && h[l] == p[l];
        }
      }
      AwardPaidAtMostOnce(p, u, action);
      CountPositive(p, u, action);
    }
  }

  /** A tag already paid: `addPoints` returns null and changes nothing. */
  lemma AddPointsDuplicate(s: State, userId: UserId, points: int, action: string)
    requires HasEntry(s.history, userId, action)
    ensures AddPointsStep(s, userId, points, action) == Step(s, Ok(None))
  {
  }

  /** An unpaid tag for a missing user: the counter update fails and nothing is written. */
  lemma AddPointsMissingUser(s: State, userId: UserId, points: int, action: string)
    requires !HasEntry(s.history, userId, action) && userId >= |s.users|
    ensures AddPointsStep(s, userId, points, action) == Step(s, Err(RecordNotFound))
  {
  }

  /** An unpaid tag: the counter rises by exactly `points`, exactly one entry
      `(userId, points, action)` is appended, nothing else changes, and the updated user is returned. */
  lemma AddPointsFresh(s: State, userId: UserId, points: int, action: string)
    requires !HasEntry(s.history, userId, action) && userId < |s.users|
    ensures var st := AddPointsStep(s, userId, points, action);
      && st.next.users == s.users[userId := s.users[userId].(points := s.users[userId].points + points)]
      && st.next.history == s.history + [PointEntry(userId, points, action, s.clock)]
      && st.next.documents == s.documents
      && st.next.clock == s.clock + 1
      && st.out == Ok(Some(st.next.users[userId]))
      && Balance(st.next.history, userId) == Balance(s.history, userId) + points
      && Count(st.next.history, userId, action) == 1
  {
    AddPointsFreshState(s, userId, points, action);
    FirstEntry(s.history, PointEntry(userId, points, action, s.clock));
  }

  /** The first entry under a tag raises its owner's balance by its points and the tag's count to one. */
  lemma FirstEntry(h: seq<PointEntry>, e: PointEntry)
    requires !HasEntry(h, e.userId, e.action)
    ensures Balance(h + [e], e.userId) == Balance(h, e.userId) + e.points
    ensures Count(h + [e], e.userId, e.action) == 1
  {
    BalanceAppend(h, e, e.userId);
    FirstEntryCounted(h, e);
  }

  lemma FirstEntryCounted(h: seq<PointEntry>, e: PointEntry)
    requires !HasEntry(h, e.userId, e.action)
    ensures Count(h + [e], e.userId, e.action) == 1
  {
    CountAppend(h, e, e.userId, e.action);
    CountPositive(h, e.userId, e.action);
  }

  /** The state `AddPointsFresh` describes, without the ledger's sums. */
  lemma AddPointsFreshState(s: State, userId: UserId, points: int, action: string)
    requires !HasEntry(s.history, userId, action) && userId < |s.users|
    ensures var user := s.users[userId].(points := s.users[userId].points + points);
      AddPointsStep(s, userId, points, action)
        == Step(State(s.users[userId := user], s.history + [PointEntry(userId, points, action, s.clock)], s.documents, s.clock + 1),
                Ok(Some(user)))
  {
    var e := PointEntry(userId, points, action, s.clock);
    var user := s.users[userId].(points := s.users[userId].points + points);
    var inc := IncrementPointsStep(s, userId, points);
    assert inc == Step(s.(users := s.users[userId := user]), Ok(user));
    var created := InsertEntryStep(inc.next, userId, points, action);
    assert created.next == s.(users := s.users[userId := user], history := s.history + [e], clock := s.clock + 1);
  }

  /** Two sequential awards of one tag: the second is a no-op, so one entry and one rise of `points`. */
  lemma AddPointsIdempotent(s: State, userId: UserId, points: int, action: string)
    requires userId < |s.users| && !HasEntry(s.history, userId, action)
    ensures var first := AddPointsStep(s, userId, points, action);
      var second := AddPointsStep(first.next, userId, points, action);
      && second == Step(first.next, Ok(None))
      && Count(second.next.history, userId, action) == 1
      && Balance(second.next.history, userId) == Balance(s.history, userId) + points
  {
    AddPointsFresh(s, userId, points, action);
    var first := AddPointsStep(s, userId, points, action);
    assert first.next.history[|s.history|] == PointEntry(userId, points, action, s.clock);
  }

  lemma AddPointsKeepsValid(s: State, userId: UserId, points: int, action: string)
    requires Valid(s)
    ensures Valid(AddPointsStep(s, userId, points, action).next)
  {
    if !HasEntry(s.history, userId, action) && userId < |s.users| {
      var inc := IncrementPointsStep(s, userId, points);
      IncrementPointsKeepsWellFormed(s, userId, points);
      InsertEntryKeepsWellFormed(inc.next, userId, points, action);
      var h := s.history + [PointEntry(userId, points, action, s.clock)];
      forall k, l | 0 <= k < l < |h| && h[k].userId == h[l].userId && h[k].action == h[l].action
        ensures IsRedemptionTag(h[l].action)
      {
        assert l < |s.history|;
      }
    }
  }

  /** The balance ignores the stored counter: overwriting it changes nothing `getUserPoints` reports. */
  lemma CounterNeverRead(s: State, userId: UserId, u: UserId, counter: int)
    requires u < |s.users|
    ensures GetUserPoints(s.(users := s.users[u := s.users[u].(points := counter)]), userId) == GetUserPoints(s, userId)
  {
  }

  lemma {:induction false} EntriesOfOrdered(h: seq<PointEntry>, u: UserId)
    requires OldestFirst(h)
    ensures OldestFirst(EntriesOf(h, u))
  {
    if h != [] {
      var p := h[..|h| - 1];
      EntriesOfOrdered(p, u);
      forall e | e in EntriesOf(p, u) ensures e.createdAt < h[|h| - 1].createdAt {
        var k :| 0 <= k < |p| && p[k] == e;
      }
    }
  }

  /** The history `getUserPoints` returns is ordered newest first. */
  lemma GetUserPointsNewestFirst(s: State, userId: UserId)
    requires WellFormed(s)
    ensures NewestFirst(GetUserPoints(s, userId).pointsHistory)
  {
    if userId < |s.users| {
      EntriesOfOrdered(s.history, userId);
    }
  }

  /** A redemption the balance does not cover throws and appends nothing. */
  lemma RedeemInsufficient(s: State, userId: UserId, rewardId: string, points: int)
    requires GetUserPoints(s, userId).points < points
    ensures RedeemPointsStep(s, userId, rewardId, points) == Step(s, Err(Failure(InsufficientPoints)))
  {
  }

  /** A covered redemption appends one debit entry, leaves the users (so the counter) alone, and the
      new balance is the old one minus the cost, never negative. */
  lemma RedeemCovered(s: State, userId: UserId, rewardId: string, points: int)
    requires userId < |s.users| && Balance(s.history, userId) >= points
    ensures var st := RedeemPointsStep(s, userId, rewardId, points);
      && st.next.history == s.history + [PointEntry(userId, -points, RedemptionTag(rewardId), s.clock)]
      && st.next.users == s.users
      && st.next.documents == s.documents
      && st.out == Ok(PointEntry(userId, -points, RedemptionTag(rewardId), s.clock))
      && Balance(st.next.history, userId) == Balance(s.history, userId) - points >= 0
  {
    BalanceAppend(s.history, PointEntry(userId, -points, RedemptionTag(rewardId), s.clock), userId);
  }

  /** No deduplication: a reward can be redeemed again while the balance covers it, each time as
      a new entry with the same tag. */
  lemma RedeemRepeatable(s: State, userId: UserId, rewardId: string, points: int)
    requires userId < |s.users| && points >= 0 && Balance(s.history, userId) >= 2 * points
    ensures var first := RedeemPointsStep(s, userId, rewardId, points);
      var second := RedeemPointsStep(first.next, userId, rewardId, points);
      && first.out.Ok? && second.out.Ok?
      && Count(second.next.history, userId, RedemptionTag(rewardId)) == Count(s.history, userId, RedemptionTag(rewardId)) + 2
  {
    var tag := RedemptionTag(rewardId);
    RedeemCovered(s, userId, rewardId, points);
    var first := RedeemPointsStep(s, userId, rewardId, points);
    RedeemCovered(first.next, userId, rewardId, points);
    CountAppend(s.history, PointEntry(userId, -points, tag, s.clock), userId, tag);
    CountAppend(first.next.history, PointEntry(userId, -points, tag, s.clock + 1), userId, tag);
  }

  /** Because a redemption does not touch the stored counter, a counter equal to the balance
      before a non-zero redemption differs from it afterwards. */
  lemma RedeemCounterDrift(s: State, userId: UserId, rewardId: string, points: int)
    requires userId < |s.users| && Balance(s.history, userId) >= points && points != 0
    requires s.users[userId].points == Balance(s.history, userId)
    ensures var st := RedeemPointsStep(s, userId, rewardId, points);
      st.next.users[userId].points != Balance(st.next.history, userId)
  {
    RedeemCovered(s, userId, rewardId, points);
  }

  lemma RedeemKeepsValid(s: State, userId: UserId, rewardId: string, points: int)
    requires Valid(s)
    ensures Valid(RedeemPointsStep(s, userId, rewardId, points).next)
  {
    var tag := RedemptionTag(rewardId);
    RedeemNext(s, userId, rewardId, points);
    if RedeemPointsStep(s, userId, rewardId, points).next != s {
      InsertEntryKeepsWellFormed(s, userId, -points, tag);
      assert IsRedemptionTag(tag) by {
        assert tag[..|RedemptionPrefix|] == RedemptionPrefix;
      }
      RedemptionKeepsAwardsUnique(s.history, PointEntry(userId, -points, tag, s.clock));
    }
  }

  /** A redemption leaves the store as it was or appends its entry. */
  lemma RedeemNext(s: State, userId: UserId, rewardId: string, points: int)
    ensures var next := RedeemPointsStep(s, userId, rewardId, points).next;
      || next == s
      || (userId < |s.users| && next == s.(history := s.history + [PointEntry(userId, -points, RedemptionTag(rewardId), s.clock)], clock := s.clock + 1))
  {
  }

  /** Appending a redemption entry cannot repeat an award tag. */
  lemma RedemptionKeepsAwardsUnique(h: seq<PointEntry>, e: PointEntry)
    requires AwardsUnique(h) && IsRedemptionTag(e.action)
    ensures AwardsUnique(h + [e])
  {
    var r := h + [e];
    forall k, l | 0 <= k < l < |r| && r[k].userId == r[l].userId && r[k].action == r[l].action
      ensures IsRedemptionTag(r[l].action)
    {
      if l < |h| {
        assert r[k] == h[k] && r[l] == h[l];
      }
    }
  }
}
