/** The relational store the backend talks to, as plain sequences: the `user`, `pointHistory`
    and `document` tables, and the handful of queries the services issue against them.

    `State` is a value snapshot of the tables; `Database` is the mutable store the service
    methods change in place. Each store operation is given once as a function from state to
    `Step` (next state and result) and once as a `Database` method proved to agree with it. */
module Store {
  import opened Wrappers

  /** Users are numbered by creation: a user's id is its index in the `user` table. */
  type UserId = nat

  /** The nullable string columns of the `user` table: the ones `getUserById` selects besides id,
      name and email. An update may set them or clear them. */
  const UserColumns: set<string> := {
    "address", "cpf", "interests", "activities", "events", "purchases",
    "twitterId", "instagramId", "facebookId", "twitchId", "discordId",
    "steam", "valorant", "gamersclub", "lol", "cs2", "rainbowSix"
  }

  /** The required string columns of the `user` table. An update may set them but not clear them. */
  const RequiredColumns: set<string> := {"name", "email", "password"}

  /** A row of the `user` table. `fields` holds the nullable string columns that are not null;
      `password` is the stored hash, opaque to the model. */
  datatype User = User(
    id: UserId,
    name: string,
    email: string,
    password: string,
    points: int,
    hasAcceptedTerms: bool,
    fields: map<string, string>)

  /** A row of the `pointHistory` table. */
  datatype PointEntry = PointEntry(userId: UserId, points: int, action: string, createdAt: nat)

  /** A row of the `document` table; `url` is the stored file name. */
  datatype Document = Document(id: nat, url: string, userId: UserId, docType: string, createdAt: nat)

  /** The three tables and the clock that stamps new rows (ids and `createdAt` both come from it). */
  datatype State = State(users: seq<User>, history: seq<PointEntry>, documents: seq<Document>, clock: nat)

  /** One operation's effect: the state after it and what it returned or threw. */
  datatype Step<T> = Step(next: State, out: Result<T>)

  const Empty: State := State([], [], [], 0)

  /** `record[k]` is truthy in JavaScript: present, not null and not the empty string. */
  predicate Truthy(fields: map<string, string>, k: string) {
    k in fields && fields[k] != ""
  }

  /** The `data` of an update: `Some(v)` writes v, `None` writes null. */
  type Patch = map<string, Option<string>>

  function Apply(fields: map<string, string>, patch: Patch): (r: map<string, string>)
    ensures forall k | k in patch :: (patch[k].Some? <==> k in r) && (k in r ==> r[k] == patch[k].value)
    ensures forall k | k !in patch :: (k in r <==> k in fields) && (k in r ==> r[k] == fields[k])
  {
    map k | k in fields.Keys + patch.Keys && (k in patch ==> patch[k].Some?) ::
      if k in patch then patch[k].value else fields[k]
  }

  /** The nullable columns a patch names, with what it writes into them. */
  function NullablePart(patch: Patch): (r: Patch)
    ensures r.Keys == patch.Keys * UserColumns
    ensures forall k | k in r :: r[k] == patch[k]
  {
    map k | k in patch.Keys * UserColumns :: patch[k]
  }

  /** What an update leaves in a required column. */
  function RequiredValue(patch: Patch, column: string, current: string): string {
    if column in patch && patch[column].Some? then patch[column].value else current
  }

  /** The row an accepted update leaves: the required columns the patch names take its values, the
      nullable ones are set or cleared, and the id, the counter and the terms flag are untouched. */
  function Write(u: User, patch: Patch): User {
    u.(name := RequiredValue(patch, "name", u.name),
       email := RequiredValue(patch, "email", u.email),
       password := RequiredValue(patch, "password", u.password),
       fields := Apply(u.fields, NullablePart(patch)))
  }

  /** The patch writes null into a required column. */
  predicate NullsRequired(patch: Patch) {
    || ("name" in patch && patch["name"].None?)
    || ("email" in patch && patch["email"].None?)
    || ("password" in patch && patch["password"].None?)
  }

  /** A user other than `id` has this email. */
  predicate EmailTaken(users: seq<User>, id: UserId, email: string) {
    exists j | 0 <= j < |users| :: j != id && users[j].email == email
  }

  /** The store accepts the update: it names only columns of the table, writes no null into a
      required column, the user exists, and no other user has the email it writes. */
  predicate Accepts(s: State, id: UserId, patch: Patch) {
    && patch.Keys <= UserColumns + RequiredColumns
    && !NullsRequired(patch)
    && id < |s.users|
    && !("email" in patch && patch["email"].Some? && EmailTaken(s.users, id, patch["email"].value))
  }

  /** The users, history and documents are consistent: ids are positions, emails are unique, every
      entry and document belongs to a user, and rows are stamped in increasing order before the clock. */
  ghost predicate WellFormed(s: State) {
    && (forall i | 0 <= i < |s.users| :: s.users[i].id == i)
    && (forall i, j | 0 <= i < j < |s.users| :: s.users[i].email != s.users[j].email)
    && (forall k | 0 <= k < |s.history| :: s.history[k].userId < |s.users| && s.history[k].createdAt < s.clock)
    && (forall k, l | 0 <= k < l < |s.history| :: s.history[k].createdAt < s.history[l].createdAt)
    && (forall k | 0 <= k < |s.documents| ::
          s.documents[k].userId < |s.users| && s.documents[k].id < s.clock && s.documents[k].createdAt == s.documents[k].id)
    && (forall k, l | 0 <= k < l < |s.documents| :: s.documents[k].id < s.documents[l].id)
  }

  /** `user.findUnique({ where: { email } })`: the position of the user with that email. */
  function UserWithEmail(users: seq<User>, email: string): (r: Option<UserId>)
    ensures r.Some? ==> r.value < |users| && users[r.value].email == email
    ensures r.None? ==> forall i | 0 <= i < |users| :: users[i].email != email
  {
    if users == [] then None
    else if users[|users| - 1].email == email then Some(|users| - 1)
    else UserWithEmail(users[..|users| - 1], email)
  }

  /** Some history entry carries exactly this user id and this action tag. */
  predicate HasEntry(h: seq<PointEntry>, userId: UserId, action: string) {
    exists k | 0 <= k < |h| :: h[k].userId == userId && h[k].action == action
  }

  /** Some document of this user has exactly this type. */
  predicate HasDocumentOfType(docs: seq<Document>, userId: UserId, docType: string) {
    exists k | 0 <= k < |docs| :: docs[k].userId == userId && docs[k].docType == docType
  }

  /** `document.findFirst({ where: { id, userId } })`. */
  function FirstDocument(docs: seq<Document>, id: nat, userId: UserId): (r: Option<Document>)
    ensures r.Some? ==> r.value in docs && r.value.id == id && r.value.userId == userId
    ensures r.None? ==> forall k | 0 <= k < |docs| :: !(docs[k].id == id && docs[k].userId == userId)
  {
    if docs == [] then None
    else if docs[0].id == id && docs[0].userId == userId then Some(docs[0])
    else FirstDocument(docs[1..], id, userId)
  }

  /** The documents other than the one with this id. */
  function WithoutDocument(docs: seq<Document>, id: nat): (r: seq<Document>)
    ensures forall d :: d in r <==> d in docs && d.id != id
    ensures |r| <= |docs|
  {
    if docs == [] then []
    else if docs[0].id == id then WithoutDocument(docs[1..], id)
    else [docs[0]] + WithoutDocument(docs[1..], id)
  }

  // Store operations as steps.

  /** `user.update({ where: { id }, data: patch })`. */
  function UpdateFieldsStep(s: State, id: UserId, patch: Patch): Step<User> {
    if !(patch.Keys <= UserColumns + RequiredColumns) then Step(s, Err(UnknownArgument))
    else if NullsRequired(patch) then Step(s, Err(NullArgument))
    else if id >= |s.users| then Step(s, Err(RecordNotFound))
    else if "email" in patch && EmailTaken(s.users, id, patch["email"].value) then Step(s, Err(UniqueViolation))
    else
      var u := Write(s.users[id], patch);
      Step(s.(users := s.users[id := u]), Ok(u))
  }

  /** `user.update({ where: { id }, data: { points: { increment: delta } } })`. */
  function IncrementPointsStep(s: State, id: UserId, delta: int): Step<User> {
    if id >= |s.users| then Step(s, Err(RecordNotFound))
    else
      var u := s.users[id].(points := s.users[id].points + delta);
      Step(s.(users := s.users[id := u]), Ok(u))
  }

  /** `user.update({ where: { id }, data: { hasAcceptedTerms: accepted } })`. */
  function SetTermsStep(s: State, id: UserId, accepted: bool): Step<User> {
    if id >= |s.users| then Step(s, Err(RecordNotFound))
    else
      var u := s.users[id].(hasAcceptedTerms := accepted);
      Step(s.(users := s.users[id := u]), Ok(u))
  }

  /** `user.create(...)`: points start at 0, no nullable column is set. */
  function InsertUserStep(s: State, name: string, email: string, password: string, acceptedTerms: bool): Step<User> {
    if UserWithEmail(s.users, email).Some? then Step(s, Err(UniqueViolation))
    else
      var u := User(|s.users|, name, email, password, 0, acceptedTerms, map[]);
      Step(s.(users := s.users + [u]), Ok(u))
  }

  /** `pointHistory.create({ data: { userId, points, action } })`. */
  function InsertEntryStep(s: State, userId: UserId, points: int, action: string): Step<PointEntry> {
    if userId >= |s.users| then Step(s, Err(ForeignKeyViolation))
    else
      var e := PointEntry(userId, points, action, s.clock);
      Step(s.(history := s.history + [e], clock := s.clock + 1), Ok(e))
  }

  /** `document.create({ data: { url, userId, type } })`. */
  function InsertDocumentStep(s: State, url: string, userId: UserId, docType: string): Step<Document> {
    if userId >= |s.users| then Step(s, Err(ForeignKeyViolation))
    else
      var d := Document(s.clock, url, userId, docType, s.clock);
      Step(s.(documents := s.documents + [d], clock := s.clock + 1), Ok(d))
  }

  /** `document.delete({ where: { id } })`. */
  function DeleteDocumentRowStep(s: State, id: nat): Step<()> {
    if forall k | 0 <= k < |s.documents| :: s.documents[k].id != id then Step(s, Err(RecordNotFound))
    else Step(s.(documents := WithoutDocument(s.documents, id)), Ok(()))
  }

  // Each step keeps the store well formed.

  lemma UpdateFieldsKeepsWellFormed(s: State, id: UserId, patch: Patch)
    requires WellFormed(s)
    ensures WellFormed(UpdateFieldsStep(s, id, patch).next)
    ensures UpdateFieldsStep(s, id, patch).next.history == s.history
    ensures UpdateFieldsStep(s, id, patch).next.documents == s.documents
  {
    if Accepts(s, id, patch) {
      var users := UpdateFieldsStep(s, id, patch).next.users;
      forall i, j | 0 <= i < j < |users| ensures users[i].email != users[j].email {
        if "email" in patch && (i == id || j == id) {
          var other := if i == id then j else i;
          assert !(other != id && s.users[other].email == patch["email"].value);
        }
      }
    }
  }

  /** The store's update is accepted exactly when `Accepts` holds, and then writes `Write` into that
      user's row and nothing else; a refused update leaves the store as it was. */
  lemma UpdateFieldsOutcome(s: State, id: UserId, patch: Patch)
    ensures var st := UpdateFieldsStep(s, id, patch);
      && (st.out.Ok? <==> Accepts(s, id, patch))
      && (Accepts(s, id, patch) ==>
            st == Step(s.(users := s.users[id := Write(s.users[id], patch)]), Ok(Write(s.users[id], patch))))
      && (!Accepts(s, id, patch) ==> st.next == s)
  {
  }

  /** What `Write` leaves in each column. */
  lemma WriteEffect(u: User, patch: Patch)
    ensures var r := Write(u, patch);
      && r.id == u.id && r.points == u.points && r.hasAcceptedTerms == u.hasAcceptedTerms
      && ("name" in patch && patch["name"].Some? ==> r.name == patch["name"].value)
      && ("name" !in patch ==> r.name == u.name)
      && ("email" in patch && patch["email"].Some? ==> r.email == patch["email"].value)
      && ("email" !in patch ==> r.email == u.email)
      && ("password" in patch && patch["password"].Some? ==> r.password == patch["password"].value)
      && ("password" !in patch ==> r.password == u.password)
      && (forall k | k in UserColumns && k in patch ::
            (k in r.fields <==> patch[k].Some?) && (k in r.fields ==> r.fields[k] == patch[k].value))
      && (forall k | k !in patch :: (k in r.fields <==> k in u.fields) && (k in r.fields ==> r.fields[k] == u.fields[k]))
  {
  }

  /** An accepted update, as one step. */
  lemma UpdateFieldsAccepted(s: State, id: UserId, patch: Patch)
    requires Accepts(s, id, patch)
    ensures UpdateFieldsStep(s, id, patch) == Step(s.(users := s.users[id := Write(s.users[id], patch)]), Ok(Write(s.users[id], patch)))
  {
  }

  lemma UpdateTwice<T>(xs: seq<T>, i: nat, a: T, b: T)
    requires i < |xs|
    ensures xs[i := a][i := b] == xs[i := b]
  {
  }

  lemma ApplySet(fields: map<string, string>, k: string, v: string)
    ensures Apply(fields, map[k := Some(v)]) == fields[k := v]
  {
    var r := Apply(fields, map[k := Some(v)]);
    assert forall j :: j in r <==> j in fields[k := v];
  }

  lemma ApplyClear(fields: map<string, string>, k: string)
    ensures Apply(fields, map[k := None]) == fields - {k}
  {
    var r := Apply(fields, map[k := None]);
    assert forall j :: j in r <==> j in fields - {k};
  }

  /** The store accepts any update of an existing user that names only nullable columns. */
  lemma NullableAccepted(s: State, id: UserId, patch: Patch)
    requires patch.Keys <= UserColumns && id < |s.users|
    ensures Accepts(s, id, patch)
  {
    assert "name" !in UserColumns && "email" !in UserColumns && "password" !in UserColumns;
  }

  /** An update that names only nullable columns changes only the row's `fields`, as `Apply` says. */
  lemma WriteNullable(u: User, patch: Patch)
    requires patch.Keys <= UserColumns
    ensures Write(u, patch) == u.(fields := Apply(u.fields, patch))
  {
    assert NullablePart(patch) == patch;
    assert "name" !in UserColumns && "email" !in UserColumns && "password" !in UserColumns;
  }

  lemma IncrementPointsKeepsWellFormed(s: State, id: UserId, delta: int)
    requires WellFormed(s)
    ensures WellFormed(IncrementPointsStep(s, id, delta).next)
  {
  }

  lemma SetTermsKeepsWellFormed(s: State, id: UserId, accepted: bool)
    requires WellFormed(s)
    ensures WellFormed(SetTermsStep(s, id, accepted).next)
  {
  }

  lemma InsertUserKeepsWellFormed(s: State, name: string, email: string, password: string, acceptedTerms: bool)
    requires WellFormed(s)
    ensures WellFormed(InsertUserStep(s, name, email, password, acceptedTerms).next)
  {
  }

  lemma InsertEntryKeepsWellFormed(s: State, userId: UserId, points: int, action: string)
    requires WellFormed(s)
    ensures WellFormed(InsertEntryStep(s, userId, points, action).next)
  {
  }

  lemma InsertDocumentKeepsWellFormed(s: State, url: string, userId: UserId, docType: string)
    requires WellFormed(s)
    ensures WellFormed(InsertDocumentStep(s, url, userId, docType).next)
  {
  }

  lemma {:induction false} WithoutDocumentKeepsOrder(docs: seq<Document>, id: nat)
    requires forall k, l | 0 <= k < l < |docs| :: docs[k].id < docs[l].id
    ensures forall k, l | 0 <= k < l < |WithoutDocument(docs, id)| ::
      WithoutDocument(docs, id)[k].id < WithoutDocument(docs, id)[l].id
  {
    if docs != [] {
      WithoutDocumentKeepsOrder(docs[1..], id);
      var rest := WithoutDocument(docs[1..], id);
      forall d | d in rest ensures docs[0].id < d.id {
        var k :| 1 <= k < |docs| && docs[k] == d;
      }
    }
  }

  lemma DeleteDocumentRowKeepsWellFormed(s: State, id: nat)
    requires WellFormed(s)
    ensures WellFormed(DeleteDocumentRowStep(s, id).next)
  {
    if exists k | 0 <= k < |s.documents| :: s.documents[k].id == id {
      var r := WithoutDocument(s.documents, id);
      WithoutDocumentKeepsOrder(s.documents, id);
      forall k | 0 <= k < |r|
        ensures r[k].userId < |s.users| && r[k].id < s.clock && r[k].createdAt == r[k].id
      {
        assert r[k] in s.documents;
      }
    }
  }

  /** The mutable store. */
  class Database {
    var users: seq<User>
    var history: seq<PointEntry>
    var documents: seq<Document>
    var clock: nat

    constructor ()
      ensures Snapshot() == Empty
    {
      users, history, documents, clock := [], [], [], 0;
    }

    function Snapshot(): State
      reads this
    {
      State(users, history, documents, clock)
    }

    /** `pointHistory.findFirst({ where: { userId, action } })`. */
    method FindFirstEntry(userId: UserId, action: string) returns (found: Option<PointEntry>)
      ensures found.Some? <==> HasEntry(history, userId, action)
      ensures found.Some? ==> found.value in history && found.value.userId == userId && found.value.action == action
    {
      var k := 0;
      while k < |history|
        invariant 0 <= k <= |history|
        invariant forall j | 0 <= j < k :: !(history[j].userId == userId && history[j].action == action)
      {
        if history[k].userId == userId && history[k].action == action {
          return Some(history[k]);
        }
        k := k + 1;
      }
      return None;
    }

    /** `document.findFirst({ where: { userId, type } })`. */
    method FindFirstDocumentOfType(userId: UserId, docType: string) returns (found: Option<Document>)
      ensures found.Some? <==> HasDocumentOfType(documents, userId, docType)
      ensures found.Some? ==> found.value in documents && found.value.userId == userId && found.value.docType == docType
    {
      var k := 0;
      while k < |documents|
        invariant 0 <= k <= |documents|
        invariant forall j | 0 <= j < k :: !(documents[j].userId == userId && documents[j].docType == docType)
      {
        if documents[k].userId == userId && documents[k].docType == docType {
          return Some(documents[k]);
        }
        k := k + 1;
      }
      return None;
    }

    /** `document.findFirst({ where: { id, userId } })`. */
    method FindDocument(id: nat, userId: UserId) returns (found: Option<Document>)
      ensures found == FirstDocument(documents, id, userId)
    {
      var k := 0;
      while k < |documents|
        invariant 0 <= k <= |documents|
        invariant FirstDocument(documents, id, userId) == FirstDocument(documents[k..], id, userId)
      {
        if documents[k].id == id && documents[k].userId == userId {
          return Some(documents[k]);
        }
        assert documents[k..][1..] == documents[k + 1..];
        k := k + 1;
      }
      return None;
    }

    method UpdateFields(id: UserId, patch: Patch) returns (r: Result<User>)
      modifies this
      ensures Snapshot() == UpdateFieldsStep(old(Snapshot()), id, patch).next
      ensures r == UpdateFieldsStep(old(Snapshot()), id, patch).out
    {
      if !(patch.Keys <= UserColumns + RequiredColumns) {
        return Err(UnknownArgument);
      }
      if NullsRequired(patch) {
        return Err(NullArgument);
      }
      if id >= |users| {
        return Err(RecordNotFound);
      }
      if "email" in patch && EmailTaken(users, id, patch["email"].value) {
        return Err(UniqueViolation);
      }
      var u := Write(users[id], patch);
      users := users[id := u];
      return Ok(u);
    }

    method IncrementPoints(id: UserId, delta: int) returns (r: Result<User>)
      modifies this
      ensures Snapshot() == IncrementPointsStep(old(Snapshot()), id, delta).next
      ensures r == IncrementPointsStep(old(Snapshot()), id, delta).out
    {
      if id >= |users| {
        return Err(RecordNotFound);
      }
      var u := users[id].(points := users[id].points + delta);
      users := users[id := u];
      return Ok(u);
    }

    method SetTerms(id: UserId, accepted: bool) returns (r: Result<User>)
      modifies this
      ensures Snapshot() == SetTermsStep(old(Snapshot()), id, accepted).next
      ensures r == SetTermsStep(old(Snapshot()), id, accepted).out
    {
      if id >= |users| {
        return Err(RecordNotFound);
      }
      var u := users[id].(hasAcceptedTerms := accepted);
      users := users[id := u];
      return Ok(u);
    }

    method InsertUser(name: string, email: string, password: string, acceptedTerms: bool) returns (r: Result<User>)
      modifies this
      ensures Snapshot() == InsertUserStep(old(Snapshot()), name, email, password, acceptedTerms).next
      ensures r == InsertUserStep(old(Snapshot()), name, email, password, acceptedTerms).out
    {
      if UserWithEmail(users, email).Some? {
        return Err(UniqueViolation);
      }
      var u := User(|users|, name, email, password, 0, acceptedTerms, map[]);
      users := users + [u];
      return Ok(u);
    }

    method InsertEntry(userId: UserId, points: int, action: string) returns (r: Result<PointEntry>)
      modifies this
      ensures Snapshot() == InsertEntryStep(old(Snapshot()), userId, points, action).next
      ensures r == InsertEntryStep(old(Snapshot()), userId, points, action).out
    {
      if userId >= |users| {
        return Err(ForeignKeyViolation);
      }
      var e := PointEntry(userId, points, action, clock);
      history := history + [e];
      clock := clock + 1;
      return Ok(e);
    }

    method InsertDocument(url: string, userId: UserId, docType: string) returns (r: Result<Document>)
      modifies this
      ensures Snapshot() == InsertDocumentStep(old(Snapshot()), url, userId, docType).next
      ensures r == InsertDocumentStep(old(Snapshot()), url, userId, docType).out
    {
      if userId >= |users| {
        return Err(ForeignKeyViolation);
      }
      var d := Document(clock, url, userId, docType, clock);
      documents := documents + [d];
      clock := clock + 1;
      return Ok(d);
    }

    method DeleteDocumentRow(id: nat) returns (r: Result<()>)
      modifies this
      ensures Snapshot() == DeleteDocumentRowStep(old(Snapshot()), id).next
      ensures r == DeleteDocumentRowStep(old(Snapshot()), id).out
    {
      if forall k | 0 <= k < |documents| :: documents[k].id != id {
        return Err(RecordNotFound);
      }
      documents := WithoutDocument(documents, id);
      return Ok(());
    }
  }
}
