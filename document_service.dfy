/** The document service: the file guards and the model verdict of `validateDocument`, the
    one-document-per-type rule, saving with the document award, listing, lookup and deletion, and
    the camel-case cleanup applied to text extracted from a PDF.

    The model's reply is a parameter: `Ok(Some(c))` for a reply with content `c`, `Ok(None)` for a
    reply without content, `Err(e)` for a failed request. */
module DocumentService {
  import opened Wrappers
  import opened Text
  import opened Paths
  import opened Store
  import opened PointsService

  const AllowedExtensions: seq<string> := [".pdf", ".jpg", ".jpeg", ".png"]

  /** Ten megabytes: `size / (1024 * 1024) > 10` is `size > MaxSize` on whole bytes. */
  const MaxSize: nat := 10 * 1024 * 1024

  const InvalidType: string := "Tipo de arquivo inválido. Apenas PDF, JPG, JPEG e PNG são permitidos."
  const TooLarge: string := "Arquivo muito grande. O tamanho máximo permitido é 10MB."
  const ValidationFailed: string := "Erro ao validar documento: "
  const DocumentValidationTag: string := "DOCUMENT_VALIDATION"
  const DocumentNotFound: string := "Documento não encontrado."

  // validateDocument

  /** The file's extension, lower-cased, is one of the allowed ones. */
  predicate HasAllowedExtension(path: string) {
    Lower(Extname(path)) in AllowedExtensions
  }

  /** `validateDocument(path)` for a file of `size` bytes: the extension guard, the size guard,
      then the verdict "the lower-cased reply contains `sim`". Every error, the guards' included,
      is rethrown as an internal error carrying its message. */
  function ValidateDocument(path: string, size: nat, reply: Result<Option<string>>): (r: Result<bool>)
    ensures r.Ok? <==> HasAllowedExtension(path) && size <= MaxSize && reply.Ok?
    ensures r.Ok? ==> (r.value <==> reply.value.Some? && Contains(Lower(reply.value.value), "sim"))
    ensures !HasAllowedExtension(path) ==> r == Err(InternalServerError(ValidationFailed + InvalidType))
    ensures HasAllowedExtension(path) && size > MaxSize ==> r == Err(InternalServerError(ValidationFailed + TooLarge))
    ensures r.Err? ==> r.error.InternalServerError?
  {
    if !HasAllowedExtension(path) then Err(InternalServerError(ValidationFailed + BadRequest(InvalidType).Message()))
    else if size > MaxSize then Err(InternalServerError(ValidationFailed + BadRequest(TooLarge).Message()))
    else Verdict(reply)
  }

  /** The model's verdict, once the guards have passed: a failed request is rethrown wrapped. */
  function Verdict(reply: Result<Option<string>>): (r: Result<bool>)
    ensures r.Ok? <==> reply.Ok?
    ensures r.Ok? ==> (r.value <==> reply.value.Some? && Contains(Lower(reply.value.value), "sim"))
    ensures r.Err? ==> r.error == InternalServerError(ValidationFailed + reply.error.Message())
  {
    match reply
    case Err(e) => Err(InternalServerError(ValidationFailed + e.Message()))
    case Ok(None) => Ok(false)
    case Ok(Some(content)) => Ok(Contains(Lower(content), "sim"))
  }

  /** The extension is compared lower-cased, so a `.PDF` file of exactly ten megabytes with the
      reply "Sim" is accepted, and one byte more is refused. */
  lemma ValidateUpperCaseAtLimit(name: string)
    requires name != [] && '.' !in name && '/' !in name
    ensures ValidateDocument(name + ".PDF", MaxSize, Ok(Some("Sim"))) == Ok(true)
    ensures ValidateDocument(name + ".PDF", MaxSize + 1, Ok(Some("Sim"))) == Err(InternalServerError(ValidationFailed + TooLarge))
  {
    UpperCasePdfAllowed(name);
    SimAccepted();
  }

  lemma UpperCasePdfAllowed(name: string)
    requires name != [] && '.' !in name && '/' !in name
    ensures HasAllowedExtension(name + ".PDF")
  {
    ExtnameOfPdf(name);
    LowerPdf();
    assert Lower(Extname(name + ".PDF")) == AllowedExtensions[0];
  }

  lemma ExtnameOfPdf(name: string)
    requires name != [] && '.' !in name && '/' !in name
    ensures Extname(name + ".PDF") == ".PDF"
  {
    var e := ".PDF";
    assert e[1..] == "PDF";
    ExtnameAfterPlainPrefix(name, e);
  }

  lemma SimAccepted()
    ensures Contains(Lower("Sim"), "sim")
  {
    assert Lower("Sim") == "sim" by {
      assert Lower("Sim")[0] == 's';
    }
    assert OccursAt("sim", "sim", 0);
  }

  lemma LowerPdf()
    ensures Lower(".PDF") == ".pdf"
  {
    var r := Lower(".PDF");
    assert |r| == 4 && r[0] == '.' && r[1] == 'p' && r[2] == 'd' && r[3] == 'f';
  }

  /** A reply without content rejects the document, and the size guard runs before the model is
      asked, so an oversized file is refused whatever the reply. */
  lemma ValidateGuardsFirst(path: string, size: nat, reply: Result<Option<string>>, other: Result<Option<string>>)
    ensures HasAllowedExtension(path) && size <= MaxSize ==> ValidateDocument(path, size, Ok(None)) == Ok(false)
    ensures size > MaxSize ==> ValidateDocument(path, size, reply) == ValidateDocument(path, size, other)
  {
  }

  // checkDuplicateDocumentType

  function DuplicateMessage(docType: string): string {
    "Você já enviou um documento do tipo " + Upper(docType) + ". Não é permitido enviar documentos duplicados."
  }

  /** `checkDuplicateDocumentType`: refused iff the user already has a document of that exact type. */
  function DuplicateCheck(s: State, userId: UserId, docType: string): (r: Result<()>)
    ensures r.Err? <==> HasDocumentOfType(s.documents, userId, docType)
    ensures r.Err? ==> r.error == BadRequest(DuplicateMessage(docType))
  {
    if HasDocumentOfType(s.documents, userId, docType) then Err(BadRequest(DuplicateMessage(docType))) else Ok(())
  }

  method CheckDuplicateDocumentType(db: Database, userId: UserId, docType: string) returns (r: Result<()>)
    ensures r == DuplicateCheck(db.Snapshot(), userId, docType)
  {
    var existing := db.FindFirstDocumentOfType(userId, docType);
    if existing.Some? {
      return Err(BadRequest(DuplicateMessage(docType)));
    }
    return Ok(());
  }

  // saveDocument

  /** `saveDocument`: the duplicate check, then one new document, then the award of 10 under
      `DOCUMENT_VALIDATION`; the new document is returned. */
  function SaveDocumentStep(s: State, userId: UserId, filename: string, docType: string): Step<Document> {
    var check := DuplicateCheck(s, userId, docType);
    if check.Err? then Step(s, Err(check.error))
    else
      var created := InsertDocumentStep(s, filename, userId, docType);
      if created.out.Err? then created
      else
        var award := AddPointsStep(created.next, userId, 10, DocumentValidationTag);
        if award.out.Err? then Step(award.next, Err(award.out.error)) else Step(award.next, created.out)
  }

  method SaveDocument(db: Database, userId: UserId, filename: string, docType: string) returns (r: Result<Document>)
    modifies db
    ensures db.Snapshot() == SaveDocumentStep(old(db.Snapshot()), userId, filename, docType).next
    ensures r == SaveDocumentStep(old(db.Snapshot()), userId, filename, docType).out
  {
    var check := CheckDuplicateDocumentType(db, userId, docType);
    if check.Err? {
      return Err(check.error);
    }
    var document := db.InsertDocument(filename, userId, docType);
    if document.Err? {
      return document;
    }
    var award := PointsService.AddPoints(db, userId, 10, DocumentValidationTag);
    if award.Err? {
      return Err(award.error);
    }
    return document;
  }

  /** A user holds at most one document of each type. */
  ghost predicate OneDocumentPerType(docs: seq<Document>) {
    forall k, l | 0 <= k < l < |docs| :: !(docs[k].userId == docs[l].userId && docs[k].docType == docs[l].docType)
  }

  /** A duplicate type is refused with nothing written. */
  lemma SaveDuplicate(s: State, userId: UserId, filename: string, docType: string)
    requires HasDocumentOfType(s.documents, userId, docType)
    ensures SaveDocumentStep(s, userId, filename, docType) == Step(s, Err(BadRequest(DuplicateMessage(docType))))
  {
  }

  /** A new type for an existing user: exactly one document is appended and returned, and the
      document award (10 more on the user's counter, one entry) is paid unless it was paid before,
      whatever the type. No other user changes. */
  lemma SaveFresh(s: State, userId: UserId, filename: string, docType: string)
    requires userId < |s.users| && !HasDocumentOfType(s.documents, userId, docType)
    ensures var st := SaveDocumentStep(s, userId, filename, docType);
      var d := Document(s.clock, filename, userId, docType, s.clock);
      var paid := !HasEntry(s.history, userId, DocumentValidationTag);
      && st.out == Ok(d)
      && |st.next.users| == |s.users|
      && st.next.users == (if paid then s.users[userId := s.users[userId].(points := s.users[userId].points + 10)] else s.users)
      && st.next.clock == (if paid then s.clock + 2 else s.clock + 1)
      && st.next.documents == s.documents + [d]
      && st.next.history == (if HasEntry(s.history, userId, DocumentValidationTag) then s.history
                             else s.history + [PointEntry(userId, 10, DocumentValidationTag, s.clock + 1)])
      && HasEntry(st.next.history, userId, DocumentValidationTag)
  {
    var d := Document(s.clock, filename, userId, docType, s.clock);
    if HasEntry(s.history, userId, DocumentValidationTag) {
      SaveUnpaid(s, userId, filename, docType);
    } else {
      SavePaid(s, userId, filename, docType);
      var h := s.history + [PointEntry(userId, 10, DocumentValidationTag, s.clock + 1)];
      assert h[|h| - 1].userId == userId && h[|h| - 1].action == DocumentValidationTag;
    }
  }

  /** The case of `SaveFresh` where the award is paid. */
  lemma SavePaid(s: State, userId: UserId, filename: string, docType: string)
    requires userId < |s.users| && !HasDocumentOfType(s.documents, userId, docType)
    requires !HasEntry(s.history, userId, DocumentValidationTag)
    ensures var st := SaveDocumentStep(s, userId, filename, docType);
      && st.out == Ok(Document(s.clock, filename, userId, docType, s.clock))
      && st.next.users == s.users[userId := s.users[userId].(points := s.users[userId].points + 10)]
      && st.next.history == s.history + [PointEntry(userId, 10, DocumentValidationTag, s.clock + 1)]
      && st.next.documents == s.documents + [Document(s.clock, filename, userId, docType, s.clock)]
      && st.next.clock == s.clock + 2
  {
    var d := Document(s.clock, filename, userId, docType, s.clock);
    var t := s.(documents := s.documents + [d], clock := s.clock + 1);
    SaveThroughAward(s, userId, filename, docType);
    AddPointsFreshState(t, userId, 10, DocumentValidationTag);
  }

  /** The case of `SaveFresh` where the award was paid before: only the document is added. */
  lemma SaveUnpaid(s: State, userId: UserId, filename: string, docType: string)
    requires userId < |s.users| && !HasDocumentOfType(s.documents, userId, docType)
    requires HasEntry(s.history, userId, DocumentValidationTag)
    ensures var d := Document(s.clock, filename, userId, docType, s.clock);
      SaveDocumentStep(s, userId, filename, docType) == Step(s.(documents := s.documents + [d], clock := s.clock + 1), Ok(d))
  {
    var d := Document(s.clock, filename, userId, docType, s.clock);
    var t := s.(documents := s.documents + [d], clock := s.clock + 1);
    SaveThroughAward(s, userId, filename, docType);
    AddPointsDuplicate(t, userId, 10, DocumentValidationTag);
  }

  /** A new type for an existing user: the save is the insert followed by the award, and it returns
      the new document. */
  lemma SaveThroughAward(s: State, userId: UserId, filename: string, docType: string)
    requires userId < |s.users| && !HasDocumentOfType(s.documents, userId, docType)
    ensures var d := Document(s.clock, filename, userId, docType, s.clock);
      var t := s.(documents := s.documents + [d], clock := s.clock + 1);
      SaveDocumentStep(s, userId, filename, docType) == Step(AddPointsStep(t, userId, 10, DocumentValidationTag).next, Ok(d))
  {
    var d := Document(s.clock, filename, userId, docType, s.clock);
    var created := InsertDocumentStep(s, filename, userId, docType);
    assert created == Step(s.(documents := s.documents + [d], clock := s.clock + 1), Ok(d));
    assert DuplicateCheck(s, userId, docType) == Ok(());
  }

  lemma SaveKeepsOneDocumentPerType(s: State, userId: UserId, filename: string, docType: string)
    requires OneDocumentPerType(s.documents)
    ensures OneDocumentPerType(SaveDocumentStep(s, userId, filename, docType).next.documents)
  {
    if userId < |s.users| && !HasDocumentOfType(s.documents, userId, docType) {
      SaveFresh(s, userId, filename, docType);
    }
  }

  lemma SaveDocumentKeepsValid(s: State, userId: UserId, filename: string, docType: string)
    requires Valid(s)
    ensures Valid(SaveDocumentStep(s, userId, filename, docType).next)
  {
    InsertDocumentKeepsWellFormed(s, filename, userId, docType);
    AddPointsKeepsValid(InsertDocumentStep(s, filename, userId, docType).next, userId, 10, DocumentValidationTag);
  }

  /** Saving documents of two different new types pays the document award once. */
  lemma DocumentAwardPaidOnce(s: State, userId: UserId, f1: string, t1: string, f2: string, t2: string)
    requires userId < |s.users| && t1 != t2
    requires !HasDocumentOfType(s.documents, userId, t1) && !HasDocumentOfType(s.documents, userId, t2)
    requires !HasEntry(s.history, userId, DocumentValidationTag)
    ensures var s1 := SaveDocumentStep(s, userId, f1, t1).next;
      var s2 := SaveDocumentStep(s1, userId, f2, t2).next;
      && Balance(s2.history, userId) == Balance(s.history, userId) + 10
      && Count(s2.history, userId, DocumentValidationTag) == 1
  {
    SaveFresh(s, userId, f1, t1);
    var s1 := SaveDocumentStep(s, userId, f1, t1).next;
    var e := PointEntry(userId, 10, DocumentValidationTag, s.clock + 1);
    assert s1.history == s.history + [e];
    OtherTypeStaysNew(s.documents, Document(s.clock, f1, userId, t1, s.clock), userId, t2);
    SaveFresh(s1, userId, f2, t2);
    var s2 := SaveDocumentStep(s1, userId, f2, t2).next;
    assert s2.history == s1.history;
    FirstEntry(s.history, e);
  }

  /** Adding a document of one type leaves the user without documents of any other type. */
  lemma OtherTypeStaysNew(docs: seq<Document>, d: Document, userId: UserId, t: string)
    requires !HasDocumentOfType(docs, userId, t) && d.docType != t
    ensures !HasDocumentOfType(docs + [d], userId, t)
  {
    var r := docs + [d];
    forall k | 0 <= k < |r| ensures !(r[k].userId == userId && r[k].docType == t) {
      if k < |docs| { assert r[k] == docs[k]; }
    }
  }

  // listDocuments and getDocument

  /** The user's documents, in table order. */
  function DocumentsOf(docs: seq<Document>, userId: UserId): (r: seq<Document>)
    ensures forall d :: d in r <==> d in docs && d.userId == userId
  {
    if docs == [] then []
    else
      assert docs == docs[..|docs| - 1] + [docs[|docs| - 1]];
      DocumentsOf(docs[..|docs| - 1], userId) + (if docs[|docs| - 1].userId == userId then [docs[|docs| - 1]] else [])
  }

  /** `listDocuments`: the user's documents, newest first. */
  function ListDocuments(s: State, userId: UserId): (r: seq<Document>)
    ensures forall d :: d in r <==> d in s.documents && d.userId == userId
  {
    Reverse(DocumentsOf(s.documents, userId))
  }

  ghost predicate DocumentsOldestFirst(docs: seq<Document>) {
    forall k, l | 0 <= k < l < |docs| :: docs[k].createdAt < docs[l].createdAt
  }

  ghost predicate DocumentsNewestFirst(docs: seq<Document>) {
    forall k, l | 0 <= k < l < |docs| :: docs[k].createdAt > docs[l].createdAt
  }

  lemma {:induction false} DocumentsOfOrdered(docs: seq<Document>, userId: UserId)
    requires DocumentsOldestFirst(docs)
    ensures DocumentsOldestFirst(DocumentsOf(docs, userId))
  {
    if docs != [] {
      var p := docs[..|docs| - 1];
      DocumentsOfOrdered(p, userId);
      forall d | d in DocumentsOf(p, userId) ensures d.createdAt < docs[|docs| - 1].createdAt {
        var k :| 0 <= k < |p| && p[k] == d;
      }
    }
  }

  /** In a well-formed store, the listing is ordered by creation time, newest first. */
  lemma ListDocumentsNewestFirst(s: State, userId: UserId)
    requires WellFormed(s)
    ensures DocumentsNewestFirst(ListDocuments(s, userId))
  {
    assert DocumentsOldestFirst(s.documents) by {
      forall k, l | 0 <= k < l < |s.documents| ensures s.documents[k].createdAt < s.documents[l].createdAt {
        assert s.documents[k].id < s.documents[l].id;
      }
    }
    DocumentsOfOrdered(s.documents, userId);
  }

  /** `getDocument`: a document with that id, returned only if it belongs to the user. */
  method GetDocument(db: Database, id: nat, userId: UserId) returns (found: Option<Document>)
    ensures found.Some? ==> found.value in db.documents && found.value.id == id && found.value.userId == userId
    ensures found.None? <==> forall k | 0 <= k < |db.documents| :: !(db.documents[k].id == id && db.documents[k].userId == userId)
  {
    found := db.FindDocument(id, userId);
  }

  // deleteDocument

  /** `deleteDocument`: not found unless the user owns a document with that id; otherwise the row
      with that id is deleted. The stored file's removal is not modelled. */
  function DeleteDocumentStep(s: State, id: nat, userId: UserId): Step<()> {
    if FirstDocument(s.documents, id, userId).None? then Step(s, Err(NotFound(DocumentNotFound)))
    else DeleteDocumentRowStep(s, id)
  }

  method DeleteDocument(db: Database, id: nat, userId: UserId) returns (r: Result<()>)
    modifies db
    ensures db.Snapshot() == DeleteDocumentStep(old(db.Snapshot()), id, userId).next
    ensures r == DeleteDocumentStep(old(db.Snapshot()), id, userId).out
  {
    var document := db.FindDocument(id, userId);
    if document.None? {
      return Err(NotFound(DocumentNotFound));
    }
    r := db.DeleteDocumentRow(id);
  }

  /** A missing or foreign id is refused and nothing is removed. */
  lemma DeleteNotOwned(s: State, id: nat, userId: UserId)
    requires forall k | 0 <= k < |s.documents| :: !(s.documents[k].id == id && s.documents[k].userId == userId)
    ensures DeleteDocumentStep(s, id, userId) == Step(s, Err(NotFound(DocumentNotFound)))
  {
  }

  /** An owned id: that document goes, every other document stays, and the users and the ledger
      (so every balance) are untouched. */
  lemma DeleteOwned(s: State, id: nat, userId: UserId)
    requires exists k | 0 <= k < |s.documents| :: s.documents[k].id == id && s.documents[k].userId == userId
    ensures var st := DeleteDocumentStep(s, id, userId);
      && st.out == Ok(())
      && (forall d :: d in st.next.documents <==> d in s.documents && d.id != id)
      && st.next.users == s.users && st.next.history == s.history
  {
    var k :| 0 <= k < |s.documents| && s.documents[k].id == id && s.documents[k].userId == userId;
    assert FirstDocument(s.documents, id, userId).Some?;
  }

  lemma DeleteDocumentKeepsValid(s: State, id: nat, userId: UserId)
    requires Valid(s)
    ensures Valid(DeleteDocumentStep(s, id, userId).next)
  {
    DeleteDocumentRowKeepsWellFormed(s, id);
  }

  /** A deletion keeps one document per user and type. */
  lemma DeleteKeepsOneDocumentPerType(s: State, id: nat, userId: UserId)
    requires OneDocumentPerType(s.documents)
    ensures OneDocumentPerType(DeleteDocumentStep(s, id, userId).next.documents)
  {
    WithoutDocumentKeepsOneDocumentPerType(s.documents, id);
  }

  lemma {:induction false} WithoutDocumentKeepsOneDocumentPerType(docs: seq<Document>, id: nat)
    requires OneDocumentPerType(docs)
    ensures OneDocumentPerType(WithoutDocument(docs, id))
  {
    if docs != [] {
      var tail := docs[1..];
      assert OneDocumentPerType(tail) by {
        forall k, l | 0 <= k < l < |tail| ensures !(tail[k].userId == tail[l].userId && tail[k].docType == tail[l].docType) {
          assert tail[k] == docs[k + 1] && tail[l] == docs[l + 1];
        }
      }
      WithoutDocumentKeepsOneDocumentPerType(tail, id);
      if docs[0].id != id {
        var rest := WithoutDocument(tail, id);
        forall d | d in rest ensures !(docs[0].userId == d.userId && docs[0].docType == d.docType) {
          var k :| 0 <= k < |tail| && tail[k] == d;
          assert docs[k + 1] == d;
        }
        ConsKeepsOneDocumentPerType(docs[0], rest);
      }
    }
  }

  /** A document of a user and type no other row has can go in front. */
  lemma ConsKeepsOneDocumentPerType(d: Document, rest: seq<Document>)
    requires OneDocumentPerType(rest)
    requires forall e | e in rest :: !(d.userId == e.userId && d.docType == e.docType)
    ensures OneDocumentPerType([d] + rest)
  {
    var r := [d] + rest;
    forall k, l | 0 <= k < l < |r| ensures !(r[k].userId == r[l].userId && r[k].docType == r[l].docType) {
      assert r[l] == rest[l - 1];
      if k > 0 {
        assert r[k] == rest[k - 1];
      }
    }
  }

  /** Upload a new type, delete it, upload that type again: the second upload is accepted but the
      ledger is the one the first upload left. */
  lemma ReuploadEarnsNothing(s: State, userId: UserId, f1: string, f2: string, docType: string)
    requires WellFormed(s) && userId < |s.users| && !HasDocumentOfType(s.documents, userId, docType)
    ensures var first := SaveDocumentStep(s, userId, f1, docType);
      var s2 := DeleteDocumentStep(first.next, first.out.value.id, userId).next;
      var third := SaveDocumentStep(s2, userId, f2, docType);
      && third.out.Ok?
      && third.next.history == first.next.history
  {
    SaveFresh(s, userId, f1, docType);
    var first := SaveDocumentStep(s, userId, f1, docType);
    var d := first.out.value;
    var s1 := first.next;
    assert s1.documents[|s.documents|] == d;
    DeleteOwned(s1, d.id, userId);
    var s2 := DeleteDocumentStep(s1, d.id, userId).next;
    assert s2.users == s1.users && s2.history == s1.history;
    assert forall k | 0 <= k < |s.documents| :: s.documents[k].id < d.id;
    DeletedTypeStaysNew(s.documents, d, s2.documents, userId, docType);
    SaveFresh(s2, userId, f2, docType);
  }

  /** What is left after deleting the newly added document `d` holds no more documents of a type than
      the table before `d` was added. */
  lemma DeletedTypeStaysNew(docs: seq<Document>, d: Document, rest: seq<Document>, userId: UserId, docType: string)
    requires !HasDocumentOfType(docs, userId, docType)
    requires forall k | 0 <= k < |docs| :: docs[k].id < d.id
    requires forall x :: x in rest <==> x in docs + [d] && x.id != d.id
    ensures !HasDocumentOfType(rest, userId, docType)
  {
    forall k | 0 <= k < |rest| ensures !(rest[k].userId == userId && rest[k].docType == docType) {
      var x := rest[k];
      assert x in docs + [d];
      var j :| 0 <= j < |docs + [d]| && (docs + [d])[j] == x;
      if j < |docs| { assert x == docs[j]; }
    }
  }

  // The cleanup of text extracted from a PDF.

  predicate CamelPair(a: char, b: char) {
    IsLower(a) && IsUpper(b)
  }

  /** `text.replace(/([a-z])([A-Z])/g, '$1 $2')`, as the regular expression engine scans: at each
      position a match emits both letters with a space between and resumes after them. */
  function SplitCamelCase(s: string): string {
    if |s| < 2 then s
    else if CamelPair(s[0], s[1]) then [s[0], ' ', s[1]] + SplitCamelCase(s[2..])
    else [s[0]] + SplitCamelCase(s[1..])
  }

  /** The intended effect, stated character by character: a space after every lower-case letter that
      is directly followed by an upper-case one. */
  function Spaced(s: string): string {
    if |s| < 2 then s
    else if CamelPair(s[0], s[1]) then [s[0], ' '] + Spaced(s[1..])
    else [s[0]] + Spaced(s[1..])
  }

  predicate NoCamelPairs(s: string) {
    forall i | 0 <= i < |s| - 1 :: !CamelPair(s[i], s[i + 1])
  }

  /** `s` with its spaces removed. */
  function WithoutSpaces(s: string): string {
    if s == [] then [] else (if s[0] == ' ' then [] else [s[0]]) + WithoutSpaces(s[1..])
  }

  /** Skipping the second letter of a match loses no pair: it is upper case, so it cannot start one. */
  lemma {:induction false} SplitCamelCaseIsSpaced(s: string)
    ensures SplitCamelCase(s) == Spaced(s)
  {
    if |s| >= 2 {
      if CamelPair(s[0], s[1]) {
        SplitCamelCaseIsSpaced(s[2..]);
        assert s[1..][1..] == s[2..];
        if |s| == 2 {
          assert Spaced(s[1..]) == [s[1]];
        } else {
          assert !CamelPair(s[1], s[2]);
          assert Spaced(s[1..]) == [s[1]] + Spaced(s[2..]);
        }
      } else {
        SplitCamelCaseIsSpaced(s[1..]);
      }
    }
  }

  lemma {:induction false} SpacedStartsWith(s: string)
    requires s != []
    ensures Spaced(s) != [] && Spaced(s)[0] == s[0]
  {
  }

  /** After the cleanup no lower-case letter is directly followed by an upper-case one. */
  lemma {:induction false} SpacedHasNoCamelPairs(s: string)
    ensures NoCamelPairs(Spaced(s))
  {
    if |s| >= 2 {
      SpacedHasNoCamelPairs(s[1..]);
      var rest := Spaced(s[1..]);
      SpacedStartsWith(s[1..]);
      var r := Spaced(s);
      if CamelPair(s[0], s[1]) {
        assert r == [s[0], ' '] + rest;
        forall i | 0 <= i < |r| - 1 ensures !CamelPair(r[i], r[i + 1]) {
          if i >= 2 { assert r[i] == rest[i - 2] && r[i + 1] == rest[i - 1]; }
        }
      } else {
        assert r == [s[0]] + rest;
        forall i | 0 <= i < |r| - 1 ensures !CamelPair(r[i], r[i + 1]) {
          if i >= 1 { assert r[i] == rest[i - 1] && r[i + 1] == rest[i]; }
        }
      }
    }
  }

  /** Text without such pairs is left as it is. */
  lemma {:induction false} SpacedFixesNoCamelPairs(s: string)
    requires NoCamelPairs(s)
    ensures Spaced(s) == s
  {
    if |s| >= 2 {
      assert !CamelPair(s[0], s[1]);
      assert NoCamelPairs(s[1..]) by {
        forall i | 0 <= i < |s[1..]| - 1 ensures !CamelPair(s[1..][i], s[1..][i + 1]) {
          assert s[1..][i] == s[i + 1] && s[1..][i + 1] == s[i + 2];
        }
      }
      SpacedFixesNoCamelPairs(s[1..]);
      assert [s[0]] + s[1..] == s;
    }
  }

  /** Cleaning twice is cleaning once. */
  lemma SplitCamelCaseIdempotent(s: string)
    ensures SplitCamelCase(SplitCamelCase(s)) == SplitCamelCase(s)
  {
    SplitCamelCaseIsSpaced(s);
    SplitCamelCaseIsSpaced(Spaced(s));
    SpacedHasNoCamelPairs(s);
    SpacedFixesNoCamelPairs(Spaced(s));
  }

  lemma {:induction false} WithoutSpacesAppend(a: string, b: string)
    ensures WithoutSpaces(a + b) == WithoutSpaces(a) + WithoutSpaces(b)
  {
    if a != [] {
      assert (a + b)[1..] == a[1..] + b;
      WithoutSpacesAppend(a[1..], b);
    } else {
      assert a + b == b;
    }
  }

  /** Only spaces are inserted: with the spaces taken out, the text is unchanged. */
  lemma {:induction false} SplitCamelCaseAddsOnlySpaces(s: string)
    ensures WithoutSpaces(SplitCamelCase(s)) == WithoutSpaces(s)
  {
    SplitCamelCaseIsSpaced(s);
    SpacedAddsOnlySpaces(s);
  }

  lemma {:induction false} SpacedAddsOnlySpaces(s: string)
    ensures WithoutSpaces(Spaced(s)) == WithoutSpaces(s)
  {
    if |s| >= 2 {
      SpacedAddsOnlySpaces(s[1..]);
      assert s == [s[0]] + s[1..];
      WithoutSpacesAppend([s[0]], s[1..]);
      if CamelPair(s[0], s[1]) {
        WithoutSpacesAppend([s[0], ' '], Spaced(s[1..]));
        assert WithoutSpaces([s[0], ' ']) == [s[0]] by {
          assert [s[0], ' '][1..] == [' '];
          assert [' '][1..] == [];
        }
      } else {
        WithoutSpacesAppend([s[0]], Spaced(s[1..]));
      }
    }
  }
}
