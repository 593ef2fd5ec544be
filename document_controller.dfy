/** The `documents` controller: the upload guard chain in front of `saveDocument`, the name the
    upload is stored under, and the ownership check on download. */
module DocumentController {
  import opened Wrappers
  import opened Paths
  import opened Store
  import opened PointsService
  import opened DocumentService

  const NoFile: string := "Nenhum arquivo enviado."
  const NoDocumentType: string := "Tipo de documento não especificado."
  const NotAnIdentity: string := "Documento inválido. Envie um documento oficial de identidade."
  const Saved: string := "Documento validado e salvo com sucesso."

  /** The upload as the disk storage left it: `path` is where it was written, `filename` the name it was
      stored under, `size` its length in bytes. */
  datatype UploadedFile = UploadedFile(fieldname: string, originalname: string, filename: string, path: string, size: nat)

  datatype UploadResponse = UploadResponse(success: bool, message: string)

  /** The disk storage's `filename` callback: the form field, a dash, a unique suffix (a time and a
      random number, a parameter here) and the original name's extension. */
  function StoredFilename(fieldname: string, uniqueSuffix: string, originalname: string): string {
    fieldname + "-" + uniqueSuffix + Extname(originalname)
  }

  /** With a plain field name and suffix, the stored file, and the path it is written to, have
      exactly the original file's extension, so the guard sees the extension the user sent. */
  lemma StoredFilenameKeepsExtension(dir: string, fieldname: string, uniqueSuffix: string, originalname: string)
    requires fieldname != [] && '.' !in fieldname && '/' !in fieldname
    requires '.' !in uniqueSuffix && '/' !in uniqueSuffix
    ensures Extname(StoredFilename(fieldname, uniqueSuffix, originalname)) == Extname(originalname)
    ensures Extname(dir + "/" + StoredFilename(fieldname, uniqueSuffix, originalname)) == Extname(originalname)
  {
    var prefix := fieldname + "-" + uniqueSuffix;
    assert '.' !in prefix && '/' !in prefix by {
      forall i | 0 <= i < |prefix| ensures prefix[i] != '.' && prefix[i] != '/' {
        if i < |fieldname| {
          assert prefix[i] == fieldname[i];
        } else if i > |fieldname| {
          assert prefix[i] == uniqueSuffix[i - |fieldname| - 1];
        }
      }
    }
    var e := Extname(originalname);
    assert StoredFilename(fieldname, uniqueSuffix, originalname) == prefix + e;
    ExtnameAfterPlainPrefix(prefix, e);
    assert '/' !in prefix + e by {
      forall i | 0 <= i < |prefix + e| ensures (prefix + e)[i] != '/' {
        if i >= |prefix| { assert (prefix + e)[i] == e[i - |prefix|]; }
      }
    }
    ExtnameUnderDirectory(dir, prefix + e);
  }

  /** `uploadDocument`: no file, then no document type, then the validation (its errors propagate),
      then a negative verdict are each refused in that order; only then is the document saved.
      `documentType` is `None` when the request carries none; an empty type counts as none. */
  function UploadDocumentStep(s: State, file: Option<UploadedFile>, documentType: Option<string>, userId: UserId,
                              reply: Result<Option<string>>): Step<UploadResponse> {
    if file.None? then Step(s, Err(BadRequest(NoFile)))
    else if documentType.None? || documentType.value == "" then Step(s, Err(BadRequest(NoDocumentType)))
    else
      var valid := ValidateDocument(file.value.path, file.value.size, reply);
      if valid.Err? then Step(s, Err(valid.error))
      else if !valid.value then Step(s, Err(BadRequest(NotAnIdentity)))
      else
        var saved := SaveDocumentStep(s, userId, file.value.filename, documentType.value);
        if saved.out.Err? then Step(saved.next, Err(saved.out.error))
        else Step(saved.next, Ok(UploadResponse(true, Saved)))
  }

  method UploadDocument(db: Database, file: Option<UploadedFile>, documentType: Option<string>, userId: UserId,
                        reply: Result<Option<string>>) returns (r: Result<UploadResponse>)
    modifies db
    ensures db.Snapshot() == UploadDocumentStep(old(db.Snapshot()), file, documentType, userId, reply).next
    ensures r == UploadDocumentStep(old(db.Snapshot()), file, documentType, userId, reply).out
  {
    if file.None? {
      return Err(BadRequest(NoFile));
    }
    if documentType.None? || documentType.value == "" {
      return Err(BadRequest(NoDocumentType));
    }
    var isValidDocument := ValidateDocument(file.value.path, file.value.size, reply);
    if isValidDocument.Err? {
      return Err(isValidDocument.error);
    }
    if !isValidDocument.value {
      return Err(BadRequest(NotAnIdentity));
    }
    var saved := SaveDocument(db, userId, file.value.filename, documentType.value);
    if saved.Err? {
      return Err(saved.error);
    }
    return Ok(UploadResponse(true, Saved));
  }

  /** The guards run in order, each before anything is validated or written: a missing file is
      reported whatever else is wrong, then a missing type, then a negative verdict. */
  lemma UploadGuards(s: State, file: Option<UploadedFile>, documentType: Option<string>, userId: UserId,
                     reply: Result<Option<string>>)
    ensures file.None? ==> UploadDocumentStep(s, file, documentType, userId, reply) == Step(s, Err(BadRequest(NoFile)))
    ensures file.Some? && (documentType.None? || documentType == Some("")) ==>
      UploadDocumentStep(s, file, documentType, userId, reply) == Step(s, Err(BadRequest(NoDocumentType)))
    ensures (file.Some? && documentType.Some? && documentType.value != ""
             && ValidateDocument(file.value.path, file.value.size, reply) == Ok(false)) ==>
      UploadDocumentStep(s, file, documentType, userId, reply) == Step(s, Err(BadRequest(NotAnIdentity)))
  {
  }

  /** The upload succeeds exactly when every guard passes and the save succeeds, and then the store
      is the one the save leaves; any refusal before the save changes nothing. */
  lemma UploadSucceedsIff(s: State, file: Option<UploadedFile>, documentType: Option<string>, userId: UserId,
                          reply: Result<Option<string>>)
    ensures var st := UploadDocumentStep(s, file, documentType, userId, reply);
      && (st.out.Ok? <==>
            file.Some? && documentType.Some? && documentType.value != ""
            && ValidateDocument(file.value.path, file.value.size, reply) == Ok(true)
            && SaveDocumentStep(s, userId, file.value.filename, documentType.value).out.Ok?)
      && (st.out.Ok? ==>
            (st.out.value == UploadResponse(true, Saved)
             && st.next == SaveDocumentStep(s, userId, file.value.filename, documentType.value).next))
      && ((file.None? || documentType.None? || documentType.value == ""
           || ValidateDocument(file.value.path, file.value.size, reply) != Ok(true)) ==>
            st.next == s)
  {
  }

  /** `downloadDocument`: the stored name of the caller's document with that id, or a bad request
      when the caller owns no such document. */
  function DownloadDocument(s: State, id: nat, userId: UserId): (r: Result<string>)
    ensures r.Err? <==> forall k | 0 <= k < |s.documents| :: !(s.documents[k].id == id && s.documents[k].userId == userId)
    ensures r.Err? ==> r.error == BadRequest(DocumentNotFound)
    ensures r.Ok? ==> exists k | 0 <= k < |s.documents| ::
      s.documents[k].id == id && s.documents[k].userId == userId && s.documents[k].url == r.value
  {
    var document := FirstDocument(s.documents, id, userId);
    if document.None? then Err(BadRequest(DocumentNotFound))
    else
      assert exists k | 0 <= k < |s.documents| :: s.documents[k] == document.value;
      Ok(document.value.url)
  }

  /** Another user's document is never served, even when its id is known. */
  lemma DownloadOthersRefused(s: State, id: nat, owner: UserId, caller: UserId)
    requires WellFormed(s) && owner != caller
    requires exists k | 0 <= k < |s.documents| :: s.documents[k].id == id && s.documents[k].userId == owner
    ensures DownloadDocument(s, id, caller) == Err(BadRequest(DocumentNotFound))
  {
    var k :| 0 <= k < |s.documents| && s.documents[k].id == id && s.documents[k].userId == owner;
    forall j | 0 <= j < |s.documents| ensures !(s.documents[j].id == id && s.documents[j].userId == caller) {
      if j < k {
        assert s.documents[j].id < s.documents[k].id;
      } else if j > k {
        assert s.documents[k].id < s.documents[j].id;
      }
    }
  }

  lemma UploadDocumentKeepsValid(s: State, file: Option<UploadedFile>, documentType: Option<string>, userId: UserId,
                                 reply: Result<Option<string>>)
    requires Valid(s)
    ensures Valid(UploadDocumentStep(s, file, documentType, userId, reply).next)
  {
    UploadWritesOnlyBySave(s, file, documentType, userId, reply);
    if file.Some? && documentType.Some? {
      SaveDocumentKeepsValid(s, userId, file.value.filename, documentType.value);
    }
  }

  /** An upload keeps one document per user and type. */
  lemma UploadKeepsOneDocumentPerType(s: State, file: Option<UploadedFile>, documentType: Option<string>, userId: UserId,
                                      reply: Result<Option<string>>)
    requires OneDocumentPerType(s.documents)
    ensures OneDocumentPerType(UploadDocumentStep(s, file, documentType, userId, reply).next.documents)
  {
    UploadWritesOnlyBySave(s, file, documentType, userId, reply);
    if file.Some? && documentType.Some? {
      SaveKeepsOneDocumentPerType(s, userId, file.value.filename, documentType.value);
    }
  }

  /** An upload leaves the store as it was or as `saveDocument` leaves it. */
  lemma UploadWritesOnlyBySave(s: State, file: Option<UploadedFile>, documentType: Option<string>, userId: UserId,
                               reply: Result<Option<string>>)
    ensures var next := UploadDocumentStep(s, file, documentType, userId, reply).next;
      next == s || (file.Some? && documentType.Some? && next == SaveDocumentStep(s, userId, file.value.filename, documentType.value).next)
  {
  }
}
