/**
 The upload route (`POST /api/upload`): the gates a request passes, the
 choice of extractor, the checks on the extracted text, and the store, AI
 and database steps that end in a saved Generation record.
 */
module UploadRoute {
  import opened Outcomes
  import opened JsString
  import opened GenerationModel
  import opened Http
  import opened Effects
  import opened FileKind
  import opened AiPrompt
  import opened Extraction

  const MaxFileSizeMb := 10
  const MaxFileSizeBytes := MaxFileSizeMb * 1024 * 1024

  /** Below this many characters a PDF of more than `ScannedPdfBytes` bytes
      is taken for a scan. */
  const ScannedPdfChars := 100
  const ScannedPdfBytes := 100 * 1024
  /** Below this many characters an image of more than `FaintImageBytes`
      bytes is taken for one without text. */
  const FaintImageChars := 10
  const FaintImageBytes := 10 * 1024

  const NoFile := "No file uploaded."
  const TooLarge := "File size exceeds the limit of 10MB. Please upload a smaller file."
  const InvalidTypeSelected := "Invalid generation type selected."
  const NoBlobStorage := "Server configuration error: Blob storage not available."
  const Saved := "Content generated and saved successfully!"

  function UnsupportedMessage(format: string): string {
    "Unsupported file type: " + format + ". Please upload PDF, DOCX, JPG, PNG, or text files."
  }

  function ProcessingFailed(format: string, message: string): string {
    "Failed to process " + format + " file: " + message
  }

  /** The `file` field of the form: its name, declared media type and bytes. */
  datatype UploadedFile = UploadedFile(name: string, mediaType: string, bytes: seq<byte>)

  /** The session's user id and the two form fields the route reads. */
  datatype UploadRequest = UploadRequest(
    session: Option<string>,
    file: Option<UploadedFile>,
    generationType: Option<string>)

  /** The environment: `BLOB_READ_WRITE_TOKEN` and `GEMINI_API_KEY`, with
      the empty string for an unset variable. */
  datatype Config = Config(blobToken: string, geminiKey: string)

  /** The stored file name (`file.name || "unnamed_file"`). */
  function NameOf(f: UploadedFile): string {
    FileName(f.name)
  }

  /** The format the classifier picks for a file. */
  function KindOf(f: UploadedFile): Kind {
    Classify(f.mediaType, Extension(NameOf(f)))
  }

  /** `fileType || fileExtension`, the format named in error messages. */
  function Label(f: UploadedFile): string {
    if f.mediaType != "" then f.mediaType else Extension(NameOf(f))
  }

  /** The result of the gates that run before the file is read. */
  datatype Admission =
    | Admitted(userId: string, file: UploadedFile, generationType: GenerationType)
    | Refused(response: Response)

  /** Session, file present, size, generation type, blob token, in that
      order; the first that fails answers the request. */
  function Admit(req: UploadRequest, cfg: Config): (a: Admission)
    ensures a.Admitted? <==>
      && SessionUserId(req.session).Some?
      && req.file.Some? && |req.file.value.bytes| <= MaxFileSizeBytes
      && ParseGenerationType(req.generationType.GetOr("")).Some?
      && cfg.blobToken != ""
    ensures a.Admitted? ==>
      && a.userId == req.session.value
      && a.file == req.file.value
      && req.generationType == Some(a.generationType.Value())
  {
    match SessionUserId(req.session)
    case None => Refused(Unauthorized)
    case Some(userId) =>
      match req.file
      case None => Refused(Response(400, Message(NoFile)))
      case Some(f) =>
        if |f.bytes| > MaxFileSizeBytes then Refused(Response(413, Message(TooLarge)))
        else match ParseGenerationType(req.generationType.GetOr(""))
          case None => Refused(Response(400, Message(InvalidTypeSelected)))
          case Some(t) =>
            if cfg.blobToken == "" then Refused(Response(500, Message(NoBlobStorage)))
            else Admitted(userId, f, t)
  }

  /** Why extracted text is turned away. */
  datatype Rejection = ScannedPdf | FaintImage | NoText {
    function Message(): string {
      match this
      case ScannedPdf =>
        "This PDF appears to be a scanned document with minimal selectable text. Please ensure it is a searchable PDF or upload its pages as images for OCR."
      case FaintImage =>
        "Could not extract significant text from the image. Ensure the image contains clear text."
      case NoText =>
        "No text content could be extracted from the file. Please ensure the file contains readable text."
    }
  }

  /** The checks on the extracted text, in order: the low-signal checks
      compare the untrimmed length, the emptiness check the trimmed text. */
  function ContentRejection(kind: Kind, text: string, size: nat): (r: Option<Rejection>)
    ensures r == Some(ScannedPdf) <==> kind == Pdf && |text| < ScannedPdfChars && size > ScannedPdfBytes
    ensures r == Some(FaintImage) <==> kind == Image && |text| < FaintImageChars && size > FaintImageBytes
    ensures r.None? ==> !IsBlank(text)
  {
    if kind == Pdf && |text| < ScannedPdfChars && size > ScannedPdfBytes then Some(ScannedPdf)
    else if kind == Image && |text| < FaintImageChars && size > FaintImageBytes then Some(FaintImage)
    else if IsBlank(text) then Some(NoText)
    else None
  }

  /** The final `catch`: status 500 with the error's message twice. */
  function Fail(message: string, calls: seq<Call>, store: seq<Generation>): Outcome {
    Outcome(Response(500, Failure(message, message)), calls, store)
  }

  /** The draft `new Generation({...})` is given after a successful upload. */
  function UploadDraft(userId: string, fileName: string, t: GenerationType, text: string,
                       content: string, url: string, now: int): Draft {
    Draft(Some(text), Some(content), Some(fileName), Some(t.Value()), None, Some(now), Some(url), Some(userId))
  }

  /** The schema's `required` fields of an upload's record are all
      non-empty; the type is always one of the three values. */
  predicate Storable(userId: string, fileName: string, text: string, content: string, url: string) {
    userId != "" && fileName != "" && text != "" && content != "" && url != ""
  }

  /** The record an upload saves: no user-given name, the clock reading as
      its date. */
  function UploadRecord(userId: string, fileName: string, t: GenerationType, text: string,
                        content: string, url: string, newId: string, now: int): Generation {
    Generation(newId, text, content, fileName, t, None, now, url, userId)
  }

  /** Building, validating and saving the record once the content exists;
      the outcome's calls are the ones made here. */
  function Save(userId: string, fileName: string, t: GenerationType, text: string, content: string,
                url: string, svc: Services, newId: string, now: int,
                store: seq<Generation>): (o: Outcome)
    ensures o.response.status == 200 || o.response.status == 500
    ensures o.response.status == 500 ==> o.store == store && o.response.body.Failure?
    ensures |o.calls| <= 1 && forall c :: c in o.calls ==> c.DbSave?
    ensures o.response.status == 200 ==>
      && |o.calls| == 1 && o.store == store + [o.calls[0].record]
      && var rec := o.calls[0].record;
      && Valid(rec) && rec.id == newId && rec.userId == userId && rec.generationType == t
      && rec.originalContent == text && rec.generatedContent == content && rec.fileName == fileName
      && rec.uploadDate == now && rec.userGivenName.None? && rec.originalFileUrl == url
      && svc.dbSave(rec) == Pass
      && o.response == Response(200, Uploaded(content, Saved, newId))
    ensures !Storable(userId, fileName, text, content, url) ==> o == Fail(ValidationFailed, [], store)
    ensures Storable(userId, fileName, text, content, url) ==>
      var rec := UploadRecord(userId, fileName, t, text, content, url, newId, now);
      && (svc.dbSave(rec).Throw? ==> o == Fail(svc.dbSave(rec).message, [DbSave(rec)], store))
      && (svc.dbSave(rec).Pass? ==> o.response.status == 200 && o.store == store + [rec])
  {
    GenerationTypeValues(t, t);
    match Validate(newId, UploadDraft(userId, fileName, t, text, content, url, now), now)
    case Thrown(m) => Fail(m, [], store)
    case Ok(rec) =>
      match svc.dbSave(rec)
      case Throw(m) => Fail(m, [DbSave(rec)], store)
      case Pass => Outcome(Response(200, Uploaded(content, Saved, newId)), [DbSave(rec)], store + [rec])
  }

  /** Asking the AI service, then saving; the outcome's calls are the ones
      made here. */
  function GenerateAndSave(userId: string, fileName: string, t: GenerationType, text: string,
                           url: string, cfg: Config, svc: Services, newId: string, now: int,
                           store: seq<Generation>): (o: Outcome)
    ensures o.response.status == 200 || o.response.status == 500
    ensures o.response.status == 500 ==> o.store == store && o.response.body.Failure?
    ensures forall c :: c in o.calls ==> c.AiGenerate? || c.DbSave?
    ensures o.response.status == 200 ==>
      && |o.calls| >= 1 && o.calls[|o.calls| - 1].DbSave?
      && var rec := o.calls[|o.calls| - 1].record;
      && o.store == store + [rec]
      && Valid(rec) && rec.id == newId && rec.userId == userId && rec.generationType == t
      && rec.originalContent == text && rec.fileName == fileName
      && rec.uploadDate == now && rec.userGivenName.None? && rec.originalFileUrl == url
      && svc.dbSave(rec) == Pass
      && o.response == Response(200, Uploaded(rec.generatedContent, Saved, newId))
      && (cfg.geminiKey == "" ==> rec.generatedContent == ApiKeyMissing)
      && (cfg.geminiKey != "" ==>
            AiGenerate(Prompt(t, text)) in o.calls
            && svc.gemini(Prompt(t, text)) == Ok(rec.generatedContent))
    ensures cfg.geminiKey != "" && svc.gemini(Prompt(t, text)).Thrown? ==>
      o == Fail(GenerationFailed, [AiGenerate(Prompt(t, text))], store)
  {
    GenerationTypeValues(t, t);
    var gen := GenerateContent(text, t.Value(), cfg.geminiKey, svc.gemini);
    match gen.result
    case Thrown(m) => Fail(m, gen.calls, store)
    case Ok(content) =>
      var saved := Save(userId, fileName, t, text, content, url, svc, newId, now, store);
      Outcome(saved.response, gen.calls + saved.calls, saved.store)
  }

  /** Storing the file and connecting, then generating and saving; the
      outcome's calls are the ones made here. */
  function Persist(userId: string, fileName: string, bytes: seq<byte>, blobName: string,
                   t: GenerationType, text: string, cfg: Config, svc: Services, newId: string,
                   now: int, store: seq<Generation>): (o: Outcome)
    ensures o.response.status == 200 || o.response.status == 500
    ensures o.response.status == 500 ==> o.store == store && o.response.body.Failure?
    ensures o.calls != [] && o.calls[0] == BlobPut(blobName)
    ensures forall c :: c in o.calls ==> !IsExtractorCall(c)
    ensures o.response.status == 200 ==>
      && |o.calls| >= 1 && o.calls[|o.calls| - 1].DbSave?
      && var rec := o.calls[|o.calls| - 1].record;
      && o.store == store + [rec]
      && Valid(rec) && rec.id == newId && rec.userId == userId && rec.generationType == t
      && rec.originalContent == text && rec.fileName == fileName
      && rec.uploadDate == now && rec.userGivenName.None?
      && svc.blobPut(blobName, bytes) == Ok(rec.originalFileUrl)
      && svc.dbSave(rec) == Pass
      && o.response == Response(200, Uploaded(rec.generatedContent, Saved, newId))
      && (cfg.geminiKey == "" ==> rec.generatedContent == ApiKeyMissing)
      && (cfg.geminiKey != "" ==>
            AiGenerate(Prompt(t, text)) in o.calls
            && svc.gemini(Prompt(t, text)) == Ok(rec.generatedContent))
    ensures svc.blobPut(blobName, bytes).Ok? && svc.dbConnect.Throw? ==>
      o == Fail(svc.dbConnect.message, [BlobPut(blobName), DbConnect], store)
    ensures (&& svc.blobPut(blobName, bytes).Ok? && svc.dbConnect.Pass?
             && cfg.geminiKey != "" && svc.gemini(Prompt(t, text)).Thrown?) ==>
      o == Fail(GenerationFailed,
                [BlobPut(blobName), DbConnect, AiGenerate(Prompt(t, text))], store)
  {
    match svc.blobPut(blobName, bytes)
    case Thrown(m) => Fail(m, [BlobPut(blobName)], store)
    case Ok(url) =>
      match svc.dbConnect
      case Throw(m) => Fail(m, [BlobPut(blobName), DbConnect], store)
      case Pass =>
        var rest := GenerateAndSave(userId, fileName, t, text, url, cfg, svc, newId, now, store);
        Outcome(rest.response, [BlobPut(blobName), DbConnect] + rest.calls, rest.store)
  }

  /** Everything after the gates, given the file's format, its name in
      error messages and its stored name: extract, check the text, then
      persist. */
  function Process(userId: string, f: UploadedFile, t: GenerationType, kind: Kind, format: string,
                   blobName: string, cfg: Config, svc: Services, newId: string, now: int,
                   store: seq<Generation>): (o: Outcome)
    ensures o.response.status in {200, 400, 500}
    ensures o.response.status != 200 ==> o.store == store
    ensures o.response.status == 200 ==> |o.store| == |store| + 1 && o.store[..|store|] == store
    ensures o.response.status == 200 ==> kind != Unsupported && Valid(o.store[|store|])
  {
    if kind == Unsupported then
      Outcome(Response(400, Message(UnsupportedMessage(format))), [], store)
    else
      var extracted := Extract(kind, f.bytes, svc);
      match extracted.result
      case Thrown(m) =>
        Outcome(Response(400, Message(ProcessingFailed(format, m))), extracted.calls, store)
      case Ok(text) =>
        match ContentRejection(kind, text, |f.bytes|)
        case Some(why) => Outcome(Response(400, Message(why.Message())), extracted.calls, store)
        case None =>
          var p := Persist(userId, NameOf(f), f.bytes, blobName, t, text, cfg, svc, newId, now, store);
          Outcome(p.response, extracted.calls + p.calls, p.store)
  }

  /** `POST /api/upload`. The uuid of the stored name, the new record's id
      and the clock reading are parameters. */
  function Post(req: UploadRequest, cfg: Config, svc: Services, uuid: string, newId: string,
                now: int, store: seq<Generation>): (o: Outcome)
    ensures o.response.status in {200, 400, 401, 413, 500}
    ensures o.response.status != 200 ==> o.store == store
    ensures o.response.status == 200 ==> |o.store| == |store| + 1 && o.store[..|store|] == store
    ensures o.response.status == 200 ==>
      Admit(req, cfg).Admitted? && KindOf(Admit(req, cfg).file) != Unsupported
    ensures o.response.status == 200 ==> Valid(o.store[|store|])
  {
    match Admit(req, cfg)
    case Refused(response) => Outcome(response, [], store)
    case Admitted(userId, f, t) =>
      Process(userId, f, t, KindOf(f), Label(f), BlobName(NameOf(f), uuid), cfg, svc, newId, now, store)
  }

  /** An admitted request is handled by `Process` with the file's format,
      label and stored name. */
  lemma PostAdmitted(req: UploadRequest, cfg: Config, svc: Services, uuid: string, newId: string,
                     now: int, store: seq<Generation>)
    requires Admit(req, cfg).Admitted?
    ensures var a := Admit(req, cfg);
      Post(req, cfg, svc, uuid, newId, now, store)
        == Process(a.userId, a.file, a.generationType, KindOf(a.file), Label(a.file),
                   BlobName(NameOf(a.file), uuid), cfg, svc, newId, now, store)
  {
  }

  /** Text that passed every check is persisted after the extractor's calls. */
  lemma ProcessPersists(userId: string, f: UploadedFile, t: GenerationType, kind: Kind, format: string,
                        blobName: string, cfg: Config, svc: Services, newId: string, now: int,
                        store: seq<Generation>)
    requires kind != Unsupported
    requires var x := Extract(kind, f.bytes, svc);
      x.result.Ok? && ContentRejection(kind, x.result.value, |f.bytes|).None?
    ensures var x := Extract(kind, f.bytes, svc);
      var p := Persist(userId, NameOf(f), f.bytes, blobName, t, x.result.value, cfg, svc, newId, now, store);
      Process(userId, f, t, kind, format, blobName, cfg, svc, newId, now, store)
        == Outcome(p.response, x.calls + p.calls, p.store)
  {
  }

  /** Each gate answers before anything is called or stored: no session
      401, no file 400, more than 10 MiB 413, an unknown type 400, no blob
      token 500. */
  lemma GatesInOrder(req: UploadRequest, cfg: Config, svc: Services, uuid: string, newId: string,
                     now: int, store: seq<Generation>)
    ensures var o := Post(req, cfg, svc, uuid, newId, now, store);
      var signedIn := SessionUserId(req.session).Some?;
      var hasFile := signedIn && req.file.Some?;
      var fits := hasFile && |req.file.value.bytes| <= MaxFileSizeBytes;
      var typed := fits && ParseGenerationType(req.generationType.GetOr("")).Some?;
      && (!signedIn ==> o == Outcome(Unauthorized, [], store))
      && (signedIn && req.file.None? ==> o == Outcome(Response(400, Message(NoFile)), [], store))
      && (hasFile && !fits ==> o == Outcome(Response(413, Message(TooLarge)), [], store))
      && (fits && !typed ==> o == Outcome(Response(400, Message(InvalidTypeSelected)), [], store))
      && (typed && cfg.blobToken == "" ==> o == Outcome(Response(500, Message(NoBlobStorage)), [], store))
  {
  }

  /** The limit is 10 MiB and a file of exactly that size is let through. */
  lemma SizeLimitInclusive(req: UploadRequest, cfg: Config)
    requires SessionUserId(req.session).Some? && req.file.Some?
    requires |req.file.value.bytes| == 10_485_760
    requires ParseGenerationType(req.generationType.GetOr("")).Some? && cfg.blobToken != ""
    ensures Admit(req, cfg).Admitted?
  {
  }

  /** An unsupported format is answered with 400 before any extractor or
      store is called. */
  lemma UnsupportedCallsNothing(req: UploadRequest, cfg: Config, svc: Services, uuid: string,
                                newId: string, now: int, store: seq<Generation>)
    requires Admit(req, cfg).Admitted? && KindOf(req.file.value) == Unsupported
    ensures Post(req, cfg, svc, uuid, newId, now, store)
      == Outcome(Response(400, Message(UnsupportedMessage(Label(req.file.value)))), [], store)
  {
  }

  /** A failing extractor is answered with 400 naming the format and the
      extractor's message; nothing is stored. */
  lemma ExtractionFailureReported(req: UploadRequest, cfg: Config, svc: Services, uuid: string,
                                  newId: string, now: int, store: seq<Generation>)
    requires Admit(req, cfg).Admitted? && KindOf(req.file.value) != Unsupported
    requires Extract(KindOf(req.file.value), req.file.value.bytes, svc).result.Thrown?
    ensures var f := req.file.value;
      var x := Extract(KindOf(f), f.bytes, svc);
      Post(req, cfg, svc, uuid, newId, now, store)
        == Outcome(Response(400, Message(ProcessingFailed(Label(f), x.result.message))), x.calls, store)
  {
  }

  /** Text turned away by a check is answered with 400 before the blob store
      is called. */
  lemma RejectedBeforeStore(req: UploadRequest, cfg: Config, svc: Services, uuid: string,
                            newId: string, now: int, store: seq<Generation>)
    requires Admit(req, cfg).Admitted? && KindOf(req.file.value) != Unsupported
    requires var f := req.file.value;
      var x := Extract(KindOf(f), f.bytes, svc);
      x.result.Ok? && ContentRejection(KindOf(f), x.result.value, |f.bytes|).Some?
    ensures var f := req.file.value;
      var x := Extract(KindOf(f), f.bytes, svc);
      var why := ContentRejection(KindOf(f), x.result.value, |f.bytes|).value;
      var o := Post(req, cfg, svc, uuid, newId, now, store);
      && o == Outcome(Response(400, Message(why.Message())), x.calls, store)
      && forall c :: c in o.calls ==> IsExtractorCall(c)
  {
  }

  /** The low-signal checks look at the untrimmed length and only at PDFs
      and images: DOCX and plain text are turned away only when blank, a PDF
      with 100 characters or more is never taken for a scan, and a PDF of
      100 spaces passes the scan check only to fail the emptiness check. */
  lemma ContentChecksByFormat(kind: Kind, text: string, size: nat)
    ensures kind == Docx || kind == Text ==>
      (ContentRejection(kind, text, size).Some? <==> IsBlank(text))
    ensures kind == Pdf && |text| >= ScannedPdfChars ==>
      (ContentRejection(kind, text, size).Some? <==> AllSpace(text))
    ensures kind == Pdf && size <= ScannedPdfBytes ==>
      (ContentRejection(kind, text, size).Some? <==> AllSpace(text))
    ensures ContentRejection(kind, text, size) == Some(NoText) ==> AllSpace(text)
  {
    TrimEmpty(text);
  }

  /** A successful upload appends exactly one valid record: owned by the
      session's user, of the requested type, holding the extracted text,
      the stored file's URL and the clock reading, saved after the blob
      store; its generated content is the AI's answer to the prompt for
      that text, or the fixed notice when no API key is configured. */
  lemma SuccessPersistsRecord(req: UploadRequest, cfg: Config, svc: Services, uuid: string,
                              newId: string, now: int, store: seq<Generation>)
    requires Post(req, cfg, svc, uuid, newId, now, store).response.status == 200
    ensures var o := Post(req, cfg, svc, uuid, newId, now, store);
      && req.file.Some? && KindOf(req.file.value) != Unsupported && |o.store| == |store| + 1
      && var f := req.file.value;
      var x := Extract(KindOf(f), f.bytes, svc);
      var rec := o.store[|store|];
      var blobName := BlobName(NameOf(f), uuid);
      && x.result.Ok?
      && o.store == store + [rec]
      && Valid(rec) && rec.id == newId
      && rec.userId == req.session.value
      && req.generationType == Some(rec.generationType.Value())
      && rec.originalContent == x.result.value && !IsBlank(rec.originalContent)
      && rec.fileName == NameOf(f)
      && rec.uploadDate == now && rec.userGivenName.None?
      && svc.blobPut(blobName, f.bytes) == Ok(rec.originalFileUrl)
      && svc.dbSave(rec) == Pass
      && o.response == Response(200, Uploaded(rec.generatedContent, Saved, newId))
      && (cfg.geminiKey == "" ==> rec.generatedContent == ApiKeyMissing)
      && (cfg.geminiKey != "" ==>
            var prompt := Prompt(rec.generationType, rec.originalContent);
            AiGenerate(prompt) in o.calls && svc.gemini(prompt) == Ok(rec.generatedContent))
  {
    var o := Post(req, cfg, svc, uuid, newId, now, store);
    var a := Admit(req, cfg);
    var f := a.file;
    var kind := KindOf(f);
    var blobName := BlobName(NameOf(f), uuid);
    PostAdmitted(req, cfg, svc, uuid, newId, now, store);
    var x := Extract(kind, f.bytes, svc);
    assert x.result.Ok? && ContentRejection(kind, x.result.value, |f.bytes|).None?;
    ProcessPersists(a.userId, f, a.generationType, kind, Label(f), blobName, cfg, svc, newId, now, store);
    var p := Persist(a.userId, NameOf(f), f.bytes, blobName, a.generationType, x.result.value,
                     cfg, svc, newId, now, store);
    assert p.response.status == 200;
    GenerationTypeValues(a.generationType, a.generationType);
    ConcatEnds(x.calls, p.calls);
  }

  /** In a successful upload the calls are the extractor's, then the blob
      store under the name made from the file's name and the uuid, and last
      the save of the record that was appended. */
  lemma SuccessCallOrder(req: UploadRequest, cfg: Config, svc: Services, uuid: string,
                         newId: string, now: int, store: seq<Generation>)
    requires Post(req, cfg, svc, uuid, newId, now, store).response.status == 200
    ensures req.file.Some? && KindOf(req.file.value) != Unsupported
    ensures StoredThenSaved(Extract(KindOf(req.file.value), req.file.value.bytes, svc).calls,
                            Post(req, cfg, svc, uuid, newId, now, store),
                            BlobName(NameOf(req.file.value), uuid), store)
  {
    var a := Admit(req, cfg);
    PostAdmitted(req, cfg, svc, uuid, newId, now, store);
    ProcessCallOrder(a.userId, a.file, a.generationType, KindOf(a.file), Label(a.file),
                     BlobName(NameOf(a.file), uuid), cfg, svc, newId, now, store);
  }

  /** What the AI step yields when it does not throw: the fixed notice
      without an API key, the service's answer otherwise. */
  function AiContent(cfg: Config, svc: Services, t: GenerationType, text: string): string
    requires cfg.geminiKey == "" || svc.gemini(Prompt(t, text)).Ok?
  {
    if cfg.geminiKey == "" then ApiKeyMissing else svc.gemini(Prompt(t, text)).value
  }

  /** The AI step answers, the record it leads to passes the schema, and
      the database accepts that record. */
  predicate GenerateWorks(userId: string, fileName: string, t: GenerationType, text: string,
                          url: string, cfg: Config, svc: Services, newId: string, now: int) {
    && (cfg.geminiKey == "" || svc.gemini(Prompt(t, text)).Ok?)
    && Storable(userId, fileName, text, AiContent(cfg, svc, t, text), url)
    && svc.dbSave(UploadRecord(userId, fileName, t, text, AiContent(cfg, svc, t, text), url, newId, now)) == Pass
  }

  /** `o` answers 200 with the record's content and id, and appends exactly
      that record. */
  predicate Succeeded(o: Outcome, rec: Generation, store: seq<Generation>) {
    && o.response == Response(200, Uploaded(rec.generatedContent, Saved, rec.id))
    && o.store == store + [rec]
  }

  /** When every step works, generating and saving succeeds with the
      record built from the inputs and the AI step's content. */
  lemma GenerateAndSaveSucceeds(userId: string, fileName: string, t: GenerationType, text: string,
                                url: string, cfg: Config, svc: Services, newId: string, now: int,
                                store: seq<Generation>)
    requires GenerateWorks(userId, fileName, t, text, url, cfg, svc, newId, now)
    ensures Succeeded(GenerateAndSave(userId, fileName, t, text, url, cfg, svc, newId, now, store),
                      UploadRecord(userId, fileName, t, text, AiContent(cfg, svc, t, text), url, newId, now),
                      store)
  {
    var content := AiContent(cfg, svc, t, text);
    GenerationTypeValues(t, t);
    var saved := Save(userId, fileName, t, text, content, url, svc, newId, now, store);
    assert GenerateAndSave(userId, fileName, t, text, url, cfg, svc, newId, now, store)
      == Outcome(saved.response, GenerateContent(text, t.Value(), cfg.geminiKey, svc.gemini).calls + saved.calls, saved.store);
  }

  /** When the blob store, the connection and every later step work, the
      record holding the stored file's URL is saved. */
  lemma PersistSucceeds(userId: string, fileName: string, bytes: seq<byte>, blobName: string,
                        t: GenerationType, text: string, cfg: Config, svc: Services, newId: string,
                        now: int, store: seq<Generation>)
    requires svc.blobPut(blobName, bytes).Ok? && svc.dbConnect.Pass?
    requires GenerateWorks(userId, fileName, t, text, svc.blobPut(blobName, bytes).value, cfg, svc, newId, now)
    ensures Succeeded(Persist(userId, fileName, bytes, blobName, t, text, cfg, svc, newId, now, store),
                      UploadRecord(userId, fileName, t, text, AiContent(cfg, svc, t, text),
                                   svc.blobPut(blobName, bytes).value, newId, now),
                      store)
  {
    GenerateAndSaveSucceeds(userId, fileName, t, text, svc.blobPut(blobName, bytes).value,
                            cfg, svc, newId, now, store);
  }

  /** An upload whose every step works succeeds: given a signed-in request
      that passes the gates, a supported file whose extracted text passes
      the checks, a blob store that answers with a URL, a database that
      connects and accepts the record, and either no API key or an AI
      answer that is not empty, the response is 200 and the record built
      from the session's user, the file's name, the requested type, the
      extracted text, the AI step's content, the URL and the clock reading
      is appended. */
  lemma UploadSucceeds(req: UploadRequest, cfg: Config, svc: Services, uuid: string,
                       newId: string, now: int, store: seq<Generation>)
    requires Admit(req, cfg).Admitted? && KindOf(Admit(req, cfg).file) != Unsupported
    requires var a := Admit(req, cfg);
      var x := Extract(KindOf(a.file), a.file.bytes, svc);
      var put := svc.blobPut(BlobName(NameOf(a.file), uuid), a.file.bytes);
      && x.result.Ok? && ContentRejection(KindOf(a.file), x.result.value, |a.file.bytes|).None?
      && put.Ok? && put.value != "" && svc.dbConnect.Pass?
      && (cfg.geminiKey == "" || (svc.gemini(Prompt(a.generationType, x.result.value)).Ok?
                                  && svc.gemini(Prompt(a.generationType, x.result.value)).value != ""))
      && svc.dbSave(UploadRecord(a.userId, NameOf(a.file), a.generationType, x.result.value,
                                 AiContent(cfg, svc, a.generationType, x.result.value),
                                 put.value, newId, now)) == Pass
    ensures var a := Admit(req, cfg);
      var x := Extract(KindOf(a.file), a.file.bytes, svc);
      var put := svc.blobPut(BlobName(NameOf(a.file), uuid), a.file.bytes);
      Succeeded(Post(req, cfg, svc, uuid, newId, now, store),
                UploadRecord(a.userId, NameOf(a.file), a.generationType, x.result.value,
                             AiContent(cfg, svc, a.generationType, x.result.value),
                             put.value, newId, now),
                store)
  {
    var a := Admit(req, cfg);
    var f := a.file;
    var kind := KindOf(f);
    var blobName := BlobName(NameOf(f), uuid);
    var x := Extract(kind, f.bytes, svc);
    TrimEmpty(x.result.value);
    PostAdmitted(req, cfg, svc, uuid, newId, now, store);
    ProcessPersists(a.userId, f, a.generationType, kind, Label(f), blobName, cfg, svc, newId, now, store);
    PersistSucceeds(a.userId, NameOf(f), f.bytes, blobName, a.generationType, x.result.value,
                    cfg, svc, newId, now, store);
  }

  /** A text file `notes.markdown` holding "hello". */
  function ExampleFile(): UploadedFile {
    UploadedFile("notes.markdown", "text/plain", [104])
  }

  /** Services that all work: the file decodes to "hello", the blob store
      answers with a URL, the database connects and saves. */
  function ExampleServices(): Services {
    Services(b => "hello", b => Thrown("no pdf"), b => Thrown("no docx"), Pass,
             b => Thrown("no ocr"), Pass, (n, b) => Ok("https://blob/x"), Pass,
             p => Thrown("unused"), r => Pass)
  }

  /** A concrete upload meeting every requirement of `UploadSucceeds`: user
      "u1" sends `ExampleFile` for a summary with no AI key configured. It is
      answered 200 with the fixed notice and its record is appended. */
  lemma UploadSucceedsExample(store: seq<Generation>)
    ensures var req := UploadRequest(Some("u1"), Some(ExampleFile()), Some("summary"));
      var o := Post(req, Config("token", ""), ExampleServices(), "id1", "g1", 7, store);
      && o.response == Response(200, Uploaded(ApiKeyMissing, Saved, "g1"))
      && o.store == store + [Generation("g1", "hello", ApiKeyMissing, "notes.markdown", Summary, None, 7,
                                        "https://blob/x", "u1")]
  {
    var req := UploadRequest(Some("u1"), Some(ExampleFile()), Some("summary"));
    var cfg := Config("token", "");
    ExampleAdmitted(req, cfg);
    ExampleExtracted();
    UploadSucceeds(req, cfg, ExampleServices(), "id1", "g1", 7, store);
  }

  lemma ExampleAdmitted(req: UploadRequest, cfg: Config)
    requires req == UploadRequest(Some("u1"), Some(ExampleFile()), Some("summary"))
    requires cfg == Config("token", "")
    ensures Admit(req, cfg) == Admitted("u1", ExampleFile(), Summary)
  {
    GenerationTypeValues(Summary, Summary);
  }

  /** The file is plain text (an eight-letter extension is none of the PDF,
      DOCX or image ones, so the `text/` media type decides), it decodes
      without a call, and "hello" passes the checks. */
  lemma ExampleExtracted()
    ensures KindOf(ExampleFile()) == Text && NameOf(ExampleFile()) == "notes.markdown"
    ensures Extract(Text, ExampleFile().bytes, ExampleServices()) == Run(Ok("hello"), [])
    ensures ContentRejection(Text, "hello", 1).None?
  {
    ExampleIsText();
    ExamplePasses();
  }

  lemma ExampleIsText()
    ensures KindOf(ExampleFile()) == Text
  {
    MarkdownIsText(ExampleFile());
  }

  lemma MarkdownIsText(f: UploadedFile)
    requires f == UploadedFile("notes.markdown", "text/plain", [104])
    ensures KindOf(f) == Text
  {
    var name := NameOf(f);
    assert name == "notes" + "." + "markdown";
    ExtensionOfDotted("notes", "markdown");
    EightLetterTextIsText(Extension(name));
  }

  lemma EightLetterTextIsText(e: string)
    requires |e| == 8
    ensures Classify("text/plain", e) == Text
  {
    assert "text/" <= "text/plain";
  }

  lemma ExamplePasses()
    ensures ContentRejection(Text, "hello", 1).None?
  {
    TrimEmpty("hello");
    assert !IsJsSpace("hello"[0]);
  }

  /** The calls of `o` are `before`, then the blob store under `blobName`,
      and they end with the save of the record appended to `store`. */
  predicate StoredThenSaved(before: seq<Call>, o: Outcome, blobName: string, store: seq<Generation>) {
    && |before| < |o.calls| && |o.store| == |store| + 1
    && o.calls[..|before|] == before
    && o.calls[|before|] == BlobPut(blobName)
    && o.calls[|o.calls| - 1] == DbSave(o.store[|store|])
  }

  /** Once the text is accepted, the calls are the extractor's, then the
      blob store under the given name, and last the save of the record that
      was appended. */
  lemma ProcessCallOrder(userId: string, f: UploadedFile, t: GenerationType, kind: Kind, format: string,
                         blobName: string, cfg: Config, svc: Services, newId: string, now: int,
                         store: seq<Generation>)
    requires Process(userId, f, t, kind, format, blobName, cfg, svc, newId, now, store).response.status == 200
    ensures kind != Unsupported
    ensures StoredThenSaved(Extract(kind, f.bytes, svc).calls,
                            Process(userId, f, t, kind, format, blobName, cfg, svc, newId, now, store),
                            blobName, store)
  {
    var x := Extract(kind, f.bytes, svc);
    assert x.result.Ok? && ContentRejection(kind, x.result.value, |f.bytes|).None?;
    ProcessPersists(userId, f, t, kind, format, blobName, cfg, svc, newId, now, store);
    var p := Persist(userId, NameOf(f), f.bytes, blobName, t, x.result.value, cfg, svc, newId, now, store);
    assert p.response.status == 200;
    AfterExtraction(x.calls, p, blobName, store);
  }

  lemma AfterExtraction(before: seq<Call>, p: Outcome, blobName: string, store: seq<Generation>)
    requires p.calls != [] && p.calls[0] == BlobPut(blobName)
    requires p.calls[|p.calls| - 1].DbSave? && p.store == store + [p.calls[|p.calls| - 1].record]
    ensures StoredThenSaved(before, Outcome(p.response, before + p.calls, p.store), blobName, store)
  {
    ConcatEnds(before, p.calls);
    assert (before + p.calls)[..|before|] == before;
  }

  lemma ConcatEnds(a: seq<Call>, b: seq<Call>)
    requires b != []
    ensures (a + b)[|a|] == b[0] && (a + b)[|a + b| - 1] == b[|b| - 1]
    ensures forall c :: c in b ==> c in a + b
  {
  }

  /** After the file is stored, a failing connection is a 500 with nothing
      saved, and no later call removes the stored file. */
  lemma StoredFileOutlivesFailure(req: UploadRequest, cfg: Config, svc: Services, uuid: string,
                                  newId: string, now: int, store: seq<Generation>)
    requires Admit(req, cfg).Admitted? && KindOf(req.file.value) != Unsupported
    requires var f := req.file.value;
      var x := Extract(KindOf(f), f.bytes, svc);
      && x.result.Ok? && ContentRejection(KindOf(f), x.result.value, |f.bytes|).None?
      && svc.blobPut(BlobName(NameOf(f), uuid), f.bytes).Ok? && svc.dbConnect.Throw?
    ensures var f := req.file.value;
      var x := Extract(KindOf(f), f.bytes, svc);
      Post(req, cfg, svc, uuid, newId, now, store)
        == Fail(svc.dbConnect.message, x.calls + [BlobPut(BlobName(NameOf(f), uuid)), DbConnect], store)
  {
  }

  /** When the AI service fails, the request ends with 500 and the fixed
      generation error after the file was stored, and nothing is saved. */
  lemma AiFailureSavesNothing(req: UploadRequest, cfg: Config, svc: Services, uuid: string,
                              newId: string, now: int, store: seq<Generation>)
    requires Admit(req, cfg).Admitted? && KindOf(req.file.value) != Unsupported
    requires var f := req.file.value;
      var x := Extract(KindOf(f), f.bytes, svc);
      && x.result.Ok? && ContentRejection(KindOf(f), x.result.value, |f.bytes|).None?
      && svc.blobPut(BlobName(NameOf(f), uuid), f.bytes).Ok? && svc.dbConnect.Pass?
      && cfg.geminiKey != ""
      && svc.gemini(Prompt(Admit(req, cfg).generationType, x.result.value)).Thrown?
    ensures var f := req.file.value;
      var x := Extract(KindOf(f), f.bytes, svc);
      var prompt := Prompt(Admit(req, cfg).generationType, x.result.value);
      Post(req, cfg, svc, uuid, newId, now, store)
        == Fail(GenerationFailed, x.calls + [BlobPut(BlobName(NameOf(f), uuid)), DbConnect, AiGenerate(prompt)], store)
  {
    var f := req.file.value;
    var kind := KindOf(f);
    var x := Extract(kind, f.bytes, svc);
    var a := Admit(req, cfg);
    var blobName := BlobName(NameOf(f), uuid);
    var p := Persist(a.userId, NameOf(f), f.bytes, blobName, a.generationType, x.result.value,
                     cfg, svc, newId, now, store);
    assert Process(a.userId, f, a.generationType, kind, Label(f), blobName, cfg, svc, newId, now, store)
      == Outcome(p.response, x.calls + p.calls, p.store);
  }

  lemma OcrReleasedAppend(a: seq<Call>, b: seq<Call>)
    requires OcrReleased(a)
    requires forall c :: c in b ==> !IsExtractorCall(c)
    ensures OcrReleased(a + b)
    ensures multiset(a + b)[PdfFallback] == multiset(a)[PdfFallback]
  {
    var ab := a + b;
    assert forall j :: 0 <= j < |b| ==> b[j] in b;
    forall i | 0 <= i < |ab| && ab[i] == OcrRecognize
      ensures i + 1 < |ab| && ab[i + 1] == OcrTerminate
    {
      assert i < |a| && a[i] == OcrRecognize;
    }
    assert multiset(ab) == multiset(a) + multiset(b);
    assert PdfFallback !in b;
  }

  /** Whatever happens, an OCR worker that recognised is terminated next,
      and the fallback PDF cleaner runs at most once and only after the
      primary parser threw. */
  lemma ExtractorsWellBehaved(req: UploadRequest, cfg: Config, svc: Services, uuid: string,
                              newId: string, now: int, store: seq<Generation>)
    ensures var o := Post(req, cfg, svc, uuid, newId, now, store);
      && OcrReleased(o.calls)
      && multiset(o.calls)[PdfFallback] <= 1
      && (PdfFallback in o.calls ==> svc.pdfParse(req.file.value.bytes).Thrown?)
  {
    var o := Post(req, cfg, svc, uuid, newId, now, store);
    var a := Admit(req, cfg);
    if a.Admitted? {
      var f := a.file;
      var kind := KindOf(f);
      if kind != Unsupported {
        var x := Extract(kind, f.bytes, svc);
        if x.result.Ok? && ContentRejection(kind, x.result.value, |f.bytes|).None? {
          var p := Persist(a.userId, NameOf(f), f.bytes, BlobName(NameOf(f), uuid), a.generationType,
                           x.result.value, cfg, svc, newId, now, store);
          assert o.calls == x.calls + p.calls;
          OcrReleasedAppend(x.calls, p.calls);
          assert PdfFallback !in p.calls;
        }
      }
    }
  }

  /** An upload never makes the collection invalid. */
  lemma UploadKeepsStoreValid(req: UploadRequest, cfg: Config, svc: Services, uuid: string,
                              newId: string, now: int, store: seq<Generation>)
    requires AllValid(store)
    ensures AllValid(Post(req, cfg, svc, uuid, newId, now, store).store)
  {
    var o := Post(req, cfg, svc, uuid, newId, now, store);
    if o.response.status == 200 {
      AppendKeepsValid(store, o.store);
    }
  }

  lemma AppendKeepsValid(store: seq<Generation>, after: seq<Generation>)
    requires AllValid(store)
    requires |after| == |store| + 1 && after[..|store|] == store && Valid(after[|store|])
    ensures AllValid(after)
  {
    forall i | 0 <= i < |after|
      ensures Valid(after[i])
    {
      if i < |store| {
        assert after[i] == after[..|store|][i];
      }
    }
  }
}
