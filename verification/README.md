# AI notes summarizer: upload pipeline, generations and signup in Dafny

This project models the server side of a Next.js application. Users upload a
document (PDF, DOCX, image or plain text). The server extracts its text,
stores the file in a blob store, and asks a generative AI service for a
summary, flash cards or key points. The result is saved as a Generation
record owned by the uploading user.

The model covers four parts of the application:

- **Upload route** (`POST /api/upload`):
  - the ordered request gates;
  - classification of the file by media type or extension;
  - the format-specific extractors: a PDF parser with a text-cleaning fallback, DOCX, OCR and plain text;
  - the low-signal and emptiness checks;
  - the stored file's name;
  - the prompt sent to the AI service;
  - the record that is saved.
- **Generations route** (`GET` and `POST /api/generations`): the owner-scoped, newest-first listing, and creation from a JSON body.
- **Generation schema**: the three-valued `GenerationType`, and the required, optional and default field rules Mongoose applies on `save()`.
- **Signup route** (`POST /api/auth/signup`): a username registry with its missing-field, duplicate and insertion cases.

Every external collaborator is an opaque input of the model:

- the session;
- the PDF parser, mammoth and the OCR worker;
- the blob store;
- the AI service;
- the database;
- the password hash;
- the clock;
- the uuid and the new record's id.

The AI service is a function of the prompt's generation type and text.
The string actually sent is `AiPrompt.Render` of the two. `AiPrompt.PromptInjective` shows that different prompts never render to the same string, so a service that depends on the string is the same as one that depends on the pair.

Collaborators that take arguments are functions returning a `Result`, meaning a value or the message of a thrown error. The others are a fixed `Step`, meaning pass or throw.

Each request returns its HTTP response, the list of external calls it made, in order, and the collection afterwards. This lets the contracts say what was called, what was not, and what changed.

Modules:

- `Outcomes`: the shared `Option`, `Result` and `Step` datatypes.
- `JsString`: the JavaScript string built-ins the routes rely on: `trim`, `\s`, `toLowerCase`, `lastIndexOf`, `substring`, and `split`/`pop`/`join`.
- `GenerationModel`: the schema.
- `Http`: responses and the session guard.
- `Effects`: the external calls, the `Services` bundle, and the `Outcome` (response, calls, collection) shared by the upload and generations routes.
- `PdfText`: the fallback PDF text cleaner.
- `FileKind`: the classifier, the extension and the stored file name.
- `AiPrompt`: the prompt dispatcher.
- `Extraction`: the four extractors.
- `UploadRoute`, `GenerationsRoute`, `SignupRoute`: the three routes.

Some behaviour of the upload route that is easy to miss:

- A missing AI key is answered, not thrown. The dispatcher returns the text `Error: AI API key not configured.`, and that text is saved as the generated content (`UploadRoute.SuccessPersistsRecord`).
- A missing blob token is checked on every request and answered with 500.
- A thrown error's own message is sent back with status 500. There is no fixed set of error kinds.
- The file gate turns away only a missing `file` field. An empty file passes it and is turned away later, by its extractor or by the emptiness check.
- An AI answer that is the empty string fails the schema's `required` check, so the request ends with 500 and no record is saved.

## Model

| member | source | states |
|---|---|---|
| JsString.Trim | src/app/api/upload/route.ts:37 | `trim()` returns the slice of the text between its leading and trailing white space; the result starts and ends with a non-space character, and only white space is cut away on either side |
| JsString.TrimKeepsContent | src/app/api/upload/route.ts:37 | trimming removes white space only: deleting all white space from the trimmed text gives the same as deleting it from the original |
| JsString.TrimEmpty | src/app/api/upload/route.ts:220 | the trimmed text is empty exactly when every character is white space, which is what the route's emptiness check detects |
| JsString.TrimUnchanged | src/app/api/upload/route.ts:37 | text with no white space at either end is left unchanged by `trim()` |
| JsString.Lower | src/app/api/upload/route.ts:152 | lower-casing keeps the length and maps each character on its own (ASCII letters down, others kept) |
| JsString.LowerIdempotent | src/app/api/upload/route.ts:152 | lower-casing an already lower-cased text changes nothing |
| JsString.LastIndexOf | src/app/api/upload/route.ts:235 | `lastIndexOf` is -1 exactly when the character is absent; otherwise it is a position holding the character, with no occurrence after it |
| JsString.Substring | src/app/api/upload/route.ts:233-235 | `substring` returns a slice no longer than the text: the slice between the bounds when they are in order and in range, the prefix up to `end` when `start` is negative, the suffix from `start` when `end` is past the end, and the empty text when both are at most 0 (so `lastIndexOf` giving -1 yields an empty base); `JsString.SubstringSymmetric` shows the bounds may come in either order |
| JsString.Split | src/app/api/upload/route.ts:152 | `split` gives at least one piece, and the piece `pop()` returns is the text after the last separator, or the whole text when there is none |
| JsString.JoinSplit | src/app/api/upload/route.ts:152 | joining the pieces of a split with the separator gives back the original text, so splitting loses nothing |
| JsString.SplitJoin | src/app/api/upload/route.ts:152 | splitting the join of separator-free pieces gives back exactly those pieces |
| GenerationModel.ParseGenerationType | src/models/generation.ts:3-7 | a string is accepted exactly when it is one of the three enumeration values, and the member returned stands for that string |
| GenerationModel.GenerationTypeValues | src/models/generation.ts:3-7 | the three values "summary", "flashcards" and "key_points" are distinct, and each reads back as its own member |
| GenerationModel.Validate | src/models/generation.ts:20-51 | `save()` accepts a document exactly when the five required string fields are present and non-empty and the type is an enumeration value; an accepted document keeps every field, `userGivenName` stays optional, and a missing `uploadDate` becomes the current time |
| GenerationModel.ValidateRoundTrip | src/models/generation.ts:20-51 | validation accepts a stored record's fields exactly when the record is valid, and then gives the record back unchanged |
| GenerationModel.DefaultsApplied | src/models/generation.ts:38-44 | without `uploadDate` the record is stamped with the clock; without `userGivenName` it has none |
| Http.SessionUserId | src/app/api/upload/route.ts:107-111 | a request is authenticated exactly when the session carries a non-empty user id, and that id is the caller |
| PdfText.Sanitize | src/app/api/upload/route.ts:35 | each character outside printable ASCII, newline, carriage return and tab becomes a space, and all others stay in place |
| PdfText.Collapse | src/app/api/upload/route.ts:36 | the result has no two adjacent white-space characters, is empty only for empty input, starts with a space only if the input did, and holds no other characters than spaces and the input's own |
| PdfText.CollapseRun | src/app/api/upload/route.ts:36 | a run of white space between visible characters (or an end of the text) becomes exactly one space, and the text on either side is collapsed on its own: `Collapse(a + w + b) == Collapse(a) + " " + Collapse(b)` |
| PdfText.CollapseKeepsContent | src/app/api/upload/route.ts:36 | collapsing white space keeps every visible character, in order |
| PdfText.CollapseUnchanged | src/app/api/upload/route.ts:36 | text whose only white space is single spaces is left unchanged by the collapse |
| PdfText.Clean | src/app/api/upload/route.ts:34-37 | the three steps in order: filter, collapse, trim; no contract of its own, `PdfText.CleanShape`, `PdfText.CleanKeepsContent` and `PdfText.CleanIdempotent` state what it guarantees |
| PdfText.CleanShape | src/app/api/upload/route.ts:34-37 | cleaned text contains only characters 0x20 to 0x7E, has no two adjacent spaces and no space at either end |
| PdfText.CleanKeepsContent | src/app/api/upload/route.ts:34-37 | cleaning keeps every visible character of the filtered text, in order |
| PdfText.CleanIdempotent | src/app/api/upload/route.ts:34-37 | cleaning already cleaned text changes nothing |
| PdfText.Fallback | src/app/api/upload/route.ts:32-42 | the fallback succeeds exactly when the cleaned text has at least 50 characters, and then returns that well-formed cleaned text; otherwise it throws "Could not extract meaningful text from PDF" |
| PdfText.CleanExample | src/app/api/upload/route.ts:34-37 | a carriage return, a newline and a control character between two letters leave one space |
| FileKind.FileName | src/app/api/upload/route.ts:151 | the file's name is its own when it has one and "unnamed_file" otherwise, never empty |
| FileKind.Extension | src/app/api/upload/route.ts:152 | the extension is the lower-cased text after the name's last dot, never contains a dot, and is the whole lower-cased name when there is no dot |
| FileKind.Classify | src/app/api/upload/route.ts:159-207 | the format is the first of PDF, DOCX, image, text whose media type or extension matches, and unsupported when none does |
| FileKind.ExtensionDecides | src/app/api/upload/route.ts:159-207 | a known extension decides the format unless an earlier branch's media type matches, and a file whose media type and extension are both unknown is unsupported |
| FileKind.ExtensionOfDotted | src/app/api/upload/route.ts:152 | the extension of `base.e` is `e` lower-cased, whatever dots `base` holds |
| FileKind.ExtensionOfDotless | src/app/api/upload/route.ts:152 | a name without a dot is its own (lower-cased) extension |
| FileKind.ClassifyPngNamedPdf | src/app/api/upload/route.ts:159 | a file declared `image/png` whose name ends in `.pdf` is handled as a PDF |
| FileKind.ClassifyDotlessPdf | src/app/api/upload/route.ts:152-159 | a file named just `pdf` with no media type is handled as a PDF |
| FileKind.ClassifyUpperCaseText | src/app/api/upload/route.ts:193-195 | a name ending in `.MD` sent as `application/octet-stream` is text, because the extension is lower-cased first |
| FileKind.BlobName | src/app/api/upload/route.ts:233-236 | the stored name: the text before the last dot, `_` and the uuid, then `.` and the extension when there is one; no contract of its own, `FileKind.BlobNameDotted`, `FileKind.BlobNameDotless` and `FileKind.BlobNameKeepsExtension` state what it gives |
| FileKind.BlobNameDotted | src/app/api/upload/route.ts:233-236 | `base.e` is stored as `base_uuid.e` with `e` lower-cased, and as `base_uuid` when `e` is empty |
| FileKind.BlobNameDotless | src/app/api/upload/route.ts:233-236 | for a dotless name the base is empty (-1 is clamped to 0) and the whole name is the extension: `README` is stored as `_uuid.readme` |
| FileKind.BlobNameKeepsExtension | src/app/api/upload/route.ts:233-236 | the stored name has the same extension as the uploaded name whenever that extension is non-empty |
| AiPrompt.BuildPrompt | src/app/api/upload/route.ts:78-90 | a prompt exists exactly for the three known types, and reading it back gives that type and the text unchanged |
| AiPrompt.Render | src/app/api/upload/route.ts:78-87 | the prompt string: the type's fixed instruction followed by the text; no contract of its own, `AiPrompt.PromptRoundTrip` and `AiPrompt.PromptInjective` state that both parts can be read back and that different prompts give different strings |
| AiPrompt.PromptRoundTrip | src/app/api/upload/route.ts:78-87 | the type and the text can be read back from every prompt, so the text reaches the AI service verbatim |
| AiPrompt.PromptInjective | src/app/api/upload/route.ts:78-87 | different types, or different texts, never give the same prompt string |
| AiPrompt.GenerateContent | src/app/api/upload/route.ts:66-100 | without an API key the fixed notice is returned and nothing is called; an unknown type throws "Invalid generation type."; otherwise the AI service is asked once with the prompt, and its answer is returned, or any failure becomes "Failed to generate content with AI." |
| AiPrompt.AskedOnceWithText | src/app/api/upload/route.ts:66-100 | the AI service is called at most once, and only with the string the `switch` builds, which carries the requested type and the extracted text unchanged |
| Extraction.ParsePdf | src/app/api/upload/route.ts:13-30 | the primary parser's text is returned unchanged when it succeeds; otherwise the fallback runs exactly once, and if it fails too the one fixed "Failed to parse PDF file..." error is thrown |
| Extraction.ParseDocx | src/app/api/upload/route.ts:44-52 | mammoth is called once; its text is returned, or any failure becomes "Failed to parse DOCX file." |
| Extraction.PerformOcr | src/app/api/upload/route.ts:54-64 | a worker that was created is always terminated after recognising, whatever recognition did; an error from terminating replaces the outcome |
| Extraction.Extract | src/app/api/upload/route.ts:158-197 | a PDF goes to the PDF parser (with its fallback), a DOCX to mammoth, an image to OCR, and a text file is decoded without any call; only extractor calls are made, a recognising OCR worker is terminated next, and the PDF fallback runs at most once and only when the primary parser threw |
| UploadRoute.Admit | src/app/api/upload/route.ts:107-145 | a request passes the gates exactly when the caller is signed in, a file of at most 10 MiB is present, the type is a known one and the blob token is set, and then the caller, file and type are the request's own |
| UploadRoute.ContentRejection | src/app/api/upload/route.ts:161-228 | a PDF is turned away as scanned exactly when its untrimmed text is under 100 characters and the file over 102400 bytes; an image exactly when under 10 characters and over 10240 bytes; text that gets through is never blank |
| UploadRoute.Save | src/app/api/upload/route.ts:248-277 | a record is saved only when it validates and the database accepts it, and then it holds the caller, the type, the text, the content, the URL and the clock; a required field left empty ends with 500 "Generation validation failed" before any call; a record that validates is saved with 200 exactly when the database accepts it, and a throwing save ends with 500 and its message, nothing stored |
| UploadRoute.GenerateAndSave | src/app/api/upload/route.ts:243-267 | the saved content is the AI's answer to the type's prompt for the text, or the fixed notice without a key; a failing AI service ends with 500 and the fixed error before any save |
| UploadRoute.Persist | src/app/api/upload/route.ts:238-267 | the file is stored first; a failing connection after the store ends with 500 and the stored file is left in place; a success saves one valid record pointing at the stored URL |
| UploadRoute.Process | src/app/api/upload/route.ts:147-267 | after the gates a request answers 200, 400 or 500, and only a 200 adds exactly one record while keeping the existing ones |
| UploadRoute.Post | src/app/api/upload/route.ts:105-279 | the route answers only 200, 400, 401, 413 or 500; every non-200 answer leaves the collection unchanged, and a 200 appends exactly one record (`UploadRoute.UploadSucceeds` gives the converse) |
| UploadRoute.GenerateAndSaveSucceeds | src/app/api/upload/route.ts:243-267 | with an AI answer (or no key), non-empty fields and a database that accepts the record, the answer is 200 with the generated content and exactly the record built from the inputs is appended |
| UploadRoute.PersistSucceeds | src/app/api/upload/route.ts:238-267 | with a blob store that answers with a URL, a connection that works and the later steps working, the record pointing at that URL is appended and answered 200 |
| UploadRoute.UploadSucceeds | src/app/api/upload/route.ts:105-267 | an upload whose every step works succeeds: a request that passes the gates, with a supported file whose text passes the checks, a blob URL, a working connection, no AI key or a non-empty AI answer, and a database that accepts the record, is answered 200 and appends the record made of the session user, the file name, the type, the extracted text, the content, the URL and the clock |
| UploadRoute.GatesInOrder | src/app/api/upload/route.ts:107-145 | no session gives 401, no file 400, more than 10 MiB 413, an unknown type 400, no blob token 500, in that order, each before any call or write |
| UploadRoute.SizeLimitInclusive | src/app/api/upload/route.ts:102-131 | the limit is 10485760 bytes, and a file of exactly that size passes the size gate |
| UploadRoute.UnsupportedCallsNothing | src/app/api/upload/route.ts:198-207 | an unsupported format answers 400 naming the media type (or the extension) before any extractor or store is called |
| UploadRoute.ExtractionFailureReported | src/app/api/upload/route.ts:208-218 | a failing extractor answers 400 with the format and the extractor's message, and nothing is stored |
| UploadRoute.RejectedBeforeStore | src/app/api/upload/route.ts:161-228 | text turned away by a low-signal or emptiness check answers 400 with that check's message after extractor calls only, before the blob store |
| UploadRoute.ContentChecksByFormat | src/app/api/upload/route.ts:161-228 | DOCX and text are turned away only when blank; a PDF of 100 characters or more, or of at most 102400 bytes, only when all white space; the emptiness check fires only on all-white-space text |
| UploadRoute.SuccessPersistsRecord | src/app/api/upload/route.ts:232-267 | a 200 appends exactly one valid record whose owner is the session user, whose type is the requested one, whose original content is the extracted (non-blank) text and whose URL is the stored file's; its content is the AI's answer to the prompt, or the fixed notice when no key is configured |
| UploadRoute.SuccessCallOrder | src/app/api/upload/route.ts:232-258 | in a 200 the calls are the extractor's, then the blob store under `name_uuid.ext`, and they end with the save of exactly the record that was appended |
| UploadRoute.ProcessCallOrder | src/app/api/upload/route.ts:238-258 | once the text is accepted, the calls are the extractor's, then the blob store under the given name, and last the save of the appended record |
| UploadRoute.StoredFileOutlivesFailure | src/app/api/upload/route.ts:238-277 | when the database connection fails after the file was stored, the answer is 500 with the error's message, nothing is saved, and no call removes the stored file |
| UploadRoute.AiFailureSavesNothing | src/app/api/upload/route.ts:243-277 | when the AI service fails, the answer is 500 with "Failed to generate content with AI.", the stored file stays, and nothing is saved |
| UploadRoute.ExtractorsWellBehaved | src/app/api/upload/route.ts:13-64 | over a whole request, a recognising OCR worker is terminated by the very next call, and the PDF fallback runs at most once and only after the primary parser threw |
| UploadRoute.UploadKeepsStoreValid | src/app/api/upload/route.ts:248-258 | an upload never adds an invalid record to the collection |
| UploadRoute.UploadSucceedsExample | src/app/api/upload/route.ts:105-267 | a signed-in user sending a `text/plain` file `notes.markdown` that decodes to "hello", for a summary, with no AI key and every service working, gets 200 with the fixed notice, and the record holding the text, the notice, the name, the blob URL, the clock and the user is appended |
| GenerationsRoute.Owned | src/app/api/generations/route.ts:19 | the owner filter keeps exactly the caller's records, each as often as it occurs |
| GenerationsRoute.Insert | src/app/api/generations/route.ts:19-21 | inserting into a newest-first list gives a newest-first list holding one more record |
| GenerationsRoute.SortNewestFirst | src/app/api/generations/route.ts:19-21 | sorting by `uploadDate` descending gives a permutation of its input ordered newest first |
| GenerationsRoute.Get | src/app/api/generations/route.ts:7-31 | without a session user the answer is 401 and no query is made; a 200 lists exactly the caller's records, newest first; a database failure gives 500 "Failed to fetch generations."; the collection is unchanged |
| GenerationsRoute.OtherOwnersInvisible | src/app/api/generations/route.ts:15-23 | adding another user's record leaves a caller's listing unchanged |
| GenerationsRoute.Create | src/app/api/generations/route.ts:33-86 | without a session user 401; a body that does not parse 500 "Failed to create generation." with no call; a missing or empty content, generated content, file name or type 400 with no call; a connection that throws 500 with nothing saved; a 201 comes only after a working connection and appends one valid record owned by the session user, dated by the server clock, with the body's fields copied, after the database accepted it; once the connection works and the record validates, the answer is 201 exactly when the save passes; every failure leaves the collection unchanged |
| GenerationsRoute.CreateIgnoresClientOwner | src/app/api/generations/route.ts:62-71 | the owner and date a client puts in the body are ignored: changing them changes nothing |
| GenerationsRoute.CreateSchemaRejects | src/app/api/generations/route.ts:53-84 | a body without a file URL, or with an unknown type, passes the route's own check, then fails the schema: 500 and nothing saved |
| GenerationsRoute.CreatedIsListed | src/app/api/generations/route.ts:19-78 | a record just created appears in its owner's next listing |
| GenerationsRoute.CreateKeepsStoreValid | src/app/api/generations/route.ts:62-73 | creating a record never makes the collection invalid |
| SignupRoute.Signup | src/app/api/auth/signup/route.ts:5-30 | missing or empty credentials 400 and a taken name 409, each with the registry unchanged; a 201 appends exactly one user with that name and the hashed password and answers without the password; a working connection, lookup and save with both credentials and a free name always give 201; database failures 500; unique names stay unique |
| SignupRoute.SecondSignupConflicts | src/app/api/auth/signup/route.ts:14-17 | signing up again with a name just registered is answered 409 |
| SignupRoute.SignupAllUnique | src/app/api/auth/signup/route.ts:14-20 | handled one at a time, any sequence of signups keeps usernames unique and only ever appends users |

## Left out

- The parsing of the multipart form and the JSON bodies is not modelled: the routes receive the fields already read, and a body that does not parse is `None`. A `file` field sent as a plain string (which would make the upload route throw later) is not modelled.
- JSON fields of a type other than string (numbers, objects) are not modelled; every body field is a string or absent.
- The internals of pdf-parse, mammoth, the OCR engine, the AI service, the blob store, uuid and MongoDB are opaque functions or fixed outcomes; their messages are whatever they throw.
- UTF-8 decoding of the file bytes is an opaque function of the bytes.
- Lengths are counts of Dafny characters, not of UTF-16 code units.
- JsString.Lower: lower-cases ASCII letters only, where `toLowerCase` maps every Unicode letter; every extension the classifier compares with is ASCII.
- GenerationModel.Validate: a failing validation throws the one message "Generation validation failed" rather than Mongoose's message listing the failing paths, and the cast of `userId` to an ObjectId is not modelled (a non-empty id is accepted).
- The environment variables `BLOB_READ_WRITE_TOKEN` and `GEMINI_API_KEY` are the `Config` input, with the empty string for an unset variable; the model name passed to the AI service is not modelled.
- Logging to the console is left out.
- GenerationsRoute.SortNewestFirst: records with equal `uploadDate` come out in one fixed order; the database gives no order among them, so the contract states only the permutation and the newest-first order.
- SignupRoute.Signup: requests are handled one at a time; the race between two concurrent signups of the same name, which the database's unique index would decide, is not modelled.
- The password hash is an uninterpreted function; bcrypt's salt and the `comparePassword` method are not modelled.
- The per-record routes (read, rename, delete by id) and the UI pages are not part of this model.
