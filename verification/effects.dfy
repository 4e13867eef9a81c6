/**
 The calls a request makes to code outside the model (parsers, the OCR
 engine, the blob store, the AI service, the database), recorded in the
 order they are made, so that what is and is not called can be stated.
 */
module Effects {
  import opened Outcomes
  import opened GenerationModel
  import opened Http

  /** What is sent to the AI service: the instruction for a generation type
      followed by the text. `AiPrompt.Render` spells out the string, and
      `AiPrompt.PromptInjective` shows that the string determines both parts. */
  datatype Prompt = Prompt(generationType: GenerationType, text: string)

  datatype Call =
    | PdfParse                 // pdf-parse on the file bytes
    | PdfFallback              // the in-process fallback text cleaner
    | MammothExtract           // mammoth.extractRawText
    | OcrCreateWorker          // tesseract createWorker("eng")
    | OcrRecognize             // worker.recognize
    | OcrTerminate             // worker.terminate
    | BlobPut(name: string)    // @vercel/blob put
    | DbConnect                // connectToDatabase
    | DbFind                   // Generation.find
    | AiGenerate(prompt: Prompt) // model.generateContent
    | DbSave(record: Generation)

  newtype byte = x: int | 0 <= x < 256

  /** The collaborators of the upload route, each an opaque function (or a
      fixed outcome for a call without arguments of interest). */
  datatype Services = Services(
    decodeUtf8: seq<byte> -> string,               // Buffer.toString("utf8")
    pdfParse: seq<byte> -> Result<string>,         // pdf-parse: the text
    mammoth: seq<byte> -> Result<string>,          // mammoth.extractRawText: the value
    ocrCreateWorker: Step,
    ocrRecognize: seq<byte> -> Result<string>,     // worker.recognize: the text
    ocrTerminate: Step,
    blobPut: (string, seq<byte>) -> Result<string>, // put(name, bytes): the blob URL
    dbConnect: Step,
    gemini: Prompt -> Result<string>,              // generateContent(prompt): the text
    dbSave: Generation -> Step)

  /** A result together with the calls made to produce it. */
  datatype Run<+T> = Run(result: Result<T>, calls: seq<Call>)

  /** What a route that writes the Generation collection yields: the
      response, the external calls in order, and the collection afterwards. */
  datatype Outcome = Outcome(response: Response, calls: seq<Call>, store: seq<Generation>)
}
