/**
 The format-specific text extractors of the upload route: `parsePdf` with
 its single fallback, `parseDocx`, `performOcr` with its worker released on
 every path, and the direct decoding of text files.
 */
module Extraction {
  import opened Outcomes
  import opened Effects
  import opened PdfText
  import opened FileKind

  const PdfUnreadable :=
    "Failed to parse PDF file. Please ensure it contains selectable text or try uploading as images."
  const DocxUnreadable := "Failed to parse DOCX file."

  /** `parsePdf`: the primary parser's text as it is; only if it throws,
      the fallback cleaner, once; if that throws too, one fixed error. */
  function ParsePdf(bytes: seq<byte>, svc: Services): (r: Run<string>)
    ensures svc.pdfParse(bytes).Ok? ==> r == Run(svc.pdfParse(bytes), [PdfParse])
    ensures svc.pdfParse(bytes).Thrown? ==>
      && r.calls == [PdfParse, PdfFallback]
      && (r.result.Ok? <==> |Clean(svc.decodeUtf8(bytes))| >= MinFallbackLength)
      && (r.result.Ok? ==> r.result.value == Clean(svc.decodeUtf8(bytes)) && WellCleaned(r.result.value))
      && (r.result.Thrown? ==> r.result.message == PdfUnreadable)
    ensures ExtractorTrace(r.calls)
    ensures PdfFallback in r.calls <==> svc.pdfParse(bytes).Thrown?
  {
    match svc.pdfParse(bytes)
    case Ok(text) => Run(Ok(text), [PdfParse])
    case Thrown(_) =>
      match Fallback(svc.decodeUtf8(bytes))
      case Ok(text) => Run(Ok(text), [PdfParse, PdfFallback])
      case Thrown(_) => Run(Thrown(PdfUnreadable), [PdfParse, PdfFallback])
  }

  /** `parseDocx`: mammoth's raw text, or one fixed error. */
  function ParseDocx(bytes: seq<byte>, svc: Services): (r: Run<string>)
    ensures r.calls == [MammothExtract]
    ensures svc.mammoth(bytes).Ok? ==> r.result == svc.mammoth(bytes)
    ensures svc.mammoth(bytes).Thrown? ==> r.result == Thrown(DocxUnreadable)
    ensures ExtractorTrace(r.calls) && PdfFallback !in r.calls
  {
    match svc.mammoth(bytes)
    case Ok(text) => Run(Ok(text), [MammothExtract])
    case Thrown(_) => Run(Thrown(DocxUnreadable), [MammothExtract])
  }

  /** `performOcr`: once the worker exists it is terminated whatever
      `recognize` does, and an error thrown by `terminate` (in `finally`)
      replaces the outcome. A failing `createWorker` leaves nothing to
      release. */
  function PerformOcr(bytes: seq<byte>, svc: Services): (r: Run<string>)
    ensures svc.ocrCreateWorker.Throw? ==>
      r == Run(Thrown(svc.ocrCreateWorker.message), [OcrCreateWorker])
    ensures svc.ocrCreateWorker.Pass? ==>
      && r.calls == [OcrCreateWorker, OcrRecognize, OcrTerminate]
      && (svc.ocrTerminate.Throw? ==> r.result == Thrown(svc.ocrTerminate.message))
      && (svc.ocrTerminate.Pass? ==> r.result == svc.ocrRecognize(bytes))
    ensures ExtractorTrace(r.calls) && PdfFallback !in r.calls
  {
    match svc.ocrCreateWorker
    case Throw(m) => Run(Thrown(m), [OcrCreateWorker])
    case Pass =>
      var calls := [OcrCreateWorker, OcrRecognize, OcrTerminate];
      match svc.ocrTerminate
      case Throw(m) => Run(Thrown(m), calls)
      case Pass => Run(svc.ocrRecognize(bytes), calls)
  }

  /** The calls an extractor may make. */
  predicate IsExtractorCall(c: Call) {
    c.PdfParse? || c.PdfFallback? || c.MammothExtract?
    || c.OcrCreateWorker? || c.OcrRecognize? || c.OcrTerminate?
  }

  /** Whenever the OCR worker recognised anything, the very next call
      terminated it. */
  predicate OcrReleased(calls: seq<Call>) {
    forall i :: 0 <= i < |calls| && calls[i] == OcrRecognize ==>
      i + 1 < |calls| && calls[i + 1] == OcrTerminate
  }

  /** What any extractor's calls satisfy: only extractor calls, the OCR
      worker released, the fallback cleaner run at most once. */
  predicate ExtractorTrace(calls: seq<Call>) {
    && (forall c :: c in calls ==> IsExtractorCall(c))
    && OcrReleased(calls)
    && multiset(calls)[PdfFallback] <= 1
  }

  /** The extractor the classifier picked; text files are decoded without
      any outside call. */
  function Extract(kind: Kind, bytes: seq<byte>, svc: Services): (r: Run<string>)
    requires kind != Unsupported
    ensures ExtractorTrace(r.calls)
    ensures PdfFallback in r.calls <==> kind == Pdf && svc.pdfParse(bytes).Thrown?
    ensures kind == Pdf ==> r == ParsePdf(bytes, svc)
    ensures kind == Docx ==> r == ParseDocx(bytes, svc)
    ensures kind == Image ==> r == PerformOcr(bytes, svc)
    ensures kind == Text ==> r == Run(Ok(svc.decodeUtf8(bytes)), [])
  {
    match kind
    case Pdf => ParsePdf(bytes, svc)
    case Docx => ParseDocx(bytes, svc)
    case Image => PerformOcr(bytes, svc)
    case Text => Run(Ok(svc.decodeUtf8(bytes)), [])
  }
}
