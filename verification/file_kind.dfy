/**
 How the upload route decides a file's format from its declared media type
 and its name, and how it names the stored copy of the file.
 */
module FileKind {
  import opened JsString

  /** The formats the upload route tells apart. */
  datatype Kind = Pdf | Docx | Image | Text | Unsupported

  const PdfMediaType := "application/pdf"
  const DocxMediaType := "application/vnd.openxmlformats-officedocument.wordprocessingml.document"
  const ImageExtensions := ["jpg", "jpeg", "png"]
  const TextExtensions := ["txt", "md", "csv", "json", "log"]

  /** The name used when the uploaded file has none. */
  const DefaultFileName := "unnamed_file"

  /** `file.name || "unnamed_file"` */
  function FileName(name: string): (r: string)
    ensures r != []
    ensures name != [] ==> r == name
    ensures name == [] ==> r == DefaultFileName
  {
    if name == [] then DefaultFileName else name
  }

  lemma LowerKeepsDot(s: string)
    ensures '.' in Lower(s) <==> '.' in s
  {
    if '.' in s {
      var i :| 0 <= i < |s| && s[i] == '.';
      assert Lower(s)[i] == '.';
    }
    if '.' in Lower(s) {
      var i :| 0 <= i < |s| && Lower(s)[i] == '.';
      assert s[i] == '.';
    }
  }

  /** `name.split(".").pop()?.toLowerCase()`: the lower-cased text after the
      last dot, or the whole name when it has no dot. */
  function Extension(name: string): (r: string)
    ensures '.' !in r
    ensures r == Lower(name[LastIndexOf(name, '.') + 1..])
  {
    var piece := Last(Split(name, '.'));
    LowerKeepsDot(piece);
    Lower(piece)
  }

  predicate PdfSignal(mediaType: string, ext: string) {
    mediaType == PdfMediaType || ext == "pdf"
  }

  predicate DocxSignal(mediaType: string, ext: string) {
    mediaType == DocxMediaType || ext == "docx"
  }

  predicate ImageSignal(mediaType: string, ext: string) {
    mediaType == "image/jpeg" || mediaType == "image/png" || ext in ImageExtensions
  }

  predicate TextSignal(mediaType: string, ext: string) {
    "text/" <= mediaType || ext in TextExtensions
  }

  /** The `if`/`else if` chain of the upload route: the first branch whose
      media type or extension matches decides, in the order PDF, DOCX,
      image, text. */
  function Classify(mediaType: string, ext: string): (k: Kind)
    ensures k == Pdf <==> PdfSignal(mediaType, ext)
    ensures k == Docx <==> !PdfSignal(mediaType, ext) && DocxSignal(mediaType, ext)
    ensures k == Image <==>
      !PdfSignal(mediaType, ext) && !DocxSignal(mediaType, ext) && ImageSignal(mediaType, ext)
    ensures k == Text <==>
      && !PdfSignal(mediaType, ext) && !DocxSignal(mediaType, ext)
      && !ImageSignal(mediaType, ext) && TextSignal(mediaType, ext)
  {
    if PdfSignal(mediaType, ext) then Pdf
    else if DocxSignal(mediaType, ext) then Docx
    else if ImageSignal(mediaType, ext) then Image
    else if TextSignal(mediaType, ext) then Text
    else Unsupported
  }

  /** A recognised extension decides the format whatever media type is
      declared, unless an earlier branch's media type matches; and a file
      whose media type and extension are both unknown is unsupported. */
  lemma ExtensionDecides(mediaType: string, ext: string)
    ensures ext == "pdf" ==> Classify(mediaType, ext) == Pdf
    ensures ext == "docx" && mediaType != PdfMediaType ==> Classify(mediaType, ext) == Docx
    ensures ext in ImageExtensions && mediaType != PdfMediaType && mediaType != DocxMediaType
      ==> Classify(mediaType, ext) == Image
    ensures ext in TextExtensions && mediaType !in [PdfMediaType, DocxMediaType, "image/jpeg", "image/png"]
      ==> Classify(mediaType, ext) == Text
    ensures mediaType !in [PdfMediaType, DocxMediaType, "image/jpeg", "image/png"]
      && !("text/" <= mediaType) && ext !in ["pdf", "docx"] + ImageExtensions + TextExtensions
      ==> Classify(mediaType, ext) == Unsupported
  {
  }

  /** The extension of `base.e` is `e` lower-cased, whatever dots `base` holds. */
  lemma ExtensionOfDotted(base: string, e: string)
    requires '.' !in e
    ensures Extension(base + "." + e) == Lower(e)
  {
    LastDotOfDotted(base, e);
    assert (base + "." + e)[|base| + 1..] == e;
  }

  /** In `base.e` with a dot-free `e`, the last dot is the one after `base`. */
  lemma LastDotOfDotted(base: string, e: string)
    requires '.' !in e
    ensures LastIndexOf(base + "." + e, '.') == |base|
  {
    var s := base + "." + e;
    DotFreeAfter(base, e);
    LastIndexOfUnique(s, '.', |base|);
  }

  lemma DotFreeAfter(base: string, e: string)
    requires '.' !in e
    ensures (base + "." + e)[|base|] == '.'
    ensures forall k :: |base| < k < |base + "." + e| ==> (base + "." + e)[k] != '.'
  {
    var s := base + "." + e;
    forall k | |base| < k < |s|
      ensures s[k] != '.'
    {
      assert s[k] == e[k - |base| - 1];
      assert e[k - |base| - 1] in e;
    }
  }

  /** A name without a dot is its own extension. */
  lemma ExtensionOfDotless(name: string)
    requires '.' !in name
    ensures Extension(name) == Lower(name)
  {
    assert name[0..] == name;
  }

  /** A PNG image whose name ends in `.pdf` is handled as a PDF. */
  lemma ClassifyPngNamedPdf(base: string)
    ensures Classify("image/png", Extension(base + ".pdf")) == Pdf
  {
    assert base + ".pdf" == base + "." + "pdf";
    ExtensionOfDotted(base, "pdf");
    assert Lower("pdf") == "pdf";
  }

  /** A file named just `pdf`, with no media type, is a PDF. */
  lemma ClassifyDotlessPdf()
    ensures Classify("", Extension("pdf")) == Pdf
  {
    ExtensionOfDotless("pdf");
    assert Lower("pdf") == "pdf";
  }

  /** A name ending in `.MD` sent as a byte stream is text: the extension
      is lower-cased before it is compared. */
  lemma ClassifyUpperCaseText(base: string)
    ensures Classify("application/octet-stream", Extension(base + ".MD")) == Text
  {
    var mt := "application/octet-stream";
    assert base + ".MD" == base + "." + "MD";
    ExtensionOfDotted(base, "MD");
    assert Lower("MD") == "md";
    assert |mt| != |PdfMediaType| && |mt| != |DocxMediaType|;
    assert "md" in TextExtensions;
  }

  /** The name the file is stored under:
      `name.substring(0, name.lastIndexOf(".")) + "_" + uuid`, then a dot
      and the extension when the extension is not empty. */
  function BlobName(name: string, uuid: string): string {
    var ext := Extension(name);
    var stem := Substring(name, 0, LastIndexOf(name, '.')) + "_" + uuid;
    if ext != "" then stem + "." + ext else stem
  }

  /** For `base.e` the stored name is `base_uuid.e`, with `e` lower-cased
      (and no trailing dot when `e` is empty). */
  lemma BlobNameDotted(base: string, e: string, uuid: string)
    requires '.' !in e
    ensures BlobName(base + "." + e, uuid)
         == if e == "" then base + "_" + uuid else base + "_" + uuid + "." + Lower(e)
  {
    var s := base + "." + e;
    ExtensionOfDotted(base, e);
    LastDotOfDotted(base, e);
    assert Substring(s, 0, |base|) == base by {
      assert s[0..|base|] == base;
    }
    assert Lower(e) == "" <==> e == "";
  }

  /** For a name without a dot `lastIndexOf` is -1, which `substring`
      clamps to 0: the base is empty and the whole name becomes the
      extension, so `README` is stored as `_uuid.readme`. */
  lemma BlobNameDotless(name: string, uuid: string)
    requires '.' !in name && name != ""
    ensures BlobName(name, uuid) == "_" + uuid + "." + Lower(name)
  {
    ExtensionOfDotless(name);
  }

  /** An extension is already lower-cased. */
  lemma ExtensionLowered(name: string)
    ensures Lower(Extension(name)) == Extension(name)
  {
    LowerIdempotent(name[LastIndexOf(name, '.') + 1..]);
  }

  /** The stored name has the uploaded name's extension whenever that
      extension is not empty. */
  lemma BlobNameKeepsExtension(name: string, uuid: string)
    requires Extension(name) != ""
    ensures Extension(BlobName(name, uuid)) == Extension(name)
  {
    var ext := Extension(name);
    var stem := Substring(name, 0, LastIndexOf(name, '.')) + "_" + uuid;
    ExtensionOfDotted(stem, ext);
    ExtensionLowered(name);
  }
}
