/** Reading a CV or a cover letter: the file's extension, lower-cased,
    picks the extractor, and anything but `.txt .pdf .docx .png .jpg .jpeg
    .tiff` raises `ValueError`.

    The extractors themselves read files (pdfplumber, python-docx,
    tesseract); their raw output is the `Extracted` record given as a
    parameter, and only the text post-processing is modelled.

    The module imports `win32com`, so it runs on Windows and
    `os.path.splitext` is `ntpath.splitext`: both `\` and `/` separate path
    components, and leading dots of the last component do not start an
    extension.
 */
module DocumentDispatch {
  import opened Wrappers
  import opened Text
  import LineBreaks
  import DocxText

  /** `s.rfind(c)`: the last index of `c` in `s`, or `-1`. */
  function RFind(s: string, c: char): (r: int)
    ensures -1 <= r < |s|
    ensures r >= 0 ==> s[r] == c
    ensures forall k :: r < k < |s| ==> s[k] != c
  {
    if s == [] then -1
    else if s[|s| - 1] == c then |s| - 1
    else RFind(s[..|s| - 1], c)
  }

  /** `rfind` is the one index with those properties. */
  lemma RFindUnique(s: string, c: char, r: int)
    requires -1 <= r < |s|
    requires r >= 0 ==> s[r] == c
    requires forall k :: r < k < |s| ==> s[k] != c
    ensures RFind(s, c) == r
  {
    var a := RFind(s, c);
    assert a >= 0 ==> a <= r;
    assert r >= 0 ==> r <= a;
  }

  /** The last path separator, `\` or `/`, or `-1`. */
  function LastSeparator(p: string): (r: int)
    ensures -1 <= r < |p|
    ensures forall k :: r < k < |p| ==> p[k] != '\\' && p[k] != '/'
  {
    var b := RFind(p, '\\');
    var f := RFind(p, '/');
    if b > f then b else f
  }

  /** A character other than `.` between `from` and `to`: the leading-dots
      loop of `genericpath._splitext` returns as soon as it meets one. */
  predicate HasNonDot(p: string, from: int, to: int)
    requires 0 <= from && to <= |p|
  {
    exists k :: from <= k < to && p[k] != '.'
  }

  /** `ntpath.splitext(p)`. */
  function SplitExt(p: string): (r: (string, string))
    ensures r.0 + r.1 == p
  {
    var sepIndex := LastSeparator(p);
    var dotIndex := RFind(p, '.');
    if dotIndex > sepIndex && HasNonDot(p, sepIndex + 1, dotIndex) then
      (p[..dotIndex], p[dotIndex..])
    else
      (p, "")
  }

  /** `os.path.splitext(file_path)[1].lower()`. */
  function Extension(p: string): string {
    Lower(SplitExt(p).1)
  }

  /** The extension is empty, or a dot followed by no dot and no separator,
      taken from the end of the path after a component that is not all dots. */
  lemma ExtensionShape(p: string)
    ensures var (root, ext) := SplitExt(p);
      ext == "" || (
        && ext[0] == '.'
        && (forall k :: 1 <= k < |ext| ==> ext[k] != '.' && ext[k] != '\\' && ext[k] != '/')
        && HasNonDot(p, LastSeparator(p) + 1, |root|))
  {
  }

  /** `p[d..]` can be split off as an extension: it starts with a dot
      inside the last path component, no dot follows it, and something
      other than a dot precedes it in that component. */
  predicate ExtensionAt(p: string, d: int) {
    && LastSeparator(p) < d < |p| && p[d] == '.'
    && (forall k :: d < k < |p| ==> p[k] != '.' && p[k] != '\\' && p[k] != '/')
    && HasNonDot(p, LastSeparator(p) + 1, d)
  }

  /** `splitext` splits off an extension exactly when the path has one,
      and then splits at its dot; otherwise the root is the whole path. */
  lemma SplitExtCharacterized(p: string)
    ensures SplitExt(p).1 != "" <==> exists d :: ExtensionAt(p, d)
    ensures forall d :: ExtensionAt(p, d) ==> SplitExt(p) == (p[..d], p[d..])
    ensures SplitExt(p).1 == "" ==> SplitExt(p).0 == p
  {
    var d := RFind(p, '.');
    forall e | ExtensionAt(p, e)
      ensures SplitExt(p) == (p[..e], p[e..])
    {
      RFindUnique(p, '.', e);
    }
    if SplitExt(p).1 != "" {
      assert ExtensionAt(p, d);
    }
  }

  /** Worked cases: the extension is lower-cased, a leading dot does not
      start one, a dot in a directory name does not count, and only the
      last dot splits. */
  lemma ExtensionExamples()
    ensures Extension("cv.PDF") == ".pdf"
    ensures Extension(".bashrc") == ""
    ensures Extension("docs.d/letter") == ""
    ensures Extension("archive.tar.gz") == ".gz"
  {
    UpperCaseExtension();
    LeadingDot();
    DotInDirectory();
    LastDotSplits();
  }

  /** A path without separators has `-1` as its last separator. */
  lemma NoSeparator(p: string)
    requires '\\' !in p && '/' !in p
    ensures LastSeparator(p) == -1
  {
    RFindUnique(p, '\\', -1);
    RFindUnique(p, '/', -1);
  }

  lemma UpperCaseExtension()
    ensures Extension("cv.PDF") == ".pdf"
  {
    var p := "cv.PDF";
    NoSeparator(p);
    RFindUnique(p, '.', 2);
    assert HasNonDot(p, 0, 2) by {
      assert p[0] != '.';
    }
    assert SplitExt(p).1 == p[2..] == ".PDF";
    var l := Lower(".PDF");
    assert l[0] == '.' && l[1] == 'p' && l[2] == 'd' && l[3] == 'f';
    assert l == ".pdf";
  }

  lemma LeadingDot()
    ensures Extension(".bashrc") == ""
  {
    var p := ".bashrc";
    NoSeparator(p);
    RFindUnique(p, '.', 0);
  }

  lemma DotInDirectory()
    ensures Extension("docs.d/letter") == ""
  {
    var p := "docs.d/letter";
    RFindUnique(p, '\\', -1);
    RFindUnique(p, '/', 6);
    RFindUnique(p, '.', 4);
  }

  lemma LastDotSplits()
    ensures Extension("archive.tar.gz") == ".gz"
  {
    var p := "archive.tar.gz";
    NoSeparator(p);
    RFindUnique(p, '.', 11);
    assert HasNonDot(p, 0, 11) by {
      assert p[0] != '.';
    }
    assert SplitExt(p).1 == p[11..] == ".gz";
    var l := Lower(".gz");
    assert l[0] == '.' && l[1] == 'g' && l[2] == 'z';
    assert l == ".gz";
  }

  const SupportedExtensions: set<string> := {".txt", ".pdf", ".docx", ".png", ".jpg", ".jpeg", ".tiff"}

  /** The two documents a user uploads. */
  datatype DocumentKind = Cv | CoverLetter

  /** The extraction routines of the source. */
  datatype Extractor =
    | PlainText       // extract_text_from_txt
    | ColumnAwarePdf  // extract_text_dynamic_kmeans
    | LayoutPdf       // extract_text_from_pdf
    | WordDocument    // extract_text_from_docx
    | ImageOcr        // perform_ocr

  /** The `ValueError` raised for any other extension. */
  datatype ReadError = UnsupportedFileType(extension: string)

  /** The `if`/`elif` chain of the inner `extract_text` of `process_cv` and
      `process_cover_letter`. */
  function ExtractorFor(kind: DocumentKind, ext: string): (r: Result<Extractor, ReadError>)
    ensures r.Success? <==> ext in SupportedExtensions
    ensures r.Failure? ==> r.error == UnsupportedFileType(ext)
  {
    if ext == ".txt" then Success(PlainText)
    else if ext == ".pdf" then Success(if kind == Cv then ColumnAwarePdf else LayoutPdf)
    else if ext == ".docx" then Success(WordDocument)
    else if ext in [".png", ".jpg", ".jpeg", ".tiff"] then Success(ImageOcr)
    else Failure(UnsupportedFileType(ext))
  }

  /** The raw output the file readers would produce for one file. */
  datatype Extracted = Extracted(
    plainText: string,                  // file.read() of the UTF-8 text file
    pdfPages: seq<Option<string>>,      // page.extract_text(layout=True), None when it returns None
    pdfColumns: seq<seq<Option<string>>>, // per page, the text of each detected column; [] when no words
    docxParagraphs: seq<string>,        // para.text of every paragraph
    docxRuns: seq<string>,              // the text of every non-empty <w:t> run, in collection order
    ocr: Option<string>)                // pytesseract output, None when OCR raised

  /** `extract_text_from_pdf`: pages joined with newlines, then the
      line-break fix. */
  function LayoutPdfText(pages: seq<Option<string>>): string {
    LineBreaks.FixLineBreaks(Join("\n", OrEmpty(pages)))
  }

  /** `x or ""` over a list. */
  function OrEmpty(xs: seq<Option<string>>): (r: seq<string>)
    ensures |r| == |xs|
    ensures forall k :: 0 <= k < |xs| ==> r[k] == xs[k].GetOr("")
  {
    if xs == [] then [] else [xs[0].GetOr("")] + OrEmpty(xs[1..])
  }

  /** The page texts of the pages with at least one column, each the
      columns joined with newlines. */
  function PageTexts(pages: seq<seq<Option<string>>>): (r: seq<string>)
    ensures |r| <= |pages|
  {
    if pages == [] then []
    else
      var rest := PageTexts(pages[1..]);
      if pages[0] == [] then rest else [Join("\n", OrEmpty(pages[0]))] + rest
  }

  /** `extract_text_dynamic_kmeans` after column detection. */
  function ColumnAwarePdfText(pages: seq<seq<Option<string>>>): string {
    Strip(LineBreaks.FixLineBreaks(Join("\n\n", PageTexts(pages))))
  }

  /** What an extractor returns for the file. */
  function Run(e: Extractor, f: Extracted): string {
    match e
    case PlainText => f.plainText
    case ColumnAwarePdf => ColumnAwarePdfText(f.pdfColumns)
    case LayoutPdf => LayoutPdfText(f.pdfPages)
    case WordDocument => DocxText.DocxDocumentText(f.docxParagraphs, f.docxRuns)
    case ImageOcr => f.ocr.GetOr("")
  }

  /** `process_cv(file_path)`. */
  function ProcessCv(path: string, f: Extracted): Result<string, ReadError> {
    var e :- ExtractorFor(Cv, Extension(path));
    Success(Run(e, f))
  }

  /** `process_cover_letter(file_path)`. */
  function ProcessCoverLetter(path: string, f: Extracted): Result<string, ReadError> {
    var e :- ExtractorFor(CoverLetter, Extension(path));
    Success(Strip(Run(e, f)))
  }

  /** A file is read exactly when its lower-cased extension is supported;
      otherwise both readers raise `ValueError` naming that extension. */
  lemma SupportedIff(path: string, f: Extracted)
    ensures ProcessCv(path, f).Success? <==> Extension(path) in SupportedExtensions
    ensures ProcessCoverLetter(path, f).Success? <==> Extension(path) in SupportedExtensions
    ensures Extension(path) !in SupportedExtensions ==>
      && ProcessCv(path, f) == Failure(UnsupportedFileType(Extension(path)))
      && ProcessCoverLetter(path, f) == Failure(UnsupportedFileType(Extension(path)))
  {
  }

  /** Only a `.pdf` is read differently: the CV uses the column-aware
      extractor, the cover letter the layout extractor. */
  lemma PdfExtractors(kind: DocumentKind, ext: string)
    ensures ext == ".pdf" ==> ExtractorFor(Cv, ext) == Success(ColumnAwarePdf)
    ensures ext == ".pdf" ==> ExtractorFor(CoverLetter, ext) == Success(LayoutPdf)
    ensures ext != ".pdf" ==> ExtractorFor(Cv, ext) == ExtractorFor(CoverLetter, ext)
  {
  }

  /** The cover letter is the CV reading, stripped, for every file that is
      not a PDF; its text never has surrounding whitespace. */
  lemma CoverLetterIsStrippedCv(path: string, f: Extracted)
    ensures ProcessCoverLetter(path, f).Success? ==> IsStripped(ProcessCoverLetter(path, f).value)
    ensures Extension(path) != ".pdf" ==>
      ProcessCoverLetter(path, f) == (match ProcessCv(path, f)
        case Success(t) => Success(Strip(t))
        case Failure(err) => Failure(err))
  {
  }

  /** The column-aware PDF text is stripped too. */
  lemma CvPdfIsStripped(path: string, f: Extracted)
    requires Extension(path) == ".pdf"
    ensures ProcessCv(path, f) == Success(ColumnAwarePdfText(f.pdfColumns))
    ensures IsStripped(ProcessCv(path, f).value)
  {
  }

  /** Lower-casing never moves a `.`, `\` or `/`. */
  lemma LowerKeepsMarks(s: string, c: char)
    requires c == '.' || c == '\\' || c == '/'
    ensures forall k :: 0 <= k < |s| ==> (Lower(s)[k] == c <==> s[k] == c)
  {
  }

  lemma RFindLower(s: string, c: char)
    requires c == '.' || c == '\\' || c == '/'
    ensures RFind(Lower(s), c) == RFind(s, c)
  {
    LowerKeepsMarks(s, c);
    RFindUnique(Lower(s), c, RFind(s, c));
  }

  /** Lower-casing works character by character, so it distributes over
      concatenation. */
  lemma LowerConcat(a: string, b: string)
    ensures Lower(a + b) == Lower(a) + Lower(b)
  {
    var whole, parts := Lower(a + b), Lower(a) + Lower(b);
    forall k | 0 <= k < |whole|
      ensures whole[k] == parts[k]
    {
      if k < |a| {
        assert (a + b)[k] == a[k];
      } else {
        assert (a + b)[k] == b[k - |a|];
      }
    }
  }

  lemma LowerSlices(s: string, i: nat)
    requires i <= |s|
    ensures Lower(s)[..i] == Lower(s[..i])
    ensures Lower(s)[i..] == Lower(s[i..])
  {
    assert s == s[..i] + s[i..];
    LowerConcat(s[..i], s[i..]);
  }

  /** `splitext` commutes with lower-casing. */
  lemma SplitExtLower(p: string)
    ensures SplitExt(Lower(p)) == (Lower(SplitExt(p).0), Lower(SplitExt(p).1))
  {
    var q := Lower(p);
    RFindLower(p, '.');
    RFindLower(p, '\\');
    RFindLower(p, '/');
    assert LastSeparator(q) == LastSeparator(p);
    var sepIndex := LastSeparator(p);
    var dotIndex := RFind(p, '.');
    if dotIndex > sepIndex {
      HasNonDotLower(p, sepIndex + 1, dotIndex);
      LowerSlices(p, dotIndex);
    }
  }

  lemma HasNonDotLower(p: string, from: int, to: int)
    requires 0 <= from && to <= |p|
    ensures HasNonDot(Lower(p), from, to) <==> HasNonDot(p, from, to)
  {
    LowerKeepsMarks(p, '.');
    if HasNonDot(p, from, to) {
      var k :| from <= k < to && p[k] != '.';
      assert Lower(p)[k] != '.';
    }
  }

  /** Extension matching is case-insensitive: paths that agree up to ASCII
      case are read with the same extractor. */
  lemma ExtensionCaseInsensitive(p: string, q: string)
    requires Lower(p) == Lower(q)
    ensures Extension(p) == Extension(q)
  {
    SplitExtLower(p);
    SplitExtLower(q);
    LowerIdempotent(SplitExt(p).1);
    LowerIdempotent(SplitExt(q).1);
  }

  lemma LowerIdempotent(s: string)
    ensures Lower(Lower(s)) == Lower(s)
  {
  }
}
