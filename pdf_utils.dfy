// The backend's PDF helpers (backend/helpers/pdf_utils.py): finding Tesseract, OCR on
// an image, and the PyPDF2, python-docx, docx2pdf and pikepdf operations.  Every helper
// reports failure by raising an Exception with a fixed message or prefix; here that is
// a Failure(Raised(..)) or a Failure(Wrapped(prefix, cause)).
module PdfUtils {
  import opened Wrappers
  import opened Strings
  import opened Http
  import opened FileSystem
  import opened PdfDocs
  import PdfService

  // ---------------------------------------------------------------- Tesseract

  /** What the host reports: whether `tesseract --version` exits with 0 within its
      timeout, the USERNAME environment variable, and platform.system(). */
  datatype Host = Host(onPath: bool, username: string, system: string)

  /** The Windows install locations checked after PATH, in order. */
  function CommonPaths(username: string): (r: seq<Path>)
    ensures |r| == 4
    ensures forall i :: 0 <= i < 4 ==> r[i] != [] && r[i][0] == 'C'
  {
    var r := ["C:\\Program Files\\Tesseract-OCR\\tesseract.exe",
              "C:\\Program Files (x86)\\Tesseract-OCR\\tesseract.exe",
              "C:\\Users\\" + username + "\\AppData\\Local\\Tesseract-OCR\\tesseract.exe",
              "C:\\tesseract\\tesseract.exe"];
    assert r[0][0] == 'C' && r[1][0] == 'C' && r[2][0] == 'C' && r[3][0] == 'C';
    r
  }

  /** The first of the paths that exists (os.path.exists: a file or a directory). */
  function FirstExisting(fs: Fs, paths: seq<Path>): (r: Option<Path>)
    ensures r.Some? <==> exists i :: 0 <= i < |paths| && Exists(fs, paths[i])
    ensures r.Some? ==> exists i :: 0 <= i < |paths| && paths[i] == r.value && Exists(fs, paths[i]) &&
                                    forall j :: 0 <= j < i ==> !Exists(fs, paths[j])
  {
    if paths == [] then None
    else if Exists(fs, paths[0]) then Some(paths[0])
    else
      var r := FirstExisting(fs, paths[1..]);
      assert forall i :: 1 <= i < |paths| ==> paths[i] == paths[1..][i - 1];
      r
  }

  /** Tesseract counts as installed when it runs from PATH or sits in a common location. */
  predicate Installed(host: Host, fs: Fs)
  {
    host.onPath || FirstExisting(fs, CommonPaths(host.username)).Some?
  }

  /** check_tesseract_installation: PATH first, reported as "tesseract"; then the first
      common location that exists. */
  method CheckTesseractInstallation(host: Host, fs: Fs) returns (installed: bool, path: Option<Path>)
    ensures installed <==> path.Some?
    ensures installed <==> Installed(host, fs)
    ensures host.onPath ==> path == Some("tesseract")
    ensures !host.onPath ==> path == FirstExisting(fs, CommonPaths(host.username))
  {
    if host.onPath {
      return true, Some("tesseract");
    }
    var paths := CommonPaths(host.username);
    var i := 0;
    while i < |paths|
      invariant 0 <= i <= |paths|
      invariant FirstExisting(fs, paths[i..]) == FirstExisting(fs, paths)
    {
      if Exists(fs, paths[i]) {
        return true, Some(paths[i]);
      }
      assert paths[i..][1..] == paths[i + 1..];
      i := i + 1;
    }
    return false, None;
  }

  /** setup_tesseract_path: whether pytesseract can run, and the executable it is pointed
      at (None: tesseract_cmd stays at its default, the one on PATH). */
  method SetupTesseractPath(available: bool, host: Host, fs: Fs) returns (ready: bool, cmd: Option<Path>)
    ensures ready <==> available && Installed(host, fs)
    ensures cmd.Some? <==> available && !host.onPath && Installed(host, fs)
    ensures cmd.Some? ==> cmd == FirstExisting(fs, CommonPaths(host.username))
  {
    if !available {
      return false, None;
    }
    var installed, path := CheckTesseractInstallation(host, fs);
    if installed && path.Some? && path.value != "" && path.value != "tesseract" {
      return true, path;
    } else if installed {
      return true, None;
    }
    return false, None;
  }

  /** get_tesseract_download_info's dictionary: the keys it sets and the instructions. */
  datatype DownloadInfo = DownloadInfo(url: Option<string>, installer: Option<string>,
                                       command: Option<string>, instructions: seq<string>)

  const WINDOWS_INFO := DownloadInfo(
    Some("https://github.com/UB-Mannheim/tesseract/wiki"),
    Some("tesseract-ocr-w64-setup-5.3.3.20231005.exe"), None,
    ["1. Download the Windows installer from: https://github.com/UB-Mannheim/tesseract/wiki",
     "2. Run the installer as Administrator",
     "3. Install to the default location: C:\\Program Files\\Tesseract-OCR\\",
     "4. Add Tesseract to your system PATH, or restart your application",
     "5. Restart your FastAPI server after installation"])

  const MACOS_INFO := DownloadInfo(
    Some("https://brew.sh/"), None, Some("brew install tesseract"),
    ["1. Install Homebrew if not already installed",
     "2. Run: brew install tesseract",
     "3. Restart your FastAPI server"])

  const LINUX_INFO := DownloadInfo(
    None, None, Some("sudo apt-get install tesseract-ocr"),
    ["Ubuntu/Debian: sudo apt-get install tesseract-ocr",
     "CentOS/RHEL: sudo yum install tesseract",
     "Arch: sudo pacman -S tesseract",
     "Restart your FastAPI server after installation"])

  /** get_tesseract_download_info, by `platform.system().lower()`: Windows and macOS name a
      download page, every other system only package-manager commands. */
  function GetTesseractDownloadInfo(system: string): (r: DownloadInfo)
    ensures r.url.Some? <==> Lower(system) == "windows" || Lower(system) == "darwin"
    ensures r.installer.Some? <==> Lower(system) == "windows"
    ensures r.command.Some? <==> Lower(system) != "windows"
    ensures r.instructions != []
  {
    var s := Lower(system);
    if s == "windows" then WINDOWS_INFO
    else if s == "darwin" then MACOS_INFO
    else LINUX_INFO
  }

  // ---------------------------------------------------------------- OCR

  /** How pytesseract.image_to_string fails: TesseractNotFoundError, TesseractError, or
      any other exception. */
  datatype OcrError = NotFound | TesseractError(message: string) | Crashed(message: string)

  /** The OCR stack: whether pytesseract imports; cv2.imread followed by the grayscale,
      Otsu threshold and median-blur steps (None: imread returned None); and
      image_to_string under page segmentation mode 6 or 8. */
  datatype Ocr = Ocr(available: bool,
                     load: Bytes -> Option<Bytes>,
                     recognize: (Bytes, nat) -> Result<string, OcrError>)

  /** `cv2.imread(path)` and the preprocessing; a missing file reads as None. */
  function Loaded(ocr: Ocr, fs: Fs, p: Path): Option<Bytes>
  {
    if p in fs.files then ocr.load(fs.files[p].data) else None
  }

  /** The recognised text: mode 6 first, and mode 8 when that text is blank. */
  function Recognized(ocr: Ocr, img: Bytes): (r: Result<string, OcrError>)
    ensures ocr.recognize(img, 6).Failure? ==> r == ocr.recognize(img, 6)
    ensures ocr.recognize(img, 6).Success? && NonBlank(ocr.recognize(img, 6).value) ==> r == ocr.recognize(img, 6)
    ensures ocr.recognize(img, 6).Success? && !NonBlank(ocr.recognize(img, 6).value) ==> r == ocr.recognize(img, 8)
  {
    match ocr.recognize(img, 6)
    case Failure(e) => Failure(e)
    case Success(text) =>
      StripNonBlank(text);
      if text == "" || Strip(text) == "" then ocr.recognize(img, 8) else Success(text)
  }

  /** `text.strip() if text else "No text detected in the image."` */
  function Reported(text: string): string
  {
    if text != "" then Strip(text) else "No text detected in the image."
  }

  /** Text with something in it is reported stripped and still non-blank. */
  lemma ReportedNonBlank(text: string)
    requires NonBlank(text)
    ensures Reported(text) == Strip(text) && Reported(text) != ""
  {
    StripNonBlank(text);
  }

  /** A retry that finds only whitespace is reported as the empty string, not as the
      no-text message: only a retry that returns nothing at all gets that. */
  lemma ReportedBlank(text: string)
    requires !NonBlank(text)
    ensures Reported(text) == (if text == "" then "No text detected in the image." else "")
  {
    StripNonBlank(text);
  }

  /** The route's test for a Tesseract-specific error. */
  predicate MentionsOcr(message: string)
  {
    Contains(Lower(message), "tesseract") || Contains(Lower(message), "ocr")
  }

  /** A message whose fixed prefix spells OCR at index i mentions it. */
  lemma MentionsIn(prefix: string, rest: string, i: nat)
    requires i + 3 <= |prefix| && prefix[i] == 'O' && prefix[i + 1] == 'C' && prefix[i + 2] == 'R'
    ensures MentionsOcr(prefix + rest)
  {
    var l := Lower(prefix + rest);
    assert l[i] == 'o' && l[i + 1] == 'c' && l[i + 2] == 'r';
    assert OccursAt(l, "ocr", i);
  }

  function Instructions(info: DownloadInfo): string
  {
    Join("; ", info.instructions)
  }

  function NotInstalledMessage(info: DownloadInfo): (r: string)
    ensures MentionsOcr(r)
  {
    var prefix := "Tesseract OCR " + "is not installed. Please install it:\nInstructions: ";
    MentionsIn(prefix, Instructions(info), 10);
    prefix + Instructions(info)
  }

  function NotReadyMessage(info: DownloadInfo): (r: string)
    ensures MentionsOcr(r)
  {
    var prefix := "Tesseract OCR " + "executable not found. Please install Tesseract OCR:\nDownload from: ";
    var rest := info.url.GetOr("Official Tesseract repository") + "\nInstructions: " + Instructions(info);
    MentionsIn(prefix, rest, 10);
    prefix + rest
  }

  function NotOnPathMessage(info: DownloadInfo): (r: string)
    ensures MentionsOcr(r)
  {
    var prefix := "Tesseract executable not found in system PATH. Please:\n1. Install Tesseract OCR: ";
    var rest := info.url.GetOr("") + "\n2. Add it to your system PATH\n3. Restart the application";
    MentionsIn(prefix, rest, 76);
    prefix + rest
  }

  /** The exception ocr_from_image raises for a failure inside its try block. */
  function OcrFailure(info: DownloadInfo, e: OcrError): (r: Exc)
    ensures MentionsOcr(Str(r))
  {
    match e
    case NotFound => Raised(NotOnPathMessage(info))
    case TesseractError(m) =>
      MentionsIn("Tesseract OCR processing error: ", m, 10);
      Wrapped("Tesseract OCR processing error: ", External(m))
    case Crashed(m) =>
      MentionsIn("Error performing OCR: ", m, 17);
      Wrapped("Error performing OCR: ", External(m))
  }

  const UNREADABLE_IMAGE := "Could not read image file. Supported formats: PNG, JPG, JPEG, TIFF, BMP"

  /** cv2.imread returning None, raised inside the try block and so re-raised by its
      generic handler. */
  function UnreadableImage(): (r: Exc)
    ensures MentionsOcr(Str(r))
  {
    MentionsIn("Error performing OCR: ", UNREADABLE_IMAGE, 17);
    Wrapped("Error performing OCR: ", Raised(UNREADABLE_IMAGE))
  }

  /** The try block of ocr_from_image, on the image imread gave. */
  function OcrRead(ocr: Ocr, info: DownloadInfo, img: Option<Bytes>): (r: Result<string, Exc>)
    ensures r.Success? <==> img.Some? && Recognized(ocr, img.value).Success?
    ensures r.Success? ==> r.value == Reported(Recognized(ocr, img.value).value)
    ensures r.Failure? ==> MentionsOcr(Str(r.error))
  {
    if img.None? then Failure(UnreadableImage())
    else
      match Recognized(ocr, img.value)
      case Failure(e) => Failure(OcrFailure(info, e))
      case Success(text) => Success(Reported(text))
  }

  /** What ocr_from_image answers once it knows whether pytesseract imports and whether
      Tesseract was found.  Every error it raises mentions OCR, whatever failed. */
  function OcrAnswer(ocr: Ocr, info: DownloadInfo, ready: bool, img: Option<Bytes>): (r: Result<string, Exc>)
    ensures !ocr.available ==> r == Failure(Raised(NotInstalledMessage(info)))
    ensures ocr.available && !ready ==> r == Failure(Raised(NotReadyMessage(info)))
    ensures r.Success? <==> ocr.available && ready && img.Some? && Recognized(ocr, img.value).Success?
    ensures r.Success? ==> r.value == Reported(Recognized(ocr, img.value).value)
    ensures r.Failure? ==> MentionsOcr(Str(r.error))
  {
    if !ocr.available then Failure(Raised(NotInstalledMessage(info)))
    else if !ready then Failure(Raised(NotReadyMessage(info)))
    else OcrRead(ocr, info, img)
  }

  /** ocr_from_image: the availability check, setup_tesseract_path, then the OCR itself. */
  method OcrFromImage(ocr: Ocr, host: Host, fs: Fs, image: Path) returns (r: Result<string, Exc>)
    ensures r == OcrAnswer(ocr, GetTesseractDownloadInfo(host.system), Installed(host, fs), Loaded(ocr, fs, image))
  {
    var info := GetTesseractDownloadInfo(host.system);
    if !ocr.available {
      return Failure(Raised(NotInstalledMessage(info)));
    }
    var ready, _ := SetupTesseractPath(ocr.available, host, fs);
    if !ready {
      return Failure(Raised(NotReadyMessage(info)));
    }
    r := OcrRead(ocr, info, Loaded(ocr, fs, image));
  }

  // ---------------------------------------------------------------- writers

  /** The libraries the backend uses besides the PyPDF2 reader and writer. */
  datatype Toolkit = Toolkit(
    pdf: Libraries,
    encrypt: (seq<Page>, string) -> Bytes,        // writer.encrypt(password); writer.write
    docxParagraphs: Bytes -> Option<seq<string>>, // python-docx Document(path).paragraphs
    docxToPdf: Bytes -> Option<Bytes>,            // docx2pdf.convert
    stamp: (Page, Page) -> Page,                  // page.merge_page(watermark_page)
    pike: Option<(Bytes, string) -> PikeResult>,  // pikepdf.Pdf.open(path, password); None: not importable
    isEncrypted: Bytes -> bool,                   // PdfReader.is_encrypted
    decrypts: (Bytes, string) -> bool)            // PdfReader.decrypt(password) is truthy

  /** What opening with pikepdf and saving without a password gives. */
  datatype PikeResult = Opened(plain: Bytes) | PasswordError | PdfError(message: string) | OtherError(message: string)

  /** `for x in xs: acc.append(x)` (the writers' `add_page` loops and the paragraph loop):
      the items arrive in order after those already there. */
  method Extend<T>(acc: seq<T>, xs: seq<T>) returns (r: seq<T>)
    ensures r == acc + xs
  {
    r := acc;
    var i := 0;
    while i < |xs|
      invariant 0 <= i <= |xs|
      invariant r == acc + xs[..i]
    {
      assert xs[..i + 1] == xs[..i] + [xs[i]];
      r := r + [xs[i]];
      i := i + 1;
    }
    assert xs[..i] == xs;
  }

  /** The text extract_text() returns for each page, in page order. */
  function PageTexts(pages: seq<Page>): (r: seq<string>)
    ensures |r| == |pages|
    ensures forall i :: 0 <= i < |r| ==> r[i] == pages[i].text
  {
    seq(|pages|, i requires 0 <= i < |pages| => pages[i].text)
  }

  /** extract_text_from_pdf: one string per page. */
  method ExtractTextFromPdf(fs: Fs, lib: Libraries, input: Path) returns (r: Result<seq<string>, Exc>)
    ensures r.Success? <==> ReadPdf(fs, lib, input).Success?
    ensures r.Success? ==> r.value == PageTexts(ReadPdf(fs, lib, input).value)
    ensures r.Failure? ==> r == Failure(Wrapped("Error extracting text from PDF: ", ReadPdf(fs, lib, input).error))
  {
    var doc := ReadPdf(fs, lib, input);
    if doc.Failure? {
      return Failure(Wrapped("Error extracting text from PDF: ", doc.error));
    }
    var pages := doc.value;
    var texts: seq<string> := [];
    var i := 0;
    while i < |pages|
      invariant 0 <= i <= |pages|
      invariant texts == PageTexts(pages[..i])
    {
      texts := texts + [pages[i].text];
      i := i + 1;
    }
    assert pages[..i] == pages;
    r := Success(texts);
  }

  /** encrypt_pdf: every page of the input, in order, written encrypted with the password. */
  method EncryptPdf(fs: Fs, tk: Toolkit, input: Path, output: Path, password: string)
    returns (r: Result<Path, Exc>, fs': Fs)
    ensures r.Success? <==> ReadPdf(fs, tk.pdf, input).Success? && Writable(fs, output)
    ensures r.Success? ==> (r.value == output &&
      fs' == fs.(files := fs.files[output := File(tk.encrypt(ReadPdf(fs, tk.pdf, input).value, password), fs.clock)]))
    ensures r.Failure? ==> fs' == fs && r.error.Wrapped? && r.error.prefix == "Error encrypting PDF: "
  {
    fs' := fs;
    var doc := ReadPdf(fs, tk.pdf, input);
    if doc.Failure? {
      return Failure(Wrapped("Error encrypting PDF: ", doc.error)), fs;
    }
    var writer := Extend([], doc.value);
    assert writer == doc.value;
    match Write(fs, output, tk.encrypt(writer, password))
    case Failure(e) =>
      r := Failure(Wrapped("Error encrypting PDF: ", e));
    case Success(next) =>
      r, fs' := Success(output), next;
  }

  /** extract_text_from_docx: the text of every paragraph, in document order. */
  method ExtractTextFromDocx(fs: Fs, tk: Toolkit, input: Path) returns (r: Result<seq<string>, Exc>)
    ensures r.Success? <==> input in fs.files && tk.docxParagraphs(fs.files[input].data).Some?
    ensures r.Success? ==> r.value == tk.docxParagraphs(fs.files[input].data).value
    ensures r.Failure? ==> r.error.Wrapped? && r.error.prefix == "Error extracting text from DOCX: "
  {
    match Read(fs, input)
    case Failure(e) =>
      return Failure(Wrapped("Error extracting text from DOCX: ", e));
    case Success(data) =>
      match tk.docxParagraphs(data)
      case None =>
        return Failure(Wrapped("Error extracting text from DOCX: ", External("Package not found at '" + input + "'")));
      case Some(paras) =>
        var texts := Extend([], paras);
        assert texts == paras;
        return Success(texts);
  }

  /** convert_docx_to_pdf: docx2pdf writes the converted document to the output path. */
  function ConvertDocxToPdf(fs: Fs, tk: Toolkit, input: Path, output: Path): (r: Result<Fs, Exc>)
    ensures r.Success? <==> input in fs.files && tk.docxToPdf(fs.files[input].data).Some? && Writable(fs, output)
    ensures r.Success? ==>
      r.value == fs.(files := fs.files[output := File(tk.docxToPdf(fs.files[input].data).value, fs.clock)])
    ensures r.Failure? ==> r.error.Wrapped? && r.error.prefix == "Error converting DOCX to PDF: "
  {
    var wrap := (e: Exc) => Wrapped("Error converting DOCX to PDF: ", e);
    match Read(fs, input)
    case Failure(e) => Failure(wrap(e))
    case Success(data) =>
      match tk.docxToPdf(data)
      case None => Failure(wrap(External("docx2pdf conversion failed")))
      case Some(pdf) =>
        match Write(fs, output, pdf)
        case Failure(e) => Failure(wrap(e))
        case Success(next) => Success(next)
  }

  /** merge_pdfs: every input's pages in input order, written to the output.  Unlike
      the app's service it leaves the inputs in place; the route removes them. */
  method MergePdfs(fs: Fs, lib: Libraries, inputs: seq<Path>, output: Path) returns (r: Result<Path, Exc>, fs': Fs)
    ensures r.Success? <==> PdfService.MergedPages(fs, lib, inputs).Some? && Writable(fs, output)
    ensures r.Success? ==> (r.value == output &&
      fs' == fs.(files := fs.files[output := File(lib.renderPdf(PdfService.MergedPages(fs, lib, inputs).value), fs.clock)]))
    ensures r.Failure? ==> fs' == fs && r.error.Wrapped? && r.error.prefix == "Error merging PDFs: "
  {
    fs' := fs;
    var writer: seq<Page> := [];
    var i := 0;
    while i < |inputs|
      invariant 0 <= i <= |inputs|
      invariant PdfService.MergedPages(fs, lib, inputs[..i]) == Some(writer)
    {
      var doc := ReadPdf(fs, lib, inputs[i]);
      assert inputs[..i + 1][..i] == inputs[..i];
      if doc.Failure? {
        PdfService.MergedPagesAppend(fs, lib, inputs[..i + 1], inputs[i + 1..]);
        assert inputs[..i + 1] + inputs[i + 1..] == inputs;
        return Failure(Wrapped("Error merging PDFs: ", doc.error)), fs;
      }
      writer := Extend(writer, doc.value);
      i := i + 1;
    }
    assert inputs[..i] == inputs;
    match Write(fs, output, lib.renderPdf(writer))
    case Failure(e) =>
      r := Failure(Wrapped("Error merging PDFs: ", e));
    case Success(next) =>
      r, fs' := Success(output), next;
  }

  // ---------------------------------------------------------------- split

  function Min(a: int, b: int): int
  {
    if a <= b then a else b
  }

  /** `reader.pages[k]` with Python's indexing: a negative index counts from the end. */
  function PyIndex(n: nat, k: int): int
  {
    if k < 0 then k + n else k
  }

  /** The pages of `range(start - 1, min(end, len(reader.pages)))`; None stands for the
      IndexError of an index below -len. */
  function RangePages(doc: seq<Page>, start: int, end: int): Option<seq<Page>>
  {
    var lo, hi := start - 1, Min(end, |doc|);
    if hi <= lo then Some([])
    else if lo < -|doc| then None
    else Some(seq(hi - lo, j requires 0 <= j < hi - lo => doc[PyIndex(|doc|, lo + j)]))
  }

  /** A range starting at page 1 or later is the slice of the document it names, cut at
      the last page, and empty when it starts past its end. */
  lemma RangeOfPositive(doc: seq<Page>, start: int, end: int)
    requires start >= 1
    ensures RangePages(doc, start, end) ==
      Some(if start - 1 < Min(end, |doc|) then doc[start - 1..Min(end, |doc|)] else [])
  {
    var lo, hi := start - 1, Min(end, |doc|);
    if lo < hi {
      var r := RangePages(doc, start, end).value;
      forall j | 0 <= j < hi - lo
        ensures r[j] == doc[lo..hi][j]
      {
        assert PyIndex(|doc|, lo + j) == lo + j;
      }
      assert r == doc[lo..hi];
    }
  }

  /** A range starting at 0 begins with the last page: index -1 wraps around. */
  lemma RangeFromZero(doc: seq<Page>, end: int)
    requires doc != [] && end >= 1
    ensures RangePages(doc, 0, end).Some? && RangePages(doc, 0, end).value[0] == doc[|doc| - 1]
  {
    assert PyIndex(|doc|, -1 + 0) == |doc| - 1;
  }

  /** The inner `add_page` loop over one range. */
  method RangeWriter(doc: seq<Page>, start: int, end: int) returns (r: Option<seq<Page>>)
    ensures r == RangePages(doc, start, end)
  {
    var lo, hi := start - 1, Min(end, |doc|);
    var w: seq<Page> := [];
    var k := lo;
    while k < hi
      invariant lo <= k
      invariant k == lo || (k <= hi && lo >= -|doc|)
      invariant |w| == k - lo
      invariant forall j :: 0 <= j < k - lo ==> w[j] == doc[PyIndex(|doc|, lo + j)]
    {
      if k < -|doc| {
        return None;
      }
      w := w + [doc[PyIndex(|doc|, k)]];
      k := k + 1;
    }
    if lo < hi {
      assert w == seq(hi - lo, j requires 0 <= j < hi - lo => doc[PyIndex(|doc|, lo + j)]);
    }
    r := Some(w);
  }

  /** How many files split_pdf writes: one per range, or one per page without ranges. */
  function PartCount(doc: seq<Page>, ranges: seq<(int, int)>): nat
  {
    if ranges != [] then |ranges| else |doc|
  }

  /** The files split_pdf writes, in order: split_{i+1}.pdf for range i, or
      page_{k+1}.pdf for page k. */
  function PartPaths(dir: Path, doc: seq<Page>, ranges: seq<(int, int)>): (r: seq<Path>)
    ensures |r| == PartCount(doc, ranges)
  {
    if ranges != [] then seq(|ranges|, i requires 0 <= i < |ranges| => PathJoin(dir, "split_" + NatToString(i + 1) + ".pdf"))
    else seq(|doc|, k => PdfService.PagePath(dir, k + 1))
  }

  /** Without ranges, the k-th path is page_{k}.pdf. */
  lemma PagePathAt(dir: Path, doc: seq<Page>, k: int)
    requires 1 <= k <= |doc|
    ensures PartPaths(dir, doc, [])[k - 1] == PdfService.PagePath(dir, k)
  {
  }

  /** The pages of part i: range i, or page i alone. */
  function Part(doc: seq<Page>, ranges: seq<(int, int)>, i: nat): Option<seq<Page>>
    requires i < PartCount(doc, ranges)
  {
    if ranges != [] then RangePages(doc, ranges[i].0, ranges[i].1) else Some([doc[i]])
  }

  /** The bytes of part i, once its pages are known. */
  lemma PartContentsAt(lib: Libraries, doc: seq<Page>, ranges: seq<(int, int)>, i: nat)
    requires i < PartCount(doc, ranges) && Part(doc, ranges, i).Some?
    ensures PartContents(lib, doc, ranges)[i] == lib.renderPdf(Part(doc, ranges, i).value)
  {
    var c := PartContents(lib, doc, ranges);
    assert c[i] == lib.renderPdf(Part(doc, ranges, i).GetOr([]));
  }

  predicate PartsOk(doc: seq<Page>, ranges: seq<(int, int)>)
  {
    forall i :: 0 <= i < PartCount(doc, ranges) ==> Part(doc, ranges, i).Some?
  }

  function PartContents(lib: Libraries, doc: seq<Page>, ranges: seq<(int, int)>): (r: seq<Bytes>)
    ensures |r| == PartCount(doc, ranges)
  {
    seq(PartCount(doc, ranges), i requires 0 <= i < PartCount(doc, ranges) => lib.renderPdf(Part(doc, ranges, i).GetOr([])))
  }

  /** One part's writer: the range's `add_page` loop, or `writer.add_page(page)`. */
  method PartWriter(doc: seq<Page>, ranges: seq<(int, int)>, i: nat) returns (w: Option<seq<Page>>)
    requires i < PartCount(doc, ranges)
    ensures w == Part(doc, ranges, i)
  {
    if ranges != [] {
      w := RangeWriter(doc, ranges[i].0, ranges[i].1);
    } else {
      w := Some([doc[i]]);
    }
  }

  /** One turn of the loop of split_pdf: build part i's writer, then write it. */
  method WritePart(fs: Fs, now: Fs, lib: Libraries, doc: seq<Page>, ranges: seq<(int, int)>,
                   paths: seq<Path>, contents: seq<Bytes>, i: nat)
    returns (err: Option<Exc>, next: Fs)
    requires |paths| == |contents| == PartCount(doc, ranges) && i < |paths|
    requires Part(doc, ranges, i).Some? ==> contents[i] == lib.renderPdf(Part(doc, ranges, i).value)
    requires now == Written(fs, paths[..i], contents[..i])
    ensures err.None? <==> Part(doc, ranges, i).Some? && Writable(fs, paths[i])
    ensures err.None? ==> next == Written(fs, paths[..i + 1], contents[..i + 1])
    ensures err.Some? ==> next == now
  {
    next := now;
    var writer := PartWriter(doc, ranges, i);
    if writer.None? {
      err := Some(External("sequence index out of range"));
      return;
    }
    WriteByDirs(fs, now, paths[i], contents[i]);
    match Write(now, paths[i], lib.renderPdf(writer.value))
    case Failure(e) =>
      err := Some(e);
    case Success(written) =>
      WrittenStep(fs, paths, contents, i);
      err, next := None, written;
  }

  /** The loop of split_pdf over the parts of a document that has been read, given the
      paths and the bytes of the parts: it writes the parts one after the other and
      stops at the first range that raises or file that cannot be written, leaving the
      parts already written: the disk is the one the writes of outputFiles leave. */
  method WriteParts(fs: Fs, lib: Libraries, doc: seq<Page>, ranges: seq<(int, int)>,
                    paths: seq<Path>, contents: seq<Bytes>)
    returns (err: Option<Exc>, outputFiles: seq<Path>, fs': Fs)
    requires |paths| == |contents| == PartCount(doc, ranges)
    requires forall i :: 0 <= i < |contents| && Part(doc, ranges, i).Some? ==>
      contents[i] == lib.renderPdf(Part(doc, ranges, i).value)
    ensures fs'.dirs == fs.dirs && fs'.clock == fs.clock
    ensures err.None? <==> PartsOk(doc, ranges) && AllWritable(fs, paths)
    ensures err.None? ==> outputFiles == paths && fs' == Written(fs, paths, contents)
    ensures |outputFiles| <= |paths| && fs' == Written(fs, paths[..|outputFiles|], contents[..|outputFiles|])
  {
    fs' := fs;
    err := None;
    outputFiles := [];
    var i := 0;
    while i < |paths|
      invariant 0 <= i <= |paths|
      invariant outputFiles == paths[..i] && err.None?
      invariant fs' == Written(fs, paths[..i], contents[..i])
      invariant fs'.dirs == fs.dirs && fs'.clock == fs.clock
      invariant AllWritable(fs, paths[..i])
      invariant forall j :: 0 <= j < i ==> Part(doc, ranges, j).Some?
    {
      var next;
      err, next := WritePart(fs, fs', lib, doc, ranges, paths, contents, i);
      AllWritableStep(fs, paths, i);
      if err.Some? {
        assert Part(doc, ranges, i).None? ==> !PartsOk(doc, ranges);
        return;
      }
      fs' := next;
      PathsStep(paths, i);
      outputFiles := outputFiles + [paths[i]];
      i := i + 1;
    }
    assert paths[..i] == paths && contents[..i] == contents;
  }

  /** split_pdf: the paths of the parts written, in order. */
  method SplitPdf(fs: Fs, lib: Libraries, input: Path, outputDir: Path, ranges: seq<(int, int)>)
    returns (r: Result<seq<Path>, Exc>, fs': Fs)
    ensures fs'.dirs == fs.dirs && fs'.clock == fs.clock
    ensures r.Success? <==> ReadPdf(fs, lib, input).Success? && PartsOk(ReadPdf(fs, lib, input).value, ranges) &&
                            AllWritable(fs, PartPaths(outputDir, ReadPdf(fs, lib, input).value, ranges))
    ensures r.Success? ==>
      var doc := ReadPdf(fs, lib, input).value;
      r.value == PartPaths(outputDir, doc, ranges) &&
      fs' == Written(fs, PartPaths(outputDir, doc, ranges), PartContents(lib, doc, ranges))
    ensures r.Failure? ==> r.error.Wrapped? && r.error.prefix == "Error splitting PDF: "
    ensures ReadPdf(fs, lib, input).Failure? ==> fs' == fs
    ensures ReadPdf(fs, lib, input).Success? ==>
      WroteOnly(fs.files, fs'.files, PartPaths(outputDir, ReadPdf(fs, lib, input).value, ranges))
  {
    var read := ReadPdf(fs, lib, input);
    if read.Failure? {
      return Failure(Wrapped("Error splitting PDF: ", read.error)), fs;
    }
    var doc := read.value;
    forall i | 0 <= i < PartCount(doc, ranges) && Part(doc, ranges, i).Some?
      ensures PartContents(lib, doc, ranges)[i] == lib.renderPdf(Part(doc, ranges, i).value)
    {
      PartContentsAt(lib, doc, ranges, i);
    }
    var err, outputFiles;
    err, outputFiles, fs' := WriteParts(fs, lib, doc, ranges, PartPaths(outputDir, doc, ranges), PartContents(lib, doc, ranges));
    WrittenOnly(fs, PartPaths(outputDir, doc, ranges), PartContents(lib, doc, ranges), |outputFiles|);
    r := if err.Some? then Failure(Wrapped("Error splitting PDF: ", err.value)) else Success(outputFiles);
  }

  /** Without ranges, page_{k}.pdf holds page k alone, for every page k of the input. */
  lemma SplitPageFile(lib: Libraries, dir: Path, doc: seq<Page>, clock: int, k: nat)
    requires dir != [] && dir[|dir| - 1] != '/'
    requires 1 <= k <= |doc|
    ensures PdfService.PagePath(dir, k) in WrittenFiles(PartPaths(dir, doc, []), PartContents(lib, doc, []), clock)
    ensures WrittenFiles(PartPaths(dir, doc, []), PartContents(lib, doc, []), clock)[PdfService.PagePath(dir, k)]
         == File(lib.renderPdf([doc[k - 1]]), clock)
  {
    var paths := PartPaths(dir, doc, []);
    forall a, b | 0 <= a < b < |paths|
      ensures paths[a] != paths[b]
    {
      if paths[a] == paths[b] {
        PdfService.PagePathInjective(dir, a + 1, b + 1);
      }
    }
    assert paths[k - 1] == PdfService.PagePath(dir, k);
    PartContentsAt(lib, doc, [], k - 1);
    WrittenFilesLookup(paths, PartContents(lib, doc, []), clock, k - 1);
  }

  // ---------------------------------------------------------------- compress

  /** The try block of compress_pdf: every page compressed, in order, written to the
      output; an empty input then raises ZeroDivisionError computing the ratio, after the
      write. */
  method CompressAttempt(fs: Fs, lib: Libraries, input: Path, output: Path) returns (err: Option<Exc>, fs': Fs)
    ensures err.None? <==> ReadPdf(fs, lib, input).Success? && Writable(fs, output) && |fs.files[input].data| > 0
    ensures ReadPdf(fs, lib, input).Success? && Writable(fs, output) ==>
      fs' == fs.(files := fs.files[output := File(lib.renderPdf(CompressedPages(ReadPdf(fs, lib, input).value)), fs.clock)])
    ensures !(ReadPdf(fs, lib, input).Success? && Writable(fs, output)) ==> fs' == fs
  {
    fs' := fs;
    var doc := ReadPdf(fs, lib, input);
    if doc.Failure? {
      return Some(doc.error), fs;
    }
    var originalSize := Size(fs, input).value;
    var writer := PdfService.CompressEach(doc.value);
    match Write(fs, output, lib.renderPdf(writer))
    case Failure(e) =>
      err := Some(e);
    case Success(next) =>
      fs' := next;
      err := if originalSize > 0 then None else Some(External("division by zero"));
  }

  /** compress_pdf: the compressed copy, or, when anything in it raises, the input copied
      to the output with shutil.copy2; it fails only when that copy fails too. */
  method CompressPdf(fs: Fs, lib: Libraries, input: Path, output: Path) returns (r: Result<Path, Exc>, fs': Fs)
    ensures ReadPdf(fs, lib, input).Success? && Writable(fs, output) && |fs.files[input].data| > 0 ==>
      r == Success(output) &&
      fs' == fs.(files := fs.files[output := File(lib.renderPdf(CompressedPages(ReadPdf(fs, lib, input).value)), fs.clock)])
    ensures input in fs.files && input != output && Writable(fs, output) ==> r == Success(output) && output in fs'.files
    ensures input in fs.files && input != output && Writable(fs, output) &&
            !(ReadPdf(fs, lib, input).Success? && |fs.files[input].data| > 0) ==>
      fs'.files[output].data == fs.files[input].data
    ensures input !in fs.files ==> r.Failure? && fs' == fs
    ensures r.Success? ==> r.value == output
    ensures r.Failure? ==> r.error.Raised? && StartsWith(r.error.message, "Error compressing PDF: ")
    ensures fs'.dirs == fs.dirs && fs'.clock == fs.clock
    ensures output !in fs.dirs ==> WroteOnly(fs.files, fs'.files, [output])
    ensures input in fs.files && input != output ==> input in fs'.files && fs'.files[input] == fs.files[input]
    ensures r.Success? ==> Exists(fs', output)
  {
    var err, base := CompressAttempt(fs, lib, input, output);
    if err.None? {
      return Success(output), base;
    }
    match Copy(base, input, output)
    case Success(copied) =>
      r, fs' := Success(output), copied;
    case Failure(ce) =>
      var prefix := "Error compressing PDF: ";
      var m := prefix + (Str(err.value) + ". Copy fallback also failed: " + Str(ce));
      assert m[..|prefix|] == prefix;
      r, fs' := Failure(Raised(m)), base;
  }

  // ---------------------------------------------------------------- unlock

  /** The message every wrong-password path of unlock_pdf ends in. */
  const INVALID_PASSWORD := "Invalid password provided for PDF unlock"

  /** The PyPDF2 fallback of unlock_pdf: decrypt when encrypted, copy every page in
      order into a writer without encryption, and write it. */
  function UnlockFallback(fs: Fs, tk: Toolkit, input: Path, output: Path, password: string): (r: Result<Fs, Exc>)
    ensures r.Success? ==> (ReadPdf(fs, tk.pdf, input).Success? && Writable(fs, output) &&
      r.value == fs.(files := fs.files[output := File(tk.pdf.renderPdf(ReadPdf(fs, tk.pdf, input).value), fs.clock)]))
    ensures r.Success? <==> ReadPdf(fs, tk.pdf, input).Success? && Writable(fs, output) &&
                            !(tk.isEncrypted(fs.files[input].data) && !tk.decrypts(fs.files[input].data, password))
    ensures r.Failure? ==> r.error.Raised?
  {
    var attempt: Result<Fs, Exc> :=
      match ReadPdf(fs, tk.pdf, input)
      case Failure(e) => Failure(e)
      case Success(pages) =>
        var data := fs.files[input].data;
        if tk.isEncrypted(data) && !tk.decrypts(data, password) then Failure(Raised(INVALID_PASSWORD))
        else Write(fs, output, tk.pdf.renderPdf(pages));
    match attempt
    case Success(next) => Success(next)
    case Failure(e) =>
      if Contains(Str(e), "Invalid password") then Failure(Raised(INVALID_PASSWORD))
      else Failure(Raised("Error unlocking PDF: " + Str(e)
                          + ". Note: For best results, install pikepdf using: pip install pikepdf"))
  }

  /** unlock_pdf: pikepdf when it imports, falling back to PyPDF2 when pikepdf raises
      anything but a password or PDF error. */
  function UnlockPdf(fs: Fs, tk: Toolkit, input: Path, output: Path, password: string): (r: Result<Fs, Exc>)
    ensures tk.pike.None? ==> r == UnlockFallback(fs, tk, input, output, password)
    ensures tk.pike.Some? && input in fs.files && tk.pike.value(fs.files[input].data, password) == PasswordError ==>
      r == Failure(Raised(INVALID_PASSWORD))
    ensures r.Success? ==> r.value.dirs == fs.dirs && r.value.clock == fs.clock && output in r.value.files &&
                           r.value.files - {output} == fs.files - {output}
  {
    var fallback := UnlockFallback(fs, tk, input, output, password);
    if tk.pike.None? || input !in fs.files then fallback
    else
      match tk.pike.value(fs.files[input].data, password)
      case PasswordError => Failure(Raised(INVALID_PASSWORD))
      case PdfError(m) => Failure(Wrapped("PDF processing error: ", External(m)))
      case OtherError(_) => fallback
      case Opened(plain) =>
        match Write(fs, output, plain)
        case Success(next) => Success(next)
        case Failure(_) => fallback
  }

  /** The fallback's loops on their own: the writer receives every page in order. */
  method UnlockFallbackPages(fs: Fs, tk: Toolkit, input: Path, output: Path, password: string)
    returns (r: Result<Fs, Exc>)
    ensures r == UnlockFallback(fs, tk, input, output, password)
  {
    var attempt: Result<Fs, Exc>;
    var read := ReadPdf(fs, tk.pdf, input);
    if read.Failure? {
      attempt := Failure(read.error);
    } else {
      var data := fs.files[input].data;
      if tk.isEncrypted(data) && !tk.decrypts(data, password) {
        attempt := Failure(Raised(INVALID_PASSWORD));
      } else {
        var writer := Extend([], read.value);
        assert writer == read.value;
        attempt := Write(fs, output, tk.pdf.renderPdf(writer));
      }
    }
    match attempt
    case Success(next) =>
      r := Success(next);
    case Failure(e) =>
      if Contains(Str(e), "Invalid password") {
        r := Failure(Raised(INVALID_PASSWORD));
      } else {
        r := Failure(Raised("Error unlocking PDF: " + Str(e)
                            + ". Note: For best results, install pikepdf using: pip install pikepdf"));
      }
  }

  /** The libraries agree on encryption: a file encrypted with a password reads back as
      its pages, reports itself encrypted, and opens with that password, under pikepdf
      as a file that reads back as the same pages. */
  ghost predicate Sealing(tk: Toolkit)
  {
    forall pages, password {:trigger tk.encrypt(pages, password)} ::
      tk.pdf.parsePdf(tk.encrypt(pages, password)) == Some(pages) &&
      tk.isEncrypted(tk.encrypt(pages, password)) &&
      tk.decrypts(tk.encrypt(pages, password), password) &&
      (tk.pike.Some? ==> tk.pike.value(tk.encrypt(pages, password), password).Opened? &&
                         tk.pdf.parsePdf(tk.pike.value(tk.encrypt(pages, password), password).plain) == Some(pages))
  }

  /** Unlocking a file encrypted with the same password gives back its pages. */
  lemma EncryptThenUnlock(fs: Fs, tk: Toolkit, pages: seq<Page>, locked: Path, output: Path, password: string)
    requires Sealing(tk) && Faithful(tk.pdf)
    requires Writable(fs, locked) && Writable(fs, output)
    ensures var fs1 := fs.(files := fs.files[locked := File(tk.encrypt(pages, password), fs.clock)]);
      UnlockPdf(fs1, tk, locked, output, password).Success? &&
      ReadPdf(UnlockPdf(fs1, tk, locked, output, password).value, tk.pdf, output) == Success(pages)
  {
    var data := tk.encrypt(pages, password);
    assert tk.pdf.parsePdf(data) == Some(pages) && tk.isEncrypted(data) && tk.decrypts(data, password);
    var fs1 := fs.(files := fs.files[locked := File(data, fs.clock)]);
    assert ReadPdf(fs1, tk.pdf, locked) == Success(pages);
    assert Writable(fs1, output);
    ReadWritten(fs1, tk.pdf, output, pages);
    if tk.pike.Some? {
      var res := tk.pike.value(data, password);
      assert res.Opened? && tk.pdf.parsePdf(res.plain) == Some(pages);
    }
  }

  /** With the PyPDF2 fallback, an encrypted file and a password it does not open fails
      with the invalid-password message. */
  lemma WrongPasswordRejected(fs: Fs, tk: Toolkit, input: Path, output: Path, password: string)
    requires tk.pike.None? && ReadPdf(fs, tk.pdf, input).Success?
    requires tk.isEncrypted(fs.files[input].data) && !tk.decrypts(fs.files[input].data, password)
    ensures UnlockPdf(fs, tk, input, output, password) == Failure(Raised(INVALID_PASSWORD))
  {
    assert Contains(INVALID_PASSWORD, "Invalid password") by {
      assert OccursAt(INVALID_PASSWORD, "Invalid password", 0);
    }
  }

  // ---------------------------------------------------------------- watermark

  /** Every template page merged with the watermark page, in order. */
  function Stamped(tk: Toolkit, pages: seq<Page>, mark: Page): (r: seq<Page>)
    ensures |r| == |pages|
    ensures forall i :: 0 <= i < |r| ==> r[i] == tk.stamp(pages[i], mark)
  {
    seq(|pages|, i requires 0 <= i < |pages| => tk.stamp(pages[i], mark))
  }

  /** watermark_pdf: the first watermark page merged onto every template page; a
      watermark without pages is refused. */
  method WatermarkPdf(fs: Fs, tk: Toolkit, template: Path, watermark: Path, output: Path)
    returns (r: Result<Path, Exc>, fs': Fs)
    ensures r.Success? <==> ReadPdf(fs, tk.pdf, template).Success? && ReadPdf(fs, tk.pdf, watermark).Success? &&
                            |ReadPdf(fs, tk.pdf, watermark).value| > 0 && Writable(fs, output)
    ensures ReadPdf(fs, tk.pdf, template).Success? && ReadPdf(fs, tk.pdf, watermark) == Success([]) ==>
      r == Failure(Wrapped("Error adding watermark to PDF: ", Raised("Watermark PDF has no pages")))
    ensures r.Success? ==> (r.value == output &&
      var stamped := Stamped(tk, ReadPdf(fs, tk.pdf, template).value, ReadPdf(fs, tk.pdf, watermark).value[0]);
      fs' == fs.(files := fs.files[output := File(tk.pdf.renderPdf(stamped), fs.clock)]) &&
      (Faithful(tk.pdf) ==> ReadPdf(fs', tk.pdf, output) == Success(stamped)))
    ensures r.Failure? ==> fs' == fs && r.error.Wrapped? && r.error.prefix == "Error adding watermark to PDF: "
  {
    fs' := fs;
    var tpl := ReadPdf(fs, tk.pdf, template);
    if tpl.Failure? {
      return Failure(Wrapped("Error adding watermark to PDF: ", tpl.error)), fs;
    }
    var wm := ReadPdf(fs, tk.pdf, watermark);
    if wm.Failure? {
      return Failure(Wrapped("Error adding watermark to PDF: ", wm.error)), fs;
    }
    if |wm.value| == 0 {
      return Failure(Wrapped("Error adding watermark to PDF: ", Raised("Watermark PDF has no pages"))), fs;
    }
    var mark := wm.value[0];
    var pages := tpl.value;
    var out: seq<Page> := [];
    var i := 0;
    while i < |pages|
      invariant 0 <= i <= |pages|
      invariant out == Stamped(tk, pages[..i], mark)
    {
      out := out + [tk.stamp(pages[i], mark)];
      i := i + 1;
    }
    assert pages[..i] == pages;
    match Write(fs, output, tk.pdf.renderPdf(out))
    case Failure(e) =>
      r := Failure(Wrapped("Error adding watermark to PDF: ", e));
    case Success(next) =>
      if Faithful(tk.pdf) {
        ReadWritten(fs, tk.pdf, output, out);
      }
      r, fs' := Success(output), next;
  }
}
