// The backend's PDF router (backend/routes/pdf_routes.py, prefix /api/pdf).  Every
// route checks the upload's name before anything is saved, saves the upload under
// uploads/ with a fresh id, runs one helper of PdfUtils, removes the upload, and
// answers; when anything in between raises, the route removes whichever of its
// files exist and answers 500 with str(e).
module PdfRoutes {
  import opened Wrappers
  import opened Strings
  import opened Http
  import opened FileSystem
  import opened PdfDocs
  import opened PdfUtils
  import Uploads

  type UploadFile = Uploads.UploadFile

  /** The directory every upload and every output of this router lives in. */
  const UPLOAD_DIR: Path := "uploads"

  const PDF_MIME := "application/pdf"

  /** What Starlette answers when an exception escapes a route, as one raised inside an
      `except` clause does. */
  const SERVER_ERROR := Text("Internal Server Error")

  /** `os.path.join(UPLOAD_DIR, name)` */
  function UploadPath(name: string): (r: Path)
    ensures name != [] && name[0] != '/' ==> r == UPLOAD_DIR + "/" + name
  {
    PathJoin(UPLOAD_DIR, name)
  }

  /** Two names of different lengths never share a path under uploads/. */
  lemma UploadPathsApart(a: string, b: string)
    requires a != [] && a[0] != '/' && b != [] && b[0] != '/' && |a| != |b|
    ensures UploadPath(a) != UploadPath(b)
  {
  }

  /** The name an upload is saved under: `f"{file_id}_{file.filename}"`. */
  function Saved(id: string, filename: string): (r: string)
    requires Uploads.FreshId(id)
    ensures r != [] && r[0] != '/'
  {
    assert id[0] in id;
    id + "_" + filename
  }

  /** The disk with the files at the listed paths gone. */
  function Without(fs: Fs, paths: seq<Path>): (r: Fs)
    ensures r.dirs == fs.dirs && r.clock == fs.clock && Within(r.files, fs.files)
    ensures forall p :: p in paths ==> p !in r.files
  {
    fs.(files := fs.files - PathSet(paths))
  }

  /** A failed request: the directories are as they were, no file is new or changed, and
      none of the listed paths holds a file. */
  predicate LeftNothing(fs: Fs, fs': Fs, paths: seq<Path>)
  {
    fs'.dirs == fs.dirs && Within(fs'.files, fs.files) && forall p :: p in paths ==> p !in fs'.files
  }

  /** os.remove of one file is the clean-up of that one path. */
  lemma RemovedIsWithout(fs: Fs, p: Path)
    requires p in fs.files
    ensures Remove(fs, p).Success? && Remove(fs, p).value == Without(fs, [p])
  {
    assert PathSet([p]) == {p};
  }

  /** Writing a file and removing it again leaves only files that were there before. */
  lemma WrittenThenRemoved(fs: Fs, p: Path, data: Bytes)
    requires Writable(fs, p)
    ensures Within(Without(Write(fs, p, data).value, [p]).files, fs.files)
    ensures p !in Without(Write(fs, p, data).value, [p]).files
  {
    var after := Without(Write(fs, p, data).value, [p]);
    forall q | q in after.files
      ensures q in fs.files && after.files[q] == fs.files[q]
    {
      assert q != p;
    }
  }

  /** The `except` clause of a route: remove whichever of the paths exist, then raise
      the reply.  A removal that raises (the path is a directory) escapes the route. */
  method Abort<T>(fs: Fs, paths: seq<Path>, reply: Reply<T>) returns (r: Reply<T>, fs': Fs)
    ensures fs'.dirs == fs.dirs && fs'.clock == fs.clock && Within(fs'.files, fs.files)
    ensures (forall p :: p in paths ==> p !in fs.dirs) ==> r == reply && fs' == Without(fs, paths)
    ensures r == reply || r == Fail(500, SERVER_ERROR)
  {
    var err;
    err, fs' := RemoveEach(fs, paths);
    r := if err.None? then reply else Fail(500, SERVER_ERROR);
  }

  /** Abort after a loop that wrote `written` on `fs` and left `now`: once the written
      paths and the `others` are removed, nothing new is left. */
  method AbortWritten<T>(fs: Fs, now: Fs, written: seq<Path>, others: seq<Path>, reply: Reply<T>)
    returns (r: Reply<T>, fs': Fs)
    requires now.dirs == fs.dirs && WroteOnly(fs.files, now.files, written)
    ensures fs'.dirs == fs.dirs && (r == reply || r == Fail(500, SERVER_ERROR))
    ensures (forall p :: p in written + others ==> p !in fs.dirs) ==>
      r == reply && LeftNothing(fs, fs', others) && forall p :: p in written ==> p !in fs'.files
  {
    r, fs' := Abort(now, written + others, reply);
    if forall p :: p in written + others ==> p !in fs.dirs {
      assert forall p :: p in written ==> p in written + others;
      assert forall p :: p in others ==> p in written + others;
      CleanedUp(fs.files, now.files, fs'.files, written);
    }
  }

  /** Abort once the upload is saved at `input` and a helper wrote, besides, at most
      `output` (it may write elsewhere when `output` is a directory). */
  method AbortSaved<T>(fs: Fs, now: Fs, input: Path, output: Path, reply: Reply<T>) returns (r: Reply<T>, fs': Fs)
    requires now.dirs == fs.dirs
    requires output !in fs.dirs ==> WroteOnly(fs.files, now.files, [input, output])
    ensures fs'.dirs == fs.dirs && (r == reply || r == Fail(500, SERVER_ERROR))
    ensures input !in fs.dirs && output !in fs.dirs ==> r == reply && LeftNothing(fs, fs', [input, output])
  {
    if output !in fs.dirs {
      r, fs' := AbortWritten(fs, now, [input, output], [], reply);
    } else {
      r, fs' := Abort(now, [input, output], reply);
    }
  }

  /** The end of a route that serves a file: the helper ran on the disk holding the
      saved input and gave `attempt`; the input is removed and the output served, or,
      when either step raised, both are removed and the error is answered with 500. */
  method Serve(saved: Fs, input: Path, output: Path, attempt: Result<Fs, Exc>, name: string)
    returns (r: Reply<FileResponse>, fs': Fs)
    requires attempt.Success? ==> attempt.value.dirs == saved.dirs
    ensures r.Ok? <==> attempt.Success? && input in attempt.value.files
    ensures r.Ok? ==> r.body == FileResponse(output, PDF_MIME, name, []) &&
                      fs' == attempt.value.(files := attempt.value.files - {input})
    ensures attempt.Failure? && input !in saved.dirs && output !in saved.dirs ==>
      r == Reraise(attempt.error) && fs' == Without(saved, [input, output])
    ensures r.Fail? ==> r.status == 500 && fs'.dirs == saved.dirs
    ensures r.Fail? && input !in saved.dirs && output !in saved.dirs ==>
      input !in fs'.files && output !in fs'.files &&
      Within(fs'.files, if attempt.Success? then attempt.value.files else saved.files)
  {
    match attempt
    case Failure(e) =>
      r, fs' := Abort(saved, [input, output], Reraise(e));
    case Success(done) =>
      match Remove(done, input)
      case Failure(e) =>
        r, fs' := Abort(done, [input, output], Reraise(e));
      case Success(next) =>
        r, fs' := Ok(FileResponse(output, PDF_MIME, name, [])), next;
  }

  // ---------------------------------------------------------------- responses

  /** The `tesseract_ocr` member of the health answer. */
  datatype TesseractStatus = TesseractStatus(
    available: bool, installed: bool, path: Option<Path>, status: string,
    installationInstructions: Option<seq<string>>, downloadUrl: Option<string>)

  datatype Health = Health(pdfServices: string, tesseractOcr: TesseractStatus)

  /** The answer of extract-text. */
  datatype PageText = PageText(filename: string, totalPages: nat, textByPage: seq<string>, fullText: string)

  /** The answer of ocr-image. */
  datatype OcrText = OcrText(filename: string, extractedText: string, textLength: nat, hasContent: bool)

  /** The answer of extract-text-docx. */
  datatype ParagraphText = ParagraphText(filename: string, totalParagraphs: nat, paragraphs: seq<string>,
                                         fullText: string)

  /** A FileResponse: the file served, its media type, the download name and the extra
      headers. */
  datatype FileResponse = FileResponse(path: Path, mediaType: string, filename: string,
                                       headers: seq<(string, string)>)

  /** The answer of split. */
  datatype SplitSummary = SplitSummary(totalFiles: nat, files: seq<string>, message: string)

  /** The 503 detail of the OCR routes: the error, a message and how to install
      Tesseract on this system (`download_info.get("url", "")`). */
  function Unavailable(error: string, message: string, system: string): (r: Detail)
    ensures r.Help? && r.instructions == GetTesseractDownloadInfo(system).instructions && r.instructions != []
  {
    var info := GetTesseractDownloadInfo(system);
    Help(error, message, info.instructions, info.url.GetOr(""))
  }

  // ---------------------------------------------------------------- health

  /** GET /health: operational exactly when pytesseract imports and Tesseract is found;
      otherwise the installation instructions and download page are added. */
  method HealthCheck(available: bool, host: Host, fs: Fs) returns (h: Health)
    ensures h.pdfServices == "operational" && h.tesseractOcr.available == available
    ensures h.tesseractOcr.installed <==> Installed(host, fs)
    ensures h.tesseractOcr.path.Some? <==> Installed(host, fs)
    ensures Installed(host, fs) && host.onPath ==> h.tesseractOcr.path == Some("tesseract")
    ensures h.tesseractOcr.status == (if available && Installed(host, fs) then "operational" else "not_available")
    ensures h.tesseractOcr.installationInstructions.Some? <==> h.tesseractOcr.status != "operational"
    ensures h.tesseractOcr.downloadUrl.Some? <==> h.tesseractOcr.status != "operational"
    ensures h.tesseractOcr.installationInstructions.Some? ==>
      h.tesseractOcr.installationInstructions.value == GetTesseractDownloadInfo(host.system).instructions &&
      h.tesseractOcr.downloadUrl.value == GetTesseractDownloadInfo(host.system).url.GetOr("")
  {
    var installed, path := CheckTesseractInstallation(host, fs);
    var ready := available && installed;
    var status := TesseractStatus(available, installed, if installed then path else None,
                                  if ready then "operational" else "not_available", None, None);
    if !ready {
      var info := GetTesseractDownloadInfo(host.system);
      status := status.(installationInstructions := Some(info.instructions), downloadUrl := Some(info.url.GetOr("")));
    }
    h := Health("operational", status);
  }

  // ---------------------------------------------------------------- extract-text

  /** POST /extract-text: the text of every page, and all of it joined by blank lines;
      the upload is gone afterwards whatever happened. */
  method ExtractText(fs: Fs, lib: Libraries, file: UploadFile, id: string) returns (r: Reply<PageText>, fs': Fs)
    requires Uploads.FreshId(id)
    ensures !Uploads.IsPdfName(file.filename) ==> r == Fail(400, Text("File must be a PDF")) && fs' == fs
    ensures var input := UploadPath(Saved(id, file.filename));
      r.Ok? <==> Uploads.IsPdfName(file.filename) && Writable(fs, input) && lib.parsePdf(file.content).Some?
    ensures r.Ok? ==>
      var pages := lib.parsePdf(file.content).value;
      && r.body.filename == file.filename && r.body.totalPages == |pages|
      && r.body.textByPage == PageTexts(pages) && r.body.fullText == Join("\n\n", PageTexts(pages))
    ensures var input := UploadPath(Saved(id, file.filename));
      Uploads.IsPdfName(file.filename) && input !in fs.dirs ==> fs' == Without(fs, [input])
    ensures Uploads.IsPdfName(file.filename) && r.Fail? ==> r.status == 500
  {
    if !Uploads.IsPdfName(file.filename) {
      return Fail(400, Text("File must be a PDF")), fs;
    }
    var input := UploadPath(Saved(id, file.filename));
    assert PathSet([input]) == {input};
    match Write(fs, input, file.content)
    case Failure(e) =>
      r, fs' := Abort(fs, [input], Reraise(e));
    case Success(saved) =>
      var pages := ExtractTextFromPdf(saved, lib, input);
      if pages.Failure? {
        r, fs' := Abort(saved, [input], Reraise(pages.error));
        return;
      }
      fs' := Remove(saved, input).value;
      r := Ok(PageText(file.filename, |pages.value|, pages.value, Join("\n\n", pages.value)));
  }

  // ---------------------------------------------------------------- ocr-image

  /** The details of the ocr-image checks. */
  const NOT_AN_IMAGE := "File must be an image (PNG, JPG, JPEG, TIFF, BMP)"
  const NOT_INSTALLED := "Tesseract OCR is not installed"
  const PLEASE_INSTALL := "Please install Tesseract OCR to use this feature"
  const NOT_FOUND := "Tesseract OCR executable not found"
  const NOT_ON_PATH := "Tesseract OCR is installed but executable not found in system PATH"

  /** The suffixes ocr-image accepts, in any case. */
  predicate IsImageName(filename: string)
  {
    var l := Lower(filename);
    EndsWith(l, ".png") || EndsWith(l, ".jpg") || EndsWith(l, ".jpeg") || EndsWith(l, ".tiff") || EndsWith(l, ".bmp")
  }

  /** The `except` clause of ocr-image: an error whose text mentions Tesseract or OCR
      gets 503 with the installation help, any other 500. */
  function Classify(e: Exc, system: string): (r: Reply<OcrText>)
    ensures r.Fail? && (r.status == 503 <==> MentionsOcr(Str(e)))
    ensures r.Fail? && (r.status == 503 || r.status == 500)
  {
    if MentionsOcr(Str(e)) then Fail(503, Unavailable("OCR processing failed", Str(e), system))
    else Fail(500, Prefixed("Processing error: ", e))
  }

  /** Saving an upload under uploads/ does not change whether Tesseract is found. */
  lemma {:induction false} FirstExistingAfterWrite(fs: Fs, saved: Fs, input: Path, paths: seq<Path>)
    requires saved.dirs == fs.dirs && saved.files.Keys == fs.files.Keys + {input}
    requires input !in paths
    ensures FirstExisting(saved, paths) == FirstExisting(fs, paths)
  {
    if paths != [] {
      FirstExistingAfterWrite(fs, saved, input, paths[1..]);
    }
  }

  lemma InstalledAfterSave(host: Host, fs: Fs, input: Path, data: Bytes)
    requires Writable(fs, input) && input[0] == 'u'
    ensures Installed(host, Write(fs, input, data).value) <==> Installed(host, fs)
  {
    var paths := CommonPaths(host.username);
    FirstExistingAfterWrite(fs, Write(fs, input, data).value, input, paths);
  }

  /** POST /ocr-image.  The availability checks answer 503 before anything is saved;
      once the upload is saved, every failure of the OCR itself answers 503 as well,
      because every exception ocr_from_image raises mentions OCR. */
  method OcrImage(fs: Fs, ocr: Ocr, host: Host, file: UploadFile, id: string) returns (r: Reply<OcrText>, fs': Fs)
    requires Uploads.FreshId(id)
    ensures !IsImageName(file.filename) ==>
      r == Fail(400, Text(NOT_AN_IMAGE)) && fs' == fs
    ensures IsImageName(file.filename) && !ocr.available ==>
      r == Fail(503, Unavailable(NOT_INSTALLED, PLEASE_INSTALL,
                                 host.system)) && fs' == fs
    ensures IsImageName(file.filename) && ocr.available && !Installed(host, fs) ==>
      r == Fail(503, Unavailable(NOT_FOUND,
                                 NOT_ON_PATH, host.system))
      && fs' == fs
    ensures var input := UploadPath(Saved(id, file.filename));
      r.Ok? <==> IsImageName(file.filename) && ocr.available && Installed(host, fs) && Writable(fs, input)
                 && ocr.load(file.content).Some? && Recognized(ocr, ocr.load(file.content).value).Success?
    ensures r.Ok? ==>
      var text := Reported(Recognized(ocr, ocr.load(file.content).value).value);
      && r.body == OcrText(file.filename, text, |text|, NonBlank(text))
    ensures var input := UploadPath(Saved(id, file.filename));
      IsImageName(file.filename) && ocr.available && Installed(host, fs) ==>
        && (r.Fail? && Writable(fs, input) ==> r.status == 503 || r == Fail(500, SERVER_ERROR))
        && (input !in fs.dirs ==> Within(fs'.files, fs.files) && input !in fs'.files)
  {
    if !IsImageName(file.filename) {
      return Fail(400, Text(NOT_AN_IMAGE)), fs;
    }
    if !ocr.available {
      return Fail(503, Unavailable(NOT_INSTALLED, PLEASE_INSTALL,
                                   host.system)), fs;
    }
    var installed, _ := CheckTesseractInstallation(host, fs);
    if !installed {
      return Fail(503, Unavailable(NOT_FOUND,
                                   NOT_ON_PATH,
                                   host.system)), fs;
    }
    var input := UploadPath(Saved(id, file.filename));
    r, fs' := OcrImageAt(fs, ocr, host, file, input);
  }

  /** ocr-image once both checks passed, for an upload saved at `input`. */
  method OcrImageAt(fs: Fs, ocr: Ocr, host: Host, file: UploadFile, input: Path) returns (r: Reply<OcrText>, fs': Fs)
    requires ocr.available && Installed(host, fs) && input != [] && input[0] == 'u'
    ensures r.Ok? <==> Writable(fs, input) && ocr.load(file.content).Some?
                       && Recognized(ocr, ocr.load(file.content).value).Success?
    ensures r.Ok? ==>
      var text := Reported(Recognized(ocr, ocr.load(file.content).value).value);
      && r.body == OcrText(file.filename, text, |text|, NonBlank(text))
    ensures r.Fail? && Writable(fs, input) ==> r.status == 503 || r == Fail(500, SERVER_ERROR)
    ensures input !in fs.dirs ==> Within(fs'.files, fs.files) && input !in fs'.files
  {
    match Write(fs, input, file.content)
    case Failure(e) =>
      r, fs' := Abort(fs, [input], Classify(e, host.system));
    case Success(saved) =>
      InstalledAfterSave(host, fs, input, file.content);
      r, fs' := OcrSaved(saved, ocr, host, file, input);
      WrittenThenRemoved(fs, input, file.content);
  }

  /** ocr_from_image on the saved upload, the removal of the upload, and the answer. */
  method OcrSaved(saved: Fs, ocr: Ocr, host: Host, file: UploadFile, input: Path) returns (r: Reply<OcrText>, fs': Fs)
    requires ocr.available && Installed(host, saved)
    requires input in saved.files && saved.files[input].data == file.content && input !in saved.dirs
    ensures r.Ok? <==> ocr.load(file.content).Some? && Recognized(ocr, ocr.load(file.content).value).Success?
    ensures r.Ok? ==>
      var text := Reported(Recognized(ocr, ocr.load(file.content).value).value);
      && r.body == OcrText(file.filename, text, |text|, NonBlank(text))
    ensures r.Fail? ==> r.status == 503
    ensures fs' == Without(saved, [input])
  {
    assert Loaded(ocr, saved, input) == ocr.load(file.content);
    var text := OcrFromImage(ocr, host, saved, input);
    if text.Failure? {
      r, fs' := Abort(saved, [input], Classify(text.error, host.system));
      return;
    }
    RemovedIsWithout(saved, input);
    fs' := Remove(saved, input).value;
    var t := text.value;
    StripNonBlank(t);
    r := Ok(OcrText(file.filename, t, |t|, t != "" && Strip(t) != ""));
  }

  // ---------------------------------------------------------------- encrypt

  /** POST /encrypt: encrypted_{id}_{filename}, served as encrypted_{filename}. */
  method Encrypt(fs: Fs, tk: Toolkit, file: UploadFile, password: string, id: string)
    returns (r: Reply<FileResponse>, fs': Fs)
    requires Uploads.FreshId(id)
    ensures !Uploads.IsPdfName(file.filename) ==> r == Fail(400, Text("File must be a PDF")) && fs' == fs
    ensures var input, output := UploadPath(Saved(id, file.filename)), UploadPath("encrypted_" + Saved(id, file.filename));
      && (r.Ok? <==> Uploads.IsPdfName(file.filename) && Writable(fs, input) && tk.pdf.parsePdf(file.content).Some?
                     && Writable(fs, output))
      && (r.Ok? ==> r.body == FileResponse(output, PDF_MIME, "encrypted_" + file.filename, []) &&
                    fs' == Uploads.Produced(fs, input, file.content, output,
                                            tk.encrypt(tk.pdf.parsePdf(file.content).value, password)) &&
                    output in fs'.files)
      && (Uploads.IsPdfName(file.filename) && r.Fail? ==> r.status == 500)
      && (Uploads.IsPdfName(file.filename) && r.Fail? && input !in fs.dirs && output !in fs.dirs ==>
            LeftNothing(fs, fs', [input, output]))
  {
    if !Uploads.IsPdfName(file.filename) {
      return Fail(400, Text("File must be a PDF")), fs;
    }
    var name := Saved(id, file.filename);
    var input, output := UploadPath(name), UploadPath("encrypted_" + name);
    UploadPathsApart(name, "encrypted_" + name);
    match Write(fs, input, file.content)
    case Failure(e) =>
      r, fs' := Abort(fs, [input, output], Reraise(e));
    case Success(saved) =>
      var done, written := EncryptPdf(saved, tk, input, output, password);
      var attempt := if done.Success? then Success(written) else Failure(done.error);
      r, fs' := Serve(saved, input, output, attempt, "encrypted_" + file.filename);
  }

  // ---------------------------------------------------------------- docx-to-pdf

  /** `file.filename.lower().endswith('.docx')` */
  predicate IsDocxName(filename: string)
  {
    EndsWith(Lower(filename), ".docx")
  }

  /** docx-to-pdf once the name passed the check: the upload saved at `input`, the
      converted document written to `output` and served as `name`. */
  method DocxToPdfAt(fs: Fs, tk: Toolkit, file: UploadFile, input: Path, output: Path, name: string)
    returns (r: Reply<FileResponse>, fs': Fs)
    ensures r.Ok? <==> Writable(fs, input) && tk.docxToPdf(file.content).Some? && Writable(fs, output)
    ensures r.Ok? ==> r.body == FileResponse(output, PDF_MIME, name, []) &&
                      fs' == Uploads.Produced(fs, input, file.content, output, tk.docxToPdf(file.content).value)
    ensures r.Fail? ==> r.status == 500
    ensures r.Fail? && input !in fs.dirs && output !in fs.dirs ==> LeftNothing(fs, fs', [input, output])
  {
    match Write(fs, input, file.content)
    case Failure(e) =>
      r, fs' := Abort(fs, [input, output], Reraise(e));
    case Success(saved) =>
      r, fs' := Serve(saved, input, output, ConvertDocxToPdf(saved, tk, input, output), name);
  }

  /** A name that holds ".docx" is shorter after the replacement. */
  lemma {:induction false} ReplaceDocxShrinks(s: string)
    requires Contains(s, ".docx")
    ensures |Replace(s, ".docx", ".pdf")| < |s|
    decreases |s|
  {
    var pat := ".docx";
    ReplaceNoLonger(s[1..]);
    if s[..|pat|] != pat {
      assert s[..|pat|] == s[0..|pat|];
      assert !OccursAt(s, pat, 0);
      var i :| 0 <= i <= |s| - |pat| && OccursAt(s, pat, i);
      assert OccursAt(s[1..], pat, i - 1) by {
        assert s[1..][i - 1..i - 1 + |pat|] == s[i..i + |pat|];
      }
      ReplaceDocxShrinks(s[1..]);
    } else {
      ReplaceNoLonger(s[|pat|..]);
    }
  }

  lemma {:induction false} ReplaceNoLonger(s: string)
    ensures |Replace(s, ".docx", ".pdf")| <= |s|
    decreases |s|
  {
    if |s| >= 5 {
      ReplaceNoLonger(s[1..]);
      ReplaceNoLonger(s[5..]);
    }
  }

  /** POST /docx-to-pdf, as written: the output name comes from a case-sensitive
      `replace('.docx', '.pdf')`.  A name whose suffix is ".DOCX" (or any spelling but
      ".docx") passes the check and keeps its name, so the output path is the input
      path: the conversion overwrites the upload, the removal of the upload deletes the
      converted document, and the route answers with a file that no longer exists. */
  method DocxToPdf(fs: Fs, tk: Toolkit, file: UploadFile, id: string) returns (r: Reply<FileResponse>, fs': Fs)
    requires Uploads.FreshId(id)
    ensures !IsDocxName(file.filename) ==> r == Fail(400, Text("File must be a DOCX")) && fs' == fs
    ensures var name := Replace(file.filename, ".docx", ".pdf");
      var input, output := UploadPath(Saved(id, file.filename)), UploadPath(Saved(id, name));
      && (r.Ok? <==> IsDocxName(file.filename) && Writable(fs, input) && tk.docxToPdf(file.content).Some?
                     && Writable(fs, output))
      && (r.Ok? ==> r.body == FileResponse(output, PDF_MIME, name, []))
      && (IsDocxName(file.filename) && r.Fail? ==> r.status == 500)
      && (r.Ok? ==> fs' == Uploads.Produced(fs, input, file.content, output, tk.docxToPdf(file.content).value))
      && (IsDocxName(file.filename) && r.Fail? && input !in fs.dirs && output !in fs.dirs ==>
            LeftNothing(fs, fs', [input, output]))
    ensures r.Ok? && Contains(file.filename, ".docx") ==>
      r.body.path in fs'.files && fs'.files[r.body.path].data == tk.docxToPdf(file.content).value
    ensures r.Ok? && !Contains(file.filename, ".docx") ==> r.body.path !in fs'.files
  {
    if !IsDocxName(file.filename) {
      return Fail(400, Text("File must be a DOCX")), fs;
    }
    var name := Replace(file.filename, ".docx", ".pdf");
    var input, output := UploadPath(Saved(id, file.filename)), UploadPath(Saved(id, name));
    if Contains(file.filename, ".docx") {
      ReplaceDocxShrinks(file.filename);
      UploadPathsApart(Saved(id, file.filename), Saved(id, name));
    } else {
      ReplaceAbsent(file.filename, ".docx", ".pdf");
    }
    r, fs' := DocxToPdfAt(fs, tk, file, input, output, name);
  }

  /** An upper-case name is accepted and comes out of the replacement unchanged. */
  lemma UpperCaseDocxKeepsItsName()
    ensures IsDocxName("REPORT.DOCX") && !Contains("REPORT.DOCX", ".docx")
    ensures Replace("REPORT.DOCX", ".docx", ".pdf") == "REPORT.DOCX"
  {
    var s := "REPORT.DOCX";
    assert Lower(s)[6..] == ".docx";
    forall i | 0 <= i <= |s| - 5
      ensures !OccursAt(s, ".docx", i)
    {
      assert s[i + 1] != 'd';
      assert s[i..i + 5][1] == s[i + 1] && ".docx"[1] == 'd';
    }
    ReplaceAbsent(s, ".docx", ".pdf");
  }

  /** The name the route evidently means: the checked suffix, whatever its case,
      replaced by ".pdf". */
  function PdfName(filename: string): (r: string)
    requires IsDocxName(filename)
    ensures EndsWith(r, ".pdf") && |r| == |filename| - 1
  {
    filename[..|filename| - 5] + ".pdf"
  }

  /** POST /docx-to-pdf with the output named by PdfName: the output never is the
      upload, and the route serves the converted document. */
  method DocxToPdfFixed(fs: Fs, tk: Toolkit, file: UploadFile, id: string) returns (r: Reply<FileResponse>, fs': Fs)
    requires Uploads.FreshId(id)
    ensures !IsDocxName(file.filename) ==> r == Fail(400, Text("File must be a DOCX")) && fs' == fs
    ensures IsDocxName(file.filename) ==>
      var input, output := UploadPath(Saved(id, file.filename)), UploadPath(Saved(id, PdfName(file.filename)));
      && (r.Ok? <==> Writable(fs, input) && tk.docxToPdf(file.content).Some? && Writable(fs, output))
      && (r.Ok? ==> r.body == FileResponse(output, PDF_MIME, PdfName(file.filename), []))
      && (r.Fail? ==> r.status == 500)
      && (r.Fail? && input !in fs.dirs && output !in fs.dirs ==> LeftNothing(fs, fs', [input, output]))
    ensures r.Ok? ==>
      r.body.path in fs'.files && fs'.files[r.body.path].data == tk.docxToPdf(file.content).value
  {
    if !IsDocxName(file.filename) {
      return Fail(400, Text("File must be a DOCX")), fs;
    }
    var name := PdfName(file.filename);
    var input, output := UploadPath(Saved(id, file.filename)), UploadPath(Saved(id, name));
    UploadPathsApart(Saved(id, file.filename), Saved(id, name));
    r, fs' := DocxToPdfAt(fs, tk, file, input, output, name);
  }

  // ---------------------------------------------------------------- extract-text-docx

  /** POST /extract-text-docx: every paragraph's text, and all of them joined by blank
      lines; the upload is gone afterwards whatever happened. */
  method ExtractTextDocx(fs: Fs, tk: Toolkit, file: UploadFile, id: string) returns (r: Reply<ParagraphText>, fs': Fs)
    requires Uploads.FreshId(id)
    ensures !IsDocxName(file.filename) ==> r == Fail(400, Text("File must be a DOCX")) && fs' == fs
    ensures var input := UploadPath(Saved(id, file.filename));
      r.Ok? <==> IsDocxName(file.filename) && Writable(fs, input) && tk.docxParagraphs(file.content).Some?
    ensures r.Ok? ==>
      var paras := tk.docxParagraphs(file.content).value;
      r.body == ParagraphText(file.filename, |paras|, paras, Join("\n\n", paras))
    ensures var input := UploadPath(Saved(id, file.filename));
      IsDocxName(file.filename) && input !in fs.dirs ==> fs' == Without(fs, [input])
    ensures IsDocxName(file.filename) && r.Fail? ==> r.status == 500
  {
    if !IsDocxName(file.filename) {
      return Fail(400, Text("File must be a DOCX")), fs;
    }
    var input := UploadPath(Saved(id, file.filename));
    assert PathSet([input]) == {input};
    match Write(fs, input, file.content)
    case Failure(e) =>
      r, fs' := Abort(fs, [input], Reraise(e));
    case Success(saved) =>
      var paras := ExtractTextFromDocx(saved, tk, input);
      if paras.Failure? {
        r, fs' := Abort(saved, [input], Reraise(paras.error));
        return;
      }
      fs' := Remove(saved, input).value;
      r := Ok(ParagraphText(file.filename, |paras.value|, paras.value, Join("\n\n", paras.value)));
  }

  // ---------------------------------------------------------------- merge

  const TOO_FEW_PDFS := "At least 2 PDF files required for merging"
  const NOT_ALL_PDFS := "All files must be PDFs"
  const MERGED_NAME := "merged_document.pdf"

  predicate AllPdfNames(files: seq<UploadFile>)
  {
    forall i :: 0 <= i < |files| ==> Uploads.IsPdfName(files[i].filename)
  }

  /** The name check of merge, upload by upload: the first name that is not a PDF's
      ends it. */
  method CheckAllPdf(files: seq<UploadFile>) returns (ok: bool)
    ensures ok <==> AllPdfNames(files)
  {
    var i := 0;
    while i < |files|
      invariant 0 <= i <= |files|
      invariant forall j :: 0 <= j < i ==> Uploads.IsPdfName(files[j].filename)
    {
      if !Uploads.IsPdfName(files[i].filename) {
        return false;
      }
      i := i + 1;
    }
    return true;
  }

  /** Where upload i of a merge is saved: `f"{file_id}_{i}_{file.filename}"`. */
  function MergeInput(id: string, i: nat, filename: string): (r: Path)
    requires Uploads.FreshId(id)
    ensures r == UPLOAD_DIR + "/" + id + "_" + (NatToString(i) + "_" + filename)
  {
    UploadPath(Saved(id, NatToString(i) + "_" + filename))
  }

  function MergeInputs(id: string, files: seq<UploadFile>): (r: seq<Path>)
    requires Uploads.FreshId(id)
    ensures |r| == |files|
    ensures forall i :: 0 <= i < |r| ==> r[i] == MergeInput(id, i, files[i].filename)
  {
    seq(|files|, i requires 0 <= i < |files| => MergeInput(id, i, files[i].filename))
  }

  /** `os.path.join(UPLOAD_DIR, f"merged_{file_id}.pdf")` */
  function MergeOutput(id: string): Path
    requires Uploads.FreshId(id)
  {
    UploadPath("merged_" + id + ".pdf")
  }

  /** The uploads of one merge are saved at distinct paths, whatever their names. */
  lemma MergeInputsDistinct(id: string, files: seq<UploadFile>)
    requires Uploads.FreshId(id)
    ensures forall j, k :: 0 <= j < k < |files| ==> MergeInputs(id, files)[j] != MergeInputs(id, files)[k]
  {
    var paths := MergeInputs(id, files);
    var pre := UPLOAD_DIR + "/" + id + "_";
    forall j, k | 0 <= j < k < |files|
      ensures paths[j] != paths[k]
    {
      var x, y := NatToString(j) + "_" + files[j].filename, NatToString(k) + "_" + files[k].filename;
      NumberedApart(j, k, files[j].filename, files[k].filename);
      assert paths[j] == pre + x && paths[k] == pre + y;
      assert (pre + x)[|pre|..] == x && (pre + y)[|pre|..] == y;
    }
  }

  /** A path named by a prefix that holds, at position k, a character no uuid holds is
      never the path an upload is saved at. */
  lemma OutputApart(id: string, prefix: string, k: nat, rest: string, name: string)
    requires Uploads.FreshId(id) && k < |prefix| && k < 36 && prefix[0] != '/'
    requires !Uploads.UuidChar(prefix[k])
    ensures UploadPath(prefix + rest) != UploadPath(Saved(id, name))
  {
    assert UploadPath(prefix + rest)[8 + k] == prefix[k];
    assert UploadPath(Saved(id, name))[8 + k] == id[k];
  }

  /** The pages merge_pdfs reads back from the saved uploads: each upload's pages, in
      upload order; None when some upload is not a PDF the library reads. */
  function UploadedPages(lib: Libraries, files: seq<UploadFile>): Option<seq<Page>>
  {
    if files == [] then Some([])
    else
      var n := |files| - 1;
      var front := UploadedPages(lib, files[..n]);
      var last := lib.parsePdf(files[n].content);
      if front.Some? && last.Some? then Some(front.value + last.value) else None
  }

  /** The merge succeeds on its inputs exactly when every upload is a readable PDF. */
  lemma {:induction false} UploadedPagesSome(lib: Libraries, files: seq<UploadFile>)
    ensures UploadedPages(lib, files).Some? <==> forall i :: 0 <= i < |files| ==> lib.parsePdf(files[i].content).Some?
  {
    if files != [] {
      var n := |files| - 1;
      UploadedPagesSome(lib, files[..n]);
      assert forall i :: 0 <= i < n ==> files[..n][i] == files[i];
    }
  }

  /** Merging the saved uploads reads back the pages of the uploads themselves. */
  lemma {:induction false} MergedOfSaved(fs: Fs, lib: Libraries, paths: seq<Path>, files: seq<UploadFile>, n: nat)
    requires |paths| == |files| && n <= |files|
    requires forall j, k :: 0 <= j < k < |paths| ==> paths[j] != paths[k]
    ensures PdfService.MergedPages(Written(fs, paths, Uploads.Contents(files)), lib, paths[..n])
         == UploadedPages(lib, files[..n])
    ensures n == |files| ==>
      PdfService.MergedPages(Written(fs, paths, Uploads.Contents(files)), lib, paths) == UploadedPages(lib, files)
  {
    assert paths[..|paths|] == paths && files[..|files|] == files;
    if n > 0 {
      var saved := Written(fs, paths, Uploads.Contents(files));
      MergedOfSaved(fs, lib, paths, files, n - 1);
      assert paths[..n][..n - 1] == paths[..n - 1] && files[..n][..n - 1] == files[..n - 1];
      WrittenFilesLookup(paths, Uploads.Contents(files), fs.clock, n - 1);
      assert saved.files[paths[n - 1]].data == files[n - 1].content;
      assert paths[..n][n - 1] == paths[n - 1] && files[..n][n - 1] == files[n - 1];
    }
  }

  /** merge once the names passed the checks: the uploads saved at `paths` one after
      the other, then merged. */
  method MergeAt(fs: Fs, lib: Libraries, files: seq<UploadFile>, paths: seq<Path>, output: Path)
    returns (r: Reply<FileResponse>, fs': Fs)
    requires |paths| == |files|
    requires forall j, k :: 0 <= j < k < |paths| ==> paths[j] != paths[k]
    requires output !in paths
    ensures r.Ok? <==> AllWritable(fs, paths) && UploadedPages(lib, files).Some? && Writable(fs, output)
    ensures r.Ok? ==> (r.body == FileResponse(output, PDF_MIME, MERGED_NAME, []) && fs'.dirs == fs.dirs &&
      fs'.files == (fs.files - PathSet(paths))[output := File(lib.renderPdf(UploadedPages(lib, files).value), fs.clock)])
    ensures r.Fail? ==> r.status == 500 && fs'.dirs == fs.dirs
    ensures r.Fail? && output !in fs.dirs && (forall p :: p in paths ==> p !in fs.dirs) ==>
      LeftNothing(fs, fs', [output])
  {
    var contents := Uploads.Contents(files);
    var err: Option<Exc>, done: nat, saved: Fs;
    err, done, saved := WriteAll(fs, paths, contents);
    if err.Some? {
      WrittenOnly(fs, paths, contents, done);
      assert forall p :: p in paths[..done] ==> p in paths;
      r, fs' := AbortWritten(fs, saved, paths[..done], [output], Reraise(err.value));
      return;
    }
    r, fs' := MergeSaved(fs, saved, lib, files, paths, output);
  }

  /** The rest of merge, once every upload is saved: merged into `output`, removed, and
      the output served.  Each path holds a file when the uploads are removed, so the
      plain os.remove of the route and the guarded removal coincide there. */
  method MergeSaved(fs: Fs, saved: Fs, lib: Libraries, files: seq<UploadFile>, paths: seq<Path>, output: Path)
    returns (r: Reply<FileResponse>, fs': Fs)
    requires |paths| == |files|
    requires forall j, k :: 0 <= j < k < |paths| ==> paths[j] != paths[k]
    requires output !in paths
    requires AllWritable(fs, paths) && saved == Written(fs, paths, Uploads.Contents(files))
    ensures r.Ok? <==> UploadedPages(lib, files).Some? && Writable(fs, output)
    ensures r.Ok? ==> (r.body == FileResponse(output, PDF_MIME, MERGED_NAME, []) && fs'.dirs == fs.dirs &&
      fs'.files == (fs.files - PathSet(paths))[output := File(lib.renderPdf(UploadedPages(lib, files).value), fs.clock)])
    ensures r.Fail? ==> r.status == 500 && fs'.dirs == fs.dirs
    ensures r.Fail? && output !in fs.dirs ==> LeftNothing(fs, fs', [output])
  {
    var contents := Uploads.Contents(files);
    WrittenOnlyAll(fs, paths, contents);
    MergedOfSaved(fs, lib, paths, files, |paths|);
    AllWritableNoDirs(fs, paths);
    var res, merged := PdfUtils.MergePdfs(saved, lib, paths, output);
    if res.Failure? {
      r, fs' := AbortWritten(fs, merged, paths, [output], Reraise(res.error));
      return;
    }
    WrittenFilesKeys(paths, contents, fs.clock);
    var _, cleaned := RemoveEach(merged, paths);
    OverlaidThenRemoved(fs.files, WrittenFiles(paths, contents, fs.clock), PathSet(paths), output,
                        File(lib.renderPdf(UploadedPages(lib, files).value), fs.clock));
    r, fs' := Ok(FileResponse(output, PDF_MIME, MERGED_NAME, [])), cleaned;
  }

  /** POST /merge: at least two uploads, all named as PDFs, merged in upload order into
      merged_{id}.pdf, served as merged_document.pdf. */
  method Merge(fs: Fs, lib: Libraries, files: seq<UploadFile>, id: string) returns (r: Reply<FileResponse>, fs': Fs)
    requires Uploads.FreshId(id)
    ensures |files| < 2 ==> r == Fail(400, Text(TOO_FEW_PDFS)) && fs' == fs
    ensures |files| >= 2 && !AllPdfNames(files) ==> r == Fail(400, Text(NOT_ALL_PDFS)) && fs' == fs
    ensures var paths, output := MergeInputs(id, files), MergeOutput(id);
      && (r.Ok? <==> |files| >= 2 && AllPdfNames(files) && AllWritable(fs, paths) &&
                     UploadedPages(lib, files).Some? && Writable(fs, output))
      && (r.Ok? ==> (r.body == FileResponse(output, PDF_MIME, MERGED_NAME, []) && fs'.dirs == fs.dirs &&
                     fs'.files == (fs.files - PathSet(paths))[output := File(lib.renderPdf(UploadedPages(lib, files).value), fs.clock)]))
      && (|files| >= 2 && AllPdfNames(files) && r.Fail? ==> r.status == 500)
      && ((|files| >= 2 && AllPdfNames(files) && r.Fail? && output !in fs.dirs &&
           (forall p :: p in paths ==> p !in fs.dirs)) ==> LeftNothing(fs, fs', [output]))
  {
    if |files| < 2 {
      return Fail(400, Text(TOO_FEW_PDFS)), fs;
    }
    var ok := CheckAllPdf(files);
    if !ok {
      return Fail(400, Text(NOT_ALL_PDFS)), fs;
    }
    var paths, output := MergeInputs(id, files), MergeOutput(id);
    MergeInputsDistinct(id, files);
    forall i | 0 <= i < |paths|
      ensures paths[i] != output
    {
      OutputApart(id, "merged_", 0, id + ".pdf", NatToString(i) + "_" + files[i].filename);
      assert "merged_" + (id + ".pdf") == "merged_" + id + ".pdf";
    }
    r, fs' := MergeAt(fs, lib, files, paths, output);
  }

  // ---------------------------------------------------------------- split

  /** `os.path.join(UPLOAD_DIR, f"split_{file_id}")` */
  function SplitDir(id: string): (r: Path)
    requires Uploads.FreshId(id)
    ensures r == UPLOAD_DIR + "/" + "split_" + id
  {
    UploadPath("split_" + id)
  }

  /** `f"PDF split into {len(output_files)} files"` */
  function SplitMessage(n: nat): string
  {
    "PDF split into " + NatToString(n) + " files"
  }

  /** `[os.path.basename(f) for f in output_files]` */
  function Basenames(paths: seq<Path>): (r: seq<string>)
    ensures |r| == |paths| && forall i :: 0 <= i < |r| ==> r[i] == Basename(paths[i])
  {
    seq(|paths|, i requires 0 <= i < |paths| => Basename(paths[i]))
  }

  /** page_{k}.pdf lies below the directory and is called page_{k}.pdf there. */
  lemma PageFileIn(dir: Path, k: nat)
    requires dir != [] && dir[|dir| - 1] != '/'
    ensures Under(PdfService.PagePath(dir, k), dir)
    ensures Basename(PdfService.PagePath(dir, k)) == "page_" + NatToString(k) + ".pdf"
  {
    var digits := NatToString(k);
    var name := "page_" + digits + ".pdf";
    assert forall m :: 0 <= m < |digits| ==> name[5 + m] == digits[m];
    assert '/' !in name;
    ParentOfJoin(dir, name);
    assert (dir + "/" + name)[..|dir + "/"|] == dir + "/";
  }

  /** The `except` clause of split: the upload removed if it exists, then the output
      directory with everything below it if it exists; a removal that raises escapes
      the route. */
  method SplitCleanup<T>(fs: Fs, input: Path, dir: Path, reply: Reply<T>) returns (r: Reply<T>, fs': Fs)
    ensures Within(fs'.files, fs.files) && (r == reply || r == Fail(500, SERVER_ERROR))
    ensures input !in fs.dirs ==> input !in fs'.files
    ensures input !in fs.dirs && dir !in fs.files ==> r == reply
    ensures input !in fs.dirs && dir !in fs.files && dir in fs.dirs ==> forall p :: p in fs'.files ==> !Under(p, dir)
  {
    match RemoveIfExists(fs, input)
    case Failure(_) =>
      r, fs' := Fail(500, SERVER_ERROR), fs;
    case Success(fs1) =>
      if !Exists(fs1, dir) {
        r, fs' := reply, fs1;
      } else {
        match RmTree(fs1, dir)
        case Failure(_) =>
          r, fs' := Fail(500, SERVER_ERROR), fs1;
        case Success(fs2) =>
          r, fs' := reply, fs2;
      }
  }

  /** The rest of split once the upload is saved and the directory made: the pages
      written one per file, the upload removed, and the names of the files answered. */
  method SplitMade(fs: Fs, made: Fs, lib: Libraries, file: UploadFile, input: Path, dir: Path)
    returns (r: Reply<SplitSummary>, fs': Fs)
    requires dir != [] && dir[|dir| - 1] != '/' && input != dir && !Under(input, dir)
    requires made.files == fs.files[input := File(file.content, fs.clock)] && made.clock == fs.clock
    requires dir in made.dirs && input !in made.dirs
    ensures r.Ok? <==> lib.parsePdf(file.content).Some? &&
                       AllWritable(made, PartPaths(dir, lib.parsePdf(file.content).value, []))
    ensures r.Ok? ==> var pages := lib.parsePdf(file.content).value;
      && r.body.totalFiles == |pages| && |r.body.files| == |pages| && r.body.message == SplitMessage(|pages|)
      && (forall k :: 0 <= k < |pages| ==> r.body.files[k] == "page_" + NatToString(k + 1) + ".pdf")
      && input !in fs'.files
      && (forall k :: 1 <= k <= |pages| ==> (PdfService.PagePath(dir, k) in fs'.files &&
            fs'.files[PdfService.PagePath(dir, k)].data == lib.renderPdf([pages[k - 1]])))
    ensures r.Fail? ==> r.status == 500
    ensures r.Fail? && dir !in fs.files ==> Within(fs'.files, fs.files) && input !in fs'.files
  {
    assert ReadPdf(made, lib, input).Success? <==> lib.parsePdf(file.content).Some?;
    var res, split := SplitPdf(made, lib, input, dir, []);
    if res.Failure? {
      r, fs' := SplitCleanup(split, input, dir, Reraise(res.error));
      if dir !in fs.files {
        SplitLeftNothing(fs, made, split, fs', lib, file, input, dir);
      }
      return;
    }
    var pages := lib.parsePdf(file.content).value;
    SplitServed(made, split, lib, input, dir, pages);
    fs' := Remove(split, input).value;
    r := Ok(SplitSummary(|res.value|, Basenames(res.value), SplitMessage(|res.value|)));
  }

  /** What a split that succeeded leaves once the upload is removed: every page file,
      holding its page, and their names page_1.pdf, page_2.pdf, ... */
  lemma SplitServed(made: Fs, split: Fs, lib: Libraries, input: Path, dir: Path, pages: seq<Page>)
    requires dir != [] && dir[|dir| - 1] != '/' && !Under(input, dir) && input in made.files
    requires split == Written(made, PartPaths(dir, pages, []), PartContents(lib, pages, []))
    ensures input in split.files
    ensures var after := Remove(split, input).value;
      && input !in after.files
      && forall k :: 1 <= k <= |pages| ==>
           PdfService.PagePath(dir, k) in after.files &&
           after.files[PdfService.PagePath(dir, k)].data == lib.renderPdf([pages[k - 1]])
    ensures forall k :: 0 <= k < |pages| ==>
      Basenames(PartPaths(dir, pages, []))[k] == "page_" + NatToString(k + 1) + ".pdf"
  {
    var after := Remove(split, input).value;
    forall k | 1 <= k <= |pages|
      ensures PdfService.PagePath(dir, k) in after.files
      ensures after.files[PdfService.PagePath(dir, k)].data == lib.renderPdf([pages[k - 1]])
      ensures Basenames(PartPaths(dir, pages, []))[k - 1] == "page_" + NatToString(k) + ".pdf"
    {
      SplitPageFile(lib, dir, pages, made.clock, k);
      PageFileIn(dir, k);
      PagePathAt(dir, pages, k);
    }
  }

  /** What a failed split leaves, once the clean-up removed the upload and the output
      directory: no file that was not there before. */
  lemma SplitLeftNothing(fs: Fs, made: Fs, split: Fs, after: Fs, lib: Libraries, file: UploadFile, input: Path, dir: Path)
    requires dir != [] && dir[|dir| - 1] != '/' && input != dir && dir !in fs.files
    requires made.files == fs.files[input := File(file.content, fs.clock)] && dir in made.dirs
    requires split.dirs == made.dirs
    requires ReadPdf(made, lib, input).Failure? ==> split == made
    requires ReadPdf(made, lib, input).Success? ==>
      WroteOnly(made.files, split.files, PartPaths(dir, ReadPdf(made, lib, input).value, []))
    requires Within(after.files, split.files) && input !in after.files
    requires dir !in split.files ==> forall p :: p in after.files ==> !Under(p, dir)
    ensures dir !in split.files
    ensures Within(after.files, fs.files)
  {
    var parts := if ReadPdf(made, lib, input).Success? then PartPaths(dir, ReadPdf(made, lib, input).value, []) else [];
    assert WroteOnly(made.files, split.files, parts);
    if ReadPdf(made, lib, input).Success? {
      PagesUnder(dir, ReadPdf(made, lib, input).value);
    }
    CleanedUp(made.files, split.files, after.files, parts);
  }

  /** Every page file lies below the directory. */
  lemma PagesUnder(dir: Path, doc: seq<Page>)
    requires dir != [] && dir[|dir| - 1] != '/'
    ensures forall q :: q in PartPaths(dir, doc, []) ==> Under(q, dir) && q != dir
  {
    var parts := PartPaths(dir, doc, []);
    forall q | q in parts
      ensures Under(q, dir) && q != dir
    {
      var k :| 0 <= k < |parts| && parts[k] == q;
      assert parts[k] == PdfService.PagePath(dir, k + 1);
      PageFileIn(dir, k + 1);
    }
  }

  /** split once the name passed the check: the upload saved at `input`, the directory
      `dir` made, then split. */
  method SplitAt(fs: Fs, lib: Libraries, file: UploadFile, input: Path, dir: Path)
    returns (r: Reply<SplitSummary>, fs': Fs)
    requires dir != [] && dir[|dir| - 1] != '/' && dir != "." && input != dir && !Under(input, dir)
    ensures var saved := fs.(files := fs.files[input := File(file.content, fs.clock)]);
      r.Ok? <==> Writable(fs, input) && MakeDirs(saved, dir).Success? && lib.parsePdf(file.content).Some? &&
                 AllWritable(MakeDirs(saved, dir).value, PartPaths(dir, lib.parsePdf(file.content).value, []))
    ensures r.Ok? ==> var pages := lib.parsePdf(file.content).value;
      && r.body.totalFiles == |pages| && |r.body.files| == |pages| && r.body.message == SplitMessage(|pages|)
      && (forall k :: 0 <= k < |pages| ==> r.body.files[k] == "page_" + NatToString(k + 1) + ".pdf")
      && input !in fs'.files
      && (forall k :: 1 <= k <= |pages| ==> (PdfService.PagePath(dir, k) in fs'.files &&
            fs'.files[PdfService.PagePath(dir, k)].data == lib.renderPdf([pages[k - 1]])))
    ensures r.Fail? ==> r.status == 500
    ensures r.Fail? && input !in fs.dirs && dir !in fs.files ==> Within(fs'.files, fs.files) && input !in fs'.files
  {
    match Write(fs, input, file.content)
    case Failure(e) =>
      r, fs' := SplitCleanup(fs, input, dir, Reraise(e));
    case Success(saved) =>
      match MakeDirs(saved, dir)
      case Failure(e) =>
        r, fs' := SplitCleanup(saved, input, dir, Reraise(e));
      case Success(made) =>
        assert input in saved.files && IsDir(made, dir);
        r, fs' := SplitMade(fs, made, lib, file, input, dir);
  }

  /** POST /split: one file per page in uploads/split_{id}, the upload removed, and the
      file names answered.  The form field split_type is read and ignored: both of its
      branches split by pages. */
  method Split(fs: Fs, lib: Libraries, file: UploadFile, id: string) returns (r: Reply<SplitSummary>, fs': Fs)
    requires Uploads.FreshId(id)
    ensures !Uploads.IsPdfName(file.filename) ==> r == Fail(400, Text("File must be a PDF")) && fs' == fs
    ensures var input, dir := UploadPath(Saved(id, file.filename)), SplitDir(id);
      var saved := fs.(files := fs.files[input := File(file.content, fs.clock)]);
      && (r.Ok? <==> Uploads.IsPdfName(file.filename) && Writable(fs, input) && MakeDirs(saved, dir).Success? &&
                     lib.parsePdf(file.content).Some? &&
                     AllWritable(MakeDirs(saved, dir).value, PartPaths(dir, lib.parsePdf(file.content).value, [])))
      && (r.Ok? ==> var pages := lib.parsePdf(file.content).value;
           && r.body.totalFiles == |pages| && |r.body.files| == |pages| && r.body.message == SplitMessage(|pages|)
           && (forall k :: 0 <= k < |pages| ==> r.body.files[k] == "page_" + NatToString(k + 1) + ".pdf")
           && input !in fs'.files
           && (forall k :: 1 <= k <= |pages| ==> (PdfService.PagePath(dir, k) in fs'.files &&
                 fs'.files[PdfService.PagePath(dir, k)].data == lib.renderPdf([pages[k - 1]]))))
      && (Uploads.IsPdfName(file.filename) && r.Fail? ==> r.status == 500)
      && ((Uploads.IsPdfName(file.filename) && r.Fail? && input !in fs.dirs && dir !in fs.files) ==>
            Within(fs'.files, fs.files) && input !in fs'.files)
  {
    if !Uploads.IsPdfName(file.filename) {
      return Fail(400, Text("File must be a PDF")), fs;
    }
    var input, dir := UploadPath(Saved(id, file.filename)), SplitDir(id);
    assert input[8] == id[0] && dir[8] == 's' && Uploads.UuidChar(id[0]);
    r, fs' := SplitAt(fs, lib, file, input, dir);
  }

  // ---------------------------------------------------------------- compress

  /** The headers of the compressed file: both sizes in bytes and the ratio. */
  function CompressHeaders(original: nat, compressed: nat): (r: seq<(string, string)>)
    requires original > 0
    ensures |r| == 3 && r[0].0 == "X-Original-Size" && r[1].0 == "X-Compressed-Size" && r[2].0 == "X-Compression-Ratio"
  {
    [("X-Original-Size", NatToString(original)),
     ("X-Compressed-Size", NatToString(compressed)),
     ("X-Compression-Ratio", Uploads.RatioText(original, compressed).value + "%")]
  }

  /** compress once the name passed the check: the upload saved at `input`, then
      compressed. */
  method CompressAt(fs: Fs, lib: Libraries, file: UploadFile, input: Path, output: Path, name: string)
    returns (r: Reply<FileResponse>, fs': Fs)
    requires input != output
    ensures Writable(fs, input) && Writable(fs, output) && |file.content| > 0 ==> r.Ok?
    ensures |file.content| == 0 ==> r.Fail?
    ensures r.Ok? ==> (Writable(fs, input) && r.body.path == output && r.body.mediaType == PDF_MIME &&
                       r.body.filename == name && input !in fs'.files && fs'.dirs == fs.dirs)
    ensures r.Ok? && Writable(fs, output) ==>
      && output in fs'.files
      && r.body.headers == CompressHeaders(|file.content|, |fs'.files[output].data|)
      && fs'.files[output].data ==
         (if lib.parsePdf(file.content).Some? then lib.renderPdf(CompressedPages(lib.parsePdf(file.content).value))
          else file.content)
    ensures r.Fail? ==> r.status == 500
    ensures r.Fail? && input !in fs.dirs && output !in fs.dirs ==> LeftNothing(fs, fs', [input, output])
  {
    match Write(fs, input, file.content)
    case Failure(e) =>
      r, fs' := Abort(fs, [input, output], Reraise(e));
    case Success(saved) =>
      r, fs' := CompressSaved(fs, saved, lib, file, input, output, name);
  }

  /** The rest of compress once the upload is saved: its size taken, compressed into
      `output`, the output's size taken, the ratio computed, the upload removed. */
  method CompressSaved(fs: Fs, saved: Fs, lib: Libraries, file: UploadFile, input: Path, output: Path, name: string)
    returns (r: Reply<FileResponse>, fs': Fs)
    requires input != output && Writable(fs, input)
    requires saved == fs.(files := fs.files[input := File(file.content, fs.clock)])
    ensures Writable(fs, output) && |file.content| > 0 ==> r.Ok?
    ensures |file.content| == 0 ==> r.Fail?
    ensures r.Ok? ==> (r.body.path == output && r.body.mediaType == PDF_MIME &&
                       r.body.filename == name && input !in fs'.files && fs'.dirs == fs.dirs)
    ensures r.Ok? && Writable(fs, output) ==>
      && output in fs'.files
      && r.body.headers == CompressHeaders(|file.content|, |fs'.files[output].data|)
      && fs'.files[output].data ==
         (if lib.parsePdf(file.content).Some? then lib.renderPdf(CompressedPages(lib.parsePdf(file.content).value))
          else file.content)
    ensures r.Fail? ==> r.status == 500
    ensures r.Fail? && output !in fs.dirs ==> LeftNothing(fs, fs', [input, output])
  {
    var original := Size(saved, input).value;
    var res, compressed := CompressPdf(saved, lib, input, output);
    if output !in fs.dirs {
      WroteOnlyChain(fs.files, saved.files, compressed.files, [input], [output]);
    }
    if res.Failure? {
      r, fs' := AbortSaved(fs, compressed, input, output, Reraise(res.error));
      return;
    }
    var size := Size(compressed, output).value;
    match Uploads.RatioText(original, size)
    case None =>
      r, fs' := AbortSaved(fs, compressed, input, output, Reraise(External("division by zero")));
    case Some(ratio) =>
      fs' := Remove(compressed, input).value;
      r := Ok(FileResponse(output, PDF_MIME, name, CompressHeaders(original, size)));
  }

  /** POST /compress: compressed_{id}_{filename}, served as compressed_{filename} with
      the sizes and the ratio in its headers.  An empty upload is always answered with
      500: the ratio divides by its size. */
  method Compress(fs: Fs, lib: Libraries, file: UploadFile, id: string) returns (r: Reply<FileResponse>, fs': Fs)
    requires Uploads.FreshId(id)
    ensures !Uploads.IsPdfName(file.filename) ==> r == Fail(400, Text("File must be a PDF")) && fs' == fs
    ensures Uploads.IsPdfName(file.filename) ==>
      var input, output := UploadPath(Saved(id, file.filename)), UploadPath("compressed_" + Saved(id, file.filename));
      && (Writable(fs, input) && Writable(fs, output) && |file.content| > 0 ==> r.Ok?)
      && (|file.content| == 0 ==> r.Fail?)
      && (r.Ok? ==> (Writable(fs, input) && r.body.path == output && r.body.mediaType == PDF_MIME &&
                     r.body.filename == "compressed_" + file.filename && input !in fs'.files && fs'.dirs == fs.dirs))
      && (r.Ok? && Writable(fs, output) ==>
           && output in fs'.files
           && r.body.headers == CompressHeaders(|file.content|, |fs'.files[output].data|)
           && fs'.files[output].data ==
              (if lib.parsePdf(file.content).Some? then lib.renderPdf(CompressedPages(lib.parsePdf(file.content).value))
               else file.content))
      && (r.Fail? ==> r.status == 500)
      && (r.Fail? && input !in fs.dirs && output !in fs.dirs ==> LeftNothing(fs, fs', [input, output]))
  {
    if !Uploads.IsPdfName(file.filename) {
      return Fail(400, Text("File must be a PDF")), fs;
    }
    var name := Saved(id, file.filename);
    UploadPathsApart(name, "compressed_" + name);
    r, fs' := CompressAt(fs, lib, file, UploadPath(name), UploadPath("compressed_" + name), "compressed_" + file.filename);
  }

  // ---------------------------------------------------------------- unlock

  /** POST /unlock: unlocked_{id}_{filename}, served as unlocked_{filename}. */
  method Unlock(fs: Fs, tk: Toolkit, file: UploadFile, password: string, id: string)
    returns (r: Reply<FileResponse>, fs': Fs)
    requires Uploads.FreshId(id)
    ensures !Uploads.IsPdfName(file.filename) ==> r == Fail(400, Text("File must be a PDF")) && fs' == fs
    ensures var input, output := UploadPath(Saved(id, file.filename)), UploadPath("unlocked_" + Saved(id, file.filename));
      var saved := fs.(files := fs.files[input := File(file.content, fs.clock)]);
      && (r.Ok? <==> Uploads.IsPdfName(file.filename) && Writable(fs, input) &&
                     UnlockPdf(saved, tk, input, output, password).Success?)
      && (r.Ok? ==> (r.body == FileResponse(output, PDF_MIME, "unlocked_" + file.filename, []) &&
                     output in fs'.files && input !in fs'.files &&
                     fs'.files[output] == UnlockPdf(saved, tk, input, output, password).value.files[output] &&
                     fs'.dirs == fs.dirs && fs'.clock == fs.clock &&
                     fs'.files == saved.files[output := fs'.files[output]] - {input}))
      && ((Uploads.IsPdfName(file.filename) && Writable(fs, input) && output !in fs.dirs && tk.pike.Some? &&
           tk.pike.value(file.content, password) == PasswordError) ==>
            r == Fail(500, Caught(Raised(INVALID_PASSWORD))) && LeftNothing(fs, fs', [input, output]))
      && (Uploads.IsPdfName(file.filename) && r.Fail? ==> r.status == 500)
      && (Uploads.IsPdfName(file.filename) && r.Fail? && input !in fs.dirs && output !in fs.dirs ==>
            LeftNothing(fs, fs', [input, output]))
  {
    if !Uploads.IsPdfName(file.filename) {
      return Fail(400, Text("File must be a PDF")), fs;
    }
    var name := Saved(id, file.filename);
    var input, output := UploadPath(name), UploadPath("unlocked_" + name);
    UploadPathsApart(name, "unlocked_" + name);
    match Write(fs, input, file.content)
    case Failure(e) =>
      r, fs' := Abort(fs, [input, output], Reraise(e));
    case Success(saved) =>
      r, fs' := Serve(saved, input, output, UnlockPdf(saved, tk, input, output, password), "unlocked_" + file.filename);
  }
}
