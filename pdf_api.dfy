// The PDF endpoints (app/api/v1/endpoints/pdf.py).  Every handler runs inside one
// `try` whose `except Exception` re-raises as HTTP 500 with detail str(e), so its own
// 400s reach the client as 500s.
module PdfApi {
  import opened Wrappers
  import opened Strings
  import opened Http
  import opened FileSystem
  import opened Schemas
  import opened Uploads
  import opened PdfDocs
  import opened PdfService
  import Config

  // ---------------------------------------------------------------- page list

  /** int(s), with the ValueError it raises. */
  function IntOf(s: string): (r: Result<int, Exc>)
    ensures r.Failure? <==> ParseInt(s).None?
    ensures r.Failure? ==> r.error == BadInt(s)
    ensures r.Success? ==> r.value == ParseInt(s).value
  {
    match ParseInt(s)
    case Some(n) => Success(n)
    case None => Failure(BadInt(s))
  }

  /** range(a, b) */
  function Range(a: int, b: int): (r: seq<int>)
    ensures |r| == if a < b then b - a else 0
    ensures forall i :: 0 <= i < |r| ==> r[i] == a + i
  {
    if a < b then seq(b - a, i => a + i) else []
  }

  /** What one comma-separated part adds to page_list.  `start, end =
      map(int, part.split('-'))` converts the parts one at a time and fails on a third. */
  function PartPages(part: string): Result<seq<int>, Exc>
  {
    if '-' in part then
      SplitOnSeparator(part, '-');
      Bounds(SplitOn(part, '-'))
    else
      var n :- IntOf(part);
      Success([n])
  }

  /** `start, end = map(int, xs)` followed by `range(start, end + 1)`. */
  function Bounds(xs: seq<string>): Result<seq<int>, Exc>
    requires |xs| >= 2
  {
    var start :- IntOf(xs[0]);
    var end :- IntOf(xs[1]);
    if |xs| > 2 then
      var _ :- IntOf(xs[2]);
      Failure(TooManyValues(2))
    else Success(Range(start, end + 1))
  }

  /** The parts' pages, in order; the first failing part decides the error. */
  function Collect(part: string -> Result<seq<int>, Exc>, parts: seq<string>): Result<seq<int>, Exc>
  {
    if parts == [] then Success([])
    else
      var n := |parts| - 1;
      var front :- Collect(part, parts[..n]);
      var last :- part(parts[n]);
      Success(front + last)
  }

  /** page_list for the `pages` query parameter; an absent or empty value gives []. */
  function PageList(pages: Option<string>): Result<seq<int>, Exc>
  {
    if pages.None? || pages.value == "" then Success([]) else Collect(PartPages, SplitOn(pages.value, ','))
  }

  /** The parser loop of split_pdf: `for page_part in pages.split(',')`. */
  method ParsePageList(pages: Option<string>) returns (r: Result<seq<int>, Exc>)
    ensures r == PageList(pages)
  {
    if pages.None? || pages.value == "" {
      return Success([]);
    }
    r := CollectParts(PartPages, SplitOn(pages.value, ','));
  }

  /** Extends the list part by part, stopping at the first part that raises. */
  method CollectParts(part: string -> Result<seq<int>, Exc>, parts: seq<string>) returns (r: Result<seq<int>, Exc>)
    ensures r == Collect(part, parts)
  {
    var list: seq<int> := [];
    var i := 0;
    while i < |parts|
      invariant 0 <= i <= |parts|
      invariant Collect(part, parts[..i]) == Success(list)
    {
      var piece := part(parts[i]);
      assert parts[..i + 1][..i] == parts[..i];
      if piece.Failure? {
        CollectFails(part, parts, i + 1);
        return Failure(piece.error);
      }
      list := list + piece.value;
      i := i + 1;
    }
    assert parts[..i] == parts;
    return Success(list);
  }

  /** A failing prefix makes the whole list fail with its error. */
  lemma {:induction false} CollectFails(part: string -> Result<seq<int>, Exc>, parts: seq<string>, k: nat)
    requires k <= |parts| && Collect(part, parts[..k]).Failure?
    ensures Collect(part, parts) == Collect(part, parts[..k])
    decreases |parts| - k
  {
    if k < |parts| {
      var n := |parts| - 1;
      assert parts[..n][..k] == parts[..k];
      CollectFails(part, parts[..n], k);
      assert parts[..|parts|] == parts;
    } else {
      assert parts[..k] == parts;
    }
  }

  /** The pages of a + b are a's followed by b's. */
  lemma {:induction false} CollectAppend(part: string -> Result<seq<int>, Exc>, a: seq<string>, b: seq<string>)
    requires Collect(part, a).Success? && Collect(part, b).Success?
    ensures Collect(part, a + b) == Success(Collect(part, a).value + Collect(part, b).value)
  {
    if b == [] {
      assert a + b == a;
      assert Collect(part, a).value + [] == Collect(part, a).value;
    } else {
      var n := |b| - 1;
      CollectAppend(part, a, b[..n]);
      assert (a + b)[..|a + b| - 1] == a + b[..n];
      assert (a + b)[|a + b| - 1] == b[n];
      var A, B, L := Collect(part, a).value, Collect(part, b[..n]).value, part(b[n]).value;
      assert (A + B) + L == A + (B + L);
    }
  }

  /** One part collects to its own pages. */
  lemma CollectSingle(part: string -> Result<seq<int>, Exc>, p: string)
    ensures Collect(part, [p]) == part(p)
  {
    assert [p][..0] == [];
    if part(p).Success? {
      assert [] + part(p).value == part(p).value;
    }
  }

  /** "p,rest" lists p's pages and then rest's, keeping order and repetitions. */
  lemma PageListCons(p: string, rest: string)
    requires ',' !in p && rest != ""
    requires PartPages(p).Success? && PageList(Some(rest)).Success?
    ensures PageList(Some(p + "," + rest)) == Success(PartPages(p).value + PageList(Some(rest)).value)
  {
    SplitOnFirst(p, rest, ',');
    assert p + "," + rest == p + [','] + rest;
    CollectSingle(PartPages, p);
    CollectAppend(PartPages, [p], SplitOn(rest, ','));
  }

  /** A number names that one page. */
  lemma PartOfNumber(n: nat)
    ensures PartPages(NatToString(n)) == Success([n])
  {
    ParseNatToString(n);
  }

  /** "a-b" names a..b inclusive, and nothing when a > b. */
  lemma PartOfRange(a: nat, b: nat)
    ensures var r := PartPages(NatToString(a) + "-" + NatToString(b));
      r.Success? && |r.value| == (if a <= b then b - a + 1 else 0)
      && forall i :: 0 <= i < |r.value| ==> r.value[i] == a + i
  {
    SplitTwo(a, b);
    IntOfNat(a);
    IntOfNat(b);
    RangePart(NatToString(a), NatToString(b), a, b);
  }

  /** Two numbers around one '-' name the inclusive range between them. */
  lemma RangePart(s: string, t: string, a: int, b: int)
    requires SplitOn(s + "-" + t, '-') == [s, t]
    requires IntOf(s) == Success(a) && IntOf(t) == Success(b)
    ensures PartPages(s + "-" + t) == Success(Range(a, b + 1))
  {
    var part := s + "-" + t;
    assert part[|s|] == '-';
    assert PartPages(part) == Bounds([s, t]);
    BoundsOfTwo(s, t, a, b);
  }

  lemma BoundsOfTwo(s: string, t: string, a: int, b: int)
    requires IntOf(s) == Success(a) && IntOf(t) == Success(b)
    ensures Bounds([s, t]) == Success(Range(a, b + 1))
  {
    assert [s, t][0] == s && [s, t][1] == t;
  }

  lemma SplitTwo(a: nat, b: nat)
    ensures SplitOn(NatToString(a) + "-" + NatToString(b), '-') == [NatToString(a), NatToString(b)]
  {
    var s, t := NatToString(a), NatToString(b);
    assert '-' !in s && '-' !in t;
    SplitOnFirst(s, t, '-');
    assert s + "-" + t == s + ['-'] + t;
    SplitOnPlain(t, '-');
  }

  /** int(str(n)) == n */
  lemma IntOfNat(n: nat)
    ensures IntOf(NatToString(n)) == Success(n)
  {
    ParseNatToString(n);
  }

  lemma SplitThree(s: string, t: string, u: string)
    requires '-' !in s && '-' !in t && '-' !in u
    ensures SplitOn(s + "-" + t + "-" + u, '-') == [s, t, u]
  {
    SplitOnFirst(s, t + "-" + u, '-');
    assert s + "-" + t + "-" + u == s + ['-'] + (t + "-" + u);
    SplitOnFirst(t, u, '-');
    assert t + "-" + u == t + ['-'] + u;
    SplitOnPlain(u, '-');
  }

  /** "a-b-c" has more than two values: the request fails. */
  lemma ThreeValuedPart(a: nat, b: nat, c: nat)
    ensures PartPages(NatToString(a) + "-" + NatToString(b) + "-" + NatToString(c)) == Failure(TooManyValues(2))
  {
    var s, t, u := NatToString(a), NatToString(b), NatToString(c);
    assert '-' !in s && '-' !in t && '-' !in u;
    SplitThree(s, t, u);
    IntOfNat(a);
    IntOfNat(b);
    IntOfNat(c);
    var part := s + "-" + t + "-" + u;
    assert part[|s|] == '-';
    ThreePart(part, s, t, u);
  }

  /** A part that splits into three numbers raises: unpacking expects two values. */
  lemma ThreePart(part: string, s: string, t: string, u: string)
    requires '-' in part && SplitOn(part, '-') == [s, t, u]
    requires IntOf(s).Success? && IntOf(t).Success? && IntOf(u).Success?
    ensures PartPages(part) == Failure(TooManyValues(2))
  {
  }

  /** "-3" has an empty start: int("") fails. */
  lemma OpenStartPart()
    ensures PartPages("-3") == Failure(BadInt(""))
  {
    SplitOnFirst("", "3", '-');
    assert "-3" == "" + ['-'] + "3";
    assert Strip("") == "";
  }

  /** "a" is no number. */
  lemma LetterPart()
    ensures PartPages("a") == Failure(BadInt("a"))
  {
    NotANumber();
    assert '-' !in "a";
  }

  lemma NotANumber()
    ensures ParseInt("a").None?
  {
    StripNoSpace("a");
    assert Strip("a") == "a";
    assert !IsDigit('a');
    assert !DecimalLiteral("a");
  }

  // ---------------------------------------------------------------- responses

  const DOCX_MIME: string := "application/vnd.openxmlformats-officedocument.wordprocessingml.document"

  /** The first name of the batch that is not a PDF. */
  function FirstNonPdf(files: seq<UploadFile>): (r: Option<string>)
    ensures r.None? <==> forall i :: 0 <= i < |files| ==> IsPdfName(files[i].filename)
    ensures r.Some? ==> exists i :: 0 <= i < |files| && r.value == files[i].filename && !IsPdfName(r.value)
                                    && forall j :: 0 <= j < i ==> IsPdfName(files[j].filename)
  {
    if files == [] then None
    else if !IsPdfName(files[0].filename) then Some(files[0].filename)
    else
      var r := FirstNonPdf(files[1..]);
      assert forall j :: 1 <= j < |files| ==> files[1..][j - 1] == files[j];
      r
  }

  /** The pages of the uploads themselves, in upload order. */
  function UploadedPages(lib: Libraries, files: seq<UploadFile>): Option<seq<Page>>
  {
    if files == [] then Some([])
    else
      var n := |files| - 1;
      var front := UploadedPages(lib, files[..n]);
      var last := lib.parsePdf(files[n].content);
      if front.Some? && last.Some? then Some(front.value + last.value) else None
  }

  /** Merging the saved copies reads back each upload's own pages, in upload order, when
      no two uploads share a save path. */
  lemma {:induction false} MergeOfSaved(fs: Fs, lib: Libraries, paths: seq<Path>, files: seq<UploadFile>, k: nat)
    requires |paths| == |files| && k <= |paths|
    requires forall j, m :: 0 <= j < m < |paths| ==> paths[j] != paths[m]
    ensures MergedPages(Saved(fs, paths, files), lib, paths[..k]) == UploadedPages(lib, files[..k])
  {
    if k > 0 {
      MergeOfSaved(fs, lib, paths, files, k - 1);
      assert paths[..k][..k - 1] == paths[..k - 1] && files[..k][..k - 1] == files[..k - 1];
      WrittenFilesLookup(paths, Contents(files), fs.clock, k - 1);
      assert Saved(fs, paths, files).files[paths[k - 1]] == File(files[k - 1].content, fs.clock);
    }
  }

  /** The merged document holds the uploads' pages in upload order. */
  lemma MergeOfUploads(fs: Fs, lib: Libraries, ids: seq<string>, files: seq<UploadFile>)
    requires |ids| == |files| && forall i :: 0 <= i < |ids| ==> FreshId(ids[i])
    requires forall j, k :: 0 <= j < k < |ids| ==> ids[j] != ids[k]
    ensures var paths := SavePaths(Config.TEMP_DIR, ids, files);
      MergedPages(Saved(fs, paths, files), lib, paths) == UploadedPages(lib, files)
  {
    var paths := SavePaths(Config.TEMP_DIR, ids, files);
    SavePathsDistinct(Config.TEMP_DIR, ids, files);
    MergeOfSaved(fs, lib, paths, files, |paths|);
    assert paths[..|paths|] == paths && files[..|files|] == files;
  }

  // ---------------------------------------------------------------- merge

  /** The validation loop of merge_pdfs. */
  method CheckAllPdf(files: seq<UploadFile>) returns (bad: Option<string>)
    ensures bad == FirstNonPdf(files)
  {
    var i := 0;
    while i < |files|
      invariant 0 <= i <= |files|
      invariant forall j :: 0 <= j < i ==> IsPdfName(files[j].filename)
    {
      if !IsPdfName(files[i].filename) {
        FirstNonPdfAt(files, i);
        return Some(files[i].filename);
      }
      i := i + 1;
    }
    return None;
  }

  lemma {:induction false} FirstNonPdfAt(files: seq<UploadFile>, i: nat)
    requires i < |files| && !IsPdfName(files[i].filename)
    requires forall j :: 0 <= j < i ==> IsPdfName(files[j].filename)
    ensures FirstNonPdf(files) == Some(files[i].filename)
  {
    if i > 0 {
      FirstNonPdfAt(files[1..], i - 1);
    }
  }

  /** POST /merge.  No minimum number of files; each name needs a ".pdf" suffix in any
      case; every upload is saved under its own id; the merged file is
      merged_{cid}.pdf. */
  method Merge(fs: Fs, lib: Libraries, files: seq<UploadFile>, ids: seq<string>, cid: string)
    returns (r: Reply<ConversionResponse>, fs': Fs)
    requires Valid(fs)
    requires |ids| == |files| && (forall i :: 0 <= i < |ids| ==> FreshId(ids[i])) && FreshId(cid)
    ensures FirstNonPdf(files).Some? ==>
      r == Rejected("File " + FirstNonPdf(files).value + " is not a PDF") && fs' == fs
    ensures r.Fail? ==> r.status == 500
    ensures var paths := SavePaths(Config.TEMP_DIR, ids, files);
      r.Ok? <==> FirstNonPdf(files).None? && AllWritable(fs, paths)
                 && MergedPages(Saved(fs, paths, files), lib, paths).Some?
                 && Writable(fs, OutputPath("merged_" + cid + ".pdf"))
    ensures r.Ok? ==>
      var paths := SavePaths(Config.TEMP_DIR, ids, files);
      var saved := Saved(fs, paths, files);
      var out := OutputPath("merged_" + cid + ".pdf");
      var data := lib.renderPdf(MergedPages(saved, lib, paths).value);
      && fs' == saved.(files := saved.files[out := File(data, fs.clock)] - PathSet(paths))
      && r.body == CompletedResponse("PDFs merged successfully", cid,
                             Some(FileInfo("merged_" + cid + ".pdf", |data|, "pdf", "application/pdf")))
  {
    fs' := fs;
    var bad := CheckAllPdf(files);
    if bad.Some? {
      r := Rejected("File " + bad.value + " is not a PDF");
      return;
    }
    var paths := SavePaths(Config.TEMP_DIR, ids, files);
    var err: Option<Exc>, done: nat;
    err, done, fs' := WriteAll(fs, paths, Contents(files));
    if err.Some? {
      r := Reraise(err.value);
      return;
    }
    var name := "merged_" + cid + ".pdf";
    var out := OutputPath(name);
    var ok;
    ok, fs' := MergePdfs(fs', lib, paths, out);
    if !ok {
      r := Reraise(HttpError(500, "Failed to merge PDFs"));
      return;
    }
    forall i | 0 <= i < |paths|
      ensures paths[i] != out
    {
      TempIsNotOutput(ids[i], files[i].filename, name);
    }
    var size := Size(fs', out).value;
    r := Ok(CompletedResponse("PDFs merged successfully", cid, Some(FileInfo(name, size, "pdf", "application/pdf"))));
  }

  // ---------------------------------------------------------------- split

  /** The disk once the upload has been written to path. */
  function SavedOne(fs: Fs, path: Path, file: UploadFile): Fs
  {
    fs.(files := fs.files[path := File(file.content, fs.clock)])
  }

  /** POST /split.  The input is saved before the page list is parsed, so a malformed
      list leaves it behind; an absent or empty list splits nothing and still succeeds. */
  method Split(fs: Fs, lib: Libraries, file: UploadFile, pages: Option<string>, fileId: string, cid: string)
    returns (r: Reply<ConversionResponse>, fs': Fs)
    requires FreshId(fileId) && FreshId(cid)
    ensures !IsPdfName(file.filename) ==> r == Rejected("File must be a PDF") && fs' == fs
    ensures r.Fail? ==> r.status == 500
    ensures var input := SavePath(Config.TEMP_DIR, fileId, file.filename);
      IsPdfName(file.filename) && Writable(fs, input) && PageList(pages).Failure? ==>
        r == Reraise(PageList(pages).error) && fs' == SavedOne(fs, input, file)
    ensures r.Ok? ==> r.body == CompletedResponse("PDF split successfully", cid, None)
    ensures var input := SavePath(Config.TEMP_DIR, fileId, file.filename);
      var saved := SavedOne(fs, input, file);
      var dir := OutputPath(cid);
      r.Ok? <==>
        && IsPdfName(file.filename) && Writable(fs, input) && PageList(pages).Success?
        && MakeDirs(saved, dir).Success? && ReadPdf(saved, lib, input).Success?
        && PagesWritable(MakeDirs(saved, dir).value, dir, |ReadPdf(saved, lib, input).value|, PageList(pages).value)
    ensures r.Ok? ==>
      var input := SavePath(Config.TEMP_DIR, fileId, file.filename);
      var saved := SavedOne(fs, input, file);
      var dir := OutputPath(cid);
      var made := MakeDirs(saved, dir).value;
      var doc := ReadPdf(saved, lib, input).value;
      fs' == made.(files := (made.files + PageFiles(lib, dir, doc, PageList(pages).value, fs.clock)) - {input})
  {
    fs' := fs;
    if !IsPdfName(file.filename) {
      r := Rejected("File must be a PDF");
      return;
    }
    var input := SavePath(Config.TEMP_DIR, fileId, file.filename);
    match Write(fs, input, file.content)
    case Failure(e) =>
      r := Reraise(e);
      return;
    case Success(saved) =>
      fs' := saved;
    var list := ParsePageList(pages);
    if list.Failure? {
      r := Reraise(list.error);
      return;
    }
    var dir := OutputPath(cid);
    match MakeDirs(fs', dir)
    case Failure(e) =>
      r := Reraise(e);
      return;
    case Success(made) =>
      fs' := made;
    ghost var made := fs';
    assert ReadPdf(made, lib, input) == ReadPdf(SavedOne(fs, input, file), lib, input);
    var ok;
    ok, fs' := SplitPdf(fs', lib, input, dir, Some(list.value));
    if !ok {
      r := Reraise(HttpError(500, "Failed to split PDF"));
      return;
    }
    r := Ok(CompletedResponse("PDF split successfully", cid, None));
  }

  /** With no pages given, the split writes no page file: only the input disappears. */
  lemma SplitWithoutPages(lib: Libraries, dir: Path, doc: seq<Page>, clock: int, pages: Option<string>)
    requires pages.None? || pages == Some("")
    ensures PageList(pages) == Success([])
    ensures PageFiles(lib, dir, doc, PageList(pages).value, clock) == map[]
  {
  }

  // ---------------------------------------------------------------- compress

  /** The checks of compress_pdf, in order. */
  function CompressCheck(filename: string, quality: int): (r: Option<string>)
    ensures r.None? <==> IsPdfName(filename) && 10 <= quality <= 100
  {
    if !IsPdfName(filename) then Some("File must be a PDF")
    else if !(10 <= quality <= 100) then Some("Quality must be between 10 and 100")
    else None
  }

  /** POST /compress as written: after a successful compression it asks for the size of
      the input the service has just removed, so the request always fails. */
  method Compress(fs: Fs, lib: Libraries, file: UploadFile, quality: int, fileId: string, cid: string)
    returns (r: Reply<ConversionResponse>, fs': Fs)
    requires FreshId(fileId) && FreshId(cid)
    ensures r.Fail? && r.status == 500
    ensures CompressCheck(file.filename, quality).Some? ==>
      r == Rejected(CompressCheck(file.filename, quality).value) && fs' == fs
    ensures var input := SavePath(Config.TEMP_DIR, fileId, file.filename);
      var saved := SavedOne(fs, input, file);
      var out := OutputPath("compressed_" + cid + ".pdf");
      CompressCheck(file.filename, quality).None? && Writable(fs, input)
      && ReadPdf(saved, lib, input).Success? && Writable(fs, out) ==>
        && r == Reraise(OsError(2, input))
        && fs' == saved.(files := saved.files[out := File(lib.renderPdf(CompressedPages(ReadPdf(saved, lib, input).value)), fs.clock)]
                                       - {input})
  {
    fs' := fs;
    var check := CompressCheck(file.filename, quality);
    if check.Some? {
      r := Rejected(check.value);
      return;
    }
    var input := SavePath(Config.TEMP_DIR, fileId, file.filename);
    match Write(fs, input, file.content)
    case Failure(e) =>
      r := Reraise(e);
      return;
    case Success(saved) =>
      fs' := saved;
    var name := "compressed_" + cid + ".pdf";
    var out := OutputPath(name);
    var ok;
    ok, fs' := CompressPdf(fs', lib, input, out, quality);
    if !ok {
      r := Reraise(HttpError(500, "Failed to compress PDF"));
      return;
    }
    match Size(fs', input)
    case Failure(e) =>
      r := Reraise(e);
    case Success(original) =>
      assert false;
  }

  /** The answer compress_pdf evidently intends: the original size is taken from the
      upload before the service removes it. */
  method CompressCorrected(fs: Fs, lib: Libraries, file: UploadFile, quality: int, fileId: string, cid: string)
    returns (r: Reply<ConversionResponse>, fs': Fs)
    requires FreshId(fileId) && FreshId(cid)
    ensures r.Fail? ==> r.status == 500
    ensures CompressCheck(file.filename, quality).Some? ==>
      r == Rejected(CompressCheck(file.filename, quality).value) && fs' == fs
    ensures var input := SavePath(Config.TEMP_DIR, fileId, file.filename);
      var saved := SavedOne(fs, input, file);
      var out := OutputPath("compressed_" + cid + ".pdf");
      r.Ok? <==> CompressCheck(file.filename, quality).None? && Writable(fs, input)
                 && ReadPdf(saved, lib, input).Success? && Writable(fs, out) && |file.content| > 0
    ensures r.Ok? ==>
      var input := SavePath(Config.TEMP_DIR, fileId, file.filename);
      var saved := SavedOne(fs, input, file);
      var out := OutputPath("compressed_" + cid + ".pdf");
      var data := lib.renderPdf(CompressedPages(ReadPdf(saved, lib, input).value));
      && fs' == saved.(files := saved.files[out := File(data, fs.clock)] - {input})
      && r.body == CompletedResponse("PDF compressed successfully. Size reduced by "
                             + RatioText(|file.content|, |data|).value + "%", cid,
                             Some(FileInfo("compressed_" + cid + ".pdf", |data|, "pdf", "application/pdf")))
  {
    fs' := fs;
    var check := CompressCheck(file.filename, quality);
    if check.Some? {
      r := Rejected(check.value);
      return;
    }
    var input := SavePath(Config.TEMP_DIR, fileId, file.filename);
    match Write(fs, input, file.content)
    case Failure(e) =>
      r := Reraise(e);
      return;
    case Success(saved) =>
      fs' := saved;
    var original := |file.content|;
    var name := "compressed_" + cid + ".pdf";
    var out := OutputPath(name);
    var ok;
    ok, fs' := CompressPdf(fs', lib, input, out, quality);
    if !ok {
      r := Reraise(HttpError(500, "Failed to compress PDF"));
      return;
    }
    TempIsNotOutput(fileId, file.filename, name);
    var compressed := Size(fs', out).value;
    match RatioText(original, compressed)
    case None =>
      r := Reraise(External("division by zero"));
    case Some(ratio) =>
      r := Ok(CompletedResponse("PDF compressed successfully. Size reduced by " + ratio + "%", cid,
                        Some(FileInfo(name, compressed, "pdf", "application/pdf"))));
  }

  // ---------------------------------------------------------------- to Word

  /** POST /to-word: the document is converted_{cid}.docx with the Word MIME type. */
  method ToWord(fs: Fs, lib: Libraries, file: UploadFile, fileId: string, cid: string)
    returns (r: Reply<ConversionResponse>, fs': Fs)
    requires FreshId(fileId) && FreshId(cid)
    ensures !IsPdfName(file.filename) ==> r == Rejected("File must be a PDF") && fs' == fs
    ensures r.Fail? ==> r.status == 500
    ensures var input := SavePath(Config.TEMP_DIR, fileId, file.filename);
      var saved := SavedOne(fs, input, file);
      var out := OutputPath("converted_" + cid + ".docx");
      r.Ok? <==> IsPdfName(file.filename) && Writable(fs, input)
                 && (ConverterSucceeds(saved, lib, input, out)
                     || (ReadPdf(saved, lib, input).Success? && Writable(fs, out)))
    ensures r.Ok? ==>
      var out := OutputPath("converted_" + cid + ".docx");
      out in fs'.files
      && r.body == CompletedResponse("PDF converted to Word successfully", cid,
                                     Some(FileInfo("converted_" + cid + ".docx", |fs'.files[out].data|, "docx", DOCX_MIME)))
    ensures var input := SavePath(Config.TEMP_DIR, fileId, file.filename);
      var saved := SavedOne(fs, input, file);
      var out := OutputPath("converted_" + cid + ".docx");
      r.Ok? && ConverterSucceeds(saved, lib, input, out) ==>
        fs' == saved.(files := saved.files[out := File(lib.convertDocx(file.content).value, fs.clock)] - {input})
    ensures var input := SavePath(Config.TEMP_DIR, fileId, file.filename);
      var saved := SavedOne(fs, input, file);
      var out := OutputPath("converted_" + cid + ".docx");
      r.Ok? && !ConverterSucceeds(saved, lib, input, out) ==>
        fs' == saved.(files := saved.files[out := File(lib.renderDocx(TextParagraphs(ReadPdf(saved, lib, input).value)), fs.clock)]
                               - {input})
    ensures var input := SavePath(Config.TEMP_DIR, fileId, file.filename);
      r.Fail? && IsPdfName(file.filename) && Writable(fs, input) ==> fs' == SavedOne(fs, input, file)
    ensures var input := SavePath(Config.TEMP_DIR, fileId, file.filename);
      r.Fail? && !Writable(fs, input) ==> fs' == fs
  {
    fs' := fs;
    if !IsPdfName(file.filename) {
      r := Rejected("File must be a PDF");
      return;
    }
    var input := SavePath(Config.TEMP_DIR, fileId, file.filename);
    match Write(fs, input, file.content)
    case Failure(e) =>
      r := Reraise(e);
      return;
    case Success(saved) =>
      fs' := saved;
    var name := "converted_" + cid + ".docx";
    var out := OutputPath(name);
    var ok;
    ok, fs' := PdfToWord(fs', lib, input, out);
    if !ok {
      r := Reraise(HttpError(500, "Failed to convert PDF to Word"));
      return;
    }
    TempIsNotOutput(fileId, file.filename, name);
    var size := Size(fs', out).value;
    r := Ok(CompletedResponse("PDF converted to Word successfully", cid, Some(FileInfo(name, size, "docx", DOCX_MIME))));
  }
}
