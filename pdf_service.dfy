// PDFService (app/services/pdf_service.py): each operation reads its input with
// PdfReader, writes its output, removes the input, and reports success as a Boolean;
// every exception is logged and becomes False.
module PdfService {
  import opened Wrappers
  import opened Strings
  import opened Http
  import opened FileSystem
  import opened PdfDocs

  // ---------------------------------------------------------------- merge

  /** The pages a merging writer receives: each input's pages, in input order; None
      when some input cannot be read. */
  function MergedPages(fs: Fs, lib: Libraries, inputs: seq<Path>): Option<seq<Page>>
  {
    if inputs == [] then Some([])
    else
      var n := |inputs| - 1;
      var front := MergedPages(fs, lib, inputs[..n]);
      var last := ReadPdf(fs, lib, inputs[n]);
      if front.Some? && last.Success? then Some(front.value + last.value) else None
  }

  /** Merging a + b gives a's pages followed by b's; it fails when either part does. */
  lemma {:induction false} MergedPagesAppend(fs: Fs, lib: Libraries, a: seq<Path>, b: seq<Path>)
    ensures MergedPages(fs, lib, a + b) ==
      if MergedPages(fs, lib, a).Some? && MergedPages(fs, lib, b).Some?
      then Some(MergedPages(fs, lib, a).value + MergedPages(fs, lib, b).value)
      else None
  {
    if b == [] {
      assert a + b == a;
      if MergedPages(fs, lib, a).Some? {
        assert MergedPages(fs, lib, a).value + [] == MergedPages(fs, lib, a).value;
      }
    } else {
      var n := |b| - 1;
      MergedPagesAppend(fs, lib, a, b[..n]);
      assert (a + b)[..|a + b| - 1] == a + b[..n];
      assert (a + b)[|a + b| - 1] == b[n];
      var A, B, L := MergedPages(fs, lib, a), MergedPages(fs, lib, b[..n]), ReadPdf(fs, lib, b[n]);
      if A.Some? && B.Some? && L.Success? {
        assert (A.value + B.value) + L.value == A.value + (B.value + L.value);
      }
    }
  }

  /** One input merges to its own pages. */
  lemma MergedPagesSingle(fs: Fs, lib: Libraries, p: Path)
    ensures MergedPages(fs, lib, [p]) ==
      if ReadPdf(fs, lib, p).Success? then Some(ReadPdf(fs, lib, p).value) else None
  {
    assert [p][..0] == [];
    if ReadPdf(fs, lib, p).Success? {
      assert [] + ReadPdf(fs, lib, p).value == ReadPdf(fs, lib, p).value;
    }
  }

  /** A merge that reads every input only reads existing files. */
  lemma {:induction false} MergedInputsExist(fs: Fs, lib: Libraries, inputs: seq<Path>)
    requires MergedPages(fs, lib, inputs).Some?
    ensures forall p :: p in inputs ==> p in fs.files
  {
    if inputs != [] {
      var n := |inputs| - 1;
      MergedInputsExist(fs, lib, inputs[..n]);
      assert inputs == inputs[..n] + [inputs[n]];
    }
  }

  /** PDFService.merge_pdfs: the output holds every input's pages in input order, and
      the inputs are removed only after it has been written; otherwise nothing changes. */
  method MergePdfs(fs: Fs, lib: Libraries, inputs: seq<Path>, output: Path) returns (ok: bool, fs': Fs)
    requires Valid(fs)
    ensures ok <==> MergedPages(fs, lib, inputs).Some? && Writable(fs, output)
    ensures ok ==> fs' == fs.(files := fs.files[output := File(lib.renderPdf(MergedPages(fs, lib, inputs).value), fs.clock)]
                                        - PathSet(inputs))
    ensures !ok ==> fs' == fs
  {
    fs' := fs;
    ok := false;
    var pages: seq<Page> := [];
    var i := 0;
    while i < |inputs|
      invariant 0 <= i <= |inputs|
      invariant MergedPages(fs, lib, inputs[..i]) == Some(pages)
    {
      var doc := ReadPdf(fs, lib, inputs[i]);
      assert inputs[..i + 1][..i] == inputs[..i];
      if doc.Failure? {
        MergedPagesAppend(fs, lib, inputs[..i + 1], inputs[i + 1..]);
        assert inputs[..i + 1] + inputs[i + 1..] == inputs;
        return;
      }
      pages := pages + doc.value;
      i := i + 1;
    }
    assert inputs[..i] == inputs;
    match Write(fs, output, lib.renderPdf(pages))
    case Failure(_) =>
      return;
    case Success(written) =>
      MergedInputsExist(fs, lib, inputs);
      var err;
      err, fs' := RemoveEach(written, inputs);
      if err.Some? {
        assert false;
      }
      ok := true;
  }

  // ---------------------------------------------------------------- split

  /** `os.path.join(output_dir, f"page_{page_num}.pdf")` */
  function PagePath(dir: Path, n: int): Path
  {
    PathJoin(dir, "page_" + IntToString(n) + ".pdf")
  }

  /** The page numbers split works through: the given list, or 1..total for None. */
  function Selected(pages: Option<seq<int>>, total: nat): (r: seq<int>)
    ensures pages.None? ==> |r| == total && forall i :: 0 <= i < total ==> r[i] == i + 1
  {
    match pages
    case Some(ns) => ns
    case None => seq(total, i => i + 1)
  }

  /** The files split writes for the numbers in nums: page_{n}.pdf holding page n, for
      every n within 1..|doc|; a repeated number rewrites the same file. */
  function PageFiles(lib: Libraries, dir: Path, doc: seq<Page>, nums: seq<int>, clock: int): map<Path, File>
  {
    if nums == [] then map[]
    else
      var k := |nums| - 1;
      var n := nums[k];
      var m := PageFiles(lib, dir, doc, nums[..k], clock);
      if 1 <= n <= |doc| then m[PagePath(dir, n) := File(lib.renderPdf([doc[n - 1]]), clock)] else m
  }

  /** Every page file split would write can be opened for writing. */
  predicate PagesWritable(fs: Fs, dir: Path, total: nat, nums: seq<int>)
  {
    forall i :: 0 <= i < |nums| && 1 <= nums[i] <= total ==> Writable(fs, PagePath(dir, nums[i]))
  }

  /** The writability check, one number further. */
  lemma PagesWritableStep(fs: Fs, dir: Path, total: nat, nums: seq<int>, i: nat)
    requires i < |nums|
    ensures PagesWritable(fs, dir, total, nums[..i + 1]) <==>
      PagesWritable(fs, dir, total, nums[..i]) && (1 <= nums[i] <= total ==> Writable(fs, PagePath(dir, nums[i])))
    ensures 1 <= nums[i] <= total && !Writable(fs, PagePath(dir, nums[i])) ==> !PagesWritable(fs, dir, total, nums)
  {
    assert forall j :: 0 <= j < i ==> nums[..i + 1][j] == nums[..i][j];
  }

  /** Distinct page numbers name distinct page files. */
  lemma PagePathInjective(dir: Path, n: nat, m: nat)
    requires dir != [] && dir[|dir| - 1] != '/'
    requires PagePath(dir, n) == PagePath(dir, m)
    ensures n == m
  {
    var s, t := NatToString(n), NatToString(m);
    var a, b := "page_" + s + ".pdf", "page_" + t + ".pdf";
    assert PathJoin(dir, a) == dir + "/" + a;
    assert PathJoin(dir, b) == dir + "/" + b;
    assert |a| == |b|;
    assert s == a[5..|a| - 4] && t == b[5..|b| - 4];
    assert a == (dir + "/" + a)[|dir| + 1..];
    assert b == (dir + "/" + b)[|dir| + 1..];
    ParseNatToString(n);
    ParseNatToString(m);
  }

  /** page_{n}.pdf is written exactly for the n in nums within 1..|doc|, and holds page n
      alone. */
  lemma {:induction false} PageFilesContent(lib: Libraries, dir: Path, doc: seq<Page>, nums: seq<int>, clock: int, n: nat)
    requires dir != [] && dir[|dir| - 1] != '/'
    ensures PagePath(dir, n) in PageFiles(lib, dir, doc, nums, clock) <==> n in nums && 1 <= n <= |doc|
    ensures PagePath(dir, n) in PageFiles(lib, dir, doc, nums, clock) ==>
      PageFiles(lib, dir, doc, nums, clock)[PagePath(dir, n)] == File(lib.renderPdf([doc[n - 1]]), clock)
  {
    if nums != [] {
      var k := |nums| - 1;
      PageFilesContent(lib, dir, doc, nums[..k], clock, n);
      assert nums == nums[..k] + [nums[k]];
      var last := nums[k];
      if 1 <= last <= |doc| && PagePath(dir, n) == PagePath(dir, last) {
        PagePathInjective(dir, n, last);
      }
    }
  }

  /** Every key of the split output is a page file. */
  lemma {:induction false} PageFilesKeys(lib: Libraries, dir: Path, doc: seq<Page>, nums: seq<int>, clock: int, p: Path)
    requires p in PageFiles(lib, dir, doc, nums, clock)
    ensures exists n :: n in nums && 1 <= n <= |doc| && p == PagePath(dir, n)
  {
    var k := |nums| - 1;
    if p != PagePath(dir, nums[k]) || !(1 <= nums[k] <= |doc|) {
      PageFilesKeys(lib, dir, doc, nums[..k], clock, p);
      var n :| n in nums[..k] && 1 <= n <= |doc| && p == PagePath(dir, n);
      assert n in nums;
    }
  }

  /** One more number: the write loop's step. */
  lemma PageFilesStep(lib: Libraries, dir: Path, doc: seq<Page>, nums: seq<int>, clock: int,
                      files: map<Path, File>, i: nat)
    requires i < |nums|
    ensures var m := files + PageFiles(lib, dir, doc, nums[..i], clock);
      files + PageFiles(lib, dir, doc, nums[..i + 1], clock) ==
        if 1 <= nums[i] <= |doc| then m[PagePath(dir, nums[i]) := File(lib.renderPdf([doc[nums[i] - 1]]), clock)]
        else m
  {
    assert nums[..i + 1][..i] == nums[..i];
    var before := PageFiles(lib, dir, doc, nums[..i], clock);
    if 1 <= nums[i] <= |doc| {
      var f := File(lib.renderPdf([doc[nums[i] - 1]]), clock);
      assert files + before[PagePath(dir, nums[i]) := f] == (files + before)[PagePath(dir, nums[i]) := f];
    }
  }

  /** Writes the page files, stopping at the first write that raises. */
  method WritePages(fs: Fs, lib: Libraries, dir: Path, doc: seq<Page>, nums: seq<int>)
    returns (err: Option<Exc>, fs': Fs)
    ensures fs'.dirs == fs.dirs && fs'.clock == fs.clock
    ensures err.None? <==> PagesWritable(fs, dir, |doc|, nums)
    ensures err.None? ==> fs'.files == fs.files + PageFiles(lib, dir, doc, nums, fs.clock)
  {
    fs' := fs;
    err := None;
    var i := 0;
    while i < |nums|
      invariant 0 <= i <= |nums|
      invariant fs'.dirs == fs.dirs && fs'.clock == fs.clock
      invariant fs'.files == fs.files + PageFiles(lib, dir, doc, nums[..i], fs.clock)
      invariant PagesWritable(fs, dir, |doc|, nums[..i])
    {
      var n := nums[i];
      if 1 <= n <= |doc| {
        WriteByDirs(fs, fs', PagePath(dir, n), lib.renderPdf([doc[n - 1]]));
        match Write(fs', PagePath(dir, n), lib.renderPdf([doc[n - 1]]))
        case Failure(e) =>
          PagesWritableStep(fs, dir, |doc|, nums, i);
          err := Some(e);
          return;
        case Success(next) =>
          PageFilesStep(lib, dir, doc, nums, fs.clock, fs.files, i);
          fs' := next;
      } else {
        PageFilesStep(lib, dir, doc, nums, fs.clock, fs.files, i);
      }
      PagesWritableStep(fs, dir, |doc|, nums, i);
      i := i + 1;
    }
    assert nums[..i] == nums;
  }

  /** PDFService.split_pdf: page_{n}.pdf for each listed number within the document (all
      pages for None); out-of-range numbers are skipped; the input is removed and the
      result is True even when no page file was written. */
  method SplitPdf(fs: Fs, lib: Libraries, input: Path, outputDir: Path, pages: Option<seq<int>>)
    returns (ok: bool, fs': Fs)
    ensures ReadPdf(fs, lib, input).Failure? ==> !ok && fs' == fs
    ensures ok <==> ReadPdf(fs, lib, input).Success?
                    && PagesWritable(fs, outputDir, |ReadPdf(fs, lib, input).value|,
                                     Selected(pages, |ReadPdf(fs, lib, input).value|))
    ensures ok ==>
      var doc := ReadPdf(fs, lib, input).value;
      fs' == fs.(files := (fs.files + PageFiles(lib, outputDir, doc, Selected(pages, |doc|), fs.clock)) - {input})
    ensures fs'.dirs == fs.dirs
  {
    fs' := fs;
    ok := false;
    var read := ReadPdf(fs, lib, input);
    if read.Failure? {
      return;
    }
    var doc := read.value;
    var nums := Selected(pages, |doc|);
    var err;
    err, fs' := WritePages(fs, lib, outputDir, doc, nums);
    if err.Some? {
      return;
    }
    match RemoveIfExists(fs', input)
    case Failure(_) =>
      assert false;
    case Success(next) =>
      fs' := next;
      ok := true;
  }

  // ---------------------------------------------------------------- compress

  /** The writer loop: `for page in reader.pages: page.compress_content_streams();
      writer.add_page(page)`. */
  method CompressEach(pages: seq<Page>) returns (out: seq<Page>)
    ensures out == CompressedPages(pages)
  {
    out := [];
    var i := 0;
    while i < |pages|
      invariant 0 <= i <= |pages|
      invariant out == CompressedPages(pages[..i])
    {
      assert pages[..i + 1][..i] == pages[..i];
      out := out + [CompressPage(pages[i])];
      i := i + 1;
    }
    assert pages[..i] == pages;
  }

  /** PDFService.compress_pdf: the output holds the same pages in the same order, each
      compressed, and the input is removed afterwards; quality is not used. */
  method CompressPdf(fs: Fs, lib: Libraries, input: Path, output: Path, quality: int)
    returns (ok: bool, fs': Fs)
    ensures ok <==> ReadPdf(fs, lib, input).Success? && Writable(fs, output)
    ensures ok ==>
      fs' == fs.(files := fs.files[output := File(lib.renderPdf(CompressedPages(ReadPdf(fs, lib, input).value)), fs.clock)]
                           - {input})
    ensures !ok ==> fs' == fs
  {
    fs' := fs;
    ok := false;
    var read := ReadPdf(fs, lib, input);
    if read.Failure? {
      return;
    }
    var out := CompressEach(read.value);
    match Write(fs, output, lib.renderPdf(out))
    case Failure(_) =>
      return;
    case Success(written) =>
      match RemoveIfExists(written, input)
      case Failure(_) =>
        assert false;
      case Success(next) =>
        fs' := next;
        ok := true;
  }

  // ---------------------------------------------------------------- to Word

  /** The paragraphs of the fallback document: the text of every page whose stripped text
      is non-empty (NonBlank), in page order. */
  function TextParagraphs(pages: seq<Page>): (r: seq<string>)
    ensures |r| <= |pages|
    ensures forall i :: 0 <= i < |r| ==> NonBlank(r[i])
  {
    if pages == [] then []
    else
      var n := |pages| - 1;
      var front := TextParagraphs(pages[..n]);
      if NonBlank(pages[n].text) then front + [pages[n].text] else front
  }

  /** The paragraphs of a + b are a's followed by b's. */
  lemma {:induction false} TextParagraphsAppend(a: seq<Page>, b: seq<Page>)
    ensures TextParagraphs(a + b) == TextParagraphs(a) + TextParagraphs(b)
  {
    if b == [] {
      assert a + b == a;
    } else {
      var n := |b| - 1;
      TextParagraphsAppend(a, b[..n]);
      assert (a + b)[..|a + b| - 1] == a + b[..n];
      assert (a + b)[|a + b| - 1] == b[n];
    }
  }

  /** A page with text gives one paragraph of that text; a blank page none. */
  lemma TextParagraphsSingle(p: Page)
    ensures TextParagraphs([p]) == if NonBlank(p.text) then [p.text] else []
  {
    assert [p][..0] == [];
  }

  /** The fallback loop: `if text.strip(): doc.add_paragraph(text)` for every page. */
  method FallbackParagraphs(pages: seq<Page>) returns (paras: seq<string>)
    ensures paras == TextParagraphs(pages)
  {
    paras := [];
    var i := 0;
    while i < |pages|
      invariant 0 <= i <= |pages|
      invariant paras == TextParagraphs(pages[..i])
    {
      assert pages[..i + 1][..i] == pages[..i];
      var text := pages[i].text;
      if NonBlank(text) {
        paras := paras + [text];
      }
      i := i + 1;
    }
    assert pages[..i] == pages;
  }

  /** pdf2docx succeeds: it opens the input and writes the output it produces. */
  predicate ConverterSucceeds(fs: Fs, lib: Libraries, input: Path, output: Path)
  {
    input in fs.files && lib.convertDocx(fs.files[input].data).Some? && Writable(fs, output)
  }

  /** PDFService.pdf_to_word: pdf2docx's document when it succeeds; otherwise the
      fallback document of the pages' texts; the input is removed after either. */
  method PdfToWord(fs: Fs, lib: Libraries, input: Path, output: Path) returns (ok: bool, fs': Fs)
    ensures ConverterSucceeds(fs, lib, input, output) ==>
      ok && fs' == fs.(files := fs.files[output := File(lib.convertDocx(fs.files[input].data).value, fs.clock)] - {input})
    ensures !ConverterSucceeds(fs, lib, input, output) ==>
      (ok <==> ReadPdf(fs, lib, input).Success? && Writable(fs, output))
    ensures !ConverterSucceeds(fs, lib, input, output) && ok ==>
      fs' == fs.(files := fs.files[output := File(lib.renderDocx(TextParagraphs(ReadPdf(fs, lib, input).value)), fs.clock)]
                           - {input})
    ensures !ok ==> fs' == fs
  {
    fs' := fs;
    ok := false;
    if ConverterSucceeds(fs, lib, input, output) {
      var written := Write(fs, output, lib.convertDocx(fs.files[input].data).value).value;
      match RemoveIfExists(written, input)
      case Failure(_) =>
        assert false;
      case Success(next) =>
        fs' := next;
        ok := true;
      return;
    }
    // the fallback
    var read := ReadPdf(fs, lib, input);
    if read.Failure? {
      return;
    }
    var paras := FallbackParagraphs(read.value);
    match Write(fs, output, lib.renderDocx(paras))
    case Failure(_) =>
      return;
    case Success(written) =>
      match RemoveIfExists(written, input)
      case Failure(_) =>
        assert false;
      case Success(next) =>
        fs' := next;
        ok := true;
  }

  // ---------------------------------------------------------------- text

  /** The text extract_text accumulates: each page's text followed by a newline. */
  function PagesText(pages: seq<Page>): string
  {
    if pages == [] then ""
    else
      var n := |pages| - 1;
      PagesText(pages[..n]) + pages[n].text + "\n"
  }

  /** The text of a + b is a's text followed by b's. */
  lemma {:induction false} PagesTextAppend(a: seq<Page>, b: seq<Page>)
    ensures PagesText(a + b) == PagesText(a) + PagesText(b)
  {
    if b == [] {
      assert a + b == a;
    } else {
      var n := |b| - 1;
      PagesTextAppend(a, b[..n]);
      assert (a + b)[..|a + b| - 1] == a + b[..n];
      assert (a + b)[|a + b| - 1] == b[n];
    }
  }

  /** One line per page: the text holds one more character per page than the pages'
      texts together. */
  lemma {:induction false} PagesTextLines(pages: seq<Page>)
    ensures |PagesText(pages)| == TextLength(pages) + |pages|
  {
    if pages != [] {
      PagesTextLines(pages[..|pages| - 1]);
    }
  }

  function TextLength(pages: seq<Page>): nat
  {
    if pages == [] then 0 else TextLength(pages[..|pages| - 1]) + |pages[|pages| - 1].text|
  }

  /** PDFService.extract_text: the pages' texts, each followed by a newline, or "" when
      the input cannot be read. */
  method ExtractText(fs: Fs, lib: Libraries, input: Path) returns (text: string)
    ensures ReadPdf(fs, lib, input).Success? ==> text == PagesText(ReadPdf(fs, lib, input).value)
    ensures ReadPdf(fs, lib, input).Failure? ==> text == ""
  {
    var read := ReadPdf(fs, lib, input);
    if read.Failure? {
      return "";
    }
    var pages := read.value;
    text := "";
    var i := 0;
    while i < |pages|
      invariant 0 <= i <= |pages|
      invariant text == PagesText(pages[..i])
    {
      assert pages[..i + 1][..i] == pages[..i];
      text := text + pages[i].text + "\n";
      i := i + 1;
    }
    assert pages[..i] == pages;
  }
}
