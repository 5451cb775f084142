// The PDF and Word libraries both PDF stacks call (PyPDF2, pdf2docx, python-docx),
// reduced to functions on file contents.  A document is its sequence of pages; what a
// page draws is not modelled, only the text extract_text() finds on it.
module PdfDocs {
  import opened Wrappers
  import opened Strings
  import opened Http
  import opened FileSystem

  /** A page: the text extract_text() returns, its content streams, and whether
      compress_content_streams() has been applied to it. */
  datatype Page = Page(text: string, streams: Bytes, compressed: bool)

  /** The libraries, as functions on bytes.  None stands for the library raising. */
  datatype Libraries = Libraries(
    parsePdf: Bytes -> Option<seq<Page>>,   // PdfReader(path).pages
    renderPdf: seq<Page> -> Bytes,          // PdfWriter.write
    convertDocx: Bytes -> Option<Bytes>,    // pdf2docx Converter.convert
    renderDocx: seq<string> -> Bytes)       // python-docx: one paragraph per string, then save

  /** What PdfWriter writes, PdfReader reads back. */
  ghost predicate Faithful(lib: Libraries)
  {
    forall pages :: lib.parsePdf(lib.renderPdf(pages)) == Some(pages)
  }

  /** `PdfReader(path).pages` */
  function ReadPdf(fs: Fs, lib: Libraries, p: Path): (r: Result<seq<Page>, Exc>)
    ensures r.Success? <==> p in fs.files && lib.parsePdf(fs.files[p].data).Some?
    ensures r.Success? ==> r.value == lib.parsePdf(fs.files[p].data).value
  {
    match Read(fs, p)
    case Failure(e) => Failure(e)
    case Success(data) =>
      match lib.parsePdf(data)
      case None => Failure(External("PdfReadError"))
      case Some(pages) => Success(pages)
  }

  /** A file written with the pages reads back as those pages. */
  lemma ReadWritten(fs: Fs, lib: Libraries, p: Path, pages: seq<Page>)
    requires Faithful(lib) && Writable(fs, p)
    ensures Write(fs, p, lib.renderPdf(pages)).Success?
    ensures ReadPdf(Write(fs, p, lib.renderPdf(pages)).value, lib, p) == Success(pages)
  {
    assert lib.parsePdf(lib.renderPdf(pages)) == Some(pages);
  }

  /** `page.compress_content_streams()` */
  function CompressPage(p: Page): Page
  {
    p.(compressed := true)
  }

  /** The pages a compressing writer receives: every page, in order, compressed. */
  function CompressedPages(pages: seq<Page>): (r: seq<Page>)
    ensures |r| == |pages|
    ensures forall i :: 0 <= i < |r| ==> r[i] == CompressPage(pages[i])
  {
    if pages == [] then []
    else
      var n := |pages| - 1;
      CompressedPages(pages[..n]) + [CompressPage(pages[n])]
  }
}
