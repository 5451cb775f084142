# zap file-conversion API: a Dafny model of its request handling

zap is a file-conversion web API with two parts:

- the versioned application under `app/`: PDF, image, video and audio endpoints, the core registry endpoints, and Clerk authentication;
- the backend under `backend/`: a PDF router with OCR and an audio router built on ffmpeg.

Every conversion is a single call into a library (PyPDF2, pdf2docx, pydub, moviepy, Pillow, OpenCV, rembg, pytesseract) or into an ffmpeg or ffprobe process. This model covers the repository's own logic around those calls and proves what it does:

- which requests are refused, with which status and in which order;
- where uploads are saved and what the outputs are named;
- what each handler leaves on the disk, whichever way it ends;
- how the page, segment and tone sequences are combined;
- the integer geometry of the image operations and the lookup tables;
- the string handling and caches of authentication;
- the fall-back paths of the backend helpers.

## How the model is built

- **The disk** is a value `FileSystem.Fs`: a map from path to file (its bytes and a time stamp), the set of directories, and a clock. A handler method takes the disk as it was before the request and returns it as it is afterwards. The predicates `Kept`, `WroteOnly`, `Within` and `LeftNothing` state what may change.
- **State held in place** is modelled as classes with `modifies` clauses. There are two cases: the module-level registries in `app/api/v1/endpoints/core.py` (`CoreApi.Registry`) and the two caches of `ClerkAuthService`.
- **Libraries and tools** are records of total functions, passed as parameters. A library's result is `None` where the library raises. Examples: PyPDF2 reading a document as a sequence of pages, ffprobe reporting streams and a duration, and the availability of pytesseract or ffmpeg.
- **uuid4()** is an oracle: each fresh id is a parameter, constrained only to look like a uuid.
- **FastAPI outcomes** are `Http.Reply`: a body, or a status with a detail. The `except Exception` clauses that re-raise as 500 are modelled exactly, so a 400 raised inside a `try` reaches the client as 500.
- **Python built-ins** are written out in `Strings` and `FileSystem`: `str.lower` and `str.upper` (for ASCII letters only), `str.split`, `int()` (for ASCII digits), `os.path.splitext`, `os.path.join`, `os.remove`, `shutil.copy2` and `shutil.rmtree`. Their errors follow POSIX (ENOENT, EISDIR).
- **Times, durations and fades** are exact reals. Page numbers, pixel sizes and byte counts are unbounded integers, which Python's own integers are too.
- **Loops.** Where the source loops (save loops, clean-up loops, page writers, the bitrate search, the concat list), the model has a method with a `while` loop. That method is proved against a function that states the result.

## Model

| member | source | states |
|---|---|---|
| CoreApi.UploadPath | app/api/v1/endpoints/core.py:44 | an upload is stored directly in UPLOAD_DIR under the name `{file_id}_{filename}` |
| CoreApi.UploadInfo | app/api/v1/endpoints/core.py:49-54 | the recorded FileInfo keeps the name and byte count, its format is the lower-cased extension without the dot, and the mime type is the content type or application/octet-stream when that is empty |
| CoreApi.Registry.constructor | app/api/v1/endpoints/core.py:23-24 | both module-level dictionaries start empty |
| CoreApi.Registry.Upload | app/api/v1/endpoints/core.py:26-70 | an oversize body yields the 413 re-raised as 500 with nothing written; success iff the size is within MAX_FILE_SIZE and the path is writable, and then exactly the bytes are written and exactly one upload_storage entry is added under the fresh id; the conversion registry never changes |
| CoreApi.Registry.Download | app/api/v1/endpoints/core.py:72-101 | unknown id gives 404 "Conversion not found", a status other than completed gives 400, success iff completed with an existing output path, which is served as application/octet-stream under the stored filename or "converted_file" |
| CoreApi.Registry.Progress | app/api/v1/endpoints/core.py:103-125 | unknown id gives 404; otherwise answers the stored status with progress defaulting to 0 and message defaulting to "Processing...", and fails with 500 exactly when the status is missing or not a ConversionStatus value |
| CoreApi.Registry.ActiveIds | app/api/v1/endpoints/core.py:178-181 | the active conversions are exactly the entries whose status is pending or processing |
| CoreApi.Registry.Stats | app/api/v1/endpoints/core.py:154-191 | total_conversions is the registry size, total_files_processed the upload_storage size, active_conversions the number of pending or processing entries (never more than the total); a missing status is a 500 |
| CoreApi.EmptyRegistryNotFound | app/api/v1/endpoints/core.py:79-110 | as nothing inserts into conversion_status_storage, every download and progress query ends in 404 and the statistics report zero conversions |
| CoreApi.OlderFiles | app/api/v1/endpoints/core.py:210-212 | the candidates are listed regular files whose ctime lies before the cutoff |
| CoreApi.StaleMembers | app/api/v1/endpoints/core.py:210-212 | a path is stale exactly when it is a regular file directly in the directory with ctime before the cutoff |
| CoreApi.RemoveOlder | app/api/v1/endpoints/core.py:210-214 | the listing loop removes exactly the older regular files and counts exactly them |
| CoreApi.ClearTemp | app/api/v1/endpoints/core.py:200-202 | a missing TEMP_DIR is left alone; a regular file in its place makes rmtree raise NotADirectoryError |
| CoreApi.WorkingDirNames | app/core/config.py:26-28 | TEMP_DIR lies in the working directory and UPLOAD_DIR and OUTPUT_DIR are outside it |
| CoreApi.ClearTempDirectory | app/api/v1/endpoints/core.py:200-202 | rmtree then makedirs leaves every file and directory outside TEMP_DIR and TEMP_DIR itself empty |
| CoreApi.CleanDir | app/api/v1/endpoints/core.py:209-214 | one directory pass removes and counts exactly its stale files; a missing directory is skipped; a regular file in its place raises NotADirectoryError |
| CoreApi.CleanWorkingDirs | app/api/v1/endpoints/core.py:207-214 | the two passes over UPLOAD_DIR and OUTPUT_DIR remove the union of their stale files and count its size |
| CoreApi.Cleanup | app/api/v1/endpoints/core.py:193-222 | on a disk with the three directories: TEMP_DIR is emptied, exactly the regular files directly in UPLOAD_DIR and OUTPUT_DIR older than a day are removed, subdirectories stay, and the message names exactly that count; any failure is a 500 |
| CoreApi.WorkingDirsApart | app/core/config.py:26-28 | files directly in UPLOAD_DIR or OUTPUT_DIR are outside TEMP_DIR and outside each other |
| CoreApi.StaleSameEntries | app/api/v1/endpoints/core.py:210-212 | which files are stale depends only on the files directly in the directory |
| CoreApi.PassesDisjoint | app/api/v1/endpoints/core.py:208-214 | the UPLOAD_DIR pass does not change what the OUTPUT_DIR pass sees, so the two counts add up |
| CoreApi.StaleOutsideTemp | app/api/v1/endpoints/core.py:200-214 | emptying TEMP_DIR first does not change which upload and output files expire |
| CoreApi.TempRecreated | app/api/v1/endpoints/core.py:201-202 | after rmtree and makedirs the directories are those outside TEMP_DIR plus TEMP_DIR itself |
| CoreApi.Validate | app/api/v1/endpoints/core.py:241-283 | size strictly above MAX_FILE_SIZE is refused first (equal passes); accepted iff within size and the lower-cased extension is in the union of the four format lists; the answer is data, never an HTTP error |
| CoreApi.ValidateIgnoresCase | app/api/v1/endpoints/core.py:258-266 | an extension validates exactly as its lower-cased form does |
| Schemas.ParseStatus | app/models/schemas.py:45-49 | a string is a ConversionStatus exactly when it is one of pending, processing, completed, failed, and then the member's value is that string |
| Schemas.StatusRoundTrip | app/models/schemas.py:45-49 | every status is recovered from its value, and distinct statuses have distinct values |
| Schemas.FormatRoundTrip | app/models/schemas.py:11-43 | every FileFormat value is lower-case and parses back to its member |
| Schemas.ParseFormatSound | app/models/schemas.py:11-43 | a string that parses to a member is that member's value |
| Schemas.FormatValuesDistinct | app/models/schemas.py:11-43 | no two FileFormat members share a value |
| Schemas.PdfGroupIsSupported | app/models/schemas.py:12-13 | a member's value is in SUPPORTED_PDF_FORMATS exactly when it is declared in the PDF group |
| Schemas.ImageGroupIsSupported | app/models/schemas.py:15-22 | a member's value is in SUPPORTED_IMAGE_FORMATS exactly when it is declared in the image group |
| Schemas.AudioGroupIsSupported | app/models/schemas.py:24-30 | a member's value is in SUPPORTED_AUDIO_FORMATS exactly when it is declared in the audio group |
| Schemas.VideoGroupIsSupported | app/models/schemas.py:32-38 | a member's value is in SUPPORTED_VIDEO_FORMATS exactly when it is declared in the video group |
| Schemas.AllFormatsAreNonOffice | app/models/schemas.py:40-43 | a member's value is in the union of the four format lists exactly when it is not a document format |
| Schemas.ConversionResponseDefaults | app/models/schemas.py:78-83 | a ConversionResponse built without the optional fields has progress 0, no download_url and no file_info |
| Schemas.NewPdfCompressRequest | app/models/schemas.py:102-104 | valid iff quality is omitted or within 10..100; an omitted quality is 80; a failure names the quality field |
| Schemas.NewVideoCompressRequest | app/models/schemas.py:134-137 | valid iff quality is omitted or within 10..100; an omitted quality is 75 and an omitted target size is None |
| Schemas.NewImageConvertRequest | app/models/schemas.py:140-143 | valid iff quality is omitted, None or within 10..100; an omitted quality is 95 |
| Schemas.UserResponseErrors | app/models/schemas.py:175-180 | the failing fields are exactly the missing required ones, created_at last |
| Schemas.NewUserResponse | app/models/schemas.py:175-180 | valid iff id, email and created_at are given; a missing created_at is a validation error naming it, which is why /me (app/api/v1/endpoints/auth.py:39-48) always fails |
| Uploads.SavePath | app/api/v1/endpoints/pdf.py:40 | an upload is saved as `{dir}/{file_id}_{filename}` |
| Uploads.JoinPrefix | app/api/v1/endpoints/pdf.py:40 | os.path.join of a directory and a relative name puts one separator between them |
| Uploads.SavePathApart | app/api/v1/endpoints/pdf.py:39-40 | uploads saved under distinct fresh ids never share a path |
| Uploads.TempIsNotOutput | app/api/v1/endpoints/pdf.py:40-51 | a saved upload in TEMP_DIR is never an output in OUTPUT_DIR |
| Uploads.DownloadUrl | app/api/v1/endpoints/pdf.py:72 | the download link is /api/v1/core/download/ followed by exactly the conversion id |
| Uploads.CompletedResponse | app/api/v1/endpoints/pdf.py:66-74 | a completed conversion answers success, status completed, progress 100 and the conversion's download link |
| Uploads.QualityCheck | app/api/v1/endpoints/image.py:270-271 | the quality check passes exactly for 10..100 inclusive |
| Uploads.TrimCheck | app/api/v1/endpoints/video.py:157-161 | the trim check passes iff start is non-negative and a given end is strictly greater; a negative start is reported first |
| Uploads.SameTypeInfo | app/api/v1/endpoints/image.py:114-130 | the output is named `{op}_{cid}{ext}` with the dot, and reports the extension without the dot as format and as the MIME subtype |
| Uploads.Produced | app/services/image_service.py:57-65 | after the service wrote the output and removed the input, the output holds the bytes made and the input is gone |
| Uploads.SavePaths | app/api/v1/endpoints/pdf.py:37-46 | one save path per upload, in upload order |
| Uploads.SavePathsDistinct | app/api/v1/endpoints/pdf.py:37-46 | the save loop's paths are pairwise distinct when the ids are |
| Uploads.Contents | app/api/v1/endpoints/pdf.py:42-44 | the bytes written for each upload, in upload order |
| Uploads.RatioText | app/api/v1/endpoints/pdf.py:174 | the compression ratio is undefined (ZeroDivisionError) exactly when the original size is 0 |
| PdfApi.IntOf | app/api/v1/endpoints/pdf.py:108-111 | int() of a page token succeeds exactly on decimal text and yields its value; anything else raises a ValueError naming the token |
| PdfApi.Range | app/api/v1/endpoints/pdf.py:109 | range(a, b) holds b - a consecutive integers starting at a, and nothing when a >= b |
| PdfApi.ParsePageList | app/api/v1/endpoints/pdf.py:104-111 | the parsing loop of split_pdf computes the page-list specification: each comma part in order, stopping with the error of the first part that raises |
| PdfApi.CollectParts | app/api/v1/endpoints/pdf.py:106-111 | extending the list part by part equals collecting all parts at once |
| PdfApi.CollectFails | app/api/v1/endpoints/pdf.py:106-111 | once a prefix of the parts raises, the whole parse raises that same error |
| PdfApi.CollectAppend | app/api/v1/endpoints/pdf.py:106-111 | the pages of two concatenated part lists are the first list's pages followed by the second's |
| PdfApi.CollectSingle | app/api/v1/endpoints/pdf.py:106-111 | a single part collects to exactly its own pages |
| PdfApi.PageListCons | app/api/v1/endpoints/pdf.py:105-111 | "p,rest" lists p's pages and then rest's pages, keeping order and repetitions |
| PdfApi.PartOfNumber | app/api/v1/endpoints/pdf.py:110-111 | a part that is a number names that one page |
| PdfApi.PartOfRange | app/api/v1/endpoints/pdf.py:107-109 | "a-b" names the pages a to b inclusive, in order, and no page when a > b |
| PdfApi.RangePart | app/api/v1/endpoints/pdf.py:107-109 | any two integer tokens around a single '-' name the inclusive range between them |
| PdfApi.IntOfNat | app/api/v1/endpoints/pdf.py:108 | int(str(n)) == n for every natural n |
| PdfApi.ThreeValuedPart | app/api/v1/endpoints/pdf.py:108 | "a-b-c" fails the two-value unpacking, so the request fails |
| PdfApi.ThreePart | app/api/v1/endpoints/pdf.py:108 | any part with three integer pieces fails the unpacking "expected 2" |
| PdfApi.OpenStartPart | app/api/v1/endpoints/pdf.py:108 | "-3" fails with int("") rather than meaning a negative or open range |
| PdfApi.LetterPart | app/api/v1/endpoints/pdf.py:111 | a non-numeric part fails with int() of that part |
| PdfApi.FirstNonPdf | app/api/v1/endpoints/pdf.py:32-34 | none iff every upload name ends in ".pdf" in any case; otherwise the earliest offending name |
| PdfApi.CheckAllPdf | app/api/v1/endpoints/pdf.py:32-34 | the validation loop finds exactly the earliest upload that is not a PDF |
| PdfApi.MergeOfSaved | app/api/v1/endpoints/pdf.py:37-46 | reading back the saved copies yields each upload's own pages in upload order when no two save paths coincide |
| PdfApi.MergeOfUploads | app/api/v1/endpoints/pdf.py:37-54 | with distinct fresh ids the merged document holds the uploads' pages in upload order |
| PdfApi.Merge | app/api/v1/endpoints/pdf.py:22-79 | a non-PDF name gives 400 "File X is not a PDF" (re-raised as 500) with nothing written; success iff all names are PDFs, all save paths writable, every saved input parses and merged_{cid}.pdf is writable; then the merged file of the uploads' pages is the only new file, the inputs are gone, and the response carries size, "pdf" and application/pdf; every failure is 500 |
| PdfApi.Split | app/api/v1/endpoints/pdf.py:81-134 | a non-PDF name is rejected with nothing written; a malformed page list fails after the upload is saved and leaves it behind; success iff the input saves, the list parses, the output directory can be made, the input parses and every page file is writable; the response has no file_info |
| PdfApi.SplitWithoutPages | app/api/v1/endpoints/pdf.py:104-105 | an absent or empty page list parses to no pages, and the split then writes no page file |
| PdfApi.CompressCheck | app/api/v1/endpoints/pdf.py:147-152 | validation passes iff the name ends in ".pdf" in any case and 10 <= quality <= 100, the name check first |
| PdfApi.Compress | app/api/v1/endpoints/pdf.py:136-196 | as written the route can never succeed: when compression succeeds the service has removed the input, so the size query of line 172 raises ENOENT and the output is left behind; rejected inputs write nothing |
| PdfApi.CompressCorrected | app/api/v1/endpoints/pdf.py:170-191 | with the original size taken before the input is removed, success iff validation passes, the input saves and parses, the output is writable and the upload is not empty; then the compressed file is the only new one and the input is removed |
| PdfApi.ToWord | app/api/v1/endpoints/pdf.py:198-249 | a non-PDF name is rejected with nothing written; success iff the input saves and either the converter or the text fallback writes converted_{cid}.docx; on success the disk is the saved disk with the upload removed and the output holding pdf2docx's document, or else the document of the non-blank page texts; a failure after the save leaves the saved upload on the disk; the response describes the output with the Word MIME type |
| PdfService.MergedPagesAppend | app/services/pdf_service.py:26-29 | merging a + b yields a's pages followed by b's, and fails when either part fails to read |
| PdfService.MergedPagesSingle | app/services/pdf_service.py:27-29 | one input merges to exactly its own pages |
| PdfService.MergedInputsExist | app/services/pdf_service.py:26-27 | a merge that reads every input has only read existing files |
| PdfService.MergePdfs | app/services/pdf_service.py:19-43 | True iff every input reads and the output is writable; then the output holds all inputs' pages in input order and the inputs are removed after it is written; on False nothing changes |
| PdfService.Selected | app/services/pdf_service.py:53-55 | pages None means the numbers 1..total in order; a given list is used as is |
| PdfService.PagesWritableStep | app/services/pdf_service.py:57-64 | the page-write loop succeeds on one more number iff it did before and that number, when in range, names a writable file; one unwritable in-range page fails the whole split |
| PdfService.PagePathInjective | app/services/pdf_service.py:62 | distinct page numbers name distinct page_{n}.pdf files |
| PdfService.PageFilesContent | app/services/pdf_service.py:57-64 | page_{n}.pdf is written exactly for the listed n within 1..total and holds page n alone; a repeated n rewrites the same file |
| PdfService.PageFilesKeys | app/services/pdf_service.py:57-64 | no file other than a listed in-range page file is written |
| PdfService.PageFilesStep | app/services/pdf_service.py:57-64 | each loop step writes page_{n}.pdf for an in-range n and skips an out-of-range n silently |
| PdfService.WritePages | app/services/pdf_service.py:57-64 | the write loop leaves the directories alone and succeeds iff every in-range page file is writable, having then written exactly the page files |
| PdfService.SplitPdf | app/services/pdf_service.py:45-74 | fails with nothing changed when the input cannot be read; otherwise True iff every in-range page file is writable, and then the page files are added and the input removed, even when no page was written |
| PdfService.CompressEach | app/services/pdf_service.py:84-87 | the writer loop compresses every page and keeps count and order |
| PdfService.CompressPdf | app/services/pdf_service.py:76-100 | True iff the input reads and the output is writable; then the output holds the same pages in order, each compressed, and the input is removed; quality plays no part; on False nothing changes |
| PdfService.TextParagraphs | app/services/pdf_service.py:132-135 | the fallback document has at most one paragraph per page and every paragraph has non-blank text |
| PdfService.TextParagraphsAppend | app/services/pdf_service.py:132-135 | the paragraphs of a + b are a's followed by b's |
| PdfService.TextParagraphsSingle | app/services/pdf_service.py:133-135 | a page whose stripped text is non-empty gives one paragraph of its unstripped text, a blank page none |
| PdfService.FallbackParagraphs | app/services/pdf_service.py:132-135 | the fallback loop collects exactly those paragraphs, in page order |
| PdfService.PdfToWord | app/services/pdf_service.py:102-148 | when pdf2docx produces the output its document is kept; otherwise True iff the input reads and the output is writable, with the paragraph document of the pages' texts; the input is removed after either success; on False nothing changes |
| PdfService.PagesTextAppend | app/services/pdf_service.py:197-198 | the text of a + b is a's text followed by b's |
| PdfService.PagesTextLines | app/services/pdf_service.py:197-198 | the text has exactly one character more per page than the pages' texts together: one newline each |
| PdfService.ExtractText | app/services/pdf_service.py:189-204 | the pages' texts each followed by a newline, in page order, or "" when the input cannot be read |
| PdfDocs.ReadPdf | app/services/pdf_service.py:27 | reading a path succeeds iff the file exists and its bytes parse as a PDF, and then yields the parsed pages |
| PdfDocs.ReadWritten | app/services/pdf_service.py:31-32 | under a faithful PDF library, pages written to a writable path read back as exactly those pages |
| PdfDocs.CompressedPages | app/services/pdf_service.py:84-87 | a compressing writer receives every page, in order, each compressed: the page count is kept |
| PdfUtils.CommonPaths | backend/helpers/pdf_utils.py:29-34 | four fixed Windows install locations, each a C: path, with the user name spliced into the third |
| PdfUtils.FirstExisting | backend/helpers/pdf_utils.py:46-48 | some path exists iff the answer is present, and then it is the first existing one in list order |
| PdfUtils.CheckTesseractInstallation | backend/helpers/pdf_utils.py:25-50 | installed iff a path is returned; tesseract on PATH is reported as "tesseract", otherwise the first existing common location |
| PdfUtils.SetupTesseractPath | backend/helpers/pdf_utils.py:52-65 | False when pytesseract is missing; ready iff pytesseract imports and Tesseract is installed; tesseract_cmd is set exactly when the found path is not the PATH one |
| PdfUtils.GetTesseractDownloadInfo | backend/helpers/pdf_utils.py:67-102 | a download url exactly for Windows and macOS, an installer name exactly for Windows, a command exactly for non-Windows systems, and always some instructions |
| PdfUtils.Recognized | backend/helpers/pdf_utils.py:152-158 | the psm 6 text, or, when it is blank, the psm 8 retry; a raising first attempt raises |
| PdfUtils.ReportedNonBlank | backend/helpers/pdf_utils.py:160 | text with non-space content is returned stripped and non-empty |
| PdfUtils.ReportedBlank | backend/helpers/pdf_utils.py:155-160 | a whitespace-only retry is returned as "", and only an empty one as "No text detected in the image." |
| PdfUtils.NotInstalledMessage | backend/helpers/pdf_utils.py:123-128 | the message raised without pytesseract mentions OCR |
| PdfUtils.NotReadyMessage | backend/helpers/pdf_utils.py:131-138 | the message raised when Tesseract is not found mentions OCR |
| PdfUtils.NotOnPathMessage | backend/helpers/pdf_utils.py:162-169 | the message for TesseractNotFoundError mentions Tesseract |
| PdfUtils.OcrFailure | backend/helpers/pdf_utils.py:162-173 | whichever handler catches a failure inside the OCR try block, the text of the raised exception mentions OCR |
| PdfUtils.UnreadableImage | backend/helpers/pdf_utils.py:143-144 | an unreadable image is re-raised by the generic handler with a text that mentions OCR |
| PdfUtils.OcrRead | backend/helpers/pdf_utils.py:140-173 | succeeds iff the image reads and recognition succeeds, with the reported text of the recognised one; every failure mentions OCR |
| PdfUtils.OcrAnswer | backend/helpers/pdf_utils.py:119-173 | the not-installed error without pytesseract, the not-found error when setup fails, success iff both checks pass and the image reads and is recognised; every raised error mentions OCR |
| PdfUtils.OcrFromImage | backend/helpers/pdf_utils.py:119-173 | the method threads the availability checks, setup_tesseract_path and the OCR into exactly that answer |
| PdfUtils.Extend | backend/helpers/pdf_utils.py:111-113 | the append loop leaves the items in order after those already there |
| PdfUtils.PageTexts | backend/helpers/pdf_utils.py:111-113 | one string per page, the page's extracted text, in page order |
| PdfUtils.ExtractTextFromPdf | backend/helpers/pdf_utils.py:104-117 | succeeds iff the PDF reads, with its page texts; otherwise the error is wrapped as "Error extracting text from PDF: ..." |
| PdfUtils.EncryptPdf | backend/helpers/pdf_utils.py:187-206 | succeeds iff the input reads and the output is writable, writing all pages in order encrypted with the password and returning the output path; a failure writes nothing and is wrapped "Error encrypting PDF: ..." |
| PdfUtils.ExtractTextFromDocx | backend/helpers/pdf_utils.py:208-219 | succeeds iff the document parses, with every paragraph's text in order; otherwise wrapped "Error extracting text from DOCX: ..." |
| PdfUtils.ConvertDocxToPdf | backend/helpers/pdf_utils.py:221-227 | succeeds iff the input converts and the output is writable, adding only the output; otherwise wrapped "Error converting DOCX to PDF: ..." |
| PdfUtils.MergePdfs | backend/helpers/pdf_utils.py:229-244 | succeeds iff every input reads and the output is writable; the output holds all inputs' pages in input order and the inputs stay; a failure writes nothing and is wrapped "Error merging PDFs: ..." |
| PdfUtils.RangeOfPositive | backend/helpers/pdf_utils.py:254-257 | a range (s, e) with s >= 1 selects the 0-based pages s-1 up to min(e, n)-1, empty when e < s or s > n |
| PdfUtils.RangeFromZero | backend/helpers/pdf_utils.py:256-257 | a range starting at 0 begins with the last page, by Python negative indexing |
| PdfUtils.RangeWriter | backend/helpers/pdf_utils.py:255-257 | the inner add_page loop collects exactly the range's selection |
| PdfUtils.PartPaths | backend/helpers/pdf_utils.py:259-269 | one output path per range, or per page when no ranges are given |
| PdfUtils.PartContentsAt | backend/helpers/pdf_utils.py:255-271 | the bytes of part i are the rendering of that part's pages |
| PdfUtils.PartWriter | backend/helpers/pdf_utils.py:255-267 | a part's writer holds the range's pages, or the single page |
| PdfUtils.WriteParts | backend/helpers/pdf_utils.py:252-274 | the write loop succeeds iff every range selects and every path is writable, returning all paths; on a failure, the parts already written stay on disk |
| PdfUtils.WritePart | backend/helpers/pdf_utils.py:254-261 | one part of the loop: no error iff its range selects pages and its path can be written; then the disk holds one more part, otherwise it is unchanged |
| PdfUtils.SplitPdf | backend/helpers/pdf_utils.py:246-276 | succeeds iff the input reads, every part selects and every part path is writable, returning the part paths in order with their contents written; failures are wrapped "Error splitting PDF: ..." and only part paths are ever written |
| PdfUtils.SplitPageFile | backend/helpers/pdf_utils.py:263-272 | without ranges, page_{k}.pdf holds page k alone for every page k |
| PdfUtils.CompressAttempt | backend/helpers/pdf_utils.py:280-327 | the try block writes every page compressed in order and then succeeds iff the input is not empty, since the ratio divides by its size |
| PdfUtils.CompressPdf | backend/helpers/pdf_utils.py:278-336 | the compressed copy when that succeeds; otherwise the input copied to the output, failing only when the copy fails, with "Error compressing PDF: ..."; a missing input always fails with nothing written |
| PdfUtils.UnlockFallback | backend/helpers/pdf_utils.py:358-383 | succeeds iff the input reads, the output is writable and the file is not encrypted or the password decrypts it; the output then holds all pages in order |
| PdfUtils.UnlockPdf | backend/helpers/pdf_utils.py:338-383 | without pikepdf, the PyPDF2 fallback; a pikepdf password error gives "Invalid password provided for PDF unlock"; success changes only the output file |
| PdfUtils.UnlockFallbackPages | backend/helpers/pdf_utils.py:369-371 | the fallback's copy loop gives exactly the fallback's result |
| PdfUtils.EncryptThenUnlock | backend/helpers/pdf_utils.py:187-206 | unlocking a file encrypted with the same password gives back exactly its pages |
| PdfUtils.WrongPasswordRejected | backend/helpers/pdf_utils.py:363-381 | with the fallback, an encrypted file and a wrong password fail with the invalid-password message |
| PdfUtils.Stamped | backend/helpers/pdf_utils.py:403-406 | every template page merged with the watermark page, keeping count and order |
| PdfUtils.WatermarkPdf | backend/helpers/pdf_utils.py:385-415 | succeeds iff both files read, the watermark has a page and the output is writable; a watermark without pages fails with "Watermark PDF has no pages"; the output reads back as the stamped pages, as many as the template's |
| PdfRoutes.UploadPath | backend/routes/pdf_routes.py:26-69 | a relative name joins below uploads/ with one separator |
| PdfRoutes.UploadPathsApart | backend/routes/pdf_routes.py:69 | names of different lengths never share a path under uploads/ |
| PdfRoutes.Saved | backend/routes/pdf_routes.py:69 | the saved name `{file_id}_{filename}` is a relative, non-empty name |
| PdfRoutes.Without | backend/routes/pdf_routes.py:89-91 | removing the existing ones of a list of paths deletes every listed file and nothing else, and leaves the directories |
| PdfRoutes.Abort | backend/routes/pdf_routes.py:191-196 | the except clause removes the listed paths that exist and re-raises its reply; only a removal that raises (a directory) changes the answer, into a plain server error |
| PdfRoutes.AbortWritten | backend/routes/pdf_routes.py:294-299 | after a save loop wrote only the listed paths, the clean-up leaves no new file behind and answers the reply |
| PdfRoutes.AbortSaved | backend/routes/pdf_routes.py:191-196 | after the upload was saved and a helper wrote at most the output, the clean-up leaves no new file behind |
| PdfRoutes.Serve | backend/routes/pdf_routes.py:177-196 | the input is removed and the output served when the helper and the removal succeed; otherwise both files are removed and the error is answered with 500 |
| PdfRoutes.Unavailable | backend/routes/pdf_routes.py:102-161 | the 503 detail carries the error, the message and this system's non-empty installation instructions |
| PdfRoutes.HealthCheck | backend/routes/pdf_routes.py:36-59 | pdf_services is always "operational"; the OCR status is "operational" exactly when pytesseract imports and Tesseract is found; the path is present exactly when installed; instructions and download_url are added exactly when not operational |
| PdfRoutes.ExtractText | backend/routes/pdf_routes.py:61-92 | a non-PDF name is refused with 400 before saving; success iff the upload saves and parses, answering every page's text and all of them joined by "\n\n" with total_pages the page count; the upload is gone afterwards; every other failure is 500 |
| PdfRoutes.Classify | backend/routes/pdf_routes.py:146-164 | a failure whose text mentions tesseract or ocr, in any case, is 503; any other is 500 |
| PdfRoutes.FirstExistingAfterWrite | backend/routes/pdf_routes.py:113-130 | saving an upload elsewhere does not change which Tesseract location is found first |
| PdfRoutes.InstalledAfterSave | backend/routes/pdf_routes.py:113-133 | saving the upload under uploads/ does not change whether Tesseract counts as installed |
| PdfRoutes.OcrImage | backend/routes/pdf_routes.py:94-164 | a name without an image suffix gets 400, a missing pytesseract or executable gets 503, all three before saving; success iff the upload saves and is recognised, answering the text, its length and whether it is non-blank; once saved, every OCR failure is 503 |
| PdfRoutes.OcrImageAt | backend/routes/pdf_routes.py:126-164 | after both availability checks, success iff the save and the OCR succeed, every failure after the save is 503, and the upload does not remain |
| PdfRoutes.OcrSaved | backend/routes/pdf_routes.py:133-164 | on the saved upload, success iff the OCR succeeds, its failures are 503, and the upload is removed either way |
| PdfRoutes.Encrypt | backend/routes/pdf_routes.py:166-196 | a non-PDF name is refused with 400 before saving; success iff the upload saves, parses and the output encrypted_{id}_{name} is writable; it is served as encrypted_{name} with the input removed; a failure leaves no new file |
| PdfRoutes.DocxToPdfAt | backend/routes/pdf_routes.py:208-227 | after the name check, success iff the upload saves, converts and the output is writable; the converted output replaces the input, and a failure leaves no new file |
| PdfRoutes.ReplaceDocxShrinks | backend/routes/pdf_routes.py:206 | replacing ".docx" by ".pdf" in a name that holds it makes the name shorter |
| PdfRoutes.DocxToPdf | backend/routes/pdf_routes.py:198-227 | as written: success iff the upload saves, docx2pdf converts it and the output is writable; the disk afterwards is the old one plus the output, with the upload removed; a name that holds ".docx" gives its converted document, while one whose suffix is spelt otherwise (".DOCX") keeps its name, so the output is the input and its removal deletes the served file; a failure removes both the upload and the output and leaves no new file |
| PdfRoutes.UpperCaseDocxKeepsItsName | backend/routes/pdf_routes.py:201-206 | "REPORT.DOCX" passes the suffix check and comes out of the replacement unchanged |
| PdfRoutes.PdfName | backend/routes/pdf_routes.py:206-220 | the intended output name replaces the checked suffix in any case by ".pdf" |
| PdfRoutes.DocxToPdfFixed | backend/routes/pdf_routes.py:198-227 | with that name the output is never the upload and a successful request always serves the converted document |
| PdfRoutes.ExtractTextDocx | backend/routes/pdf_routes.py:229-258 | a non-DOCX name is refused with 400 before saving; success iff the upload saves and parses, answering every paragraph and all joined by "\n\n"; the upload is gone afterwards |
| PdfRoutes.CheckAllPdf | backend/routes/pdf_routes.py:266-268 | the name loop accepts iff every upload is named as a PDF |
| PdfRoutes.MergeInput | backend/routes/pdf_routes.py:277 | upload i is saved as `{file_id}_{i}_{filename}` under uploads/ |
| PdfRoutes.MergeInputs | backend/routes/pdf_routes.py:276-279 | one save path per upload, in upload order |
| PdfRoutes.MergeInputsDistinct | backend/routes/pdf_routes.py:277 | the uploads of one merge never share a save path, whatever their names |
| PdfRoutes.OutputApart | backend/routes/pdf_routes.py:174 | an output named by a prefix such as merged_ or encrypted_ is never the path an upload is saved at |
| PdfRoutes.UploadedPagesSome | backend/routes/pdf_routes.py:282 | the merge reads its inputs exactly when every upload is a readable PDF |
| PdfRoutes.MergedOfSaved | backend/routes/pdf_routes.py:276-282 | merging the saved uploads reads back the uploads' own pages in order |
| PdfRoutes.MergeAt | backend/routes/pdf_routes.py:274-299 | after the checks, success iff every save path and the output are writable and every upload parses; then the inputs are removed and the output holds all pages in upload order; a failure leaves no new file |
| PdfRoutes.MergeSaved | backend/routes/pdf_routes.py:281-299 | once all uploads are saved, success iff they merge and the output is writable; a failure leaves no new file |
| PdfRoutes.Merge | backend/routes/pdf_routes.py:260-299 | fewer than two files or any non-PDF name is 400 with nothing written; success iff all saves, the merge and the output write succeed, served as merged_document.pdf from merged_{id}.pdf with the inputs removed; every other failure is 500 and leaves no new file |
| PdfRoutes.SplitDir | backend/routes/pdf_routes.py:309 | the output directory is uploads/split_{id} |
| PdfRoutes.Basenames | backend/routes/pdf_routes.py:328 | one base name per output file, in order |
| PdfRoutes.PageFileIn | backend/routes/pdf_routes.py:328 | a page file lies below the directory and its base name is page_{k}.pdf |
| PdfRoutes.SplitCleanup | backend/routes/pdf_routes.py:332-339 | the clean-up removes the upload and, when it exists, the whole output directory tree |
| PdfRoutes.SplitMade | backend/routes/pdf_routes.py:315-339 | once the upload is saved and the directory made, success iff the upload parses and every page file is writable, answering page_{k}.pdf for every page with its count and message; a failure leaves no new file |
| PdfRoutes.SplitServed | backend/routes/pdf_routes.py:317-328 | after a successful split and the removal of the upload, every page file holds its page and the names answered are page_1.pdf, page_2.pdf and so on |
| PdfRoutes.SplitLeftNothing | backend/routes/pdf_routes.py:332-339 | after a failed split and its clean-up no file remains that was not there before |
| PdfRoutes.PagesUnder | backend/routes/pdf_routes.py:313-317 | every page file lies strictly below the output directory |
| PdfRoutes.SplitAt | backend/routes/pdf_routes.py:311-339 | after the name check, success iff the save, the directory creation, the parse and every page write succeed, with one file per page holding that page alone |
| PdfRoutes.Split | backend/routes/pdf_routes.py:301-339 | a non-PDF name is 400 before saving; success iff the save, the directory creation, the parse and every page write succeed, answering one file per page, page_{k}.pdf holding page k alone, with the upload removed; split_type is ignored; every other failure is 500 and leaves no new file |
| PdfRoutes.CompressHeaders | backend/routes/pdf_routes.py:371-375 | three headers, for the original size, the compressed size and the ratio, in that order |
| PdfRoutes.CompressAt | backend/routes/pdf_routes.py:351-382 | after the name check, writable input and output and a non-empty upload always succeed, an empty upload always fails because the ratio divides by its size; the output holds the compressed pages, or the upload's own bytes when it does not parse |
| PdfRoutes.CompressSaved | backend/routes/pdf_routes.py:354-382 | once the upload is saved: the same outcome, the input removed on success and no new file left on failure |
| PdfRoutes.Compress | backend/routes/pdf_routes.py:341-382 | a non-PDF name is 400 before saving; otherwise the outcome above, served as compressed_{name} from compressed_{id}_{name} with both sizes in its headers |
| PdfRoutes.Unlock | backend/routes/pdf_routes.py:384-414 | a non-PDF name is 400 before saving; success iff the upload saves and the unlock succeeds, served as unlocked_{name}, with the disk afterwards the old one plus the output and without the upload, directories unchanged; a pikepdf password error is re-raised as 500 "Invalid password provided for PDF unlock"; a failure leaves no new file |
| ImageApi.ConvertCheck | app/api/v1/endpoints/image.py:31-40 | validation passes iff the target format is a listed image format, matched case-sensitively, and 10 <= quality <= 100; the format check comes first, its detail naming the supported list |
| ImageApi.ConvertIsCaseSensitive | app/api/v1/endpoints/image.py:32 | "JPG" is refused where "jpg" is accepted |
| ImageApi.ResizeCheck | app/api/v1/endpoints/image.py:94-102 | validation passes iff at least one dimension is given and every given one is positive; neither given is "Either width or height must be specified" |
| ImageApi.CropCheck | app/api/v1/endpoints/image.py:160-165 | validation passes iff x, y >= 0 and width, height > 0, the coordinate check first |
| ImageApi.SavedAt | app/api/v1/endpoints/image.py:46-48 | after the save the input path holds exactly the uploaded bytes |
| ImageApi.Convert | app/api/v1/endpoints/image.py:20-80 | a failed check is 400 re-raised as 500 with nothing written; success iff the upload saves, converts and converted_{cid}.{fmt} is writable; the output replaces the input and the response describes it as {fmt}, image/{fmt} with the upper-cased format in the message; every failure is 500 |
| ImageApi.ConvertAt | app/api/v1/endpoints/image.py:42-77 | from the save on: the output's size iff save, conversion and output write succeed, and the state is then the produced one |
| ImageApi.Resize | app/api/v1/endpoints/image.py:82-145 | a failed check is re-raised as 500 with nothing written; success iff the upload saves, resizes and resized_{cid}{ext} is writable, with the format the extension without its dot; every failure is 500 |
| ImageApi.ResizeAt | app/api/v1/endpoints/image.py:104-142 | from the save on: the output's size iff save, resize and output write succeed |
| ImageApi.Crop | app/api/v1/endpoints/image.py:147-206 | a failed check is re-raised as 500 with nothing written; success iff the upload saves, crops and cropped_{cid}{ext} is writable; every failure is 500 |
| ImageApi.CropAt | app/api/v1/endpoints/image.py:167-203 | from the save on: the output's size iff save, crop and output write succeed |
| ImageApi.CropDefaultsAccepted | app/api/v1/endpoints/image.py:151-154 | the default rectangle 0, 0, 100, 100 passes the checks |
| ImageApi.RemoveBackground | app/api/v1/endpoints/image.py:208-255 | a failed save is re-raised as 500; otherwise success iff the service reports success and no_bg_{cid}.png exists, described as png, image/png |
| ImageApi.Removal | app/services/image_service.py:137-149 | when the rembg session produces output and it can be written, the service succeeds with exactly that output |
| ImageApi.RemoveBackgroundAt | app/api/v1/endpoints/image.py:217-252 | from the save on: the output's size iff the service reports success and the output exists |
| ImageApi.FallbackWithoutOutput | app/services/image_service.py:147-171 | without a rembg session, an OpenCV fallback that cannot write the output still reports success, and the output is missing |
| ImageApi.CompressAt | app/api/v1/endpoints/image.py:273-290 | the save and the service call succeed iff the save, the compression and the output write succeed, leaving the produced state |
| ImageApi.Compress | app/api/v1/endpoints/image.py:257-318 | as written the route never succeeds: a quality outside 10..100 is rejected with nothing written, and after a successful compression the size query of the removed input raises ENOENT |
| ImageApi.CompressCorrected | app/api/v1/endpoints/image.py:292-313 | with the original size taken from the upload, success iff the quality is valid, the upload saves and compresses, the output is writable and the upload is not empty |
| ImageService.Open | app/services/image_service.py:39-79 | opening succeeds iff the bytes decode as a picture, which then has the decoded size |
| ImageService.Trunc | app/services/image_service.py:86-90 | int() of a non-negative exact quotient is its floor |
| ImageService.Resize | app/services/image_service.py:98 | Pillow resizes iff both sides are at least one pixel, giving exactly that size |
| ImageService.ResizeByWidth | app/services/image_service.py:83-86 | only the width given, with the aspect kept: the width as given and the height oh*w/ow rounded down |
| ImageService.ResizeByHeight | app/services/image_service.py:87-90 | only the height given, with the aspect kept: the height as given and the width ow*h/oh rounded down |
| ImageService.ResizeFits | app/services/image_service.py:91-95 | both sides given with the aspect kept: one ratio scales both, so the result fits within width x height and reaches one of the two bounds |
| ImageService.ResizeVerbatim | app/services/image_service.py:82-98 | without aspect preservation the sides pass through unchanged, and the computation fails exactly when one is missing |
| ImageService.CropBox | app/services/image_service.py:126 | the box is (x, y, x + width, y + height) |
| ImageService.Crop | app/services/image_service.py:129 | Pillow crops iff right >= left and bottom >= top, giving a picture the size of the box |
| ImageService.CropSize | app/services/image_service.py:126-129 | a positive width and height give a picture of exactly that size |
| ImageService.ConvertOptions | app/services/image_service.py:45-53 | quality is passed exactly for jpg, jpeg and webp, optimize exactly for those and png, matched on the lower-cased format |
| ImageService.ForJpeg | app/services/image_service.py:41-42 | JPEG output of an RGBA or palette picture converts it to RGB at the same size; any other picture is left as it is |
| ImageService.CappedFits | app/services/image_service.py:229-240 | capping never enlarges, and a successful cap fits within every positive limit |
| ImageService.NarrowedFits | app/services/image_service.py:232-235 | the width cap never enlarges and keeps the width within a positive limit |
| ImageService.LoweredFits | app/services/image_service.py:237-240 | the height cap, applied to the already narrowed picture, never enlarges and keeps the height within a positive limit |
| ImageService.CappedUntouched | app/services/image_service.py:229-240 | a picture already within both limits is left as it is |
| ImageService.CappedWidthFirst | app/services/image_service.py:232-240 | the width cap precedes the height cap: 1000 x 2000 capped at 500 x 600 ends as 300 x 600 |
| ImageService.CompressOptions | app/services/image_service.py:248-252 | optimize is always passed; quality exactly for .jpg, .jpeg and .webp |
| ImageService.FontSize | app/services/image_service.py:350 | the font size is max(20, W // 30) |
| ImageService.MarkCorners | app/services/image_service.py:361-373 | the four named corners keep a margin of 20 pixels to their two nearest edges |
| ImageService.MarkCentred | app/services/image_service.py:374-376 | any other position string centres the text, rounding toward the top left |
| ImageService.ConvertImage | app/services/image_service.py:27-65 | True iff the input exists, converts and the output is writable; then the output is written and the input removed; on False nothing changes |
| ImageService.ResizeImage | app/services/image_service.py:67-109 | True iff the input exists, resizes to the computed target and the output is writable; then the output is written and the input removed; on False nothing changes |
| ImageService.CropImage | app/services/image_service.py:111-140 | True iff the input exists, crops and the output is writable; then the output is written and the input removed; on False nothing changes |
| ImageService.CompressedBytes | app/services/image_service.py:227-254 | the step-by-step reassignment of the picture computes the compressed output |
| ImageService.CompressImage | app/services/image_service.py:215-264 | True iff the input exists, compresses and the output is writable; then the output is written and the input removed; on False nothing changes |
| ImageService.MarkAlpha | app/services/image_service.py:378-379 | the text fill's alpha is int(255 · opacity), truncated, within 0..255 for an opacity within 0..1 |
| ImageService.DefaultAlpha | app/services/image_service.py:335 | the default opacity 0.7 gives alpha 178 |
| ImageService.AddWatermark | app/services/image_service.py:329-402 | True iff the input exists, is watermarked (the text at its position with alpha int(255 · opacity), opacity 0.7 by default) and the output is writable; then the output is written and the input removed; on False nothing changes |
| ImageService.RemoveBackground | app/services/image_service.py:142-171 | the rembg session's output when there is a session that produces one and the output is writable, with the input removed; otherwise the OpenCV fallback |
| ImageService.SimpleRemoval | app/services/image_service.py:173-213 | True iff the input exists and GrabCut succeeds, and then the input is removed even when imwrite could not write the output |
| VideoApi.ConvertCheck | app/api/v1/endpoints/video.py:33-41 | validation passes iff the target format is a listed video format and the quality is "low", "medium" or "high"; the format check comes first, its detail naming the supported list |
| VideoApi.ConvertAdmitsOnlyPresets | app/api/v1/endpoints/video.py:40-41 | a request that passes the checks always names one of the three presets |
| VideoApi.GifCheck | app/api/v1/endpoints/video.py:218-225 | validation passes iff start >= 0, a given duration is positive and 1 <= fps <= 30, the start check first |
| VideoApi.Convert | app/api/v1/endpoints/video.py:21-83 | a failed check is 400 re-raised as 500 with nothing written; success iff the upload saves, converts and converted_{cid}.{fmt} is writable, described as {fmt}, video/{fmt} with the upper-cased format in the message; every failure is 500 |
| VideoApi.ConvertAt | app/api/v1/endpoints/video.py:43-80 | from the save on: the output's size iff save, conversion and output write succeed |
| VideoApi.CompressAt | app/api/v1/endpoints/video.py:100-115 | the save and the service call succeed iff the save, the compression and the output write succeed |
| VideoApi.Compress | app/api/v1/endpoints/video.py:86-143 | as written the route never succeeds: a quality outside 10..100 is rejected with nothing written, and after a successful compression the size query of the removed input raises ENOENT |
| VideoApi.CompressCorrected | app/api/v1/endpoints/video.py:117-138 | with the original size taken from the upload, success iff the quality is valid, the upload saves and compresses, the output is writable and the upload is not empty |
| VideoApi.Trim | app/api/v1/endpoints/video.py:146-202 | a negative start or an end not after the start is rejected with nothing written; success iff the upload saves, trims and trimmed_{cid}{ext} is writable; every failure is 500 |
| VideoApi.TrimAt | app/api/v1/endpoints/video.py:163-199 | from the save on: the output's size iff save, trim and output write succeed |
| VideoApi.ToGif | app/api/v1/endpoints/video.py:205-267 | a failed check is re-raised as 500 with nothing written; success iff the upload saves, converts and converted_{cid}.gif is writable, described as gif, image/gif |
| VideoApi.ToGifAt | app/api/v1/endpoints/video.py:227-264 | from the save on: the output's size iff save, conversion and output write succeed |
| VideoService.Open | app/services/video_service.py:29 | loading succeeds iff the bytes probe as a video, and then carries the probed clip |
| VideoService.Preset | app/services/video_service.py:37-47 | an unknown quality name gets the 1000k bitrate |
| VideoService.PresetsOrdered | app/services/video_service.py:37-47 | low 500k < medium 1000k < high 2000k, and any unknown name gets medium's bitrate |
| VideoService.ParseResolution | app/services/video_service.py:32-33 | a resolution parses only when it splits on 'x' into exactly two parts |
| VideoService.ResolutionRoundTrip | app/services/video_service.py:33 | "{w}x{h}" parses back to (w, h) |
| VideoService.ResolutionNeedsSeparator | app/services/video_service.py:33 | a resolution without an 'x' is refused: the call returns False |
| VideoService.ConvertedClip | app/services/video_service.py:29-34 | no resolution, or an empty one, keeps the loaded clip; a given one succeeds iff it parses |
| VideoService.ConvertVideo | app/services/video_service.py:16-59 | True iff the input exists, converts and the output is writable; then the output is written and the input removed; on False nothing changes |
| VideoService.ThresholdsAreSortedKeys | app/services/video_service.py:82-89 | the search visits every key of the bitrate map once, largest first |
| VideoService.StepRateMonotone | app/services/video_service.py:82-92 | from quality 10 up, a higher quality never gets a lower bitrate |
| VideoService.StepRateEnds | app/services/video_service.py:83-92 | quality below 10 keeps the 1000k default, 100 and above get 2000k, 10 to 19 get 50k |
| VideoService.QualityBitrate | app/services/video_service.py:88-92 | the search loop yields the map value of the largest key the quality reaches, or the default |
| VideoService.SizeRate | app/services/video_service.py:76-79 | the target-size bitrate is defined iff the duration is non-zero, and then never exceeds the target size over the duration |
| VideoService.CompressRate | app/services/video_service.py:76-92 | a truthy target size overrides the quality; None or 0 uses the quality search |
| VideoService.CompressVideo | app/services/video_service.py:61-112 | True iff the input exists, compresses and the output is writable; then the output is written and the input removed; on False nothing changes |
| VideoService.TrimRange | app/services/video_service.py:128-133 | the cut starts at start and ends at the given end, or at the video's duration when none is given |
| VideoService.TrimDefaultEnd | app/services/video_service.py:129-130 | leaving out the end is the same as asking for the video's own duration |
| VideoService.TrimVideo | app/services/video_service.py:114-153 | True iff the input exists, trims and the output is writable; then the output is written and the input removed; on False nothing changes |
| VideoService.LoadAll | app/services/video_service.py:164 | loading all inputs gives one clip per input, and every input exists |
| VideoService.LoadAllInOrder | app/services/video_service.py:164 | the i-th clip is loaded from the i-th input |
| VideoService.MergeVideos | app/services/video_service.py:155-190 | an empty list is refused before anything loads; otherwise True iff every input loads and the output is writable; then the output is written and only then every input removed |
| VideoService.GifRange | app/services/video_service.py:209-213 | with a duration the cut is start..start+duration; without one it ends at the earlier of ten seconds past the start and the end of the video |
| VideoService.GifTenSeconds | app/services/video_service.py:209-210 | a video that runs at least ten seconds past the start gives exactly ten seconds |
| VideoService.VideoToGif | app/services/video_service.py:192-232 | True iff the input exists, converts and the output is writable; then the output is written and the input removed; on False nothing changes |
| VideoService.ExtractAudio | app/services/video_service.py:234-258 | True iff the input exists, has audio that exports and the output is writable; then the output is written and the input removed |
| VideoService.Placement | app/services/video_service.py:285-294 | the four corner names map to their corner, and any other string to the centre |
| VideoService.PlacementDefaults | app/services/video_service.py:265-294 | the default position is the bottom-right corner, and names are matched exactly: "Bottom-Right" is centred |
| VideoService.AddWatermark | app/services/video_service.py:260-318 | True iff the input exists, is watermarked and the output is writable; then the output is written and the input removed |
| AudioApi.FormatCheck | app/api/v1/endpoints/audio.py:33-37 | the format passes iff it is a listed audio format; otherwise the detail names the supported list |
| AudioApi.VolumeCheck | app/api/v1/endpoints/audio.py:212-213 | the change passes iff -50 <= change <= 50, both ends included |
| AudioApi.VolumeAction | app/api/v1/endpoints/audio.py:241 | "increased" exactly for a positive change, "decreased" for a negative one, "maintained" for zero |
| AudioApi.Magnitude | app/api/v1/endpoints/audio.py:245 | abs(change) is non-negative and is the change or its negation |
| AudioApi.VolumeMessageSymmetric | app/api/v1/endpoints/audio.py:241-245 | changes of opposite sign report the same amount under opposite verbs |
| AudioApi.Convert | app/api/v1/endpoints/audio.py:21-79 | an unsupported format is 400 re-raised as 500 with nothing written; bitrate and sample rate are not checked; success iff the upload saves, the audio library is available, the conversion succeeds and converted_{cid}.{fmt} is writable, described as {fmt}, audio/{fmt}; every failure is 500 |
| AudioApi.ConvertAt | app/api/v1/endpoints/audio.py:39-76 | from the save on: the output's size iff save, library availability, conversion and output write all succeed |
| AudioApi.Trim | app/api/v1/endpoints/audio.py:82-138 | a negative start or an end not after the start is rejected with nothing written; success iff the upload saves, is trimmed and trimmed_{cid}{ext} is writable |
| AudioApi.TrimAt | app/api/v1/endpoints/audio.py:99-135 | from the save on: the output's size iff save, availability, trim and output write succeed |
| AudioApi.Merge | app/api/v1/endpoints/audio.py:141-199 | an unsupported format is rejected with nothing written; no minimum count is checked, so an empty list fails in the service; success iff every upload saves under its own id, the uploads join in upload order and merged_{cid}.{fmt} is writable |
| AudioApi.AdjustVolume | app/api/v1/endpoints/audio.py:202-256 | a change outside -50..50 is rejected with nothing written; success iff the upload saves, the volume changes and volume_adjusted_{cid}{ext} is writable, with the message naming the direction and the magnitude |
| AudioApi.AdjustVolumeAt | app/api/v1/endpoints/audio.py:215-253 | from the save on: the output's size iff save, availability, adjustment and output write succeed |
| AudioService.LoadAt | app/services/audio_service.py:122-126 | loading only succeeds on an existing file, and gives the library's segment of its bytes |
| AudioService.FormatOf | app/services/audio_service.py:270-274 | the format of a path has no dot and no separator: it is taken from the last extension only |
| AudioService.FormatOfName | app/services/audio_service.py:270-274 | a name stem.ext gives the lower-cased ext |
| AudioService.Gated | app/services/audio_service.py:40-42 | without the audio library nothing is touched and the result is False; otherwise True iff the input exists, is processed and the output is writable; then the output is written and the input removed |
| AudioService.BitrateArg | app/services/audio_service.py:55-56 | a bitrate is passed as "{bitrate}k" exactly when it is given and non-zero |
| AudioService.ConvertAudio | app/services/audio_service.py:29-69 | without the library False with nothing touched; otherwise True iff the input exists, converts and the output is writable; then the output is written and the input removed |
| AudioService.TrimBounds | app/services/audio_service.py:90-94 | the slice runs from int(start*1000) to int(end*1000) when end is truthy, and to the segment's length otherwise |
| AudioService.TrimBoundsWhole | app/services/audio_service.py:90-91 | whole seconds give whole thousands of milliseconds |
| AudioService.TrimZeroEnd | app/services/audio_service.py:91 | an end of 0.0 is falsy and trims to the end, as no end does |
| AudioService.TrimAudio | app/services/audio_service.py:71-107 | without the library False with nothing touched; otherwise True iff the input exists, trims and the output is writable; then the output is written and the input removed |
| AudioService.Joined | app/services/audio_service.py:122-127 | a successful join has loaded every input from an existing file |
| AudioService.JoinedStep | app/services/audio_service.py:125-127 | one more input appends its frames, and one that does not load fails the join |
| AudioService.JoinedSingle | app/services/audio_service.py:122 | one input joins to its own frames |
| AudioService.JoinedAppend | app/services/audio_service.py:122-127 | joining a + b is joining each and concatenating, in order |
| AudioService.JoinedPrefixFails | app/services/audio_service.py:122-127 | an input that cannot be loaded fails the whole merge |
| AudioService.MergeAudio | app/services/audio_service.py:109-141 | without the library or with no inputs False with nothing touched; otherwise True iff every input loads and the export in the output's format is writable; the output is the first segment followed by each later one in order, and every input is removed only after the export |
| AudioService.AdjustVolume | app/services/audio_service.py:143-169 | without the library False with nothing touched; otherwise True iff the input exists, the gain applies and the output is writable; then the output is written and the input removed |
| AudioService.NormalizeAudio | app/services/audio_service.py:171-197 | without the library False with nothing touched; otherwise the same read, process, write, remove contract |
| AudioService.DefaultFades | app/services/audio_service.py:203-222 | the default one-second fades are 1000 ms each, fade-in applied before fade-out |
| AudioService.FadeInOut | app/services/audio_service.py:199-235 | without the library False with nothing touched; otherwise True iff the input exists, the fades apply and the output is writable; then the output is written and the input removed |
| AudioService.ChangeSpeed | app/services/audio_service.py:237-268 | without the library False with nothing touched; otherwise the same read, process, write, remove contract |
| ClerkAuth.ExtractToken | app/services/clerk_auth.py:163-178 | a missing or empty header is 401 "Authorization header missing"; success iff the header splits on whitespace into exactly two words, the first "bearer" in any case, and the token is then the second word unchanged; anything else is 401 "Invalid authorization header format" |
| ClerkAuth.ExtractTokenRoundTrip | app/services/clerk_auth.py:171-178 | a scheme spelt "bearer" in any case, some whitespace and a token give back that token unchanged |
| ClerkAuth.ExtractTokenThreeWords | app/services/clerk_auth.py:171-176 | a third word, for instance a token with a space in it, is refused |
| ClerkAuth.Padded | app/services/clerk_auth.py:92-95 | padding appends 4 - len % 4 '=' characters when the length is not a multiple of 4, keeps the data as its prefix, and changes nothing otherwise |
| ClerkAuth.ReplaceChar | app/services/clerk_auth.py:98 | replacing one character by another swaps every occurrence and nothing else, keeping the length |
| ClerkAuth.Normalized | app/services/clerk_auth.py:98 | '-' becomes '+' and '_' becomes '/', every other character stays, and the length is kept |
| ClerkAuth.Base64Text | app/services/clerk_auth.py:90-101 | the text handed to the decoder is whole quadruples, the normalised data followed by '=' padding, with no URL-safe character left |
| ClerkAuth.Base64TextOfStandard | app/services/clerk_auth.py:90-101 | standard base64 text of whole quadruples passes unchanged |
| ClerkAuth.FirstMatch | app/services/clerk_auth.py:47-48 | the index of the first key whose kid matches, or none when no key matches |
| ClerkAuth.KeyFromJwks | app/services/clerk_auth.py:47-88 | "key not found" 401 exactly when no key has the kid; success iff the first matching key converts; a conversion failure is 500 |
| ClerkAuth.PublicKeyOutcome | app/services/clerk_auth.py:40-88 | a cached kid is answered from the cache; every failure is an HTTP error 401, 500 or 503 |
| ClerkAuth.EmptyJwksRefetched | app/services/clerk_auth.py:25-32 | an empty key set is stored but is falsy, so the next call fetches again |
| ClerkAuth.Routed | app/services/clerk_auth.py:130-141 | a jwt.InvalidTokenError becomes 401, and any other exception, an HTTPException included, becomes 500 |
| ClerkAuth.HeaderKid | app/services/clerk_auth.py:107-114 | verification goes on exactly when the unverified header reads and has a non-empty kid |
| ClerkAuth.VerifyOutcome | app/services/clerk_auth.py:103-141 | every failure of verify_token is 401 or 500 |
| ClerkAuth.UnauthorizedOnlyForInvalidTokens | app/services/clerk_auth.py:103-141 | a 401 comes only from PyJWT finding the token invalid: an unreadable header, or a signature or issuer that does not check |
| ClerkAuth.KeyErrorsBecome500 | app/services/clerk_auth.py:110-141 | a missing kid and an unknown kid end in 500 "Authentication verification failed", not in the 401 they were raised with |
| ClerkAuth.KeysAfter | app/services/clerk_auth.py:42-75 | the public-key cache only grows, by the requested kid exactly when its key was found, and keeps every earlier entry |
| ClerkAuth.UserInfoOf | app/services/clerk_auth.py:148-159 | the subject is both ids, missing names are "", and the user is active |
| ClerkAuth.Me | app/api/v1/endpoints/auth.py:33-48 | created_at is always None, which UserResponse refuses, so the profile request always ends in 500 naming created_at |
| ClerkAuth.ClerkAuthService.constructor | app/services/clerk_auth.py:19-21 | both caches start empty |
| ClerkAuth.ClerkAuthService.GetJwks | app/services/clerk_auth.py:23-38 | a truthy cache is answered without fetching; otherwise a fetched key set is stored and answered; a failed fetch is 503 "Authentication service unavailable" and leaves the cache; the key cache never changes |
| ClerkAuth.ClerkAuthService.GetPublicKey | app/services/clerk_auth.py:40-88 | answers the outcome above and leaves both caches in the state that outcome implies |
| ClerkAuth.ClerkAuthService.VerifyToken | app/services/clerk_auth.py:103-141 | answers the verification outcome; a token whose header fails the kid check leaves both caches alone |
| ClerkAuth.ClerkAuthService.UserFromToken | app/services/clerk_auth.py:143-161 | the user info of the verified claims, or the verification's error, with the caches as verification leaves them |
| AudioTools.Contents | backend/helpers/audio_utils.py:83 | what an ffmpeg run reads, one entry per input in order: the input's bytes, or nothing when it is not a file |
| AudioTools.Attempt | backend/helpers/audio_utils.py:260-262 | a run without check leaves the disk with exactly the output written when ffmpeg exits zero, and reports a nonzero exit, which an unwritable output also causes, as nothing done |
| AudioTools.Checked | backend/helpers/audio_utils.py:83 | a run with check succeeds exactly when the run without check does, with the same disk; a nonzero exit raises CalledProcessError; success produces the output |
| AudioTools.Retried | backend/helpers/audio_utils.py:260-272 | the first command's result when it exits zero, otherwise the checked second command's; success writes only the output and keeps every other file, directory and the clock |
| AudioTools.AfterDot | backend/helpers/audio_utils.py:320 | the text after the last dot holds no dot and ends the path; a path without a dot is its own extension |
| AudioTools.LastDotOfLower | backend/helpers/audio_utils.py:489 | lower-casing keeps the last dot where it was |
| AudioTools.LowerAfterDot | backend/helpers/audio_utils.py:489 | lower-casing the whole path or only its extension gives the same extension |
| AudioTools.EntriesAppend | backend/helpers/audio_utils.py:88-89 | writing one more path extends the concat list at its end with that path's line |
| AudioTools.EntriesLines | backend/helpers/audio_utils.py:88-89 | the concat list reads back as one `file '<path>'` line per path, in order, when no path holds a line break |
| AudioTools.WriteList | backend/helpers/audio_utils.py:87-89 | the list file is written exactly when its path is writable, holding the entries and nothing else changed |
| AudioTools.Outputs | backend/helpers/audio_utils.py:74-83 | one output per tone command, the bytes that command makes |
| AudioTools.AllMadeNoDirs | backend/helpers/audio_utils.py:74-83 | when every tone can be written, no tone path is a directory |
| AudioTools.AllMadeStep | backend/helpers/audio_utils.py:74-83 | every tone is made exactly when every earlier one is and the next one runs and can be written; one that fails stops the whole |
| AudioTools.RunEach | backend/helpers/audio_utils.py:74-84 | no error exactly when every tone is made, and then all of them are on disk; otherwise the error is the CalledProcessError of the first tone that failed and only the tones before it are on disk |
| AudioUtils.FirstAudio | backend/helpers/audio_utils.py:32-35 | the index of the first stream whose codec_type is audio, every earlier stream not audio, and -1 exactly when no stream is audio |
| AudioUtils.FindAudioStream | backend/helpers/audio_utils.py:32-35 | the loop stops on the first audio stream, as FirstAudio states |
| AudioUtils.InfoAt | backend/helpers/audio_utils.py:20-54 | a failed ffprobe and a file with no audio stream raise "Error getting audio info"; otherwise the first audio stream's channels and rate, the duration in seconds and truncated to whole milliseconds, and the file's size |
| AudioUtils.GetAudioInfo | backend/helpers/audio_utils.py:20-54 | answers InfoAt |
| AudioUtils.ValidateAudioFile | backend/helpers/audio_utils.py:484-502 | without ffmpeg: true iff the lower-cased extension is a supported format; with it: true iff ffprobe succeeds and reports some audio stream |
| AudioUtils.TrimCheck | backend/helpers/audio_utils.py:241-246 | no error iff 0 <= start < end <= duration; otherwise the first failing check's message, in the order negative start, end past duration, start not before end |
| AudioUtils.TrimProbed | backend/helpers/audio_utils.py:241-281 | a failed check leaves the disk; success iff the checks pass and the copy or the re-encode runs, and then the trimmed duration is end - start, positive and at most the duration |
| AudioUtils.TrimAudio | backend/helpers/audio_utils.py:218-284 | no ffmpeg and a failed probe are "Error trimming audio" with the disk unchanged; otherwise the outcome of TrimProbed against the probed duration, errors carrying the same prefix |
| AudioUtils.CodecFor | backend/helpers/audio_utils.py:298-307 | the codec of the lower-cased format when it is listed, libmp3lame otherwise |
| AudioUtils.CodecIgnoresCase | backend/helpers/audio_utils.py:307 | a format in upper, lower or mixed case picks the same codec |
| AudioUtils.ConvertProbed | backend/helpers/audio_utils.py:309-325 | success iff the re-encode runs; the original format reported is the input's extension as written |
| AudioUtils.ConvertAudioFormat | backend/helpers/audio_utils.py:287-327 | no ffmpeg and a failed probe leave the disk; success iff the probe and the re-encode succeed; every failure carries "Error converting audio" and leaves the disk |
| AudioUtils.VolumeProbed | backend/helpers/audio_utils.py:340-359 | success iff the volume filter runs, reporting the change asked for and the probed duration |
| AudioUtils.AdjustVolume | backend/helpers/audio_utils.py:330-361 | no ffmpeg and a failed probe leave the disk; success iff the probe and the run succeed; every failure carries "Error adjusting volume" and leaves the disk |
| AudioUtils.FadeFilters | backend/helpers/audio_utils.py:437-442 | a fade-in iff fade_in > 0, a fade-out iff fade_out > 0 that starts fade_out before the end, the fade-in first, and none iff both are not positive |
| AudioUtils.FadeProbed | backend/helpers/audio_utils.py:437-471 | no fades means a stream copy; otherwise the filter holds exactly the fades asked for; success iff the run succeeds |
| AudioUtils.AddFadeEffects | backend/helpers/audio_utils.py:426-473 | no ffmpeg and a failed probe leave the disk; success reports the fades and the probed duration and writes the output only; every failure carries "Error adding fade effects" and leaves the disk |
| AudioUtils.ListPath | backend/helpers/audio_utils.py:376 | the concat list never is the output |
| AudioUtils.MergeAudioFiles | backend/helpers/audio_utils.py:364-423 | ffmpeg is checked before the count of at least two inputs; success iff the list can be written, a concat runs and the output probes, reporting the number of inputs; the list is removed whatever comes of the concat |
| AudioUtils.OverlayAudioFiles | backend/helpers/audio_utils.py:178-215 | success iff both inputs probe, the mix runs and the output probes, reporting the three durations; a failing probe of the output leaves the output written |
| AudioUtils.Notes | backend/helpers/audio_utils.py:69-70 | one note name per frequency |
| AudioUtils.TempNames | backend/helpers/audio_utils.py:75-135 | one temporary tone file per frequency |
| AudioUtils.ToneCommands | backend/helpers/audio_utils.py:74-83 | one ffmpeg run per frequency |
| AudioUtils.Generate | backend/helpers/audio_utils.py:57-176 | no ffmpeg leaves the disk; success iff every tone is made, the list can be written and the join runs; success removes every tone and the list and keeps the output; only those paths and the output ever change |
| AudioUtils.JoinGenerated | backend/helpers/audio_utils.py:86-115 | once the tones are on disk: success iff the list is written and the join runs, and the tones and list are gone afterwards |
| AudioUtils.RemoveTempFiles | backend/helpers/audio_utils.py:108-115 | the finally clause keeps the helper's outcome, removes every tone and the list, and raises only where the list path is a directory |
| AudioUtils.JoinTempFiles | backend/helpers/audio_utils.py:86-107 | success iff the list is writable and the join runs; a failure carries the generation error and writes nothing but the list; nothing beyond the list and the output changes |
| AudioUtilsSimple.SameFormats | backend/helpers/audio_utils_simple.py:360-365 | the fall-back module supports the same eleven formats, in the same order, as the full one |
| AudioUtilsSimple.GetAudioInfo | backend/helpers/audio_utils_simple.py:19-36 | success iff the path exists, and then five seconds, 5000 ms, two channels and 44100 Hz whatever the file holds, with its real size |
| AudioUtilsSimple.DemoBytes | backend/helpers/audio_utils_simple.py:46-67 | the placeholder is an MPEG frame header followed by zero bytes only |
| AudioUtilsSimple.Generate | backend/helpers/audio_utils_simple.py:38-77 | whether or not ffmpeg is present, success iff the output is writable, which then holds the placeholder (2000 or 1000 zero bytes) and the report names the notes; a failure changes nothing and carries the generation prefix |
| AudioUtilsSimple.OverlayAudioFiles | backend/helpers/audio_utils_simple.py:79-99 | the output is a copy of the first input; success iff the copy succeeds and the second input exists, reporting the longer of two five-second durations; failures carry the overlay prefix |
| AudioUtilsSimple.TrimAudio | backend/helpers/audio_utils_simple.py:102-161 | without ffmpeg a copy, unwrapped on failure, reporting ten seconds and end - start whatever the times; with it the checks of the full module against five seconds, then its copy-or-re-encode run |
| AudioUtilsSimple.ConvertAudioFormat | backend/helpers/audio_utils_simple.py:163-208 | without ffmpeg a copy reporting five seconds; with it success iff the input exists and the re-encode runs; wrapped failures leave the disk |
| AudioUtilsSimple.AdjustVolume | backend/helpers/audio_utils_simple.py:210-244 | without ffmpeg a copy reporting five seconds; with it success iff the input exists and the volume filter runs; wrapped failures leave the disk |
| AudioUtilsSimple.AddFadeEffects | backend/helpers/audio_utils_simple.py:307-358 | without ffmpeg a copy reporting the fades and five seconds; with it the fade filters against five seconds; wrapped failures leave the disk |
| AudioUtilsSimple.MergeAudioFiles | backend/helpers/audio_utils_simple.py:246-305 | fewer than two inputs raise before ffmpeg is checked and unwrapped; without ffmpeg the first input is copied and ten seconds reported; with it the concat of the full module, the list removed afterwards |
| AudioRoutes.SupportedFormats | backend/routes/audio_routes.py:8-36 | whichever helper module the import binds, the supported formats are the same list |
| AudioRoutes.ExtensionAfterLastDot | backend/routes/audio_routes.py:119 | the extension checked is the text after the last dot of the upload's name, lower-cased |
| AudioRoutes.ExtensionAfterDot | backend/routes/audio_routes.py:119 | the routes' extension is the one validate_audio_file's fall-back takes, and lower-casing first changes nothing |
| AudioRoutes.Stem | backend/routes/audio_routes.py:282 | the name without its last extension, which with the dot and the extension gives back the name; a name without a dot is its own stem |
| AudioRoutes.OutputIsNotInput | backend/routes/audio_routes.py:281-282 | an output path such as trimmed_{id}_... never coincides with the saved upload {id}_{filename} |
| AudioRoutes.HealthCheck | backend/routes/audio_routes.py:51-62 | operational, the helpers' formats, and the eight features |
| AudioRoutes.SupportedAudioFormats | backend/routes/audio_routes.py:209-216 | every supported format is an input format, and each of the six output formats is supported, lower-case and has a codec of its own in the helpers |
| AudioRoutes.Download | backend/routes/audio_routes.py:96-108 | the MP3 of the id iff something is at uploads/{id}.mp3, otherwise 404 "Audio file not found" |
| AudioRoutes.Validate | backend/routes/audio_routes.py:137 | validate_audio_file of a just-written upload depends on its bytes only |
| AudioRoutes.RunTrim | backend/routes/audio_routes.py:291-307 | a failing helper leaves the disk; success produces the output with headers of the times; the full helpers without ffmpeg always fail, the fall-back with ffmpeg refuses any end past five seconds, and the fall-back without ffmpeg succeeds iff the copy does |
| AudioRoutes.TrimHeaders | backend/routes/audio_routes.py:301-306 | the trim reply headers: the original duration reported, then end minus start, the start and the end times |
| AudioRoutes.RunConvert | backend/routes/audio_routes.py:351-376 | a failing helper leaves the disk; success produces the output with the format headers; the full helpers without ffmpeg always fail |
| AudioRoutes.RunVolume | backend/routes/audio_routes.py:418-432 | a failing helper leaves the disk; success produces the output with the volume headers |
| AudioRoutes.RunFade | backend/routes/audio_routes.py:530-545 | a failing helper leaves the disk; success produces the output with the fade headers |
| AudioRoutes.RunOp | backend/routes/audio_routes.py:291 | for each one-file operation: a failing helper leaves the disk, success produces the output, and the bound module decides what ffmpeg's absence does |
| AudioRoutes.ServeSaved | backend/routes/audio_routes.py:295-307 | the response is served with the uploads removed, the output kept and nothing else changed |
| AudioRoutes.OneFile | backend/routes/audio_routes.py:284-314 | save, validate, run the helper, remove the upload and serve; a rejected upload is the 400 re-raised as 500; any exception removes the upload and the output |
| AudioRoutes.TrimRejects | backend/routes/audio_routes.py:266-278 | no rejection iff the extension is supported and 0 <= start < end; otherwise the first failing check's message |
| AudioRoutes.Trim | backend/routes/audio_routes.py:258-314 | a rejected request is 400 with the disk unchanged; otherwise the one-file route with trimmed_{id}_{stem}.mp3, served as trimmed_{stem}.mp3 |
| AudioRoutes.GetFinds | backend/routes/audio_routes.py:357-369 | a dict lookup: the first entry of the key, or the default when the key is absent |
| AudioRoutes.LowerInIsIn | backend/routes/audio_routes.py:333 | the format check is membership of the lower-cased format |
| AudioRoutes.ConvertRejects | backend/routes/audio_routes.py:323-337 | no rejection iff the upload's extension is supported and the lower-cased output format is an output format; the extension is checked first |
| AudioRoutes.UpperCaseFormat | backend/routes/audio_routes.py:333-369 | "WAV" passes the lower-cased check but the media-type lookup is not lower-cased, so it is served as audio/mpeg |
| AudioRoutes.Convert | backend/routes/audio_routes.py:316-383 | a rejected request is 400 with the disk unchanged; otherwise the one-file route with converted_{id}_{stem}.{format}, the format as written picking the media type |
| AudioRoutes.VolumeRejects | backend/routes/audio_routes.py:392-405 | no rejection iff the extension is supported and -60 <= change <= 60 |
| AudioRoutes.Volume | backend/routes/audio_routes.py:385-439 | a rejected request is 400 with the disk unchanged; otherwise the one-file route with volume_adjusted_{id}_{stem}.mp3 |
| AudioRoutes.EffectsRejects | backend/routes/audio_routes.py:505-517 | no rejection iff the extension is supported and both fades lie in 0..30; a negative fade is reported before a long one |
| AudioRoutes.Effects | backend/routes/audio_routes.py:497-552 | a rejected request is 400 with the disk unchanged; otherwise the one-file route with effects_{id}_{stem}.mp3 |
| AudioRoutes.InfoWith | backend/routes/audio_routes.py:240 | get_audio_info of the bound module, reporting the file's real size either way |
| AudioRoutes.Info | backend/routes/audio_routes.py:218-256 | an unsupported extension is 400 with the disk unchanged; success iff the upload saves, is accepted by validate_audio_file and get_audio_info of the bound helpers answers for the saved file, and the reply's audio_info is exactly that answer (under the fall-back: 5.0 s, 5000 ms, two channels, 44100 Hz and the upload's size, so there success iff saved and accepted); a rejected upload is the 400 re-raised as 500, a failed probe its error re-raised as 500; the upload is removed whatever happens |
| AudioRoutes.FirstUnsupported | backend/routes/audio_routes.py:118-124 | the first upload whose extension is unsupported, every earlier one supported, or -1 exactly when all are |
| AudioRoutes.CheckNames | backend/routes/audio_routes.py:118-124 | the loop stops at FirstUnsupported |
| AudioRoutes.ManyRejects | backend/routes/audio_routes.py:113-124 | the count is checked before the names; no rejection iff the count holds and every name is supported, otherwise the message names the first unsupported upload |
| AudioRoutes.AllAcceptedStep | backend/routes/audio_routes.py:132-140 | every upload so far is accepted iff the earlier ones are and this one is; one rejection rejects the whole |
| AudioRoutes.SaveOne | backend/routes/audio_routes.py:133-140 | one upload written then validated: no error iff writable and accepted; a rejected one is on the disk with a 400 naming it |
| AudioRoutes.SaveAll | backend/routes/audio_routes.py:132-140 | no error iff every upload is writable and accepted; the disk holds the uploads written so far; a rejected upload is written but not yet counted in input_paths |
| AudioRoutes.AbortAll | backend/routes/audio_routes.py:161-166 | the except clause removes the recorded uploads and the output and answers 500 |
| AudioRoutes.PrefixAccepted | backend/routes/audio_routes.py:137 | an upload the loop got past was accepted |
| AudioRoutes.SaveUploads | backend/routes/audio_routes.py:130-166 | as written: success iff every upload is saved and accepted; a rejected first upload answers 500 with its 400 detail and stays on the disk |
| AudioRoutes.SaveUploadsFixed | backend/routes/audio_routes.py:130-166 | with the path recorded before validation: the same outcomes, and a rejected upload is removed too |
| AudioRoutes.RemoveRecorded | backend/routes/audio_routes.py:161-166 | removes exactly the recorded uploads and the output, keeps every other file, and answers 500 |
| AudioRoutes.OutputNotAmongInputs | backend/routes/audio_routes.py:128-133 | overlayed_{id}.mp3 and merged_{id}.mp3 are none of the saved uploads {id}_{i}_{filename} |
| AudioRoutes.OverlayWith | backend/routes/audio_routes.py:143 | overlay of the bound module writes only the output; the fall-back reports three five-second durations |
| AudioRoutes.MergeWith | backend/routes/audio_routes.py:474 | merge of the bound module writes only the output, leaving its list removed, and reports the number of inputs |
| AudioRoutes.OverlaySaved | backend/routes/audio_routes.py:142-166 | once both uploads are saved: success serves overlayed_audio.mp3 with the overlay headers, uploads removed; any failure answers 500 leaving nothing behind |
| AudioRoutes.MergeSaved | backend/routes/audio_routes.py:473-495 | once every upload is saved: success serves merged_audio.mp3 with the file count header, uploads and list removed; any failure answers 500 leaving nothing behind |
| AudioRoutes.CheckMany | backend/routes/audio_routes.py:113-124 | the checks computed by the loop are ManyRejects |
| AudioRoutes.Overlay | backend/routes/audio_routes.py:110-166 | a rejection is 400 with the disk unchanged; otherwise the uploads are saved, mixed and removed, and a rejected upload stays on the disk |
| AudioRoutes.OverlayFixed | backend/routes/audio_routes.py:110-166 | the same outcomes, with the rejected upload removed as well |
| AudioRoutes.SavedThenOverlaid | backend/routes/audio_routes.py:142-166 | from two saved and accepted uploads to the route's promise: served or 500 with nothing left |
| AudioRoutes.Merge | backend/routes/audio_routes.py:441-495 | a rejection is 400 with the disk unchanged; otherwise the uploads are saved, concatenated and removed, and a rejected upload stays on the disk |
| AudioRoutes.MergeFixed | backend/routes/audio_routes.py:441-495 | the same outcomes, with the rejected upload removed as well |
| AudioRoutes.SavedThenMerged | backend/routes/audio_routes.py:473-495 | from saved and accepted uploads to the route's promise: served with the file count or 500 with nothing left |
| AudioRoutes.UploadIsNotScratch | backend/routes/audio_routes.py:40 | a path under uploads/ is none of the tone files or concat lists the generators write in the working directory |
| AudioRoutes.DemoPathsDistinct | backend/routes/audio_routes.py:175-177 | the sine, square and merged demo paths are pairwise distinct |
| AudioRoutes.DemoPathsNotScratch | backend/routes/audio_routes.py:71-72 | no demo path is a generator's scratch file |
| AudioRoutes.GenerateWith | backend/routes/audio_routes.py:73-76 | generation by the bound module changes only its scratch files and the output; the full module without ffmpeg fails and changes nothing; the fall-back succeeds iff the output is writable |
| AudioRoutes.GenerateDemo | backend/routes/audio_routes.py:64-94 | success names sine_melody_{id} and square_tones_{id}, both downloadable, with the notes of each; a failure answers 500 and keeps what was made |
| AudioRoutes.MergeGenerated | backend/routes/audio_routes.py:168-207 | success serves merged_demo_audio.mp3 with the notes, operation and duration headers, both demo files removed and the mix kept; a failure answers 500 |
| AudioRoutes.MixDemo | backend/routes/audio_routes.py:182-201 | with both demo files made: the overlay, their removal and the response as MergeGenerated promises |
| AudioRoutes.ServeDemo | backend/routes/audio_routes.py:187-201 | both demo files removed, the mix served with its four headers |
| AudioRoutes.AbortDemo | backend/routes/audio_routes.py:202-207 | the clean-up of merge-generated answers 500 and leaves neither demo file nor the output on the disk |
| AudioRoutes.KeptThrough | backend/routes/audio_routes.py:179-188 | generating, mixing and removing together change only the scratch files, the demo files and the output |
| AudioRoutes.MakeBoth | backend/routes/audio_routes.py:179-180 | the two generations change only scratch and demo files; without error both demo files exist; the full module without ffmpeg errs; the fall-back errs iff a demo path is unwritable |
| Strings.Lower | backend/routes/audio_routes.py:119 | str.lower keeps the length and lower-cases each ASCII letter in place |
| Strings.Upper | app/services/image_service.py:55 | str.upper keeps the length and upper-cases each ASCII letter in place |
| Strings.LowerSnoc | app/services/audio_service.py:274 | lower-casing one character more appends that character lower-cased |
| Strings.LowerIdempotent | app/services/audio_service.py:274 | lower-casing twice is lower-casing once |
| Strings.LastIndexOf | backend/routes/audio_routes.py:119 | the index of the last occurrence, no later occurrence, or -1 |
| Strings.AfterLast | backend/routes/audio_routes.py:119 | s.split(c)[-1] holds no c and ends s |
| Strings.BeforeLast | backend/routes/audio_routes.py:282 | s.rsplit(c, 1)[0] starts s, and with c and the text after it gives back s; without c it is s |
| Strings.SplitOn | app/api/v1/endpoints/pdf.py:104-106 | str.split(c) gives at least one part, none holding c |
| Strings.SplitOnSeparator | app/api/v1/endpoints/pdf.py:105-106 | a string holding the separator splits into at least two parts |
| Strings.SplitOnFirst | app/api/v1/endpoints/pdf.py:104-111 | splitting is the part before the first separator followed by the parts of the rest |
| Strings.SplitOnPlain | app/api/v1/endpoints/pdf.py:104-111 | a string without the separator is one part |
| Strings.JoinSplitOn | app/api/v1/endpoints/pdf.py:104 | the parts joined with the separator give back the string |
| Strings.ListRepr | app/api/v1/endpoints/image.py:35 | a list formatted into a message is bracketed |
| Strings.TrimLeft | app/services/pdf_service.py:134 | lstrip removes exactly the leading whitespace |
| Strings.TrimRight | app/services/pdf_service.py:134 | rstrip removes exactly the trailing whitespace |
| Strings.StripNonBlank | app/services/pdf_service.py:134 | text.strip() is truthy iff the text holds a non-whitespace character |
| Strings.Word | app/services/clerk_auth.py:171 | the leading word of a string, ended by whitespace or by the string's end |
| Strings.Words | app/services/clerk_auth.py:171 | str.split() gives non-empty words without whitespace |
| Strings.WordsOfTwo | app/services/clerk_auth.py:171 | "w1 w2" with any run of whitespace between splits into exactly the two words |
| Strings.ReplaceAbsent | backend/routes/pdf_routes.py:206-220 | replacing a pattern the string does not hold changes nothing |
| Strings.NatToString | app/services/video_service.py:79 | str(n) is a non-empty run of digits |
| Strings.ParseInt | app/api/v1/endpoints/pdf.py:106-111 | int(s) succeeds only on text that is not blank |
| Strings.TruncReal | app/services/audio_service.py:90-91 | int(x) truncates toward zero: within one below a non-negative x and one above a negative one |
| Strings.DigitsValueOfNat | app/api/v1/endpoints/pdf.py:111 | the digits of str(n) read back as n |
| Strings.NumberedApart | backend/routes/pdf_routes.py:276-277 | names that start with different numbers followed by "_" are different |
| Strings.ParseNatToString | app/api/v1/endpoints/pdf.py:106-111 | int(str(n)) == n |
| Strings.SplitExt | app/api/v1/endpoints/image.py:114 | os.path.splitext: stem and extension give back the path, and the extension is empty or a dot with no further dot or slash |
| Strings.ExtNoDot | app/api/v1/endpoints/core.py:52 | splitext(p)[1][1:] holds no dot and no slash |
| Strings.ExtNoDotOf | app/services/audio_service.py:274 | a name stem.ext gives back ext |
| FileSystem.Parent | app/core/config.py:63 | os.path.dirname is a prefix of the path |
| FileSystem.ParentOfJoin | app/api/v1/endpoints/core.py:201-202 | os.path.join of a directory and a plain name: dirname and basename take it apart again |
| FileSystem.JoinApart | backend/routes/pdf_routes.py:69 | joined paths under different directories differ |
| FileSystem.Write | backend/routes/audio_routes.py:44-49 | a write succeeds iff the path is writable, and then puts exactly those bytes there, changing nothing else |
| FileSystem.WriteByDirs | backend/routes/audio_routes.py:132-140 | whether a write succeeds depends on the directories only, so earlier writes do not change it |
| FileSystem.Read | backend/routes/pdf_routes.py:75-78 | reading succeeds iff the path is a file, answering its bytes |
| FileSystem.Remove | backend/routes/audio_routes.py:146-147 | os.remove succeeds iff the path is a file and removes only it; otherwise EISDIR for a directory, ENOENT for nothing |
| FileSystem.RemoveIfExists | app/services/image_service.py:58-59 | the guarded removal raises only for a directory and removes the file if there is one |
| FileSystem.Size | app/api/v1/endpoints/image.py:59 | os.path.getsize of a file is its length; of nothing, ENOENT |
| FileSystem.MakeDirs | app/api/v1/endpoints/core.py:202 | makedirs with exist_ok leaves files and clock alone, adds directories only where no file is, and ends with the directory present; an existing directory changes nothing |
| FileSystem.RmTree | app/api/v1/endpoints/core.py:201 | rmtree succeeds iff the directory exists, and removes exactly it, its subdirectories and the files under it |
| FileSystem.Copy | app/services/image_service.py:333 | shutil.copy2 of a file to a writable other path puts the source's bytes there; a copy onto itself raises; success needs the source file and changes only the destination |
| FileSystem.PathSet | backend/routes/audio_routes.py:163 | the set of paths a list names |
| FileSystem.WrittenFilesLookup | backend/routes/audio_routes.py:132-140 | after writing distinct paths in order, each holds its own bytes |
| FileSystem.WrittenFilesKeys | backend/routes/audio_routes.py:132-140 | the written files are exactly the listed paths |
| FileSystem.WrittenStep | backend/routes/audio_routes.py:132-140 | writing one path more is one more update of the disk |
| FileSystem.OverlaidThenRemoved | backend/routes/audio_routes.py:142-147 | uploads written, an output added elsewhere, and the uploads removed leave the old disk without them plus the output |
| FileSystem.AllWritableNoDirs | backend/routes/audio_routes.py:132-140 | no path of a writable list is a directory |
| FileSystem.AllWritableStep | backend/routes/audio_routes.py:132-140 | a list is writable iff its prefix is and the next path is |
| FileSystem.WriteAll | app/api/v1/endpoints/pdf.py:30-40 | writing several files: no error iff every path is writable, and then all are written; otherwise it stops at the first unwritable path with the earlier ones written; directories never change |
| FileSystem.WrittenOnlyAll | backend/routes/audio_routes.py:132-140 | a completed write loop changes only its own paths |
| FileSystem.WrittenKept | backend/routes/audio_routes.py:132-140 | a completed write loop keeps every other file |
| FileSystem.KeptChain | backend/routes/audio_routes.py:130-166 | two steps keeping all files away from their paths keep them away from the paths of both |
| FileSystem.WroteOnlyChain | backend/routes/audio_routes.py:130-166 | two steps writing only at their paths write only at the paths of both |
| FileSystem.CleanedUp | backend/routes/audio_routes.py:161-166 | a clean-up that removed every written path leaves only files that were there before, unchanged |
| FileSystem.WrittenOnly | backend/routes/audio_routes.py:132-140 | a write loop stopped after n writes changes only its first n paths |
| FileSystem.RemoveEach | backend/routes/audio_routes.py:163-165 | the guarded removal loop only removes, keeps files away from its paths, removes them all when none is a directory, and fails only with EISDIR on a directory |
| FileSystem.Produce | app/services/image_service.py:37-65 | success iff the input is a file, the library makes the output from its bytes and the output is writable; then the output holds them and the input is gone; any failure leaves the disk |

## Left out

- Library and tool internals are not modelled: PyPDF2, pikepdf, pdf2docx, docx2pdf, python-docx, pydub, moviepy, Pillow, OpenCV, rembg, pytesseract, ffmpeg and ffprobe. They are parameters of the model, and what a page draws, what a codec does and what OCR reads in an image are not modelled.
- The OpenCV preprocessing helpers get_grayscale, remove_noise and thresholding (backend/helpers/pdf_utils.py:175-185) are part of the OCR library call. The GrabCut path of the background removal is the same kind of call.
- Floating-point arithmetic is replaced by exact reals:
  - times, durations and fades are compared as exact reals;
  - `int(x)` is truncation toward zero (`Strings.TruncReal`);
  - where a float would round differently from exact arithmetic, the model gives the exact result;
  - NaN and infinity in form values are not modelled.
- Uploads.RatioText: the compression ratio is rounded to one decimal in exact arithmetic, not through a binary float. A ratio whose float rounding differs from the exact one is reported as the exact one. The ZeroDivisionError of an empty upload is modelled.
- AudioApi.VolumeMessage: Python's str() of a float is a parameter `floatStr`, so the model does not fix the digits of the number in the message.
- Strings.Upper: only ASCII letters change case. Python's `str.upper` maps all of Unicode: for example "é" uppers to "É" and "ß" to "SS".
- Strings.Lower: only ASCII letters change case. Python's `str.lower` maps all of Unicode: for example U+212A KELVIN SIGN lowers to "k" and "É" lowers to "é". So a name such as "clip.m\u212Av" is refused where Python accepts it as "mkv". The same gap reaches every suffix and bearer check built on them (CoreApi.Validate, CoreApi.UploadInfo, AudioRoutes.Extension, AudioUtils.CodecFor, AudioService.FormatOf, the PdfRoutes suffix checks, ClerkAuth.ExtractToken).
- Strings.ParseInt: only ASCII digits are accepted. `int()` also reads the other Unicode decimal digits.
- ClerkAuth.UserInfoOf: a name claim present as JSON null is treated as absent, so it gives "" where `payload.get("name", "")` gives None.
- VideoService.SizeRate: the target-size bitrate (app/services/video_service.py:78) is the exact quotient truncated, not the float one. The watermark alpha int(255 · opacity) (app/services/image_service.py:379, ImageService.MarkAlpha) and the sample rate of change_speed (app/services/audio_service.py:251) are truncations of exact products.
- Float text inside ffmpeg filters and response headers (`str(duration)`) is kept as a value, not rendered as text.
- JWT signature and issuer checks, the JWK to RSA PEM conversion, the base64 decode itself and the HTTP fetch of the JWKS are parameters of ClerkAuthService. The model covers the header handling, the base64url normalisation, the two caches and where each exception ends.
- app/api/v1/endpoints/auth.py is modelled only for /me. Its other routes wrap clerk_auth or return static dictionaries.
- The core health check and format list (app/api/v1/endpoints/core.py:127-152,224-239) are not modelled: they are static dictionaries plus an uptime read from the clock.
- CoreApi.Registry.Stats: disk_usage_mb is not modelled (app/api/v1/endpoints/core.py:161-174). It walks the three directories and divides the byte total into float megabytes. The other three counts are modelled.
- The clock is a field of the disk. A write stamps a file with it, and the cleanup reads file times against it; the clock itself never advances inside one request.
- FastAPI and Starlette plumbing is not modelled: routing, request parsing, CORS, the timing middleware, the application factories (app/main.py, backend/main.py, backend/start.py) and the streaming of a FileResponse. A FileResponse is modelled as the path, media type, file name and headers it is built from, served after the handler returns.
- async and aiofiles: every handler is modelled as one sequential step. Concurrent requests and races on the module-level dictionaries are not modelled.
- uuid4() is an oracle: each fresh id is a parameter, and the only thing assumed about it is that it looks like a uuid (`Uploads.FreshId`).
- The configuration module is modelled only by its constants (app/core/config.py:25-34). Loading settings from the environment is not modelled.
- The installer, setup and demo scripts (backend/setup_tesseract.py, backend/setup_audio.py, demo_api_usage.py) are not part of this model. They are interactive, download over the network, or are HTTP clients.
- PDFService.add_watermark (app/services/pdf_service.py:150-187) is not modelled. No endpoint calls it, and it only pastes one library-made page onto each page.
- ImageService.rotate_image and enhance_image (app/services/image_service.py:266-327) are not modelled. No endpoint calls them, and their parameters are float angles and factors passed straight to Pillow.
- The split_type form field of the backend split route (backend/routes/pdf_routes.py:302,316-320) is not a parameter of the model. Both of its branches make the same call.
- The ffmpeg availability probe (`ffmpeg -version`) and the pytesseract import check are Boolean inputs, fixed for the length of a request.
- The five-second timeout of `tesseract --version` (backend/helpers/pdf_utils.py:38-43) is folded into the Boolean `Host.onPath`. A check that times out counts as not found, as the source's except clause has it.
- repr() escaping of quotes and backslashes in paths inside exception texts is not modelled. The texts use the plain path.

## Findings

| source | as written | input that shows it | evidently intended | confidence | as-written member | corrected member |
|---|---|---|---|---|---|---|
| app/api/v1/endpoints/pdf.py:170-174 | after PDFService.compress_pdf removed the input (app/services/pdf_service.py:93-94), the handler calls os.path.getsize on it, so every successful compression answers 500 and leaves the output behind | any valid PDF upload with quality 80 | report the sizes and the ratio of the upload and the compressed file | high, not executed | PdfApi.Compress | PdfApi.CompressCorrected |
| app/api/v1/endpoints/image.py:292-296 | the same size query after ImageService.compress_image removed the input (app/services/image_service.py:257-258) | any image that Pillow opens, quality 85 | report the sizes of the upload and the compressed image | high, not executed | ImageApi.Compress | ImageApi.CompressCorrected |
| app/api/v1/endpoints/video.py:117-121 | the same size query after VideoService.compress_video removed the input (app/services/video_service.py:105-106) | any video that moviepy opens, quality 75 | report the sizes of the upload and the compressed video | high, not executed | VideoApi.Compress | VideoApi.CompressCorrected |
| backend/routes/pdf_routes.py:201-215 | the suffix check lower-cases the name but the output name comes from a case-sensitive replace('.docx', '.pdf'), so "REPORT.DOCX" is converted onto its own path and the removal of the input then deletes the result before it is served | an upload named REPORT.DOCX (PdfRoutes.UpperCaseDocxKeepsItsName) | an output name with the .pdf suffix whatever the case of the upload's suffix | high, not executed | PdfRoutes.DocxToPdf | PdfRoutes.DocxToPdfFixed |
| backend/routes/audio_routes.py:132-166 | an upload is appended to input_paths only after validate_audio_file accepted it, so the except clause does not remove the upload whose validation raised the 400, and it stays on the disk | two uploads a.mp3 and b.mp3 where a.mp3 holds no audio stream | every saved upload is removed when the request fails | high, not executed | AudioRoutes.Overlay | AudioRoutes.OverlayFixed |
| backend/routes/audio_routes.py:463-495 | the same order of append and validation in merge | two uploads where the first holds no audio stream | every saved upload is removed when the request fails | high, not executed | AudioRoutes.Merge | AudioRoutes.MergeFixed |
