// The image endpoints (app/api/v1/endpoints/image.py).  Each handler validates its
// parameters inside the `try` whose `except Exception` re-raises as 500, so its
// own 400s reach the client as 500s; it then saves the upload to TEMP_DIR, calls the
// service, and stats the output.
module ImageApi {
  import opened Wrappers
  import opened Strings
  import opened Http
  import opened FileSystem
  import opened Schemas
  import opened Uploads
  import opened ImageService
  import Config

  // ---------------------------------------------------------------- checks

  /** The checks of convert_image, in order. */
  function ConvertCheck(fmt: string, quality: int): (r: Option<string>)
    ensures r.None? <==> fmt in Config.SUPPORTED_IMAGE_FORMATS && 10 <= quality <= 100
    ensures fmt !in Config.SUPPORTED_IMAGE_FORMATS ==>
      r == Some("Unsupported target format. Supported: " + ListRepr(Config.SUPPORTED_IMAGE_FORMATS))
  {
    if fmt !in Config.SUPPORTED_IMAGE_FORMATS then
      Some("Unsupported target format. Supported: " + ListRepr(Config.SUPPORTED_IMAGE_FORMATS))
    else if !(10 <= quality <= 100) then Some("Quality must be between 10 and 100")
    else None
  }

  /** The format list is matched as given: "JPG" is not "jpg". */
  lemma ConvertIsCaseSensitive()
    ensures ConvertCheck("JPG", 95).Some? && ConvertCheck("jpg", 95).None?
  {
    assert "JPG" != "jpg" && "JPG" != "jpeg" && "JPG" != "png" && "JPG" != "webp";
    assert "JPG" != "bmp" && "JPG" != "tiff" && "JPG" != "heic";
  }

  /** The checks of resize_image, in order. */
  function ResizeCheck(width: Option<int>, height: Option<int>): (r: Option<string>)
    ensures r.None? <==> (width.Some? || height.Some?) && (width.Some? ==> width.value > 0)
                         && (height.Some? ==> height.value > 0)
    ensures width.None? && height.None? ==> r == Some("Either width or height must be specified")
  {
    if width.None? && height.None? then Some("Either width or height must be specified")
    else if width.Some? && width.value <= 0 then Some("Width must be positive")
    else if height.Some? && height.value <= 0 then Some("Height must be positive")
    else None
  }

  /** The checks of crop_image, in order. */
  function CropCheck(x: int, y: int, width: int, height: int): (r: Option<string>)
    ensures r.None? <==> x >= 0 && y >= 0 && width > 0 && height > 0
    ensures (x < 0 || y < 0) ==> r == Some("X and Y coordinates must be non-negative")
  {
    if x < 0 || y < 0 then Some("X and Y coordinates must be non-negative")
    else if width <= 0 || height <= 0 then Some("Width and height must be positive")
    else None
  }

  /** The disk once the upload has been saved to `input`. */
  function SavedAt(fs: Fs, input: Path, content: Bytes): (r: Fs)
    ensures input in r.files && r.files[input].data == content
  {
    fs.(files := fs.files[input := File(content, fs.clock)])
  }

  // ---------------------------------------------------------------- convert

  /** POST /convert: converted_{cid}.{fmt} with MIME type image/{fmt}. */
  method Convert(fs: Fs, lib: ImageLib, file: UploadFile, fileId: string, cid: string,
                 targetFormat: string := "jpg", quality: int := 95)
    returns (r: Reply<ConversionResponse>, fs': Fs)
    requires FreshId(fileId) && FreshId(cid)
    ensures ConvertCheck(targetFormat, quality).Some? ==>
      r == Rejected(ConvertCheck(targetFormat, quality).value) && fs' == fs
    ensures r.Fail? ==> r.status == 500
    ensures var input := SavePath(Config.TEMP_DIR, fileId, file.filename);
      var name := "converted_" + cid + "." + targetFormat;
      var data := ConvertedBytes(lib, file.content, targetFormat, quality);
      && (r.Ok? <==> ConvertCheck(targetFormat, quality).None? && Writable(fs, input) && data.Some?
                     && Writable(fs, OutputPath(name)))
      && (r.Ok? ==> fs' == Produced(fs, input, file.content, OutputPath(name), data.value)
                    && r.body == CompletedResponse("Image converted to " + Upper(targetFormat) + " successfully", cid,
                                                   Some(FileInfo(name, |data.value|, targetFormat, "image/" + targetFormat))))
  {
    fs' := fs;
    var check := ConvertCheck(targetFormat, quality);
    if check.Some? {
      r := Rejected(check.value);
      return;
    }
    var input := SavePath(Config.TEMP_DIR, fileId, file.filename);
    var name := "converted_" + cid + "." + targetFormat;
    var out := OutputPath(name);
    TempIsNotOutput(fileId, file.filename, name);
    var size;
    size, fs' := ConvertAt(fs, lib, file.content, input, out, targetFormat, quality);
    match size
    case Failure(e) =>
      r := e;
    case Success(n) =>
      r := Ok(CompletedResponse("Image converted to " + Upper(targetFormat) + " successfully", cid,
                                Some(FileInfo(name, n, targetFormat, "image/" + targetFormat))));
  }

  /** The body of convert_image from the save of the upload on, at given paths. */
  method ConvertAt(fs: Fs, lib: ImageLib, content: Bytes, input: Path, out: Path, fmt: string, quality: int)
    returns (size: Result<nat, Reply<ConversionResponse>>, fs': Fs)
    requires input != out
    ensures size.Failure? ==> size.error.Fail? && size.error.status == 500
    ensures var data := ConvertedBytes(lib, content, fmt, quality);
      && (size.Success? <==> Writable(fs, input) && data.Some? && Writable(fs, out))
      && (size.Success? ==> fs' == Produced(fs, input, content, out, data.value) && size.value == |data.value|)
  {
    fs' := fs;
    match Write(fs, input, content)
    case Failure(e) =>
      size := Failure(Reraise(e));
      return;
    case Success(saved) =>
      fs' := saved;
    var ok;
    ok, fs' := ConvertImage(fs', lib, input, out, fmt, quality);
    if !ok {
      size := Failure(Reraise(HttpError(500, "Failed to convert image")));
      return;
    }
    size := Success(Size(fs', out).value);
  }

  // ---------------------------------------------------------------- resize

  /** POST /resize: resized_{cid}{ext}, keeping the upload's extension. */
  method Resize(fs: Fs, lib: ImageLib, file: UploadFile, fileId: string, cid: string,
                width: Option<int> := None, height: Option<int> := None, keep: bool := true)
    returns (r: Reply<ConversionResponse>, fs': Fs)
    requires FreshId(fileId) && FreshId(cid)
    ensures ResizeCheck(width, height).Some? ==> r == Rejected(ResizeCheck(width, height).value) && fs' == fs
    ensures r.Fail? ==> r.status == 500
    ensures var input := SavePath(Config.TEMP_DIR, fileId, file.filename);
      var out := OutputPath("resized_" + cid + Ext(file.filename));
      var data := ResizedBytes(lib, file.content, Lower(SplitExt(out).1), width, height, keep);
      && (r.Ok? <==> ResizeCheck(width, height).None? && Writable(fs, input) && data.Some? && Writable(fs, out))
      && (r.Ok? ==> fs' == Produced(fs, input, file.content, out, data.value)
                    && r.body == CompletedResponse("Image resized successfully", cid,
                                                   Some(SameTypeInfo("image", "resized", cid, file.filename, |data.value|))))
  {
    fs' := fs;
    var check := ResizeCheck(width, height);
    if check.Some? {
      r := Rejected(check.value);
      return;
    }
    var input := SavePath(Config.TEMP_DIR, fileId, file.filename);
    var name := "resized_" + cid + Ext(file.filename);
    var out := OutputPath(name);
    TempIsNotOutput(fileId, file.filename, name);
    var size;
    size, fs' := ResizeAt(fs, lib, file.content, input, out, width, height, keep);
    match size
    case Failure(e) =>
      r := e;
    case Success(n) =>
      r := Ok(CompletedResponse("Image resized successfully", cid, Some(SameTypeInfo("image", "resized", cid, file.filename, n))));
  }

  /** The body of resize_image from the save of the upload on, at given paths. */
  method ResizeAt(fs: Fs, lib: ImageLib, content: Bytes, input: Path, out: Path,
                  width: Option<int>, height: Option<int>, keep: bool)
    returns (size: Result<nat, Reply<ConversionResponse>>, fs': Fs)
    requires input != out
    ensures size.Failure? ==> size.error.Fail? && size.error.status == 500
    ensures var data := ResizedBytes(lib, content, Lower(SplitExt(out).1), width, height, keep);
      && (size.Success? <==> Writable(fs, input) && data.Some? && Writable(fs, out))
      && (size.Success? ==> fs' == Produced(fs, input, content, out, data.value) && size.value == |data.value|)
  {
    fs' := fs;
    match Write(fs, input, content)
    case Failure(e) =>
      size := Failure(Reraise(e));
      return;
    case Success(saved) =>
      fs' := saved;
    var ok;
    ok, fs' := ResizeImage(fs', lib, input, out, width, height, keep);
    if !ok {
      size := Failure(Reraise(HttpError(500, "Failed to resize image")));
      return;
    }
    size := Success(Size(fs', out).value);
  }

  // ---------------------------------------------------------------- crop

  /** POST /crop: x, y, width and height default to 0, 0, 100, 100. */
  method Crop(fs: Fs, lib: ImageLib, file: UploadFile, fileId: string, cid: string,
              x: int := 0, y: int := 0, width: int := 100, height: int := 100)
    returns (r: Reply<ConversionResponse>, fs': Fs)
    requires FreshId(fileId) && FreshId(cid)
    ensures CropCheck(x, y, width, height).Some? ==> r == Rejected(CropCheck(x, y, width, height).value) && fs' == fs
    ensures r.Fail? ==> r.status == 500
    ensures var input := SavePath(Config.TEMP_DIR, fileId, file.filename);
      var out := OutputPath("cropped_" + cid + Ext(file.filename));
      var data := CroppedBytes(lib, file.content, Lower(SplitExt(out).1), x, y, width, height);
      && (r.Ok? <==> CropCheck(x, y, width, height).None? && Writable(fs, input) && data.Some? && Writable(fs, out))
      && (r.Ok? ==> fs' == Produced(fs, input, file.content, out, data.value)
                    && r.body == CompletedResponse("Image cropped successfully", cid,
                                                   Some(SameTypeInfo("image", "cropped", cid, file.filename, |data.value|))))
  {
    fs' := fs;
    var check := CropCheck(x, y, width, height);
    if check.Some? {
      r := Rejected(check.value);
      return;
    }
    var input := SavePath(Config.TEMP_DIR, fileId, file.filename);
    var name := "cropped_" + cid + Ext(file.filename);
    var out := OutputPath(name);
    TempIsNotOutput(fileId, file.filename, name);
    var size;
    size, fs' := CropAt(fs, lib, file.content, input, out, x, y, width, height);
    match size
    case Failure(e) =>
      r := e;
    case Success(n) =>
      r := Ok(CompletedResponse("Image cropped successfully", cid, Some(SameTypeInfo("image", "cropped", cid, file.filename, n))));
  }

  /** The body of crop_image from the save of the upload on, at given paths. */
  method CropAt(fs: Fs, lib: ImageLib, content: Bytes, input: Path, out: Path, x: int, y: int, width: int, height: int)
    returns (size: Result<nat, Reply<ConversionResponse>>, fs': Fs)
    requires input != out
    ensures size.Failure? ==> size.error.Fail? && size.error.status == 500
    ensures var data := CroppedBytes(lib, content, Lower(SplitExt(out).1), x, y, width, height);
      && (size.Success? <==> Writable(fs, input) && data.Some? && Writable(fs, out))
      && (size.Success? ==> fs' == Produced(fs, input, content, out, data.value) && size.value == |data.value|)
  {
    fs' := fs;
    match Write(fs, input, content)
    case Failure(e) =>
      size := Failure(Reraise(e));
      return;
    case Success(saved) =>
      fs' := saved;
    var ok;
    ok, fs' := CropImage(fs', lib, input, out, x, y, width, height);
    if !ok {
      size := Failure(Reraise(HttpError(500, "Failed to crop image")));
      return;
    }
    size := Success(Size(fs', out).value);
  }

  /** The default rectangle passes the checks. */
  lemma CropDefaultsAccepted()
    ensures CropCheck(0, 0, 100, 100).None?
  {
  }

  // ---------------------------------------------------------------- background removal

  /** POST /background-remove: always no_bg_{cid}.png, image/png. */
  method RemoveBackground(fs: Fs, lib: ImageLib, file: UploadFile, fileId: string, cid: string)
    returns (r: Reply<ConversionResponse>, fs': Fs)
    requires FreshId(fileId) && FreshId(cid)
    ensures r.Fail? ==> r.status == 500
    ensures var input := SavePath(Config.TEMP_DIR, fileId, file.filename);
      var name := "no_bg_" + cid + ".png";
      var (ok, after) := Removal(SavedAt(fs, input, file.content), lib, input, OutputPath(name));
      && (!Writable(fs, input) ==> r == Reraise(Write(fs, input, file.content).error) && fs' == fs)
      && (Writable(fs, input) ==> fs' == after && (r.Ok? <==> ok && Exists(after, OutputPath(name))))
      && (r.Ok? ==> r.body == CompletedResponse("Background removed successfully", cid,
                              Some(FileInfo(name, Size(after, OutputPath(name)).value, "png", "image/png"))))
  {
    var input := SavePath(Config.TEMP_DIR, fileId, file.filename);
    var name := "no_bg_" + cid + ".png";
    var out := OutputPath(name);
    var size;
    size, fs' := RemoveBackgroundAt(fs, lib, file.content, input, out);
    match size
    case Failure(e) =>
      r := e;
    case Success(n) =>
      r := Ok(CompletedResponse("Background removed successfully", cid, Some(FileInfo(name, n, "png", "image/png"))));
  }

  /** What remove_background leaves: the rembg output when the session produces one and it
      can be written, and otherwise whatever the OpenCV fallback does. */
  function Removal(fs: Fs, lib: ImageLib, input: Path, out: Path): (r: (bool, Fs))
    ensures (input != out && lib.session.Some? && input in fs.files && lib.session.value(fs.files[input].data).Some?
             && Writable(fs, out)) ==> r.0 && out in r.1.files && r.1.files[out].data == lib.session.value(fs.files[input].data).value
  {
    if lib.session.Some? && input in fs.files && lib.session.value(fs.files[input].data).Some? && Writable(fs, out) then
      (true, fs.(files := fs.files[out := File(lib.session.value(fs.files[input].data).value, fs.clock)] - {input}))
    else SimpleRemoval(fs, lib, input, out)
  }

  /** The body of remove_background from the save of the upload on, at given paths.  The
      OpenCV fallback may report success without having written the output; the stat
      then fails. */
  method RemoveBackgroundAt(fs: Fs, lib: ImageLib, content: Bytes, input: Path, out: Path)
    returns (size: Result<nat, Reply<ConversionResponse>>, fs': Fs)
    ensures size.Failure? ==> size.error.Fail? && size.error.status == 500
    ensures !Writable(fs, input) ==> size == Failure(Reraise(Write(fs, input, content).error)) && fs' == fs
    ensures var (ok, after) := Removal(SavedAt(fs, input, content), lib, input, out);
      Writable(fs, input) ==>
        && fs' == after
        && (size.Success? <==> ok && Exists(after, out))
        && (size.Success? ==> size.value == Size(after, out).value)
  {
    fs' := fs;
    match Write(fs, input, content)
    case Failure(e) =>
      size := Failure(Reraise(e));
      return;
    case Success(saved) =>
      fs' := saved;
    var ok;
    ok, fs' := ImageService.RemoveBackground(fs', lib, input, out);
    if !ok {
      size := Failure(Reraise(HttpError(500, "Failed to remove background")));
      return;
    }
    match Size(fs', out)
    case Failure(e) =>
      size := Failure(Reraise(e));
    case Success(n) =>
      size := Success(n);
  }

  /** When rembg is unavailable and OpenCV cannot write the output, the service still
      reports success and the handler then fails on the stat of the missing output. */
  lemma FallbackWithoutOutput(fs: Fs, lib: ImageLib, content: Bytes, input: Path, out: Path)
    requires Writable(fs, input) && input != out && lib.session.None?
    requires lib.grabCut(content).Some? && !Writable(fs, out) && out !in fs.files && out !in fs.dirs
    ensures var (ok, after) := Removal(SavedAt(fs, input, content), lib, input, out);
      ok && !Exists(after, out)
  {
  }

  // ---------------------------------------------------------------- compress

  /** compress_image's save of the upload and call of the service, at given paths. */
  method CompressAt(fs: Fs, lib: ImageLib, content: Bytes, input: Path, out: Path,
                    quality: int, maxWidth: Option<int>, maxHeight: Option<int>)
    returns (err: Option<Reply<ConversionResponse>>, fs': Fs)
    requires input != out
    ensures err.Some? ==> err.value.Fail? && err.value.status == 500
    ensures var data := CompressedOutput(lib, content, Lower(SplitExt(out).1), quality, maxWidth, maxHeight);
      && (err.None? <==> Writable(fs, input) && data.Some? && Writable(fs, out))
      && (err.None? ==> fs' == Produced(fs, input, content, out, data.value))
  {
    fs' := fs;
    match Write(fs, input, content)
    case Failure(e) =>
      return Some(Reraise(e)), fs;
    case Success(saved) =>
      fs' := saved;
    var ok;
    ok, fs' := CompressImage(fs', lib, input, out, quality, maxWidth, maxHeight);
    if !ok {
      return Some(Reraise(HttpError(500, "Failed to compress image"))), fs';
    }
    err := None;
  }

  /** POST /compress as written: once the service succeeds the handler asks for the size
      of the input the service has just removed, so a successful compression always ends
      in 500. */
  method Compress(fs: Fs, lib: ImageLib, file: UploadFile, fileId: string, cid: string,
                  quality: int := 80, maxWidth: Option<int> := None, maxHeight: Option<int> := None)
    returns (r: Reply<ConversionResponse>, fs': Fs)
    requires FreshId(fileId) && FreshId(cid)
    ensures r.Fail? && r.status == 500
    ensures QualityCheck(quality).Some? ==> r == Rejected(QualityCheck(quality).value) && fs' == fs
    ensures var input := SavePath(Config.TEMP_DIR, fileId, file.filename);
      var out := OutputPath("compressed_" + cid + Ext(file.filename));
      var data := CompressedOutput(lib, file.content, Lower(SplitExt(out).1), quality, maxWidth, maxHeight);
      QualityCheck(quality).None? && Writable(fs, input) && data.Some? && Writable(fs, out) ==>
        r == Reraise(OsError(2, input)) && fs' == Produced(fs, input, file.content, out, data.value)
  {
    fs' := fs;
    var check := QualityCheck(quality);
    if check.Some? {
      r := Rejected(check.value);
      return;
    }
    var input := SavePath(Config.TEMP_DIR, fileId, file.filename);
    var name := "compressed_" + cid + Ext(file.filename);
    var out := OutputPath(name);
    TempIsNotOutput(fileId, file.filename, name);
    var err;
    err, fs' := CompressAt(fs, lib, file.content, input, out, quality, maxWidth, maxHeight);
    if err.Some? {
      r := err.value;
      return;
    }
    match Size(fs', input)
    case Failure(e) =>
      r := Reraise(e);
    case Success(_) =>
      assert false;
  }

  /** The answer compress_image evidently intends: the original size is the upload's,
      taken before the service removes the input. */
  method CompressCorrected(fs: Fs, lib: ImageLib, file: UploadFile, fileId: string, cid: string,
                           quality: int := 80, maxWidth: Option<int> := None, maxHeight: Option<int> := None)
    returns (r: Reply<ConversionResponse>, fs': Fs)
    requires FreshId(fileId) && FreshId(cid)
    ensures r.Fail? ==> r.status == 500
    ensures QualityCheck(quality).Some? ==> r == Rejected(QualityCheck(quality).value) && fs' == fs
    ensures var input := SavePath(Config.TEMP_DIR, fileId, file.filename);
      var out := OutputPath("compressed_" + cid + Ext(file.filename));
      var data := CompressedOutput(lib, file.content, Lower(SplitExt(out).1), quality, maxWidth, maxHeight);
      && (r.Ok? <==> QualityCheck(quality).None? && Writable(fs, input) && data.Some? && Writable(fs, out)
                     && |file.content| > 0)
      && (r.Ok? ==> fs' == Produced(fs, input, file.content, out, data.value)
                    && r.body == CompletedResponse("Image compressed successfully. Size reduced by "
                                                   + RatioText(|file.content|, |data.value|).value + "%", cid,
                                                   Some(SameTypeInfo("image", "compressed", cid, file.filename, |data.value|))))
  {
    fs' := fs;
    var check := QualityCheck(quality);
    if check.Some? {
      r := Rejected(check.value);
      return;
    }
    var input := SavePath(Config.TEMP_DIR, fileId, file.filename);
    var original := |file.content|;
    var name := "compressed_" + cid + Ext(file.filename);
    var out := OutputPath(name);
    TempIsNotOutput(fileId, file.filename, name);
    var err;
    err, fs' := CompressAt(fs, lib, file.content, input, out, quality, maxWidth, maxHeight);
    if err.Some? {
      r := err.value;
      return;
    }
    var compressed := Size(fs', out).value;
    match RatioText(original, compressed)
    case None =>
      r := Reraise(External("division by zero"));
    case Some(ratio) =>
      r := Ok(CompletedResponse("Image compressed successfully. Size reduced by " + ratio + "%", cid,
                                Some(SameTypeInfo("image", "compressed", cid, file.filename, compressed))));
  }
}
