// The video endpoints (app/api/v1/endpoints/video.py).  As in the image endpoints, the
// parameter checks raise inside the `try` whose `except Exception` re-raises as 500.
module VideoApi {
  import opened Wrappers
  import opened Strings
  import opened Http
  import opened FileSystem
  import opened Schemas
  import opened Uploads
  import opened VideoService
  import Config

  // ---------------------------------------------------------------- checks

  /** The checks of convert_video, in order. */
  function ConvertCheck(fmt: string, quality: string): (r: Option<string>)
    ensures r.None? <==> fmt in Config.SUPPORTED_VIDEO_FORMATS && quality in ["low", "medium", "high"]
    ensures fmt !in Config.SUPPORTED_VIDEO_FORMATS ==>
      r == Some("Unsupported target format. Supported: " + ListRepr(Config.SUPPORTED_VIDEO_FORMATS))
  {
    if fmt !in Config.SUPPORTED_VIDEO_FORMATS then
      Some("Unsupported target format. Supported: " + ListRepr(Config.SUPPORTED_VIDEO_FORMATS))
    else if quality !in ["low", "medium", "high"] then Some("Quality must be 'low', 'medium', or 'high'")
    else None
  }

  /** The handler admits exactly the preset names, so the service's fallback to medium is
      never reached through the endpoint. */
  lemma ConvertAdmitsOnlyPresets(fmt: string, quality: string)
    requires ConvertCheck(fmt, quality).None?
    ensures quality == "low" || quality == "medium" || quality == "high"
  {
  }

  /** The checks of video_to_gif, in order. */
  function GifCheck(start: real, duration: Option<real>, fps: int): (r: Option<string>)
    ensures r.None? <==> start >= 0.0 && (duration.Some? ==> duration.value > 0.0) && 1 <= fps <= 30
    ensures start < 0.0 ==> r == Some("Start time cannot be negative")
  {
    if start < 0.0 then Some("Start time cannot be negative")
    else if duration.Some? && duration.value <= 0.0 then Some("Duration must be positive")
    else if !(1 <= fps <= 30) then Some("FPS must be between 1 and 30")
    else None
  }

  // ---------------------------------------------------------------- convert

  /** POST /convert: converted_{cid}.{fmt} with MIME type video/{fmt}. */
  method Convert(fs: Fs, lib: VideoLib, file: UploadFile, fileId: string, cid: string,
                 targetFormat: string := "mp4", quality: string := "medium", resolution: Option<string> := None)
    returns (r: Reply<ConversionResponse>, fs': Fs)
    requires FreshId(fileId) && FreshId(cid)
    ensures ConvertCheck(targetFormat, quality).Some? ==>
      r == Rejected(ConvertCheck(targetFormat, quality).value) && fs' == fs
    ensures r.Fail? ==> r.status == 500
    ensures var input := SavePath(Config.TEMP_DIR, fileId, file.filename);
      var name := "converted_" + cid + "." + targetFormat;
      var data := ConvertedVideo(lib, file.content, OutputPath(name), quality, resolution);
      && (r.Ok? <==> ConvertCheck(targetFormat, quality).None? && Writable(fs, input) && data.Some?
                     && Writable(fs, OutputPath(name)))
      && (r.Ok? ==> fs' == Produced(fs, input, file.content, OutputPath(name), data.value)
                    && r.body == CompletedResponse("Video converted to " + Upper(targetFormat) + " successfully", cid,
                                                   Some(FileInfo(name, |data.value|, targetFormat, "video/" + targetFormat))))
  {
    fs' := fs;
    var check := ConvertCheck(targetFormat, quality);
    if check.Some? {
      r := Rejected(check.value);
      return;
    }
    var input := SavePath(Config.TEMP_DIR, fileId, file.filename);
    var name := "converted_" + cid + "." + targetFormat;
    var out := OutputPath(name);
    TempIsNotOutput(fileId, file.filename, name);
    var size;
    size, fs' := ConvertAt(fs, lib, file.content, input, out, targetFormat, quality, resolution);
    match size
    case Failure(e) =>
      r := e;
    case Success(n) =>
      r := Ok(CompletedResponse("Video converted to " + Upper(targetFormat) + " successfully", cid,
                                Some(FileInfo(name, n, targetFormat, "video/" + targetFormat))));
  }

  /** The body of convert_video from the save of the upload on, at given paths. */
  method ConvertAt(fs: Fs, lib: VideoLib, content: Bytes, input: Path, out: Path, fmt: string,
                   quality: string, resolution: Option<string>)
    returns (size: Result<nat, Reply<ConversionResponse>>, fs': Fs)
    requires input != out
    ensures size.Failure? ==> size.error.Fail? && size.error.status == 500
    ensures var data := ConvertedVideo(lib, content, out, quality, resolution);
      && (size.Success? <==> Writable(fs, input) && data.Some? && Writable(fs, out))
      && (size.Success? ==> fs' == Produced(fs, input, content, out, data.value) && size.value == |data.value|)
  {
    fs' := fs;
    match Write(fs, input, content)
    case Failure(e) =>
      size := Failure(Reraise(e));
      return;
    case Success(saved) =>
      fs' := saved;
    var ok;
    ok, fs' := ConvertVideo(fs', lib, input, out, fmt, quality, resolution);
    if !ok {
      size := Failure(Reraise(HttpError(500, "Failed to convert video")));
      return;
    }
    size := Success(Size(fs', out).value);
  }

  // ---------------------------------------------------------------- compress

  /** compress_video's save of the upload and call of the service, at given paths. */
  method CompressAt(fs: Fs, lib: VideoLib, content: Bytes, input: Path, out: Path, targetMb: Option<int>, quality: int)
    returns (err: Option<Reply<ConversionResponse>>, fs': Fs)
    requires input != out
    ensures err.Some? ==> err.value.Fail? && err.value.status == 500
    ensures var data := CompressedVideo(lib, content, out, targetMb, quality);
      && (err.None? <==> Writable(fs, input) && data.Some? && Writable(fs, out))
      && (err.None? ==> fs' == Produced(fs, input, content, out, data.value))
  {
    fs' := fs;
    match Write(fs, input, content)
    case Failure(e) =>
      return Some(Reraise(e)), fs;
    case Success(saved) =>
      fs' := saved;
    var ok;
    ok, fs' := CompressVideo(fs', lib, input, out, targetMb, quality);
    if !ok {
      return Some(Reraise(HttpError(500, "Failed to compress video"))), fs';
    }
    err := None;
  }

  /** POST /compress as written: once the service succeeds the handler asks for the size
      of the input the service has just removed, so a successful compression always ends
      in 500. */
  method Compress(fs: Fs, lib: VideoLib, file: UploadFile, fileId: string, cid: string,
                  targetMb: Option<int> := None, quality: int := 75)
    returns (r: Reply<ConversionResponse>, fs': Fs)
    requires FreshId(fileId) && FreshId(cid)
    ensures r.Fail? && r.status == 500
    ensures QualityCheck(quality).Some? ==> r == Rejected(QualityCheck(quality).value) && fs' == fs
    ensures var input := SavePath(Config.TEMP_DIR, fileId, file.filename);
      var out := OutputPath("compressed_" + cid + Ext(file.filename));
      var data := CompressedVideo(lib, file.content, out, targetMb, quality);
      QualityCheck(quality).None? && Writable(fs, input) && data.Some? && Writable(fs, out) ==>
        r == Reraise(OsError(2, input)) && fs' == Produced(fs, input, file.content, out, data.value)
  {
    fs' := fs;
    var check := QualityCheck(quality);
    if check.Some? {
      r := Rejected(check.value);
      return;
    }
    var input := SavePath(Config.TEMP_DIR, fileId, file.filename);
    var name := "compressed_" + cid + Ext(file.filename);
    var out := OutputPath(name);
    TempIsNotOutput(fileId, file.filename, name);
    var err;
    err, fs' := CompressAt(fs, lib, file.content, input, out, targetMb, quality);
    if err.Some? {
      r := err.value;
      return;
    }
    match Size(fs', input)
    case Failure(e) =>
      r := Reraise(e);
    case Success(_) =>
      assert false;
  }

  /** The answer compress_video evidently intends: the original size is the upload's,
      taken before the service removes the input. */
  method CompressCorrected(fs: Fs, lib: VideoLib, file: UploadFile, fileId: string, cid: string,
                           targetMb: Option<int> := None, quality: int := 75)
    returns (r: Reply<ConversionResponse>, fs': Fs)
    requires FreshId(fileId) && FreshId(cid)
    ensures r.Fail? ==> r.status == 500
    ensures QualityCheck(quality).Some? ==> r == Rejected(QualityCheck(quality).value) && fs' == fs
    ensures var input := SavePath(Config.TEMP_DIR, fileId, file.filename);
      var out := OutputPath("compressed_" + cid + Ext(file.filename));
      var data := CompressedVideo(lib, file.content, out, targetMb, quality);
      && (r.Ok? <==> QualityCheck(quality).None? && Writable(fs, input) && data.Some? && Writable(fs, out)
                     && |file.content| > 0)
      && (r.Ok? ==> fs' == Produced(fs, input, file.content, out, data.value)
                    && r.body == CompletedResponse("Video compressed successfully. Size reduced by "
                                                   + RatioText(|file.content|, |data.value|).value + "%", cid,
                                                   Some(SameTypeInfo("video", "compressed", cid, file.filename, |data.value|))))
  {
    fs' := fs;
    var check := QualityCheck(quality);
    if check.Some? {
      r := Rejected(check.value);
      return;
    }
    var input := SavePath(Config.TEMP_DIR, fileId, file.filename);
    var original := |file.content|;
    var name := "compressed_" + cid + Ext(file.filename);
    var out := OutputPath(name);
    TempIsNotOutput(fileId, file.filename, name);
    var err;
    err, fs' := CompressAt(fs, lib, file.content, input, out, targetMb, quality);
    if err.Some? {
      r := err.value;
      return;
    }
    var compressed := Size(fs', out).value;
    match RatioText(original, compressed)
    case None =>
      r := Reraise(External("division by zero"));
    case Some(ratio) =>
      r := Ok(CompletedResponse("Video compressed successfully. Size reduced by " + ratio + "%", cid,
                                Some(SameTypeInfo("video", "compressed", cid, file.filename, compressed))));
  }

  // ---------------------------------------------------------------- trim

  /** POST /trim: trimmed_{cid}{ext}, keeping the upload's extension. */
  method Trim(fs: Fs, lib: VideoLib, file: UploadFile, fileId: string, cid: string,
              start: real := 0.0, end: Option<real> := None)
    returns (r: Reply<ConversionResponse>, fs': Fs)
    requires FreshId(fileId) && FreshId(cid)
    ensures TrimCheck(start, end).Some? ==> r == Rejected(TrimCheck(start, end).value) && fs' == fs
    ensures r.Fail? ==> r.status == 500
    ensures var input := SavePath(Config.TEMP_DIR, fileId, file.filename);
      var out := OutputPath("trimmed_" + cid + Ext(file.filename));
      var data := TrimmedVideo(lib, file.content, out, start, end);
      && (r.Ok? <==> TrimCheck(start, end).None? && Writable(fs, input) && data.Some? && Writable(fs, out))
      && (r.Ok? ==> fs' == Produced(fs, input, file.content, out, data.value)
                    && r.body == CompletedResponse("Video trimmed successfully", cid,
                                                   Some(SameTypeInfo("video", "trimmed", cid, file.filename, |data.value|))))
  {
    fs' := fs;
    var check := TrimCheck(start, end);
    if check.Some? {
      r := Rejected(check.value);
      return;
    }
    var input := SavePath(Config.TEMP_DIR, fileId, file.filename);
    var name := "trimmed_" + cid + Ext(file.filename);
    var out := OutputPath(name);
    TempIsNotOutput(fileId, file.filename, name);
    var size;
    size, fs' := TrimAt(fs, lib, file.content, input, out, start, end);
    match size
    case Failure(e) =>
      r := e;
    case Success(n) =>
      r := Ok(CompletedResponse("Video trimmed successfully", cid, Some(SameTypeInfo("video", "trimmed", cid, file.filename, n))));
  }

  /** The body of trim_video from the save of the upload on, at given paths. */
  method TrimAt(fs: Fs, lib: VideoLib, content: Bytes, input: Path, out: Path, start: real, end: Option<real>)
    returns (size: Result<nat, Reply<ConversionResponse>>, fs': Fs)
    requires input != out
    ensures size.Failure? ==> size.error.Fail? && size.error.status == 500
    ensures var data := TrimmedVideo(lib, content, out, start, end);
      && (size.Success? <==> Writable(fs, input) && data.Some? && Writable(fs, out))
      && (size.Success? ==> fs' == Produced(fs, input, content, out, data.value) && size.value == |data.value|)
  {
    fs' := fs;
    match Write(fs, input, content)
    case Failure(e) =>
      size := Failure(Reraise(e));
      return;
    case Success(saved) =>
      fs' := saved;
    var ok;
    ok, fs' := TrimVideo(fs', lib, input, out, start, end);
    if !ok {
      size := Failure(Reraise(HttpError(500, "Failed to trim video")));
      return;
    }
    size := Success(Size(fs', out).value);
  }

  // ---------------------------------------------------------------- gif

  /** POST /to-gif: converted_{cid}.gif, reported as image/gif. */
  method ToGif(fs: Fs, lib: VideoLib, file: UploadFile, fileId: string, cid: string,
               start: real := 0.0, duration: Option<real> := None, fps: int := 10, width: Option<int> := None)
    returns (r: Reply<ConversionResponse>, fs': Fs)
    requires FreshId(fileId) && FreshId(cid)
    ensures GifCheck(start, duration, fps).Some? ==> r == Rejected(GifCheck(start, duration, fps).value) && fs' == fs
    ensures r.Fail? ==> r.status == 500
    ensures var input := SavePath(Config.TEMP_DIR, fileId, file.filename);
      var name := "converted_" + cid + ".gif";
      var data := GifBytes(lib, file.content, OutputPath(name), start, duration, fps, width);
      && (r.Ok? <==> GifCheck(start, duration, fps).None? && Writable(fs, input) && data.Some?
                     && Writable(fs, OutputPath(name)))
      && (r.Ok? ==> fs' == Produced(fs, input, file.content, OutputPath(name), data.value)
                    && r.body == CompletedResponse("Video converted to GIF successfully", cid,
                                                   Some(FileInfo(name, |data.value|, "gif", "image/gif"))))
  {
    fs' := fs;
    var check := GifCheck(start, duration, fps);
    if check.Some? {
      r := Rejected(check.value);
      return;
    }
    var input := SavePath(Config.TEMP_DIR, fileId, file.filename);
    var name := "converted_" + cid + ".gif";
    var out := OutputPath(name);
    TempIsNotOutput(fileId, file.filename, name);
    var size;
    size, fs' := ToGifAt(fs, lib, file.content, input, out, start, duration, fps, width);
    match size
    case Failure(e) =>
      r := e;
    case Success(n) =>
      r := Ok(CompletedResponse("Video converted to GIF successfully", cid, Some(FileInfo(name, n, "gif", "image/gif"))));
  }

  /** The body of video_to_gif from the save of the upload on, at given paths. */
  method ToGifAt(fs: Fs, lib: VideoLib, content: Bytes, input: Path, out: Path, start: real,
                 duration: Option<real>, fps: int, width: Option<int>)
    returns (size: Result<nat, Reply<ConversionResponse>>, fs': Fs)
    requires input != out
    ensures size.Failure? ==> size.error.Fail? && size.error.status == 500
    ensures var data := GifBytes(lib, content, out, start, duration, fps, width);
      && (size.Success? <==> Writable(fs, input) && data.Some? && Writable(fs, out))
      && (size.Success? ==> fs' == Produced(fs, input, content, out, data.value) && size.value == |data.value|)
  {
    fs' := fs;
    match Write(fs, input, content)
    case Failure(e) =>
      size := Failure(Reraise(e));
      return;
    case Success(saved) =>
      fs' := saved;
    var ok;
    ok, fs' := VideoToGif(fs', lib, input, out, start, duration, fps, width);
    if !ok {
      size := Failure(Reraise(HttpError(500, "Failed to convert video to GIF")));
      return;
    }
    size := Success(Size(fs', out).value);
  }
}
