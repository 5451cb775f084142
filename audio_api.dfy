// The audio endpoints (app/api/v1/endpoints/audio.py).  As in the image and video
// endpoints, the parameter checks raise inside the `try` whose `except Exception`
// re-raises as 500.  Bitrate and sample rate reach the service unchecked.
module AudioApi {
  import opened Wrappers
  import opened Strings
  import opened Http
  import opened FileSystem
  import opened Schemas
  import opened Uploads
  import opened AudioService
  import Config

  // ---------------------------------------------------------------- checks

  /** The format check of convert_audio and merge_audio; `what` is "target" or "output". */
  function FormatCheck(what: string, fmt: string): (r: Option<string>)
    ensures r.None? <==> fmt in Config.SUPPORTED_AUDIO_FORMATS
    ensures r.Some? ==> r.value == "Unsupported " + what + " format. Supported: " + ListRepr(Config.SUPPORTED_AUDIO_FORMATS)
  {
    if fmt !in Config.SUPPORTED_AUDIO_FORMATS then
      Some("Unsupported " + what + " format. Supported: " + ListRepr(Config.SUPPORTED_AUDIO_FORMATS))
    else None
  }

  /** The check of adjust_volume: -50 <= change <= 50, both ends included. */
  function VolumeCheck(change: real): (r: Option<string>)
    ensures r.None? <==> -50.0 <= change <= 50.0
  {
    if !(-50.0 <= change <= 50.0) then Some("Volume change must be between -50dB and +50dB") else None
  }

  /** The verb of the volume message, by the sign of the change. */
  function VolumeAction(change: real): (r: string)
    ensures r == "increased" <==> change > 0.0
    ensures r == "decreased" <==> change < 0.0
    ensures r == "maintained" <==> change == 0.0
  {
    if change > 0.0 then "increased" else if change < 0.0 then "decreased" else "maintained"
  }

  /** `abs(volume_change)` */
  function Magnitude(change: real): (r: real)
    ensures r >= 0.0 && (r == change || r == -change)
  {
    if change < 0.0 then -change else change
  }

  /** The success message of adjust_volume; `floatStr` is Python's str() of a float. */
  function VolumeMessage(change: real, floatStr: real -> string): string
  {
    "Audio volume " + VolumeAction(change) + " by " + floatStr(Magnitude(change)) + "dB"
  }

  /** Changes of opposite sign report the same amount under opposite verbs. */
  lemma VolumeMessageSymmetric(change: real, floatStr: real -> string)
    requires change > 0.0
    ensures VolumeMessage(change, floatStr) == "Audio volume increased by " + floatStr(change) + "dB"
    ensures VolumeMessage(-change, floatStr) == "Audio volume decreased by " + floatStr(change) + "dB"
  {
  }

  // ---------------------------------------------------------------- convert

  /** POST /convert: converted_{cid}.{fmt} with MIME type audio/{fmt}. */
  method Convert(fs: Fs, lib: AudioLib, file: UploadFile, fileId: string, cid: string,
                 targetFormat: string := "mp3", bitrate: Option<int> := None, sampleRate: Option<int> := None)
    returns (r: Reply<ConversionResponse>, fs': Fs)
    requires FreshId(fileId) && FreshId(cid)
    ensures FormatCheck("target", targetFormat).Some? ==>
      r == Rejected(FormatCheck("target", targetFormat).value) && fs' == fs
    ensures r.Fail? ==> r.status == 500
    ensures var input := SavePath(Config.TEMP_DIR, fileId, file.filename);
      var name := "converted_" + cid + "." + targetFormat;
      var data := ConvertedAudio(lib, file.content, OutputPath(name), targetFormat, bitrate, sampleRate);
      && (r.Ok? <==> FormatCheck("target", targetFormat).None? && Writable(fs, input) && lib.available
                     && data.Some? && Writable(fs, OutputPath(name)))
      && (r.Ok? ==> fs' == Produced(fs, input, file.content, OutputPath(name), data.value)
                    && r.body == CompletedResponse("Audio converted to " + Upper(targetFormat) + " successfully", cid,
                                                   Some(FileInfo(name, |data.value|, targetFormat, "audio/" + targetFormat))))
  {
    fs' := fs;
    var check := FormatCheck("target", targetFormat);
    if check.Some? {
      r := Rejected(check.value);
      return;
    }
    var input := SavePath(Config.TEMP_DIR, fileId, file.filename);
    var name := "converted_" + cid + "." + targetFormat;
    var out := OutputPath(name);
    TempIsNotOutput(fileId, file.filename, name);
    var size;
    size, fs' := ConvertAt(fs, lib, file.content, input, out, targetFormat, bitrate, sampleRate);
    match size
    case Failure(e) =>
      r := e;
    case Success(n) =>
      r := Ok(CompletedResponse("Audio converted to " + Upper(targetFormat) + " successfully", cid,
                                Some(FileInfo(name, n, targetFormat, "audio/" + targetFormat))));
  }

  /** The body of convert_audio from the save of the upload on, at given paths. */
  method ConvertAt(fs: Fs, lib: AudioLib, content: Bytes, input: Path, out: Path, fmt: string,
                   bitrate: Option<int>, sampleRate: Option<int>)
    returns (size: Result<nat, Reply<ConversionResponse>>, fs': Fs)
    requires input != out
    ensures size.Failure? ==> size.error.Fail? && size.error.status == 500
    ensures var data := ConvertedAudio(lib, content, out, fmt, bitrate, sampleRate);
      && (size.Success? <==> Writable(fs, input) && lib.available && data.Some? && Writable(fs, out))
      && (size.Success? ==> fs' == Produced(fs, input, content, out, data.value) && size.value == |data.value|)
  {
    fs' := fs;
    match Write(fs, input, content)
    case Failure(e) =>
      size := Failure(Reraise(e));
      return;
    case Success(saved) =>
      fs' := saved;
    var ok;
    ok, fs' := ConvertAudio(fs', lib, input, out, fmt, bitrate, sampleRate);
    if !ok {
      size := Failure(Reraise(HttpError(500, "Failed to convert audio")));
      return;
    }
    size := Success(Size(fs', out).value);
  }

  // ---------------------------------------------------------------- trim

  /** POST /trim: trimmed_{cid}{ext}, keeping the upload's extension. */
  method Trim(fs: Fs, lib: AudioLib, file: UploadFile, fileId: string, cid: string,
              start: real := 0.0, end: Option<real> := None)
    returns (r: Reply<ConversionResponse>, fs': Fs)
    requires FreshId(fileId) && FreshId(cid)
    ensures TrimCheck(start, end).Some? ==> r == Rejected(TrimCheck(start, end).value) && fs' == fs
    ensures r.Fail? ==> r.status == 500
    ensures var input := SavePath(Config.TEMP_DIR, fileId, file.filename);
      var out := OutputPath("trimmed_" + cid + Ext(file.filename));
      var data := TrimmedAudio(lib, file.content, out, start, end);
      && (r.Ok? <==> TrimCheck(start, end).None? && Writable(fs, input) && lib.available && data.Some? && Writable(fs, out))
      && (r.Ok? ==> fs' == Produced(fs, input, file.content, out, data.value)
                    && r.body == CompletedResponse("Audio trimmed successfully", cid,
                                                   Some(SameTypeInfo("audio", "trimmed", cid, file.filename, |data.value|))))
  {
    fs' := fs;
    var check := TrimCheck(start, end);
    if check.Some? {
      r := Rejected(check.value);
      return;
    }
    var input := SavePath(Config.TEMP_DIR, fileId, file.filename);
    var name := "trimmed_" + cid + Ext(file.filename);
    var out := OutputPath(name);
    TempIsNotOutput(fileId, file.filename, name);
    var size;
    size, fs' := TrimAt(fs, lib, file.content, input, out, start, end);
    match size
    case Failure(e) =>
      r := e;
    case Success(n) =>
      r := Ok(CompletedResponse("Audio trimmed successfully", cid, Some(SameTypeInfo("audio", "trimmed", cid, file.filename, n))));
  }

  /** The body of trim_audio from the save of the upload on, at given paths. */
  method TrimAt(fs: Fs, lib: AudioLib, content: Bytes, input: Path, out: Path, start: real, end: Option<real>)
    returns (size: Result<nat, Reply<ConversionResponse>>, fs': Fs)
    requires input != out
    ensures size.Failure? ==> size.error.Fail? && size.error.status == 500
    ensures var data := TrimmedAudio(lib, content, out, start, end);
      && (size.Success? <==> Writable(fs, input) && lib.available && data.Some? && Writable(fs, out))
      && (size.Success? ==> fs' == Produced(fs, input, content, out, data.value) && size.value == |data.value|)
  {
    fs' := fs;
    match Write(fs, input, content)
    case Failure(e) =>
      size := Failure(Reraise(e));
      return;
    case Success(saved) =>
      fs' := saved;
    var ok;
    ok, fs' := TrimAudio(fs', lib, input, out, start, end);
    if !ok {
      size := Failure(Reraise(HttpError(500, "Failed to trim audio")));
      return;
    }
    size := Success(Size(fs', out).value);
  }

  // ---------------------------------------------------------------- merge

  /** POST /merge: every upload saved under its own fresh id, in upload order, then merged
      into merged_{cid}.{fmt}.  No minimum count is checked, so an empty list reaches the
      service, which refuses it. */
  method Merge(fs: Fs, lib: AudioLib, files: seq<UploadFile>, ids: seq<string>, cid: string,
               outputFormat: string := "mp3")
    returns (r: Reply<ConversionResponse>, fs': Fs)
    requires Valid(fs)
    requires |ids| == |files| && (forall i :: 0 <= i < |ids| ==> FreshId(ids[i])) && FreshId(cid)
    ensures FormatCheck("output", outputFormat).Some? ==>
      r == Rejected(FormatCheck("output", outputFormat).value) && fs' == fs
    ensures r.Fail? ==> r.status == 500
    ensures files == [] ==> r.Fail?
    ensures var paths := SavePaths(Config.TEMP_DIR, ids, files);
      var out := OutputPath("merged_" + cid + "." + outputFormat);
      var saved := Saved(fs, paths, files);
      r.Ok? <==> FormatCheck("output", outputFormat).None? && AllWritable(fs, paths) && lib.available && files != []
                 && Joined(saved, lib, paths).Some?
                 && lib.save(Segment(Joined(saved, lib, paths).value), out, FormatOf(out), None).Some?
                 && Writable(fs, out)
    ensures r.Ok? ==>
      var paths := SavePaths(Config.TEMP_DIR, ids, files);
      var name := "merged_" + cid + "." + outputFormat;
      var saved := Saved(fs, paths, files);
      var data := lib.save(Segment(Joined(saved, lib, paths).value), OutputPath(name), FormatOf(OutputPath(name)), None).value;
      && fs' == saved.(files := saved.files[OutputPath(name) := File(data, fs.clock)] - PathSet(paths))
      && r.body == CompletedResponse("Audio files merged successfully", cid,
                                     Some(FileInfo(name, |data|, outputFormat, "audio/" + outputFormat)))
  {
    fs' := fs;
    var check := FormatCheck("output", outputFormat);
    if check.Some? {
      r := Rejected(check.value);
      return;
    }
    var paths := SavePaths(Config.TEMP_DIR, ids, files);
    var err: Option<Exc>, done: nat;
    err, done, fs' := WriteAll(fs, paths, Contents(files));
    if err.Some? {
      r := Reraise(err.value);
      return;
    }
    var name := "merged_" + cid + "." + outputFormat;
    var out := OutputPath(name);
    var ok;
    ok, fs' := MergeAudio(fs', lib, paths, out);
    if !ok {
      r := Reraise(HttpError(500, "Failed to merge audio files"));
      return;
    }
    forall i | 0 <= i < |paths|
      ensures paths[i] != out
    {
      TempIsNotOutput(ids[i], files[i].filename, name);
    }
    var size := Size(fs', out).value;
    r := Ok(CompletedResponse("Audio files merged successfully", cid,
                              Some(FileInfo(name, size, outputFormat, "audio/" + outputFormat))));
  }

  // ---------------------------------------------------------------- volume

  /** POST /volume-adjust: volume_adjusted_{cid}{ext}, with a message naming the direction
      and the magnitude of the change. */
  method AdjustVolume(fs: Fs, lib: AudioLib, file: UploadFile, fileId: string, cid: string,
                      floatStr: real -> string, change: real := 0.0)
    returns (r: Reply<ConversionResponse>, fs': Fs)
    requires FreshId(fileId) && FreshId(cid)
    ensures VolumeCheck(change).Some? ==> r == Rejected(VolumeCheck(change).value) && fs' == fs
    ensures r.Fail? ==> r.status == 500
    ensures var input := SavePath(Config.TEMP_DIR, fileId, file.filename);
      var out := OutputPath("volume_adjusted_" + cid + Ext(file.filename));
      var data := AdjustedAudio(lib, file.content, out, change);
      && (r.Ok? <==> VolumeCheck(change).None? && Writable(fs, input) && lib.available && data.Some? && Writable(fs, out))
      && (r.Ok? ==> fs' == Produced(fs, input, file.content, out, data.value)
                    && r.body == CompletedResponse(VolumeMessage(change, floatStr), cid,
                                                   Some(SameTypeInfo("audio", "volume_adjusted", cid, file.filename, |data.value|))))
  {
    fs' := fs;
    var check := VolumeCheck(change);
    if check.Some? {
      r := Rejected(check.value);
      return;
    }
    var input := SavePath(Config.TEMP_DIR, fileId, file.filename);
    var name := "volume_adjusted_" + cid + Ext(file.filename);
    var out := OutputPath(name);
    TempIsNotOutput(fileId, file.filename, name);
    var size;
    size, fs' := AdjustVolumeAt(fs, lib, file.content, input, out, change);
    match size
    case Failure(e) =>
      r := e;
    case Success(n) =>
      r := Ok(CompletedResponse(VolumeMessage(change, floatStr), cid,
                                Some(SameTypeInfo("audio", "volume_adjusted", cid, file.filename, n))));
  }

  /** The body of adjust_volume from the save of the upload on, at given paths. */
  method AdjustVolumeAt(fs: Fs, lib: AudioLib, content: Bytes, input: Path, out: Path, change: real)
    returns (size: Result<nat, Reply<ConversionResponse>>, fs': Fs)
    requires input != out
    ensures size.Failure? ==> size.error.Fail? && size.error.status == 500
    ensures var data := AdjustedAudio(lib, content, out, change);
      && (size.Success? <==> Writable(fs, input) && lib.available && data.Some? && Writable(fs, out))
      && (size.Success? ==> fs' == Produced(fs, input, content, out, data.value) && size.value == |data.value|)
  {
    fs' := fs;
    match Write(fs, input, content)
    case Failure(e) =>
      size := Failure(Reraise(e));
      return;
    case Success(saved) =>
      fs' := saved;
    var ok;
    ok, fs' := AudioService.AdjustVolume(fs', lib, input, out, change);
    if !ok {
      size := Failure(Reraise(HttpError(500, "Failed to adjust audio volume")));
      return;
    }
    size := Success(Size(fs', out).value);
  }
}
