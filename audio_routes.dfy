// The backend's audio router (backend/routes/audio_routes.py, prefix /api/audio).  A
// route checks the uploads' extensions and its parameters before anything is saved,
// saves each upload under uploads/ with a fresh id, asks validate_audio_file whether
// it is audio, runs one helper, removes the uploads and serves the output.  When
// anything in between raises, even the 400 of a rejected upload, the route removes
// the files it knows of and answers 500 with str(e).  The helpers are those of
// audio_utils, or of audio_utils_simple when that import fails.
module AudioRoutes {
  import opened Wrappers
  import opened Strings
  import opened Http
  import opened FileSystem
  import opened AudioTools
  import AudioUtils
  import AudioUtilsSimple
  import Uploads
  import PdfRoutes

  type UploadFile = Uploads.UploadFile

  /** Which helper module the router's import bound. */
  datatype Helpers = Full | Simple

  /** A header value; str() of a number is kept as the number. */
  datatype Value = Num(x: real) | Count(n: int) | Str(s: string)

  /** A FileResponse with the headers it carries. */
  datatype AudioFile = AudioFile(path: Path, mediaType: string, filename: string, headers: seq<(string, Value)>)

  const MPEG := "audio/mpeg"
  const INVALID := "Invalid or corrupted audio file"
  const EXACTLY_TWO := "Exactly 2 audio files required for overlay"
  const NOT_FOUND := "Audio file not found"
  const BAD_VOLUME := "Volume change must be between -60dB and +60dB"
  const NEGATIVE_FADE := "Fade times cannot be negative"
  const LONG_FADE := "Fade times cannot exceed 30 seconds"
  const DEMO_MESSAGE := "Demo audio files generated successfully. Use the file IDs to download or merge them."

  /** The formats convert may produce. */
  const OUTPUT_FORMATS: seq<string> := ["mp3", "wav", "flac", "aac", "ogg", "m4a"]

  const FEATURES: seq<string> :=
    ["trim", "convert", "volume_adjust", "merge", "fade_effects", "info_extraction", "audio_generation", "overlay_merge"]

  /** get_supported_formats() of the bound helpers: the same list either way. */
  function SupportedFormats(h: Helpers): (r: seq<string>)
    ensures r == AudioUtils.SUPPORTED_FORMATS
  {
    AudioUtilsSimple.SameFormats();
    if h.Full? then AudioUtils.SUPPORTED_FORMATS else AudioUtilsSimple.SUPPORTED_FORMATS
  }

  const UNSUPPORTED := "Unsupported audio format. Supported formats: " + Join(", ", AudioUtils.SUPPORTED_FORMATS)

  function UnsupportedIn(filename: string): string
  {
    "Unsupported audio format in file " + filename + ". Supported formats: " + Join(", ", AudioUtils.SUPPORTED_FORMATS)
  }

  const UNSUPPORTED_OUTPUT := "Unsupported output format. Supported formats: " + Join(", ", OUTPUT_FORMATS)

  // ---------------------------------------------------------------- names

  /** `file.filename.lower().split('.')[-1]`: the lower-cased text after the last dot,
      or the whole lower-cased name, taken one character at a time from the end. */
  function Extension(filename: string): string
  {
    if filename == [] || filename[|filename| - 1] == '.' then []
    else Extension(filename[..|filename| - 1]) + [LowerChar(filename[|filename| - 1])]
  }

  /** The extension is the text after the last dot, lower-cased. */
  lemma {:induction false} ExtensionAfterLastDot(filename: string)
    ensures Extension(filename) == Lower(filename[LastIndexOf(filename, '.') + 1..])
    decreases |filename|
  {
    var n := |filename|;
    if filename != [] && filename[n - 1] != '.' {
      var init, x := filename[..n - 1], filename[n - 1];
      ExtensionAfterLastDot(init);
      var k := LastIndexOf(init, '.');
      assert filename[k + 1..] == init[k + 1..] + [x];
      LowerSnoc(init[k + 1..], x);
    }
  }

  /** The same, in the terms validate_audio_file uses. */
  lemma ExtensionAfterDot(filename: string)
    ensures Extension(filename) == Lower(AfterDot(filename)) == AfterDot(Lower(filename))
  {
    ExtensionAfterLastDot(filename);
    assert AfterDot(filename) == filename[LastIndexOf(filename, '.') + 1..];
    LowerAfterDot(filename);
  }

  predicate SupportedName(filename: string)
  {
    Extension(filename) in AudioUtils.SUPPORTED_FORMATS
  }

  /** `filename.rsplit('.', 1)[0]`: the name without its last extension. */
  function Stem(filename: string): (r: string)
    ensures '.' in filename ==> r + "." + AfterDot(filename) == filename
    ensures '.' !in filename ==> r == filename
  {
    BeforeLast(filename, '.')
  }

  /** Where a one-file route saves its upload: `f"{file_id}_{file.filename}"`. */
  function InputPath(id: string, filename: string): Path
    requires Uploads.FreshId(id)
  {
    PdfRoutes.UploadPath(PdfRoutes.Saved(id, filename))
  }

  /** Where a route writes its output: `f"{prefix}{file_id}{rest}"` under uploads/. */
  function OutputPath(prefix: string, id: string, rest: string): Path
  {
    PdfRoutes.UploadPath(prefix + id + rest)
  }

  /** An output is never where an upload is saved, when its prefix holds, within the
      id's length, a character no uuid holds. */
  lemma OutputIsNotInput(id: string, prefix: string, k: nat, rest: string, name: string)
    requires Uploads.FreshId(id) && k < |prefix| && k < 36 && prefix[0] != '/'
    requires !Uploads.UuidChar(prefix[k])
    ensures OutputPath(prefix, id, rest) != InputPath(id, name)
  {
    PdfRoutes.OutputApart(id, prefix, k, id + rest, name);
    assert prefix + (id + rest) == prefix + id + rest;
  }

  // ---------------------------------------------------------------- health, formats, download

  datatype Health = Health(audioServices: string, supportedFormats: seq<string>, features: seq<string>)

  /** GET /health: operational, with the helpers' formats and the eight features. */
  function HealthCheck(h: Helpers): (r: Health)
    ensures r.audioServices == "operational" && r.supportedFormats == AudioUtils.SUPPORTED_FORMATS
    ensures |r.features| == 8
  {
    Health("operational", SupportedFormats(h), FEATURES)
  }

  datatype Formats = Formats(supported: seq<string>, input: seq<string>, output: seq<string>)

  /** GET /formats: every format is accepted as input, and every output format is one
      the helpers have a codec of their own for. */
  function SupportedAudioFormats(h: Helpers): (r: Formats)
    ensures r.supported == r.input == AudioUtils.SUPPORTED_FORMATS && r.output == OUTPUT_FORMATS
    ensures forall f :: f in r.output ==> f in r.input && f in AudioUtils.CODECS && Lower(f) == f
  {
    Formats(SupportedFormats(h), SupportedFormats(h), OUTPUT_FORMATS)
  }

  /** `os.path.join(UPLOAD_DIR, f"{file_id}.mp3")` */
  function DownloadPath(fileId: string): Path
  {
    PdfRoutes.UploadPath(fileId + ".mp3")
  }

  /** GET /download/{file_id}: the MP3 of that id, or 404 when nothing is at its path. */
  function Download(fs: Fs, fileId: string): (r: Reply<AudioFile>)
    ensures r.Ok? <==> Exists(fs, DownloadPath(fileId))
    ensures r.Ok? ==> r.body == AudioFile(DownloadPath(fileId), MPEG, fileId + ".mp3", [])
    ensures r.Fail? ==> r == Fail(404, Text(NOT_FOUND))
  {
    if !Exists(fs, DownloadPath(fileId)) then Fail(404, Text(NOT_FOUND))
    else Ok(AudioFile(DownloadPath(fileId), MPEG, fileId + ".mp3", []))
  }

  // ---------------------------------------------------------------- validation

  /** What validate_audio_file answers for an upload saved at `p` with `data`. */
  predicate Accepted(ff: Ffmpeg, p: Path, data: Bytes)
  {
    if !ff.available then Extension(p) in AudioUtils.SUPPORTED_FORMATS
    else AudioUtils.HasAudio(ff.probe(Some(data)))
  }

  predicate AllAccepted(ff: Ffmpeg, paths: seq<Path>, files: seq<UploadFile>)
    requires |paths| == |files|
  {
    forall i :: 0 <= i < |paths| ==> Accepted(ff, paths[i], files[i].content)
  }

  /** validate_audio_file on a path just written (both helper modules hold the same
      code). */
  method Validate(fs: Fs, ff: Ffmpeg, p: Path, data: Bytes) returns (ok: bool)
    requires p in fs.files && fs.files[p].data == data
    ensures ok == Accepted(ff, p, data)
  {
    ExtensionAfterDot(p);
    ok := AudioUtils.ValidateAudioFile(fs, ff, p);
  }

  /** The detail of a rejected upload among several. */
  function InvalidNamed(filename: string): string
  {
    INVALID + ": " + filename
  }

  // ---------------------------------------------------------------- the one-file routes

  /** The helper a one-file route runs, with its parameters. */
  datatype Op =
    | TrimOp(start: real, end: real)
    | ConvertOp(format: string)
    | VolumeOp(change: real)
    | FadeOp(fadeIn: real, fadeOut: real)

  /** The headers a route serves its output with, for whatever duration the helper
      reported. */
  predicate HeadersFor(op: Op, input: Path, hs: seq<(string, Value)>)
  {
    match op
    case TrimOp(start, end) =>
      |hs| == 4 && hs[0].0 == "X-Original-Duration" && hs[0].1.Num? &&
      hs[1..] == [("X-Trimmed-Duration", Num(end - start)), ("X-Start-Time", Num(start)), ("X-End-Time", Num(end))]
    case ConvertOp(format) =>
      |hs| == 3 && hs[..2] == [("X-Original-Format", Str(AfterDot(input))), ("X-Output-Format", Str(format))] &&
      hs[2].0 == "X-Duration" && hs[2].1.Num?
    case VolumeOp(change) =>
      |hs| == 2 && hs[0] == ("X-Volume-Change", Num(change)) && hs[1].0 == "X-Duration" && hs[1].1.Num?
    case FadeOp(fadeIn, fadeOut) =>
      |hs| == 3 && hs[..2] == [("X-Fade-In", Num(fadeIn)), ("X-Fade-Out", Num(fadeOut))] &&
      hs[2].0 == "X-Duration" && hs[2].1.Num?
  }

  /** trim_audio of the bound helpers, and the headers built from its dict. */
  method RunTrim(h: Helpers, fs: Fs, ff: Ffmpeg, input: Path, output: Path, start: real, end: real)
    returns (hs: Result<seq<(string, Value)>, Exc>, fs': Fs)
    ensures hs.Failure? ==> fs' == fs
    ensures hs.Success? ==> Produced(fs, fs', output) && HeadersFor(TrimOp(start, end), input, hs.value)
    ensures hs.Success? && (h.Full? || ff.available) ==> 0.0 <= start < end <= hs.value[0].1.x
    ensures h.Full? && !ff.available ==> hs.Failure?
    ensures h.Simple? && ff.available && 0.0 <= start && end > 5.0 ==> hs.Failure?
    ensures h.Simple? && !ff.available ==> (hs.Success? <==> Copy(fs, input, output).Success?)
  {
    var r;
    if h.Full? {
      r, fs' := AudioUtils.TrimAudio(fs, ff, input, output, start, end);
    } else {
      r, fs' := AudioUtilsSimple.TrimAudio(fs, ff, input, output, start, end);
    }
    hs := if r.Failure? then Failure(r.error) else Success(TrimHeaders(r.value, input, start, end));
  }

  /** The headers of a trimmed output, from the dict trim_audio returned. */
  function TrimHeaders(info: TrimInfo, input: Path, start: real, end: real): (hs: seq<(string, Value)>)
    requires info.trimmedDuration == end - start
    ensures HeadersFor(TrimOp(start, end), input, hs) && hs[0].1 == Num(info.originalDuration)
  {
    [("X-Original-Duration", Num(info.originalDuration)), ("X-Trimmed-Duration", Num(info.trimmedDuration)),
     ("X-Start-Time", Num(start)), ("X-End-Time", Num(end))]
  }

  /** convert_audio_format of the bound helpers, and its headers. */
  method RunConvert(h: Helpers, fs: Fs, ff: Ffmpeg, input: Path, output: Path, format: string)
    returns (hs: Result<seq<(string, Value)>, Exc>, fs': Fs)
    ensures hs.Failure? ==> fs' == fs
    ensures hs.Success? ==> Produced(fs, fs', output) && HeadersFor(ConvertOp(format), input, hs.value)
    ensures h.Full? && !ff.available ==> hs.Failure?
    ensures h.Simple? && !ff.available ==> (hs.Success? <==> Copy(fs, input, output).Success?)
  {
    var r;
    if h.Full? {
      r, fs' := AudioUtils.ConvertAudioFormat(fs, ff, input, output, format);
    } else {
      r, fs' := AudioUtilsSimple.ConvertAudioFormat(fs, ff, input, output, format);
    }
    hs := if r.Failure? then Failure(r.error) else
      Success([("X-Original-Format", Str(r.value.originalFormat)), ("X-Output-Format", Str(format)),
               ("X-Duration", Num(r.value.duration))]);
  }

  /** adjust_volume of the bound helpers, and its headers. */
  method RunVolume(h: Helpers, fs: Fs, ff: Ffmpeg, input: Path, output: Path, change: real)
    returns (hs: Result<seq<(string, Value)>, Exc>, fs': Fs)
    ensures hs.Failure? ==> fs' == fs
    ensures hs.Success? ==> Produced(fs, fs', output) && HeadersFor(VolumeOp(change), input, hs.value)
    ensures h.Full? && !ff.available ==> hs.Failure?
    ensures h.Simple? && !ff.available ==> (hs.Success? <==> Copy(fs, input, output).Success?)
  {
    var r;
    if h.Full? {
      r, fs' := AudioUtils.AdjustVolume(fs, ff, input, output, change);
    } else {
      r, fs' := AudioUtilsSimple.AdjustVolume(fs, ff, input, output, change);
    }
    hs := if r.Failure? then Failure(r.error) else
      Success([("X-Volume-Change", Num(change)), ("X-Duration", Num(r.value.duration))]);
  }

  /** add_fade_effects of the bound helpers, and its headers. */
  method RunFade(h: Helpers, fs: Fs, ff: Ffmpeg, input: Path, output: Path, fadeIn: real, fadeOut: real)
    returns (hs: Result<seq<(string, Value)>, Exc>, fs': Fs)
    ensures hs.Failure? ==> fs' == fs
    ensures hs.Success? ==> Produced(fs, fs', output) && HeadersFor(FadeOp(fadeIn, fadeOut), input, hs.value)
    ensures h.Full? && !ff.available ==> hs.Failure?
    ensures h.Simple? && !ff.available ==> (hs.Success? <==> Copy(fs, input, output).Success?)
  {
    var r;
    if h.Full? {
      r, fs' := AudioUtils.AddFadeEffects(fs, ff, input, output, fadeIn, fadeOut);
    } else {
      r, fs' := AudioUtilsSimple.AddFadeEffects(fs, ff, input, output, fadeIn, fadeOut);
    }
    hs := if r.Failure? then Failure(r.error) else
      Success([("X-Fade-In", Num(fadeIn)), ("X-Fade-Out", Num(fadeOut)), ("X-Duration", Num(r.value.totalDuration))]);
  }

  /** The helper of `op` on the saved upload.  Whichever module is bound, a failed
      helper leaves the disk alone. */
  method RunOp(h: Helpers, op: Op, fs: Fs, ff: Ffmpeg, input: Path, output: Path)
    returns (hs: Result<seq<(string, Value)>, Exc>, fs': Fs)
    ensures hs.Failure? ==> fs' == fs
    ensures hs.Success? ==> Produced(fs, fs', output) && HeadersFor(op, input, hs.value)
    ensures h.Full? && !ff.available ==> hs.Failure?
    ensures h.Simple? && !ff.available ==> (hs.Success? <==> Copy(fs, input, output).Success?)
  {
    match op
    case TrimOp(start, end) =>
      hs, fs' := RunTrim(h, fs, ff, input, output, start, end);
    case ConvertOp(format) =>
      hs, fs' := RunConvert(h, fs, ff, input, output, format);
    case VolumeOp(change) =>
      hs, fs' := RunVolume(h, fs, ff, input, output, change);
    case FadeOp(fadeIn, fadeOut) =>
      hs, fs' := RunFade(h, fs, ff, input, output, fadeIn, fadeOut);
  }

  /** A request that served its output: the directories as they were, the uploads
      gone, and, unless the output names a directory, the output written and every
      file away from the uploads, the helper's scratch files and the output as it
      was. */
  predicate Served(fs: Fs, fs': Fs, gone: seq<Path>, scratch: seq<Path>, output: Path)
  {
    && fs'.dirs == fs.dirs && (forall p :: p in gone ==> p !in fs'.files)
    && (output !in fs.dirs ==>
         output in fs'.files && WroteOnly(fs.files, fs'.files, [output]) && Kept(fs.files, fs'.files, gone + scratch + [output]))
  }

  /** The end of a route once its helper produced the output: `os.remove` of each
      upload and the response.  The uploads are files there, so the plain removal and
      the guarded one coincide. */
  method ServeSaved<T>(fs: Fs, saved: Fs, done: Fs, paths: seq<Path>, scratch: seq<Path>, output: Path, response: T)
    returns (r: Reply<T>, fs': Fs)
    requires saved.dirs == fs.dirs && done.dirs == fs.dirs && output !in paths
    requires forall p :: p in paths ==> p !in fs.dirs
    requires WroteOnly(fs.files, saved.files, paths) && Kept(fs.files, saved.files, paths)
    requires output !in fs.dirs ==>
      output in done.files && WroteOnly(saved.files, done.files, [output]) && Kept(saved.files, done.files, [output] + scratch)
    ensures r == Ok(response) && Served(fs, fs', paths, scratch, output)
  {
    var err;
    err, fs' := RemoveEach(done, paths);
    r := Ok(response);
    if output !in fs.dirs {
      assert forall p :: p in paths + scratch + [output] && p !in paths ==> p in [output] + scratch;
      KeptChain(fs.files, saved.files, done.files, paths, [output] + scratch, paths + scratch + [output]);
    }
  }


  /** What a one-file route promises once its checks passed: served, the upload
      saved and accepted, the output written with the headers of `op`; a rejected
      upload answers with the 400 it raised, wrapped in the 500 of the `except`
      clause, and leaves neither the upload nor an output; so does any other
      failure, unless a removal meets a directory. */
  predicate Handled(fs: Fs, fs': Fs, r: Reply<AudioFile>, ff: Ffmpeg, file: UploadFile, input: Path, output: Path,
                    op: Op, mediaType: string, name: string)
  {
    && (r.Ok? ==>
         && Writable(fs, input) && Accepted(ff, input, file.content)
         && r.body.path == output && r.body.mediaType == mediaType && r.body.filename == name
         && HeadersFor(op, input, r.body.headers) && Served(fs, fs', [input], [], output))
    && (Writable(fs, input) && !Accepted(ff, input, file.content) && output !in fs.dirs ==>
         r == Rejected(INVALID) && PdfRoutes.LeftNothing(fs, fs', [input, output]))
    && (r.Fail? ==> r.status == 500 && fs'.dirs == fs.dirs)
    && (r.Fail? && input !in fs.dirs && output !in fs.dirs ==> PdfRoutes.LeftNothing(fs, fs', [input, output]))
  }

  /** The `try` block of a one-file route: save, validate, run the helper, remove the
      upload, serve; on any exception remove the upload and the output and answer
      500. */
  method OneFile(fs: Fs, h: Helpers, ff: Ffmpeg, file: UploadFile, input: Path, output: Path, op: Op,
                 mediaType: string, name: string)
    returns (r: Reply<AudioFile>, fs': Fs)
    requires input != output
    ensures Handled(fs, fs', r, ff, file, input, output, op, mediaType, name)
    ensures h.Full? && !ff.available ==> r.Fail?
  {
    match Write(fs, input, file.content)
    case Failure(e) =>
      r, fs' := PdfRoutes.Abort(fs, [input, output], Reraise(e));
    case Success(saved) =>
      var ok := Validate(saved, ff, input, file.content);
      if !ok {
        r, fs' := PdfRoutes.AbortSaved(fs, saved, input, output, Rejected(INVALID));
        return;
      }
      var hs, done := RunOp(h, op, saved, ff, input, output);
      if hs.Failure? {
        r, fs' := PdfRoutes.AbortSaved(fs, saved, input, output, Reraise(hs.error));
        return;
      }
      r, fs' := ServeSaved(fs, saved, done, [input], [], output, AudioFile(output, mediaType, name, hs.value));
  }

  /** The checks of trim, in their order: the extension, a negative start, a start not
      before the end. */
  function TrimRejects(filename: string, start: real, end: real): (r: Option<string>)
    ensures !SupportedName(filename) ==> r == Some(UNSUPPORTED)
    ensures SupportedName(filename) && start < 0.0 ==> r == Some(AudioUtils.NEGATIVE_START)
    ensures SupportedName(filename) && 0.0 <= start && start >= end ==> r == Some(AudioUtils.START_NOT_BEFORE_END)
    ensures r.None? <==> SupportedName(filename) && 0.0 <= start < end
  {
    if !SupportedName(filename) then Some(UNSUPPORTED)
    else if start < 0.0 then Some(AudioUtils.NEGATIVE_START)
    else if start >= end then Some(AudioUtils.START_NOT_BEFORE_END)
    else None
  }

  function TrimOutput(id: string, filename: string): Path
  {
    OutputPath("trimmed_", id, "_" + Stem(filename) + ".mp3")
  }

  function TrimName(filename: string): string
  {
    "trimmed_" + Stem(filename) + ".mp3"
  }

  /** POST /trim: trimmed_{id}_{stem}.mp3, served as trimmed_{stem}.mp3 with the times
      in its headers. */
  method Trim(fs: Fs, h: Helpers, ff: Ffmpeg, file: UploadFile, start: real, end: real, id: string)
    returns (r: Reply<AudioFile>, fs': Fs)
    requires Uploads.FreshId(id)
    ensures TrimRejects(file.filename, start, end).Some? ==>
      r == Fail(400, Text(TrimRejects(file.filename, start, end).value)) && fs' == fs
    ensures TrimRejects(file.filename, start, end).None? ==>
      Handled(fs, fs', r, ff, file, InputPath(id, file.filename), TrimOutput(id, file.filename),
              TrimOp(start, end), MPEG, TrimName(file.filename))
  {
    var bad := TrimRejects(file.filename, start, end);
    if bad.Some? {
      return Fail(400, Text(bad.value)), fs;
    }
    OutputIsNotInput(id, "trimmed_", 0, "_" + Stem(file.filename) + ".mp3", file.filename);
    r, fs' := OneFile(fs, h, ff, file, InputPath(id, file.filename), TrimOutput(id, file.filename),
                      TrimOp(start, end), MPEG, TrimName(file.filename));
  }

  /** The media types convert serves, the dict of the route. */
  const MEDIA_TYPES: seq<(string, string)> :=
    [("mp3", "audio/mpeg"), ("wav", "audio/wav"), ("flac", "audio/flac"),
     ("aac", "audio/aac"), ("ogg", "audio/ogg"), ("m4a", "audio/mp4")]

  /** `dict.get(key, default)` on a table of pairs: the first entry of that key. */
  function Get(table: seq<(string, string)>, key: string, default: string): string
  {
    if table == [] then default
    else if table[0].0 == key then table[0].1
    else Get(table[1..], key, default)
  }

  /** A key the table lacks gets the default; a key it has gets its entry. */
  lemma {:induction false} GetFinds(table: seq<(string, string)>, key: string, default: string)
    ensures (forall i :: 0 <= i < |table| ==> table[i].0 != key) ==> Get(table, key, default) == default
    ensures forall i :: 0 <= i < |table| && table[i].0 == key && (forall j :: 0 <= j < i ==> table[j].0 != key) ==>
      Get(table, key, default) == table[i].1
  {
    if table != [] {
      GetFinds(table[1..], key, default);
      assert forall i :: 1 <= i < |table| ==> table[1..][i - 1] == table[i];
    }
  }

  /** `media_types.get(output_format, "audio/mpeg")`: the lookup keeps the caller's
      casing. */
  function MediaType(format: string): string
  {
    Get(MEDIA_TYPES, format, MPEG)
  }

  /** `format.lower() in formats`, one entry at a time. */
  predicate LowerIn(format: string, formats: seq<string>)
  {
    formats != [] && (Lower(format) == formats[0] || LowerIn(format, formats[1..]))
  }

  lemma {:induction false} LowerInIsIn(format: string, formats: seq<string>)
    ensures LowerIn(format, formats) <==> Lower(format) in formats
  {
    if formats != [] {
      LowerInIsIn(format, formats[1..]);
      assert formats == [formats[0]] + formats[1..];
    }
  }

  /** The checks of convert, in their order: the upload's extension, then the output
      format, lower-cased. */
  function ConvertRejects(filename: string, format: string): (r: Option<string>)
    ensures !SupportedName(filename) ==> r == Some(UNSUPPORTED)
    ensures SupportedName(filename) && !LowerIn(format, OUTPUT_FORMATS) ==> r == Some(UNSUPPORTED_OUTPUT)
    ensures r.None? <==> SupportedName(filename) && LowerIn(format, OUTPUT_FORMATS)
  {
    if !SupportedName(filename) then Some(UNSUPPORTED)
    else if !LowerIn(format, OUTPUT_FORMATS) then Some(UNSUPPORTED_OUTPUT)
    else None
  }

  /** An output format in upper case passes the check, keeps its casing in the output's
      name and is served as audio/mpeg. */
  lemma UpperCaseFormat()
    ensures ConvertRejects("a.mp3", "WAV").None?
    ensures MediaType("WAV") == MPEG && MediaType("wav") == "audio/wav"
  {
    LowerWav();
    Mp3Extension();
    assert LowerIn("WAV", OUTPUT_FORMATS) by {
      assert OUTPUT_FORMATS[1..][0] == "wav";
    }
  }

  lemma LowerWav()
    ensures Lower("WAV") == "wav"
  {
    assert Lower("WAV")[0] == 'w' && Lower("WAV")[1] == 'a' && Lower("WAV")[2] == 'v';
  }

  lemma Mp3Extension()
    ensures SupportedName("a.mp3")
  {
    assert "a.mp3"[..4] == "a.mp" && "a.mp"[..3] == "a.m" && "a.m"[..2] == "a.";
    assert Extension("a.") == [];
    assert Extension("a.m") == "m";
    assert Extension("a.mp") == "mp";
    assert Extension("a.mp3") == "mp3";
  }

  function ConvertOutput(id: string, filename: string, format: string): Path
  {
    OutputPath("converted_", id, "_" + Stem(filename) + "." + format)
  }

  function ConvertName(filename: string, format: string): string
  {
    "converted_" + Stem(filename) + "." + format
  }

  /** POST /convert: converted_{id}_{stem}.{output_format}, with the format as the
      caller wrote it in the name and in the media-type lookup. */
  method Convert(fs: Fs, h: Helpers, ff: Ffmpeg, file: UploadFile, format: string, id: string)
    returns (r: Reply<AudioFile>, fs': Fs)
    requires Uploads.FreshId(id)
    ensures ConvertRejects(file.filename, format).Some? ==>
      r == Fail(400, Text(ConvertRejects(file.filename, format).value)) && fs' == fs
    ensures ConvertRejects(file.filename, format).None? ==>
      Handled(fs, fs', r, ff, file, InputPath(id, file.filename), ConvertOutput(id, file.filename, format),
              ConvertOp(format), MediaType(format), ConvertName(file.filename, format))
  {
    var bad := ConvertRejects(file.filename, format);
    if bad.Some? {
      return Fail(400, Text(bad.value)), fs;
    }
    OutputIsNotInput(id, "converted_", 1, "_" + Stem(file.filename) + "." + format, file.filename);
    r, fs' := OneFile(fs, h, ff, file, InputPath(id, file.filename), ConvertOutput(id, file.filename, format),
                      ConvertOp(format), MediaType(format), ConvertName(file.filename, format));
  }

  /** The checks of volume: the extension, then -60 <= change <= 60. */
  function VolumeRejects(filename: string, change: real): (r: Option<string>)
    ensures !SupportedName(filename) ==> r == Some(UNSUPPORTED)
    ensures r.None? <==> SupportedName(filename) && -60.0 <= change <= 60.0
    ensures SupportedName(filename) && r.Some? ==> r.value == BAD_VOLUME
  {
    if !SupportedName(filename) then Some(UNSUPPORTED)
    else if change < -60.0 || change > 60.0 then Some(BAD_VOLUME)
    else None
  }

  function VolumeOutput(id: string, filename: string): Path
  {
    OutputPath("volume_adjusted_", id, "_" + Stem(filename) + ".mp3")
  }

  function VolumeName(filename: string): string
  {
    "volume_adjusted_" + Stem(filename) + ".mp3"
  }

  /** POST /volume: volume_adjusted_{id}_{stem}.mp3. */
  method Volume(fs: Fs, h: Helpers, ff: Ffmpeg, file: UploadFile, change: real, id: string)
    returns (r: Reply<AudioFile>, fs': Fs)
    requires Uploads.FreshId(id)
    ensures VolumeRejects(file.filename, change).Some? ==>
      r == Fail(400, Text(VolumeRejects(file.filename, change).value)) && fs' == fs
    ensures VolumeRejects(file.filename, change).None? ==>
      Handled(fs, fs', r, ff, file, InputPath(id, file.filename), VolumeOutput(id, file.filename),
              VolumeOp(change), MPEG, VolumeName(file.filename))
  {
    var bad := VolumeRejects(file.filename, change);
    if bad.Some? {
      return Fail(400, Text(bad.value)), fs;
    }
    OutputIsNotInput(id, "volume_adjusted_", 0, "_" + Stem(file.filename) + ".mp3", file.filename);
    r, fs' := OneFile(fs, h, ff, file, InputPath(id, file.filename), VolumeOutput(id, file.filename),
                      VolumeOp(change), MPEG, VolumeName(file.filename));
  }

  /** The checks of effects: the extension, then a negative fade, then one over thirty
      seconds. */
  function EffectsRejects(filename: string, fadeIn: real, fadeOut: real): (r: Option<string>)
    ensures !SupportedName(filename) ==> r == Some(UNSUPPORTED)
    ensures SupportedName(filename) && (fadeIn < 0.0 || fadeOut < 0.0) ==> r == Some(NEGATIVE_FADE)
    ensures r.None? <==> SupportedName(filename) && 0.0 <= fadeIn <= 30.0 && 0.0 <= fadeOut <= 30.0
    ensures SupportedName(filename) && 0.0 <= fadeIn && 0.0 <= fadeOut && r.Some? ==> r == Some(LONG_FADE)
  {
    if !SupportedName(filename) then Some(UNSUPPORTED)
    else if fadeIn < 0.0 || fadeOut < 0.0 then Some(NEGATIVE_FADE)
    else if fadeIn > 30.0 || fadeOut > 30.0 then Some(LONG_FADE)
    else None
  }

  function EffectsOutput(id: string, filename: string): Path
  {
    OutputPath("effects_", id, "_" + Stem(filename) + ".mp3")
  }

  function EffectsName(filename: string): string
  {
    "effects_" + Stem(filename) + ".mp3"
  }

  /** POST /effects: effects_{id}_{stem}.mp3. */
  method Effects(fs: Fs, h: Helpers, ff: Ffmpeg, file: UploadFile, fadeIn: real, fadeOut: real, id: string)
    returns (r: Reply<AudioFile>, fs': Fs)
    requires Uploads.FreshId(id)
    ensures EffectsRejects(file.filename, fadeIn, fadeOut).Some? ==>
      r == Fail(400, Text(EffectsRejects(file.filename, fadeIn, fadeOut).value)) && fs' == fs
    ensures EffectsRejects(file.filename, fadeIn, fadeOut).None? ==>
      Handled(fs, fs', r, ff, file, InputPath(id, file.filename), EffectsOutput(id, file.filename),
              FadeOp(fadeIn, fadeOut), MPEG, EffectsName(file.filename))
  {
    var bad := EffectsRejects(file.filename, fadeIn, fadeOut);
    if bad.Some? {
      return Fail(400, Text(bad.value)), fs;
    }
    OutputIsNotInput(id, "effects_", 5, "_" + Stem(file.filename) + ".mp3", file.filename);
    r, fs' := OneFile(fs, h, ff, file, InputPath(id, file.filename), EffectsOutput(id, file.filename),
                      FadeOp(fadeIn, fadeOut), MPEG, EffectsName(file.filename));
  }

  // ---------------------------------------------------------------- info

  datatype InfoReply = InfoReply(success: bool, filename: string, audioInfo: AudioInfo)

  /** What get_audio_info of the bound helpers answers for p. */
  function InfoOf(h: Helpers, fs: Fs, ff: Ffmpeg, p: Path): Result<AudioInfo, Exc>
  {
    if h.Full? then AudioUtils.InfoAt(fs, ff, p) else AudioUtilsSimple.GetAudioInfo(fs, p)
  }

  /** get_audio_info of the bound helpers. */
  method InfoWith(h: Helpers, fs: Fs, ff: Ffmpeg, p: Path) returns (r: Result<AudioInfo, Exc>)
    ensures r.Success? && p in fs.files ==> r.value.fileSize == |fs.files[p].data|
    ensures h.Full? ==> r == AudioUtils.InfoAt(fs, ff, p)
    ensures h.Simple? ==> r == AudioUtilsSimple.GetAudioInfo(fs, p)
    ensures r == InfoOf(h, fs, ff, p)
  {
    if h.Full? {
      r := AudioUtils.GetAudioInfo(fs, ff, p);
    } else {
      r := AudioUtilsSimple.GetAudioInfo(fs, p);
    }
  }

  /** POST /info: the upload's metadata, the upload removed whatever happened. */
  method Info(fs: Fs, h: Helpers, ff: Ffmpeg, file: UploadFile, id: string) returns (r: Reply<InfoReply>, fs': Fs)
    requires Uploads.FreshId(id)
    ensures !SupportedName(file.filename) ==> r == Fail(400, Text(UNSUPPORTED)) && fs' == fs
    ensures var input := InputPath(id, file.filename);
      && (r.Ok? ==>
           && SupportedName(file.filename) && Writable(fs, input) && Accepted(ff, input, file.content)
           && r.body.success && r.body.filename == file.filename && r.body.audioInfo.fileSize == |file.content|
           && (h.Simple? ==> r.body.audioInfo.durationSeconds == 5.0 && r.body.audioInfo.channels == 2
                             && r.body.audioInfo.durationMs == 5000 && r.body.audioInfo.frameRate == 44100))
      && (var saved := fs.(files := fs.files[input := File(file.content, fs.clock)]);
          && (r.Ok? <==> SupportedName(file.filename) && Writable(fs, input) && Accepted(ff, input, file.content)
                         && InfoOf(h, saved, ff, input).Success?)
          && (r.Ok? ==> r.body.audioInfo == InfoOf(h, saved, ff, input).value)
          && ((SupportedName(file.filename) && Writable(fs, input) && Accepted(ff, input, file.content)
               && InfoOf(h, saved, ff, input).Failure?) ==> r == Reraise(InfoOf(h, saved, ff, input).error)))
      && (h.Simple? ==> (r.Ok? <==> SupportedName(file.filename) && Writable(fs, input) && Accepted(ff, input, file.content)))
      && (SupportedName(file.filename) && Writable(fs, input) && !Accepted(ff, input, file.content) ==>
           r == Rejected(INVALID))
      && (SupportedName(file.filename) && r.Fail? ==> r.status == 500)
      && (SupportedName(file.filename) && input !in fs.dirs ==> fs' == PdfRoutes.Without(fs, [input]))
  {
    if !SupportedName(file.filename) {
      return Fail(400, Text(UNSUPPORTED)), fs;
    }
    var input := InputPath(id, file.filename);
    assert PathSet([input]) == {input};
    match Write(fs, input, file.content)
    case Failure(e) =>
      r, fs' := PdfRoutes.Abort(fs, [input], Reraise(e));
    case Success(saved) =>
      var ok := Validate(saved, ff, input, file.content);
      if !ok {
        r, fs' := PdfRoutes.Abort(saved, [input], Rejected(INVALID));
        return;
      }
      var info := InfoWith(h, saved, ff, input);
      if info.Failure? {
        r, fs' := PdfRoutes.Abort(saved, [input], Reraise(info.error));
        return;
      }
      fs' := Remove(saved, input).value;
      r := Ok(InfoReply(true, file.filename, info.value));
  }

  // ---------------------------------------------------------------- overlay and merge

  predicate AllSupported(files: seq<UploadFile>)
  {
    forall i :: 0 <= i < |files| ==> SupportedName(files[i].filename)
  }

  /** The upload whose name the check of overlay and merge stops at, or -1. */
  function FirstUnsupported(files: seq<UploadFile>): (k: int)
    ensures -1 <= k < |files|
    ensures k < 0 <==> AllSupported(files)
    ensures k >= 0 ==> !SupportedName(files[k].filename) && forall j :: 0 <= j < k ==> SupportedName(files[j].filename)
  {
    if files == [] then -1
    else if !SupportedName(files[0].filename) then 0
    else
      var k := FirstUnsupported(files[1..]);
      assert forall j :: 0 <= j < |files| - 1 ==> files[1..][j] == files[j + 1];
      if k < 0 then -1 else k + 1
  }

  /** The check loop of overlay and merge. */
  method CheckNames(files: seq<UploadFile>) returns (k: int)
    ensures k == FirstUnsupported(files)
  {
    var i := 0;
    while i < |files|
      invariant 0 <= i <= |files|
      invariant forall j :: 0 <= j < i ==> SupportedName(files[j].filename)
    {
      if !SupportedName(files[i].filename) {
        return i;
      }
      i := i + 1;
    }
    return -1;
  }

  /** The checks of a route taking several uploads: the count, then each name in
      order. */
  function ManyRejects(files: seq<UploadFile>, countOk: bool, countError: string): (r: Option<string>)
    ensures !countOk ==> r == Some(countError)
    ensures countOk && !AllSupported(files) ==> r == Some(UnsupportedIn(files[FirstUnsupported(files)].filename))
    ensures r.None? <==> countOk && AllSupported(files)
  {
    if !countOk then Some(countError)
    else if FirstUnsupported(files) >= 0 then Some(UnsupportedIn(files[FirstUnsupported(files)].filename))
    else None
  }

  /** Which uploads validate_audio_file passed, one upload further. */
  lemma AllAcceptedStep(ff: Ffmpeg, paths: seq<Path>, files: seq<UploadFile>, i: nat)
    requires |paths| == |files| && i < |paths|
    ensures AllAccepted(ff, paths[..i + 1], files[..i + 1]) <==>
      AllAccepted(ff, paths[..i], files[..i]) && Accepted(ff, paths[i], files[i].content)
    ensures !Accepted(ff, paths[i], files[i].content) ==> !AllAccepted(ff, paths, files)
  {
    assert forall j :: 0 <= j < i ==> paths[..i + 1][j] == paths[..i][j] && files[..i + 1][j] == files[..i][j];
  }

  /** One turn of the save loop: write upload i, then validate it. */
  method SaveOne(fs: Fs, now: Fs, ff: Ffmpeg, files: seq<UploadFile>, paths: seq<Path>, i: nat)
    returns (err: Option<Exc>, rejected: bool, next: Fs)
    requires |paths| == |files| && i < |paths|
    requires now == Written(fs, paths[..i], Uploads.Contents(files)[..i])
    ensures err.None? <==> Writable(fs, paths[i]) && Accepted(ff, paths[i], files[i].content)
    ensures rejected <==> Writable(fs, paths[i]) && !Accepted(ff, paths[i], files[i].content)
    ensures rejected ==> err == Some(HttpError(400, InvalidNamed(files[i].filename)))
    ensures Writable(fs, paths[i]) ==> next == Written(fs, paths[..i + 1], Uploads.Contents(files)[..i + 1])
    ensures !Writable(fs, paths[i]) ==> next == now
  {
    var contents := Uploads.Contents(files);
    WriteByDirs(fs, now, paths[i], contents[i]);
    match Write(now, paths[i], contents[i])
    case Failure(e) =>
      err, rejected, next := Some(e), false, now;
    case Success(written) =>
      WrittenStep(fs, paths, contents, i);
      next := written;
      var ok := Validate(next, ff, paths[i], files[i].content);
      rejected := !ok;
      err := if ok then None else Some(HttpError(400, InvalidNamed(files[i].filename)));
  }

  /** Where the save loop stops: upload i was either not written or written and rejected. */
  lemma SaveStopped(fs: Fs, ff: Ffmpeg, files: seq<UploadFile>, paths: seq<Path>, i: nat, rejected: bool)
    requires |paths| == |files| && i < |paths|
    requires AllWritable(fs, paths[..i])
    requires !(Writable(fs, paths[i]) && Accepted(ff, paths[i], files[i].content))
    requires rejected <==> Writable(fs, paths[i]) && !Accepted(ff, paths[i], files[i].content)
    ensures !(AllWritable(fs, paths) && AllAccepted(ff, paths, files))
    ensures rejected ==> AllWritable(fs, paths[..i + 1])
    ensures !rejected ==> !Writable(fs, paths[i])
  {
    AllWritableStep(fs, paths, i);
    AllAcceptedStep(ff, paths, files, i);
  }

  /** The save loop of overlay and merge: each upload written, then validated; the loop
      ends at the first write that raises or the first upload rejected.  `kept` counts
      the uploads on the disk, `done` those appended to input_paths, which happens
      after validation, so a rejected upload is on the disk but not among them. */
  method SaveAll(fs: Fs, ff: Ffmpeg, files: seq<UploadFile>, paths: seq<Path>)
    returns (err: Option<Exc>, done: nat, kept: nat, fs': Fs)
    requires |paths| == |files|
    ensures done <= kept <= |paths| && kept <= done + 1
    ensures fs' == Written(fs, paths[..kept], Uploads.Contents(files)[..kept])
    ensures AllWritable(fs, paths[..kept]) && AllAccepted(ff, paths[..done], files[..done])
    ensures err.None? <==> AllWritable(fs, paths) && AllAccepted(ff, paths, files)
    ensures err.None? ==> done == |paths|
    ensures err.Some? ==> done < |paths|
    ensures err.Some? && kept == done ==> !Writable(fs, paths[done])
    ensures kept > done ==>
      err == Some(HttpError(400, InvalidNamed(files[done].filename))) && !Accepted(ff, paths[done], files[done].content)
  {
    var contents := Uploads.Contents(files);
    fs' := fs;
    err, done, kept := None, 0, 0;
    while done < |paths|
      invariant 0 <= done <= |paths| && kept == done && err.None?
      invariant fs' == Written(fs, paths[..done], contents[..done])
      invariant AllWritable(fs, paths[..done]) && AllAccepted(ff, paths[..done], files[..done])
    {
      var rejected;
      err, rejected, fs' := SaveOne(fs, fs', ff, files, paths, done);
      if err.Some? {
        kept := if rejected then done + 1 else done;
        SaveStopped(fs, ff, files, paths, done, rejected);
        return;
      }
      AllWritableStep(fs, paths, done);
      AllAcceptedStep(ff, paths, files, done);
      done, kept := done + 1, done + 1;
    }
    assert paths[..done] == paths && files[..done] == files;
  }

  /** The `except` clause of a route that saved `paths` and ran its helper: remove
      each of them and the output, then answer 500. */
  method AbortAll<T>(fs: Fs, now: Fs, paths: seq<Path>, output: Path, reply: Reply<T>) returns (r: Reply<T>, fs': Fs)
    requires now.dirs == fs.dirs && reply.Fail? && reply.status == 500
    requires output !in fs.dirs ==> WroteOnly(fs.files, now.files, paths + [output])
    ensures fs'.dirs == fs.dirs && r.Fail? && r.status == 500
    ensures output !in fs.dirs && (forall p :: p in paths ==> p !in fs.dirs) ==>
      r == reply && PdfRoutes.LeftNothing(fs, fs', paths + [output])
  {
    if output !in fs.dirs {
      r, fs' := PdfRoutes.AbortWritten(fs, now, paths + [output], [], reply);
    } else {
      r, fs' := PdfRoutes.Abort(now, paths + [output], reply);
    }
  }

  /** An upload the save loop got past was accepted. */
  lemma PrefixAccepted(ff: Ffmpeg, paths: seq<Path>, files: seq<UploadFile>, done: nat)
    requires |paths| == |files| && 0 < done <= |paths| && AllAccepted(ff, paths[..done], files[..done])
    ensures Accepted(ff, paths[0], files[0].content)
  {
    assert paths[..done][0] == paths[0] && files[..done][0] == files[0];
  }

  /** The save phase of overlay and merge, as written: None once every upload is saved
      and accepted; otherwise the `except` clause removes input_paths and the output
      and answers 500.  An upload the validation rejects is not in input_paths yet,
      and stays on the disk. */
  method SaveUploads(fs: Fs, ff: Ffmpeg, files: seq<UploadFile>, paths: seq<Path>, output: Path)
    returns (r: Option<Reply<AudioFile>>, fs': Fs)
    requires |paths| == |files| && output !in paths
    ensures r.None? <==> AllWritable(fs, paths) && AllAccepted(ff, paths, files)
    ensures r.None? ==> fs' == Written(fs, paths, Uploads.Contents(files))
    ensures r.Some? ==> r.value.Fail? && r.value.status == 500 && fs'.dirs == fs.dirs
    ensures r.Some? && AllAccepted(ff, paths, files) && output !in fs.dirs ==> PdfRoutes.LeftNothing(fs, fs', [output])
    ensures |paths| > 0 && Writable(fs, paths[0]) && !Accepted(ff, paths[0], files[0].content) && output !in fs.dirs ==>
      && r == Some(Rejected(InvalidNamed(files[0].filename)))
      && paths[0] in fs'.files && fs'.files[paths[0]].data == files[0].content
  {
    var err, done, kept, saved := SaveAll(fs, ff, files, paths);
    if err.None? {
      assert paths[..kept] == paths && Uploads.Contents(files)[..kept] == Uploads.Contents(files);
      return None, saved;
    }
    var contents := Uploads.Contents(files);
    WrittenOnly(fs, paths, contents, kept);
    if kept > done {
      AllAcceptedStep(ff, paths, files, done);
    }
    if done > 0 {
      PrefixAccepted(ff, paths, files, done);
    }
    if kept == 1 {
      WrittenFilesLookup(paths[..1], contents[..1], fs.clock, 0);
    }
    var reply;
    reply, fs' := RemoveRecorded(fs, saved, paths, kept, done, output, Reraise(err.value));
    r := Some(reply);
  }

  /** The save phase with the rejected upload removed as well: it is put in
      input_paths before it is validated. */
  method SaveUploadsFixed(fs: Fs, ff: Ffmpeg, files: seq<UploadFile>, paths: seq<Path>, output: Path)
    returns (r: Option<Reply<AudioFile>>, fs': Fs)
    requires |paths| == |files| && output !in paths
    ensures r.None? <==> AllWritable(fs, paths) && AllAccepted(ff, paths, files)
    ensures r.None? ==> fs' == Written(fs, paths, Uploads.Contents(files))
    ensures r.Some? ==> r.value.Fail? && r.value.status == 500 && fs'.dirs == fs.dirs
    ensures r.Some? && output !in fs.dirs ==> PdfRoutes.LeftNothing(fs, fs', [output])
    ensures |paths| > 0 && Writable(fs, paths[0]) && !Accepted(ff, paths[0], files[0].content) && output !in fs.dirs ==>
      r == Some(Rejected(InvalidNamed(files[0].filename))) && paths[0] !in fs'.files
  {
    var err, done, kept, saved := SaveAll(fs, ff, files, paths);
    if err.None? {
      assert paths[..kept] == paths && Uploads.Contents(files)[..kept] == Uploads.Contents(files);
      return None, saved;
    }
    WrittenOnly(fs, paths, Uploads.Contents(files), kept);
    if done > 0 {
      PrefixAccepted(ff, paths, files, done);
    }
    var reply;
    reply, fs' := RemoveRecorded(fs, saved, paths, kept, kept, output, Reraise(err.value));
    r := Some(reply);
  }

  /** The `except` clause of the save phase: the uploads on the disk are paths[..kept],
      those recorded in input_paths are paths[..recorded]; the recorded ones and the
      output are removed. */
  method RemoveRecorded(fs: Fs, saved: Fs, paths: seq<Path>, kept: nat, recorded: nat, output: Path, reply: Reply<AudioFile>)
    returns (r: Reply<AudioFile>, fs': Fs)
    requires recorded <= kept <= |paths|
    requires saved.dirs == fs.dirs && WroteOnly(fs.files, saved.files, paths[..kept])
    requires AllWritable(fs, paths[..kept])
    requires reply.Fail? && reply.status == 500
    ensures r.Fail? && r.status == 500 && fs'.dirs == fs.dirs
    ensures output !in fs.dirs ==>
      && r == reply && Kept(saved.files, fs'.files, paths[..recorded] + [output])
      && forall p :: p in paths[..recorded] + [output] ==> p !in fs'.files
    ensures output !in fs.dirs && kept == recorded ==> PdfRoutes.LeftNothing(fs, fs', [output])
  {
    AllWritableNoDirs(fs, paths[..kept]);
    assert forall p :: p in paths[..recorded] ==> p in paths[..kept] by {
      assert paths[..kept] == paths[..recorded] + paths[recorded..kept];
    }
    r, fs' := PdfRoutes.Abort(saved, paths[..recorded] + [output], reply);
    if output !in fs.dirs && kept == recorded {
      CleanedUp(fs.files, saved.files, fs'.files, paths[..kept]);
    }
  }

  /** A route output is never one of the inputs `{file_id}_{i}_{filename}`. */
  lemma OutputNotAmongInputs(id: string, files: seq<UploadFile>, prefix: string, k: nat, rest: string)
    requires Uploads.FreshId(id) && k < |prefix| && k < 36 && prefix[0] != '/'
    requires !Uploads.UuidChar(prefix[k])
    ensures OutputPath(prefix, id, rest) !in PdfRoutes.MergeInputs(id, files)
  {
    var paths := PdfRoutes.MergeInputs(id, files);
    forall i | 0 <= i < |paths|
      ensures paths[i] != OutputPath(prefix, id, rest)
    {
      OutputIsNotInput(id, prefix, k, rest, NatToString(i) + "_" + files[i].filename);
    }
  }

  /** What a route over several uploads promises once its checks passed: served, every
      upload saved and accepted, the uploads gone; a failure answers 500, and when
      every upload was accepted it leaves no file that was not there before. */
  predicate ServedMany(fs: Fs, fs': Fs, r: Reply<AudioFile>, ff: Ffmpeg, files: seq<UploadFile>, paths: seq<Path>,
                       scratch: seq<Path>, output: Path, name: string)
    requires |paths| == |files|
  {
    && (r.Ok? ==>
         && AllWritable(fs, paths) && AllAccepted(ff, paths, files)
         && r.body.path == output && r.body.mediaType == MPEG && r.body.filename == name
         && Served(fs, fs', paths, scratch, output))
    && (r.Fail? ==> r.status == 500 && fs'.dirs == fs.dirs)
    && (r.Fail? && AllAccepted(ff, paths, files) && output !in fs.dirs ==> PdfRoutes.LeftNothing(fs, fs', [output]))
  }

  /** The first upload rejected by validate_audio_file: the route answers with the 400
      it raised, wrapped in the 500 of the `except` clause, and the upload stays on the
      disk. */
  predicate LeavesRejected(fs: Fs, fs': Fs, r: Reply<AudioFile>, ff: Ffmpeg, files: seq<UploadFile>, paths: seq<Path>, output: Path)
    requires |paths| == |files|
  {
    |paths| > 0 && Writable(fs, paths[0]) && !Accepted(ff, paths[0], files[0].content) && output !in fs.dirs ==>
      && r == Rejected(InvalidNamed(files[0].filename))
      && paths[0] in fs'.files && fs'.files[paths[0]].data == files[0].content
  }

  /** With the clean-up corrected: any failure leaves no new file, and a rejected upload
      is removed. */
  predicate RemovesRejected(fs: Fs, fs': Fs, r: Reply<AudioFile>, ff: Ffmpeg, files: seq<UploadFile>, paths: seq<Path>, output: Path)
    requires |paths| == |files|
  {
    && (r.Fail? && output !in fs.dirs ==> PdfRoutes.LeftNothing(fs, fs', [output]))
    && (|paths| > 0 && Writable(fs, paths[0]) && !Accepted(ff, paths[0], files[0].content) && output !in fs.dirs ==>
          r == Rejected(InvalidNamed(files[0].filename)) && paths[0] !in fs'.files)
  }

  /** The whole promise of overlay and merge: a rejected request answers 400 and
      touches nothing; otherwise the uploads are saved as `{id}_{i}_{filename}` and the
      route serves the output (ServedMany), with the upload an as-written clean-up
      leaves behind or the corrected one removes, and the header at `at` names the
      operation. */
  predicate RouteDone(fs: Fs, fs': Fs, r: Reply<AudioFile>, ff: Ffmpeg, files: seq<UploadFile>, id: string,
                      scratch: seq<Path>, output: Path, name: string, bad: Option<string>, fixed: bool,
                      at: nat, header: (string, Value))
    requires Uploads.FreshId(id)
  {
    && (bad.Some? ==> r == Fail(400, Text(bad.value)) && fs' == fs)
    && (bad.None? ==>
          var paths := PdfRoutes.MergeInputs(id, files);
          && ServedMany(fs, fs', r, ff, files, paths, scratch, output, name)
          && (if fixed then RemovesRejected(fs, fs', r, ff, files, paths, output)
              else LeavesRejected(fs, fs', r, ff, files, paths, output)))
    && (r.Ok? ==> at < |r.body.headers| && r.body.headers[at] == header)
  }

  /** overlay_audio_files of the bound helpers. */
  method OverlayWith(h: Helpers, fs: Fs, ff: Ffmpeg, audio1: Path, audio2: Path, output: Path)
    returns (r: Result<OverlayInfo, Exc>, fs': Fs)
    ensures fs'.dirs == fs.dirs
    ensures output !in fs.dirs ==> WroteOnly(fs.files, fs'.files, [output]) && Kept(fs.files, fs'.files, [output])
    ensures r.Success? ==> Produced(fs, fs', output)
    ensures h.Full? && !ff.available ==> r.Failure?
    ensures h.Simple? && r.Success? ==> r.value == OverlayInfo(5.0, 5.0, 5.0, output)
    ensures h.Simple? && Exists(fs, audio2) && Copy(fs, audio1, output).Success? ==> r.Success?
  {
    if h.Full? {
      r, fs' := AudioUtils.OverlayAudioFiles(fs, ff, audio1, audio2, output);
    } else {
      r, fs' := AudioUtilsSimple.OverlayAudioFiles(fs, audio1, audio2, output);
    }
  }

  /** merge_audio_files of the bound helpers. */
  method MergeWith(h: Helpers, fs: Fs, ff: Ffmpeg, paths: seq<Path>, output: Path)
    returns (r: Result<MergeInfo, Exc>, fs': Fs)
    ensures fs'.dirs == fs.dirs
    ensures output !in fs.dirs ==>
      WroteOnly(fs.files, fs'.files, [output]) && Kept(fs.files, fs'.files, [output, AudioUtils.ListPath(output)])
    ensures r.Success? && output !in fs.dirs ==> output in fs'.files
    ensures r.Success? ==> r.value.filesMerged == |paths|
    ensures h.Full? && !ff.available ==> r.Failure?
  {
    if h.Full? {
      r, fs' := AudioUtils.MergeAudioFiles(fs, ff, paths, output);
    } else {
      r, fs' := AudioUtilsSimple.MergeAudioFiles(fs, ff, paths, output);
    }
  }

  const OVERLAY_NAME := "overlayed_audio.mp3"
  const MERGE_NAME := "merged_audio.mp3"

  function OverlayOutput(id: string): Path
  {
    OutputPath("overlayed_", id, ".mp3")
  }

  function MergeOutput(id: string): Path
  {
    OutputPath("merged_", id, ".mp3")
  }

  /** Overlay once both uploads are saved: mix them, remove them, serve the mix. */
  method OverlaySaved(fs: Fs, saved: Fs, h: Helpers, ff: Ffmpeg, paths: seq<Path>, output: Path)
    returns (r: Reply<AudioFile>, fs': Fs)
    requires |paths| == 2 && output !in paths && (forall p :: p in paths ==> p !in fs.dirs)
    requires saved.dirs == fs.dirs && WroteOnly(fs.files, saved.files, paths) && Kept(fs.files, saved.files, paths)
    ensures r.Ok? ==>
      && r.body.path == output && r.body.mediaType == MPEG && r.body.filename == OVERLAY_NAME
      && |r.body.headers| == 4 && r.body.headers[3] == ("X-Operation", Str("overlay"))
      && Served(fs, fs', paths, [], output)
    ensures r.Fail? ==> r.status == 500 && fs'.dirs == fs.dirs
    ensures r.Fail? && output !in fs.dirs ==> PdfRoutes.LeftNothing(fs, fs', paths + [output])
    ensures h.Full? && !ff.available ==> r.Fail?
  {
    var res, done := OverlayWith(h, saved, ff, paths[0], paths[1], output);
    if res.Failure? {
      if output !in fs.dirs {
        WroteOnlyChain(fs.files, saved.files, done.files, paths, [output]);
      }
      r, fs' := AbortAll(fs, done, paths, output, Reraise(res.error));
      return;
    }
    var info := res.value;
    assert [output] + [] == [output];
    r, fs' := ServeSaved(fs, saved, done, paths, [], output,
      AudioFile(output, MPEG, OVERLAY_NAME,
                [("X-Audio1-Duration", Num(info.audio1Duration)), ("X-Audio2-Duration", Num(info.audio2Duration)),
                 ("X-Merged-Duration", Num(info.mergedDuration)), ("X-Operation", Str("overlay"))]));
  }

  /** Merge once every upload is saved: concatenate them, remove them, serve the
      result. */
  method MergeSaved(fs: Fs, saved: Fs, h: Helpers, ff: Ffmpeg, paths: seq<Path>, output: Path)
    returns (r: Reply<AudioFile>, fs': Fs)
    requires output !in paths && (forall p :: p in paths ==> p !in fs.dirs)
    requires saved.dirs == fs.dirs && WroteOnly(fs.files, saved.files, paths) && Kept(fs.files, saved.files, paths)
    ensures r.Ok? ==>
      && r.body.path == output && r.body.mediaType == MPEG && r.body.filename == MERGE_NAME
      && |r.body.headers| == 2 && r.body.headers[0] == ("X-Files-Merged", Count(|paths|))
      && Served(fs, fs', paths, [AudioUtils.ListPath(output)], output)
    ensures r.Fail? ==> r.status == 500 && fs'.dirs == fs.dirs
    ensures r.Fail? && output !in fs.dirs ==> PdfRoutes.LeftNothing(fs, fs', paths + [output])
    ensures h.Full? && !ff.available ==> r.Fail?
  {
    var res, done := MergeWith(h, saved, ff, paths, output);
    if res.Failure? {
      if output !in fs.dirs {
        WroteOnlyChain(fs.files, saved.files, done.files, paths, [output]);
      }
      r, fs' := AbortAll(fs, done, paths, output, Reraise(res.error));
      return;
    }
    assert [output] + [AudioUtils.ListPath(output)] == [output, AudioUtils.ListPath(output)];
    r, fs' := ServeSaved(fs, saved, done, paths, [AudioUtils.ListPath(output)], output,
      AudioFile(output, MPEG, MERGE_NAME,
                [("X-Files-Merged", Count(res.value.filesMerged)), ("X-Total-Duration", Num(res.value.totalDuration))]));
  }

  /** The checks of overlay and merge: the count, then the loop over the names. */
  method CheckMany(files: seq<UploadFile>, countOk: bool, countError: string) returns (bad: Option<string>)
    ensures bad == ManyRejects(files, countOk, countError)
  {
    if !countOk {
      return Some(countError);
    }
    var k := CheckNames(files);
    bad := if k >= 0 then Some(UnsupportedIn(files[k].filename)) else None;
  }

  /** POST /overlay, as written. */
  method Overlay(fs: Fs, h: Helpers, ff: Ffmpeg, files: seq<UploadFile>, id: string) returns (r: Reply<AudioFile>, fs': Fs)
    requires Uploads.FreshId(id)
    ensures RouteDone(fs, fs', r, ff, files, id, [], OverlayOutput(id), OVERLAY_NAME,
                      ManyRejects(files, |files| == 2, EXACTLY_TWO), false, 3, ("X-Operation", Str("overlay")))
  {
    var bad := CheckMany(files, |files| == 2, EXACTLY_TWO);
    if bad.Some? {
      return Fail(400, Text(bad.value)), fs;
    }
    var paths, output := PdfRoutes.MergeInputs(id, files), OverlayOutput(id);
    OutputNotAmongInputs(id, files, "overlayed_", 0, ".mp3");
    var failed, saved := SaveUploads(fs, ff, files, paths, output);
    if failed.Some? {
      return failed.value, saved;
    }
    r, fs' := SavedThenOverlaid(fs, saved, h, ff, files, paths, output);
  }

  /** POST /overlay with the rejected upload cleaned up. */
  method OverlayFixed(fs: Fs, h: Helpers, ff: Ffmpeg, files: seq<UploadFile>, id: string) returns (r: Reply<AudioFile>, fs': Fs)
    requires Uploads.FreshId(id)
    ensures RouteDone(fs, fs', r, ff, files, id, [], OverlayOutput(id), OVERLAY_NAME,
                      ManyRejects(files, |files| == 2, EXACTLY_TWO), true, 3, ("X-Operation", Str("overlay")))
  {
    var bad := CheckMany(files, |files| == 2, EXACTLY_TWO);
    if bad.Some? {
      return Fail(400, Text(bad.value)), fs;
    }
    var paths, output := PdfRoutes.MergeInputs(id, files), OverlayOutput(id);
    OutputNotAmongInputs(id, files, "overlayed_", 0, ".mp3");
    var failed, saved := SaveUploadsFixed(fs, ff, files, paths, output);
    if failed.Some? {
      return failed.value, saved;
    }
    r, fs' := SavedThenOverlaid(fs, saved, h, ff, files, paths, output);
  }

  /** The step from the saved uploads to the overlaid output, in the terms of the
      route's promise. */
  method SavedThenOverlaid(fs: Fs, saved: Fs, h: Helpers, ff: Ffmpeg, files: seq<UploadFile>, paths: seq<Path>, output: Path)
    returns (r: Reply<AudioFile>, fs': Fs)
    requires |paths| == |files| == 2 && output !in paths
    requires AllWritable(fs, paths) && AllAccepted(ff, paths, files) && saved == Written(fs, paths, Uploads.Contents(files))
    ensures ServedMany(fs, fs', r, ff, files, paths, [], output, OVERLAY_NAME)
    ensures r.Fail? && output !in fs.dirs ==> PdfRoutes.LeftNothing(fs, fs', [output])
    ensures r.Ok? ==> |r.body.headers| == 4 && r.body.headers[3] == ("X-Operation", Str("overlay"))
  {
    WrittenOnlyAll(fs, paths, Uploads.Contents(files));
    WrittenKept(fs, paths, Uploads.Contents(files));
    AllWritableNoDirs(fs, paths);
    r, fs' := OverlaySaved(fs, saved, h, ff, paths, output);
  }

  /** POST /merge, as written. */
  method Merge(fs: Fs, h: Helpers, ff: Ffmpeg, files: seq<UploadFile>, id: string) returns (r: Reply<AudioFile>, fs': Fs)
    requires Uploads.FreshId(id)
    ensures RouteDone(fs, fs', r, ff, files, id, [AudioUtils.ListPath(MergeOutput(id))], MergeOutput(id), MERGE_NAME,
                      ManyRejects(files, |files| >= 2, AudioUtils.TOO_FEW_TO_MERGE), false, 0, ("X-Files-Merged", Count(|files|)))
  {
    var bad := CheckMany(files, |files| >= 2, AudioUtils.TOO_FEW_TO_MERGE);
    if bad.Some? {
      return Fail(400, Text(bad.value)), fs;
    }
    var paths, output := PdfRoutes.MergeInputs(id, files), MergeOutput(id);
    OutputNotAmongInputs(id, files, "merged_", 0, ".mp3");
    var failed, saved := SaveUploads(fs, ff, files, paths, output);
    if failed.Some? {
      return failed.value, saved;
    }
    r, fs' := SavedThenMerged(fs, saved, h, ff, files, paths, output);
  }

  /** POST /merge with the rejected upload cleaned up. */
  method MergeFixed(fs: Fs, h: Helpers, ff: Ffmpeg, files: seq<UploadFile>, id: string) returns (r: Reply<AudioFile>, fs': Fs)
    requires Uploads.FreshId(id)
    ensures RouteDone(fs, fs', r, ff, files, id, [AudioUtils.ListPath(MergeOutput(id))], MergeOutput(id), MERGE_NAME,
                      ManyRejects(files, |files| >= 2, AudioUtils.TOO_FEW_TO_MERGE), true, 0, ("X-Files-Merged", Count(|files|)))
  {
    var bad := CheckMany(files, |files| >= 2, AudioUtils.TOO_FEW_TO_MERGE);
    if bad.Some? {
      return Fail(400, Text(bad.value)), fs;
    }
    var paths, output := PdfRoutes.MergeInputs(id, files), MergeOutput(id);
    OutputNotAmongInputs(id, files, "merged_", 0, ".mp3");
    var failed, saved := SaveUploadsFixed(fs, ff, files, paths, output);
    if failed.Some? {
      return failed.value, saved;
    }
    r, fs' := SavedThenMerged(fs, saved, h, ff, files, paths, output);
  }

  /** The step from the saved uploads to the merged output. */
  method SavedThenMerged(fs: Fs, saved: Fs, h: Helpers, ff: Ffmpeg, files: seq<UploadFile>, paths: seq<Path>, output: Path)
    returns (r: Reply<AudioFile>, fs': Fs)
    requires |paths| == |files| && output !in paths
    requires AllWritable(fs, paths) && AllAccepted(ff, paths, files) && saved == Written(fs, paths, Uploads.Contents(files))
    ensures ServedMany(fs, fs', r, ff, files, paths, [AudioUtils.ListPath(output)], output, MERGE_NAME)
    ensures r.Fail? && output !in fs.dirs ==> PdfRoutes.LeftNothing(fs, fs', [output])
    ensures r.Ok? ==> |r.body.headers| == 2 && r.body.headers[0] == ("X-Files-Merged", Count(|files|))
  {
    WrittenOnlyAll(fs, paths, Uploads.Contents(files));
    WrittenKept(fs, paths, Uploads.Contents(files));
    AllWritableNoDirs(fs, paths);
    r, fs' := MergeSaved(fs, saved, h, ff, paths, output);
  }

  // Demo generation

  function SinePath(id: string): Path
  {
    PdfRoutes.UploadPath("sine_melody_" + id + ".mp3")
  }

  function SquarePath(id: string): Path
  {
    PdfRoutes.UploadPath("square_tones_" + id + ".mp3")
  }

  function DemoOutput(id: string): Path
  {
    PdfRoutes.UploadPath("merged_demo_" + id + ".mp3")
  }

  /** The working-directory files a generation run may leave changed: the tones and
      the list of the ffmpeg helpers; the placeholder helpers leave none. */
  function Scratch(h: Helpers, m: AudioUtils.Melody): seq<Path>
  {
    if h.Full? then AudioUtils.TempNames(m) + [AudioUtils.ListName(m)] else []
  }

  /** A file under the upload directory is none of the working-directory scratch files. */
  lemma UploadIsNotScratch(name: string, m: AudioUtils.Melody)
    requires name != [] && name[0] != '/'
    ensures PdfRoutes.UploadPath(name) !in AudioUtils.TempNames(m)
    ensures PdfRoutes.UploadPath(name) != AudioUtils.ListName(m)
  {
    var u := PdfRoutes.UploadPath(name);
    assert u[0] == 'u';
    var names := AudioUtils.TempNames(m);
    forall i | 0 <= i < |names|
      ensures names[i][0] == 't'
    {
      var fr := AudioUtils.Frequencies(m);
      var head: string := if m.SineMelody? then "temp_tone_" else "temp_square_";
      FirstOfJoined(head, NatToString(i), "_", NatToString(fr[i]), ".wav");
    }
    assert AudioUtils.ListName(m)[0] == 't';
  }

  lemma FirstOfJoined(a: string, b: string, c: string, d: string, e: string)
    requires a != []
    ensures (a + b + c + d + e)[0] == a[0]
  {
  }

  /** The three paths of the demo routes are apart. */
  lemma DemoPathsDistinct(id: string)
    ensures SinePath(id) != SquarePath(id) && SinePath(id) != DemoOutput(id) && SquarePath(id) != DemoOutput(id)
  {
    var a, b, c := "sine_melody_" + id + ".mp3", "square_tones_" + id + ".mp3", "merged_demo_" + id + ".mp3";
    assert a[0] == 's' && a[1] == 'i' && b[0] == 's' && b[1] == 'q' && c[0] == 'm';
    assert SinePath(id)[9] == 'i' && SquarePath(id)[9] == 'q' && DemoOutput(id)[8] == 'm' && SinePath(id)[8] == 's';
  }

  /** No path of the demo routes is a scratch file. */
  lemma DemoPathsNotScratch(id: string, m: AudioUtils.Melody)
    ensures SinePath(id) !in AudioUtils.TempNames(m) && SinePath(id) != AudioUtils.ListName(m)
    ensures SquarePath(id) !in AudioUtils.TempNames(m) && SquarePath(id) != AudioUtils.ListName(m)
    ensures DemoOutput(id) !in AudioUtils.TempNames(m) && DemoOutput(id) != AudioUtils.ListName(m)
  {
    UploadIsNotScratch("sine_melody_" + id + ".mp3", m);
    UploadIsNotScratch("square_tones_" + id + ".mp3", m);
    UploadIsNotScratch("merged_demo_" + id + ".mp3", m);
  }

  /** generate_sine_melody / generate_square_tones of the bound helpers. */
  method GenerateWith(h: Helpers, fs: Fs, ff: Ffmpeg, m: AudioUtils.Melody, output: Path)
    returns (r: Result<ToneInfo, Exc>, fs': Fs)
    requires output !in AudioUtils.TempNames(m) && output != AudioUtils.ListName(m)
    ensures fs'.dirs == fs.dirs
    ensures Kept(fs.files, fs'.files, Scratch(h, m) + [output])
    ensures r.Success? ==> output in fs'.files && r.value.notes == AudioUtils.Notes(m) && r.value.output == output
    ensures h.Full? && !ff.available ==>
      r == Failure(Wrapped(AudioUtils.GenerationError(m), Raised(AudioUtils.NO_FFMPEG_FOR_GENERATION))) && fs' == fs
    ensures h.Simple? ==> (r.Success? <==> Writable(fs, output))
  {
    if h.Full? {
      r, fs' := AudioUtils.Generate(fs, ff, m, output);
      assert AudioUtils.TempNames(m) + [AudioUtils.ListName(m), output] == Scratch(h, m) + [output];
    } else {
      r, fs' := AudioUtilsSimple.Generate(fs, m, output);
      assert Scratch(h, m) + [output] == [output];
    }
  }

  datatype DemoFile = DemoFile(fileId: string, filename: string, details: ToneInfo)
  datatype Demo = Demo(success: bool, sineMelody: DemoFile, squareTones: DemoFile, message: string)

  /** POST /generate/demo-files: make the sine melody, then the square tones, under the
      upload directory.  There is no clean-up: a failure answers 500 and keeps what
      was made. */
  method GenerateDemo(fs: Fs, h: Helpers, ff: Ffmpeg, id: string) returns (r: Reply<Demo>, fs': Fs)
    ensures r.Ok? ==>
      && r.body.success && r.body.message == DEMO_MESSAGE
      && r.body.sineMelody.fileId == "sine_melody_" + id && r.body.sineMelody.filename == "sine_melody_" + id + ".mp3"
      && r.body.squareTones.fileId == "square_tones_" + id && r.body.squareTones.filename == "square_tones_" + id + ".mp3"
      && r.body.sineMelody.details.notes == AudioUtils.Notes(AudioUtils.SineMelody)
      && r.body.squareTones.details.notes == AudioUtils.Notes(AudioUtils.SquareTones)
    ensures r.Ok? ==> Download(fs', r.body.sineMelody.fileId).Ok? && Download(fs', r.body.squareTones.fileId).Ok?
    ensures r.Fail? ==> r.status == 500
    ensures fs'.dirs == fs.dirs
    ensures Kept(fs.files, fs'.files,
                 Scratch(h, AudioUtils.SineMelody) + Scratch(h, AudioUtils.SquareTones) + [SinePath(id), SquarePath(id)])
    ensures h.Full? && !ff.available ==>
      r == Reraise(Wrapped(AudioUtils.SINE_ERROR, Raised(AudioUtils.NO_FFMPEG_FOR_GENERATION))) && fs' == fs
    ensures h.Simple? ==> (r.Ok? <==> Writable(fs, SinePath(id)) && Writable(fs, SquarePath(id)))
    ensures h.Simple? && Writable(fs, SinePath(id)) && !Writable(fs, SquarePath(id)) ==>
      r.Fail? && SinePath(id) in fs'.files
  {
    var sine, square := SinePath(id), SquarePath(id);
    DemoPathsDistinct(id);
    DemoPathsNotScratch(id, AudioUtils.SineMelody);
    DemoPathsNotScratch(id, AudioUtils.SquareTones);
    var all := Scratch(h, AudioUtils.SineMelody) + Scratch(h, AudioUtils.SquareTones) + [sine, square];
    var first, made := GenerateWith(h, fs, ff, AudioUtils.SineMelody, sine);
    KeptChain(fs.files, made.files, made.files, Scratch(h, AudioUtils.SineMelody) + [sine], [], all);
    if first.Failure? {
      return Reraise(first.error), made;
    }
    var second;
    second, fs' := GenerateWith(h, made, ff, AudioUtils.SquareTones, square);
    KeptChain(fs.files, made.files, fs'.files, Scratch(h, AudioUtils.SineMelody) + [sine],
              Scratch(h, AudioUtils.SquareTones) + [square], all);
    if second.Failure? {
      return Reraise(second.error), fs';
    }
    assert sine in fs'.files;
    r := Ok(Demo(true,
                 DemoFile("sine_melody_" + id, "sine_melody_" + id + ".mp3", first.value),
                 DemoFile("square_tones_" + id, "square_tones_" + id + ".mp3", second.value),
                 DEMO_MESSAGE));
  }

  /** POST /merge-generated: generate both demo files, overlay them, remove them and
      serve the mix; on any failure the `except` clause removes whichever of the three
      exists and answers 500. */
  method MergeGenerated(fs: Fs, h: Helpers, ff: Ffmpeg, id: string) returns (r: Reply<AudioFile>, fs': Fs)
    ensures r.Ok? ==>
      && r.body.path == DemoOutput(id) && r.body.mediaType == MPEG && r.body.filename == "merged_demo_audio.mp3"
      && |r.body.headers| == 4
      && r.body.headers[0] == ("X-Sine-Notes", Str(Join(", ", AudioUtils.Notes(AudioUtils.SineMelody))))
      && r.body.headers[1] == ("X-Square-Notes", Str(Join(", ", AudioUtils.Notes(AudioUtils.SquareTones))))
      && r.body.headers[2] == ("X-Operation", Str("demo_generation_and_overlay"))
    ensures r.Ok? ==>
      && SinePath(id) !in fs'.files && SquarePath(id) !in fs'.files
      && (DemoOutput(id) !in fs.dirs ==>
            && DemoOutput(id) in fs'.files
            && Kept(fs.files, fs'.files, MadeScratch(h) + [SinePath(id), SquarePath(id), DemoOutput(id)]))
    ensures r.Fail? ==> r.status == 500
    ensures fs'.dirs == fs.dirs
    ensures r.Fail? && SinePath(id) !in fs.dirs && SquarePath(id) !in fs.dirs && DemoOutput(id) !in fs.dirs ==>
      SinePath(id) !in fs'.files && SquarePath(id) !in fs'.files && DemoOutput(id) !in fs'.files
    ensures h.Full? && !ff.available ==> r.Fail?
    ensures h.Simple? && r.Ok? ==> Writable(fs, SinePath(id)) && Writable(fs, SquarePath(id))
    ensures h.Simple? && Writable(fs, SinePath(id)) && Writable(fs, SquarePath(id)) && Writable(fs, DemoOutput(id)) ==> r.Ok?
  {
    var sine, square, output := SinePath(id), SquarePath(id), DemoOutput(id);
    var made := MakeBoth(fs, h, ff, id);
    if made.0.Some? {
      r, fs' := PdfRoutes.Abort(made.1, [sine, square, output], Reraise(made.0.value));
      return;
    }
    DemoPathsDistinct(id);
    r, fs' := MixDemo(fs, made.1, h, ff, sine, square, output);
  }

  /** merge-generated once both demo files exist: overlay, remove them, serve. */
  method MixDemo(fs: Fs, made: Fs, h: Helpers, ff: Ffmpeg, sine: Path, square: Path, output: Path) returns (r: Reply<AudioFile>, fs': Fs)
    requires sine != square && sine != output && square != output
    requires made.dirs == fs.dirs && sine in made.files && square in made.files
    requires Kept(fs.files, made.files, MadeScratch(h) + [sine, square])
    requires h.Simple? ==> Writable(fs, sine) && Writable(fs, square)
    ensures r.Ok? ==>
      && r.body.path == output && r.body.mediaType == MPEG && r.body.filename == "merged_demo_audio.mp3"
      && |r.body.headers| == 4
      && r.body.headers[0] == ("X-Sine-Notes", Str(Join(", ", AudioUtils.Notes(AudioUtils.SineMelody))))
      && r.body.headers[1] == ("X-Square-Notes", Str(Join(", ", AudioUtils.Notes(AudioUtils.SquareTones))))
      && r.body.headers[2] == ("X-Operation", Str("demo_generation_and_overlay"))
    ensures r.Ok? ==>
      && sine !in fs'.files && square !in fs'.files
      && (output !in fs.dirs ==>
            && output in fs'.files
            && Kept(fs.files, fs'.files, MadeScratch(h) + [sine, square, output]))
    ensures r.Fail? ==> r.status == 500
    ensures fs'.dirs == fs.dirs
    ensures r.Fail? && sine !in fs.dirs && square !in fs.dirs && output !in fs.dirs ==>
      sine !in fs'.files && square !in fs'.files && output !in fs'.files
    ensures h.Full? && !ff.available ==> r.Fail?
    ensures h.Simple? && Writable(fs, output) ==> r.Ok?
  {
    if h.Simple? && Writable(fs, output) {
      assert Copy(made, sine, output).Success?;
    }
    var mixed, now := OverlayWith(h, made, ff, sine, square, output);
    if mixed.Failure? {
      r, fs' := AbortDemo(fs, now, sine, square, output, mixed.error);
      return;
    }
    r, fs' := ServeDemo(fs, now, sine, square, output, mixed.value.mergedDuration);
    if r.Ok? && output !in fs.dirs {
      KeptThrough(fs.files, made.files, now.files, fs'.files, MadeScratch(h), sine, square, output);
    }
  }

  /** The `except` of merge-generated: remove both demo files and the output, answer 500. */
  method AbortDemo(fs: Fs, now: Fs, sine: Path, square: Path, output: Path, e: Exc) returns (r: Reply<AudioFile>, fs': Fs)
    requires now.dirs == fs.dirs
    ensures r.Fail? && r.status == 500 && fs'.dirs == fs.dirs
    ensures sine !in fs.dirs && square !in fs.dirs && output !in fs.dirs ==>
      sine !in fs'.files && square !in fs'.files && output !in fs'.files
  {
    r, fs' := PdfRoutes.Abort(now, [sine, square, output], Reraise(e));
  }

  /** The end of merge-generated: remove both demo files and serve the mix. */
  method ServeDemo(fs: Fs, now: Fs, sine: Path, square: Path, output: Path, duration: real) returns (r: Reply<AudioFile>, fs': Fs)
    requires sine != square && sine != output && square != output
    requires now.dirs == fs.dirs
    ensures r.Ok? ==>
      && r.body.path == output && r.body.mediaType == MPEG && r.body.filename == "merged_demo_audio.mp3"
      && |r.body.headers| == 4
      && r.body.headers[0] == ("X-Sine-Notes", Str(Join(", ", AudioUtils.Notes(AudioUtils.SineMelody))))
      && r.body.headers[1] == ("X-Square-Notes", Str(Join(", ", AudioUtils.Notes(AudioUtils.SquareTones))))
      && r.body.headers[2] == ("X-Operation", Str("demo_generation_and_overlay"))
      && r.body.headers[3] == ("X-Total-Duration", Num(duration))
    ensures r.Ok? ==>
      && sine !in fs'.files && square !in fs'.files
      && Kept(now.files, fs'.files, [sine, square])
    ensures r.Fail? ==> r.status == 500
    ensures fs'.dirs == fs.dirs
    ensures r.Fail? && sine !in fs.dirs && square !in fs.dirs && output !in fs.dirs ==>
      sine !in fs'.files && square !in fs'.files && output !in fs'.files
    ensures sine !in fs.dirs && square !in fs.dirs ==> r.Ok?
  {
    var err;
    err, fs' := RemoveEach(now, [sine, square]);
    if err.Some? {
      r, fs' := PdfRoutes.Abort(fs', [sine, square, output], Reraise(err.value));
      return;
    }
    r := Ok(AudioFile(output, MPEG, "merged_demo_audio.mp3",
                      [("X-Sine-Notes", Str(Join(", ", AudioUtils.Notes(AudioUtils.SineMelody)))),
                       ("X-Square-Notes", Str(Join(", ", AudioUtils.Notes(AudioUtils.SquareTones)))),
                       ("X-Operation", Str("demo_generation_and_overlay")),
                       ("X-Total-Duration", Num(duration))]));
  }

  /** Three steps that keep all but the demo files keep all but them together. */
  lemma KeptThrough(a: map<Path, File>, b: map<Path, File>, c: map<Path, File>, d: map<Path, File>,
                    scratch: seq<Path>, sine: Path, square: Path, output: Path)
    requires Kept(a, b, scratch + [sine, square]) && Kept(b, c, [output]) && Kept(c, d, [sine, square])
    ensures Kept(a, d, scratch + [sine, square, output])
  {
    forall p | p in a && p !in scratch + [sine, square, output]
      ensures p in d && d[p] == a[p]
    {
      assert p !in scratch + [sine, square];
    }
  }

  function MadeScratch(h: Helpers): seq<Path>
  {
    Scratch(h, AudioUtils.SineMelody) + Scratch(h, AudioUtils.SquareTones)
  }

  /** The two generations of merge-generated; the error of the first that fails. */
  method MakeBoth(fs: Fs, h: Helpers, ff: Ffmpeg, id: string) returns (made: (Option<Exc>, Fs))
    ensures made.1.dirs == fs.dirs
    ensures Kept(fs.files, made.1.files, MadeScratch(h) + [SinePath(id), SquarePath(id)])
    ensures made.0.None? ==> SinePath(id) in made.1.files && SquarePath(id) in made.1.files
    ensures h.Full? && !ff.available ==> made.0.Some?
    ensures h.Simple? && made.0.None? ==> Writable(fs, SinePath(id)) && Writable(fs, SquarePath(id))
    ensures h.Simple? && Writable(fs, SinePath(id)) && Writable(fs, SquarePath(id)) ==> made.0.None?
  {
    var sine, square := SinePath(id), SquarePath(id);
    DemoPathsDistinct(id);
    DemoPathsNotScratch(id, AudioUtils.SineMelody);
    DemoPathsNotScratch(id, AudioUtils.SquareTones);
    var all := MadeScratch(h) + [sine, square];
    var first, one := GenerateWith(h, fs, ff, AudioUtils.SineMelody, sine);
    if first.Failure? {
      KeptChain(fs.files, one.files, one.files, Scratch(h, AudioUtils.SineMelody) + [sine], [], all);
      return (Some(first.error), one);
    }
    var second, two := GenerateWith(h, one, ff, AudioUtils.SquareTones, square);
    KeptChain(fs.files, one.files, two.files, Scratch(h, AudioUtils.SineMelody) + [sine],
              Scratch(h, AudioUtils.SquareTones) + [square], all);
    made := (if second.Failure? then Some(second.error) else None, two);
  }
}
