// The ffmpeg-based audio helpers (backend/helpers/audio_utils.py).  Every helper
// first asks whether ffmpeg runs, probes its input with ffprobe, runs one ffmpeg
// command, and wraps whatever it raised in a ValueError that names the operation.
module AudioUtils {
  import opened Wrappers
  import opened Strings
  import opened Http
  import opened FileSystem
  import opened AudioTools

  const NO_FFMPEG := "ffmpeg is not installed. Please install ffmpeg to use audio processing features."
  const NO_FFMPEG_FOR_GENERATION := "ffmpeg is not installed. Please install ffmpeg to use audio generation features."
  const NO_AUDIO_STREAM := "No audio stream found in file"
  const NEGATIVE_START := "Start time cannot be negative"
  const START_NOT_BEFORE_END := "Start time must be less than end time"
  const TOO_FEW_TO_MERGE := "At least 2 audio files required for merging"

  /** The prefixes of the ValueError each helper re-raises. */
  const INFO_ERROR := "Error getting audio info: "
  const TRIM_ERROR := "Error trimming audio: "
  const CONVERT_ERROR := "Error converting audio: "
  const VOLUME_ERROR := "Error adjusting volume: "
  const MERGE_ERROR := "Error merging audio files: "
  const FADE_ERROR := "Error adding fade effects: "
  const OVERLAY_ERROR := "Error overlaying audio files: "
  const SINE_ERROR := "Error generating sine melody: "
  const SQUARE_ERROR := "Error generating square tones: "

  /** get_supported_formats() */
  const SUPPORTED_FORMATS: seq<string> := ["mp3", "wav", "flac", "aac", "ogg", "m4a", "mp4", "wma", "aiff", "au", "3gp"]

  /** The codec convert_audio_format picks for each output format it knows. */
  const CODECS: map<string, string> :=
    map["mp3" := "libmp3lame", "wav" := "pcm_s16le", "flac" := "flac", "aac" := "aac", "ogg" := "libvorbis",
        "m4a" := "aac"]

  // ---------------------------------------------------------------- probing

  predicate IsAudio(s: Stream)
  {
    s.codecType == Some("audio")
  }

  /** The index of the first audio stream, or -1 when there is none. */
  function FirstAudio(streams: seq<Stream>): (r: int)
    ensures -1 <= r < |streams|
    ensures r >= 0 ==> IsAudio(streams[r]) && forall j :: 0 <= j < r ==> !IsAudio(streams[j])
    ensures r < 0 <==> forall j :: 0 <= j < |streams| ==> !IsAudio(streams[j])
  {
    if streams == [] then -1
    else if IsAudio(streams[0]) then 0
    else
      var k := FirstAudio(streams[1..]);
      assert forall j :: 1 <= j < |streams| ==> streams[j] == streams[1..][j - 1];
      if k < 0 then -1 else k + 1
  }

  /** `for stream in streams: if stream.get('codec_type') == 'audio': ... break` */
  method FindAudioStream(streams: seq<Stream>) returns (k: int)
    ensures k == FirstAudio(streams)
  {
    k := 0;
    while k < |streams| && !IsAudio(streams[k])
      invariant 0 <= k <= |streams|
      invariant forall j :: 0 <= j < k ==> !IsAudio(streams[j])
    {
      k := k + 1;
    }
    if k == |streams| {
      k := -1;
    }
  }

  /** The dict built from a probe whose k-th stream is the audio one. */
  function ProbedInfo(pr: Probe, k: nat, size: nat): AudioInfo
    requires k < |pr.streams|
  {
    AudioInfo(TruncReal(pr.duration * 1000.0), pr.duration, pr.streams[k].channels, pr.streams[k].sampleRate,
              0, pr.formatName.GetOr("unknown"), pr.bitRate.GetOr("unknown"), size)
  }

  /** What get_audio_info returns or raises: the first audio stream's channels and
      rate, the duration in seconds and in whole milliseconds, and the file's size. */
  function InfoAt(fs: Fs, ff: Ffmpeg, p: Path): (r: Result<AudioInfo, Exc>)
    ensures ProbeAt(fs, ff, p).Failure? ==> r == Failure(Wrapped(INFO_ERROR, ProbeAt(fs, ff, p).error))
    ensures ProbeAt(fs, ff, p).Success? && FirstAudio(ProbeAt(fs, ff, p).value.streams) < 0 ==>
      r == Failure(Wrapped(INFO_ERROR, Raised(NO_AUDIO_STREAM)))
    ensures r.Success? <==> ProbeAt(fs, ff, p).Success? && FirstAudio(ProbeAt(fs, ff, p).value.streams) >= 0 && Exists(fs, p)
    ensures r.Success? ==>
      var pr := ProbeAt(fs, ff, p).value;
      && r.value.durationSeconds == pr.duration && r.value.durationMs == TruncReal(pr.duration * 1000.0)
      && r.value.channels == pr.streams[FirstAudio(pr.streams)].channels
      && r.value.frameRate == pr.streams[FirstAudio(pr.streams)].sampleRate
      && (p in fs.files ==> r.value.fileSize == |fs.files[p].data|)
    ensures r.Failure? ==> r.error.Wrapped? && r.error.prefix == INFO_ERROR
  {
    match ProbeAt(fs, ff, p)
    case Failure(e) => Failure(Wrapped(INFO_ERROR, e))
    case Success(pr) =>
      var k := FirstAudio(pr.streams);
      if k < 0 then Failure(Wrapped(INFO_ERROR, Raised(NO_AUDIO_STREAM)))
      else
        match Size(fs, p)
        case Failure(e) => Failure(Wrapped(INFO_ERROR, e))
        case Success(size) => Success(ProbedInfo(pr, k, size))
  }

  /** get_audio_info(file_path) */
  method GetAudioInfo(fs: Fs, ff: Ffmpeg, p: Path) returns (r: Result<AudioInfo, Exc>)
    ensures r == InfoAt(fs, ff, p)
  {
    var probed := ProbeAt(fs, ff, p);
    if probed.Failure? {
      return Failure(Wrapped(INFO_ERROR, probed.error));
    }
    var k := FindAudioStream(probed.value.streams);
    if k < 0 {
      return Failure(Wrapped(INFO_ERROR, Raised(NO_AUDIO_STREAM)));
    }
    var size := Size(fs, p);
    if size.Failure? {
      return Failure(Wrapped(INFO_ERROR, size.error));
    }
    r := Success(ProbedInfo(probed.value, k, size.value));
  }

  /** ffprobe ran and reported an audio stream. */
  predicate HasAudio(probed: Result<Probe, Exc>)
  {
    probed.Success? && exists i :: 0 <= i < |probed.value.streams| && IsAudio(probed.value.streams[i])
  }

  /** What validate_audio_file answers for a path. */
  predicate Valid(fs: Fs, ff: Ffmpeg, p: Path)
  {
    if !ff.available then Lower(AfterDot(p)) in SUPPORTED_FORMATS else HasAudio(ProbeAt(fs, ff, p))
  }

  /** validate_audio_file: without ffmpeg, whether the path's extension, lower-cased, is
      a supported format; with it, whether ffprobe reports some audio stream; False
      whenever ffprobe fails. */
  method ValidateAudioFile(fs: Fs, ff: Ffmpeg, p: Path) returns (ok: bool)
    ensures ok == Valid(fs, ff, p)
    ensures !ff.available ==> (ok <==> Lower(AfterDot(p)) in SUPPORTED_FORMATS)
    ensures ff.available ==>
      (ok <==> (ProbeAt(fs, ff, p).Success? &&
                exists i :: 0 <= i < |ProbeAt(fs, ff, p).value.streams| && IsAudio(ProbeAt(fs, ff, p).value.streams[i])))
  {
    if !ff.available {
      return Lower(AfterDot(p)) in SUPPORTED_FORMATS;
    }
    var probed := ProbeAt(fs, ff, p);
    if probed.Failure? {
      return false;
    }
    var k := FindAudioStream(probed.value.streams);
    ok := k >= 0;
  }

  // ---------------------------------------------------------------- trim

  /** The checks of trim_audio, in their order: a negative start, then an end past the
      probed duration, then a start not before the end. */
  function TrimCheck(start: real, end: real, duration: real): (r: Option<Exc>)
    ensures r.None? <==> 0.0 <= start < end <= duration
    ensures start < 0.0 ==> r == Some(Raised(NEGATIVE_START))
    ensures 0.0 <= start && end > duration ==> r == Some(EndPastDuration(end, duration))
    ensures 0.0 <= start && end <= duration && start >= end ==> r == Some(Raised(START_NOT_BEFORE_END))
  {
    if start < 0.0 then Some(Raised(NEGATIVE_START))
    else if end > duration then Some(EndPastDuration(end, duration))
    else if start >= end then Some(Raised(START_NOT_BEFORE_END))
    else None
  }

  /** The two ffmpeg runs of a trim: a stream copy, and a re-encode when that fails. */
  function TrimRun(fs: Fs, ff: Ffmpeg, input: Path, output: Path, start: real, end: real): Result<Fs, Exc>
  {
    Retried(fs, ff, TrimCopy(start, end - start), TrimEncode(start, end - start), [input], output)
  }

  /** The part of trim_audio after the probe: the checks, then the run.  The trimmed
      duration reported is end - start, and the output lies within the audio. */
  method TrimProbed(fs: Fs, ff: Ffmpeg, input: Path, output: Path, start: real, end: real, duration: real)
    returns (r: Result<TrimInfo, Exc>, fs': Fs)
    ensures TrimCheck(start, end, duration).Some? ==> r == Failure(TrimCheck(start, end, duration).value) && fs' == fs
    ensures r.Success? <==> TrimCheck(start, end, duration).None? && TrimRun(fs, ff, input, output, start, end).Success?
    ensures r.Success? ==>
      && r.value == TrimInfo(duration, end - start, start, end, output)
      && fs' == TrimRun(fs, ff, input, output, start, end).value
      && 0.0 <= start < end <= duration && 0.0 < r.value.trimmedDuration <= duration
    ensures TrimCheck(start, end, duration).None? && r.Failure? ==>
      r.error == TrimRun(fs, ff, input, output, start, end).error && fs' == fs
    ensures r.Success? ==> Produced(fs, fs', output)
  {
    var bad := TrimCheck(start, end, duration);
    if bad.Some? {
      return Failure(bad.value), fs;
    }
    match TrimRun(fs, ff, input, output, start, end)
    case Failure(e) =>
      r, fs' := Failure(e), fs;
    case Success(done) =>
      r, fs' := Success(TrimInfo(duration, end - start, start, end, output)), done;
  }

  /** trim_audio: ffmpeg is required; the duration checked against is the probed one. */
  method TrimAudio(fs: Fs, ff: Ffmpeg, input: Path, output: Path, start: real, end: real)
    returns (r: Result<TrimInfo, Exc>, fs': Fs)
    ensures !ff.available ==> r == Failure(Wrapped(TRIM_ERROR, Raised(NO_FFMPEG))) && fs' == fs
    ensures ff.available && InfoAt(fs, ff, input).Failure? ==>
      r == Failure(Wrapped(TRIM_ERROR, InfoAt(fs, ff, input).error)) && fs' == fs
    ensures ff.available && InfoAt(fs, ff, input).Success? ==>
      var d := InfoAt(fs, ff, input).value.durationSeconds;
      && (TrimCheck(start, end, d).Some? ==> r == Failure(Wrapped(TRIM_ERROR, TrimCheck(start, end, d).value)))
      && (r.Success? <==> TrimCheck(start, end, d).None? && TrimRun(fs, ff, input, output, start, end).Success?)
      && (r.Success? ==> r.value == TrimInfo(d, end - start, start, end, output) &&
                         fs' == TrimRun(fs, ff, input, output, start, end).value)
    ensures r.Failure? ==> fs' == fs && r.error.Wrapped? && r.error.prefix == TRIM_ERROR
    ensures r.Success? ==> Produced(fs, fs', output)
  {
    if !ff.available {
      return Failure(Wrapped(TRIM_ERROR, Raised(NO_FFMPEG))), fs;
    }
    var info := GetAudioInfo(fs, ff, input);
    if info.Failure? {
      return Failure(Wrapped(TRIM_ERROR, info.error)), fs;
    }
    r, fs' := TrimProbed(fs, ff, input, output, start, end, info.value.durationSeconds);
    if r.Failure? {
      r := Failure(Wrapped(TRIM_ERROR, r.error));
    }
  }

  // ---------------------------------------------------------------- convert

  /** `codec_map.get(output_format.lower(), 'libmp3lame')` */
  function CodecFor(format: string): (r: string)
    ensures Lower(format) in CODECS ==> r == CODECS[Lower(format)]
    ensures Lower(format) !in CODECS ==> r == "libmp3lame"
  {
    var f := Lower(format);
    if f == "mp3" then "libmp3lame"
    else if f == "wav" then "pcm_s16le"
    else if f == "flac" then "flac"
    else if f == "aac" || f == "m4a" then "aac"
    else if f == "ogg" then "libvorbis"
    else "libmp3lame"
  }

  /** The codec depends on the format's letters, not on their case. */
  lemma CodecIgnoresCase(format: string)
    ensures CodecFor(format) == CodecFor(Lower(format)) == CodecFor(Upper(format))
  {
    LowerIdempotent(format);
    assert Lower(Upper(format)) == Lower(format) by {
      forall i | 0 <= i < |format|
        ensures LowerChar(UpperChar(format[i])) == LowerChar(format[i])
      {
      }
    }
  }

  /** The part of convert_audio_format after the probe: one re-encode with the codec
      of the format; the original format reported is what follows the path's last dot. */
  method ConvertProbed(fs: Fs, ff: Ffmpeg, input: Path, output: Path, format: string, duration: real)
    returns (r: Result<ConvertInfo, Exc>, fs': Fs)
    ensures var run := Checked(fs, ff, Recode(CodecFor(format)), [input], output);
      && (r.Success? <==> run.Success?)
      && (r.Success? ==> r.value == ConvertInfo(AfterDot(input), format, duration, output) && fs' == run.value)
      && (r.Failure? ==> r.error == ff.failed(Recode(CodecFor(format))) && fs' == fs)
    ensures r.Success? ==> Produced(fs, fs', output)
  {
    match Checked(fs, ff, Recode(CodecFor(format)), [input], output)
    case Failure(e) =>
      r, fs' := Failure(e), fs;
    case Success(done) =>
      r, fs' := Success(ConvertInfo(AfterDot(input), format, duration, output)), done;
  }

  /** convert_audio_format */
  method ConvertAudioFormat(fs: Fs, ff: Ffmpeg, input: Path, output: Path, format: string)
    returns (r: Result<ConvertInfo, Exc>, fs': Fs)
    ensures !ff.available ==> r == Failure(Wrapped(CONVERT_ERROR, Raised(NO_FFMPEG))) && fs' == fs
    ensures ff.available && InfoAt(fs, ff, input).Failure? ==>
      r == Failure(Wrapped(CONVERT_ERROR, InfoAt(fs, ff, input).error)) && fs' == fs
    ensures r.Success? <==>
      ff.available && InfoAt(fs, ff, input).Success? && Checked(fs, ff, Recode(CodecFor(format)), [input], output).Success?
    ensures r.Success? ==>
      && r.value == ConvertInfo(AfterDot(input), format, InfoAt(fs, ff, input).value.durationSeconds, output)
      && fs' == Checked(fs, ff, Recode(CodecFor(format)), [input], output).value
    ensures r.Failure? ==> fs' == fs && r.error.Wrapped? && r.error.prefix == CONVERT_ERROR
    ensures r.Success? ==> Produced(fs, fs', output)
  {
    if !ff.available {
      return Failure(Wrapped(CONVERT_ERROR, Raised(NO_FFMPEG))), fs;
    }
    var info := GetAudioInfo(fs, ff, input);
    if info.Failure? {
      return Failure(Wrapped(CONVERT_ERROR, info.error)), fs;
    }
    r, fs' := ConvertProbed(fs, ff, input, output, format, info.value.durationSeconds);
    if r.Failure? {
      r := Failure(Wrapped(CONVERT_ERROR, r.error));
    }
  }

  // ---------------------------------------------------------------- volume

  /** The part of adjust_volume after the probe: one run of the volume filter. */
  method VolumeProbed(fs: Fs, ff: Ffmpeg, input: Path, output: Path, change: real, duration: real)
    returns (r: Result<VolumeInfo, Exc>, fs': Fs)
    ensures var run := Checked(fs, ff, Gain(change), [input], output);
      && (r.Success? <==> run.Success?)
      && (r.Success? ==> r.value == VolumeInfo(change, duration, output) && fs' == run.value)
      && (r.Failure? ==> r.error == ff.failed(Gain(change)) && fs' == fs)
    ensures r.Success? ==> Produced(fs, fs', output)
  {
    match Checked(fs, ff, Gain(change), [input], output)
    case Failure(e) =>
      r, fs' := Failure(e), fs;
    case Success(done) =>
      r, fs' := Success(VolumeInfo(change, duration, output)), done;
  }

  /** adjust_volume */
  method AdjustVolume(fs: Fs, ff: Ffmpeg, input: Path, output: Path, change: real)
    returns (r: Result<VolumeInfo, Exc>, fs': Fs)
    ensures !ff.available ==> r == Failure(Wrapped(VOLUME_ERROR, Raised(NO_FFMPEG))) && fs' == fs
    ensures ff.available && InfoAt(fs, ff, input).Failure? ==>
      r == Failure(Wrapped(VOLUME_ERROR, InfoAt(fs, ff, input).error)) && fs' == fs
    ensures r.Success? <==>
      ff.available && InfoAt(fs, ff, input).Success? && Checked(fs, ff, Gain(change), [input], output).Success?
    ensures r.Success? ==>
      && r.value == VolumeInfo(change, InfoAt(fs, ff, input).value.durationSeconds, output)
      && fs' == Checked(fs, ff, Gain(change), [input], output).value
    ensures r.Failure? ==> fs' == fs && r.error.Wrapped? && r.error.prefix == VOLUME_ERROR
    ensures r.Success? ==> Produced(fs, fs', output)
  {
    if !ff.available {
      return Failure(Wrapped(VOLUME_ERROR, Raised(NO_FFMPEG))), fs;
    }
    var info := GetAudioInfo(fs, ff, input);
    if info.Failure? {
      return Failure(Wrapped(VOLUME_ERROR, info.error)), fs;
    }
    r, fs' := VolumeProbed(fs, ff, input, output, change, info.value.durationSeconds);
    if r.Failure? {
      r := Failure(Wrapped(VOLUME_ERROR, r.error));
    }
  }

  // ---------------------------------------------------------------- fades

  /** The afade filters add_fade_effects builds: a fade-in exactly when fade_in > 0, a
      fade-out exactly when fade_out > 0, starting fade_out before the end, and the
      fade-in first. */
  method FadeFilters(fadeIn: real, fadeOut: real, duration: real) returns (filters: seq<Fade>)
    ensures |filters| <= 2
    ensures (exists i :: 0 <= i < |filters| && filters[i].FadeIn?) <==> fadeIn > 0.0
    ensures (exists i :: 0 <= i < |filters| && filters[i].FadeOut?) <==> fadeOut > 0.0
    ensures forall i :: 0 <= i < |filters| && filters[i].FadeIn? ==> filters[i] == FadeIn(fadeIn)
    ensures forall i :: 0 <= i < |filters| && filters[i].FadeOut? ==> filters[i] == FadeOut(duration - fadeOut, fadeOut)
    ensures forall i, j :: 0 <= i < |filters| && 0 <= j < |filters| && filters[i].FadeIn? && filters[j].FadeOut? ==> i < j
    ensures filters == [] <==> fadeIn <= 0.0 && fadeOut <= 0.0
  {
    filters := [];
    if fadeIn > 0.0 {
      filters := filters + [FadeIn(fadeIn)];
    }
    if fadeOut > 0.0 {
      var fadeStart := duration - fadeOut;
      filters := filters + [FadeOut(fadeStart, fadeOut)];
      assert filters[|filters| - 1].FadeOut?;
    }
    if fadeIn > 0.0 {
      assert filters[0].FadeIn?;
    }
  }

  /** The ffmpeg command the fades call for: the filters, or a stream copy without any. */
  function FadeCommand(filters: seq<Fade>): Command
  {
    if filters != [] then Filtered(filters) else StreamCopy
  }

  /** The part of add_fade_effects after the probe. */
  method FadeProbed(fs: Fs, ff: Ffmpeg, input: Path, output: Path, fadeIn: real, fadeOut: real, duration: real)
    returns (r: Result<FadeInfo, Exc>, fs': Fs, cmd: Command)
    ensures fadeIn <= 0.0 && fadeOut <= 0.0 ==> cmd == StreamCopy
    ensures !(fadeIn <= 0.0 && fadeOut <= 0.0) ==> cmd.Filtered? && cmd.fades != []
    ensures cmd.Filtered? ==>
      (fadeIn > 0.0 <==> FadeIn(fadeIn) in cmd.fades) &&
      (fadeOut > 0.0 <==> FadeOut(duration - fadeOut, fadeOut) in cmd.fades)
    ensures var run := Checked(fs, ff, cmd, [input], output);
      && (r.Success? <==> run.Success?)
      && (r.Success? ==> r.value == FadeInfo(fadeIn, fadeOut, duration, output) && fs' == run.value)
      && (r.Failure? ==> r.error == ff.failed(cmd) && fs' == fs)
    ensures r.Success? ==> Produced(fs, fs', output)
  {
    var filters := FadeFilters(fadeIn, fadeOut, duration);
    cmd := FadeCommand(filters);
    match Checked(fs, ff, cmd, [input], output)
    case Failure(e) =>
      r, fs' := Failure(e), fs;
    case Success(done) =>
      r, fs' := Success(FadeInfo(fadeIn, fadeOut, duration, output)), done;
  }

  /** add_fade_effects */
  method AddFadeEffects(fs: Fs, ff: Ffmpeg, input: Path, output: Path, fadeIn: real, fadeOut: real)
    returns (r: Result<FadeInfo, Exc>, fs': Fs)
    ensures !ff.available ==> r == Failure(Wrapped(FADE_ERROR, Raised(NO_FFMPEG))) && fs' == fs
    ensures ff.available && InfoAt(fs, ff, input).Failure? ==>
      r == Failure(Wrapped(FADE_ERROR, InfoAt(fs, ff, input).error)) && fs' == fs
    ensures r.Success? ==>
      && ff.available && InfoAt(fs, ff, input).Success?
      && r.value == FadeInfo(fadeIn, fadeOut, InfoAt(fs, ff, input).value.durationSeconds, output)
      && output in fs'.files && fs'.dirs == fs.dirs
    ensures r.Failure? ==> fs' == fs && r.error.Wrapped? && r.error.prefix == FADE_ERROR
    ensures r.Success? ==> Produced(fs, fs', output)
  {
    if !ff.available {
      return Failure(Wrapped(FADE_ERROR, Raised(NO_FFMPEG))), fs;
    }
    var info := GetAudioInfo(fs, ff, input);
    if info.Failure? {
      return Failure(Wrapped(FADE_ERROR, info.error)), fs;
    }
    var cmd;
    r, fs', cmd := FadeProbed(fs, ff, input, output, fadeIn, fadeOut, info.value.durationSeconds);
    if r.Failure? {
      r := Failure(Wrapped(FADE_ERROR, r.error));
    }
  }

  // ---------------------------------------------------------------- merge

  /** The concat list merge_audio_files writes beside its output. */
  function ListPath(output: Path): (r: Path)
    ensures r != output
  {
    output + "_list.txt"
  }

  /** The disk once the concat list is written. */
  function Listed(fs: Fs, inputs: seq<Path>, output: Path): Fs
  {
    fs.(files := fs.files[ListPath(output) := File(Encode(Entries(inputs)), fs.clock)])
  }

  /** The concat runs of a merge: a stream copy, and a re-encode when that fails; both
      read the list, then the inputs it names. */
  function MergeRun(fs: Fs, ff: Ffmpeg, inputs: seq<Path>, output: Path): Result<Fs, Exc>
  {
    Retried(Listed(fs, inputs, output), ff, ConcatCopy, ConcatEncode, [ListPath(output)] + inputs, output)
  }

  /** merge_audio_files: ffmpeg first, then at least two inputs; the list names every
      input in order (AudioTools.EntriesLines), and it is removed once the concat ran,
      whatever came of it. */
  method MergeAudioFiles(fs: Fs, ff: Ffmpeg, inputs: seq<Path>, output: Path)
    returns (r: Result<MergeInfo, Exc>, fs': Fs)
    ensures !ff.available ==> r == Failure(Wrapped(MERGE_ERROR, Raised(NO_FFMPEG))) && fs' == fs
    ensures ff.available && |inputs| < 2 ==> r == Failure(Wrapped(MERGE_ERROR, Raised(TOO_FEW_TO_MERGE))) && fs' == fs
    ensures r.Success? <==>
      && ff.available && |inputs| >= 2 && Writable(fs, ListPath(output))
      && MergeRun(fs, ff, inputs, output).Success?
      && InfoAt(MergeRun(fs, ff, inputs, output).value, ff, output).Success?
    ensures r.Success? ==>
      var done := MergeRun(fs, ff, inputs, output).value;
      && r.value == MergeInfo(|inputs|, InfoAt(done, ff, output).value.durationSeconds, output)
      && fs' == done.(files := done.files - {ListPath(output)})
    ensures ff.available && |inputs| >= 2 ==> ListPath(output) !in fs'.files || !Writable(fs, ListPath(output))
    ensures r.Failure? ==> r.error.Wrapped? && r.error.prefix == MERGE_ERROR
    ensures fs'.dirs == fs.dirs
    ensures WroteOnly(fs.files, fs'.files, [output]) && Kept(fs.files, fs'.files, [output, ListPath(output)])
    ensures r.Success? ==> output in fs'.files
  {
    if !ff.available {
      return Failure(Wrapped(MERGE_ERROR, Raised(NO_FFMPEG))), fs;
    }
    if |inputs| < 2 {
      return Failure(Wrapped(MERGE_ERROR, Raised(TOO_FEW_TO_MERGE))), fs;
    }
    var list := ListPath(output);
    var listed := WriteList(fs, list, inputs);
    if listed.Failure? {
      return Failure(Wrapped(MERGE_ERROR, listed.error)), fs;
    }
    var ran := Retried(listed.value, ff, ConcatCopy, ConcatEncode, [list] + inputs, output);
    var now := if ran.Success? then ran.value else listed.value;
    var info: Result<AudioInfo, Exc> := Failure(Raised(""));
    if ran.Success? {
      info := GetAudioInfo(ran.value, ff, output);
    }
    fs' := now.(files := now.files - {list});
    if ran.Failure? {
      r := Failure(Wrapped(MERGE_ERROR, ran.error));
    } else if info.Failure? {
      r := Failure(Wrapped(MERGE_ERROR, info.error));
    } else {
      r := Success(MergeInfo(|inputs|, info.value.durationSeconds, output));
    }
  }

  // ---------------------------------------------------------------- overlay

  /** overlay_audio_files: both inputs are probed, mixed for the longer one's length,
      and the output probed; a failure of that last probe leaves the output written. */
  method OverlayAudioFiles(fs: Fs, ff: Ffmpeg, audio1: Path, audio2: Path, output: Path)
    returns (r: Result<OverlayInfo, Exc>, fs': Fs)
    ensures !ff.available ==> r == Failure(Wrapped(OVERLAY_ERROR, Raised(NO_FFMPEG))) && fs' == fs
    ensures r.Success? <==>
      && ff.available && InfoAt(fs, ff, audio1).Success? && InfoAt(fs, ff, audio2).Success?
      && Checked(fs, ff, Mix, [audio1, audio2], output).Success?
      && InfoAt(Checked(fs, ff, Mix, [audio1, audio2], output).value, ff, output).Success?
    ensures r.Success? ==>
      var mixed := Checked(fs, ff, Mix, [audio1, audio2], output).value;
      && fs' == mixed
      && r.value == OverlayInfo(InfoAt(fs, ff, audio1).value.durationSeconds, InfoAt(fs, ff, audio2).value.durationSeconds,
                                InfoAt(mixed, ff, output).value.durationSeconds, output)
    ensures r.Failure? ==> r.error.Wrapped? && r.error.prefix == OVERLAY_ERROR
    ensures r.Failure? && Checked(fs, ff, Mix, [audio1, audio2], output).Failure? ==> fs' == fs
    ensures fs'.dirs == fs.dirs && WroteOnly(fs.files, fs'.files, [output]) && Kept(fs.files, fs'.files, [output])
    ensures r.Success? ==> Produced(fs, fs', output)
  {
    if !ff.available {
      return Failure(Wrapped(OVERLAY_ERROR, Raised(NO_FFMPEG))), fs;
    }
    var info1 := GetAudioInfo(fs, ff, audio1);
    if info1.Failure? {
      return Failure(Wrapped(OVERLAY_ERROR, info1.error)), fs;
    }
    var info2 := GetAudioInfo(fs, ff, audio2);
    if info2.Failure? {
      return Failure(Wrapped(OVERLAY_ERROR, info2.error)), fs;
    }
    var mixed := Checked(fs, ff, Mix, [audio1, audio2], output);
    if mixed.Failure? {
      return Failure(Wrapped(OVERLAY_ERROR, mixed.error)), fs;
    }
    var last := GetAudioInfo(mixed.value, ff, output);
    fs' := mixed.value;
    if last.Failure? {
      return Failure(Wrapped(OVERLAY_ERROR, last.error)), fs';
    }
    r := Success(OverlayInfo(info1.value.durationSeconds, info2.value.durationSeconds, last.value.durationSeconds, output));
  }

  // ---------------------------------------------------------------- demo tones

  /** The two demo sequences: five one-second sine tones, or two square-labelled tones. */
  datatype Melody = SineMelody | SquareTones

  function Frequencies(m: Melody): seq<nat>
  {
    match m
    case SineMelody => [440, 494, 523, 587, 659]
    case SquareTones => [330, 370]
  }

  function Notes(m: Melody): (r: seq<string>)
    ensures |r| == |Frequencies(m)|
  {
    match m
    case SineMelody => ["A4 (440Hz)", "B4 (494Hz)", "C5 (523Hz)", "D5 (587Hz)", "E5 (659Hz)"]
    case SquareTones => ["E4 (330Hz)", "F#4 (370Hz)"]
  }

  /** The temporary tone files, in the working directory: `temp_tone_{i}_{freq}.wav`. */
  function TempName(m: Melody, i: nat, freq: nat): Path
  {
    (if m.SineMelody? then "temp_tone_" else "temp_square_") + NatToString(i) + "_" + NatToString(freq) + ".wav"
  }

  function TempNames(m: Melody): (r: seq<Path>)
    ensures |r| == |Frequencies(m)|
  {
    var fr := Frequencies(m);
    seq(|fr|, i requires 0 <= i < |fr| => TempName(m, i, fr[i]))
  }

  function ListName(m: Melody): Path
  {
    if m.SineMelody? then "temp_concat_list.txt" else "temp_square_concat_list.txt"
  }

  function GenerationError(m: Melody): string
  {
    if m.SineMelody? then SINE_ERROR else SQUARE_ERROR
  }

  /** The ffmpeg runs that make the tones. */
  function ToneCommands(m: Melody): (r: seq<Command>)
    ensures |r| == |Frequencies(m)|
  {
    var fr := Frequencies(m);
    seq(|fr|, i requires 0 <= i < |fr| => Tone(fr[i], m.SquareTones?))
  }

  /** The ffmpeg run that joins the tones, on the disk where they and the list are
      written. */
  function JoinTones(fs: Fs, ff: Ffmpeg, m: Melody, output: Path): Result<Fs, Exc>
  {
    var toned := Written(fs, TempNames(m), Outputs(ff, ToneCommands(m)));
    var listed := toned.(files := toned.files[ListName(m) := File(Encode(Entries(TempNames(m))), fs.clock)]);
    Checked(listed, ff, ConcatEncode, [ListName(m)] + TempNames(m), output)
  }

  /** What generation returns once the tones are joined. */
  function Generated(m: Melody, output: Path): ToneInfo
  {
    ToneInfo(if m.SineMelody? then 5.0 else 2.0, Notes(m), if m.SineMelody? then "sine_melody" else "square_tones", output)
  }

  /** generate_sine_melody and generate_square_tones: make each tone, list them, join
      them into the output; the `finally` clause then removes every tone file and the
      list.  A removal that raises there replaces whatever the helper was returning. */
  method Generate(fs: Fs, ff: Ffmpeg, m: Melody, output: Path) returns (r: Result<ToneInfo, Exc>, fs': Fs)
    ensures !ff.available ==> r == Failure(Wrapped(GenerationError(m), Raised(NO_FFMPEG_FOR_GENERATION))) && fs' == fs
    ensures r.Success? <==>
      && ff.available && AllMade(fs, ff, ToneCommands(m), TempNames(m))
      && Writable(fs, ListName(m)) && JoinTones(fs, ff, m, output).Success?
    ensures r.Success? ==>
      r.value == Generated(m, output) &&
      fs'.files == JoinTones(fs, ff, m, output).value.files - PathSet(TempNames(m) + [ListName(m)])
    ensures fs'.dirs == fs.dirs
    ensures r.Success? && output !in TempNames(m) && output != ListName(m) ==> output in fs'.files
    ensures Kept(fs.files, fs'.files, TempNames(m) + [ListName(m), output])
    ensures r.Failure? && ff.available && (forall p :: p in TempNames(m) + [ListName(m)] ==> p !in fs.dirs) ==>
      r.error.Wrapped? && r.error.prefix == GenerationError(m) && Within(fs'.files, fs.files)
  {
    if !ff.available {
      return Failure(Wrapped(GenerationError(m), Raised(NO_FFMPEG_FOR_GENERATION))), fs;
    }
    var names, cmds := TempNames(m), ToneCommands(m);
    var err, done, toned := RunEach(fs, ff, cmds, names);
    if err.Some? {
      // temp_files holds the tone that failed too: it was listed before its run.
      WrittenOnly(fs, names, Outputs(ff, cmds), done);
      PathsStep(names, done);
      var cleanupError;
      cleanupError, fs' := RemoveEach(toned, names[..done + 1]);
      r := if cleanupError.Some? then Failure(cleanupError.value) else Failure(Wrapped(GenerationError(m), err.value));
      if cleanupError.None? && forall p :: p in names + [ListName(m)] ==> p !in fs.dirs {
        assert forall p :: p in names[..done] ==> p in names[..done + 1];
        CleanedUp(fs.files, toned.files, fs'.files, names[..done]);
      }
      WrittenKept(fs, names[..done], Outputs(ff, cmds)[..done]);
      PrefixWithin(names, done, [ListName(m), output]);
      PrefixWithin(names, done + 1, [ListName(m), output]);
      KeptChain(fs.files, toned.files, fs'.files, names[..done], names[..done + 1], names + [ListName(m), output]);
      return;
    }
    r, fs' := JoinGenerated(fs, toned, ff, m, output);
  }

  /** The rest of generation once every tone is written: the list, the join, and the
      `finally` clause. */
  method JoinGenerated(fs: Fs, toned: Fs, ff: Ffmpeg, m: Melody, output: Path) returns (r: Result<ToneInfo, Exc>, fs': Fs)
    requires toned == Written(fs, TempNames(m), Outputs(ff, ToneCommands(m)))
    requires AllMade(fs, ff, ToneCommands(m), TempNames(m))
    ensures r.Success? <==> Writable(fs, ListName(m)) && JoinTones(fs, ff, m, output).Success?
    ensures r.Success? ==>
      r.value == Generated(m, output) &&
      fs'.files == JoinTones(fs, ff, m, output).value.files - PathSet(TempNames(m) + [ListName(m)])
    ensures fs'.dirs == fs.dirs
    ensures r.Success? && output !in TempNames(m) && output != ListName(m) ==> output in fs'.files
    ensures Kept(fs.files, fs'.files, TempNames(m) + [ListName(m), output])
    ensures r.Failure? && ListName(m) !in fs.dirs ==>
      r.error.Wrapped? && r.error.prefix == GenerationError(m) && Within(fs'.files, fs.files)
  {
    var names := TempNames(m);
    AllMadeNoDirs(fs, ff, ToneCommands(m), names);
    WrittenOnlyAll(fs, names, Outputs(ff, ToneCommands(m)));
    WrittenKept(fs, names, Outputs(ff, ToneCommands(m)));
    var res, now := JoinTempFiles(toned, ff, m, output);
    r, fs' := RemoveTempFiles(fs, toned, now, res, m, output);
  }

  /** The `finally` clause of generation: every tone file and the list removed.  A
      removal raises only where the list is a directory, and then the join failed. */
  method RemoveTempFiles(fs: Fs, toned: Fs, now: Fs, res: Result<ToneInfo, Exc>, m: Melody, output: Path)
    returns (r: Result<ToneInfo, Exc>, fs': Fs)
    requires toned.dirs == fs.dirs && now.dirs == fs.dirs
    requires forall p :: p in TempNames(m) ==> p !in fs.dirs
    requires WroteOnly(fs.files, toned.files, TempNames(m)) && Kept(fs.files, toned.files, TempNames(m))
    requires WroteOnly(toned.files, now.files, [ListName(m), output]) && Kept(toned.files, now.files, [ListName(m), output])
    requires res.Success? ==> ListName(m) !in fs.dirs && output in now.files
    requires res.Failure? ==>
      res.error.Wrapped? && res.error.prefix == GenerationError(m) && WroteOnly(toned.files, now.files, [ListName(m)])
    ensures r.Success? <==> res.Success?
    ensures r.Success? ==> r == res && fs'.files == now.files - PathSet(TempNames(m) + [ListName(m)])
    ensures fs'.dirs == fs.dirs
    ensures r.Success? && output !in TempNames(m) && output != ListName(m) ==> output in fs'.files
    ensures Kept(fs.files, fs'.files, TempNames(m) + [ListName(m), output])
    ensures r.Failure? && ListName(m) !in fs.dirs ==>
      r.error.Wrapped? && r.error.prefix == GenerationError(m) && Within(fs'.files, fs.files)
  {
    var names, list := TempNames(m), ListName(m);
    var cleanupError;
    cleanupError, fs' := RemoveEach(now, names + [list]);
    r := if cleanupError.Some? then Failure(cleanupError.value) else res;
    if r.Failure? && list !in fs.dirs {
      WroteOnlyChain(fs.files, toned.files, now.files, names, [list]);
      CleanedUp(fs.files, now.files, fs'.files, names + [list]);
    }
    KeptChain(fs.files, toned.files, now.files, names, [list, output], names + [list, output]);
    KeptChain(fs.files, now.files, fs'.files, names + [list, output], names + [list], names + [list, output]);
  }

  /** The list and the join of generation, before its `finally` clause: the disk holds
      the tones, and at most the list and the output are written besides. */
  method JoinTempFiles(toned: Fs, ff: Ffmpeg, m: Melody, output: Path) returns (res: Result<ToneInfo, Exc>, now: Fs)
    ensures var listed := toned.(files := toned.files[ListName(m) := File(Encode(Entries(TempNames(m))), toned.clock)]);
      && (res.Success? <==> Writable(toned, ListName(m)) &&
                            Checked(listed, ff, ConcatEncode, [ListName(m)] + TempNames(m), output).Success?)
      && (res.Success? ==> res.value == Generated(m, output) &&
                           now == Checked(listed, ff, ConcatEncode, [ListName(m)] + TempNames(m), output).value)
    ensures res.Failure? ==>
      res.error.Wrapped? && res.error.prefix == GenerationError(m) && WroteOnly(toned.files, now.files, [ListName(m)])
    ensures now.dirs == toned.dirs
    ensures Kept(toned.files, now.files, [ListName(m), output]) && WroteOnly(toned.files, now.files, [ListName(m), output])
  {
    var names, list := TempNames(m), ListName(m);
    now := toned;
    var listed := WriteList(toned, list, names);
    if listed.Failure? {
      res := Failure(Wrapped(GenerationError(m), listed.error));
      return;
    }
    now := listed.value;
    match Checked(listed.value, ff, ConcatEncode, [list] + names, output)
    case Failure(e) =>
      res := Failure(Wrapped(GenerationError(m), e));
    case Success(done) =>
      res := Success(Generated(m, output));
      now := done;
  }
}
