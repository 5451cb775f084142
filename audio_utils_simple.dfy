// The fall-back audio helpers (backend/helpers/audio_utils_simple.py), which the
// router imports when helpers.audio_utils cannot be imported.  Without ffmpeg each
// operation copies its (first) input to the output and reports constant durations;
// with ffmpeg it runs the same commands as AudioUtils, but against get_audio_info's
// constant five-second duration.  validate_audio_file is the same code as in
// AudioUtils.
module AudioUtilsSimple {
  import opened Wrappers
  import opened Strings
  import opened Http
  import opened FileSystem
  import opened AudioTools
  import AudioUtils

  const MISSING_FILE := "File does not exist"

  /** get_supported_formats() */
  const SUPPORTED_FORMATS: seq<string> := ["mp3", "wav", "flac", "aac", "ogg", "m4a", "mp4", "wma", "aiff", "au", "3gp"]

  /** Both helper modules accept the same eleven formats, in the same order. */
  lemma SameFormats()
    ensures SUPPORTED_FORMATS == AudioUtils.SUPPORTED_FORMATS && |SUPPORTED_FORMATS| == 11
  {
  }

  /** get_audio_info: a missing path raises; anything else gets the same five-second,
      two-channel, 44.1 kHz metadata and its real size. */
  function GetAudioInfo(fs: Fs, p: Path): (r: Result<AudioInfo, Exc>)
    ensures r.Success? <==> Exists(fs, p)
    ensures !Exists(fs, p) ==> r == Failure(Raised(MISSING_FILE))
    ensures r.Success? ==>
      && r.value.durationSeconds == 5.0 && r.value.durationMs == 5000
      && r.value.channels == 2 && r.value.frameRate == 44100
    ensures p in fs.files ==> r.Success? && r.value.fileSize == |fs.files[p].data|
  {
    if !Exists(fs, p) then Failure(Raised(MISSING_FILE))
    else Success(AudioInfo(5000, 5.0, 2, 44100, 16, "mp3", "128000", Size(fs, p).value))
  }

  function Max(a: real, b: real): real
  {
    if a >= b then a else b
  }

  // ---------------------------------------------------------------- demo files

  /** The placeholder MP3: a frame header and `silence` zero bytes. */
  function DemoBytes(silence: nat): (r: Bytes)
    ensures |r| == 4 + silence && r[..4] == [0xff, 0xfb, 0x90, 0x00]
    ensures forall i :: 4 <= i < |r| ==> r[i] == 0
  {
    [0xff, 0xfb, 0x90, 0x00] + seq(silence, _ => 0)
  }

  /** generate_sine_melody and generate_square_tones: the placeholder file, written
      whether or not ffmpeg is present. */
  method Generate(fs: Fs, m: AudioUtils.Melody, output: Path) returns (r: Result<ToneInfo, Exc>, fs': Fs)
    ensures r.Success? <==> Writable(fs, output)
    ensures r.Success? ==>
      && r.value == ToneInfo(if m.SineMelody? then 5.0 else 2.0, AudioUtils.Notes(m),
                             if m.SineMelody? then "sine_melody_demo" else "square_tones_demo", output)
      && fs' == fs.(files := fs.files[output := File(DemoBytes(if m.SineMelody? then 2000 else 1000), fs.clock)])
    ensures r.Failure? ==> fs' == fs && r.error == Wrapped(AudioUtils.GenerationError(m), Write(fs, output, []).error)
    ensures fs'.dirs == fs.dirs && Kept(fs.files, fs'.files, [output])
    ensures r.Success? ==> output in fs'.files
  {
    match Write(fs, output, DemoBytes(if m.SineMelody? then 2000 else 1000))
    case Failure(e) =>
      r, fs' := Failure(Wrapped(AudioUtils.GenerationError(m), e)), fs;
    case Success(done) =>
      r := Success(ToneInfo(if m.SineMelody? then 5.0 else 2.0, AudioUtils.Notes(m),
                            if m.SineMelody? then "sine_melody_demo" else "square_tones_demo", output));
      fs' := done;
  }

  // ---------------------------------------------------------------- overlay

  /** overlay_audio_files: the first file is copied to the output, and the mixed
      length reported is the longer of the two (both five seconds). */
  method OverlayAudioFiles(fs: Fs, audio1: Path, audio2: Path, output: Path) returns (r: Result<OverlayInfo, Exc>, fs': Fs)
    ensures r.Success? <==> Copy(fs, audio1, output).Success? && Exists(Copy(fs, audio1, output).value, audio2)
    ensures Exists(fs, audio2) && Copy(fs, audio1, output).Success? ==> r.Success?
    ensures r.Success? ==>
      && fs' == Copy(fs, audio1, output).value
      && r.value.mergedDuration == Max(r.value.audio1Duration, r.value.audio2Duration)
      && r.value == OverlayInfo(5.0, 5.0, 5.0, output)
    ensures r.Failure? ==> r.error.Wrapped? && r.error.prefix == AudioUtils.OVERLAY_ERROR
    ensures Copy(fs, audio1, output).Failure? ==> fs' == fs
    ensures fs'.dirs == fs.dirs && (output !in fs.dirs ==> WroteOnly(fs.files, fs'.files, [output]) && Kept(fs.files, fs'.files, [output]))
    ensures r.Success? ==> Produced(fs, fs', output)
  {
    match Copy(fs, audio1, output)
    case Failure(e) =>
      r, fs' := Failure(Wrapped(AudioUtils.OVERLAY_ERROR, e)), fs;
    case Success(copied) =>
      fs' := copied;
      var info1 := GetAudioInfo(copied, audio1);
      assert info1.Success?;
      var info2 := GetAudioInfo(copied, audio2);
      if info2.Failure? {
        r := Failure(Wrapped(AudioUtils.OVERLAY_ERROR, info2.error));
        return;
      }
      var d1, d2 := info1.value.durationSeconds, info2.value.durationSeconds;
      r := Success(OverlayInfo(d1, d2, Max(d1, d2), output));
  }

  // ---------------------------------------------------------------- trim

  /** trim_audio: without ffmpeg the input is copied whatever the times, reporting ten
      seconds and end - start; with ffmpeg the checks of AudioUtils run against five
      seconds, so any end past 5.0 is refused. */
  method TrimAudio(fs: Fs, ff: Ffmpeg, input: Path, output: Path, start: real, end: real)
    returns (r: Result<TrimInfo, Exc>, fs': Fs)
    ensures !ff.available ==>
      && (r.Success? <==> Copy(fs, input, output).Success?)
      && (r.Success? ==> r.value == TrimInfo(10.0, end - start, start, end, output) && fs' == Copy(fs, input, output).value)
      && (r.Failure? ==> r.error == Copy(fs, input, output).error && fs' == fs)
    ensures ff.available && !Exists(fs, input) ==> r == Failure(Wrapped(AudioUtils.TRIM_ERROR, Raised(MISSING_FILE))) && fs' == fs
    ensures ff.available && Exists(fs, input) ==>
      && (AudioUtils.TrimCheck(start, end, 5.0).Some? ==>
           r == Failure(Wrapped(AudioUtils.TRIM_ERROR, AudioUtils.TrimCheck(start, end, 5.0).value)))
      && (r.Success? <==> AudioUtils.TrimCheck(start, end, 5.0).None? && AudioUtils.TrimRun(fs, ff, input, output, start, end).Success?)
      && (r.Success? ==> r.value == TrimInfo(5.0, end - start, start, end, output) &&
                         fs' == AudioUtils.TrimRun(fs, ff, input, output, start, end).value)
    ensures ff.available && 0.0 <= start && end > 5.0 ==> r.Failure?
    ensures ff.available && r.Failure? ==> fs' == fs && r.error.Wrapped? && r.error.prefix == AudioUtils.TRIM_ERROR
    ensures r.Success? ==> Produced(fs, fs', output)
  {
    if !ff.available {
      var copied := Copy(fs, input, output);
      if copied.Failure? {
        return Failure(copied.error), fs;
      }
      return Success(TrimInfo(10.0, end - start, start, end, output)), copied.value;
    }
    var info := GetAudioInfo(fs, input);
    if info.Failure? {
      return Failure(Wrapped(AudioUtils.TRIM_ERROR, info.error)), fs;
    }
    r, fs' := AudioUtils.TrimProbed(fs, ff, input, output, start, end, info.value.durationSeconds);
    if r.Failure? {
      r := Failure(Wrapped(AudioUtils.TRIM_ERROR, r.error));
    }
  }

  // ---------------------------------------------------------------- convert, volume, fades

  /** convert_audio_format: without ffmpeg a copy reporting five seconds; with it the
      re-encode of AudioUtils. */
  method ConvertAudioFormat(fs: Fs, ff: Ffmpeg, input: Path, output: Path, format: string)
    returns (r: Result<ConvertInfo, Exc>, fs': Fs)
    ensures !ff.available ==>
      && (r.Success? <==> Copy(fs, input, output).Success?)
      && (r.Success? ==> r.value == ConvertInfo(AfterDot(input), format, 5.0, output) && fs' == Copy(fs, input, output).value)
      && (r.Failure? ==> r.error == Copy(fs, input, output).error && fs' == fs)
    ensures ff.available ==>
      var run := Checked(fs, ff, Recode(AudioUtils.CodecFor(format)), [input], output);
      && (r.Success? <==> Exists(fs, input) && run.Success?)
      && (r.Success? ==> r.value == ConvertInfo(AfterDot(input), format, 5.0, output) && fs' == run.value)
      && (r.Failure? ==> fs' == fs && r.error.Wrapped? && r.error.prefix == AudioUtils.CONVERT_ERROR)
    ensures r.Success? ==> Produced(fs, fs', output)
  {
    if !ff.available {
      var copied := Copy(fs, input, output);
      if copied.Failure? {
        return Failure(copied.error), fs;
      }
      return Success(ConvertInfo(AfterDot(input), format, 5.0, output)), copied.value;
    }
    var info := GetAudioInfo(fs, input);
    if info.Failure? {
      return Failure(Wrapped(AudioUtils.CONVERT_ERROR, info.error)), fs;
    }
    r, fs' := AudioUtils.ConvertProbed(fs, ff, input, output, format, info.value.durationSeconds);
    if r.Failure? {
      r := Failure(Wrapped(AudioUtils.CONVERT_ERROR, r.error));
    }
  }

  /** adjust_volume: without ffmpeg a copy reporting five seconds; with it the volume
      filter of AudioUtils. */
  method AdjustVolume(fs: Fs, ff: Ffmpeg, input: Path, output: Path, change: real)
    returns (r: Result<VolumeInfo, Exc>, fs': Fs)
    ensures !ff.available ==>
      && (r.Success? <==> Copy(fs, input, output).Success?)
      && (r.Success? ==> r.value == VolumeInfo(change, 5.0, output) && fs' == Copy(fs, input, output).value)
      && (r.Failure? ==> r.error == Copy(fs, input, output).error && fs' == fs)
    ensures ff.available ==>
      var run := Checked(fs, ff, Gain(change), [input], output);
      && (r.Success? <==> Exists(fs, input) && run.Success?)
      && (r.Success? ==> r.value == VolumeInfo(change, 5.0, output) && fs' == run.value)
      && (r.Failure? ==> fs' == fs && r.error.Wrapped? && r.error.prefix == AudioUtils.VOLUME_ERROR)
    ensures r.Success? ==> Produced(fs, fs', output)
  {
    if !ff.available {
      var copied := Copy(fs, input, output);
      if copied.Failure? {
        return Failure(copied.error), fs;
      }
      return Success(VolumeInfo(change, 5.0, output)), copied.value;
    }
    var info := GetAudioInfo(fs, input);
    if info.Failure? {
      return Failure(Wrapped(AudioUtils.VOLUME_ERROR, info.error)), fs;
    }
    r, fs' := AudioUtils.VolumeProbed(fs, ff, input, output, change, info.value.durationSeconds);
    if r.Failure? {
      r := Failure(Wrapped(AudioUtils.VOLUME_ERROR, r.error));
    }
  }

  /** add_fade_effects: without ffmpeg a copy reporting five seconds; with it the fade
      filters of AudioUtils, the fade-out starting fade_out before the fifth second. */
  method AddFadeEffects(fs: Fs, ff: Ffmpeg, input: Path, output: Path, fadeIn: real, fadeOut: real)
    returns (r: Result<FadeInfo, Exc>, fs': Fs)
    ensures !ff.available ==>
      && (r.Success? <==> Copy(fs, input, output).Success?)
      && (r.Success? ==> r.value == FadeInfo(fadeIn, fadeOut, 5.0, output) && fs' == Copy(fs, input, output).value)
      && (r.Failure? ==> r.error == Copy(fs, input, output).error && fs' == fs)
    ensures ff.available ==>
      && (r.Success? ==> Exists(fs, input) && r.value == FadeInfo(fadeIn, fadeOut, 5.0, output) && output in fs'.files)
      && (r.Failure? ==> fs' == fs && r.error.Wrapped? && r.error.prefix == AudioUtils.FADE_ERROR)
    ensures r.Success? ==> Produced(fs, fs', output)
  {
    if !ff.available {
      var copied := Copy(fs, input, output);
      if copied.Failure? {
        return Failure(copied.error), fs;
      }
      return Success(FadeInfo(fadeIn, fadeOut, 5.0, output)), copied.value;
    }
    var info := GetAudioInfo(fs, input);
    if info.Failure? {
      return Failure(Wrapped(AudioUtils.FADE_ERROR, info.error)), fs;
    }
    var cmd;
    r, fs', cmd := AudioUtils.FadeProbed(fs, ff, input, output, fadeIn, fadeOut, info.value.durationSeconds);
    if r.Failure? {
      r := Failure(Wrapped(AudioUtils.FADE_ERROR, r.error));
    }
  }

  // ---------------------------------------------------------------- merge

  /** merge_audio_files: the count is checked before ffmpeg, and outside the `try`, so
      its error is not wrapped; without ffmpeg the first input is copied and ten
      seconds reported; with it the concat of AudioUtils, probed for five seconds. */
  method MergeAudioFiles(fs: Fs, ff: Ffmpeg, inputs: seq<Path>, output: Path)
    returns (r: Result<MergeInfo, Exc>, fs': Fs)
    ensures |inputs| < 2 ==> r == Failure(Raised(AudioUtils.TOO_FEW_TO_MERGE)) && fs' == fs
    ensures |inputs| >= 2 && !ff.available ==>
      && (r.Success? <==> Copy(fs, inputs[0], output).Success?)
      && (r.Success? ==> r.value == MergeInfo(|inputs|, 10.0, output) && fs' == Copy(fs, inputs[0], output).value)
      && (r.Failure? ==> r.error == Copy(fs, inputs[0], output).error && fs' == fs)
    ensures |inputs| >= 2 && ff.available ==>
      var run := AudioUtils.MergeRun(fs, ff, inputs, output);
      && (r.Success? <==> Writable(fs, AudioUtils.ListPath(output)) && run.Success?)
      && (r.Success? ==> r.value == MergeInfo(|inputs|, 5.0, output) &&
                         fs' == run.value.(files := run.value.files - {AudioUtils.ListPath(output)}))
      && (r.Failure? ==> r.error.Wrapped? && r.error.prefix == AudioUtils.MERGE_ERROR)
      && fs'.dirs == fs.dirs
    ensures output !in fs.dirs ==> WroteOnly(fs.files, fs'.files, [output]) && Kept(fs.files, fs'.files, [output, AudioUtils.ListPath(output)])
    ensures r.Success? && output !in fs.dirs ==> output in fs'.files
  {
    if |inputs| < 2 {
      return Failure(Raised(AudioUtils.TOO_FEW_TO_MERGE)), fs;
    }
    if !ff.available {
      var copied := Copy(fs, inputs[0], output);
      if copied.Failure? {
        return Failure(copied.error), fs;
      }
      return Success(MergeInfo(|inputs|, 10.0, output)), copied.value;
    }
    var list := AudioUtils.ListPath(output);
    var listed := WriteList(fs, list, inputs);
    if listed.Failure? {
      return Failure(Wrapped(AudioUtils.MERGE_ERROR, listed.error)), fs;
    }
    var ran := Retried(listed.value, ff, ConcatCopy, ConcatEncode, [list] + inputs, output);
    var now := if ran.Success? then ran.value else listed.value;
    fs' := now.(files := now.files - {list});
    if ran.Failure? {
      r := Failure(Wrapped(AudioUtils.MERGE_ERROR, ran.error));
      return;
    }
    var info := GetAudioInfo(ran.value, output);
    r := Success(MergeInfo(|inputs|, info.value.durationSeconds, output));
  }
}
