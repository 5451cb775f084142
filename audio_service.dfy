// AudioService (app/services/audio_service.py).  A pydub AudioSegment is a sequence of
// frames, one per millisecond, so len(audio) is its length; `+` between segments is
// concatenation.  What pydub does to the frames otherwise (resampling, gain, fades) is
// a library function.  When pydub could not be imported every operation returns False
// at once.
module AudioService {
  import opened Wrappers
  import opened Strings
  import opened FileSystem

  type Frame = int

  /** An AudioSegment: its frames, one per millisecond. */
  datatype Segment = Segment(frames: seq<Frame>)

  /** pydub, as functions.  None stands for an exception. */
  datatype AudioLib = AudioLib(
    available: bool,                                       // AUDIO_AVAILABLE
    load: Bytes -> Option<Segment>,                        // AudioSegment.from_file
    save: (Segment, Path, string, Option<string>) -> Option<Bytes>, // seg.export(path, format, bitrate)
    setRate: (Segment, int) -> Option<Segment>,            // seg.set_frame_rate(rate)
    frameRate: Segment -> int,                             // seg.frame_rate
    respawn: (Segment, int) -> Option<Segment>,            // seg._spawn(raw_data, frame_rate override)
    slice: (Segment, int, int) -> Segment,                 // seg[start_ms:end_ms]
    gain: (Segment, real) -> Segment,                      // seg + dB
    normalize: Segment -> Segment,                         // pydub.effects.normalize
    fadeIn: (Segment, int) -> Segment,                     // seg.fade_in(ms)
    fadeOut: (Segment, int) -> Segment)                    // seg.fade_out(ms)

  /** AudioSegment.from_file(path) */
  function LoadAt(fs: Fs, lib: AudioLib, p: Path): (r: Option<Segment>)
    ensures r.Some? ==> p in fs.files && r == lib.load(fs.files[p].data)
  {
    if p in fs.files then lib.load(fs.files[p].data) else None
  }

  /** _get_format_from_path: the extension without its dot, lower-cased. */
  function FormatOf(p: Path): (r: string)
    ensures '.' !in r && '/' !in r
  {
    Lower(ExtNoDot(p))
  }

  /** A name with an extension gives that extension, lower-cased. */
  lemma FormatOfName(stem: string, ext: string)
    requires stem != [] && stem[|stem| - 1] != '.' && '/' !in stem
    requires '.' !in ext && '/' !in ext
    ensures FormatOf(stem + "." + ext) == Lower(ext)
  {
    ExtNoDotOf(stem, ext);
  }

  /** The shape of every single-input operation: the availability gate, then the shared
      read / make / write / remove sequence. */
  method Gated(fs: Fs, lib: AudioLib, input: Path, output: Path, make: Bytes -> Option<Bytes>) returns (ok: bool, fs': Fs)
    ensures !lib.available ==> !ok && fs' == fs
    ensures ok <==> lib.available && input in fs.files && make(fs.files[input].data).Some? && Writable(fs, output)
    ensures ok ==> fs' == fs.(files := fs.files[output := File(make(fs.files[input].data).value, fs.clock)] - {input})
    ensures !ok ==> fs' == fs
  {
    if !lib.available {
      return false, fs;
    }
    ok, fs' := Produce(fs, input, output, make);
  }

  // ---------------------------------------------------------------- convert

  /** What convert_audio exports: resampled when a sample rate is truthy, with
      f"{bitrate}k" when a bitrate is truthy, in the target format. */
  function ConvertedAudio(lib: AudioLib, data: Bytes, output: Path, fmt: string,
                          bitrate: Option<int>, sampleRate: Option<int>): Option<Bytes>
  {
    var audio :- lib.load(data);
    var resampled :- if sampleRate.Some? && sampleRate.value != 0 then lib.setRate(audio, sampleRate.value) else Some(audio);
    lib.save(resampled, output, fmt, BitrateArg(bitrate))
  }

  /** `export_params["bitrate"] = f"{bitrate}k"` when bitrate is truthy. */
  function BitrateArg(bitrate: Option<int>): (r: Option<string>)
    ensures r.None? <==> bitrate.None? || bitrate.value == 0
    ensures r.Some? ==> r.value == IntToString(bitrate.value) + "k"
  {
    if bitrate.Some? && bitrate.value != 0 then Some(IntToString(bitrate.value) + "k") else None
  }

  /** convert_audio */
  method ConvertAudio(fs: Fs, lib: AudioLib, input: Path, output: Path, fmt: string,
                      bitrate: Option<int> := None, sampleRate: Option<int> := None)
    returns (ok: bool, fs': Fs)
    ensures !lib.available ==> !ok && fs' == fs
    ensures ok <==> lib.available && input in fs.files && ConvertedAudio(lib, fs.files[input].data, output, fmt, bitrate, sampleRate).Some?
                    && Writable(fs, output)
    ensures ok ==> fs' == fs.(files := fs.files[output := File(ConvertedAudio(lib, fs.files[input].data, output, fmt, bitrate, sampleRate).value, fs.clock)] - {input})
    ensures !ok ==> fs' == fs
  {
    ok, fs' := Gated(fs, lib, input, output, data => ConvertedAudio(lib, data, output, fmt, bitrate, sampleRate));
  }

  // ---------------------------------------------------------------- trim

  /** The slice trim_audio takes, in milliseconds: from int(start·1000) to int(end·1000)
      when end is truthy, and to the end of the segment otherwise. */
  function TrimBounds(start: real, end: Option<real>, length: nat): (r: (int, int))
    ensures r.0 == TruncReal(start * 1000.0)
    ensures end.None? || end.value == 0.0 ==> r.1 == length
    ensures end.Some? && end.value != 0.0 ==> r.1 == TruncReal(end.value * 1000.0)
  {
    (TruncReal(start * 1000.0), if end.Some? && end.value != 0.0 then TruncReal(end.value * 1000.0) else length)
  }

  /** Whole seconds give whole thousands of milliseconds. */
  lemma TrimBoundsWhole(start: nat, end: nat, length: nat)
    requires end != 0
    ensures TrimBounds(start as real, Some(end as real), length) == (start * 1000, end * 1000)
  {
    assert (start as real) * 1000.0 == (start * 1000) as real;
    assert (end as real) * 1000.0 == (end * 1000) as real;
  }

  /** An end of 0.0 is falsy: it trims to the end, as no end does. */
  lemma TrimZeroEnd(start: real, length: nat)
    ensures TrimBounds(start, Some(0.0), length) == TrimBounds(start, None, length)
  {
  }

  function TrimmedAudio(lib: AudioLib, data: Bytes, output: Path, start: real, end: Option<real>): Option<Bytes>
  {
    var audio :- lib.load(data);
    var bounds := TrimBounds(start, end, |audio.frames|);
    lib.save(lib.slice(audio, bounds.0, bounds.1), output, FormatOf(output), None)
  }

  /** trim_audio */
  method TrimAudio(fs: Fs, lib: AudioLib, input: Path, output: Path, start: real, end: Option<real> := None)
    returns (ok: bool, fs': Fs)
    ensures !lib.available ==> !ok && fs' == fs
    ensures ok <==> lib.available && input in fs.files && TrimmedAudio(lib, fs.files[input].data, output, start, end).Some?
                    && Writable(fs, output)
    ensures ok ==> fs' == fs.(files := fs.files[output := File(TrimmedAudio(lib, fs.files[input].data, output, start, end).value, fs.clock)] - {input})
    ensures !ok ==> fs' == fs
  {
    ok, fs' := Gated(fs, lib, input, output, data => TrimmedAudio(lib, data, output, start, end));
  }

  // ---------------------------------------------------------------- merge

  /** The frames of the inputs, loaded and concatenated in input order. */
  function Joined(fs: Fs, lib: AudioLib, paths: seq<Path>): (r: Option<seq<Frame>>)
    ensures r.Some? ==> forall p :: p in paths ==> p in fs.files
  {
    if paths == [] then Some([])
    else
      var n := |paths| - 1;
      var front :- Joined(fs, lib, paths[..n]);
      var seg :- LoadAt(fs, lib, paths[n]);
      assert paths == paths[..n] + [paths[n]];
      Some(front + seg.frames)
  }

  /** One more input appends its frames. */
  lemma JoinedStep(fs: Fs, lib: AudioLib, paths: seq<Path>, i: nat)
    requires i < |paths|
    ensures Joined(fs, lib, paths[..i + 1]) ==
      if Joined(fs, lib, paths[..i]).Some? && LoadAt(fs, lib, paths[i]).Some?
      then Some(Joined(fs, lib, paths[..i]).value + LoadAt(fs, lib, paths[i]).value.frames)
      else None
  {
    assert paths[..i + 1][..i] == paths[..i];
  }

  /** One input joins to its own frames. */
  lemma JoinedSingle(fs: Fs, lib: AudioLib, p: Path)
    requires LoadAt(fs, lib, p).Some?
    ensures Joined(fs, lib, [p]) == Some(LoadAt(fs, lib, p).value.frames)
  {
    assert [p][..0] == [];
    assert [] + LoadAt(fs, lib, p).value.frames == LoadAt(fs, lib, p).value.frames;
  }

  /** Joining two lists is joining each and concatenating. */
  lemma {:induction false} JoinedAppend(fs: Fs, lib: AudioLib, a: seq<Path>, b: seq<Path>)
    ensures Joined(fs, lib, a + b) ==
      if Joined(fs, lib, a).Some? && Joined(fs, lib, b).Some?
      then Some(Joined(fs, lib, a).value + Joined(fs, lib, b).value)
      else None
    decreases |b|
  {
    if b == [] {
      assert a + b == a;
      if Joined(fs, lib, a).Some? {
        assert Joined(fs, lib, a).value + [] == Joined(fs, lib, a).value;
      }
    } else {
      var n := |b| - 1;
      JoinedAppend(fs, lib, a, b[..n]);
      assert (a + b)[..|a + b| - 1] == a + b[..n];
      assert (a + b)[|a + b| - 1] == b[n];
      var A, B := Joined(fs, lib, a), Joined(fs, lib, b[..n]);
      if A.Some? && B.Some? && LoadAt(fs, lib, b[n]).Some? {
        assert A.value + B.value + LoadAt(fs, lib, b[n]).value.frames
            == A.value + (B.value + LoadAt(fs, lib, b[n]).value.frames);
      }
    }
  }

  /** An input that cannot be loaded fails the whole merge. */
  lemma {:induction false} JoinedPrefixFails(fs: Fs, lib: AudioLib, paths: seq<Path>, k: nat)
    requires k <= |paths| && Joined(fs, lib, paths[..k]).None?
    ensures Joined(fs, lib, paths).None?
  {
    JoinedAppend(fs, lib, paths[..k], paths[k..]);
    assert paths[..k] + paths[k..] == paths;
  }

  /** merge_audio: nothing for an empty list; otherwise the first segment followed by
      each later one in order, exported in the output's format, and every input removed
      only after the export. */
  method MergeAudio(fs: Fs, lib: AudioLib, inputs: seq<Path>, output: Path) returns (ok: bool, fs': Fs)
    requires Valid(fs)
    ensures !lib.available || inputs == [] ==> !ok && fs' == fs
    ensures ok <==> lib.available && inputs != [] && Joined(fs, lib, inputs).Some?
                    && lib.save(Segment(Joined(fs, lib, inputs).value), output, FormatOf(output), None).Some?
                    && Writable(fs, output)
    ensures ok ==>
      var data := lib.save(Segment(Joined(fs, lib, inputs).value), output, FormatOf(output), None).value;
      fs' == fs.(files := fs.files[output := File(data, fs.clock)] - PathSet(inputs))
    ensures !ok ==> fs' == fs
  {
    fs' := fs;
    if !lib.available || inputs == [] {
      return false, fs;
    }
    var first := LoadAt(fs, lib, inputs[0]);
    if first.None? {
      JoinedStep(fs, lib, inputs, 0);
      JoinedPrefixFails(fs, lib, inputs, 1);
      return false, fs;
    }
    var combined := first.value;
    assert inputs[..1] == [inputs[0]];
    JoinedSingle(fs, lib, inputs[0]);
    var i := 1;
    while i < |inputs|
      invariant 1 <= i <= |inputs|
      invariant Joined(fs, lib, inputs[..i]) == Some(combined.frames)
    {
      var audio := LoadAt(fs, lib, inputs[i]);
      JoinedStep(fs, lib, inputs, i);
      if audio.None? {
        JoinedPrefixFails(fs, lib, inputs, i + 1);
        return false, fs;
      }
      combined := Segment(combined.frames + audio.value.frames);
      i := i + 1;
    }
    assert inputs[..i] == inputs;
    var bytes := lib.save(combined, output, FormatOf(output), None);
    if bytes.None? {
      return false, fs;
    }
    match Write(fs, output, bytes.value)
    case Failure(_) =>
      return false, fs;
    case Success(written) =>
      var err;
      err, fs' := RemoveEach(written, inputs);
      if err.Some? {
        assert false;
      }
      ok := true;
  }

  // ---------------------------------------------------------------- volume, normalise, fades, speed

  function AdjustedAudio(lib: AudioLib, data: Bytes, output: Path, change: real): Option<Bytes>
  {
    var audio :- lib.load(data);
    lib.save(lib.gain(audio, change), output, FormatOf(output), None)
  }

  /** adjust_volume */
  method AdjustVolume(fs: Fs, lib: AudioLib, input: Path, output: Path, change: real) returns (ok: bool, fs': Fs)
    ensures !lib.available ==> !ok && fs' == fs
    ensures ok <==> lib.available && input in fs.files && AdjustedAudio(lib, fs.files[input].data, output, change).Some?
                    && Writable(fs, output)
    ensures ok ==> fs' == fs.(files := fs.files[output := File(AdjustedAudio(lib, fs.files[input].data, output, change).value, fs.clock)] - {input})
    ensures !ok ==> fs' == fs
  {
    ok, fs' := Gated(fs, lib, input, output, data => AdjustedAudio(lib, data, output, change));
  }

  function NormalizedAudio(lib: AudioLib, data: Bytes, output: Path): Option<Bytes>
  {
    var audio :- lib.load(data);
    lib.save(lib.normalize(audio), output, FormatOf(output), None)
  }

  /** normalize_audio; no endpoint calls it. */
  method NormalizeAudio(fs: Fs, lib: AudioLib, input: Path, output: Path) returns (ok: bool, fs': Fs)
    ensures !lib.available ==> !ok && fs' == fs
    ensures ok <==> lib.available && input in fs.files && NormalizedAudio(lib, fs.files[input].data, output).Some?
                    && Writable(fs, output)
    ensures ok ==> fs' == fs.(files := fs.files[output := File(NormalizedAudio(lib, fs.files[input].data, output).value, fs.clock)] - {input})
    ensures !ok ==> fs' == fs
  {
    ok, fs' := Gated(fs, lib, input, output, data => NormalizedAudio(lib, data, output));
  }

  /** The segment fade_in_out exports: the fade-in first, then the fade-out, each of a
      whole number of milliseconds. */
  function Faded(lib: AudioLib, audio: Segment, fadeIn: real, fadeOut: real): Segment
  {
    var inMs := TruncReal(fadeIn * 1000.0);
    var outMs := TruncReal(fadeOut * 1000.0);
    lib.fadeOut(lib.fadeIn(audio, inMs), outMs)
  }

  /** The default one-second fades are 1000 ms each. */
  lemma DefaultFades(lib: AudioLib, audio: Segment)
    ensures Faded(lib, audio, 1.0, 1.0) == lib.fadeOut(lib.fadeIn(audio, 1000), 1000)
  {
  }

  function FadedAudio(lib: AudioLib, data: Bytes, output: Path, fadeIn: real, fadeOut: real): Option<Bytes>
  {
    var audio :- lib.load(data);
    lib.save(Faded(lib, audio, fadeIn, fadeOut), output, FormatOf(output), None)
  }

  /** fade_in_out; no endpoint calls it. */
  method FadeInOut(fs: Fs, lib: AudioLib, input: Path, output: Path, fadeIn: real := 1.0, fadeOut: real := 1.0)
    returns (ok: bool, fs': Fs)
    ensures !lib.available ==> !ok && fs' == fs
    ensures ok <==> lib.available && input in fs.files && FadedAudio(lib, fs.files[input].data, output, fadeIn, fadeOut).Some?
                    && Writable(fs, output)
    ensures ok ==> fs' == fs.(files := fs.files[output := File(FadedAudio(lib, fs.files[input].data, output, fadeIn, fadeOut).value, fs.clock)] - {input})
    ensures !ok ==> fs' == fs
  {
    ok, fs' := Gated(fs, lib, input, output, data => FadedAudio(lib, data, output, fadeIn, fadeOut));
  }

  /** change_speed: the frames are reinterpreted at int(frame_rate · factor) and then
      resampled back to the original rate. */
  function SpedUpAudio(lib: AudioLib, data: Bytes, output: Path, factor: real): Option<Bytes>
  {
    var audio :- lib.load(data);
    var respawned :- lib.respawn(audio, TruncReal(lib.frameRate(audio) as real * factor));
    var resampled :- lib.setRate(respawned, lib.frameRate(audio));
    lib.save(resampled, output, FormatOf(output), None)
  }

  /** change_speed; no endpoint calls it. */
  method ChangeSpeed(fs: Fs, lib: AudioLib, input: Path, output: Path, factor: real) returns (ok: bool, fs': Fs)
    ensures !lib.available ==> !ok && fs' == fs
    ensures ok <==> lib.available && input in fs.files && SpedUpAudio(lib, fs.files[input].data, output, factor).Some?
                    && Writable(fs, output)
    ensures ok ==> fs' == fs.(files := fs.files[output := File(SpedUpAudio(lib, fs.files[input].data, output, factor).value, fs.clock)] - {input})
    ensures !ok ==> fs' == fs
  {
    ok, fs' := Gated(fs, lib, input, output, data => SpedUpAudio(lib, data, output, factor));
  }
}
