// VideoService (app/services/video_service.py).  moviepy is a library of functions
// on bytes: it probes a file for its duration and renders a clip description to the
// bytes of an output file.  Every method loads, renders, then removes its input, and
// turns any exception into False.
module VideoService {
  import opened Wrappers
  import opened Strings
  import opened FileSystem

  /** A clip as the service builds it before rendering. */
  datatype Clip =
    | Loaded(data: Bytes, duration: real)
    | Scaled(src: Clip, width: int, height: int)       // clip.resize((w, h))
    | ScaledToWidth(src: Clip, width: int)            // clip.resize(width=w)
    | Sub(src: Clip, start: real, end: real)          // clip.subclip(start, end)
    | Concat(clips: seq<Clip>)                        // concatenate_videoclips
    | Stamped(src: Clip, text: string, at: Anchor)    // CompositeVideoClip with a TextClip
    | Soundtrack(src: Clip)                           // video.audio

  /** Where moviepy places a TextClip. */
  datatype Anchor = Corner(horizontal: string, vertical: string) | Centre

  /** `f"{n}k"`: a bitrate in kilobits per second. */
  datatype Bitrate = Kbps(n: int)

  /** The arguments of write_videofile / write_gif / write_audiofile that the service sets. */
  datatype Export =
    | VideoFile(codec: string, bitrate: Option<Bitrate>)
    | GifFile(fps: int)
    | AudioFile

  /** moviepy: the duration a file probes to, and the bytes a clip renders to at an output
      path (the container follows the path's extension).  None stands for an exception. */
  datatype VideoLib = VideoLib(probe: Bytes -> Option<real>, render: (Clip, Path, Export) -> Option<Bytes>)

  /** VideoFileClip(path) on the bytes of path. */
  function Open(lib: VideoLib, data: Bytes): (r: Option<Clip>)
    ensures r.Some? <==> lib.probe(data).Some?
    ensures r.Some? ==> r.value == Loaded(data, lib.probe(data).value)
  {
    match lib.probe(data)
    case Some(d) => Some(Loaded(data, d))
    case None => None
  }

  const CODEC: string := "libx264"

  // ---------------------------------------------------------------- convert

  /** `quality_settings.get(quality, quality_settings["medium"])` */
  function Preset(quality: string): (r: Bitrate)
    ensures quality !in ["low", "medium", "high"] ==> r == Kbps(1000)
  {
    if quality == "low" then Kbps(500)
    else if quality == "high" then Kbps(2000)
    else Kbps(1000)
  }

  /** The three presets are distinct and ordered, and an unknown name gets medium's. */
  lemma PresetsOrdered(quality: string)
    ensures Preset("low").n < Preset("medium").n < Preset("high").n
    ensures quality !in ["low", "medium", "high"] ==> Preset(quality) == Preset("medium")
  {
  }

  /** `width, height = map(int, resolution.split('x'))`; None stands for the ValueError
      of a non-integer part or of a part count other than two. */
  function ParseResolution(resolution: string): (r: Option<(int, int)>)
    ensures r.Some? ==> |SplitOn(resolution, 'x')| == 2
  {
    var parts := SplitOn(resolution, 'x');
    if |parts| != 2 then None
    else
      var w :- ParseInt(parts[0]);
      var h :- ParseInt(parts[1]);
      Some((w, h))
  }

  /** "{w}x{h}" parses back to (w, h). */
  lemma ResolutionRoundTrip(w: nat, h: nat)
    ensures ParseResolution(NatToString(w) + "x" + NatToString(h)) == Some((w, h))
  {
    var s, t := NatToString(w), NatToString(h);
    assert 'x' !in s && 'x' !in t by {
      assert forall i :: 0 <= i < |s| ==> IsDigit(s[i]);
      assert forall i :: 0 <= i < |t| ==> IsDigit(t[i]);
    }
    SplitOnFirst(s, t, 'x');
    assert s + "x" + t == s + ['x'] + t;
    SplitOnPlain(t, 'x');
    ParseNatToString(w);
    ParseNatToString(h);
  }

  /** A resolution without an 'x' is refused. */
  lemma ResolutionNeedsSeparator(resolution: string)
    requires 'x' !in resolution
    ensures ParseResolution(resolution).None?
  {
    SplitOnPlain(resolution, 'x');
  }

  /** What convert_video renders: the loaded clip, resized when a resolution is given. */
  function ConvertedClip(video: Clip, resolution: Option<string>): (r: Option<Clip>)
    ensures (resolution.None? || resolution.value == "") ==> r == Some(video)
    ensures resolution.Some? && resolution.value != "" ==>
      (r.Some? <==> ParseResolution(resolution.value).Some?)
  {
    if resolution.Some? && resolution.value != "" then
      var dims :- ParseResolution(resolution.value);
      Some(Scaled(video, dims.0, dims.1))
    else Some(video)
  }

  function ConvertedVideo(lib: VideoLib, data: Bytes, output: Path, quality: string, resolution: Option<string>): Option<Bytes>
  {
    var video :- Open(lib, data);
    var clip :- ConvertedClip(video, resolution);
    lib.render(clip, output, VideoFile(CODEC, Some(Preset(quality))))
  }

  /** convert_video; the target format reaches moviepy only through the output path. */
  method ConvertVideo(fs: Fs, lib: VideoLib, input: Path, output: Path, targetFormat: string,
                      quality: string := "medium", resolution: Option<string> := None)
    returns (ok: bool, fs': Fs)
    ensures ok <==> input in fs.files && ConvertedVideo(lib, fs.files[input].data, output, quality, resolution).Some?
                    && Writable(fs, output)
    ensures ok ==> fs' == fs.(files := fs.files[output := File(ConvertedVideo(lib, fs.files[input].data, output, quality, resolution).value, fs.clock)] - {input})
    ensures !ok ==> fs' == fs
  {
    ok, fs' := Produce(fs, input, output, data => ConvertedVideo(lib, data, output, quality, resolution));
  }

  // ---------------------------------------------------------------- compress

  /** bitrate_map, from quality threshold to kilobits per second. */
  const BITRATE_MAP: map<int, nat> :=
    map[100 := 2000, 90 := 1500, 80 := 1000, 70 := 750, 60 := 500,
        50 := 350, 40 := 250, 30 := 150, 20 := 100, 10 := 50]

  /** `sorted(bitrate_map.keys(), reverse=True)` */
  const THRESHOLDS: seq<int> := [100, 90, 80, 70, 60, 50, 40, 30, 20, 10]

  /** THRESHOLDS lists the keys of BITRATE_MAP, each once, largest first. */
  lemma ThresholdsAreSortedKeys()
    ensures forall k :: k in BITRATE_MAP <==> k in THRESHOLDS
    ensures forall i, j :: 0 <= i < j < |THRESHOLDS| ==> THRESHOLDS[i] > THRESHOLDS[j]
  {
  }

  /** The rate the search settles on: the entry of the largest threshold the quality
      reaches, and the default 1000 when it reaches none. */
  function StepRate(quality: int): (r: nat)
  {
    if quality < 10 then 1000
    else BITRATE_MAP[if quality >= 100 then 100 else quality / 10 * 10]
  }

  /** A higher quality never gets a lower bitrate, from quality 10 up. */
  lemma StepRateMonotone(q1: int, q2: int)
    requires 10 <= q1 <= q2
    ensures StepRate(q1) <= StepRate(q2)
  {
    var k1 := if q1 >= 100 then 100 else q1 / 10 * 10;
    var k2 := if q2 >= 100 then 100 else q2 / 10 * 10;
    assert k1 <= k2;
    assert k1 in THRESHOLDS && k2 in THRESHOLDS;
  }

  /** Below the lowest threshold the default stays; at or above the top it is 2000. */
  lemma StepRateEnds(quality: int)
    ensures quality < 10 ==> StepRate(quality) == 1000
    ensures quality >= 100 ==> StepRate(quality) == 2000
    ensures 10 <= quality < 20 ==> StepRate(quality) == 50
  {
  }

  /** The search of compress_video: the first threshold, largest first, that the quality
      reaches decides, and "1000k" stays when none does. */
  method QualityBitrate(quality: int) returns (bitrate: Bitrate)
    ensures bitrate == Kbps(StepRate(quality))
  {
    bitrate := Kbps(1000);
    var i := 0;
    while i < |THRESHOLDS|
      invariant 0 <= i <= |THRESHOLDS|
      invariant forall j :: 0 <= j < i ==> quality < THRESHOLDS[j]
      invariant bitrate == Kbps(1000)
    {
      var q := THRESHOLDS[i];
      if quality >= q {
        assert q == 100 - 10 * i;
        assert i == 0 || quality < 110 - 10 * i by {
          if i > 0 {
            assert THRESHOLDS[i - 1] == 110 - 10 * i;
          }
        }
        bitrate := Kbps(BITRATE_MAP[q]);
        return;
      }
      i := i + 1;
    }
  }

  /** `(target_size_mb * 8 * 1024) / duration` kilobits per second; None stands for the
      ZeroDivisionError of a zero duration. */
  function SizeRate(targetMb: int, duration: real): (r: Option<Bitrate>)
    ensures r.None? <==> duration == 0.0
    ensures r.Some? && targetMb >= 0 && duration > 0.0 ==>
      r.value.n as real * duration <= (targetMb * 8192) as real
  {
    if duration == 0.0 then None
    else
      var x := (targetMb * 8192) as real / duration;
      var t := TruncReal(x);
      assert x * duration == (targetMb * 8192) as real;
      Some(Kbps(t))
  }

  /** The bitrate compress_video asks for: the target size when it is truthy, otherwise
      the quality search. */
  function CompressRate(targetMb: Option<int>, quality: int, duration: real): (r: Option<Bitrate>)
    ensures targetMb.None? || targetMb.value == 0 ==> r == Some(Kbps(StepRate(quality)))
    ensures targetMb.Some? && targetMb.value != 0 ==> r == SizeRate(targetMb.value, duration)
  {
    if targetMb.Some? && targetMb.value != 0 then SizeRate(targetMb.value, duration)
    else Some(Kbps(StepRate(quality)))
  }

  function CompressedVideo(lib: VideoLib, data: Bytes, output: Path, targetMb: Option<int>, quality: int): Option<Bytes>
  {
    var video :- Open(lib, data);
    var rate :- CompressRate(targetMb, quality, video.duration);
    lib.render(video, output, VideoFile(CODEC, Some(rate)))
  }

  /** compress_video */
  method CompressVideo(fs: Fs, lib: VideoLib, input: Path, output: Path, targetMb: Option<int> := None, quality: int := 75)
    returns (ok: bool, fs': Fs)
    ensures ok <==> input in fs.files && CompressedVideo(lib, fs.files[input].data, output, targetMb, quality).Some?
                    && Writable(fs, output)
    ensures ok ==> fs' == fs.(files := fs.files[output := File(CompressedVideo(lib, fs.files[input].data, output, targetMb, quality).value, fs.clock)] - {input})
    ensures !ok ==> fs' == fs
  {
    fs' := fs;
    match Read(fs, input)
    case Failure(_) =>
      return false, fs;
    case Success(data) =>
      var video := Open(lib, data);
      if video.None? {
        return false, fs;
      }
      var bitrate;
      if targetMb.Some? && targetMb.value != 0 {
        var rate := SizeRate(targetMb.value, video.value.duration);
        if rate.None? {
          return false, fs;
        }
        bitrate := rate.value;
      } else {
        bitrate := QualityBitrate(quality);
      }
      var bytes := lib.render(video.value, output, VideoFile(CODEC, Some(bitrate)));
      if bytes.None? {
        return false, fs;
      }
      match Write(fs, output, bytes.value)
      case Failure(_) =>
        return false, fs;
      case Success(written) =>
        fs' := RemoveIfExists(written, input).value;
        return true, fs';
  }

  // ---------------------------------------------------------------- trim

  /** The range trim_video cuts: to the end of the video when no end is given. */
  function TrimRange(start: real, end: Option<real>, duration: real): (r: (real, real))
    ensures r.0 == start
    ensures end.None? ==> r.1 == duration
    ensures end.Some? ==> r.1 == end.value
  {
    (start, if end.None? then duration else end.value)
  }

  function TrimmedVideo(lib: VideoLib, data: Bytes, output: Path, start: real, end: Option<real>): Option<Bytes>
  {
    var video :- Open(lib, data);
    var range := TrimRange(start, end, video.duration);
    lib.render(Sub(video, range.0, range.1), output, VideoFile(CODEC, None))
  }

  /** Leaving out the end is asking for the video's own duration. */
  lemma TrimDefaultEnd(lib: VideoLib, data: Bytes, output: Path, start: real)
    requires lib.probe(data).Some?
    ensures TrimmedVideo(lib, data, output, start, None) == TrimmedVideo(lib, data, output, start, Some(lib.probe(data).value))
  {
  }

  /** trim_video */
  method TrimVideo(fs: Fs, lib: VideoLib, input: Path, output: Path, start: real, end: Option<real> := None)
    returns (ok: bool, fs': Fs)
    ensures ok <==> input in fs.files && TrimmedVideo(lib, fs.files[input].data, output, start, end).Some?
                    && Writable(fs, output)
    ensures ok ==> fs' == fs.(files := fs.files[output := File(TrimmedVideo(lib, fs.files[input].data, output, start, end).value, fs.clock)] - {input})
    ensures !ok ==> fs' == fs
  {
    ok, fs' := Produce(fs, input, output, data => TrimmedVideo(lib, data, output, start, end));
  }

  // ---------------------------------------------------------------- merge

  /** `[VideoFileClip(path) for path in input_paths]` */
  function LoadAll(fs: Fs, lib: VideoLib, inputs: seq<Path>): (r: Option<seq<Clip>>)
    ensures r.Some? ==> |r.value| == |inputs| && forall p :: p in inputs ==> p in fs.files
  {
    if inputs == [] then Some([])
    else
      var n := |inputs| - 1;
      var front :- LoadAll(fs, lib, inputs[..n]);
      var data :- if inputs[n] in fs.files then Some(fs.files[inputs[n]].data) else None;
      var clip :- Open(lib, data);
      assert inputs == inputs[..n] + [inputs[n]];
      Some(front + [clip])
  }

  /** The i-th clip is the i-th input's file. */
  lemma {:induction false} LoadAllInOrder(fs: Fs, lib: VideoLib, inputs: seq<Path>, i: nat)
    requires LoadAll(fs, lib, inputs).Some? && i < |inputs|
    ensures inputs[i] in fs.files && lib.probe(fs.files[inputs[i]].data).Some?
    ensures LoadAll(fs, lib, inputs).value[i] == Loaded(fs.files[inputs[i]].data, lib.probe(fs.files[inputs[i]].data).value)
  {
    var n := |inputs| - 1;
    if i < n {
      LoadAllInOrder(fs, lib, inputs[..n], i);
    }
  }

  function MergedVideo(fs: Fs, lib: VideoLib, inputs: seq<Path>, output: Path): Option<Bytes>
  {
    var clips :- LoadAll(fs, lib, inputs);
    lib.render(Concat(clips), output, VideoFile(CODEC, None))
  }

  /** merge_videos: an empty list is refused before anything is loaded; otherwise the
      output is written and only then every input removed. */
  method MergeVideos(fs: Fs, lib: VideoLib, inputs: seq<Path>, output: Path) returns (ok: bool, fs': Fs)
    requires Valid(fs)
    ensures inputs == [] ==> !ok
    ensures ok <==> inputs != [] && MergedVideo(fs, lib, inputs, output).Some? && Writable(fs, output)
    ensures ok ==> fs' == fs.(files := fs.files[output := File(MergedVideo(fs, lib, inputs, output).value, fs.clock)]
                                        - PathSet(inputs))
    ensures !ok ==> fs' == fs
  {
    fs' := fs;
    if inputs == [] {
      return false, fs;
    }
    var clips := LoadAll(fs, lib, inputs);
    if clips.None? {
      return false, fs;
    }
    var bytes := lib.render(Concat(clips.value), output, VideoFile(CODEC, None));
    if bytes.None? {
      return false, fs;
    }
    match Write(fs, output, bytes.value)
    case Failure(_) =>
      return false, fs;
    case Success(written) =>
      var err;
      err, fs' := RemoveEach(written, inputs);
      if err.Some? {
        assert false;
      }
      ok := true;
  }

  // ---------------------------------------------------------------- gif

  /** The range video_to_gif cuts: at most ten seconds, and no further than the end of
      the video, when no duration is given. */
  function GifRange(start: real, duration: Option<real>, total: real): (r: (real, real))
    ensures r.0 == start
    ensures duration.Some? ==> r.1 == start + duration.value
    ensures duration.None? ==> r.1 <= start + 10.0 && r.1 <= total
    ensures duration.None? ==> (r.1 == start + 10.0 || r.1 == total)
  {
    var d := if duration.None? then (if 10.0 <= total - start then 10.0 else total - start) else duration.value;
    (start, start + d)
  }

  /** A video at least ten seconds past the start gives exactly ten seconds. */
  lemma GifTenSeconds(start: real, total: real)
    requires total - start >= 10.0
    ensures GifRange(start, None, total) == (start, start + 10.0)
  {
  }

  function GifBytes(lib: VideoLib, data: Bytes, output: Path, start: real, duration: Option<real>, fps: int, width: Option<int>): Option<Bytes>
  {
    var video :- Open(lib, data);
    var range := GifRange(start, duration, video.duration);
    var clip := Sub(video, range.0, range.1);
    var sized := if width.Some? && width.value != 0 then ScaledToWidth(clip, width.value) else clip;
    lib.render(sized, output, GifFile(fps))
  }

  /** video_to_gif */
  method VideoToGif(fs: Fs, lib: VideoLib, input: Path, output: Path, start: real := 0.0,
                    duration: Option<real> := None, fps: int := 10, width: Option<int> := None)
    returns (ok: bool, fs': Fs)
    ensures ok <==> input in fs.files && GifBytes(lib, fs.files[input].data, output, start, duration, fps, width).Some?
                    && Writable(fs, output)
    ensures ok ==> fs' == fs.(files := fs.files[output := File(GifBytes(lib, fs.files[input].data, output, start, duration, fps, width).value, fs.clock)] - {input})
    ensures !ok ==> fs' == fs
  {
    ok, fs' := Produce(fs, input, output, data => GifBytes(lib, data, output, start, duration, fps, width));
  }

  // ---------------------------------------------------------------- audio and watermark

  function AudioBytes(lib: VideoLib, data: Bytes, output: Path): Option<Bytes>
  {
    var video :- Open(lib, data);
    lib.render(Soundtrack(video), output, AudioFile)
  }

  /** extract_audio; no endpoint calls it. */
  method ExtractAudio(fs: Fs, lib: VideoLib, input: Path, output: Path) returns (ok: bool, fs': Fs)
    ensures ok <==> input in fs.files && AudioBytes(lib, fs.files[input].data, output).Some? && Writable(fs, output)
    ensures ok ==> fs' == fs.(files := fs.files[output := File(AudioBytes(lib, fs.files[input].data, output).value, fs.clock)] - {input})
    ensures !ok ==> fs' == fs
  {
    ok, fs' := Produce(fs, input, output, data => AudioBytes(lib, data, output));
  }

  /** The watermark position: the four corner names, and the centre for anything else. */
  function Placement(position: string): (r: Anchor)
    ensures position !in ["bottom-right", "bottom-left", "top-right", "top-left"] ==> r == Centre
    ensures r.Corner? ==> position == r.vertical + "-" + r.horizontal
  {
    if position == "bottom-right" then Corner("right", "bottom")
    else if position == "bottom-left" then Corner("left", "bottom")
    else if position == "top-right" then Corner("right", "top")
    else if position == "top-left" then Corner("left", "top")
    else Centre
  }

  /** The default position is the bottom-right corner, and names are matched exactly. */
  lemma PlacementDefaults()
    ensures Placement("bottom-right") == Corner("right", "bottom")
    ensures Placement("Bottom-Right") == Centre
  {
    assert "Bottom-Right" != "bottom-right" && "Bottom-Right" != "bottom-left";
    assert "Bottom-Right" != "top-right" && "Bottom-Right" != "top-left";
  }

  function WatermarkedVideo(lib: VideoLib, data: Bytes, output: Path, text: string, position: string): Option<Bytes>
  {
    var video :- Open(lib, data);
    lib.render(Stamped(video, text, Placement(position)), output, VideoFile(CODEC, None))
  }

  /** add_watermark; no endpoint calls it. */
  method AddWatermark(fs: Fs, lib: VideoLib, input: Path, output: Path, text: string, position: string := "bottom-right")
    returns (ok: bool, fs': Fs)
    ensures ok <==> input in fs.files && WatermarkedVideo(lib, fs.files[input].data, output, text, position).Some?
                    && Writable(fs, output)
    ensures ok ==> fs' == fs.(files := fs.files[output := File(WatermarkedVideo(lib, fs.files[input].data, output, text, position).value, fs.clock)] - {input})
    ensures !ok ==> fs' == fs
  {
    ok, fs' := Produce(fs, input, output, data => WatermarkedVideo(lib, data, output, text, position));
  }
}
