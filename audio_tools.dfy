// What the backend's audio helpers see of ffmpeg and ffprobe.  Neither tool is
// modelled inside: ffprobe is a function from a file's bytes to what it reports, and
// one ffmpeg run is a function from the command and the bytes of the files it reads
// to the bytes it writes, or to nothing when it exits with a nonzero status.
module AudioTools {
  import opened Wrappers
  import opened Strings
  import opened Http
  import opened FileSystem

  /** One entry of ffprobe's "streams": its codec_type, and the channel count and sample
      rate once int() has read them (0 when absent). */
  datatype Stream = Stream(codecType: Option<string>, channels: int, sampleRate: int)

  /** What ffprobe reports, once json.loads has read it: the streams, the format's
      duration once float() has read it (0 when absent), and its format_name and
      bit_rate when present. */
  datatype Probe = Probe(streams: seq<Stream>, duration: real, formatName: Option<string>, bitRate: Option<string>)

  /** A step of afade. */
  datatype Fade =
    | FadeIn(duration: real)                 // afade=t=in:ss=0:d={duration}
    | FadeOut(start: real, duration: real)   // afade=t=out:st={start}:d={duration}

  /** The ffmpeg command lines the helpers run, each naming the output last. */
  datatype Command =
    | TrimCopy(start: real, duration: real)      // -ss start -t duration -c copy
    | TrimEncode(start: real, duration: real)    // -ss start -t duration -acodec libmp3lame
    | Recode(codec: string)                      // -acodec codec
    | Gain(db: real)                             // -af volume={db}dB -acodec libmp3lame
    | ConcatCopy                                 // -f concat -safe 0 -i list -c copy
    | ConcatEncode                               // -f concat -safe 0 -i list -acodec libmp3lame
    | Filtered(fades: seq<Fade>)                 // -af fades -acodec libmp3lame
    | StreamCopy                                 // -c copy
    | Mix                                        // amix=inputs=2:duration=longest
    | Tone(frequency: nat, square: bool)         // lavfi sine=frequency=f:duration=1, 16-bit

  /** The tools on this host. */
  datatype Ffmpeg = Ffmpeg(
    available: bool,                                      // check_ffmpeg_available()
    probe: Option<Bytes> -> Result<Probe, Exc>,           // ffprobe of a file, None when it is absent
    run: (Command, seq<Option<Bytes>>) -> Option<Bytes>,  // what ffmpeg writes, None for a nonzero exit
    failed: Command -> Exc)                               // the CalledProcessError of check=True

  /** The info dict get_audio_info returns. */
  datatype AudioInfo = AudioInfo(durationMs: int, durationSeconds: real, channels: int, frameRate: int,
                                 sampleWidth: nat, format: string, bitrate: string, fileSize: nat)

  /** The dicts the helpers return. */
  datatype TrimInfo = TrimInfo(originalDuration: real, trimmedDuration: real, start: real, end: real, output: Path)
  datatype ConvertInfo = ConvertInfo(originalFormat: string, outputFormat: string, duration: real, output: Path)
  datatype VolumeInfo = VolumeInfo(change: real, duration: real, output: Path)
  datatype MergeInfo = MergeInfo(filesMerged: nat, totalDuration: real, output: Path)
  datatype FadeInfo = FadeInfo(fadeIn: real, fadeOut: real, totalDuration: real, output: Path)
  datatype OverlayInfo = OverlayInfo(audio1Duration: real, audio2Duration: real, mergedDuration: real, output: Path)
  datatype ToneInfo = ToneInfo(duration: real, notes: seq<string>, kind: string, output: Path)

  /** What a run of ffmpeg reads: the bytes of each input, None for one that is not a
      file. */
  function Contents(fs: Fs, paths: seq<Path>): (r: seq<Option<Bytes>>)
    ensures |r| == |paths|
    ensures forall i :: 0 <= i < |paths| ==> r[i] == (if paths[i] in fs.files then Some(fs.files[paths[i]].data) else None)
  {
    seq(|paths|, i requires 0 <= i < |paths| => if paths[i] in fs.files then Some(fs.files[paths[i]].data) else None)
  }

  /** ffprobe on one path. */
  function ProbeAt(fs: Fs, ff: Ffmpeg, p: Path): Result<Probe, Exc>
  {
    ff.probe(if p in fs.files then Some(fs.files[p].data) else None)
  }

  /** What a helper that made `output` leaves: the same directories and time, and,
      unless the output names a directory, the output written and every other file
      as it was. */
  predicate Produced(fs: Fs, fs': Fs, output: Path)
  {
    && fs'.dirs == fs.dirs && fs'.clock == fs.clock
    && (output !in fs.dirs ==>
         output in fs'.files && WroteOnly(fs.files, fs'.files, [output]) && Kept(fs.files, fs'.files, [output]))
  }

  /** `subprocess.run(cmd)` without check: the disk with the output written, or None
      when ffmpeg exits nonzero, which it also does when it cannot open the output. */
  function Attempt(fs: Fs, ff: Ffmpeg, cmd: Command, inputs: seq<Path>, output: Path): (r: Option<Fs>)
    ensures r.Some? <==> ff.run(cmd, Contents(fs, inputs)).Some? && Writable(fs, output)
    ensures r.Some? ==> r.value == fs.(files := fs.files[output := File(ff.run(cmd, Contents(fs, inputs)).value, fs.clock)])
  {
    match ff.run(cmd, Contents(fs, inputs))
    case None => None
    case Some(bytes) =>
      match Write(fs, output, bytes)
      case Success(written) => Some(written)
      case Failure(_) => None
  }

  /** `subprocess.run(cmd, check=True)`: a nonzero exit raises CalledProcessError. */
  function Checked(fs: Fs, ff: Ffmpeg, cmd: Command, inputs: seq<Path>, output: Path): (r: Result<Fs, Exc>)
    ensures r.Success? <==> Attempt(fs, ff, cmd, inputs, output).Some?
    ensures r.Success? ==> r.value == Attempt(fs, ff, cmd, inputs, output).value
    ensures r.Failure? ==> r.error == ff.failed(cmd)
    ensures r.Success? ==> Produced(fs, r.value, output)
  {
    match Attempt(fs, ff, cmd, inputs, output)
    case Some(done) => Success(done)
    case None => Failure(ff.failed(cmd))
  }

  /** A run without check, and when it exits nonzero a second command with check: the
      stream-copy first, the re-encode as the fall-back. */
  function Retried(fs: Fs, ff: Ffmpeg, first: Command, second: Command, inputs: seq<Path>, output: Path)
    : (r: Result<Fs, Exc>)
    ensures Attempt(fs, ff, first, inputs, output).Some? ==> r == Success(Attempt(fs, ff, first, inputs, output).value)
    ensures Attempt(fs, ff, first, inputs, output).None? ==> r == Checked(fs, ff, second, inputs, output)
    ensures r.Success? ==> Writable(fs, output) && r.value.dirs == fs.dirs && r.value.clock == fs.clock
    ensures r.Success? ==> r.value.files.Keys == fs.files.Keys + {output}
    ensures r.Success? ==> forall p :: p in fs.files && p != output ==> r.value.files[p] == fs.files[p]
    ensures r.Success? ==> Produced(fs, r.value, output)
  {
    match Attempt(fs, ff, first, inputs, output)
    case Some(done) => Success(done)
    case None => Checked(fs, ff, second, inputs, output)
  }

  /** `s.split('.')[-1]`: what follows the last dot, or all of s. */
  function AfterDot(s: string): (r: string)
    ensures '.' !in r && EndsWith(s, r)
    ensures '.' !in s ==> r == s
  {
    AfterLast(s, '.')
  }

  /** Lower-casing moves no dot: the last one is where it was. */
  lemma {:induction false} LastDotOfLower(s: string)
    ensures LastIndexOf(Lower(s), '.') == LastIndexOf(s, '.')
  {
    if s != [] {
      var n := |s| - 1;
      assert Lower(s)[..n] == Lower(s[..n]);
      LastDotOfLower(s[..n]);
    }
  }

  /** Lower-casing before or after taking the extension makes no difference. */
  lemma LowerAfterDot(s: string)
    ensures Lower(AfterDot(s)) == AfterDot(Lower(s))
  {
    var k := LastIndexOf(s, '.') + 1;
    LastDotOfLower(s);
    LowerSuffix(s, k);
    assert AfterDot(Lower(s)) == Lower(s)[k..];
  }

  /** Lower-casing a suffix is taking the suffix of the lower-cased text. */
  lemma LowerSuffix(s: string, k: nat)
    requires k <= |s|
    ensures Lower(s)[k..] == Lower(s[k..])
  {
    LowerAppend(s[..k], s[k..]);
    assert s[..k] + s[k..] == s;
  }

  /** One line of an ffmpeg concat list. */
  function Entry(p: Path): string
  {
    "file '" + p + "'\n"
  }

  /** The text of a concat list naming these paths. */
  function Entries(paths: seq<Path>): string
  {
    if paths == [] then "" else Entry(paths[0]) + Entries(paths[1..])
  }

  /** Writing one more entry extends the list at its end. */
  lemma {:induction false} EntriesAppend(paths: seq<Path>, p: Path)
    ensures Entries(paths + [p]) == Entries(paths) + Entry(p)
  {
    if paths != [] {
      assert (paths + [p])[1..] == paths[1..] + [p];
      EntriesAppend(paths[1..], p);
    } else {
      assert [p][1..] == [];
    }
  }

  /** The list reads back, line by line, as one line per path in order, followed by the
      empty text after the final line break, when no path holds a line break. */
  lemma {:induction false} EntriesLines(paths: seq<Path>)
    requires forall i :: 0 <= i < |paths| ==> '\n' !in paths[i]
    ensures SplitOn(Entries(paths), '\n') == seq(|paths|, i requires 0 <= i < |paths| => "file '" + paths[i] + "'") + [""]
  {
    if paths == [] {
    } else {
      var line := "file '" + paths[0] + "'";
      assert '\n' !in line by {
        assert forall k :: 0 <= k < |line| && k >= 6 && k < 6 + |paths[0]| ==> line[k] == paths[0][k - 6];
      }
      assert Entries(paths) == line + ['\n'] + Entries(paths[1..]);
      SplitOnFirst(line, Entries(paths[1..]), '\n');
      EntriesLines(paths[1..]);
    }
  }

  /** `with open(p, 'w') as f: for path in paths: f.write(f"file '{path}'\n")`: the
      list is opened (and emptied) first, then one line is written per path. */
  method WriteList(fs: Fs, p: Path, paths: seq<Path>) returns (r: Result<Fs, Exc>)
    ensures r.Success? <==> Writable(fs, p)
    ensures r.Success? ==> r.value == fs.(files := fs.files[p := File(Encode(Entries(paths)), fs.clock)])
  {
    var text := "";
    var i := 0;
    while i < |paths|
      invariant 0 <= i <= |paths|
      invariant text == Entries(paths[..i])
    {
      EntriesAppend(paths[..i], paths[i]);
      PathsStep(paths, i);
      text := text + Entry(paths[i]);
      i := i + 1;
    }
    assert paths[..i] == paths;
    r := Write(fs, p, Encode(text));
  }

  /** What each command writes when it runs: the bytes of the commands' outputs. */
  function Outputs(ff: Ffmpeg, cmds: seq<Command>): (r: seq<Bytes>)
    ensures |r| == |cmds|
    ensures forall i :: 0 <= i < |cmds| && ff.run(cmds[i], []).Some? ==> r[i] == ff.run(cmds[i], []).value
  {
    seq(|cmds|, i requires 0 <= i < |cmds| => ff.run(cmds[i], []).GetOr([]))
  }

  /** Every command, run with no input file, succeeds and its output can be written. */
  predicate AllMade(fs: Fs, ff: Ffmpeg, cmds: seq<Command>, names: seq<Path>)
    requires |cmds| == |names|
  {
    forall i :: 0 <= i < |cmds| ==> ff.run(cmds[i], []).Some? && Writable(fs, names[i])
  }

  /** None of the outputs that can be written is a directory. */
  lemma AllMadeNoDirs(fs: Fs, ff: Ffmpeg, cmds: seq<Command>, names: seq<Path>)
    requires |cmds| == |names| && AllMade(fs, ff, cmds, names)
    ensures forall p :: p in names ==> p !in fs.dirs
  {
    forall p | p in names
      ensures p !in fs.dirs
    {
      var k :| 0 <= k < |names| && names[k] == p;
      assert Writable(fs, names[k]);
    }
  }

  /** The check, one command further. */
  lemma AllMadeStep(fs: Fs, ff: Ffmpeg, cmds: seq<Command>, names: seq<Path>, i: nat)
    requires |cmds| == |names| && i < |cmds|
    ensures AllMade(fs, ff, cmds[..i + 1], names[..i + 1]) <==>
      AllMade(fs, ff, cmds[..i], names[..i]) && ff.run(cmds[i], []).Some? && Writable(fs, names[i])
    ensures !(ff.run(cmds[i], []).Some? && Writable(fs, names[i])) ==> !AllMade(fs, ff, cmds, names)
  {
    assert forall j :: 0 <= j < i ==> cmds[..i + 1][j] == cmds[..i][j] && names[..i + 1][j] == names[..i][j];
  }

  /** `for i, cmd in enumerate(cmds): subprocess.run(cmd + [names[i]], check=True)`,
      ending at the first run that raises; `done` counts the runs that completed. */
  method RunEach(fs: Fs, ff: Ffmpeg, cmds: seq<Command>, names: seq<Path>) returns (err: Option<Exc>, done: nat, fs': Fs)
    requires |cmds| == |names|
    ensures fs'.dirs == fs.dirs && fs'.clock == fs.clock
    ensures err.None? <==> AllMade(fs, ff, cmds, names)
    ensures err.None? ==> done == |names| && fs' == Written(fs, names, Outputs(ff, cmds))
    ensures err.Some? ==>
      && done < |names| && err.value == ff.failed(cmds[done])
      && !(ff.run(cmds[done], []).Some? && Writable(fs, names[done]))
      && fs' == Written(fs, names[..done], Outputs(ff, cmds)[..done])
  {
    var bytes := Outputs(ff, cmds);
    fs' := fs;
    err := None;
    done := 0;
    while done < |names|
      invariant 0 <= done <= |names|
      invariant fs' == Written(fs, names[..done], bytes[..done])
      invariant fs'.dirs == fs.dirs && fs'.clock == fs.clock
      invariant AllMade(fs, ff, cmds[..done], names[..done])
    {
      WriteByDirs(fs, fs', names[done], bytes[done]);
      AllMadeStep(fs, ff, cmds, names, done);
      match Checked(fs', ff, cmds[done], [], names[done])
      case Failure(e) =>
        err := Some(e);
        return;
      case Success(next) =>
        WrittenStep(fs, names, bytes, done);
        fs' := next;
      done := done + 1;
    }
    assert names[..done] == names && bytes[..done] == bytes && cmds[..done] == cmds;
  }
}
