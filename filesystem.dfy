// The disk the handlers work on, as a value: each handler takes the disk as it
// was before the request and returns it as it is afterwards.  Paths follow
// POSIX os.path rules; errors carry the errno Python would report.
module FileSystem {
  import opened Wrappers
  import opened Strings
  import opened Http

  type Bytes = seq<bv8>
  type Path = string

  /** A regular file: its bytes and its inode-change time (os.path.getctime). */
  datatype File = File(data: Bytes, ctime: int)

  /** Regular files, directories, and the wall clock that stamps every write. */
  datatype Fs = Fs(files: map<Path, File>, dirs: set<Path>, clock: int)

  /** No path is both a file and a directory. */
  predicate Valid(fs: Fs)
  {
    fs.files.Keys !! fs.dirs
  }

  /** os.path.join(a, b) */
  function PathJoin(a: Path, b: string): Path
  {
    if |b| > 0 && b[0] == '/' then b
    else if a == [] || a[|a| - 1] == '/' then a + b
    else a + "/" + b
  }

  predicate AllSlashes(s: string)
  {
    forall i :: 0 <= i < |s| ==> s[i] == '/'
  }

  function StripSlashes(s: string): (r: string)
    ensures |r| <= |s| && r == s[..|r|]
    ensures r == [] || r[|r| - 1] != '/'
  {
    if s != [] && s[|s| - 1] == '/' then StripSlashes(s[..|s| - 1]) else s
  }

  /** os.path.dirname(p) */
  function Parent(p: Path): (r: Path)
    ensures |r| <= |p| && r == p[..|r|]
  {
    var head := p[..LastIndexOf(p, '/') + 1];
    if head != [] && !AllSlashes(head) then StripSlashes(head) else head
  }

  /** os.path.basename(p) */
  function Basename(p: Path): string
  {
    p[LastIndexOf(p, '/') + 1..]
  }

  /** Joining a plain name onto a directory: dirname and basename take it apart again. */
  lemma ParentOfJoin(d: Path, name: string)
    requires d != [] && d[|d| - 1] != '/' && '/' !in name
    ensures PathJoin(d, name) == d + "/" + name
    ensures Parent(PathJoin(d, name)) == d
    ensures Basename(PathJoin(d, name)) == name
  {
    var p := d + "/" + name;
    assert name == [] || name[0] != '/';
    assert p[|d|] == '/';
    assert forall j :: |d| < j < |p| ==> p[j] == name[j - |d| - 1];
    assert LastIndexOf(p, '/') == |d|;
    var head := p[..|d| + 1];
    assert head == d + "/";
    assert !AllSlashes(head) by {
      assert head[|d| - 1] != '/';
    }
    assert head[..|head| - 1] == d;
    assert StripSlashes(head) == StripSlashes(d);
    assert StripSlashes(d) == d;
    assert Parent(p) == StripSlashes(head);
  }

  /** Two joined paths differ when their directories differ at a common position. */
  lemma JoinApart(d1: Path, d2: Path, a: string, b: string, i: nat)
    requires i < |d1| && i < |d2| && d1[i] != d2[i]
    requires d1[|d1| - 1] != '/' && d2[|d2| - 1] != '/'
    requires (a == [] || a[0] != '/') && (b == [] || b[0] != '/')
    ensures PathJoin(d1, a) != PathJoin(d2, b)
  {
    assert PathJoin(d1, a)[i] == d1[i];
    assert PathJoin(d2, b)[i] == d2[i];
  }

  /** The working directory ("" or ".") always exists. */
  predicate IsDir(fs: Fs, d: Path)
  {
    d == [] || d == "." || d in fs.dirs
  }

  /** open(p, "wb") succeeds: p is not a directory and its parent directory exists. */
  predicate Writable(fs: Fs, p: Path)
  {
    p != [] && p !in fs.dirs && IsDir(fs, Parent(p))
  }

  /** open(p, "wb").write(data) */
  function Write(fs: Fs, p: Path, data: Bytes): (r: Result<Fs, Exc>)
    ensures r.Success? <==> Writable(fs, p)
    ensures r.Success? ==> r.value == fs.(files := fs.files[p := File(data, fs.clock)])
    ensures Valid(fs) && r.Success? ==> Valid(r.value)
  {
    if p in fs.dirs then Failure(OsError(21, p))
    else if p == [] || !IsDir(fs, Parent(p)) then
      Failure(OsError(if Parent(p) in fs.files then 20 else 2, p))
    else Success(fs.(files := fs.files[p := File(data, fs.clock)]))
  }

  /** Whether a write succeeds depends on the directories alone. */
  lemma WriteByDirs(fs: Fs, now: Fs, p: Path, data: Bytes)
    requires now.dirs == fs.dirs
    ensures Write(now, p, data).Success? <==> Writable(fs, p)
    ensures Write(now, p, data).Success? ==> Write(now, p, data).value == now.(files := now.files[p := File(data, now.clock)])
  {
  }

  /** open(p, "rb").read() */
  function Read(fs: Fs, p: Path): (r: Result<Bytes, Exc>)
    ensures r.Success? <==> p in fs.files
    ensures r.Success? ==> r.value == fs.files[p].data
  {
    if p in fs.files then Success(fs.files[p].data)
    else if p in fs.dirs then Failure(OsError(21, p))
    else Failure(OsError(2, p))
  }

  /** os.path.exists(p) */
  predicate Exists(fs: Fs, p: Path)
  {
    p in fs.files || p in fs.dirs
  }

  /** os.remove(p) */
  function Remove(fs: Fs, p: Path): (r: Result<Fs, Exc>)
    ensures r.Success? <==> p in fs.files
    ensures r.Success? ==> r.value == fs.(files := fs.files - {p})
    ensures r.Failure? ==> r.error == OsError(if p in fs.dirs then 21 else 2, p)
  {
    if p in fs.files then Success(fs.(files := fs.files - {p}))
    else Failure(OsError(if p in fs.dirs then 21 else 2, p))
  }

  /** `if os.path.exists(p): os.remove(p)` */
  function RemoveIfExists(fs: Fs, p: Path): (r: Result<Fs, Exc>)
    ensures r.Success? <==> p in fs.files || p !in fs.dirs
    ensures r.Success? ==> r.value == fs.(files := fs.files - {p})
  {
    if Exists(fs, p) then Remove(fs, p) else Success(fs)
  }

  /** os.path.getsize(p). The size reported for a directory is not modelled (0 here);
      no handler asks for one. */
  function Size(fs: Fs, p: Path): (r: Result<nat, Exc>)
    ensures r.Success? <==> Exists(fs, p)
    ensures p in fs.files ==> r == Success(|fs.files[p].data|)
    ensures !Exists(fs, p) ==> r == Failure(OsError(2, p))
  {
    if p in fs.files then Success(|fs.files[p].data|)
    else if p in fs.dirs then Success(0)
    else Failure(OsError(2, p))
  }

  /** os.makedirs(d, exist_ok=True) */
  function MakeDirs(fs: Fs, d: Path): (r: Result<Fs, Exc>)
    ensures r.Success? ==> r.value.files == fs.files && r.value.clock == fs.clock
    ensures r.Success? ==> fs.dirs <= r.value.dirs && IsDir(r.value, d)
    ensures d in fs.dirs || d == "." ==> r == Success(fs)
    ensures r.Success? ==> forall x :: x in r.value.dirs - fs.dirs ==> x !in fs.files
    ensures IsDir(fs, Parent(d)) && d !in fs.files && !IsDir(fs, d) ==>
      r == Success(fs.(dirs := fs.dirs + {d}))
    decreases |d|
  {
    if d in fs.dirs || d == "." then Success(fs)
    else if d == [] then Failure(OsError(2, d))
    else if d in fs.files then Failure(OsError(17, d))
    else
      var parent := Parent(d);
      if IsDir(fs, parent) then Success(fs.(dirs := fs.dirs + {d}))
      else if parent in fs.files then Failure(OsError(20, d))
      else if parent == d then Failure(OsError(2, d))
      else
        match MakeDirs(fs, parent)
        case Success(fs1) => Success(fs1.(dirs := fs1.dirs + {d}))
        case Failure(e) => Failure(e)
  }

  /** p lies somewhere below directory d. */
  predicate Under(p: Path, d: Path)
  {
    StartsWith(p, d + "/")
  }

  /** The regular files somewhere below directory d. */
  function Subtree(fs: Fs, d: Path): set<Path>
  {
    set p | p in fs.files && Under(p, d)
  }

  /** shutil.rmtree(d) */
  function RmTree(fs: Fs, d: Path): (r: Result<Fs, Exc>)
    ensures r.Success? <==> d in fs.dirs
    ensures r.Success? ==> r.value.files == fs.files - Subtree(fs, d)
    ensures r.Success? ==> forall x :: x in r.value.dirs <==> x in fs.dirs && x != d && !Under(x, d)
    ensures r.Success? ==> r.value.clock == fs.clock
  {
    if d in fs.dirs then
      Success(Fs(map p | p in fs.files && !Under(p, d) :: fs.files[p],
                 (set x | x in fs.dirs && x != d && !Under(x, d)),
                 fs.clock))
    else Failure(OsError(if d in fs.files then 20 else 2, d))
  }

  /** shutil.copy2(src, dst): a directory destination receives a file of the source's
      name, and copying a file onto itself raises SameFileError. */
  function Copy(fs: Fs, src: Path, dst: Path): (r: Result<Fs, Exc>)
    ensures dst !in fs.dirs && src in fs.files && Writable(fs, dst) && src != dst ==>
      r == Success(fs.(files := fs.files[dst := File(fs.files[src].data, fs.clock)]))
    ensures r.Success? ==> src in fs.files
    ensures src == dst && dst !in fs.dirs ==> r.Failure?
    ensures r.Success? ==> r.value.dirs == fs.dirs && r.value.clock == fs.clock
    ensures r.Success? && dst !in fs.dirs ==> WroteOnly(fs.files, r.value.files, [dst])
    ensures r.Success? ==> src in r.value.files && r.value.files[src] == fs.files[src]
    ensures r.Success? ==> Exists(r.value, dst)
    ensures r.Success? && dst !in fs.dirs ==> dst in r.value.files && Kept(fs.files, r.value.files, [dst])
  {
    var target := if dst in fs.dirs then PathJoin(dst, Basename(src)) else dst;
    match Read(fs, src)
    case Failure(e) => Failure(e)
    case Success(data) =>
      if target == src then Failure(External("SameFileError")) else Write(fs, target, data)
  }

  /** p names an entry of directory d itself, not of one of its subdirectories. */
  predicate DirectlyIn(p: Path, d: Path)
  {
    |p| > |d| + 1 && p[..|d| + 1] == d + "/" && '/' !in p[|d| + 1..]
  }

  /** os.listdir(d), as the joined paths of its entries. */
  function Listing(fs: Fs, d: Path): set<Path>
  {
    set p | p in fs.files.Keys + fs.dirs && DirectlyIn(p, d)
  }

  /** The paths a sequence lists. */
  function PathSet(ps: seq<Path>): (r: set<Path>)
    ensures forall p :: p in r <==> p in ps
  {
    set p | p in ps
  }

  /** The files a write loop leaves behind; a path written twice keeps the later bytes. */
  function WrittenFiles(paths: seq<Path>, contents: seq<Bytes>, clock: int): map<Path, File>
    requires |paths| == |contents|
  {
    if paths == [] then map[]
    else
      var n := |paths| - 1;
      WrittenFiles(paths[..n], contents[..n], clock)[paths[n] := File(contents[n], clock)]
  }

  /** Each written path holds the bytes written there, when no two writes share a path. */
  lemma {:induction false} WrittenFilesLookup(paths: seq<Path>, contents: seq<Bytes>, clock: int, i: nat)
    requires |paths| == |contents| && i < |paths|
    requires forall j, k :: 0 <= j < k < |paths| ==> paths[j] != paths[k]
    ensures paths[i] in WrittenFiles(paths, contents, clock)
    ensures WrittenFiles(paths, contents, clock)[paths[i]] == File(contents[i], clock)
  {
    var n := |paths| - 1;
    if i < n {
      WrittenFilesLookup(paths[..n], contents[..n], clock, i);
      assert paths[..n][i] == paths[i] && contents[..n][i] == contents[i];
      assert paths[n] != paths[i];
    }
  }

  /** The written files are exactly the listed paths. */
  lemma {:induction false} WrittenFilesKeys(paths: seq<Path>, contents: seq<Bytes>, clock: int)
    requires |paths| == |contents|
    ensures WrittenFiles(paths, contents, clock).Keys == PathSet(paths)
  {
    if paths != [] {
      var n := |paths| - 1;
      WrittenFilesKeys(paths[..n], contents[..n], clock);
      assert paths == paths[..n] + [paths[n]];
    }
  }

  /** The disk after a write loop completed. */
  function Written(fs: Fs, paths: seq<Path>, contents: seq<Bytes>): Fs
    requires |paths| == |contents|
  {
    fs.(files := fs.files + WrittenFiles(paths, contents, fs.clock))
  }

  /** One more write: the loop's step. */
  lemma WrittenStep(fs: Fs, paths: seq<Path>, contents: seq<Bytes>, i: nat)
    requires |paths| == |contents| && i < |paths|
    ensures Written(fs, paths[..i + 1], contents[..i + 1])
         == Written(fs, paths[..i], contents[..i]).(files := Written(fs, paths[..i], contents[..i]).files[paths[i] := File(contents[i], fs.clock)])
  {
    assert paths[..i + 1][..i] == paths[..i] && contents[..i + 1][..i] == contents[..i];
    var m := WrittenFiles(paths[..i], contents[..i], fs.clock);
    assert WrittenFiles(paths[..i + 1], contents[..i + 1], fs.clock) == m[paths[i] := File(contents[i], fs.clock)];
    assert fs.files + m[paths[i] := File(contents[i], fs.clock)]
        == (fs.files + m)[paths[i] := File(contents[i], fs.clock)];
  }

  /** Files laid over a disk at `keys`, one more file put elsewhere, then the files at
      `keys` removed: the disk without `keys`, plus the one file. */
  lemma OverlaidThenRemoved(m: map<Path, File>, w: map<Path, File>, keys: set<Path>, k: Path, v: File)
    requires w.Keys == keys && k !in keys
    ensures (m + w)[k := v] - keys == (m - keys)[k := v]
  {
  }

  /** A list of paths, one path further. */
  lemma PathsStep(paths: seq<Path>, i: nat)
    requires i < |paths|
    ensures paths[..i + 1] == paths[..i] + [paths[i]]
  {
  }

  /** Every path can be opened for writing. */
  predicate AllWritable(fs: Fs, paths: seq<Path>)
  {
    forall i :: 0 <= i < |paths| ==> Writable(fs, paths[i])
  }

  /** None of the paths that can be written is a directory. */
  lemma AllWritableNoDirs(fs: Fs, paths: seq<Path>)
    requires AllWritable(fs, paths)
    ensures forall p :: p in paths ==> p !in fs.dirs
  {
    forall p | p in paths
      ensures p !in fs.dirs
    {
      var k :| 0 <= k < |paths| && paths[k] == p;
      assert Writable(fs, paths[k]);
    }
  }

  /** The writability check, one path further. */
  lemma AllWritableStep(fs: Fs, paths: seq<Path>, i: nat)
    requires i < |paths|
    ensures AllWritable(fs, paths[..i + 1]) <==> AllWritable(fs, paths[..i]) && Writable(fs, paths[i])
    ensures !Writable(fs, paths[i]) ==> !AllWritable(fs, paths)
  {
    assert forall j :: 0 <= j < i ==> paths[..i + 1][j] == paths[..i][j];
  }

  /** `for p, data in zip(paths, contents): open(p, "wb").write(data)`, ending at the
      first write that raises; `done` counts the writes that completed.  Writes do not
      change the directories, so the paths that can be written are the same before and
      after each one. */
  method WriteAll(fs: Fs, paths: seq<Path>, contents: seq<Bytes>) returns (err: Option<Exc>, done: nat, fs': Fs)
    requires |paths| == |contents|
    ensures fs'.dirs == fs.dirs && fs'.clock == fs.clock
    ensures err.None? <==> AllWritable(fs, paths)
    ensures err.None? ==> done == |paths| && fs' == Written(fs, paths, contents)
    ensures err.Some? ==>
      done < |paths| && !Writable(fs, paths[done]) && fs' == Written(fs, paths[..done], contents[..done])
    ensures Valid(fs) ==> Valid(fs')
  {
    fs' := fs;
    err := None;
    done := 0;
    while done < |paths|
      invariant 0 <= done <= |paths|
      invariant fs' == Written(fs, paths[..done], contents[..done])
      invariant fs'.dirs == fs.dirs && fs'.clock == fs.clock
      invariant AllWritable(fs, paths[..done])
      invariant Valid(fs) ==> Valid(fs')
    {
      WriteByDirs(fs, fs', paths[done], contents[done]);
      AllWritableStep(fs, paths, done);
      match Write(fs', paths[done], contents[done])
      case Failure(e) =>
        err := Some(e);
        return;
      case Success(next) =>
        WrittenStep(fs, paths, contents, done);
        fs' := next;
      done := done + 1;
    }
    assert paths[..done] == paths && contents[..done] == contents;
  }

  /** Every file of `small` is also in `big`, with the same bytes and time. */
  predicate Within(small: map<Path, File>, big: map<Path, File>)
  {
    forall p :: p in small ==> p in big && small[p] == big[p]
  }

  /** Every file of `after` away from the listed paths was already in `before`,
      unchanged. */
  predicate WroteOnly(before: map<Path, File>, after: map<Path, File>, paths: seq<Path>)
  {
    forall p :: p in after && p !in paths ==> p in before && after[p] == before[p]
  }

  /** A write loop that completed touches its own paths and no other. */
  lemma WrittenOnlyAll(fs: Fs, paths: seq<Path>, contents: seq<Bytes>)
    requires |paths| == |contents|
    ensures WroteOnly(fs.files, Written(fs, paths, contents).files, paths)
  {
    WrittenFilesKeys(paths, contents, fs.clock);
  }

  /** Every file of `before` away from the listed paths is still in `after`, unchanged. */
  predicate Kept(before: map<Path, File>, after: map<Path, File>, paths: seq<Path>)
  {
    forall p :: p in before && p !in paths ==> p in after && after[p] == before[p]
  }

  /** A write loop keeps every file away from its paths. */
  lemma WrittenKept(fs: Fs, paths: seq<Path>, contents: seq<Bytes>)
    requires |paths| == |contents|
    ensures Kept(fs.files, Written(fs, paths, contents).files, paths)
  {
    WrittenFilesKeys(paths, contents, fs.clock);
  }

  /** A prefix of a list lies within the list with more paths after it. */
  lemma PrefixWithin(paths: seq<Path>, k: nat, extra: seq<Path>)
    requires k <= |paths|
    ensures forall p :: p in paths[..k] ==> p in paths + extra
  {
    assert paths + extra == paths[..k] + (paths[k..] + extra);
  }

  /** Two steps that each kept the files away from their paths keep the files away from
      any list holding both. */
  lemma KeptChain(a: map<Path, File>, b: map<Path, File>, c: map<Path, File>, first: seq<Path>, second: seq<Path>, all: seq<Path>)
    requires Kept(a, b, first) && Kept(b, c, second)
    requires forall p :: p in first ==> p in all
    requires forall p :: p in second ==> p in all
    ensures Kept(a, c, all)
  {
  }

  /** Two steps that each wrote only at their own paths wrote only at the paths of
      both. */
  lemma WroteOnlyChain(a: map<Path, File>, b: map<Path, File>, c: map<Path, File>, first: seq<Path>, second: seq<Path>)
    requires WroteOnly(a, b, first) && WroteOnly(b, c, second)
    ensures WroteOnly(a, c, first + second)
  {
  }

  /** A clean-up that removed every path written leaves only files that were there
      before, unchanged. */
  lemma CleanedUp(before: map<Path, File>, mid: map<Path, File>, after: map<Path, File>, written: seq<Path>)
    requires WroteOnly(before, mid, written) && Within(after, mid)
    requires forall p :: p in written ==> p !in after
    ensures Within(after, before)
  {
  }

  /** A write loop, complete or stopped after n writes, touches its own paths and no
      other. */
  lemma WrittenOnly(fs: Fs, paths: seq<Path>, contents: seq<Bytes>, n: nat)
    requires |paths| == |contents| && n <= |paths|
    ensures WroteOnly(fs.files, Written(fs, paths[..n], contents[..n]).files, paths[..n])
    ensures WroteOnly(fs.files, Written(fs, paths[..n], contents[..n]).files, paths)
  {
    WrittenFilesKeys(paths[..n], contents[..n], fs.clock);
    assert forall p :: p in paths[..n] ==> p in paths;
  }

  /** `for p in paths: if os.path.exists(p): os.remove(p)`; the first failing removal
      ends the loop with the error it raised. */
  method RemoveEach(fs: Fs, paths: seq<Path>) returns (err: Option<Exc>, fs': Fs)
    ensures fs'.dirs == fs.dirs && fs'.clock == fs.clock
    ensures Within(fs'.files, fs.files)
    ensures err.None? ==> fs'.files == fs.files - PathSet(paths)
    ensures Kept(fs.files, fs'.files, paths)
    ensures (forall p :: p in paths ==> p !in fs.dirs) ==> err.None?
    ensures err.Some? ==> err.value.OsError? && err.value.errno == 21 && err.value.path in fs.dirs
  {
    fs' := fs;
    err := None;
    var i := 0;
    while i < |paths|
      invariant 0 <= i <= |paths|
      invariant fs'.dirs == fs.dirs && fs'.clock == fs.clock
      invariant fs'.files == fs.files - PathSet(paths[..i])
    {
      match RemoveIfExists(fs', paths[i])
      case Failure(e) =>
        err := Some(e);
        return;
      case Success(next) =>
        fs' := next;
      assert PathSet(paths[..i + 1]) == PathSet(paths[..i]) + {paths[i]} by {
        assert paths[..i + 1] == paths[..i] + [paths[i]];
      }
      i := i + 1;
    }
    assert paths[..i] == paths;
  }

  /** The shape every media-service operation shares: read the input, make the output
      bytes, write them, and remove the input only once the output is written.  Any exception returns False
      and leaves the disk as it was. */
  method Produce(fs: Fs, input: Path, output: Path, make: Bytes -> Option<Bytes>) returns (ok: bool, fs': Fs)
    ensures ok <==> input in fs.files && make(fs.files[input].data).Some? && Writable(fs, output)
    ensures ok ==> fs' == fs.(files := fs.files[output := File(make(fs.files[input].data).value, fs.clock)] - {input})
    ensures !ok ==> fs' == fs
  {
    fs' := fs;
    match Read(fs, input)
    case Failure(_) =>
      return false, fs;
    case Success(data) =>
      match make(data)
      case None =>
        return false, fs;
      case Some(bytes) =>
        match Write(fs, output, bytes)
        case Failure(_) =>
          return false, fs;
        case Success(written) =>
          fs' := RemoveIfExists(written, input).value;
          return true, fs';
  }
}
