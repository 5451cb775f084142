// The core endpoints: upload, download, progress, usage statistics, cleanup and
// validation, over the two module-level registries and the disk.
module CoreApi {
  import opened Wrappers
  import opened Strings
  import opened Http
  import opened FileSystem
  import opened Schemas
  import Config

  /** One conversion_status_storage entry; a missing key is None. */
  datatype ConversionInfo = ConversionInfo(
    status: Option<string>,
    outputPath: Option<Path>,
    filename: Option<string>,
    progress: Option<int>,
    message: Option<string>,
    estimatedCompletion: Option<int>)

  /** One upload_storage entry. */
  datatype UploadEntry = UploadEntry(fileInfo: FileInfo, filePath: Path, uploadTime: int)

  /** The FileResponse a download streams back. */
  datatype FileDownload = FileDownload(path: Path, filename: string, mediaType: string)

  const TOO_LARGE: string := "File size exceeds maximum allowed size of 100.0MB"
  const SECONDS_PER_DAY: int := 24 * 60 * 60

  /** Where an upload is stored: {UPLOAD_DIR}/{file_id}_{filename}. */
  function UploadPath(fileId: string, filename: string): (r: Path)
    ensures '/' !in fileId && '/' !in filename ==>
      Parent(r) == Config.UPLOAD_DIR && Basename(r) == fileId + "_" + filename
  {
    var name := fileId + "_" + filename;
    if '/' !in fileId && '/' !in filename then
      assert '/' !in name by {
        assert name == fileId + ("_" + filename);
        assert '/' !in "_" + filename;
      }
      ParentOfJoin(Config.UPLOAD_DIR, name);
      PathJoin(Config.UPLOAD_DIR, name)
    else PathJoin(Config.UPLOAD_DIR, name)
  }

  /** The FileInfo recorded for an upload: the name as sent, the byte count, the
      lower-cased extension without its dot, and the content type or
      application/octet-stream when that is empty or absent. */
  function UploadInfo(filename: string, size: nat, contentType: Option<string>): (r: FileInfo)
    ensures r.filename == filename && r.size == size
    ensures '.' !in r.format && r.format == Lower(ExtNoDot(filename))
    ensures r.mimeType != []
    ensures contentType.Some? && contentType.value != [] ==> r.mimeType == contentType.value
  {
    FileInfo(filename, size, Lower(ExtNoDot(filename)),
             if contentType.Some? && contentType.value != [] then contentType.value else "application/octet-stream")
  }

  /** The two module-level dictionaries. */
  class Registry {
    var conversions: map<string, ConversionInfo>
    var uploads: map<string, UploadEntry>

    /** Both dictionaries start empty. */
    constructor()
      ensures conversions == map[] && uploads == map[]
    {
      conversions := map[];
      uploads := map[];
    }

    /** No endpoint inserts a conversion: the conversion registry stays empty. */
    predicate Valid()
      reads this
    {
      conversions == map[]
    }

    /** POST /upload. An oversize body is rejected with 413 inside the `try`, so the client
        sees it as 500; otherwise the bytes are written and exactly the entry for fileId is
        added. */
    method Upload(fs: Fs, content: Bytes, filename: string, contentType: Option<string>,
                  fileId: string, now: int)
      returns (r: Reply<UploadResponse>, fs': Fs)
      modifies this
      ensures conversions == old(conversions)
      ensures Valid() <==> old(Valid())
      ensures |content| > Config.MAX_FILE_SIZE ==>
        r == Reraise(HttpError(413, TOO_LARGE)) && fs' == fs && uploads == old(uploads)
      ensures r.Ok? <==> |content| <= Config.MAX_FILE_SIZE && Writable(fs, UploadPath(fileId, filename))
      ensures r.Ok? ==>
        var path := UploadPath(fileId, filename);
        var info := UploadInfo(filename, |content|, contentType);
        && fs' == fs.(files := fs.files[path := File(content, fs.clock)])
        && uploads == old(uploads)[fileId := UploadEntry(info, path, now)]
        && r.body == UploadResponse(true, "File uploaded successfully", fileId, info)
      ensures r.Fail? ==> r.status == 500 && uploads == old(uploads) && fs' == fs
    {
      fs' := fs;
      if |content| > Config.MAX_FILE_SIZE {
        r := Reraise(HttpError(413, TOO_LARGE));
        return;
      }
      var path := UploadPath(fileId, filename);
      match Write(fs, path, content)
      case Failure(e) =>
        r := Reraise(e);
      case Success(written) =>
        fs' := written;
        var info := UploadInfo(filename, |content|, contentType);
        uploads := uploads[fileId := UploadEntry(info, path, now)];
        r := Ok(UploadResponse(true, "File uploaded successfully", fileId, info));
    }

    /** GET /download/{conversion_id}. Its HTTPExceptions pass through unchanged; a
        missing key of the entry is a KeyError, reported as 500. */
    function Download(fs: Fs, conversionId: string): (r: Reply<FileDownload>)
      reads this
      ensures conversionId !in conversions ==> r == Fail(404, Text("Conversion not found"))
      ensures conversionId in conversions && conversions[conversionId].status.Some?
              && conversions[conversionId].status.value != "completed" ==>
        r == Fail(400, Text("Conversion not completed yet"))
      ensures r.Ok? <==>
        conversionId in conversions && conversions[conversionId].status == Some("completed")
        && conversions[conversionId].outputPath.Some?
        && Exists(fs, conversions[conversionId].outputPath.value)
      ensures r.Ok? ==>
        r.body.path == conversions[conversionId].outputPath.value
        && r.body.filename == conversions[conversionId].filename.GetOr("converted_file")
        && r.body.mediaType == "application/octet-stream"
    {
      if conversionId !in conversions then Fail(404, Text("Conversion not found"))
      else
        var info := conversions[conversionId];
        if info.status.None? then Reraise(KeyMissing("status"))
        else if info.status.value != "completed" then Fail(400, Text("Conversion not completed yet"))
        else if info.outputPath.None? then Reraise(KeyMissing("output_path"))
        else if !Exists(fs, info.outputPath.value) then Fail(404, Text("File not found"))
        else Ok(FileDownload(info.outputPath.value, info.filename.GetOr("converted_file"),
                             "application/octet-stream"))
    }

    /** GET /progress/{conversion_id}: the stored status, progress (default 0), message
        (default "Processing...") and estimated completion. A status that is no
        ConversionStatus value fails the response model and is reported as 500. */
    function Progress(conversionId: string): (r: Reply<ConversionProgress>)
      reads this
      ensures conversionId !in conversions ==> r == Fail(404, Text("Conversion not found"))
      ensures r.Ok? <==>
        conversionId in conversions && conversions[conversionId].status.Some?
        && ParseStatus(conversions[conversionId].status.value).Some?
      ensures r.Ok? ==>
        var info := conversions[conversionId];
        && r.body.conversionId == conversionId
        && StatusValue(r.body.status) == info.status.value
        && r.body.progress == info.progress.GetOr(0)
        && r.body.message == info.message.GetOr("Processing...")
        && r.body.estimatedCompletion == info.estimatedCompletion
    {
      if conversionId !in conversions then Fail(404, Text("Conversion not found"))
      else
        var info := conversions[conversionId];
        if info.status.None? then Reraise(KeyMissing("status"))
        else match ParseStatus(info.status.value)
          case None => Reraise(Invalid("ConversionProgress", ["status"]))
          case Some(st) =>
            Ok(ConversionProgress(conversionId, st, info.progress.GetOr(0),
                                  info.message.GetOr("Processing..."), info.estimatedCompletion))
    }

    /** The conversions that count as active. */
    function ActiveIds(): (r: set<string>)
      reads this
      ensures r <= conversions.Keys
      ensures forall k :: k in r <==>
        k in conversions && conversions[k].status in {Some("pending"), Some("processing")}
    {
      set k | k in conversions && conversions[k].status in {Some("pending"), Some("processing")}
    }

    /** GET /stats: the registry sizes and the number of pending or processing
        conversions; an entry without a status is a KeyError, reported as 500. */
    function Stats(): (r: Reply<UsageStats>)
      reads this
      ensures r.Ok? <==> forall k :: k in conversions ==> conversions[k].status.Some?
      ensures r.Ok? ==>
        && r.body.totalConversions == |conversions|
        && r.body.totalFilesProcessed == |uploads|
        && r.body.activeConversions == |ActiveIds()|
        && r.body.activeConversions <= r.body.totalConversions
    {
      if exists k :: k in conversions && conversions[k].status.None? then Reraise(KeyMissing("status"))
      else
        var active := ActiveIds();
        CardinalitySubset(active, conversions.Keys);
        Ok(UsageStats(|conversions|, |uploads|, |active|))
    }
  }

  lemma CardinalitySubset<T>(a: set<T>, b: set<T>)
    requires a <= b
    ensures |a| <= |b|
  {
    assert b == a + (b - a);
  }

  /** Since nothing can put an entry into the conversion registry, every download and
      every progress query ends in 404 "Conversion not found". */
  lemma EmptyRegistryNotFound(reg: Registry, fs: Fs, conversionId: string)
    requires reg.Valid()
    ensures reg.Download(fs, conversionId) == Fail(404, Text("Conversion not found"))
    ensures reg.Progress(conversionId) == Fail(404, Text("Conversion not found"))
    ensures reg.Stats() == Ok(UsageStats(0, |reg.uploads|, 0))
  {
    assert reg.ActiveIds() == {};
  }

  /** The listed paths that are regular files last changed before the cutoff. */
  function OlderFiles(fs: Fs, entries: set<Path>, cutoff: int): (r: set<Path>)
    ensures r <= fs.files.Keys && r <= entries
  {
    set p | p in entries && p in fs.files && fs.files[p].ctime < cutoff
  }

  /** The regular files directly in d that were last changed before the cutoff. */
  function Stale(fs: Fs, d: Path, cutoff: int): set<Path>
  {
    OlderFiles(fs, Listing(fs, d), cutoff)
  }

  /** What makes a file stale. */
  lemma StaleMembers(fs: Fs, d: Path, cutoff: int)
    ensures forall p :: p in Stale(fs, d, cutoff) <==> p in fs.files && DirectlyIn(p, d) && fs.files[p].ctime < cutoff
  {
  }

  /** The loop over the listing of a directory: each entry that is a regular file older
      than the cutoff is removed and counted. */
  method RemoveOlder(fs: Fs, entries: set<Path>, cutoff: int) returns (fs': Fs, count: nat)
    ensures fs' == fs.(files := fs.files - OlderFiles(fs, entries, cutoff))
    ensures count == |OlderFiles(fs, entries, cutoff)|
  {
    ghost var older := OlderFiles(fs, entries, cutoff);
    var todo := entries;
    ghost var gone: set<Path> := {};
    fs' := fs;
    count := 0;
    while todo != {}
      invariant todo <= entries && gone <= older && older - gone <= todo && gone !! todo
      invariant fs'.files == fs.files - gone && fs'.dirs == fs.dirs && fs'.clock == fs.clock
      invariant count == |gone|
      decreases |todo|
    {
      var p :| p in todo;
      if p in fs'.files && fs'.files[p].ctime < cutoff {
        assert p in older;
        MapMinusTwice(fs.files, gone, {p});
        fs' := fs'.(files := fs'.files - {p});
        gone := gone + {p};
        count := count + 1;
      } else {
        assert p !in older;
      }
      todo := todo - {p};
    }
    assert gone == older;
  }

  /** The files cleanup removes from the working directories: older than a day. */
  function Expired(fs: Fs): set<Path>
  {
    var cutoff := fs.clock - SECONDS_PER_DAY;
    Stale(fs, Config.UPLOAD_DIR, cutoff) + Stale(fs, Config.OUTPUT_DIR, cutoff)
  }

  /** The message of a successful cleanup; it names the count. */
  function CleanupMessage(count: nat): (r: string)
  {
    var prefix := "Cleanup completed. Removed ";
    prefix + NatToString(count) + " old files."
  }

  /** The state cleanup expects: the three directories exist. */
  predicate Prepared(fs: Fs)
  {
    Valid(fs) && Config.TEMP_DIR in fs.dirs && Config.UPLOAD_DIR in fs.dirs && Config.OUTPUT_DIR in fs.dirs
  }

  /** The first step of cleanup: `if os.path.exists(TEMP_DIR)`, remove the tree and
      create the directory again. */
  function ClearTemp(fs: Fs): (r: Result<Fs, Exc>)
    ensures !Exists(fs, Config.TEMP_DIR) ==> r == Success(fs)
    ensures Config.TEMP_DIR in fs.files && Config.TEMP_DIR !in fs.dirs ==> r == Failure(OsError(20, Config.TEMP_DIR))
  {
    if Exists(fs, Config.TEMP_DIR) then
      match RmTree(fs, Config.TEMP_DIR)
      case Failure(e) => Failure(e)
      case Success(cleared) => MakeDirs(cleared, Config.TEMP_DIR)
    else Success(fs)
  }

  /** The fixed directory names, taken apart. */
  lemma WorkingDirNames()
    ensures Parent(Config.TEMP_DIR) == "."
    ensures !Under(Config.TEMP_DIR, Config.TEMP_DIR)
    ensures !Under(Config.UPLOAD_DIR, Config.TEMP_DIR) && !Under(Config.OUTPUT_DIR, Config.TEMP_DIR)
  {
    ParentOfJoin(".", "temp");
    assert Config.TEMP_DIR == "." + "/" + "temp";
    assert (Config.TEMP_DIR + "/")[2] == 't';
    assert Config.UPLOAD_DIR[2] == 'u' && Config.OUTPUT_DIR[2] == 'o';
  }

  /** On a disk where TEMP_DIR is a directory, clearing it leaves every file outside it
      and every directory outside it, TEMP_DIR itself included. */
  lemma ClearTempDirectory(fs: Fs)
    requires Valid(fs) && Config.TEMP_DIR in fs.dirs
    ensures ClearTemp(fs) == Success(Fs(fs.files - Subtree(fs, Config.TEMP_DIR),
                                        (set x | x in fs.dirs && !Under(x, Config.TEMP_DIR)), fs.clock))
    ensures Config.UPLOAD_DIR in fs.dirs ==> Config.UPLOAD_DIR in ClearTemp(fs).value.dirs
    ensures Config.OUTPUT_DIR in fs.dirs ==> Config.OUTPUT_DIR in ClearTemp(fs).value.dirs
  {
    var cleared := RmTree(fs, Config.TEMP_DIR).value;
    WorkingDirNames();
    assert Config.TEMP_DIR !in cleared.files && Config.TEMP_DIR !in cleared.dirs;
    assert MakeDirs(cleared, Config.TEMP_DIR) == Success(cleared.(dirs := cleared.dirs + {Config.TEMP_DIR}));
    TempRecreated(fs);
  }

  /** One pass of the cleanup loop over a working directory that may be missing; listing
      a regular file instead of a directory raises NotADirectoryError. */
  method CleanDir(fs: Fs, d: Path, cutoff: int) returns (err: Option<Exc>, fs': Fs, count: nat)
    ensures d in fs.dirs ==>
      err == None && fs' == fs.(files := fs.files - Stale(fs, d, cutoff)) && count == |Stale(fs, d, cutoff)|
    ensures !Exists(fs, d) ==> err == None && fs' == fs && count == 0
    ensures err.Some? ==> err.value == OsError(20, d) && d in fs.files && fs' == fs
  {
    fs', count := fs, 0;
    err := None;
    if Exists(fs, d) {
      if d !in fs.dirs {
        err := Some(OsError(20, d));
        return;
      }
      fs', count := RemoveOlder(fs, Listing(fs, d), cutoff);
    }
  }

  /** `for directory in [UPLOAD_DIR, OUTPUT_DIR]`: the two passes of the cleanup loop. */
  method CleanWorkingDirs(fs: Fs, cutoff: int) returns (err: Option<Exc>, fs': Fs, count: nat)
    ensures Config.UPLOAD_DIR in fs.dirs && Config.OUTPUT_DIR in fs.dirs ==>
      && err == None
      && fs' == fs.(files := fs.files - (Stale(fs, Config.UPLOAD_DIR, cutoff) + Stale(fs, Config.OUTPUT_DIR, cutoff)))
      && count == |Stale(fs, Config.UPLOAD_DIR, cutoff) + Stale(fs, Config.OUTPUT_DIR, cutoff)|
    ensures err.Some? ==> err.value.OsError? && err.value.errno == 20
  {
    var uploadCount, outputCount;
    err, fs', uploadCount := CleanDir(fs, Config.UPLOAD_DIR, cutoff);
    if err.Some? {
      count := 0;
      return;
    }
    ghost var afterUpload := fs';
    err, fs', outputCount := CleanDir(fs', Config.OUTPUT_DIR, cutoff);
    count := uploadCount + outputCount;
    if Config.UPLOAD_DIR in fs.dirs && Config.OUTPUT_DIR in fs.dirs {
      PassesDisjoint(fs, afterUpload, cutoff);
    }
  }

  /** POST /cleanup: empty TEMP_DIR, then remove the regular files directly in UPLOAD_DIR
      and OUTPUT_DIR whose ctime lies more than a day before the clock, and report how many
      went. Subdirectories and newer files stay. */
  method Cleanup(fs: Fs) returns (r: Reply<BaseResponse>, fs': Fs)
    ensures r.Fail? ==> r.status == 500
    ensures Prepared(fs) ==> r == Ok(BaseResponse(true, CleanupMessage(|Expired(fs)|)))
    ensures Prepared(fs) ==>
      && fs'.files == fs.files - Subtree(fs, Config.TEMP_DIR) - Expired(fs)
      && fs'.dirs == (set x | x in fs.dirs && !Under(x, Config.TEMP_DIR))
      && fs'.clock == fs.clock
  {
    ghost var prepared := Prepared(fs);
    if prepared {
      ClearTempDirectory(fs);
    }
    fs' := fs;
    match ClearTemp(fs)
    case Failure(e) =>
      r := Reraise(e);
      return;
    case Success(cleared) =>
      fs' := cleared;
    ghost var afterTemp := fs';
    var cutoff := fs'.clock - SECONDS_PER_DAY;
    var err, cleaned;
    err, fs', cleaned := CleanWorkingDirs(fs', cutoff);
    if err.Some? {
      r := Reraise(err.value);
      return;
    }
    r := Ok(BaseResponse(true, CleanupMessage(cleaned)));
    if prepared {
      StaleOutsideTemp(fs, afterTemp, cutoff);
      MapMinusTwice(fs.files, Subtree(fs, Config.TEMP_DIR), Expired(fs));
    }
  }

  lemma DisjointUnionSize<T>(a: set<T>, b: set<T>)
    requires a !! b
    ensures |a + b| == |a| + |b|
  {
  }

  lemma MapMinusTwice<K, V>(m: map<K, V>, a: set<K>, b: set<K>)
    ensures (m - a) - b == m - (a + b)
  {
  }

  /** Paths directly in UPLOAD_DIR or OUTPUT_DIR lie outside TEMP_DIR and outside each other. */
  lemma WorkingDirsApart(p: Path)
    ensures DirectlyIn(p, Config.UPLOAD_DIR) ==> !Under(p, Config.TEMP_DIR) && !DirectlyIn(p, Config.OUTPUT_DIR)
    ensures DirectlyIn(p, Config.OUTPUT_DIR) ==> !Under(p, Config.TEMP_DIR)
  {
    if DirectlyIn(p, Config.UPLOAD_DIR) {
      assert p[2] == 'u';
    }
    if DirectlyIn(p, Config.OUTPUT_DIR) {
      assert p[2] == 'o';
    }
  }

  /** Stale files of d depend only on the files directly in d. */
  lemma StaleSameEntries(fs1: Fs, fs2: Fs, d: Path, cutoff: int)
    requires forall p :: DirectlyIn(p, d) ==> (p in fs1.files <==> p in fs2.files)
    requires forall p :: DirectlyIn(p, d) && p in fs1.files ==> fs1.files[p] == fs2.files[p]
    ensures Stale(fs1, d, cutoff) == Stale(fs2, d, cutoff)
  {
    StaleMembers(fs1, d, cutoff);
    StaleMembers(fs2, d, cutoff);
  }

  /** The UPLOAD_DIR pass removes nothing the OUTPUT_DIR pass would see, so the two passes
      remove disjoint sets and their counts add up. */
  lemma PassesDisjoint(fs: Fs, afterUpload: Fs, cutoff: int)
    requires afterUpload == fs.(files := fs.files - Stale(fs, Config.UPLOAD_DIR, cutoff))
    ensures Stale(afterUpload, Config.OUTPUT_DIR, cutoff) == Stale(fs, Config.OUTPUT_DIR, cutoff)
    ensures Stale(fs, Config.UPLOAD_DIR, cutoff) !! Stale(fs, Config.OUTPUT_DIR, cutoff)
    ensures (fs.files - Stale(fs, Config.UPLOAD_DIR, cutoff)) - Stale(fs, Config.OUTPUT_DIR, cutoff)
         == fs.files - (Stale(fs, Config.UPLOAD_DIR, cutoff) + Stale(fs, Config.OUTPUT_DIR, cutoff))
    ensures |Stale(fs, Config.UPLOAD_DIR, cutoff) + Stale(fs, Config.OUTPUT_DIR, cutoff)|
         == |Stale(fs, Config.UPLOAD_DIR, cutoff)| + |Stale(fs, Config.OUTPUT_DIR, cutoff)|
  {
    var su := Stale(fs, Config.UPLOAD_DIR, cutoff);
    var so := Stale(fs, Config.OUTPUT_DIR, cutoff);
    StaleMembers(fs, Config.UPLOAD_DIR, cutoff);
    StaleMembers(fs, Config.OUTPUT_DIR, cutoff);
    forall p | DirectlyIn(p, Config.OUTPUT_DIR) ensures p !in su {
      WorkingDirsApart(p);
    }
    StaleSameEntries(afterUpload, fs, Config.OUTPUT_DIR, cutoff);
    DisjointUnionSize(su, so);
    MapMinusTwice(fs.files, su, so);
  }

  /** Emptying TEMP_DIR leaves the stale files of UPLOAD_DIR and OUTPUT_DIR as they were. */
  lemma StaleOutsideTemp(fs: Fs, afterTemp: Fs, cutoff: int)
    requires afterTemp.files == fs.files - Subtree(fs, Config.TEMP_DIR)
    requires cutoff == fs.clock - SECONDS_PER_DAY
    ensures Stale(afterTemp, Config.UPLOAD_DIR, cutoff) + Stale(afterTemp, Config.OUTPUT_DIR, cutoff) == Expired(fs)
  {
    forall p | DirectlyIn(p, Config.UPLOAD_DIR) || DirectlyIn(p, Config.OUTPUT_DIR)
      ensures p !in Subtree(fs, Config.TEMP_DIR)
    {
      WorkingDirsApart(p);
    }
    StaleSameEntries(afterTemp, fs, Config.UPLOAD_DIR, cutoff);
    StaleSameEntries(afterTemp, fs, Config.OUTPUT_DIR, cutoff);
  }

  /** The directories after emptying TEMP_DIR and creating it again. */
  lemma TempRecreated(fs: Fs)
    requires Config.TEMP_DIR in fs.dirs
    ensures (set x | x in fs.dirs && x != Config.TEMP_DIR && !Under(x, Config.TEMP_DIR)) + {Config.TEMP_DIR}
         == set x | x in fs.dirs && !Under(x, Config.TEMP_DIR)
  {
    assert !Under(Config.TEMP_DIR, Config.TEMP_DIR);
  }

  /** Why validate_file turned a file down. */
  datatype Rejection = TooLarge(size: nat) | Unsupported(format: string)

  /** The answer of POST /validate: data, never an HTTP error. */
  datatype Validation =
    | Accepted(filename: string, size: nat, format: string, mimeType: Option<string>)
    | Refused(reason: Rejection)

  /** POST /validate: the size is checked first (strictly more than MAX_FILE_SIZE is too
      large, exactly MAX_FILE_SIZE passes), then the lower-cased extension against the
      union of the four format lists. */
  function Validate(content: Bytes, filename: string, contentType: Option<string>): (r: Validation)
    ensures |content| > Config.MAX_FILE_SIZE ==> r == Refused(TooLarge(|content|))
    ensures r.Accepted? <==>
      |content| <= Config.MAX_FILE_SIZE && Lower(ExtNoDot(filename)) in Config.ALL_FORMATS
    ensures r.Accepted? ==>
      r == Accepted(filename, |content|, UploadInfo(filename, |content|, contentType).format, contentType)
    ensures r.Refused? && r.reason.Unsupported? ==> r.reason.format == Lower(ExtNoDot(filename))
  {
    var ext := Lower(ExtNoDot(filename));
    if |content| > Config.MAX_FILE_SIZE then Refused(TooLarge(|content|))
    else if ext !in Config.ALL_FORMATS then Refused(Unsupported(ext))
    else Accepted(filename, |content|, ext, contentType)
  }

  /** A name's extension is compared lower-cased: "photo.PNG" validates like "photo.png". */
  lemma ValidateIgnoresCase(content: Bytes, stem: string, ext: string, contentType: Option<string>)
    requires |content| <= Config.MAX_FILE_SIZE
    requires stem != [] && stem[|stem| - 1] != '.' && '/' !in stem && '.' !in ext && '/' !in ext
    ensures Validate(content, stem + "." + ext, contentType).Accepted? <==> Lower(ext) in Config.ALL_FORMATS
    ensures Validate(content, stem + "." + ext, contentType).Accepted? <==>
            Validate(content, stem + "." + Lower(ext), contentType).Accepted?
  {
    ExtNoDotOf(stem, ext);
    assert '.' !in Lower(ext) && '/' !in Lower(ext) by {
      forall i | 0 <= i < |ext| ensures Lower(ext)[i] != '.' && Lower(ext)[i] != '/' {
        assert ext[i] != '.' && ext[i] != '/';
      }
    }
    ExtNoDotOf(stem, Lower(ext));
    LowerIdempotent(ext);
  }
}
