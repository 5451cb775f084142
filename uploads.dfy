// What every handler does with a multipart upload: check its name, save it under a
// fresh id, and answer with a download link.  uuid4() is an oracle: the fresh ids are
// parameters of the handlers.
module Uploads {
  import opened Wrappers
  import opened Strings
  import opened Http
  import opened FileSystem
  import opened Schemas
  import Config

  /** An UploadFile as the handler reads it: the client's name, the bytes, the MIME type. */
  datatype UploadFile = UploadFile(filename: string, content: Bytes, contentType: Option<string>)

  /** A character str(uuid.uuid4()) can hold: a lower-case hex digit or a dash. */
  predicate UuidChar(c: char)
  {
    '0' <= c <= '9' || 'a' <= c <= 'f' || c == '-'
  }

  /** What str(uuid.uuid4()) hands out: 36 characters, each a hex digit or a dash, so
      none of them a path separator. */
  predicate FreshId(id: string)
  {
    |id| == 36 && '/' !in id && forall i :: 0 <= i < |id| ==> UuidChar(id[i])
  }

  /** `os.path.join(dir, f"{file_id}_{file.filename}")` */
  function SavePath(dir: Path, id: string, filename: string): (r: Path)
    requires FreshId(id)
    ensures dir != [] && dir[|dir| - 1] != '/' ==> r == dir + "/" + id + "_" + filename
  {
    PathJoin(dir, id + "_" + filename)
  }

  /** What os.path.join puts in front of a name that does not start with '/'. */
  lemma JoinPrefix(dir: Path, a: string)
    requires a != [] && a[0] != '/'
    ensures PathJoin(dir, a) == (if dir == [] || dir[|dir| - 1] == '/' then dir else dir + "/") + a
  {
  }

  /** Uploads saved under distinct fresh ids never share a path. */
  lemma SavePathApart(dir: Path, id1: string, name1: string, id2: string, name2: string)
    requires FreshId(id1) && FreshId(id2) && id1 != id2
    ensures SavePath(dir, id1, name1) != SavePath(dir, id2, name2)
  {
    var a1, a2 := id1 + "_" + name1, id2 + "_" + name2;
    JoinPrefix(dir, a1);
    JoinPrefix(dir, a2);
    var pre := if dir == [] || dir[|dir| - 1] == '/' then dir else dir + "/";
    assert (pre + a1)[|pre|..] == a1 && (pre + a2)[|pre|..] == a2;
    assert a1[..36] == id1 && a2[..36] == id2;
  }

  /** A saved upload in TEMP_DIR is never an output in OUTPUT_DIR. */
  lemma TempIsNotOutput(id: string, name: string, out: string)
    requires FreshId(id)
    requires out == [] || out[0] != '/'
    ensures SavePath(Config.TEMP_DIR, id, name) != PathJoin(Config.OUTPUT_DIR, out)
  {
    JoinApart(Config.TEMP_DIR, Config.OUTPUT_DIR, id + "_" + name, out, 2);
  }

  /** `file.filename.lower().endswith('.pdf')` */
  predicate IsPdfName(filename: string)
  {
    EndsWith(Lower(filename), ".pdf")
  }

  /** `f"/api/v1/core/download/{conversion_id}"` */
  function DownloadUrl(cid: string): (r: string)
    ensures StartsWith(r, "/api/v1/core/download/") && r[|"/api/v1/core/download/"|..] == cid
  {
    "/api/v1/core/download/" + cid
  }

  /** `os.path.join(settings.OUTPUT_DIR, name)` */
  function OutputPath(name: string): Path
  {
    PathJoin(Config.OUTPUT_DIR, name)
  }

  /** The answer of a completed conversion: status completed, progress 100, and the
      download link of the conversion. */
  function CompletedResponse(message: string, cid: string, info: Option<FileInfo>): (r: ConversionResponse)
    ensures r.success && r.status == ConversionStatus.Completed && r.progress == 100
    ensures r.conversionId == cid && r.downloadUrl == Some(DownloadUrl(cid))
  {
    ConversionResponse(true, message, cid, ConversionStatus.Completed, 100, Some(DownloadUrl(cid)), info)
  }

  /** The quality check of the image and video compress handlers. */
  function QualityCheck(quality: int): (r: Option<string>)
    ensures r.None? <==> 10 <= quality <= 100
  {
    if !(10 <= quality <= 100) then Some("Quality must be between 10 and 100") else None
  }

  /** The time checks of the video and audio trim handlers, in order. */
  function TrimCheck(start: real, end: Option<real>): (r: Option<string>)
    ensures r.None? <==> start >= 0.0 && (end.Some? ==> end.value > start)
    ensures start < 0.0 ==> r == Some("Start time cannot be negative")
  {
    if start < 0.0 then Some("Start time cannot be negative")
    else if end.Some? && end.value <= start then Some("End time must be greater than start time")
    else None
  }

  /** `os.path.splitext(file.filename)[1]` */
  function Ext(filename: string): string
  {
    SplitExt(filename).1
  }

  /** The output of a conversion that keeps the upload's type: `{op}_{cid}{ext}`, with the
      extension's dot, reported with the extension without its dot as format and in the
      MIME type `{kind}/{format}`. */
  function SameTypeInfo(kind: string, op: string, cid: string, filename: string, size: nat): (r: FileInfo)
    ensures r.filename == op + "_" + cid + Ext(filename)
    ensures r.format == ExtNoDot(filename) && r.mimeType == kind + "/" + ExtNoDot(filename)
    ensures r.size == size
  {
    FileInfo(op + "_" + cid + Ext(filename), size, ExtNoDot(filename), kind + "/" + ExtNoDot(filename))
  }

  /** The disk once the upload has been saved to `input` and the service has written
      `made` to `out` and removed the input. */
  function Produced(fs: Fs, input: Path, content: Bytes, out: Path, made: Bytes): (r: Fs)
    ensures input != out ==> out in r.files && r.files[out].data == made
    ensures input !in r.files
    ensures r.dirs == fs.dirs && r.clock == fs.clock
  {
    fs.(files := fs.files[input := File(content, fs.clock)][out := File(made, fs.clock)] - {input})
  }

  /** The paths the save loop writes, one per upload, in upload order. */
  function SavePaths(dir: Path, ids: seq<string>, files: seq<UploadFile>): (r: seq<Path>)
    requires |ids| == |files| && forall i :: 0 <= i < |ids| ==> FreshId(ids[i])
    ensures |r| == |files|
    ensures forall i :: 0 <= i < |r| ==> r[i] == SavePath(dir, ids[i], files[i].filename)
  {
    seq(|files|, i requires 0 <= i < |files| => SavePath(dir, ids[i], files[i].filename))
  }

  /** Distinct fresh ids give distinct save paths. */
  lemma SavePathsDistinct(dir: Path, ids: seq<string>, files: seq<UploadFile>)
    requires |ids| == |files| && forall i :: 0 <= i < |ids| ==> FreshId(ids[i])
    requires forall j, k :: 0 <= j < k < |ids| ==> ids[j] != ids[k]
    ensures forall j, k :: 0 <= j < k < |ids| ==> SavePaths(dir, ids, files)[j] != SavePaths(dir, ids, files)[k]
  {
    forall j, k | 0 <= j < k < |ids|
      ensures SavePaths(dir, ids, files)[j] != SavePaths(dir, ids, files)[k]
    {
      SavePathApart(dir, ids[j], files[j].filename, ids[k], files[k].filename);
    }
  }

  /** The bytes of each upload, in upload order. */
  function Contents(files: seq<UploadFile>): (r: seq<Bytes>)
    ensures |r| == |files| && forall i :: 0 <= i < |r| ==> r[i] == files[i].content
  {
    seq(|files|, i requires 0 <= i < |files| => files[i].content)
  }

  /** The disk after the save loop over the uploads completed. */
  function Saved(fs: Fs, paths: seq<Path>, files: seq<UploadFile>): Fs
    requires |paths| == |files|
  {
    Written(fs, paths, Contents(files))
  }

  /** `f"{((original - compressed) / original) * 100:.1f}"`, rounded to the nearest tenth
      in exact arithmetic (a tie rounds up); None stands for the ZeroDivisionError. */
  function RatioText(original: nat, compressed: nat): (r: Option<string>)
    ensures r.None? <==> original == 0
  {
    if original == 0 then None
    else
      var tenths := (2000 * (original - compressed) + original) / (2 * original);
      var mag: nat := if tenths < 0 then -tenths else tenths;
      Some((if tenths < 0 then "-" else "") + NatToString(mag / 10) + "." + NatToString(mag % 10))
  }
}
