// The request and response records of the API: the format and status enums,
// FileInfo, ConversionResponse and ConversionProgress, the bounded quality
// fields of the request models, and UserResponse.
module Schemas {
  import opened Wrappers
  import opened Strings
  import opened Http
  import Config

  /** ConversionStatus(str, Enum) */
  datatype ConversionStatus = Pending | Processing | Completed | Failed

  function StatusValue(s: ConversionStatus): string
  {
    match s
    case Pending => "pending"
    case Processing => "processing"
    case Completed => "completed"
    case Failed => "failed"
  }

  /** ConversionStatus(v): the member whose value is v; None stands for the ValueError. */
  function ParseStatus(v: string): (r: Option<ConversionStatus>)
    ensures r.Some? <==> v == "pending" || v == "processing" || v == "completed" || v == "failed"
    ensures r.Some? ==> StatusValue(r.value) == v
  {
    if v == "pending" then Some(Pending)
    else if v == "processing" then Some(Processing)
    else if v == "completed" then Some(Completed)
    else if v == "failed" then Some(Failed)
    else None
  }

  /** Every status survives the trip through its string value, and no two share one. */
  lemma StatusRoundTrip(s: ConversionStatus, t: ConversionStatus)
    ensures ParseStatus(StatusValue(s)) == Some(s)
    ensures StatusValue(s) == StatusValue(t) ==> s == t
  {
  }

  /** FileFormat(str, Enum) */
  datatype FileFormat =
    | PDF
    | JPG | JPEG | PNG | WEBP | BMP | TIFF | HEIC
    | MP3 | WAV | FLAC | AAC | OGG | M4A
    | MP4 | WEBM | AVI | MOV | MKV | FLV
    | DOCX | XLSX | PPTX

  datatype FormatGroup = PdfGroup | ImageGroup | AudioGroup | VideoGroup | OfficeGroup

  function FormatValue(f: FileFormat): string
  {
    match f
    case PDF => "pdf"
    case JPG => "jpg"
    case JPEG => "jpeg"
    case PNG => "png"
    case WEBP => "webp"
    case BMP => "bmp"
    case TIFF => "tiff"
    case HEIC => "heic"
    case MP3 => "mp3"
    case WAV => "wav"
    case FLAC => "flac"
    case AAC => "aac"
    case OGG => "ogg"
    case M4A => "m4a"
    case MP4 => "mp4"
    case WEBM => "webm"
    case AVI => "avi"
    case MOV => "mov"
    case MKV => "mkv"
    case FLV => "flv"
    case DOCX => "docx"
    case XLSX => "xlsx"
    case PPTX => "pptx"
  }

  /** The comment group each member is declared under. */
  function GroupOf(f: FileFormat): FormatGroup
  {
    match f
    case PDF => PdfGroup
    case JPG | JPEG | PNG | WEBP | BMP | TIFF | HEIC => ImageGroup
    case MP3 | WAV | FLAC | AAC | OGG | M4A => AudioGroup
    case MP4 | WEBM | AVI | MOV | MKV | FLV => VideoGroup
    case DOCX | XLSX | PPTX => OfficeGroup
  }

  /** FileFormat(v): the member whose value is v; None stands for the ValueError.
      The candidates are grouped by their first letter. */
  function ParseFormat(v: string): (r: Option<FileFormat>)
  {
    if v == [] then None
    else match v[0]
      case 'p' => if v == "pdf" then Some(PDF) else if v == "png" then Some(PNG) else if v == "pptx" then Some(PPTX) else None
      case 'j' => if v == "jpg" then Some(JPG) else if v == "jpeg" then Some(JPEG) else None
      case 'w' => if v == "webp" then Some(WEBP) else if v == "wav" then Some(WAV) else if v == "webm" then Some(WEBM) else None
      case 'b' => if v == "bmp" then Some(BMP) else None
      case 't' => if v == "tiff" then Some(TIFF) else None
      case 'h' => if v == "heic" then Some(HEIC) else None
      case 'm' => if v == "mp3" then Some(MP3) else if v == "m4a" then Some(M4A) else if v == "mp4" then Some(MP4) else if v == "mov" then Some(MOV) else if v == "mkv" then Some(MKV) else None
      case 'f' => if v == "flac" then Some(FLAC) else if v == "flv" then Some(FLV) else None
      case 'a' => if v == "aac" then Some(AAC) else if v == "avi" then Some(AVI) else None
      case 'o' => if v == "ogg" then Some(OGG) else None
      case 'd' => if v == "docx" then Some(DOCX) else None
      case 'x' => if v == "xlsx" then Some(XLSX) else None
      case _ => None
  }

  /** Every member's value is lower-case and leads back to the member, so no two members
      share a value. */
  lemma FormatRoundTrip(f: FileFormat)
    ensures Lower(FormatValue(f)) == FormatValue(f)
    ensures ParseFormat(FormatValue(f)) == Some(f)
  {
    match f {
      case PDF =>
      case JPG =>
      case JPEG =>
      case PNG =>
      case WEBP =>
      case BMP =>
      case TIFF =>
      case HEIC =>
      case MP3 =>
      case WAV =>
      case FLAC =>
      case AAC =>
      case OGG =>
      case M4A =>
      case MP4 =>
      case WEBM =>
      case AVI =>
      case MOV =>
      case MKV =>
      case FLV =>
      case DOCX =>
      case XLSX =>
      case PPTX =>
    }
  }

  /** A member found for v has v as its value. */
  lemma ParseFormatSound(v: string)
    ensures ParseFormat(v).Some? ==> FormatValue(ParseFormat(v).value) == v
  {
  }

  lemma FormatValuesDistinct(f: FileFormat, g: FileFormat)
    ensures FormatValue(f) == FormatValue(g) ==> f == g
  {
    FormatRoundTrip(f);
    FormatRoundTrip(g);
  }

  /** The pdf group has exactly the values of the supported pdf formats. */
  lemma PdfGroupIsSupported(f: FileFormat)
    ensures FormatValue(f) in Config.SUPPORTED_PDF_FORMATS <==> GroupOf(f) == PdfGroup
  {
    match f {
      case PDF =>
      case JPG =>
      case JPEG =>
      case PNG =>
      case WEBP =>
      case BMP =>
      case TIFF =>
      case HEIC =>
      case MP3 =>
      case WAV =>
      case FLAC =>
      case AAC =>
      case OGG =>
      case M4A =>
      case MP4 =>
      case WEBM =>
      case AVI =>
      case MOV =>
      case MKV =>
      case FLV =>
      case DOCX =>
      case XLSX =>
      case PPTX =>
    }
  }

  /** The image group has exactly the values of the supported image formats. */
  lemma ImageGroupIsSupported(f: FileFormat)
    ensures FormatValue(f) in Config.SUPPORTED_IMAGE_FORMATS <==> GroupOf(f) == ImageGroup
  {
    match f {
      case PDF =>
      case JPG =>
      case JPEG =>
      case PNG =>
      case WEBP =>
      case BMP =>
      case TIFF =>
      case HEIC =>
      case MP3 =>
      case WAV =>
      case FLAC =>
      case AAC =>
      case OGG =>
      case M4A =>
      case MP4 =>
      case WEBM =>
      case AVI =>
      case MOV =>
      case MKV =>
      case FLV =>
      case DOCX =>
      case XLSX =>
      case PPTX =>
    }
  }

  /** The audio group has exactly the values of the supported audio formats. */
  lemma AudioGroupIsSupported(f: FileFormat)
    ensures FormatValue(f) in Config.SUPPORTED_AUDIO_FORMATS <==> GroupOf(f) == AudioGroup
  {
    match f {
      case PDF =>
      case JPG =>
      case JPEG =>
      case PNG =>
      case WEBP =>
      case BMP =>
      case TIFF =>
      case HEIC =>
      case MP3 =>
      case WAV =>
      case FLAC =>
      case AAC =>
      case OGG =>
      case M4A =>
      case MP4 =>
      case WEBM =>
      case AVI =>
      case MOV =>
      case MKV =>
      case FLV =>
      case DOCX =>
      case XLSX =>
      case PPTX =>
    }
  }

  /** The video group has exactly the values of the supported video formats. */
  lemma VideoGroupIsSupported(f: FileFormat)
    ensures FormatValue(f) in Config.SUPPORTED_VIDEO_FORMATS <==> GroupOf(f) == VideoGroup
  {
    match f {
      case PDF =>
      case JPG =>
      case JPEG =>
      case PNG =>
      case WEBP =>
      case BMP =>
      case TIFF =>
      case HEIC =>
      case MP3 =>
      case WAV =>
      case FLAC =>
      case AAC =>
      case OGG =>
      case M4A =>
      case MP4 =>
      case WEBM =>
      case AVI =>
      case MOV =>
      case MKV =>
      case FLV =>
      case DOCX =>
      case XLSX =>
      case PPTX =>
    }
  }

  /** validate_file accepts exactly the values of the non-office members. */
  lemma AllFormatsAreNonOffice(f: FileFormat)
    ensures FormatValue(f) in Config.ALL_FORMATS <==> GroupOf(f) != OfficeGroup
  {
    var v := FormatValue(f);
    assert v in Config.ALL_FORMATS <==>
      v in Config.SUPPORTED_PDF_FORMATS || v in Config.SUPPORTED_IMAGE_FORMATS
      || v in Config.SUPPORTED_AUDIO_FORMATS || v in Config.SUPPORTED_VIDEO_FORMATS;
    PdfGroupIsSupported(f);
    ImageGroupIsSupported(f);
    AudioGroupIsSupported(f);
    VideoGroupIsSupported(f);
  }

  /** FileInfo: every field is required; size is an integer. */
  datatype FileInfo = FileInfo(filename: string, size: int, format: string, mimeType: string)

  /** BaseResponse, UploadResponse and UsageStats; every BaseResponse timestamp is the
      clock and is left out, and so is the floating-point disk usage of UsageStats. */
  datatype BaseResponse = BaseResponse(success: bool, message: string)

  datatype UploadResponse = UploadResponse(success: bool, message: string, fileId: string, fileInfo: FileInfo)

  datatype UsageStats = UsageStats(totalConversions: nat, totalFilesProcessed: nat, activeConversions: nat)

  /** ConversionResponse (its BaseResponse timestamp is the clock and is left out). */
  datatype ConversionResponse = ConversionResponse(
    success: bool,
    message: string,
    conversionId: string,
    status: ConversionStatus,
    progress: int,
    downloadUrl: Option<string>,
    fileInfo: Option<FileInfo>)

  /** ConversionResponse(...) with the model's defaults: progress 0, no download URL and
      no file info unless given. */
  function NewConversionResponse(success: bool, message: string, conversionId: string,
                                 status: ConversionStatus, progress: int := 0,
                                 downloadUrl: Option<string> := None,
                                 fileInfo: Option<FileInfo> := None): ConversionResponse
  {
    ConversionResponse(success, message, conversionId, status, progress, downloadUrl, fileInfo)
  }

  /** A response built without the optional arguments reports progress 0 and carries
      neither a download URL nor file info. */
  lemma ConversionResponseDefaults(success: bool, message: string, cid: string, status: ConversionStatus)
    ensures var r := NewConversionResponse(success, message, cid, status);
      r.progress == 0 && r.downloadUrl.None? && r.fileInfo.None? && r.conversionId == cid
  {
  }

  /** ConversionProgress */
  datatype ConversionProgress = ConversionProgress(
    conversionId: string,
    status: ConversionStatus,
    progress: int,
    message: string,
    estimatedCompletion: Option<int>)

  /** How a request field arrives: left out (the default applies) or given. */
  datatype FieldInput<T> = Omitted | Given(value: T)

  predicate InQualityRange(q: int)
  {
    10 <= q <= 100
  }

  datatype PdfCompressRequest = PdfCompressRequest(fileId: string, quality: int)

  /** PDFCompressRequest: quality defaults to 80 and must lie in 10..100. */
  function NewPdfCompressRequest(fileId: string, quality: FieldInput<int>): (r: Result<PdfCompressRequest, Exc>)
    ensures r.Success? <==> quality.Omitted? || InQualityRange(quality.value)
    ensures r.Success? ==> InQualityRange(r.value.quality) && r.value.fileId == fileId
    ensures quality.Omitted? ==> r.Success? && r.value.quality == 80
    ensures quality.Given? && r.Success? ==> r.value.quality == quality.value
    ensures r.Failure? ==> r.error == Invalid("PDFCompressRequest", ["quality"])
  {
    match quality
    case Omitted => Success(PdfCompressRequest(fileId, 80))
    case Given(q) =>
      if InQualityRange(q) then Success(PdfCompressRequest(fileId, q))
      else Failure(Invalid("PDFCompressRequest", ["quality"]))
  }

  datatype VideoCompressRequest = VideoCompressRequest(fileId: string, targetSizeMb: Option<int>, quality: int)

  /** VideoCompressRequest: target_size_mb is optional, quality defaults to 75 and must lie
      in 10..100. */
  function NewVideoCompressRequest(fileId: string, targetSizeMb: FieldInput<Option<int>>,
                                   quality: FieldInput<int>): (r: Result<VideoCompressRequest, Exc>)
    ensures r.Success? <==> quality.Omitted? || InQualityRange(quality.value)
    ensures r.Success? ==> InQualityRange(r.value.quality)
    ensures quality.Omitted? ==> r.Success? && r.value.quality == 75
    ensures quality.Given? && r.Success? ==> r.value.quality == quality.value
    ensures r.Success? ==> r.value.targetSizeMb == if targetSizeMb.Given? then targetSizeMb.value else None
  {
    var size := if targetSizeMb.Given? then targetSizeMb.value else None;
    match quality
    case Omitted => Success(VideoCompressRequest(fileId, size, 75))
    case Given(q) =>
      if InQualityRange(q) then Success(VideoCompressRequest(fileId, size, q))
      else Failure(Invalid("VideoCompressRequest", ["quality"]))
  }

  datatype ImageConvertRequest = ImageConvertRequest(fileId: string, targetFormat: string, quality: Option<int>)

  /** ImageConvertRequest: quality is Optional[int] with default 95; an explicit null is
      accepted, and a given number must lie in 10..100. */
  function NewImageConvertRequest(fileId: string, targetFormat: string,
                                  quality: FieldInput<Option<int>>): (r: Result<ImageConvertRequest, Exc>)
    ensures r.Success? <==> quality.Omitted? || quality.value.None? || InQualityRange(quality.value.value)
    ensures r.Success? && r.value.quality.Some? ==> InQualityRange(r.value.quality.value)
    ensures quality.Omitted? ==> r.Success? && r.value.quality == Some(95)
    ensures quality.Given? && r.Success? ==> r.value.quality == quality.value
  {
    match quality
    case Omitted => Success(ImageConvertRequest(fileId, targetFormat, Some(95)))
    case Given(None) => Success(ImageConvertRequest(fileId, targetFormat, None))
    case Given(Some(q)) =>
      if InQualityRange(q) then Success(ImageConvertRequest(fileId, targetFormat, Some(q)))
      else Failure(Invalid("ImageConvertRequest", ["quality"]))
  }

  /** UserResponse: id, email, is_active and created_at are required; created_at is a
      timestamp. */
  datatype UserResponse = UserResponse(id: string, email: string, fullName: Option<string>,
                                       isActive: bool, createdAt: int)

  /** The fields of a UserResponse(...) call that fail validation, in declaration order. */
  function UserResponseErrors(id: Option<string>, email: Option<string>, createdAt: Option<int>): (r: seq<string>)
    ensures createdAt.None? ==> |r| > 0 && r[|r| - 1] == "created_at"
    ensures r == [] <==> id.Some? && email.Some? && createdAt.Some?
  {
    (if id.None? then ["id"] else []) + (if email.None? then ["email"] else [])
    + (if createdAt.None? then ["created_at"] else [])
  }

  /** UserResponse(...): a None in a required field is a validation error naming it. */
  function NewUserResponse(id: Option<string>, email: Option<string>, fullName: Option<string>,
                           isActive: bool, createdAt: Option<int>): (r: Result<UserResponse, Exc>)
    ensures r.Success? <==> id.Some? && email.Some? && createdAt.Some?
    ensures r.Success? ==> r.value == UserResponse(id.value, email.value, fullName, isActive, createdAt.value)
    ensures createdAt.None? ==> r.Failure? && r.error.Invalid? && "created_at" in r.error.fields
  {
    var errors := UserResponseErrors(id, email, createdAt);
    if errors == [] then Success(UserResponse(id.value, email.value, fullName, isActive, createdAt.value))
    else Failure(Invalid("UserResponse", errors))
  }
}
