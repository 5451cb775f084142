// The application's file settings: the upload size limit, the three working
// directories and the supported format lists.
module Config {

  const MAX_FILE_SIZE: nat := 100 * 1024 * 1024

  const UPLOAD_DIR: string := "./uploads"
  const OUTPUT_DIR: string := "./outputs"
  const TEMP_DIR: string := "./temp"

  const SUPPORTED_PDF_FORMATS: seq<string> := ["pdf"]
  const SUPPORTED_IMAGE_FORMATS: seq<string> := ["jpg", "jpeg", "png", "webp", "bmp", "tiff", "heic"]
  const SUPPORTED_AUDIO_FORMATS: seq<string> := ["mp3", "wav", "flac", "aac", "ogg", "m4a"]
  const SUPPORTED_VIDEO_FORMATS: seq<string> := ["mp4", "webm", "avi", "mov", "mkv", "flv"]

  /** The union validate_file checks an extension against. */
  const ALL_FORMATS: seq<string> :=
    SUPPORTED_PDF_FORMATS + SUPPORTED_IMAGE_FORMATS + SUPPORTED_AUDIO_FORMATS + SUPPORTED_VIDEO_FORMATS
}
