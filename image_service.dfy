// ImageService (app/services/image_service.py).  Pillow, OpenCV and rembg are
// parameters: a picture is the size and mode Pillow reports plus the edits applied to
// it, and what ends up on disk is whatever the library's encoder makes of that.  The
// repository's own part is the arithmetic on sizes and positions, the choice of save
// options, and the order in which files are written and removed.
module ImageService {
  import opened Wrappers
  import opened Strings
  import opened Http
  import opened FileSystem

  /** What Image.open reports about a file. */
  datatype Header = Header(width: nat, height: nat, mode: string)

  /** (left, upper, right, lower) */
  datatype Box = Box(left: int, top: int, right: int, bottom: int)

  /** White text drawn onto a transparent layer at (x, y), with the alpha of its fill. */
  datatype Mark = Mark(text: string, x: int, y: int, alpha: int)

  /** A picture in memory: the opened file and every edit applied since. */
  datatype Picture =
    | Opened(data: Bytes, header: Header)
    | Resized(src: Picture, w: int, h: int)   // img.resize((w, h), LANCZOS)
    | Cropped(src: Picture, box: Box)         // img.crop(box)
    | AsRgb(src: Picture)                     // img.convert('RGB')
    | AsRgba(src: Picture)                    // img.convert('RGBA')
    | Marked(src: Picture, mark: Mark)        // Image.alpha_composite(img, watermark)

  /** The size of a picture.  Crop and Resize below build only boxes and sizes Pillow
      accepts, so no side is negative. */
  function Width(p: Picture): nat
  {
    match p
    case Opened(_, h) => h.width
    case Resized(_, w, _) => if w < 0 then 0 else w
    case Cropped(_, b) => if b.right < b.left then 0 else b.right - b.left
    case AsRgb(src) => Width(src)
    case AsRgba(src) => Width(src)
    case Marked(src, _) => Width(src)
  }

  function Height(p: Picture): nat
  {
    match p
    case Opened(_, h) => h.height
    case Resized(_, _, h) => if h < 0 then 0 else h
    case Cropped(_, b) => if b.bottom < b.top then 0 else b.bottom - b.top
    case AsRgb(src) => Height(src)
    case AsRgba(src) => Height(src)
    case Marked(src, _) => Height(src)
  }

  function Mode(p: Picture): string
  {
    match p
    case Opened(_, h) => h.mode
    case AsRgb(_) => "RGB"
    case AsRgba(_) => "RGBA"
    case Resized(src, _, _) => Mode(src)
    case Cropped(src, _) => Mode(src)
    case Marked(src, _) => Mode(src)
  }

  /** How `img.save` picks the encoder: an explicit format name, or the extension of the
      output path. */
  datatype Target = Named(format: string) | ByExtension(ext: string)

  /** The keyword arguments of `img.save`. */
  datatype SaveOptions = SaveOptions(quality: Option<int>, optimize: bool)

  /** The image libraries, as functions on bytes.  None stands for the library raising. */
  datatype ImageLib = ImageLib(
    open: Bytes -> Option<Header>,                        // Image.open(path)
    save: (Picture, Target, SaveOptions) -> Option<Bytes>,  // img.save(path, ...)
    session: Option<Bytes -> Option<Bytes>>,              // rembg remove(data, session); None: new_session failed
    grabCut: Bytes -> Option<Bytes>,                      // cv2 imread + grabCut + alpha mask, as PNG bytes
    textBox: (string, Option<nat>) -> (int, int),         // draw.textbbox width and height; None: the default font
    hasArial: bool)                                       // ImageFont.truetype("arial.ttf") succeeds

  /** `Image.open(path)` on the bytes of a file. */
  function Open(lib: ImageLib, data: Bytes): (r: Option<Picture>)
    ensures r.Some? <==> lib.open(data).Some?
    ensures r.Some? ==> Width(r.value) == lib.open(data).value.width && Height(r.value) == lib.open(data).value.height
  {
    match lib.open(data)
    case None => None
    case Some(h) => Some(Opened(data, h))
  }

  /** `int(a / b)`: the exact quotient truncated toward zero. */
  function Trunc(a: int, b: int): (q: int)
    requires b != 0
    ensures a >= 0 && b > 0 ==> q * b <= a < q * b + b
  {
    var m := (if a < 0 then -a else a) / (if b < 0 then -b else b);
    if (a < 0) == (b < 0) then m else -m
  }

  /** An Optional[int] in an `if`: None and 0 are false. */
  predicate Truthy(o: Option<int>)
  {
    o.Some? && o.value != 0
  }

  /** Pillow refuses to resize to a side below one pixel. */
  function Resize(p: Picture, w: int, h: int): (r: Option<Picture>)
    ensures r.Some? <==> w >= 1 && h >= 1
    ensures r.Some? ==> Width(r.value) == w && Height(r.value) == h
  {
    if w < 1 || h < 1 then None else Some(Resized(p, w, h))
  }

  // ---------------------------------------------------------------- resize

  /** The size resize_image asks Pillow for, in exact arithmetic.  None stands for a
      ZeroDivisionError on an empty image, or for a side that is still None. */
  function ResizeTarget(ow: nat, oh: nat, width: Option<int>, height: Option<int>, keep: bool): (r: Option<(int, int)>)
  {
    if keep && Truthy(width) && !Truthy(height) then
      if ow == 0 then None else Some((width.value, Trunc(oh * width.value, ow)))
    else if keep && Truthy(height) && !Truthy(width) then
      if oh == 0 then None else Some((Trunc(ow * height.value, oh), height.value))
    else if keep && Truthy(width) && Truthy(height) then
      if ow == 0 || oh == 0 then None
      // min(width / ow, height / oh) keeps the first ratio unless the second is smaller;
      // for positive sizes h / oh < w / ow is h * ow < w * oh.
      else if height.value * ow < width.value * oh then
        Some((Trunc(ow * height.value, oh), height.value))
      else
        Some((width.value, Trunc(oh * width.value, ow)))
    else if width.Some? && height.Some? then Some((width.value, height.value))
    else None
  }

  /** A quotient of non-negative numbers is bounded by the bound of the dividend. */
  lemma TruncMonotone(a: int, b: int, c: int)
    requires 0 <= a <= b * c && c > 0
    ensures 0 <= Trunc(a, c) <= b
  {
    var q := a / c;
    assert Trunc(a, c) == q;
    assert q * c + a % c == a;
    assert q * c <= a;
    if q < 0 {
      MulLe(q, -1, c);
    }
    assert (b + 1) * c == b * c + c;
    if q > b {
      MulLe(b + 1, q, c);
    }
  }

  lemma MulLe(x: int, y: int, c: int)
    requires x <= y && c >= 0
    ensures x * c <= y * c
  {
    var d := y - x;
    assert y * c == x * c + d * c;
  }

  /** Only the width given: the height follows the aspect ratio, rounded down. */
  lemma ResizeByWidth(ow: nat, oh: nat, w: int, keep: bool)
    requires ow > 0 && oh > 0 && w > 0 && keep
    ensures var r := ResizeTarget(ow, oh, Some(w), None, keep);
      r.Some? && r.value.0 == w && r.value.1 * ow <= oh * w < (r.value.1 + 1) * ow
  {
  }

  /** Only the height given: the width follows the aspect ratio, rounded down. */
  lemma ResizeByHeight(ow: nat, oh: nat, h: int, keep: bool)
    requires ow > 0 && oh > 0 && h > 0 && keep
    ensures var r := ResizeTarget(ow, oh, None, Some(h), keep);
      r.Some? && r.value.1 == h && r.value.0 * oh <= ow * h < (r.value.0 + 1) * oh
  {
  }

  /** Both sides given with the aspect kept: one ratio scales both, so the result fits
      within width x height and touches one of the two bounds. */
  lemma ResizeFits(ow: nat, oh: nat, w: int, h: int)
    requires ow > 0 && oh > 0 && w > 0 && h > 0
    ensures var r := ResizeTarget(ow, oh, Some(w), Some(h), true);
      r.Some? && 0 <= r.value.0 <= w && 0 <= r.value.1 <= h && (r.value.0 == w || r.value.1 == h)
  {
    if h * ow < w * oh {
      assert ow * h <= w * oh;
      TruncMonotone(ow * h, w, oh);
    } else {
      assert oh * w <= h * ow;
      TruncMonotone(oh * w, h, ow);
    }
  }

  /** Without aspect preservation the sides pass through; a missing one fails the call. */
  lemma ResizeVerbatim(ow: nat, oh: nat, width: Option<int>, height: Option<int>)
    ensures ResizeTarget(ow, oh, width, height, false).Some? <==> width.Some? && height.Some?
    ensures width.Some? && height.Some? ==> ResizeTarget(ow, oh, width, height, false) == Some((width.value, height.value))
  {
  }

  /** The bytes resize_image saves for a file. */
  function ResizedBytes(lib: ImageLib, data: Bytes, ext: string, width: Option<int>, height: Option<int>, keep: bool): Option<Bytes>
  {
    var img :- Open(lib, data);
    var size :- ResizeTarget(Width(img), Height(img), width, height, keep);
    var resized :- Resize(img, size.0, size.1);
    lib.save(resized, ByExtension(ext), SaveOptions(None, false))
  }

  // ---------------------------------------------------------------- crop

  /** `crop_box = (x, y, x + width, y + height)` */
  function CropBox(x: int, y: int, width: int, height: int): (b: Box)
    ensures b.left == x && b.top == y && b.right - b.left == width && b.bottom - b.top == height
  {
    Box(x, y, x + width, y + height)
  }

  /** img.crop(box): Pillow refuses a box whose right edge lies left of its left edge, or
      whose lower edge lies above its upper edge; a box reaching past the picture is
      filled in. */
  function Crop(p: Picture, box: Box): (r: Option<Picture>)
    ensures r.Some? <==> box.left <= box.right && box.top <= box.bottom
    ensures r.Some? ==> Width(r.value) == box.right - box.left && Height(r.value) == box.bottom - box.top
  {
    if box.right < box.left || box.bottom < box.top then None else Some(Cropped(p, box))
  }

  /** A positive width and height give a picture of exactly that size. */
  lemma CropSize(p: Picture, x: int, y: int, width: int, height: int)
    requires width > 0 && height > 0
    ensures var r := Crop(p, CropBox(x, y, width, height));
      r.Some? && Width(r.value) == width && Height(r.value) == height
  {
  }

  function CroppedBytes(lib: ImageLib, data: Bytes, ext: string, x: int, y: int, width: int, height: int): Option<Bytes>
  {
    var img :- Open(lib, data);
    var cropped :- Crop(img, CropBox(x, y, width, height));
    lib.save(cropped, ByExtension(ext), SaveOptions(None, false))
  }

  // ---------------------------------------------------------------- convert

  /** A target format JPEG cannot store an alpha channel or a palette in. */
  predicate IsJpegName(fmt: string)
  {
    fmt == "jpg" || fmt == "jpeg"
  }

  /** The keyword arguments convert_image passes to save. */
  function ConvertOptions(fmt: string, quality: int): (o: SaveOptions)
    ensures o.quality.Some? <==> IsJpegName(Lower(fmt)) || Lower(fmt) == "webp"
    ensures o.quality.Some? ==> o.quality.value == quality
    ensures o.optimize <==> IsJpegName(Lower(fmt)) || Lower(fmt) == "png" || Lower(fmt) == "webp"
  {
    var f := Lower(fmt);
    if IsJpegName(f) then SaveOptions(Some(quality), true)
    else if f == "png" then SaveOptions(None, true)
    else if f == "webp" then SaveOptions(Some(quality), true)
    else SaveOptions(None, false)
  }

  /** `img.convert('RGB')` when JPEG output meets an RGBA or palette image. */
  function ForJpeg(img: Picture, jpeg: bool): (r: Picture)
    ensures Width(r) == Width(img) && Height(r) == Height(img)
    ensures jpeg && (Mode(img) == "RGBA" || Mode(img) == "P") ==> Mode(r) == "RGB"
    ensures !(jpeg && (Mode(img) == "RGBA" || Mode(img) == "P")) ==> r == img
  {
    if jpeg && (Mode(img) == "RGBA" || Mode(img) == "P") then AsRgb(img) else img
  }

  function ConvertedBytes(lib: ImageLib, data: Bytes, fmt: string, quality: int): Option<Bytes>
  {
    var img :- Open(lib, data);
    lib.save(ForJpeg(img, IsJpegName(Lower(fmt))), Named(Upper(fmt)), ConvertOptions(fmt, quality))
  }

  // ---------------------------------------------------------------- compress

  /** compress_image's width cap: a wider picture is narrowed to max_width, its height
      scaled down with it.  None stands for a ZeroDivisionError or a resize Pillow refuses. */
  function Narrowed(img: Picture, maxWidth: Option<int>): (r: Option<Picture>)
  {
    if Truthy(maxWidth) && Width(img) > maxWidth.value then
      if Width(img) == 0 then None
      else Resize(img, maxWidth.value, Trunc(Height(img) * maxWidth.value, Width(img)))
    else Some(img)
  }

  /** The height cap, applied to the picture the width cap left. */
  function Lowered(img: Picture, maxHeight: Option<int>): (r: Option<Picture>)
  {
    if Truthy(maxHeight) && Height(img) > maxHeight.value then
      if Height(img) == 0 then None
      else Resize(img, Trunc(Width(img) * maxHeight.value, Height(img)), maxHeight.value)
    else Some(img)
  }

  /** Both caps, width first.  (With neither limit given, the service skips the block;
      both steps then leave the picture alone anyway.) */
  function Capped(img: Picture, maxWidth: Option<int>, maxHeight: Option<int>): (r: Option<Picture>)
  {
    var narrowed :- Narrowed(img, maxWidth);
    Lowered(narrowed, maxHeight)
  }

  /** Capping never enlarges, and a successful cap fits within every positive limit. */
  lemma CappedFits(img: Picture, maxWidth: Option<int>, maxHeight: Option<int>)
    requires Width(img) > 0 && Height(img) > 0
    requires maxWidth.Some? ==> maxWidth.value > 0
    requires maxHeight.Some? ==> maxHeight.value > 0
    ensures var r := Capped(img, maxWidth, maxHeight);
      r.Some? ==> && 1 <= Width(r.value) <= Width(img) && 1 <= Height(r.value) <= Height(img)
                  && (maxWidth.Some? ==> Width(r.value) <= maxWidth.value)
                  && (maxHeight.Some? ==> Height(r.value) <= maxHeight.value)
  {
    NarrowedFits(img, maxWidth);
    var n := Narrowed(img, maxWidth);
    if n.Some? {
      LoweredFits(n.value, maxHeight);
    }
  }

  /** The width cap never enlarges and leaves the width within a positive limit. */
  lemma NarrowedFits(img: Picture, maxWidth: Option<int>)
    requires Width(img) > 0 && Height(img) > 0
    requires maxWidth.Some? ==> maxWidth.value > 0
    ensures var r := Narrowed(img, maxWidth);
      r.Some? ==> && 1 <= Width(r.value) <= Width(img) && 1 <= Height(r.value) <= Height(img)
                  && (maxWidth.Some? ==> Width(r.value) <= maxWidth.value)
  {
    if Truthy(maxWidth) && Width(img) > maxWidth.value {
      ScaledDown(Height(img), maxWidth.value, Width(img));
    }
  }

  /** The height cap never enlarges and leaves the height within a positive limit. */
  lemma LoweredFits(img: Picture, maxHeight: Option<int>)
    requires Width(img) > 0 && Height(img) > 0
    requires maxHeight.Some? ==> maxHeight.value > 0
    ensures var r := Lowered(img, maxHeight);
      r.Some? ==> && 1 <= Width(r.value) <= Width(img) && 1 <= Height(r.value) <= Height(img)
                  && (maxHeight.Some? ==> Height(r.value) <= maxHeight.value)
  {
    if Truthy(maxHeight) && Height(img) > maxHeight.value {
      ScaledDown(Width(img), maxHeight.value, Height(img));
    }
  }

  /** A side scaled by limit / side, when the limit is below the side, shrinks. */
  lemma ScaledDown(other: nat, limit: int, side: int)
    requires 0 < limit <= side
    ensures 0 <= Trunc(other * limit, side) <= other
  {
    MulLe(limit, side, other);
    assert other * limit <= other * side;
    TruncMonotone(other * limit, other, side);
  }

  /** A picture already within both limits is left as it is. */
  lemma CappedUntouched(img: Picture, maxWidth: Option<int>, maxHeight: Option<int>)
    requires !Truthy(maxWidth) || Width(img) <= maxWidth.value
    requires !Truthy(maxHeight) || Height(img) <= maxHeight.value
    ensures Capped(img, maxWidth, maxHeight) == Some(img)
  {
  }

  /** 1000 x 2000 capped at 500 x 600: the width cap gives 500 x 1000, and the height
      cap, looking at that, gives 300 x 600. */
  lemma CappedWidthFirst(img: Picture)
    requires Width(img) == 1000 && Height(img) == 2000
    ensures var r := Capped(img, Some(500), Some(600));
      r.Some? && Width(r.value) == 300 && Height(r.value) == 600
  {
    assert Trunc(2000 * 500, 1000) == 1000;
    assert Trunc(500 * 600, 1000) == 300;
  }

  /** The keyword arguments compress_image passes to save, by output extension. */
  function CompressOptions(ext: string, quality: int): (o: SaveOptions)
    ensures o.optimize
    ensures o.quality.Some? <==> ext == ".jpg" || ext == ".jpeg" || ext == ".webp"
  {
    if ext == ".jpg" || ext == ".jpeg" || ext == ".webp" then SaveOptions(Some(quality), true) else SaveOptions(None, true)
  }

  // ---------------------------------------------------------------- watermark

  /** `max(20, img.size[0] // 30)` */
  function FontSize(width: nat): (r: nat)
    ensures r >= 20 && r >= width / 30 && (r == 20 || r == width / 30)
  {
    if width / 30 > 20 then width / 30 else 20
  }

  /** Where the watermark text goes, for a picture of W x H and text of tw x th. */
  function MarkPosition(W: int, H: int, tw: int, th: int, position: string): (r: (int, int))
  {
    var margin := 20;
    if position == "bottom-right" then (W - tw - margin, H - th - margin)
    else if position == "bottom-left" then (margin, H - th - margin)
    else if position == "top-right" then (W - tw - margin, margin)
    else if position == "top-left" then (margin, margin)
    else ((W - tw) / 2, (H - th) / 2)
  }

  /** The named corners keep 20 pixels to the two nearest edges. */
  lemma MarkCorners(W: int, H: int, tw: int, th: int, position: string)
    ensures var (x, y) := MarkPosition(W, H, tw, th, position);
      && (position == "bottom-right" ==> x + tw + 20 == W && y + th + 20 == H)
      && (position == "bottom-left" ==> x == 20 && y + th + 20 == H)
      && (position == "top-right" ==> x + tw + 20 == W && y == 20)
      && (position == "top-left" ==> x == 20 && y == 20)
  {
  }

  /** Any other position string centres the text, rounding toward the top left. */
  lemma MarkCentred(W: int, H: int, tw: int, th: int, position: string)
    requires position !in {"bottom-right", "bottom-left", "top-right", "top-left"}
    ensures var (x, y) := MarkPosition(W, H, tw, th, position);
      2 * x <= W - tw < 2 * x + 2 && 2 * y <= H - th < 2 * y + 2
  {
  }

  /** The text size under the font add_watermark manages to load. */
  function MarkSize(lib: ImageLib, img: Picture, text: string): (int, int)
  {
    lib.textBox(text, if lib.hasArial then Some(FontSize(Width(img))) else None)
  }

  /** The alpha of the text fill: `int(255 * opacity)`, truncated toward zero. */
  function MarkAlpha(opacity: real): (alpha: int)
    ensures 0.0 <= opacity <= 1.0 ==> 0 <= alpha <= 255
    ensures opacity >= 0.0 ==> alpha as real <= 255.0 * opacity < alpha as real + 1.0
  {
    TruncReal(255.0 * opacity)
  }

  /** The default opacity 0.7 fills the text with alpha 178. */
  lemma DefaultAlpha()
    ensures MarkAlpha(0.7) == 178
  {
    assert 255.0 * 0.7 == 178.5;
  }

  function WatermarkedBytes(lib: ImageLib, data: Bytes, output: Path, text: string, position: string, opacity: real): Option<Bytes>
  {
    var img :- Open(lib, data);
    var (tw, th) := MarkSize(lib, img, text);
    var (x, y) := MarkPosition(Width(img), Height(img), tw, th, position);
    var rgba := if Mode(img) != "RGBA" then AsRgba(img) else img;
    var marked := Marked(rgba, Mark(text, x, y, MarkAlpha(opacity)));
    var out := if EndsWith(Lower(output), ".jpg") || EndsWith(Lower(output), ".jpeg") then AsRgb(marked) else marked;
    lib.save(out, ByExtension(Lower(SplitExt(output).1)), SaveOptions(None, false))
  }

  // ---------------------------------------------------------------- the operations

  /** convert_image */
  method ConvertImage(fs: Fs, lib: ImageLib, input: Path, output: Path, fmt: string, quality: int := 95)
    returns (ok: bool, fs': Fs)
    ensures ok <==> input in fs.files && ConvertedBytes(lib, fs.files[input].data, fmt, quality).Some? && Writable(fs, output)
    ensures ok ==> fs' == fs.(files := fs.files[output := File(ConvertedBytes(lib, fs.files[input].data, fmt, quality).value, fs.clock)] - {input})
    ensures !ok ==> fs' == fs
  {
    ok, fs' := Produce(fs, input, output, data => ConvertedBytes(lib, data, fmt, quality));
  }

  /** resize_image */
  method ResizeImage(fs: Fs, lib: ImageLib, input: Path, output: Path, width: Option<int>, height: Option<int>, keep: bool := true)
    returns (ok: bool, fs': Fs)
    ensures var ext := Lower(SplitExt(output).1);
      ok <==> input in fs.files && ResizedBytes(lib, fs.files[input].data, ext, width, height, keep).Some? && Writable(fs, output)
    ensures ok ==> fs' == fs.(files := fs.files[output := File(ResizedBytes(lib, fs.files[input].data, Lower(SplitExt(output).1), width, height, keep).value, fs.clock)] - {input})
    ensures !ok ==> fs' == fs
  {
    var ext := Lower(SplitExt(output).1);
    ok, fs' := Produce(fs, input, output, data => ResizedBytes(lib, data, ext, width, height, keep));
  }

  /** crop_image */
  method CropImage(fs: Fs, lib: ImageLib, input: Path, output: Path, x: int, y: int, width: int, height: int)
    returns (ok: bool, fs': Fs)
    ensures var ext := Lower(SplitExt(output).1);
      ok <==> input in fs.files && CroppedBytes(lib, fs.files[input].data, ext, x, y, width, height).Some? && Writable(fs, output)
    ensures ok ==> fs' == fs.(files := fs.files[output := File(CroppedBytes(lib, fs.files[input].data, Lower(SplitExt(output).1), x, y, width, height).value, fs.clock)] - {input})
    ensures !ok ==> fs' == fs
  {
    var ext := Lower(SplitExt(output).1);
    ok, fs' := Produce(fs, input, output, data => CroppedBytes(lib, data, ext, x, y, width, height));
  }

  /** What compress_image saves: the capped picture, in RGB for JPEG output. */
  function CompressedOutput(lib: ImageLib, data: Bytes, ext: string, quality: int, maxWidth: Option<int>, maxHeight: Option<int>): Option<Bytes>
  {
    var img :- Open(lib, data);
    var capped :- Capped(img, maxWidth, maxHeight);
    lib.save(ForJpeg(capped, ext == ".jpg" || ext == ".jpeg"), ByExtension(ext), CompressOptions(ext, quality))
  }

  /** The body of compress_image's `with` block: the picture is reassigned step by step. */
  method CompressedBytes(lib: ImageLib, data: Bytes, ext: string, quality: int, maxWidth: Option<int>, maxHeight: Option<int>)
    returns (r: Option<Bytes>)
    ensures r == CompressedOutput(lib, data, ext, quality, maxWidth, maxHeight)
  {
    var loaded := Open(lib, data);
    if loaded.None? {
      return None;
    }
    var img := loaded.value;
    if Truthy(maxWidth) || Truthy(maxHeight) {
      var ow, oh := Width(img), Height(img);
      if Truthy(maxWidth) && ow > maxWidth.value {
        if ow == 0 {
          return None;
        }
        var narrowed := Resize(img, maxWidth.value, Trunc(oh * maxWidth.value, ow));
        if narrowed.None? {
          return None;
        }
        img := narrowed.value;
      }
      if Truthy(maxHeight) && Height(img) > maxHeight.value {
        if Height(img) == 0 {
          return None;
        }
        var lowered := Resize(img, Trunc(Width(img) * maxHeight.value, Height(img)), maxHeight.value);
        if lowered.None? {
          return None;
        }
        img := lowered.value;
      }
    }
    img := ForJpeg(img, ext == ".jpg" || ext == ".jpeg");
    r := lib.save(img, ByExtension(ext), CompressOptions(ext, quality));
  }

  /** compress_image */
  method CompressImage(fs: Fs, lib: ImageLib, input: Path, output: Path, quality: int := 80,
                       maxWidth: Option<int> := None, maxHeight: Option<int> := None)
    returns (ok: bool, fs': Fs)
    ensures var ext := Lower(SplitExt(output).1);
      ok <==> input in fs.files && CompressedOutput(lib, fs.files[input].data, ext, quality, maxWidth, maxHeight).Some? && Writable(fs, output)
    ensures ok ==> fs' == fs.(files := fs.files[output := File(CompressedOutput(lib, fs.files[input].data, Lower(SplitExt(output).1), quality, maxWidth, maxHeight).value, fs.clock)] - {input})
    ensures !ok ==> fs' == fs
  {
    fs' := fs;
    var ext := Lower(SplitExt(output).1);
    match Read(fs, input)
    case Failure(_) =>
      return false, fs;
    case Success(data) =>
      var bytes := CompressedBytes(lib, data, ext, quality, maxWidth, maxHeight);
      if bytes.None? {
        return false, fs;
      }
      match Write(fs, output, bytes.value)
      case Failure(_) =>
        return false, fs;
      case Success(written) =>
        fs' := RemoveIfExists(written, input).value;
        return true, fs';
  }

  /** add_watermark; no endpoint calls it. */
  method AddWatermark(fs: Fs, lib: ImageLib, input: Path, output: Path, text: string, position: string := "bottom-right",
                      opacity: real := 0.7)
    returns (ok: bool, fs': Fs)
    ensures ok <==> input in fs.files && WatermarkedBytes(lib, fs.files[input].data, output, text, position, opacity).Some? && Writable(fs, output)
    ensures ok ==> fs' == fs.(files := fs.files[output := File(WatermarkedBytes(lib, fs.files[input].data, output, text, position, opacity).value, fs.clock)] - {input})
    ensures !ok ==> fs' == fs
  {
    ok, fs' := Produce(fs, input, output, data => WatermarkedBytes(lib, data, output, text, position, opacity));
  }

  /** remove_background: the rembg session when there is one, and the OpenCV fallback when
      there is none or when anything on the rembg path raises. */
  method RemoveBackground(fs: Fs, lib: ImageLib, input: Path, output: Path) returns (ok: bool, fs': Fs)
    ensures lib.session.Some? && input in fs.files && lib.session.value(fs.files[input].data).Some? && Writable(fs, output) ==>
      ok && fs' == fs.(files := fs.files[output := File(lib.session.value(fs.files[input].data).value, fs.clock)] - {input})
    ensures !(lib.session.Some? && input in fs.files && lib.session.value(fs.files[input].data).Some? && Writable(fs, output)) ==>
      (ok, fs') == SimpleRemoval(fs, lib, input, output)
  {
    if lib.session.None? {
      return SimpleRemoval(fs, lib, input, output).0, SimpleRemoval(fs, lib, input, output).1;
    }
    match Read(fs, input)
    case Failure(_) =>
      ok, fs' := SimpleRemoval(fs, lib, input, output).0, SimpleRemoval(fs, lib, input, output).1;
    case Success(data) =>
      match lib.session.value(data)
      case None =>
        ok, fs' := SimpleRemoval(fs, lib, input, output).0, SimpleRemoval(fs, lib, input, output).1;
      case Some(png) =>
        match Write(fs, output, png)
        case Failure(_) =>
          ok, fs' := SimpleRemoval(fs, lib, input, output).0, SimpleRemoval(fs, lib, input, output).1;
        case Success(written) =>
          ok, fs' := true, RemoveIfExists(written, input).value;
  }

  /** _simple_background_removal.  cv2.imwrite reports a failed write by returning False,
      which the service ignores: the input is removed and True returned all the same. */
  function SimpleRemoval(fs: Fs, lib: ImageLib, input: Path, output: Path): (r: (bool, Fs))
    ensures r.0 <==> input in fs.files && lib.grabCut(fs.files[input].data).Some?
    ensures !r.0 ==> r.1 == fs
    ensures r.0 && Writable(fs, output) ==>
      r.1 == fs.(files := fs.files[output := File(lib.grabCut(fs.files[input].data).value, fs.clock)] - {input})
    ensures r.0 && !Writable(fs, output) ==> r.1 == fs.(files := fs.files - {input})
  {
    if input !in fs.files then (false, fs)
    else match lib.grabCut(fs.files[input].data)
      case None => (false, fs)
      case Some(png) =>
        var written := match Write(fs, output, png) case Success(w) => w case Failure(_) => fs;
        (true, RemoveIfExists(written, input).value)
  }
}
