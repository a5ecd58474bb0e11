/**
 * Raster images as the system sees them through its imaging library.
 * `Image.new` and the unmasked `paste` are modelled pixel by pixel (a paste
 * is a clipped rectangle write); every other library operation whose pixel
 * arithmetic is out of scope is a field of `Pil`, supplied by the caller,
 * and `Sound` states the only facts the model relies on: sizes and modes
 * (for `crop`, only the mode).
 */
module Raster {
  import opened Base

  /** A pixel value; mode conversion of pixel values is not modelled. */
  type Pixel = int

  /** What `Image.new(mode, size)` fills a new image with (colour 0). */
  const Background: Pixel := 0

  datatype RawImage = RawImage(mode: string, width: nat, height: nat, pixels: seq<seq<Pixel>>)

  /** An image: `height` rows of `width` pixels each. */
  type Image = im: RawImage
    | |im.pixels| == im.height && forall r | 0 <= r < im.height :: |im.pixels[r]| == im.width
    witness RawImage("RGB", 0, 0, [])

  /** `Image.new(mode, (width, height))`. */
  function New(mode: string, width: nat, height: nat): (im: Image)
    ensures im.mode == mode && im.width == width && im.height == height
    ensures forall r, c | 0 <= r < height && 0 <= c < width :: im.pixels[r][c] == Background
  {
    RawImage(mode, width, height, seq(height, _ => seq(width, _ => Background)))
  }

  /** Pixel (r, c) of the canvas lies in the rectangle of `src` placed at (x, y). */
  predicate Covers(src: Image, x: int, y: int, r: int, c: int) {
    x <= c < x + src.width && y <= r < y + src.height
  }

  /**
   * `dst.paste(src, (x, y))` without a mask: the part of `src` that falls
   * inside `dst` replaces those pixels; everything else is kept.
   */
  function Paste(dst: Image, src: Image, x: int, y: int): (im: Image)
    ensures im.mode == dst.mode && im.width == dst.width && im.height == dst.height
    ensures forall r, c | 0 <= r < dst.height && 0 <= c < dst.width ::
      im.pixels[r][c] == if Covers(src, x, y, r, c) then src.pixels[r - y][c - x] else dst.pixels[r][c]
  {
    RawImage(dst.mode, dst.width, dst.height,
      seq(dst.height, r requires 0 <= r < dst.height =>
        seq(dst.width, c requires 0 <= c < dst.width =>
          if Covers(src, x, y, r, c) then src.pixels[r - y][c - x] else dst.pixels[r][c])))
  }

  /** Pasting an image of the same size at the origin reproduces its pixels. */
  lemma PasteWholeAtOrigin(dst: Image, src: Image)
    requires src.width == dst.width && src.height == dst.height
    ensures Paste(dst, src, 0, 0) == RawImage(dst.mode, dst.width, dst.height, src.pixels)
  {
    var p := Paste(dst, src, 0, 0);
    assert forall r | 0 <= r < dst.height :: p.pixels[r] == src.pixels[r];
  }

  datatype Resample = LibraryDefault | Nearest | Bilinear

  /** A crop box in (possibly fractional) pixel coordinates. */
  datatype Box = Box(left: real, top: real, right: real, bottom: real)

  /** The size a font renders a text at. */
  datatype TextSize = TextSize(width: nat, height: nat)

  /**
   * The imaging-library operations the model does not interpret:
   * crop, resize, thumbnail (in-place resize that keeps the aspect ratio),
   * convolution filters, alpha-masked paste, text drawing and measuring,
   * and vertical stacking.
   */
  datatype Pil = Pil(
    crop: (Image, Box) -> Image,
    resize: (Image, int, int, Resample) -> Image,
    thumbnail: (Image, real, real, Resample) -> Image,
    filter: (Image, string) -> Image,
    composite: (Image, Image, int, int) -> Image,
    drawText: (Image, int, int, string, nat) -> Image,
    measure: (string, nat) -> TextSize,
    stack: (Image, Image, string, string) -> Image)

  predicate SameShape(a: Image, b: Image) {
    a.mode == b.mode && a.width == b.width && a.height == b.height
  }

  /** A thumbnail never exceeds its target box, except for the one-pixel minimum. */
  predicate FitsBox(im: Image, w: real, h: real) {
    (im.width as real <= w || im.width <= 1) && (im.height as real <= h || im.height <= 1)
  }

  /** The size and mode contracts of the library operations; `crop` keeps the mode and nothing is said of its size. */
  ghost predicate Sound(pil: Pil) {
    && (forall im, b :: pil.crop(im, b).mode == im.mode)
    && (forall im, w, h, f | w >= 0 && h >= 0 ::
          var out := pil.resize(im, w, h, f); out.mode == im.mode && out.width == w && out.height == h)
    && (forall im, w, h, f ::
          var out := pil.thumbnail(im, w, h, f); out.mode == im.mode && FitsBox(out, w, h))
    && (forall im, k :: SameShape(pil.filter(im, k), im))
    && (forall dst, src, x, y :: SameShape(pil.composite(dst, src, x, y), dst))
    && (forall im, x, y, t, s :: SameShape(pil.drawText(im, x, y, t, s), im))
    // a larger font never renders smaller, and renders at least its size wide
    && (forall t, s1, s2 | s1 <= s2 ::
          pil.measure(t, s1).width <= pil.measure(t, s2).width
          && pil.measure(t, s1).height <= pil.measure(t, s2).height)
    && (forall t, s | |t| > 0 :: pil.measure(t, s).width >= s)
    // `stack` puts its first image over its second on a canvas of the given mode
    && (forall top, bottom, m, a ::
          var out := pil.stack(top, bottom, m, a);
          && out.mode == m && out.height == top.height + bottom.height
          && out.width == (if top.width >= bottom.width then top.width else bottom.width))
  }
}
