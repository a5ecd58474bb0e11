/**
 * The older top-level `utils.py`: a crop by fractions that returns a new
 * image, and `minimize`, which thumbnails an image toward a fraction of
 * its own size.  Its `side_by_side` is the package's and is modelled by
 * `StitchCore.SideBySide`.
 */
module LegacyUtils {
  import opened Base
  import opened Raster
  import opened StitchPostprocess

  /**
   * `crop_relative(im, rel_box)`: every element of the box is checked to
   * lie in [0, 1] before the box is unpacked; a box of any length other
   * than four then fails to unpack.  Both are ValueError.  The crop is
   * (left * W, top * H, right * W, bottom * H) of a new image.
   */
  function CropRelative(im: Image, relBox: seq<real>, pil: Pil): (r: Result<Image>)
    requires Sound(pil)
    ensures r.Ok? <==> |relBox| == 4 && forall k | 0 <= k < |relBox| :: 0.0 <= relBox[k] <= 1.0
    ensures r.Err? ==> r.error == ValueError
    ensures r.Ok? ==> r.value.mode == im.mode
    ensures r.Ok? ==>
      r.value == pil.crop(im, RelativeBox(relBox[0], relBox[1], relBox[2], relBox[3], im.width, im.height))
  {
    var _ :- CheckArgRange(relBox, 0.0, 1.0);
    if |relBox| != 4 then Err(ValueError)
    else
      var left, top, right, bottom := relBox[0], relBox[1], relBox[2], relBox[3];
      Ok(pil.crop(im, RelativeBox(left, top, right, bottom, im.width, im.height)))
  }

  /**
   * A box every element of which is a fraction in [0, 1] (the boxes
   * CropRelative accepts) lies within the image.
   */
  lemma CropBoxWithinImage(width: nat, height: nat, left: real, top: real, right: real, bottom: real)
    requires 0.0 <= left <= 1.0 && 0.0 <= top <= 1.0 && 0.0 <= right <= 1.0 && 0.0 <= bottom <= 1.0
    ensures var b := RelativeBox(left, top, right, bottom, width, height);
      && 0.0 <= b.left <= width as real && 0.0 <= b.right <= width as real
      && 0.0 <= b.top <= height as real && 0.0 <= b.bottom <= height as real
  {
    FractionOf(left, width);
    FractionOf(top, height);
    FractionOf(right, width);
    FractionOf(bottom, height);
  }

  lemma FractionOf(f: real, size: nat)
    requires 0.0 <= f <= 1.0
    ensures 0.0 <= f * size as real <= size as real
  {
    MulMonotoneReal(0.0, f, size as real);
    MulMonotoneReal(f, 1.0, size as real);
  }

  /**
   * `minimize(im, ratio)`: the image thumbnailed toward (W * ratio,
   * H * ratio); it keeps its mode and fits that box.
   */
  function Minimize(im: Image, ratio: real, pil: Pil): (r: Image)
    requires Sound(pil)
    ensures r.mode == im.mode
    ensures FitsBox(r, im.width as real * ratio, im.height as real * ratio)
  {
    pil.thumbnail(im, im.width as real * ratio, im.height as real * ratio, LibraryDefault)
  }
}
