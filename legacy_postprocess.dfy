/**
 * The older top-level `postprocess.py`: a processor that keeps the
 * original image and replaces a working copy on each edit, and its CIRA
 * subclass, which overlays the CIRA/RAMMB logo flush into the bottom-right
 * corner.
 */
module LegacyPostprocess {
  import opened Base
  import opened Raster
  import opened StitchPostprocess
  import LegacyCore

  /** Where `cira_rammb_logo` puts a logo of size (lw, lh) on a (width, height) image. */
  function LogoCorner(width: nat, height: nat, lw: nat, lh: nat): (pos: (int, int))
    ensures pos.0 + lw == width && pos.1 + lh == height
    ensures lw <= width && lh <= height ==> 0 <= pos.0 && 0 <= pos.1
  {
    (width - lw, height - lh)
  }

  class PostProcessor {
    /** The image the processor was created with; never reassigned. */
    const original: Image
    /** `_processed`: the working copy that each edit replaces. */
    var processed: Image
    /** Whether this is a `CIRAPostProcessor`. */
    const cira: bool

    /** `PostProcessor(im)` and `CIRAPostProcessor(im)`: the working copy starts equal to `im`. */
    constructor (im: Image, cira: bool)
      ensures original == im && processed == im && this.cira == cira
    {
      original := im;
      processed := im;
      this.cira := cira;
    }

    /**
     * `crop_relative(left, top, right, bottom)`: all four fractions are
     * checked to lie in [0, 1] before the working image is replaced by its
     * crop to (left * W, top * H, right * W, bottom * H).
     */
    method CropRelative(left: real, top: real, right: real, bottom: real, pil: Pil) returns (r: Result<()>)
      requires Sound(pil)
      modifies this
      ensures r.Ok? <==> 0.0 <= left <= 1.0 && 0.0 <= top <= 1.0 && 0.0 <= right <= 1.0 && 0.0 <= bottom <= 1.0
      ensures r.Err? ==> r.error == ValueError && processed == old(processed)
      ensures r.Ok? ==>
        processed == pil.crop(old(processed), RelativeBox(left, top, right, bottom, old(processed).width, old(processed).height))
      ensures processed.mode == old(processed).mode
    {
      var args := [left, top, right, bottom];
      CheckFourArgs(left, top, right, bottom, 0.0, 1.0);
      for k := 0 to 4
        invariant forall j | 0 <= j < k :: 0.0 <= args[j] <= 1.0
      {
        if args[k] < 0.0 || args[k] > 1.0 {
          return Err(ValueError);
        }
      }
      var width, height := processed.width, processed.height;
      processed := pil.crop(processed, RelativeBox(left, top, right, bottom, width, height));
      r := Ok(());
    }

    /** `minimize(width, height)`: the working image is thumbnailed to fit (width, height). */
    method Minimize(width: real, height: real, pil: Pil)
      requires Sound(pil)
      modifies this
      ensures processed == pil.thumbnail(old(processed), width, height, LibraryDefault)
      ensures processed.mode == old(processed).mode && FitsBox(processed, width, height)
    {
      processed := pil.thumbnail(processed, width, height, LibraryDefault);
    }

    /**
     * `cira_rammb_logo()` with `logo` the fetched logo (None when the fetch
     * failed): only the CIRA subclass has the method, and a missing logo
     * fails at `logo.width`; both are AttributeError and change nothing.
     * Otherwise the working image becomes its RGBA overlay with the logo
     * flush in the bottom-right corner.
     */
    method CiraRammbLogo(logo: Option<Image>, pil: Pil) returns (r: Result<()>)
      requires Sound(pil)
      modifies this
      ensures r.Ok? <==> cira && logo.Some?
      ensures r.Err? ==> r.error == AttributeError && processed == old(processed)
      ensures r.Ok? ==>
        var pos := LogoCorner(old(processed).width, old(processed).height, logo.value.width, logo.value.height);
        processed == LegacyCore.Overlay(old(processed), logo.value, pos, pil)
      ensures r.Ok? ==> (processed.mode == "RGBA"
        && processed.width == old(processed).width && processed.height == old(processed).height)
    {
      if !cira || logo.None? {
        return Err(AttributeError);
      }
      var width, height := processed.width, processed.height;
      var l := logo.value;
      processed := LegacyCore.Overlay(processed, l, (width - l.width, height - l.height), pil);
      r := Ok(());
    }
  }
}
