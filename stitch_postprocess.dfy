/**
 * The post-processing pipeline of the `stitch` package: a processor that
 * keeps the original image and replaces a working copy with each edit,
 * with argument validation ahead of every change, corner placement of
 * overlays, the timestamp-label font search, and the branded variants'
 * logo and colorbar.
 */
module StitchPostprocess {
  import opened Base
  import opened Text
  import opened Raster
  import opened StitchCore

  /** Which processor: the plain base class, the CIRA one for a product, or the NICT one. */
  datatype Variant = Plain | Cira(product: string) | Nict

  /** The bundled resource images that the processors open from disk. */
  datatype Resources = Resources(ciraLogo: Image, rammbLogo: Image, nictLogo: Image, colorbar: string -> Image)

  // ---------------------------------------------------------------------
  // Validation
  // ---------------------------------------------------------------------

  /** `_check_arg_range`: every argument must lie in [minval, maxval]. */
  function CheckArgRange(args: seq<real>, minval: real, maxval: real): (r: Result<()>)
    ensures r.Ok? <==> forall k | 0 <= k < |args| :: minval <= args[k] <= maxval
    ensures r.Err? ==> r.error == ValueError
  {
    if args == [] then Ok(())
    else if args[0] < minval || args[0] > maxval then Err(ValueError)
    else CheckArgRange(args[1..], minval, maxval)
  }

  lemma CheckFourArgs(a: real, b: real, c: real, d: real, minval: real, maxval: real)
    ensures CheckArgRange([a, b, c, d], minval, maxval).Ok? <==>
      minval <= a <= maxval && minval <= b <= maxval && minval <= c <= maxval && minval <= d <= maxval
  {
    var args := [a, b, c, d];
    assert args[0] == a && args[1] == b && args[2] == c && args[3] == d;
  }

  /**
   * `_check_breadth_and_padding`.  The bounds 0.0 and 1.0 reach
   * `_check_arg_range` as two more positional arguments rather than as
   * `minval`/`maxval`; they lie in [0, 1] themselves, so the check is the
   * intended one.
   */
  function CheckBreadthAndPadding(breadth: real, padding: real): (r: Result<()>)
    ensures r.Ok? <==> 0.0 <= breadth <= 1.0 && 0.0 <= padding <= 1.0 && breadth + 2.0 * padding <= 1.0
    ensures r.Err? ==> r.error == ValueError
  {
    CheckFourArgs(breadth, padding, 0.0, 1.0, 0.0, 1.0);
    var _ :- CheckArgRange([breadth, padding, 0.0, 1.0], 0.0, 1.0);
    if breadth + 2.0 * padding > 1.0 then Err(ValueError) else Ok(())
  }

  /** The pixel box of a crop given as fractions (left, top, right, bottom) of an image's size. */
  function RelativeBox(left: real, top: real, right: real, bottom: real, width: nat, height: nat): Box {
    Box(left * width as real, top * height as real, right * width as real, bottom * height as real)
  }

  // ---------------------------------------------------------------------
  // Corner placement
  // ---------------------------------------------------------------------

  datatype Corner = TopLeft | TopRight | BottomLeft | BottomRight {
    predicate IsLeft() { this == TopLeft || this == BottomLeft }
    predicate IsTop() { this == TopLeft || this == TopRight }
  }

  /** The four corner names `_placement` accepts. */
  function ParseCorner(name: string): (r: Result<Corner>)
    ensures r.Ok? <==> name in ["top-left", "top-right", "bottom-left", "bottom-right"]
    ensures r.Err? ==> r.error == ValueError
    ensures r.Ok? ==> (r.value.IsLeft() <==> name in ["top-left", "bottom-left"])
    ensures r.Ok? ==> (r.value.IsTop() <==> name in ["top-left", "top-right"])
  {
    if name == "top-left" then Ok(TopLeft)
    else if name == "top-right" then Ok(TopRight)
    else if name == "bottom-left" then Ok(BottomLeft)
    else if name == "bottom-right" then Ok(BottomRight)
    else Err(ValueError)
  }

  /** `min(imgheight, imgwidth) * padding`. */
  function PaddingAbs(width: nat, height: nat, padding: real): real {
    (if height <= width then height else width) as real * padding
  }

  /**
   * The unrounded top-left corner of an overlay of size (rw, rh) in an
   * image of size (width, height), `padding_abs` away from the chosen edges.
   */
  function Anchor(width: nat, height: nat, rw: nat, rh: nat, corner: Corner, padding: real): (a: (real, real))
    ensures corner.IsLeft() ==> a.0 == PaddingAbs(width, height, padding)
    ensures !corner.IsLeft() ==> a.0 + rw as real + PaddingAbs(width, height, padding) == width as real
    ensures corner.IsTop() ==> a.1 == PaddingAbs(width, height, padding)
    ensures !corner.IsTop() ==> a.1 + rh as real + PaddingAbs(width, height, padding) == height as real
  {
    var pad := PaddingAbs(width, height, padding);
    var x := if corner.IsLeft() then 0.0 + pad else width as real - pad - rw as real;
    var y := if corner.IsTop() then 0.0 + pad else height as real - pad - rh as real;
    (x, y)
  }

  /** Where `_placement` puts an overlay, and the overlay as resized. */
  datatype Placed = Placed(x: int, y: int, resized: Image)

  /**
   * `_placement(obj, corner, breadth, padding)` over an image of size
   * (width, height): `obj` is thumbnailed toward (width * breadth,
   * height * breadth) and its corner is placed `padding_abs` (up to
   * rounding) from the two edges of the named corner; invalid breadth,
   * padding or corner raise ValueError.
   */
  function Placement(width: nat, height: nat, obj: Image, corner: string, breadth: real, padding: real, pil: Pil): (r: Result<Placed>)
    requires Sound(pil)
    ensures r.Ok? <==> CheckBreadthAndPadding(breadth, padding).Ok? && ParseCorner(corner).Ok?
    ensures r.Err? ==> r.error == ValueError
    ensures r.Ok? ==>
      var p := r.value; var c := ParseCorner(corner).value; var pad := PaddingAbs(width, height, padding);
      && p.resized.mode == obj.mode
      && FitsBox(p.resized, width as real * breadth, height as real * breadth)
      && (c.IsLeft() ==> pad - 0.5 <= p.x as real <= pad + 0.5)
      && (!c.IsLeft() ==> pad - 0.5 <= (width - p.x - p.resized.width) as real <= pad + 0.5)
      && (c.IsTop() ==> pad - 0.5 <= p.y as real <= pad + 0.5)
      && (!c.IsTop() ==> pad - 0.5 <= (height - p.y - p.resized.height) as real <= pad + 0.5)
  {
    var _ :- CheckBreadthAndPadding(breadth, padding);
    var c :- ParseCorner(corner);
    var resized := pil.thumbnail(obj, width as real * breadth, height as real * breadth, LibraryDefault);
    var a := Anchor(width, height, resized.width, resized.height, c, padding);
    Ok(Placed(Round(a.0), Round(a.1), resized))
  }

  /**
   * The "not out of bounds" promise: once breadth and padding pass their
   * check and the thumbnail is within its target, both the unrounded and
   * the rounded placement keep the overlay inside the image.
   */
  lemma PlacementInBounds(width: nat, height: nat, rw: nat, rh: nat, corner: Corner, breadth: real, padding: real)
    requires CheckBreadthAndPadding(breadth, padding).Ok?
    requires rw as real <= width as real * breadth && rh as real <= height as real * breadth
    ensures var a := Anchor(width, height, rw, rh, corner, padding);
      && 0.0 <= a.0 <= (width - rw) as real && 0.0 <= a.1 <= (height - rh) as real
      && 0 <= Round(a.0) <= width - rw && 0 <= Round(a.1) <= height - rh
  {
    var pad := PaddingAbs(width, height, padding);
    PaddingAbsBounds(width, height, padding);
    var a := Anchor(width, height, rw, rh, corner, padding);
    AxisInBounds(width, rw, pad, breadth, padding, corner.IsLeft(), a.0);
    AxisInBounds(height, rh, pad, breadth, padding, corner.IsTop(), a.1);
  }

  lemma PaddingAbsBounds(width: nat, height: nat, padding: real)
    requires 0.0 <= padding
    ensures 0.0 <= PaddingAbs(width, height, padding)
    ensures PaddingAbs(width, height, padding) <= width as real * padding
    ensures PaddingAbs(width, height, padding) <= height as real * padding
  {
    var m := if height <= width then height else width;
    MulMonotoneReal(m as real, width as real, padding);
    MulMonotoneReal(m as real, height as real, padding);
    MulMonotoneReal(0.0, m as real, padding);
  }

  lemma MulMonotoneReal(a: real, b: real, c: real)
    requires a <= b && 0.0 <= c
    ensures a * c <= b * c
  {
    assert b * c - a * c == (b - a) * c;
  }

  /**
   * Along one axis: an overlay of `extent` within `size * breadth`, with a
   * margin `pad` of at most `size * padding` from the near (`low`) or far
   * end, lies within [0, size - extent], before and after rounding.
   */
  lemma AxisInBounds(size: nat, extent: nat, pad: real, breadth: real, padding: real, low: bool, v: real)
    requires 0.0 <= padding && 0.0 <= breadth && breadth + 2.0 * padding <= 1.0
    requires 0.0 <= pad <= size as real * padding
    requires extent as real <= size as real * breadth
    requires v == if low then pad else size as real - pad - extent as real
    ensures extent <= size
    ensures 0.0 <= v <= (size - extent) as real
    ensures 0 <= Round(v) <= size - extent
  {
    var sz := size as real;
    MulMonotoneReal(breadth + 2.0 * padding, 1.0, sz);
    assert (breadth + 2.0 * padding) * sz == sz * breadth + 2.0 * (sz * padding);
    assert extent as real + 2.0 * pad <= sz;
    assert 0.0 <= v <= sz - extent as real;
    RoundWithin(v, 0, size - extent);
  }

  // ---------------------------------------------------------------------
  // The timestamp label's font search
  // ---------------------------------------------------------------------

  /** Text rendered at `size` is strictly inside a target of (tw, th). */
  predicate FitsTarget(pil: Pil, text: string, tw: nat, th: nat, size: nat) {
    pil.measure(text, size).width < tw && pil.measure(text, size).height < th
  }

  /** The first font size from `size` on whose rendering reaches the target in either dimension. */
  function FirstReaching(pil: Pil, text: string, tw: nat, th: nat, size: nat): (r: nat)
    requires Sound(pil) && |text| > 0 && size >= 1
    requires size > 1 ==> FitsTarget(pil, text, tw, th, size - 1)
    ensures r >= size && !FitsTarget(pil, text, tw, th, r)
    ensures forall k | size <= k < r :: FitsTarget(pil, text, tw, th, k)
    decreases tw - size
  {
    if !FitsTarget(pil, text, tw, th, size) then size
    else FirstReaching(pil, text, tw, th, size + 1)
  }

  /**
   * The font size `timestamp_label` settles on for a target of (tw, th):
   * none when the target has a zero side (the loop never runs), otherwise
   * the smallest size from 1 whose text reaches the target.
   */
  function FontSizeFor(pil: Pil, text: string, tw: nat, th: nat): (r: Option<nat>)
    requires Sound(pil) && |text| > 0
    ensures r.None? <==> tw == 0 || th == 0
    ensures r.Some? ==> r.value >= 1 && !FitsTarget(pil, text, tw, th, r.value)
    ensures r.Some? ==> forall k | 1 <= k < r.value :: FitsTarget(pil, text, tw, th, k)
  {
    if tw == 0 || th == 0 then None else Some(FirstReaching(pil, text, tw, th, 1))
  }

  /**
   * With a monotone measure the chosen size is one past the largest that
   * fits: every size below it fits and no size from it on does.
   */
  lemma FontSizeOnePastFit(pil: Pil, text: string, tw: nat, th: nat)
    requires Sound(pil) && |text| > 0
    requires FontSizeFor(pil, text, tw, th).Some?
    ensures var s := FontSizeFor(pil, text, tw, th).value;
      forall k: nat | k >= 1 :: FitsTarget(pil, text, tw, th, k) <==> k < s
  {
    var s := FontSizeFor(pil, text, tw, th).value;
    forall k: nat | k >= s
      ensures !FitsTarget(pil, text, tw, th, k)
    {
      assert pil.measure(text, s).width <= pil.measure(text, k).width;
      assert pil.measure(text, s).height <= pil.measure(text, k).height;
    }
  }

  /** The `while` loop of `timestamp_label`, bumping the font size from 1. */
  method ChooseFontSize(pil: Pil, text: string, tw: nat, th: nat) returns (font: Option<nat>)
    requires Sound(pil) && |text| > 0
    ensures font == FontSizeFor(pil, text, tw, th)
  {
    var width, height := 0, 0;
    var fontsize: nat := 1;
    font := None;
    while width < tw && height < th
      invariant fontsize >= 1 && fontsize - 1 <= width
      invariant font.None? <==> fontsize == 1
      invariant font.None? ==> width == 0 && height == 0
      invariant font.Some? ==> tw > 0 && th > 0
      invariant font.Some? ==> (font.value == fontsize - 1
        && width == pil.measure(text, fontsize - 1).width && height == pil.measure(text, fontsize - 1).height)
      invariant forall k | 1 <= k < fontsize - 1 :: FitsTarget(pil, text, tw, th, k)
      decreases tw - fontsize
    {
      font := Some(fontsize);
      var size := pil.measure(text, fontsize);
      width, height := size.width, size.height;
      fontsize := fontsize + 1;
    }
    if font.Some? {
      var s := FirstReaching(pil, text, tw, th, 1);
      assert font.value < s ==> FitsTarget(pil, text, tw, th, font.value);
    }
  }

  /** The label text: `isoformat(sep=' ') + ' UTC'`. */
  function LabelText(t: DateTime): (text: string)
    ensures |text| > 4 && text[|text| - 4..] == " UTC"
  {
    IsoFormat(t, ' ') + " UTC"
  }

  /** Where and how large `timestamp_label` draws its text. */
  datatype Spot = Spot(x: int, y: int, size: nat)

  /**
   * The font size and position of a label `text` on an image of size
   * (width, height): the size is the one the font search settles on for
   * the bottom-left placement target, the left margin is `padding_abs` and
   * the text's bottom edge sits at (1 - padding) * height, both up to
   * rounding; invalid breadth or padding, or a target with a zero side,
   * give ValueError.
   */
  function LabelSpot(width: nat, height: nat, text: string, breadth: real, padding: real, pil: Pil): (r: Result<Spot>)
    requires Sound(pil) && |text| > 0
    ensures r.Err? ==> r.error == ValueError
    ensures CheckBreadthAndPadding(breadth, padding).Err? ==> r.Err?
    ensures r.Ok? <==>
      && CheckBreadthAndPadding(breadth, padding).Ok?
      && var p := Placement(width, height, New("RGB", width, height), "bottom-left", breadth, padding, pil).value;
        p.resized.width > 0 && p.resized.height > 0
    ensures r.Ok? ==>
      var p := Placement(width, height, New("RGB", width, height), "bottom-left", breadth, padding, pil).value;
      && Some(r.value.size) == FontSizeFor(pil, text, p.resized.width, p.resized.height)
      && r.value.x == p.x
    ensures r.Ok? ==>
      var pad := PaddingAbs(width, height, padding);
      var bottom := (r.value.y + pil.measure(text, r.value.size).height) as real;
      && pad - 0.5 <= r.value.x as real <= pad + 0.5
      && (1.0 - padding) * height as real - 0.5 <= bottom <= (1.0 - padding) * height as real + 0.5
  {
    var p :- Placement(width, height, New("RGB", width, height), "bottom-left", breadth, padding, pil);
    match FontSizeFor(pil, text, p.resized.width, p.resized.height)
    case None => Err(ValueError)
    case Some(size) =>
      Ok(Spot(p.x, Round((1.0 - padding) * height as real - pil.measure(text, size).height as real), size))
  }

  /** The spot when the placement and the font size are found. */
  lemma LabelSpotFound(width: nat, height: nat, text: string, breadth: real, padding: real, pil: Pil, p: Placed, size: nat)
    requires Sound(pil) && |text| > 0
    requires Placement(width, height, New("RGB", width, height), "bottom-left", breadth, padding, pil) == Ok(p)
    requires FontSizeFor(pil, text, p.resized.width, p.resized.height) == Some(size)
    ensures LabelSpot(width, height, text, breadth, padding, pil)
      == Ok(Spot(p.x, Round((1.0 - padding) * height as real - pil.measure(text, size).height as real), size))
  {
  }

  /** No spot when the placement fails or no font size fits. */
  lemma LabelSpotMissing(width: nat, height: nat, text: string, breadth: real, padding: real, pil: Pil)
    requires Sound(pil) && |text| > 0
    requires var pl := Placement(width, height, New("RGB", width, height), "bottom-left", breadth, padding, pil);
      pl.Err? || FontSizeFor(pil, text, pl.value.resized.width, pl.value.resized.height).None?
    ensures LabelSpot(width, height, text, breadth, padding, pil) == Err(ValueError)
  {
  }

  // ---------------------------------------------------------------------
  // The colorbar table
  // ---------------------------------------------------------------------

  /** The colorbar file registered for a CIRA band, if any. */
  function ColorbarFile(band: int): Option<string> {
    if 1 <= band <= 3 then Some("colorbar_ch1-2-3.png")
    else if 4 <= band <= 6 then Some("colorbar_ch4-5-6.png")
    else if band == 7 then Some("colorbar_ch7.png")
    else if band == 8 then Some("colorbar_ch8.png")
    else if 9 <= band <= 10 then Some("colorbar_ch9-10.png")
    else if 12 <= band <= 16 then Some("colorbar_ch11-12-13-14-15-16.png")
    else None
  }

  /** `_cira_band_colorbar_map`. */
  function ColorbarTable(): (t: map<int, string>)
    ensures forall b :: b in t <==> ColorbarFile(b).Some?
    ensures forall b | b in t :: t[b] == ColorbarFile(b).value
  {
    map b | 1 <= b <= 16 && ColorbarFile(b).Some? :: ColorbarFile(b).value
  }

  /** Bands 1 to 10 and 12 to 16 have a colorbar; band 11 has none. */
  lemma ColorbarBands()
    ensures forall b :: b in ColorbarTable() <==> (1 <= b <= 10 || 12 <= b <= 16)
    ensures 11 !in ColorbarTable()
  {
  }

  /** The module-level `for` loops that fill `_cira_band_colorbar_map`. */
  method BuildColorbarTable() returns (t: map<int, string>)
    ensures t == ColorbarTable()
  {
    t := map[];
    for band := 1 to 4
      invariant forall b :: b in t <==> 1 <= b < band
      invariant forall b | b in t :: t[b] == ColorbarFile(b).value
    {
      t := t[band := "colorbar_ch1-2-3.png"];
    }
    for band := 4 to 7
      invariant forall b :: b in t <==> 1 <= b < band
      invariant forall b | b in t :: t[b] == ColorbarFile(b).value
    {
      t := t[band := "colorbar_ch4-5-6.png"];
    }
    t := t[7 := "colorbar_ch7.png"];
    t := t[8 := "colorbar_ch8.png"];
    for band := 9 to 11
      invariant forall b :: b in t <==> 1 <= b < band
      invariant forall b | b in t :: t[b] == ColorbarFile(b).value
    {
      t := t[band := "colorbar_ch9-10.png"];
    }
    for band := 12 to 17
      invariant forall b :: b in t <==> 1 <= b <= 10 || 12 <= b < band
      invariant forall b | b in t :: t[b] == ColorbarFile(b).value
    {
      t := t[band := "colorbar_ch11-12-13-14-15-16.png"];
    }
    assert forall b :: b in t <==> b in ColorbarTable();
  }

  predicate StartsWith(s: string, prefix: string) {
    |prefix| <= |s| && s[..|prefix|] == prefix
  }

  /** Python's `s[-k:]`: the last k characters, or all of s when it is shorter. */
  function PySuffix(s: string, k: nat): (r: string)
    ensures |r| == if |s| >= k then k else |s|
    ensures |s| >= k ==> s == s[..|s| - k] + r
  {
    if |s| >= k then s[|s| - k..] else s
  }

  /**
   * `_get_colorbar`: a product that does not start with "band" has no
   * colorbar; otherwise its last two characters are parsed as the band
   * (ValueError if they are not a number) and looked up in the table
   * (KeyError if the band has no colorbar).
   */
  function GetColorbar(product: string): (r: Result<Option<string>>)
    ensures !StartsWith(product, "band") ==> r == Ok(None)
    ensures StartsWith(product, "band") && PyInt(PySuffix(product, 2)).Err? ==> r == Err(ValueError)
    ensures StartsWith(product, "band") && PyInt(PySuffix(product, 2)).Ok? ==>
      var band := PyInt(PySuffix(product, 2)).value;
      r == if band in ColorbarTable() then Ok(Some(ColorbarTable()[band])) else Err(KeyError)
  {
    if StartsWith(product, "band") then
      var band :- PyInt(PySuffix(product, 2));
      if band in ColorbarTable() then Ok(Some(ColorbarTable()[band])) else Err(KeyError)
    else Ok(None)
  }

  /** The product name the RAMMB slider uses for a numbered band: `'band_' + zfill(2)`. */
  function BandProduct(band: int): string {
    "band_" + Padded(band, 2)
  }

  /**
   * For a numbered band product, the colorbar is the band's table entry:
   * bands 1-10 and 12-16 find their file and every other band below 100,
   * band 11 included, raises KeyError.
   */
  lemma BandProductColorbar(band: nat)
    requires band < 100
    ensures GetColorbar(BandProduct(band)) ==
      if ColorbarFile(band).Some? then Ok(Some(ColorbarFile(band).value)) else Err(KeyError)
    ensures band == 11 ==> GetColorbar(BandProduct(band)) == Err(KeyError)
  {
    var p := BandProduct(band);
    PaddedDigits(band, 2);
    assert |Padded(band, 2)| == 2;
    assert p[..4] == "band";
    assert PySuffix(p, 2) == Padded(band, 2);
    PaddedRoundTrip(band, 2);
  }

  // ---------------------------------------------------------------------
  // The processor
  // ---------------------------------------------------------------------

  /** The logo a variant overlays: CIRA's and RAMMB's side by side, or NICT's. */
  function LogoImage(variant: Variant, res: Resources): (logo: Option<Image>)
    ensures logo.None? <==> variant.Plain?
    ensures variant.Cira? ==> (logo.value.mode == "RGBA"
      && logo.value.width == res.ciraLogo.width + res.rammbLogo.width)
  {
    match variant
    case Plain => None
    case Nict => Some(res.nictLogo)
    case Cira(_) =>
      var cira, rammb := res.ciraLogo, res.rammbLogo;
      var layout := SideBySide(cira.width, cira.height, rammb.width, rammb.height, "RGBA", "bottom");
      Some(Compose(cira, rammb, layout.value))
  }

  class PostProcessor {
    /** The image the processor was created with; never reassigned. */
    const original: Image
    /** `_processed`: the working copy that each edit replaces. */
    var processed: Image
    const timestamp: DateTime
    const variant: Variant

    /** `PostProcessor(im, timestamp)` and its two subclasses: the working copy starts equal to `im`. */
    constructor (im: Image, timestamp: DateTime, variant: Variant)
      ensures original == im && processed == im
      ensures this.timestamp == timestamp && this.variant == variant
    {
      original := im;
      processed := im;
      this.timestamp := timestamp;
      this.variant := variant;
    }

    /** `result()`: a copy of the working image; the processor is left as it was. */
    method Result() returns (r: Image)
      ensures r == processed
    {
      r := processed;
    }

    /**
     * `crop_relative(left, top, right, bottom)`: all four fractions are
     * validated before anything changes; then the working image becomes
     * its crop to (left * W, top * H, right * W, bottom * H).
     */
    method CropRelative(left: real, top: real, right: real, bottom: real, pil: Pil) returns (r: Result<()>)
      requires Sound(pil)
      modifies this
      ensures r.Ok? <==> 0.0 <= left <= 1.0 && 0.0 <= top <= 1.0 && 0.0 <= right <= 1.0 && 0.0 <= bottom <= 1.0
      ensures r.Err? ==> r.error == ValueError && processed == old(processed)
      ensures r.Ok? ==>
        processed == pil.crop(old(processed), RelativeBox(left, top, right, bottom, old(processed).width, old(processed).height))
      ensures processed.mode == old(processed).mode
    {
      CheckFourArgs(left, top, right, bottom, 0.0, 1.0);
      r := CheckArgRange([left, top, right, bottom], 0.0, 1.0);
      if r.Err? {
        return;
      }
      var box := RelativeBox(left, top, right, bottom, processed.width, processed.height);
      processed := pil.crop(processed, box);
    }

    /** `minimize(width, height)`: the working image is thumbnailed to fit (width, height). */
    method Minimize(width: real, height: real, pil: Pil)
      requires Sound(pil)
      modifies this
      ensures processed == pil.thumbnail(old(processed), width, height, LibraryDefault)
      ensures processed.mode == old(processed).mode && FitsBox(processed, width, height)
    {
      processed := pil.thumbnail(processed, width, height, LibraryDefault);
    }

    /**
     * `scale(factor, interp)`: each side becomes round(side * factor),
     * resampled bilinearly unless another filter is given.
     */
    method Scale(factor: real, interp: Option<Resample>, pil: Pil)
      requires Sound(pil)
      modifies this
      ensures var w, h := Round(old(processed).width as real * factor), Round(old(processed).height as real * factor);
        processed == pil.resize(old(processed), w, h, interp.GetOr(Bilinear))
      ensures factor >= 0.0 ==>
        && processed.mode == old(processed).mode
        && old(processed).width as real * factor - 0.5 <= processed.width as real <= old(processed).width as real * factor + 0.5
        && old(processed).height as real * factor - 0.5 <= processed.height as real <= old(processed).height as real * factor + 0.5
    {
      var resample := if interp.None? then Bilinear else interp.value;
      var w, h := Round(processed.width as real * factor), Round(processed.height as real * factor);
      if factor >= 0.0 {
        RoundWithin(processed.width as real * factor, 0, w + 1);
        RoundWithin(processed.height as real * factor, 0, h + 1);
      }
      processed := pil.resize(processed, w, h, resample);
    }

    /**
     * `timestamp_label(breadth, padding)`: the label text is drawn at the
     * font size and position `LabelSpot` gives for the working image; when
     * there is none, ValueError is raised and nothing changes.
     */
    method TimestampLabel(breadth: real, padding: real, pil: Pil) returns (r: Result<()>)
      requires Sound(pil)
      modifies this
      ensures var spot := LabelSpot(old(processed).width, old(processed).height, LabelText(timestamp), breadth, padding, pil);
        && (spot.Err? ==> r == Err(ValueError) && processed == old(processed))
        && (spot.Ok? ==> r.Ok? && processed == pil.drawText(old(processed), spot.value.x, spot.value.y, LabelText(timestamp), spot.value.size))
      ensures SameShape(processed, old(processed))
    {
      var text := LabelText(timestamp);
      var w, h := processed.width, processed.height;
      var dummy := New("RGB", w, h);
      var placed := Placement(w, h, dummy, "bottom-left", breadth, padding, pil);
      if placed.Err? {
        LabelSpotMissing(w, h, text, breadth, padding, pil);
        return Err(placed.error);
      }
      var target := placed.value.resized;
      var font := ChooseFontSize(pil, text, target.width, target.height);
      if font.None? {
        LabelSpotMissing(w, h, text, breadth, padding, pil);
        return Err(ValueError);
      }
      var height := pil.measure(text, font.value).height;
      var y := Round((1.0 - padding) * h as real - height as real);
      LabelSpotFound(w, h, text, breadth, padding, pil, placed.value, font.value);
      var spot := Spot(placed.value.x, y, font.value);
      assert LabelSpot(w, h, text, breadth, padding, pil) == Ok(spot);
      processed := pil.drawText(processed, spot.x, spot.y, text, spot.size);
      r := Ok(());
    }

    /** `apply_filter(imfilt)`. */
    method ApplyFilter(imfilt: string, pil: Pil)
      requires Sound(pil)
      modifies this
      ensures processed == pil.filter(old(processed), imfilt)
      ensures SameShape(processed, old(processed))
    {
      processed := pil.filter(processed, imfilt);
    }

    /**
     * `logo(breadth, padding)` of the CIRA and NICT processors: the
     * variant's logo is placed at the bottom-right corner and overlaid;
     * the plain processor has no such method.
     */
    method Logo(breadth: real, padding: real, res: Resources, pil: Pil) returns (r: Result<()>)
      requires Sound(pil)
      modifies this
      ensures variant.Plain? ==> r == Err(AttributeError)
      ensures !variant.Plain? ==>
        var w, h := old(processed).width, old(processed).height;
        var p := Placement(w, h, LogoImage(variant, res).value, "bottom-right", breadth, padding, pil);
        && (p.Err? ==> r == Err(ValueError))
        && (p.Ok? ==> r.Ok? && processed == Overlay(old(processed), p.value.resized, (p.value.x, p.value.y), pil))
      ensures r.Err? ==> processed == old(processed)
      ensures SameShape(processed, old(processed))
    {
      var logo := LogoImage(variant, res);
      if logo.None? {
        return Err(AttributeError);
      }
      var placed := Placement(processed.width, processed.height, logo.value, "bottom-right", breadth, padding, pil);
      if placed.Err? {
        return Err(placed.error);
      }
      processed := Overlay(processed, placed.value.resized, (placed.value.x, placed.value.y), pil);
      r := Ok(());
    }

    /**
     * `colorbar()` of the CIRA processor: no colorbar for the product
     * leaves the image as it is; otherwise the bar, thumbnailed with
     * nearest-neighbour only when it is wider than the image, is stacked
     * right-aligned under the image.
     */
    method Colorbar(res: Resources, pil: Pil) returns (r: Result<()>)
      requires Sound(pil)
      modifies this
      ensures !variant.Cira? ==> r == Err(AttributeError)
      ensures variant.Cira? ==>
        var file := GetColorbar(variant.product);
        && (file.Err? ==> r == Err(file.error))
        && (file.Ok? && file.value.None? ==> r.Ok? && processed == old(processed))
        && (file.Ok? && file.value.Some? ==>
              var bar := res.colorbar(file.value.value);
              var w := old(processed).width;
              var fitted := if bar.width > w then pil.thumbnail(bar, w as real, w as real, Nearest) else bar;
              && r.Ok? && processed == pil.stack(old(processed), fitted, "RGB", "right")
              && (fitted.width <= w || fitted.width <= 1)
              && processed.mode == "RGB" && processed.height == old(processed).height + fitted.height
              && (w >= 1 ==> processed.width == w))
      ensures r.Err? ==> processed == old(processed)
    {
      if !variant.Cira? {
        return Err(AttributeError);
      }
      var file := GetColorbar(variant.product);
      if file.Err? {
        return Err(file.error);
      }
      if file.value.None? {
        return Ok(());
      }
      var cbar := res.colorbar(file.value.value);
      var imWidth := processed.width;
      if cbar.width > imWidth {
        cbar := pil.thumbnail(cbar, imWidth as real, imWidth as real, Nearest);
      }
      processed := pil.stack(processed, cbar, "RGB", "right");
      r := Ok(());
    }
  }
}
