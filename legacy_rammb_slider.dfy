/**
 * The older top-level `rammb_slider.py`: band-numbered imagery URLs, the
 * URL dicts over the tile ranges, stitching with the strict older
 * `stitch`, the boundary and lat/lon overlays, and the loop that lays the
 * CIRA and RAMMB logos along the bottom edge from the right.
 */
module LegacyRammbSlider {
  import opened Base
  import opened Text
  import opened Raster
  import opened StitchCore
  import opened StitchPostprocess
  import StitchRammbSlider
  import LegacyCore

  // ---------------------------------------------------------------------
  // URLs
  // ---------------------------------------------------------------------

  /**
   * `_rammb_img_url(timestamp, band, zoom, xtile, ytile, sat)`: the band
   * becomes `'band_' + zfill(2)`; the rest of the URL, the satellite
   * dispatch and the ValueError for any other satellite are those of the
   * package's builder given that product name.
   */
  function RammbImgUrl(t: DateTime, band: int, zoom: int, xtile: int, ytile: int, sat: string): (r: Result<string>)
    ensures r.Ok? <==> StitchRammbSlider.KnownSat(sat)
    ensures r.Err? ==> r.error == ValueError
    ensures r == StitchRammbSlider.RammbImgUrl(t, BandProduct(band), zoom, xtile, ytile, sat)
  {
    if sat == StitchRammbSlider.SatHimawari || sat == StitchRammbSlider.SatGoes16 then
      var imgtype := if sat == StitchRammbSlider.SatHimawari then "himawari---full_disk" else "goes-16---full_disk";
      var seconds := if sat == StitchRammbSlider.SatHimawari then "00" else "37";
      var datestr := DateStamp(t);
      var bandstr := "band_" + Padded(band, 2);
      var datetimestr := DateStamp(t) + HourMinute(t) + seconds;
      Ok(StitchRammbSlider.SliderUrl(["imagery", datestr, imgtype, bandstr, datetimestr, Padded(zoom, 2),
                                     StitchRammbSlider.TilePosition(xtile, ytile) + ".png"]))
    else Err(ValueError)
  }

  /**
   * The imagery URL reads back: its fourth path segment is `band_`
   * followed by two digits that read as the band, and the other segments
   * carry the date, the satellite's imagery type and seconds, the zoom and
   * the tile's row and column.
   */
  lemma BandUrlFields(t: DateTime, band: nat, zoom: nat, x: nat, y: nat, sat: string)
    requires StitchRammbSlider.KnownSat(sat)
    requires band < 100 && zoom < 100 && x < 1000 && y < 1000
    ensures var segs := StitchRammbSlider.PathSegments(RammbImgUrl(t, band, zoom, x, y, sat).value);
      && |segs| == 7
      && segs[0] == "imagery" && segs[1] == DateStamp(t) && segs[2] == sat + "---full_disk"
      && |segs[3]| == 7 && segs[3][..5] == "band_" && StitchRammbSlider.ReadsAs(segs[3][5..], 2, band)
      && segs[4] == DateStamp(t) + HourMinute(t) + (if sat == StitchRammbSlider.SatHimawari then "00" else "37")
      && StitchRammbSlider.ReadsAs(segs[5], 2, zoom)
      && StitchRammbSlider.TileFileReadsAs(segs[6], x, y)
  {
    StitchRammbSlider.BandProductName(band);
    StitchRammbSlider.ImageryUrlFields(t, BandProduct(band), zoom, x, y, sat);
  }

  /** `{(x, y): _rammb_img_url(...) for x, y in product(rangex, rangey)}`. */
  function SatelliteUrls(sat: string, t: DateTime, zoom: int, band: int, rx: seq<int>, ry: seq<int>): (r: Result<Dict<Pos, string>>)
    ensures r.Ok? <==> StitchRammbSlider.KnownSat(sat) || |rx| == 0 || |ry| == 0
    ensures r.Err? ==> r.error == ValueError
    ensures r.Ok? ==> r.value.Valid() && forall x, y :: (x, y) in r.value.m <==> x in rx && y in ry
    ensures r.Ok? ==> forall x, y | (x, y) in r.value.m ::
      r.value.m[(x, y)] == RammbImgUrl(t, band, zoom, x, y, sat).value
  {
    StitchRammbSlider.TileUrls(rx, ry, (p: Pos) => RammbImgUrl(t, band, zoom, p.0, p.1, sat))
  }

  // ---------------------------------------------------------------------
  // Layers, stitched by the strict older `stitch`
  // ---------------------------------------------------------------------

  /**
   * `just_satellite`: the imagery layer in RGB.  `tmpd` and `token` stand
   * for the temporary directory and the random file-name tokens of
   * `save_tiles`.
   */
  function JustSatellite(sat: string, t: DateTime, zoom: int, band: int, rx: seq<int>, ry: seq<int>,
                         net: Network, tmpd: string, token: nat -> string): (r: Result<Image>)
    ensures |rx| > 0 && |ry| > 0 && !StitchRammbSlider.KnownSat(sat) ==> r == Err(ValueError)
    ensures r.Ok? ==> r.value.mode == "RGB"
    ensures var urls := SatelliteUrls(sat, t, zoom, band, rx, ry);
      && (urls.Err? ==> r == Err(urls.error))
      && (urls.Ok? ==> r == LegacyCore.StitchedStrict(urls.value, Transport(urls.value, net), tmpd, token, "RGB"))
  {
    var urls :- SatelliteUrls(sat, t, zoom, band, rx, ry);
    LegacyCore.StitchedStrict(urls, Transport(urls, net), tmpd, token, "RGB")
  }

  /** `map_boundaries` (kind "map") and `latlons` (kind "lat"): a background layer in RGBA. */
  function BackgroundLayer(sat: string, zoom: int, kind: string, rx: seq<int>, ry: seq<int>,
                           net: Network, tmpd: string, token: nat -> string): (r: Result<Image>)
    ensures |rx| > 0 && |ry| > 0 && !StitchRammbSlider.KnownSat(sat) ==> r == Err(ValueError)
    ensures r.Ok? ==> r.value.mode == "RGBA"
    ensures var urls := StitchRammbSlider.BackgroundUrls(sat, zoom, kind, rx, ry);
      && (urls.Err? ==> r == Err(urls.error))
      && (urls.Ok? ==> r == LegacyCore.StitchedStrict(urls.value, Transport(urls.value, net), tmpd, token, "RGBA"))
  {
    var urls :- StitchRammbSlider.BackgroundUrls(sat, zoom, kind, rx, ry);
    LegacyCore.StitchedStrict(urls, Transport(urls, net), tmpd, token, "RGBA")
  }

  /** An empty range requests nothing, and the older `stitch` raises ValueError on an empty dict. */
  lemma EmptyRangeFails(sat: string, t: DateTime, zoom: int, band: int, rx: seq<int>, ry: seq<int>,
                        net: Network, tmpd: string, token: nat -> string)
    requires |rx| == 0 || |ry| == 0
    ensures JustSatellite(sat, t, zoom, band, rx, ry, net, tmpd, token) == Err(ValueError)
  {
    var urls := SatelliteUrls(sat, t, zoom, band, rx, ry).value;
    assert urls.keys == [];
    assert Transport(urls, net) == [];
  }

  /**
   * The imagery with the map boundaries overlaid when `boundaries` is set
   * and then the lat/lon grid when `latlon` is set, each by the RGBA
   * `overlay` of `core.py`; the size is the imagery's throughout.
   */
  function Backgrounds(sat: string, t: DateTime, zoom: int, band: int, rx: seq<int>, ry: seq<int>,
                       boundaries: bool, latlon: bool, net: Network, tmpd: string, token: nat -> string,
                       pil: Pil): (r: Result<Image>)
    requires Sound(pil)
    ensures var img := JustSatellite(sat, t, zoom, band, rx, ry, net, tmpd, token);
      && (img.Err? ==> r == Err(img.error))
      && (r.Ok? ==> img.Ok? && r.value.width == img.value.width && r.value.height == img.value.height)
    ensures !boundaries && !latlon ==> r == JustSatellite(sat, t, zoom, band, rx, ry, net, tmpd, token)
    ensures r.Ok? && (boundaries || latlon) ==> r.value.mode == "RGBA"
    ensures var img := JustSatellite(sat, t, zoom, band, rx, ry, net, tmpd, token);
      var mapBg := BackgroundLayer(sat, zoom, "map", rx, ry, net, tmpd, token);
      var latBg := BackgroundLayer(sat, zoom, "lat", rx, ry, net, tmpd, token);
      && (r.Ok? <==> img.Ok? && (boundaries ==> mapBg.Ok?) && (latlon ==> latBg.Ok?))
      && (img.Ok? && boundaries && mapBg.Err? ==> r == Err(mapBg.error))
      && (img.Ok? && (!boundaries || mapBg.Ok?) && latlon && latBg.Err? ==> r == Err(latBg.error))
    ensures r.Ok? && boundaries && !latlon ==>
      r.value == LegacyCore.Overlay(JustSatellite(sat, t, zoom, band, rx, ry, net, tmpd, token).value,
                                    BackgroundLayer(sat, zoom, "map", rx, ry, net, tmpd, token).value, (0, 0), pil)
    ensures r.Ok? && !boundaries && latlon ==>
      r.value == LegacyCore.Overlay(JustSatellite(sat, t, zoom, band, rx, ry, net, tmpd, token).value,
                                    BackgroundLayer(sat, zoom, "lat", rx, ry, net, tmpd, token).value, (0, 0), pil)
    ensures r.Ok? && boundaries ==> BackgroundLayer(sat, zoom, "map", rx, ry, net, tmpd, token).Ok?
    ensures r.Ok? && latlon ==> BackgroundLayer(sat, zoom, "lat", rx, ry, net, tmpd, token).Ok?
    ensures r.Ok? && boundaries && latlon ==>
      var img := JustSatellite(sat, t, zoom, band, rx, ry, net, tmpd, token).value;
      var mapBg := BackgroundLayer(sat, zoom, "map", rx, ry, net, tmpd, token).value;
      var latBg := BackgroundLayer(sat, zoom, "lat", rx, ry, net, tmpd, token).value;
      r.value == LegacyCore.Overlay(LegacyCore.Overlay(img, mapBg, (0, 0), pil), latBg, (0, 0), pil)
  {
    var img :- JustSatellite(sat, t, zoom, band, rx, ry, net, tmpd, token);
    var withMap :-
      if boundaries then
        var mapBg :- BackgroundLayer(sat, zoom, "map", rx, ry, net, tmpd, token);
        Ok(LegacyCore.Overlay(img, mapBg, (0, 0), pil))
      else Ok(img);
    var withLat :-
      if latlon then
        var latBg :- BackgroundLayer(sat, zoom, "lat", rx, ry, net, tmpd, token);
        Ok(LegacyCore.Overlay(withMap, latBg, (0, 0), pil))
      else Ok(withMap);
    Ok(withLat)
  }

  // ---------------------------------------------------------------------
  // Logos along the bottom edge
  // ---------------------------------------------------------------------

  /** The total width of a run of logos. */
  function WidthSum(logos: seq<Image>): nat
    decreases |logos|
  {
    if logos == [] then 0 else logos[0].width + WidthSum(logos[1..])
  }

  lemma WidthSumStep(logos: seq<Image>, k: nat)
    requires k < |logos|
    ensures WidthSum(logos[k..]) == logos[k].width + WidthSum(logos[k + 1..])
  {
    assert logos[k..][1..] == logos[k + 1..];
  }

  /** The left edge of logo k on an image `width` wide: the logos after it fill the rest to the right edge. */
  function LogoX(width: nat, logos: seq<Image>, k: nat): int
    requires k <= |logos|
  {
    width - WidthSum(logos[k..])
  }

  /**
   * The image after the logos from k on have been overlaid, the last one
   * first: logo j at (LogoX(j), H - its height).
   */
  function Stamped(img: Image, logos: seq<Image>, k: nat, pil: Pil): (r: Image)
    requires Sound(pil) && k <= |logos|
    ensures r.width == img.width && r.height == img.height
    ensures k < |logos| ==> r.mode == "RGBA"
    ensures k == |logos| ==> r == img
    decreases |logos| - k
  {
    if k == |logos| then img
    else
      var below := Stamped(img, logos, k + 1, pil);
      LegacyCore.Overlay(below, logos[k], (LogoX(img.width, logos, k), img.height - logos[k].height), pil)
  }

  /**
   * The logos abut: each one's right edge is the next one's left edge, the
   * last one ends at the right edge of the image, and the run starts the
   * sum of their widths from the right edge.
   */
  lemma LogosAbut(width: nat, logos: seq<Image>, k: nat)
    requires k < |logos|
    ensures LogoX(width, logos, k) + logos[k].width == if k + 1 == |logos| then width else LogoX(width, logos, k + 1)
    ensures LogoX(width, logos, 0) == width - WidthSum(logos)
  {
    WidthSumStep(logos, k);
    assert logos[0..] == logos;
  }

  /**
   * The loop of `_get_satellite_img` over `reversed(logo_imgs)`: x starts
   * at the image width and each logo is overlaid at (x - its width,
   * H - its height) after x moves left by its width.
   */
  method PlaceLogos(img: Image, logos: seq<Image>, pil: Pil) returns (out: Image)
    requires Sound(pil)
    ensures out == Stamped(img, logos, 0, pil)
  {
    var width, height := img.width, img.height;
    var xpos: int := width;
    out := img;
    var k := |logos|;
    while k > 0
      invariant 0 <= k <= |logos|
      invariant xpos == LogoX(width, logos, k)
      invariant out == Stamped(img, logos, k, pil)
    {
      WidthSumStep(logos, k - 1);
      k := k - 1;
      var logo := logos[k];
      xpos := xpos - logo.width;
      out := LegacyCore.Overlay(out, logo, (xpos, height - logo.height), pil);
    }
  }

  /**
   * `_get_satellite_img` with `logos` the fetched logos (None when a
   * logo response was not 200): the backgrounds, then, when `logo` is set and the logos
   * came, the logos laid along the bottom edge from the right.
   */
  method GetSatelliteImg(sat: string, t: DateTime, zoom: int, band: int, rx: seq<int>, ry: seq<int>,
                         boundaries: bool, latlon: bool, logo: bool, logos: Option<seq<Image>>,
                         net: Network, tmpd: string, token: nat -> string, pil: Pil)
    returns (r: Result<Image>)
    requires Sound(pil)
    ensures var bg := Backgrounds(sat, t, zoom, band, rx, ry, boundaries, latlon, net, tmpd, token, pil);
      && (r.Ok? <==> bg.Ok?)
      && (bg.Err? ==> r == bg)
      && (r.Ok? ==> r.value == if logo && logos.Some? then Stamped(bg.value, logos.value, 0, pil) else bg.value)
  {
    var img := JustSatellite(sat, t, zoom, band, rx, ry, net, tmpd, token);
    if img.Err? {
      return Err(img.error);
    }
    var satImg := img.value;
    if boundaries {
      var mapBg := BackgroundLayer(sat, zoom, "map", rx, ry, net, tmpd, token);
      if mapBg.Err? {
        return Err(mapBg.error);
      }
      satImg := LegacyCore.Overlay(satImg, mapBg.value, (0, 0), pil);
    }
    if latlon {
      var latBg := BackgroundLayer(sat, zoom, "lat", rx, ry, net, tmpd, token);
      if latBg.Err? {
        return Err(latBg.error);
      }
      satImg := LegacyCore.Overlay(satImg, latBg.value, (0, 0), pil);
    }
    if logo && logos.Some? {
      satImg := PlaceLogos(satImg, logos.value, pil);
    }
    r := Ok(satImg);
  }
}
