/**
 * The RAMMB/CIRA slider source of the `stitch` package: the tile-URL
 * builders for the imagery and the map / lat-lon backgrounds, the
 * position -> URL dicts built over the cartesian product of the tile
 * ranges, and the order in which the background layers are overlaid.
 */
module StitchRammbSlider {
  import opened Base
  import opened Text
  import opened Raster
  import opened StitchCore
  import opened StitchPostprocess

  const ParentUrl: string := "http://rammb-slider.cira.colostate.edu/data"
  const SatHimawari: string := "himawari"
  const SatGoes16: string := "goes-16"

  predicate KnownSat(sat: string) {
    sat == SatHimawari || sat == SatGoes16
  }

  // ---------------------------------------------------------------------
  // Position -> URL dicts over rangex x rangey
  // ---------------------------------------------------------------------

  /** The positions (x, y) for one x, in the order of `rangey`. */
  function Column(x: int, ry: seq<int>): (ps: seq<Pos>)
    ensures |ps| == |ry|
    ensures forall k | 0 <= k < |ry| :: ps[k] == (x, ry[k])
  {
    seq(|ry|, k requires 0 <= k < |ry| => (x, ry[k]))
  }

  /** `itertools.product(rangex, rangey)`: x varies slowest. */
  function Cartesian(rx: seq<int>, ry: seq<int>): (ps: seq<Pos>)
    ensures |ps| == |rx| * |ry|
    ensures forall x, y :: (x, y) in ps <==> x in rx && y in ry
    decreases |rx|
  {
    if rx == [] then []
    else
      var col, rest := Column(rx[0], ry), Cartesian(rx[1..], ry);
      assert forall x, y :: (x, y) in col <==> x == rx[0] && y in ry by {
        forall x, y | x == rx[0] && y in ry
          ensures (x, y) in col
        {
          var k :| 0 <= k < |ry| && ry[k] == y;
          assert col[k] == (x, y);
        }
      }
      assert forall x :: x in rx <==> x == rx[0] || x in rx[1..];
      col + rest
  }

  /**
   * `{p: f(p) for p in ps}` where f may raise: the first position whose
   * URL cannot be built aborts the comprehension with its error.
   */
  function UrlMap(ps: seq<Pos>, f: Pos -> Result<string>): (r: Result<Dict<Pos, string>>)
    ensures r.Ok? <==> forall k | 0 <= k < |ps| :: f(ps[k]).Ok?
    ensures r.Err? ==> exists k | 0 <= k < |ps| ::
      f(ps[k]) == Err(r.error) && forall j | 0 <= j < k :: f(ps[j]).Ok?
    ensures r.Ok? ==> r.value.Valid() && forall p :: p in r.value.m <==> p in ps
    ensures r.Ok? ==> forall p | p in r.value.m :: f(p) == Ok(r.value.m[p])
    decreases |ps|
  {
    if ps == [] then Ok(EmptyDict())
    else
      var init, last := ps[..|ps| - 1], ps[|ps| - 1];
      assert forall k | 0 <= k < |init| :: init[k] == ps[k];
      assert forall p :: p in ps <==> p in init || p == last;
      var d :- UrlMap(init, f);
      var u :- f(last);
      Ok(d.Put(last, u))
  }

  /** The URL dict over the tile ranges: its keys are exactly rangex x rangey. */
  function TileUrls(rx: seq<int>, ry: seq<int>, f: Pos -> Result<string>): (r: Result<Dict<Pos, string>>)
    ensures r.Ok? <==> forall x, y | x in rx && y in ry :: f((x, y)).Ok?
    ensures r.Ok? ==> r.value.Valid() && forall x, y :: (x, y) in r.value.m <==> x in rx && y in ry
    ensures r.Ok? ==> forall p | p in r.value.m :: f(p) == Ok(r.value.m[p])
    ensures r.Err? ==> exists x, y | x in rx && y in ry :: f((x, y)) == Err(r.error)
  {
    UrlMapOverProduct(rx, ry, f);
    UrlMap(Cartesian(rx, ry), f)
  }

  lemma UrlMapOverProduct(rx: seq<int>, ry: seq<int>, f: Pos -> Result<string>)
    ensures var r := UrlMap(Cartesian(rx, ry), f);
      && (r.Ok? <==> forall x, y | x in rx && y in ry :: f((x, y)).Ok?)
      && (r.Err? ==> exists x, y | x in rx && y in ry :: f((x, y)) == Err(r.error))
  {
    var ps := Cartesian(rx, ry);
    var r := UrlMap(ps, f);
    if r.Ok? {
      forall x, y | x in rx && y in ry
        ensures f((x, y)).Ok?
      {
        assert (x, y) in ps;
        var k :| 0 <= k < |ps| && ps[k] == (x, y);
      }
    } else {
      var k :| 0 <= k < |ps| && f(ps[k]) == Err(r.error);
      var (x, y) := ps[k];
      assert (x, y) in ps;
    }
  }

  // ---------------------------------------------------------------------
  // URL builders
  // ---------------------------------------------------------------------

  /** The product as `just_satellite` names it: `'band_'` + a zero-padded int, or a name verbatim. */
  datatype Product = BandNumber(band: int) | Named(name: string)

  function ProductName(p: Product): string {
    match p
    case BandNumber(b) => BandProduct(b)
    case Named(s) => s
  }

  /** `'{}_{}'.format(str(y).zfill(3), str(x).zfill(3))`: row before column. */
  function TilePosition(x: int, y: int): string {
    Padded(y, 3) + "_" + Padded(x, 3)
  }

  /** A zero-padded field of the given width that reads back as `n`. */
  predicate ReadsAs(s: string, width: nat, n: int) {
    |s| == width && AllDigits(s) && PyInt(s) == Ok(n)
  }

  /** A tile file name `yyy_xxx.png` that reads back as position (x, y). */
  predicate TileFileReadsAs(s: string, x: int, y: int) {
    |s| == 11 && ReadsAs(s[..3], 3, y) && s[3] == '_' && ReadsAs(s[4..7], 3, x) && s[7..] == ".png"
  }

  lemma PaddedReadsAs(n: nat, width: nat)
    requires width >= 1 && n < Pow10(width)
    ensures ReadsAs(Padded(n, width), width, n)
  {
    PaddedDigits(n, width);
    PaddedRoundTrip(n, width);
  }

  /** The position segment of every tile URL decodes to the tile's (x, y) and holds no '/'. */
  lemma TileFileDecodes(x: nat, y: nat)
    requires x < 1000 && y < 1000
    ensures TileFileReadsAs(TilePosition(x, y) + ".png", x, y)
    ensures '/' !in TilePosition(x, y) + ".png"
  {
    var py, px := Padded(y, 3), Padded(x, 3);
    assert Pow10(3) == 1000;
    PaddedReadsAs(y, 3);
    PaddedReadsAs(x, 3);
    var s := TilePosition(x, y) + ".png";
    assert s == py + "_" + px + ".png";
    assert s[..3] == py && s[4..7] == px && s[7..] == ".png";
  }

  /**
   * `_rammb_img_url`: imagery tile URL
   * `PARENT/imagery/{date}/{imgtype}/{product}/{datetime}/{zoom}/{position}.png`,
   * with imgtype and seconds chosen by the satellite; any other satellite
   * raises ValueError.
   */
  function RammbImgUrl(t: DateTime, product: string, zoom: int, xtile: int, ytile: int, sat: string): (r: Result<string>)
    ensures r.Ok? <==> KnownSat(sat)
    ensures r.Err? ==> r.error == ValueError
  {
    if sat == SatHimawari || sat == SatGoes16 then
      var imgtype := if sat == SatHimawari then "himawari---full_disk" else "goes-16---full_disk";
      var seconds := if sat == SatHimawari then "00" else "37";
      var datestr := DateStamp(t);
      var datetimestr := DateStamp(t) + HourMinute(t) + seconds;
      Ok(SliderUrl(["imagery", datestr, imgtype, product, datetimestr, Padded(zoom, 2),
                     TilePosition(xtile, ytile) + ".png"]))
    else Err(ValueError)
  }

  /** `PARENT_URL` followed by the '/'-separated path segments. */
  function SliderUrl(segs: seq<string>): string {
    ParentUrl + "/" + Join(segs, '/')
  }

  /** The path segments after `PARENT_URL/`, when the URL starts with it. */
  function PathSegments(url: string): seq<string> {
    if |url| > |ParentUrl| then Split(url[|ParentUrl| + 1..], '/') else []
  }

  /** The seven-segment case of SliderUrlSegments, the shape of every tile URL. */
  lemma SliderUrlSevenSegments(s0: string, s1: string, s2: string, s3: string, s4: string, s5: string, s6: string)
    requires '/' !in s0 && '/' !in s1 && '/' !in s2 && '/' !in s3
    requires '/' !in s4 && '/' !in s5 && '/' !in s6
    ensures var segs := [s0, s1, s2, s3, s4, s5, s6];
      SliderUrl(segs)[..|ParentUrl| + 1] == ParentUrl + "/" && PathSegments(SliderUrl(segs)) == segs
  {
    SliderUrlSegments([s0, s1, s2, s3, s4, s5, s6]);
  }

  /** A slider URL is parsed back into the segments it was built from, when none holds a '/'. */
  lemma SliderUrlSegments(segs: seq<string>)
    requires |segs| >= 1 && forall k | 0 <= k < |segs| :: '/' !in segs[k]
    ensures SliderUrl(segs)[..|ParentUrl| + 1] == ParentUrl + "/"
    ensures PathSegments(SliderUrl(segs)) == segs
  {
    var url := SliderUrl(segs);
    assert url[|ParentUrl| + 1..] == Join(segs, '/');
    SplitJoin(segs, '/');
  }

  /** The fixed path segments of the slider URLs hold no '/'. */
  lemma FixedSegmentsHaveNoSlash()
    ensures '/' !in SatHimawari && '/' !in SatGoes16
    ensures '/' !in "20170620161000" && '/' !in "20170620160038"
    ensures '/' !in "full_disk" && '/' !in "white" && '/' !in "imagery"
    ensures '/' !in "himawari---full_disk" && '/' !in "goes-16---full_disk"
  {
  }

  /** Each satellite's imagery type is its name followed by `---full_disk`. */
  lemma ImageryTypeNames()
    ensures SatHimawari + "---full_disk" == "himawari---full_disk"
    ensures SatGoes16 + "---full_disk" == "goes-16---full_disk"
  {
  }

  lemma DigitsHaveNoSlash(s: string)
    requires AllDigits(s)
    ensures '/' !in s
  {
  }

  lemma DateTimeDigits(t: DateTime)
    ensures AllDigits(DateStamp(t)) && AllDigits(HourMinute(t))
  {
    PaddedDigits(t.month, 2);
    PaddedDigits(t.day, 2);
    PaddedDigits(t.hour, 2);
    PaddedDigits(t.minute, 2);
  }

  /**
   * The imagery URL can be read back: seven path segments under
   * `PARENT_URL/` naming the date, the satellite's full-disk imagery type,
   * the product, date+time with the satellite's seconds, the two-digit
   * zoom and the tile's row and column.
   */
  lemma ImageryUrlFields(t: DateTime, product: string, zoom: nat, x: nat, y: nat, sat: string)
    requires KnownSat(sat) && '/' !in product
    requires zoom < 100 && x < 1000 && y < 1000
    ensures var url := RammbImgUrl(t, product, zoom, x, y, sat).value;
      var segs := PathSegments(url);
      && url[..|ParentUrl| + 1] == ParentUrl + "/"
      && |segs| == 7
      && segs[0] == "imagery" && segs[1] == DateStamp(t)
      && segs[2] == sat + "---full_disk" && segs[3] == product
      && segs[4] == DateStamp(t) + HourMinute(t) + (if sat == SatHimawari then "00" else "37")
      && ReadsAs(segs[5], 2, zoom)
      && TileFileReadsAs(segs[6], x, y)
  {
    var seconds := if sat == SatHimawari then "00" else "37";
    var datestr, datetimestr := DateStamp(t), DateStamp(t) + HourMinute(t) + seconds;
    var zoomstr, file := Padded(zoom, 2), TilePosition(x, y) + ".png";
    ImageryFieldsHaveNoSlash(t, zoom, x, y, seconds);
    FixedSegmentsHaveNoSlash();
    ImageryTypeNames();
    var segs := ["imagery", datestr, sat + "---full_disk", product, datetimestr, zoomstr, file];
    assert RammbImgUrl(t, product, zoom, x, y, sat).value == SliderUrl(segs);
    SliderUrlSevenSegments("imagery", datestr, sat + "---full_disk", product, datetimestr, zoomstr, file);
  }

  /** The date, time, zoom and tile segments hold no '/' and read back as their fields. */
  lemma ImageryFieldsHaveNoSlash(t: DateTime, zoom: nat, x: nat, y: nat, seconds: string)
    requires seconds == "00" || seconds == "37"
    requires zoom < 100 && x < 1000 && y < 1000
    ensures '/' !in DateStamp(t) && '/' !in DateStamp(t) + HourMinute(t) + seconds
    ensures ReadsAs(Padded(zoom, 2), 2, zoom) && '/' !in Padded(zoom, 2)
    ensures TileFileReadsAs(TilePosition(x, y) + ".png", x, y) && '/' !in TilePosition(x, y) + ".png"
  {
    var datetimestr := DateStamp(t) + HourMinute(t) + seconds;
    assert '/' !in DateStamp(t) && '/' !in datetimestr by {
      DateTimeDigits(t);
      assert AllDigits(seconds);
      assert AllDigits(datetimestr);
    }
    assert Pow10(2) == 100;
    PaddedReadsAs(zoom, 2);
    TileFileDecodes(x, y);
  }

  /**
   * `_map_or_latlon_url`: background tile URL
   * `PARENT/{type}/{sat}/full_disk/white/{date}/{zoom}/{pos}.png`, with a
   * fixed date per satellite; any other satellite raises ValueError.
   */
  function MapOrLatlonUrl(x: int, y: int, zoom: int, mapOrLat: string, sat: string): (r: Result<string>)
    ensures r.Ok? <==> KnownSat(sat)
    ensures r.Err? ==> r.error == ValueError
  {
    if sat == SatHimawari || sat == SatGoes16 then
      var someDate := if sat == SatHimawari then "20170620161000" else "20170620160038";
      Ok(SliderUrl([mapOrLat, sat, "full_disk", "white", someDate, Padded(zoom, 2),
                     TilePosition(x, y) + ".png"]))
    else Err(ValueError)
  }

  /**
   * The background URL can be read back: the layer type, the satellite,
   * the fixed white full-disk style, the satellite's reference date, the
   * two-digit zoom and the tile's row and column.
   */
  lemma BackgroundUrlFields(x: nat, y: nat, zoom: nat, mapOrLat: string, sat: string)
    requires KnownSat(sat) && '/' !in mapOrLat
    requires zoom < 100 && x < 1000 && y < 1000
    ensures var url := MapOrLatlonUrl(x, y, zoom, mapOrLat, sat).value;
      var segs := PathSegments(url);
      && url[..|ParentUrl| + 1] == ParentUrl + "/"
      && |segs| == 7
      && segs[0] == mapOrLat && segs[1] == sat && segs[2] == "full_disk" && segs[3] == "white"
      && segs[4] == (if sat == SatHimawari then "20170620161000" else "20170620160038")
      && ReadsAs(segs[5], 2, zoom)
      && TileFileReadsAs(segs[6], x, y)
  {
    var someDate := if sat == SatHimawari then "20170620161000" else "20170620160038";
    var zoomstr, file := Padded(zoom, 2), TilePosition(x, y) + ".png";
    var segs := [mapOrLat, sat, "full_disk", "white", someDate, zoomstr, file];
    assert ReadsAs(zoomstr, 2, zoom) && '/' !in zoomstr by {
      assert Pow10(2) == 100;
      PaddedReadsAs(zoom, 2);
    }
    assert TileFileReadsAs(file, x, y) && '/' !in file by {
      TileFileDecodes(x, y);
    }
    FixedSegmentsHaveNoSlash();
    SliderUrlSevenSegments(mapOrLat, sat, "full_disk", "white", someDate, zoomstr, file);
  }

  /** A numbered band becomes `band_NN`, which reads back as the band and keeps the URL's segments apart. */
  lemma BandProductName(band: nat)
    requires band < 100
    ensures var s := ProductName(BandNumber(band));
      && s[..5] == "band_" && ReadsAs(s[5..], 2, band) && '/' !in s
  {
    assert Pow10(2) == 100;
    PaddedReadsAs(band, 2);
    var s := ProductName(BandNumber(band));
    assert s[5..] == Padded(band, 2);
  }

  // ---------------------------------------------------------------------
  // Layers and their composition
  // ---------------------------------------------------------------------

  /** The imagery URL dict of `just_satellite`. */
  function SatelliteUrls(sat: string, t: DateTime, zoom: int, product: Product,
                         rx: seq<int>, ry: seq<int>): (r: Result<Dict<Pos, string>>)
    ensures r.Ok? <==> KnownSat(sat) || |rx| == 0 || |ry| == 0
    ensures r.Err? ==> r.error == ValueError
    ensures r.Ok? ==> r.value.Valid() && forall x, y :: (x, y) in r.value.m <==> x in rx && y in ry
    ensures r.Ok? ==> forall x, y | (x, y) in r.value.m ::
      r.value.m[(x, y)] == RammbImgUrl(t, ProductName(product), zoom, x, y, sat).value
  {
    TileUrls(rx, ry, (p: Pos) => RammbImgUrl(t, ProductName(product), zoom, p.0, p.1, sat))
  }

  /** The background URL dict of `map_boundaries` (kind "map") and `latlons` (kind "lat"). */
  function BackgroundUrls(sat: string, zoom: int, kind: string, rx: seq<int>, ry: seq<int>): (r: Result<Dict<Pos, string>>)
    ensures r.Ok? <==> KnownSat(sat) || |rx| == 0 || |ry| == 0
    ensures r.Err? ==> r.error == ValueError
    ensures r.Ok? ==> r.value.Valid() && forall x, y :: (x, y) in r.value.m <==> x in rx && y in ry
    ensures r.Ok? ==> forall x, y | (x, y) in r.value.m ::
      r.value.m[(x, y)] == MapOrLatlonUrl(x, y, zoom, kind, sat).value
  {
    TileUrls(rx, ry, (p: Pos) => MapOrLatlonUrl(p.0, p.1, zoom, kind, sat))
  }

  /** `just_satellite`: the imagery layer, stitched in RGB. */
  function JustSatellite(sat: string, t: DateTime, zoom: int, product: Product,
                         rx: seq<int>, ry: seq<int>, net: Network): (r: Result<Image>)
    ensures |rx| > 0 && |ry| > 0 && !KnownSat(sat) ==> r == Err(ValueError)
    ensures r.Ok? ==> r.value.mode == "RGB"
    ensures var urls := SatelliteUrls(sat, t, zoom, product, rx, ry);
      && (urls.Err? ==> r == Err(urls.error))
      && (urls.Ok? ==> r == Stitched(urls.value, Transport(urls.value, net), "RGB"))
  {
    var urls :- SatelliteUrls(sat, t, zoom, product, rx, ry);
    Stitched(urls, Transport(urls, net), "RGB")
  }

  /** `map_boundaries` (kind "map") and `latlons` (kind "lat"): a background layer, stitched in RGBA. */
  function BackgroundLayer(sat: string, zoom: int, kind: string, rx: seq<int>, ry: seq<int>, net: Network): (r: Result<Image>)
    ensures |rx| > 0 && |ry| > 0 && !KnownSat(sat) ==> r == Err(ValueError)
    ensures r.Ok? ==> r.value.mode == "RGBA"
    ensures var urls := BackgroundUrls(sat, zoom, kind, rx, ry);
      && (urls.Err? ==> r == Err(urls.error))
      && (urls.Ok? ==> r == Stitched(urls.value, Transport(urls.value, net), "RGBA"))
  {
    var urls :- BackgroundUrls(sat, zoom, kind, rx, ry);
    Stitched(urls, Transport(urls, net), "RGBA")
  }

  /** An empty tile range requests nothing, so stitching raises StitchException. */
  lemma EmptyRangeStitch(sat: string, t: DateTime, zoom: int, product: Product,
                         rx: seq<int>, ry: seq<int>, net: Network)
    requires |rx| == 0 || |ry| == 0
    ensures JustSatellite(sat, t, zoom, product, rx, ry, net) == Err(StitchException)
  {
    NothingRequestedStitch(SatelliteUrls(sat, t, zoom, product, rx, ry).value, net, "RGB");
  }

  /**
   * `_get_satellite_img` up to the post-processor: the imagery, with the
   * map boundaries overlaid when `boundaries` is set and then the lat/lon
   * grid when `latlon` is set.  Every overlay keeps the imagery's mode
   * and size, and the boundary layer lies under the lat/lon layer.
   */
  function SatelliteImage(sat: string, t: DateTime, zoom: int, product: Product, rx: seq<int>, ry: seq<int>,
                          boundaries: bool, latlon: bool, net: Network, pil: Pil): (r: Result<Image>)
    requires Sound(pil)
    ensures var img := JustSatellite(sat, t, zoom, product, rx, ry, net);
      && (img.Err? ==> r == Err(img.error))
      && (r.Ok? ==> img.Ok? && SameShape(r.value, img.value))
    ensures !boundaries && !latlon ==> r == JustSatellite(sat, t, zoom, product, rx, ry, net)
    ensures var img := JustSatellite(sat, t, zoom, product, rx, ry, net);
      var mapBg := BackgroundLayer(sat, zoom, "map", rx, ry, net);
      var latBg := BackgroundLayer(sat, zoom, "lat", rx, ry, net);
      && (r.Ok? <==> img.Ok? && (boundaries ==> mapBg.Ok?) && (latlon ==> latBg.Ok?))
      && (img.Ok? && boundaries && mapBg.Err? ==> r == Err(mapBg.error))
      && (img.Ok? && (!boundaries || mapBg.Ok?) && latlon && latBg.Err? ==> r == Err(latBg.error))
    ensures r.Ok? && boundaries && !latlon ==>
      r.value == pil.composite(JustSatellite(sat, t, zoom, product, rx, ry, net).value,
                               BackgroundLayer(sat, zoom, "map", rx, ry, net).value, 0, 0)
    ensures r.Ok? && !boundaries && latlon ==>
      r.value == pil.composite(JustSatellite(sat, t, zoom, product, rx, ry, net).value,
                               BackgroundLayer(sat, zoom, "lat", rx, ry, net).value, 0, 0)
    ensures r.Ok? && boundaries ==> BackgroundLayer(sat, zoom, "map", rx, ry, net).Ok?
    ensures r.Ok? && latlon ==> BackgroundLayer(sat, zoom, "lat", rx, ry, net).Ok?
    ensures r.Ok? && boundaries && latlon ==>
      var img := JustSatellite(sat, t, zoom, product, rx, ry, net).value;
      var mapBg := BackgroundLayer(sat, zoom, "map", rx, ry, net).value;
      var latBg := BackgroundLayer(sat, zoom, "lat", rx, ry, net).value;
      r.value == pil.composite(pil.composite(img, mapBg, 0, 0), latBg, 0, 0)
  {
    var img :- JustSatellite(sat, t, zoom, product, rx, ry, net);
    var withMap :-
      if boundaries then
        var mapBg :- BackgroundLayer(sat, zoom, "map", rx, ry, net);
        Ok(Overlay(img, mapBg, (0, 0), pil))
      else Ok(img);
    var withLat :-
      if latlon then
        var latBg :- BackgroundLayer(sat, zoom, "lat", rx, ry, net);
        Ok(Overlay(withMap, latBg, (0, 0), pil))
      else Ok(withMap);
    Ok(withLat)
  }
}
