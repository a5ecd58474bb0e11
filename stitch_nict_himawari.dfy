/**
 * The NICT Himawari-8 source of the `stitch` package: the product and
 * zoom-level tables, the tile-URL builders for the imagery and the
 * coastline overlay, and `_get_himawari`, which stitches both layers and
 * hands the result to a NICT post-processor, cropped when asked.
 */
module StitchNictHimawari {
  import opened Base
  import opened Text
  import opened Raster
  import opened StitchCore
  import opened StitchPostprocess
  import opened StitchRammbSlider

  const BaseUrl: string := "http://himawari8-dl.nict.go.jp/himawari8"

  /** `_product_ref`: the provider's code for each product name. */
  const ProductRef: map<string, string> := map["vis" := "D531106", "ir" := "INFRARED_FULL"]

  /** `_zoom_ref`: per product code, the tile-grid code for each zoom level. */
  const ZoomRef: map<string, map<int, string>> := map[
    "D531106" := map[1 := "1d", 2 := "2d", 3 := "4d", 4 := "8d", 5 := "16d", 6 := "20d"],
    "INFRARED_FULL" := map[1 := "1d", 2 := "4d", 3 := "8d"]]

  /** The zoom levels the tables know, written out per product. */
  predicate KnownProductZoom(product: string, zoom: int) {
    (Lower(product) == "vis" && 1 <= zoom <= 6) || (Lower(product) == "ir" && 1 <= zoom <= 3)
  }

  /**
   * `_himawari_url_common`: `BASE_URL/img/{product code}/{zoom code}/550`
   * for a product named in any letter case and a zoom level of its table;
   * any other product or zoom raises ValueError.
   */
  function HimawariUrlCommon(zoom: int, product: string): (r: Result<string>)
    ensures r.Ok? <==> KnownProductZoom(product, zoom)
    ensures r.Err? ==> r.error == ValueError
  {
    var name := Lower(product);
    if name in ProductRef && ProductRef[name] in ZoomRef && zoom in ZoomRef[ProductRef[name]] then
      var code := ProductRef[name];
      Ok(BaseUrl + "/img/" + code + "/" + ZoomRef[code][zoom] + "/550")
    else Err(ValueError)
  }

  /** The product name is looked up case-insensitively: names that lower-case alike give the same prefix. */
  lemma ProductNameCaseInsensitive(zoom: int, p: string, q: string)
    requires Lower(p) == Lower(q)
    ensures HimawariUrlCommon(zoom, p) == HimawariUrlCommon(zoom, q)
  {
  }

  /** The number of tiles per side that a zoom code names (`"4d"` -> 4). */
  function TilesPerSide(code: string): nat {
    if |code| > 0 && AllDigits(code[..|code| - 1]) then DigitsValue(code[..|code| - 1]) else 0
  }

  /** Within each product's table a higher zoom level always names a finer tile grid. */
  lemma ZoomLevelsRefine(code: string, z1: int, z2: int)
    requires code in ZoomRef && z1 in ZoomRef[code] && z2 in ZoomRef[code] && z1 < z2
    ensures TilesPerSide(ZoomRef[code][z1]) < TilesPerSide(ZoomRef[code][z2])
  {
    assert TilesPerSide("1d") == 1 by { assert "1d"[..1] == "1" && "1"[..0] == ""; }
    assert TilesPerSide("2d") == 2 by { assert "2d"[..1] == "2" && "2"[..0] == ""; }
    assert TilesPerSide("4d") == 4 by { assert "4d"[..1] == "4" && "4"[..0] == ""; }
    assert TilesPerSide("8d") == 8 by { assert "8d"[..1] == "8" && "8"[..0] == ""; }
    assert TilesPerSide("16d") == 16 by { assert "16d"[..2] == "16" && "16"[..1] == "1" && "1"[..0] == ""; }
    assert TilesPerSide("20d") == 20 by { assert "20d"[..2] == "20" && "20"[..1] == "2" && "2"[..0] == ""; }
  }

  /** `{head}_{x}_{y}.png`, x and y unpadded. */
  function TileName(head: string, x: int, y: int): string {
    Join([head, IntToString(x), IntToString(y) + ".png"], '_')
  }

  /** A name `{head}_{x}_{y}.png` whose fields after the head read back as x and y. */
  predicate NameReadsAs(name: string, x: int, y: int) {
    var parts := Split(name, '_');
    && |parts| == 3
    && PyInt(parts[1]) == Ok(x)
    && |parts[2]| > 4 && PyInt(parts[2][..|parts[2]| - 4]) == Ok(y) && parts[2][|parts[2]| - 4..] == ".png"
  }

  /** A tile name splits at '_' into its head, then x and y, which read back as the tile's position. */
  lemma TileNameFields(head: string, x: int, y: int)
    requires '_' !in head
    ensures NameReadsAs(TileName(head, x, y), x, y) && Split(TileName(head, x, y), '_')[0] == head
    ensures '/' !in head ==> '/' !in TileName(head, x, y)
  {
    var sx, sy := IntToString(x), IntToString(y);
    IntToStringChars(x, '_');
    IntToStringChars(y, '_');
    IntToStringChars(x, '/');
    IntToStringChars(y, '/');
    assert '_' !in ".png" && '/' !in ".png";
    assert '_' !in sy + ".png";
    SplitJoin([head, sx, sy + ".png"], '_');
    IntToStringRoundTrip(x);
    IntToStringRoundTrip(y);
    assert (sy + ".png")[..|sy|] == sy;
    if '/' !in head {
      JoinExcludes([head, sx, sy + ".png"], '_', '/');
    }
  }

  /**
   * `_get_product_url`: `{prefix}/{year}/{MM}/{DD}/{HHMM}00_{x}_{y}.png`,
   * the year as is, month and day zero-padded to two digits, the seconds
   * always 00, x before y; ValueError exactly when the prefix is refused.
   */
  function GetProductUrl(t: DateTime, zoom: int, product: string, x: int, y: int): (r: Result<string>)
    ensures r.Ok? <==> KnownProductZoom(product, zoom)
    ensures r.Err? ==> r.error == ValueError
  {
    var prepend :- HimawariUrlCommon(zoom, product);
    Ok(prepend + "/" + Join([NatToString(t.year), Padded(t.month, 2), Padded(t.day, 2),
                             TileName(HourMinute(t) + "00", x, y)], '/'))
  }

  /** The padded month and day read back and hold no '/'. */
  lemma DateFields(t: DateTime)
    requires t.Valid()
    ensures ReadsAs(Padded(t.month, 2), 2, t.month) && ReadsAs(Padded(t.day, 2), 2, t.day)
    ensures '/' !in Padded(t.month, 2) && '/' !in Padded(t.day, 2)
  {
    assert Pow10(2) == 100;
    PaddedReadsAs(t.month, 2);
    PaddedReadsAs(t.day, 2);
  }

  /** The `HHMM00` head of an imagery tile name: six characters, hour, minute, then zero seconds. */
  lemma ClockHeadFields(t: DateTime)
    requires t.Valid()
    ensures var head := HourMinute(t) + "00";
      && |head| == 6 && '/' !in head && '_' !in head
      && ReadsAs(head[..2], 2, t.hour) && ReadsAs(head[2..4], 2, t.minute) && head[4..] == "00"
  {
    var head := HourMinute(t) + "00";
    var hh, mi := Padded(t.hour, 2), Padded(t.minute, 2);
    assert Pow10(2) == 100;
    PaddedReadsAs(t.hour, 2);
    PaddedReadsAs(t.minute, 2);
    assert head == hh + mi + "00";
    assert AllDigits(head);
    assert head[..2] == hh && head[2..4] == mi && head[4..] == "00";
  }

  /**
   * The imagery URL can be read back: below the product prefix come the
   * year, the two-digit month and day, and a tile name whose head is the
   * hour and minute followed by zero seconds and whose other fields are
   * the tile's x and y.
   */
  lemma ProductUrlFields(t: DateTime, zoom: int, product: string, x: int, y: int)
    requires t.Valid() && KnownProductZoom(product, zoom)
    ensures var prefix := HimawariUrlCommon(zoom, product).value;
      var url := GetProductUrl(t, zoom, product, x, y).value;
      && |url| > |prefix| && url[..|prefix| + 1] == prefix + "/"
      && var segs := Split(url[|prefix| + 1..], '/');
      && |segs| == 4
      && PyInt(segs[0]) == Ok(t.year)
      && ReadsAs(segs[1], 2, t.month) && ReadsAs(segs[2], 2, t.day)
      && NameReadsAs(segs[3], x, y)
      && var head := Split(segs[3], '_')[0];
      && |head| == 6 && ReadsAs(head[..2], 2, t.hour) && ReadsAs(head[2..4], 2, t.minute) && head[4..] == "00"
  {
    var year, head := NatToString(t.year), HourMinute(t) + "00";
    DateFields(t);
    ClockHeadFields(t);
    TileNameFields(head, x, y);
    assert PyInt(year) == Ok(t.year) by {
      NatToStringValue(t.year);
      assert Strip(year) == year by {
        assert !IsSpace(year[0]) && !IsSpace(year[|year| - 1]);
      }
    }
    ProductUrlSplits(t, zoom, product, x, y);
  }

  /** Below the prefix, the imagery URL splits into exactly the year, month, day and tile name. */
  lemma ProductUrlSplits(t: DateTime, zoom: int, product: string, x: int, y: int)
    requires t.Valid() && KnownProductZoom(product, zoom)
    ensures var prefix := HimawariUrlCommon(zoom, product).value;
      var url := GetProductUrl(t, zoom, product, x, y).value;
      && |url| > |prefix| && url[..|prefix| + 1] == prefix + "/"
      && Split(url[|prefix| + 1..], '/')
         == [NatToString(t.year), Padded(t.month, 2), Padded(t.day, 2), TileName(HourMinute(t) + "00", x, y)]
  {
    var year, head := NatToString(t.year), HourMinute(t) + "00";
    DateFields(t);
    ClockHeadFields(t);
    TileNameFields(head, x, y);
    DigitsHaveNoSlash(year);
    var prefix := HimawariUrlCommon(zoom, product).value;
    SplitAfterPrefix(prefix, [year, Padded(t.month, 2), Padded(t.day, 2), TileName(head, x, y)], '/');
  }

  /** `_get_coastline_url`: `{prefix}/coastline/ffff00_{x}_{y}.png`. */
  function GetCoastlineUrl(zoom: int, product: string, x: int, y: int): (r: Result<string>)
    ensures r.Ok? <==> KnownProductZoom(product, zoom)
    ensures r.Err? ==> r.error == ValueError
  {
    var prepend :- HimawariUrlCommon(zoom, product);
    Ok(prepend + "/" + Join(["coastline", TileName("ffff00", x, y)], '/'))
  }

  /** The coastline URL reads back as the coastline directory and a yellow tile named by x and y. */
  lemma CoastlineUrlFields(zoom: int, product: string, x: int, y: int)
    requires KnownProductZoom(product, zoom)
    ensures var prefix := HimawariUrlCommon(zoom, product).value;
      var url := GetCoastlineUrl(zoom, product, x, y).value;
      && |url| > |prefix| && url[..|prefix| + 1] == prefix + "/"
      && var segs := Split(url[|prefix| + 1..], '/');
      && |segs| == 2 && segs[0] == "coastline"
      && NameReadsAs(segs[1], x, y) && Split(segs[1], '_')[0] == "ffff00"
  {
    assert '_' !in "ffff00" && '/' !in "ffff00" && '/' !in "coastline";
    TileNameFields("ffff00", x, y);
    SplitAfterPrefix(HimawariUrlCommon(zoom, product).value, ["coastline", TileName("ffff00", x, y)], '/');
  }

  /** The imagery URL dict of `_get_himawari`. */
  function ProductUrls(t: DateTime, zoom: int, product: string, rx: seq<int>, ry: seq<int>): (r: Result<Dict<Pos, string>>)
    ensures r.Ok? <==> KnownProductZoom(product, zoom) || |rx| == 0 || |ry| == 0
    ensures r.Err? ==> r.error == ValueError
    ensures r.Ok? ==> r.value.Valid() && forall x, y :: (x, y) in r.value.m <==> x in rx && y in ry
    ensures r.Ok? ==> forall x, y | (x, y) in r.value.m ::
      r.value.m[(x, y)] == GetProductUrl(t, zoom, product, x, y).value
  {
    TileUrls(rx, ry, (p: Pos) => GetProductUrl(t, zoom, product, p.0, p.1))
  }

  /** The coastline URL dict of `_get_himawari`. */
  function CoastlineUrls(zoom: int, product: string, rx: seq<int>, ry: seq<int>): (r: Result<Dict<Pos, string>>)
    ensures r.Ok? <==> KnownProductZoom(product, zoom) || |rx| == 0 || |ry| == 0
    ensures r.Err? ==> r.error == ValueError
    ensures r.Ok? ==> r.value.Valid() && forall x, y :: (x, y) in r.value.m <==> x in rx && y in ry
    ensures r.Ok? ==> forall x, y | (x, y) in r.value.m ::
      r.value.m[(x, y)] == GetCoastlineUrl(zoom, product, x, y).value
  {
    TileUrls(rx, ry, (p: Pos) => GetCoastlineUrl(zoom, product, p.0, p.1))
  }

  /** The imagery layer of `_get_himawari`, stitched in RGB. */
  function HimawariLayer(t: DateTime, zoom: int, product: string, rx: seq<int>, ry: seq<int>, net: Network): (r: Result<Image>)
    ensures |rx| > 0 && |ry| > 0 && !KnownProductZoom(product, zoom) ==> r == Err(ValueError)
    ensures r.Ok? ==> r.value.mode == "RGB"
    ensures var urls := ProductUrls(t, zoom, product, rx, ry);
      && (urls.Err? ==> r == Err(urls.error))
      && (urls.Ok? ==> r == Stitched(urls.value, Transport(urls.value, net), "RGB"))
  {
    var urls :- ProductUrls(t, zoom, product, rx, ry);
    Stitched(urls, Transport(urls, net), "RGB")
  }

  /** The coastline layer of `_get_himawari`, stitched in RGBA. */
  function CoastlineLayer(zoom: int, product: string, rx: seq<int>, ry: seq<int>, net: Network): (r: Result<Image>)
    ensures |rx| > 0 && |ry| > 0 && !KnownProductZoom(product, zoom) ==> r == Err(ValueError)
    ensures r.Ok? ==> r.value.mode == "RGBA"
    ensures var urls := CoastlineUrls(zoom, product, rx, ry);
      && (urls.Err? ==> r == Err(urls.error))
      && (urls.Ok? ==> r == Stitched(urls.value, Transport(urls.value, net), "RGBA"))
  {
    var urls :- CoastlineUrls(zoom, product, rx, ry);
    Stitched(urls, Transport(urls, net), "RGBA")
  }

  /**
   * The image `_get_himawari` hands to the post-processor: the imagery,
   * with the coastline overlaid only when `boundaries` is set; the
   * overlay keeps the imagery's mode and size.
   */
  function HimawariImage(t: DateTime, zoom: int, product: string, rx: seq<int>, ry: seq<int>,
                         boundaries: bool, net: Network, pil: Pil): (r: Result<Image>)
    requires Sound(pil)
    ensures var img := HimawariLayer(t, zoom, product, rx, ry, net);
      && (img.Err? ==> r == Err(img.error))
      && (r.Ok? ==> img.Ok? && SameShape(r.value, img.value))
    ensures !boundaries ==> r == HimawariLayer(t, zoom, product, rx, ry, net)
    ensures r.Ok? && boundaries ==>
      && CoastlineLayer(zoom, product, rx, ry, net).Ok?
      && r.value == pil.composite(HimawariLayer(t, zoom, product, rx, ry, net).value,
                                  CoastlineLayer(zoom, product, rx, ry, net).value, 0, 0)
  {
    var img :- HimawariLayer(t, zoom, product, rx, ry, net);
    if boundaries then
      var coast :- CoastlineLayer(zoom, product, rx, ry, net);
      Ok(Overlay(img, coast, (0, 0), pil))
    else Ok(img)
  }

  /**
   * `_get_himawari`: a NICT post-processor over the stitched image, its
   * working copy cropped to the relative box when `crop` is given; a crop
   * fraction outside [0, 1] raises ValueError.
   */
  method GetHimawari(t: DateTime, zoom: int, product: string, rx: seq<int>, ry: seq<int>, boundaries: bool,
                     crop: Option<(real, real, real, real)>, net: Network, pil: Pil)
    returns (r: Result<PostProcessor>)
    requires Sound(pil)
    ensures var img := HimawariImage(t, zoom, product, rx, ry, boundaries, net, pil);
      && (img.Err? ==> r == Err(img.error))
      && (img.Ok? && crop.None? ==> r.Ok?)
      && (r.Ok? ==> img.Ok? && r.value.original == img.value)
    ensures r.Ok? ==> fresh(r.value) && r.value.variant == Nict && r.value.timestamp == t
    ensures r.Ok? && crop.None? ==> r.value.processed == r.value.original
    ensures r.Ok? && crop.Some? ==>
      var (left, top, right, bottom) := crop.value;
      var im := r.value.original;
      r.value.processed == pil.crop(im, RelativeBox(left, top, right, bottom, im.width, im.height))
    ensures HimawariImage(t, zoom, product, rx, ry, boundaries, net, pil).Ok? && crop.Some? ==>
      var (left, top, right, bottom) := crop.value;
      (r.Ok? <==> 0.0 <= left <= 1.0 && 0.0 <= top <= 1.0 && 0.0 <= right <= 1.0 && 0.0 <= bottom <= 1.0)
      && (r.Err? ==> r.error == ValueError)
  {
    var img := HimawariImage(t, zoom, product, rx, ry, boundaries, net, pil);
    if img.Err? {
      return Err(img.error);
    }
    var postprocessor := new PostProcessor(img.value, t, Nict);
    if crop.Some? {
      var (left, top, right, bottom) := crop.value;
      var cropped := postprocessor.CropRelative(left, top, right, bottom, pil);
      if cropped.Err? {
        return Err(cropped.error);
      }
    }
    r := Ok(postprocessor);
  }
}
