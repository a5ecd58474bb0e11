/**
 * The older top-level `rammb_himawari.py`: Himawari imagery tile URLs of
 * the RAMMB slider whose date-time segment carries the timestamp's own
 * seconds, and `create`, which stitches them in RGB with the strict older
 * `stitch`.
 */
module RammbHimawari {
  import opened Base
  import opened Text
  import opened Raster
  import opened StitchCore
  import opened StitchPostprocess
  import StitchRammbSlider
  import LegacyCore
  import LegacyRammbSlider

  const ParentUrl: string := "http://rammb-slider.cira.colostate.edu/data/imagery"

  /** `strftime('%Y%m%d%H%M%S')`. */
  function DateTimeStamp(t: DateTime): string {
    DateStamp(t) + HourMinute(t) + Padded(t.second, 2)
  }

  /** The path segments of a tile URL, in order. */
  function UrlSegments(t: DateTime, band: int, zoom: int, xtile: int, ytile: int): seq<string> {
    [DateStamp(t), "himawari---full_disk", BandProduct(band), DateTimeStamp(t), Padded(zoom, 2),
     StitchRammbSlider.TilePosition(xtile, ytile) + ".png"]
  }

  /**
   * `rammb_img_url(timestamp, band, zoom, xtile, ytile)`:
   * `PARENT/{date}/himawari---full_disk/band_{NN}/{%Y%m%d%H%M%S}/{zoom}/{yyy}_{xxx}.png`.
   */
  function RammbImgUrl(t: DateTime, band: int, zoom: int, xtile: int, ytile: int): (url: string)
    ensures |url| > |ParentUrl| && url[..|ParentUrl| + 1] == ParentUrl + "/"
  {
    ParentUrl + "/" + Join(UrlSegments(t, band, zoom, xtile, ytile), '/')
  }

  /** The path segments after `PARENT_URL/`. */
  function PathSegments(url: string): seq<string> {
    if |url| > |ParentUrl| then Split(url[|ParentUrl| + 1..], '/') else []
  }

  lemma SixWithoutSlash(s0: string, s1: string, s2: string, s3: string, s4: string, s5: string)
    requires '/' !in s0 && '/' !in s1 && '/' !in s2 && '/' !in s3 && '/' !in s4 && '/' !in s5
    ensures var segs := [s0, s1, s2, s3, s4, s5];
      forall k | 0 <= k < |segs| :: '/' !in segs[k]
  {
  }

  lemma SegmentsHaveNoSlash(t: DateTime, band: nat, zoom: nat, x: nat, y: nat)
    requires t.second < 100 && band < 100 && zoom < 100 && x < 1000 && y < 1000
    ensures var segs := UrlSegments(t, band, zoom, x, y);
      forall k | 0 <= k < |segs| :: '/' !in segs[k]
  {
    assert '/' !in DateStamp(t) && '/' !in DateTimeStamp(t) by {
      StitchRammbSlider.DateTimeDigits(t);
      PaddedDigits(t.second, 2);
      assert AllDigits(DateTimeStamp(t));
    }
    assert '/' !in BandProduct(band) by {
      StitchRammbSlider.BandProductName(band);
    }
    assert '/' !in Padded(zoom, 2) by {
      PaddedDigits(zoom, 2);
    }
    assert '/' !in StitchRammbSlider.TilePosition(x, y) + ".png" by {
      StitchRammbSlider.TileFileDecodes(x, y);
    }
    StitchRammbSlider.FixedSegmentsHaveNoSlash();
    SixWithoutSlash(DateStamp(t), "himawari---full_disk", BandProduct(band), DateTimeStamp(t), Padded(zoom, 2),
                    StitchRammbSlider.TilePosition(x, y) + ".png");
  }

  /**
   * The URL reads back: six segments under `PARENT_URL/` naming the date,
   * the Himawari full-disk type, `band_` and two digits reading as the
   * band, date and time ending in two digits reading as the seconds, the
   * two-digit zoom and the tile's row and column.
   */
  lemma UrlFields(t: DateTime, band: nat, zoom: nat, x: nat, y: nat)
    requires t.Valid() && band < 100 && zoom < 100 && x < 1000 && y < 1000
    ensures var segs := PathSegments(RammbImgUrl(t, band, zoom, x, y));
      && |segs| == 6
      && segs[0] == DateStamp(t) && segs[1] == "himawari---full_disk"
      && |segs[2]| == 7 && segs[2][..5] == "band_" && StitchRammbSlider.ReadsAs(segs[2][5..], 2, band)
      && |segs[3]| >= 2 && segs[3][..|segs[3]| - 2] == DateStamp(t) + HourMinute(t)
      && StitchRammbSlider.ReadsAs(segs[3][|segs[3]| - 2..], 2, t.second)
      && StitchRammbSlider.ReadsAs(segs[4], 2, zoom)
      && StitchRammbSlider.TileFileReadsAs(segs[5], x, y)
  {
    var segs := UrlSegments(t, band, zoom, x, y);
    SegmentsHaveNoSlash(t, band, zoom, x, y);
    SplitAfterPrefix(ParentUrl, segs, '/');
    assert Pow10(2) == 100;
    StitchRammbSlider.BandProductName(band);
    StitchRammbSlider.PaddedReadsAs(t.second, 2);
    StitchRammbSlider.PaddedReadsAs(zoom, 2);
    StitchRammbSlider.TileFileDecodes(x, y);
    var dt := DateTimeStamp(t);
    assert dt[..|dt| - 2] == DateStamp(t) + HourMinute(t) && dt[|dt| - 2..] == Padded(t.second, 2);
  }

  /** This module's parent URL is the slider's `data/imagery`. */
  lemma ParentUnderSlider()
    ensures ParentUrl == StitchRammbSlider.ParentUrl + "/" + "imagery"
  {
  }

  lemma PaddedZero()
    ensures Padded(0, 2) == "00"
  {
    assert NatToString(0) == "0";
  }

  /** The segments the slider builder writes for Himawari after `imagery`: seconds always `00`. */
  function SliderSegments(t: DateTime, band: int, zoom: int, xtile: int, ytile: int): seq<string> {
    UrlSegments(t, band, zoom, xtile, ytile)[3 := DateStamp(t) + HourMinute(t) + "00"]
  }

  lemma SliderUrlShape(t: DateTime, band: nat, zoom: nat, x: nat, y: nat)
    ensures LegacyRammbSlider.RammbImgUrl(t, band, zoom, x, y, "himawari").value
      == ParentUrl + "/" + Join(SliderSegments(t, band, zoom, x, y), '/')
  {
    var alt := SliderSegments(t, band, zoom, x, y);
    SliderImagerySegments(t, band, zoom, x, y);
    assert Join(["imagery"] + alt, '/') == "imagery" + "/" + Join(alt, '/') by {
      assert (["imagery"] + alt)[1..] == alt;
    }
    ParentUnderSlider();
  }

  /** The slider builder's Himawari URL is `imagery` followed by the slider segments. */
  lemma SliderImagerySegments(t: DateTime, band: nat, zoom: nat, x: nat, y: nat)
    ensures LegacyRammbSlider.RammbImgUrl(t, band, zoom, x, y, "himawari").value
      == StitchRammbSlider.SliderUrl(["imagery"] + SliderSegments(t, band, zoom, x, y))
  {
    var stamp, tile := DateStamp(t) + HourMinute(t) + "00", StitchRammbSlider.TilePosition(x, y) + ".png";
    assert SliderSegments(t, band, zoom, x, y)
      == [DateStamp(t), "himawari---full_disk", BandProduct(band), stamp, Padded(zoom, 2), tile];
  }

  /** The two builders' segments agree exactly on a whole minute. */
  lemma SegmentsAtWholeMinute(t: DateTime, band: nat, zoom: nat, x: nat, y: nat)
    requires t.second < 60
    ensures UrlSegments(t, band, zoom, x, y) == SliderSegments(t, band, zoom, x, y) <==> t.second == 0
  {
    var segs, alt := UrlSegments(t, band, zoom, x, y), SliderSegments(t, band, zoom, x, y);
    PaddedZero();
    if segs == alt {
      var dt := DateTimeStamp(t);
      assert dt == alt[3];
      assert Padded(t.second, 2) == dt[|dt| - 2..];
      PaddedRoundTrip(t.second, 2);
      PaddedRoundTrip(0, 2);
    }
  }

  /**
   * The URL is the slider's Himawari imagery URL exactly when the
   * timestamp falls on a whole minute: the slider builder always writes
   * seconds `00`, this one the timestamp's own.
   */
  lemma SliderUrlAtWholeMinute(t: DateTime, band: nat, zoom: nat, x: nat, y: nat)
    requires t.Valid() && band < 100 && zoom < 100 && x < 1000 && y < 1000
    ensures RammbImgUrl(t, band, zoom, x, y) == LegacyRammbSlider.RammbImgUrl(t, band, zoom, x, y, "himawari").value
      <==> t.second == 0
  {
    var segs, alt := UrlSegments(t, band, zoom, x, y), SliderSegments(t, band, zoom, x, y);
    var mine := RammbImgUrl(t, band, zoom, x, y);
    SliderUrlShape(t, band, zoom, x, y);
    SegmentsAtWholeMinute(t, band, zoom, x, y);
    if mine == ParentUrl + "/" + Join(alt, '/') {
      assert Join(segs, '/') == Join(alt, '/') by {
        assert mine[|ParentUrl| + 1..] == Join(segs, '/');
      }
      SegmentsHaveNoSlash(t, band, zoom, x, y);
      assert forall k | 0 <= k < |alt| :: '/' !in alt[k] by {
        StitchRammbSlider.DateTimeDigits(t);
        assert AllDigits(alt[3]);
      }
      SplitJoin(segs, '/');
      SplitJoin(alt, '/');
    }
  }

  /** `{(x, y): rammb_img_url(...) for x, y in product(rangex, rangey)}`: keys exactly rangex x rangey. */
  function UrlMap(t: DateTime, zoom: int, band: int, rx: seq<int>, ry: seq<int>): (d: Dict<Pos, string>)
    ensures d.Valid() && forall x, y :: (x, y) in d.m <==> x in rx && y in ry
    ensures forall x, y | (x, y) in d.m :: d.m[(x, y)] == RammbImgUrl(t, band, zoom, x, y)
  {
    StitchRammbSlider.TileUrls(rx, ry, (p: Pos) => Ok(RammbImgUrl(t, band, zoom, p.0, p.1))).value
  }

  /** `create(timestamp, zoom, band, rangex, rangey)`: the tiles stitched in RGB by the strict older `stitch`. */
  function Create(t: DateTime, zoom: int, band: int, rx: seq<int>, ry: seq<int>,
                  net: Network, tmpd: string, token: nat -> string): (r: Result<Image>)
    ensures r.Ok? ==> r.value.mode == "RGB"
    ensures var urls := UrlMap(t, zoom, band, rx, ry);
      r == LegacyCore.StitchedStrict(urls, Transport(urls, net), tmpd, token, "RGB")
    ensures r.Ok? ==> r == Stitched(UrlMap(t, zoom, band, rx, ry), Transport(UrlMap(t, zoom, band, rx, ry), net), "RGB")
  {
    var urls := UrlMap(t, zoom, band, rx, ry);
    LegacyCore.StitchedStrict(urls, Transport(urls, net), tmpd, token, "RGB")
  }

  /** An empty range requests nothing, and `create` raises ValueError. */
  lemma CreateEmptyRangeFails(t: DateTime, zoom: int, band: int, rx: seq<int>, ry: seq<int>,
                              net: Network, tmpd: string, token: nat -> string)
    requires |rx| == 0 || |ry| == 0
    ensures Create(t, zoom, band, rx, ry, net, tmpd, token) == Err(ValueError)
  {
    var urls := UrlMap(t, zoom, band, rx, ry);
    assert urls.keys == [];
    assert Transport(urls, net) == [];
  }
}
