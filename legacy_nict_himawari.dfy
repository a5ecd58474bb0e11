/**
 * The older top-level `nict_himawari.py`.  Its product and zoom tables and
 * its URL builders are the package's (`StitchNictHimawari`); what differs
 * is the strict older `stitch` and the RGBA `overlay` of `core.py`.
 */
module LegacyNictHimawari {
  import opened Base
  import opened Text
  import opened Raster
  import opened StitchCore
  import StitchNictHimawari
  import LegacyCore

  /**
   * The imagery layer of `himawari8`, stitched in RGB by the strict older
   * `stitch`; whenever it succeeds it is the image the package's layer
   * gives for the same responses.
   */
  function HimawariLayer(t: DateTime, zoom: int, product: string, rx: seq<int>, ry: seq<int>,
                         net: Network, tmpd: string, token: nat -> string): (r: Result<Image>)
    ensures |rx| > 0 && |ry| > 0 && !StitchNictHimawari.KnownProductZoom(product, zoom) ==> r == Err(ValueError)
    ensures r.Ok? ==> r.value.mode == "RGB"
    ensures r.Ok? ==> r == StitchNictHimawari.HimawariLayer(t, zoom, product, rx, ry, net)
    ensures var urls := StitchNictHimawari.ProductUrls(t, zoom, product, rx, ry);
      && (urls.Err? ==> r == Err(urls.error))
      && (urls.Ok? ==> r == LegacyCore.StitchedStrict(urls.value, Transport(urls.value, net), tmpd, token, "RGB"))
  {
    var urls :- StitchNictHimawari.ProductUrls(t, zoom, product, rx, ry);
    LegacyCore.StitchedStrict(urls, Transport(urls, net), tmpd, token, "RGB")
  }

  /** The coastline layer of `himawari8`, stitched in RGBA by the strict older `stitch`. */
  function CoastlineLayer(zoom: int, product: string, rx: seq<int>, ry: seq<int>,
                          net: Network, tmpd: string, token: nat -> string): (r: Result<Image>)
    ensures |rx| > 0 && |ry| > 0 && !StitchNictHimawari.KnownProductZoom(product, zoom) ==> r == Err(ValueError)
    ensures r.Ok? ==> r.value.mode == "RGBA"
    ensures r.Ok? ==> r == StitchNictHimawari.CoastlineLayer(zoom, product, rx, ry, net)
    ensures var urls := StitchNictHimawari.CoastlineUrls(zoom, product, rx, ry);
      && (urls.Err? ==> r == Err(urls.error))
      && (urls.Ok? ==> r == LegacyCore.StitchedStrict(urls.value, Transport(urls.value, net), tmpd, token, "RGBA"))
  {
    var urls :- StitchNictHimawari.CoastlineUrls(zoom, product, rx, ry);
    LegacyCore.StitchedStrict(urls, Transport(urls, net), tmpd, token, "RGBA")
  }

  /**
   * The image `himawari8` builds: the imagery, and when `boundaries` is set
   * the coastline overlaid on it by the RGBA `overlay`, which keeps the
   * imagery's size.
   */
  function Himawari8Image(t: DateTime, zoom: int, product: string, rx: seq<int>, ry: seq<int>, boundaries: bool,
                          net: Network, tmpd: string, token: nat -> string, pil: Pil): (r: Result<Image>)
    requires Sound(pil)
    ensures var img := HimawariLayer(t, zoom, product, rx, ry, net, tmpd, token);
      && (img.Err? ==> r == Err(img.error))
      && (r.Ok? ==> img.Ok? && r.value.width == img.value.width && r.value.height == img.value.height)
    ensures !boundaries ==> r == HimawariLayer(t, zoom, product, rx, ry, net, tmpd, token)
    ensures r.Ok? && boundaries ==>
      && CoastlineLayer(zoom, product, rx, ry, net, tmpd, token).Ok?
      && r.value.mode == "RGBA"
      && r.value == LegacyCore.Overlay(HimawariLayer(t, zoom, product, rx, ry, net, tmpd, token).value,
                                       CoastlineLayer(zoom, product, rx, ry, net, tmpd, token).value, (0, 0), pil)
  {
    var img :- HimawariLayer(t, zoom, product, rx, ry, net, tmpd, token);
    if boundaries then
      var coast :- CoastlineLayer(zoom, product, rx, ry, net, tmpd, token);
      Ok(LegacyCore.Overlay(img, coast, (0, 0), pil))
    else Ok(img)
  }

  /**
   * Where the older flow succeeds it agrees with the package's: the same
   * imagery, and with boundaries the same composite, except that the older
   * overlay first widens the imagery to RGBA.
   */
  lemma AgreesWithPackage(t: DateTime, zoom: int, product: string, rx: seq<int>, ry: seq<int>, boundaries: bool,
                          net: Network, tmpd: string, token: nat -> string, pil: Pil)
    requires Sound(pil) && Himawari8Image(t, zoom, product, rx, ry, boundaries, net, tmpd, token, pil).Ok?
    ensures var pkg := StitchNictHimawari.HimawariImage(t, zoom, product, rx, ry, boundaries, net, pil);
      var img := StitchNictHimawari.HimawariLayer(t, zoom, product, rx, ry, net).value;
      var r := Himawari8Image(t, zoom, product, rx, ry, boundaries, net, tmpd, token, pil).value;
      && pkg.Ok?
      && (!boundaries ==> r == pkg.value)
      && (boundaries ==> r == pil.composite(Paste(New("RGBA", img.width, img.height), img, 0, 0),
                                            StitchNictHimawari.CoastlineLayer(zoom, product, rx, ry, net).value, 0, 0))
  {
    if boundaries {
      assert CoastlineLayer(zoom, product, rx, ry, net, tmpd, token).Ok?;
    }
  }
}
