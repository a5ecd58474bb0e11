# satellite-stitch, modelled in Dafny

satellite-stitch builds large satellite pictures from the tiles that two
public tile servers publish: the RAMMB/CIRA slider (Himawari-8 and GOES-16
full disk) and NICT's Himawari-8 archive. For each requested tile column x
and row y it writes the tile URL. It fetches the tiles concurrently and
keeps those answered with status 200. It places each tile in a grid sized to
the bounding box of the tile positions, and pastes the grid onto one
canvas. Map-boundary, lat/lon or coastline layers can be alpha-composited on
top. A post-processor can then crop, shrink, scale, label, filter and brand
the result.

The model covers two generations of the code:

- **the `stitch/` package**: modules `StitchCore`, `StitchPostprocess`,
  `StitchRammbSlider` and `StitchNictHimawari`;
- **the older top-level modules**: `core.py`, `common.py`, `utils.py`,
  `postprocess.py`, `rammb_slider.py`, `nict_himawari.py` and
  `rammb_himawari.py`. They become `LegacyCore`, `LegacyCommon`,
  `LegacyUtils`, `LegacyPostprocess`, `LegacyRammbSlider`,
  `LegacyNictHimawari` and `RammbHimawari`.

Three helper modules carry the Python and imaging vocabulary:

- `Base`:
  - exceptions as an `Error` value, plus `Option` and `Result`;
  - the insertion-ordered `dict` (`Dict`);
  - list indexing with negative indices;
  - `round` (half to even).
- `Text`:
  - `str(int)`, `zfill`, `int(str)`, `lower`, `split`/`join`;
  - the `strftime`/`isoformat` pieces that the URLs and labels use.
- `Raster`:
  - images as a mode, a size and pixel rows;
  - `Image.new` and plain `paste`, which are pixel-exact;
  - a `Pil` record for the imaging operations whose pixel arithmetic lies
    outside the model. These are crop, resize, thumbnail, filter, alpha
    composite, text drawing, text measuring and stacking. `Sound(pil)`
    states their size and mode contracts (for crop, the mode only),
    plus two facts about font metrics (see "Left out").

Entities whose fields the source updates in place are classes:
`StitchCore.TileArray` (its `cells` grid is `_arr`) and the two
`PostProcessor`s (`processed` is `_processed`). Loops that the source runs
are methods with loop invariants: the response filter, `fromtiles`,
`merge`, the font-size search, the colour-bar table and the logo run.
Each of these is proved against a function. The function's properties are
then proved as lemmas.

The network and the disk become parameters:

- A `Network` maps a URL to an optional response (URL, status, body), so
  `None` is a dropped request.
- `Transport` gives the outcomes of the de-duplicated requests, in order.
  Each stitch function can therefore be read for any response pattern.
- The random ten-character file-name tokens of `save_tiles` are a
  `token: nat -> string` parameter.

Where the code and the project's design description disagree, the model
follows the code:

- **Font size.** `timestamp_label` (stitch/postprocess.py:52-58) keeps
  growing the font until the measured text reaches the target width or
  height. It uses the first size that reaches the target, not the largest
  size that still fits. `FontSizeFor` models this, and `FontSizeOnePastFit`
  proves that the chosen size is one past the last size that fits.
- **Bounding box.** The grid's box is taken over the positions that were
  actually fetched (stitch/core.py:74-80), not over the requested ranges.
- **Missing tiles.** The package skips a missing tile. The older `core.py`
  raises KeyError on a gap in the box and ValueError when it pastes an
  empty cell.
- **Error names.** The description names a `TooManyTilesError`; no such
  error exists in the code.

## Model

| member | source | states |
|---|---|---|
| StitchCore.InvertUrls | stitch/core.py:44 | the URL-to-position lookup has exactly the requested URLs as keys, and each maps back to a position whose URL it is |
| StitchCore.DuplicateUrlsCollapse | stitch/core.py:44-45 | two positions sharing a URL collapse into one request: never more requests than positions |
| StitchCore.Requests | stitch/core.py:45 | one request per distinct URL of the lookup, no URL twice |
| StitchCore.Collect | stitch/core.py:47-59 | KeyError exactly when some response answers a URL nobody asked for; otherwise every kept tile came from a 200 response to its own position's URL, and every 200 response is kept |
| StitchCore.FetchedKeysRequested | stitch/core.py:43-59 | every fetched position is one of the requested positions |
| StitchCore.LoadTiles | stitch/core.py:43-59 | the loop over the responses (None skipped, non-200 skipped, 200 stored under its position) computes `Collect` |
| StitchCore.PrefixError | stitch/core.py:52 | once an unknown URL has been met the whole walk raises KeyError, whatever comes after |
| StitchCore.PyMinOfArgs | stitch/core.py:78 | `min(*xs)` succeeds exactly when there are at least two arguments, and then gives an argument no greater than any other; otherwise TypeError |
| StitchCore.PyMaxOfArgs | stitch/core.py:78-79 | `max(*xs)` succeeds exactly when there are at least two arguments, and then gives an argument no smaller than any other; otherwise TypeError |
| StitchCore.ExtentAsWritten | stitch/core.py:76-79 | the box as written exists exactly when there are at least two tiles; otherwise TypeError |
| StitchCore.ExtentOf | stitch/core.py:76-83 | the box of a non-empty key list is well formed and contains every key |
| StitchCore.ExtentTight | stitch/core.py:78-79 | each edge of the box is attained by some key |
| StitchCore.SingleTileExtent | stitch/core.py:78 | with one tile the code as written raises TypeError, where the intended box is the 1x1 box at that tile |
| StitchCore.ExtentAsWrittenAgrees | stitch/core.py:78-79 | with two or more tiles the code as written gives exactly the intended box |
| StitchCore.Dense | stitch/core.py:88-96 | the filled grid has `rows` rows of `cols` cells |
| StitchCore.KeysInExtent | stitch/core.py:76-83 | every tile position lies inside the box built from the dict's keys |
| StitchCore.DenseAt | stitch/core.py:91-94 | position (x, y) of the box lands at cell (y - miny, x - minx), which holds that position's tile or None |
| StitchCore.DenseOffsets | stitch/core.py:88-96 | every tile appears in the grid at its offset cell, and a cell is filled exactly when its position was fetched |
| StitchCore.PasteRow | stitch/core.py:129-134 | pasting a row of cells keeps the canvas's mode and size |
| StitchCore.PasteRows | stitch/core.py:128-134 | pasting rows of cells keeps the canvas's mode and size |
| StitchCore.Merged | stitch/core.py:126-135 | the merged canvas has the requested mode and is cellwidth x cols wide and cellheight x rows high |
| StitchCore.UniqueBand | stitch/core.py:131-132 | a pixel column lies in at most one cell's band |
| StitchCore.CellBand | stitch/core.py:131-132 | a pixel column lies in cell j's band exactly when the column divided by the cell width is j |
| StitchCore.BandBelow | stitch/core.py:131-132 | every pixel of the canvas falls in some cell of the grid |
| StitchCore.PastePixel | stitch/core.py:133 | one paste step keeps the pixels of earlier cells, fills its own cell and leaves later cells blank |
| StitchCore.PasteRowShows | stitch/core.py:130-133 | after the inner loop, every cell up to the current one shows its tile |
| StitchCore.PasteRowsShows | stitch/core.py:129-134 | after the outer loop, every cell of the grid shows its tile |
| StitchCore.MergedPixels | stitch/core.py:126-135 | every pixel of the merged canvas is the pixel of the tile in its cell, or the background where the cell is empty |
| StitchCore.PartialUniform | stitch/core.py:126-135 | removing tiles from a grid of equal-size tiles keeps the rest equal-size |
| StitchCore.MissingTilesBlankOnlyTheirCells | stitch/core.py:126-135 | missing tiles blank their own cells only; every other pixel is as in the complete picture |
| StitchCore.MissingTilePixel | stitch/core.py:133 | a cell that is filled in the partial grid shows the same pixel as in the full grid |
| StitchCore.NothingFilled | stitch/core.py:101 | a fresh grid of None cells has filled nothing yet |
| StitchCore.FillStep | stitch/core.py:94-96 | one assignment of the loop extends the filled prefix by one cell |
| StitchCore.RowFilled | stitch/core.py:88-96 | finishing a row moves the filled prefix to the next row |
| StitchCore.FilledAll | stitch/core.py:88-97 | when the loops end, the grid is the dense grid of the box |
| StitchCore.CheckAccess | stitch/core.py:106-108 | a key passes exactly when it is a list or tuple of two items; otherwise IndexError |
| StitchCore.TileArray.constructor | stitch/core.py:99-104 | rows x cols cells, all None, with the given cell size |
| StitchCore.TileArray.Get | stitch/core.py:110-112 | reads succeed exactly for two-item keys within Python's index range (negative indices wrap); otherwise IndexError |
| StitchCore.TileArray.Set | stitch/core.py:114-116 | a write replaces exactly the addressed cell; on IndexError nothing changes |
| StitchCore.TileArray.Merge | stitch/core.py:118-135 | the canvas is `width` x `height` in the requested mode, with every present cell pasted at (j x cellwidth, i x cellheight) |
| StitchCore.TileArray.FillRow | stitch/core.py:89-96 | one pass of the inner loop places the tiles of row y |
| StitchCore.TileArray.FromTiles | stitch/core.py:72-97 | StitchException on an empty dict; TypeError on a single tile; otherwise a fresh grid over the bounding box, with the first tile's size as the cell size, and every tile at its offset cell |
| StitchCore.MergedTiles | stitch/core.py:13-22 | the canvas over the bounding box of the tiles, at the first tile's cell size; for one tile it is the intended one-cell canvas |
| StitchCore.Stitch | stitch/core.py:13-22 | KeyError when a response answers an unknown URL; StitchException when nothing was fetched; TypeError when exactly one tile was fetched; otherwise the merged grid of the fetched tiles |
| StitchCore.Stitched | stitch/core.py:13-22 | a successful stitch has the requested mode |
| StitchCore.SingleTileStitch | stitch/core.py:13-22 | one requested position whose download succeeds: the filter keeps that tile, `stitch` raises TypeError, and the intended canvas is the tile's own size |
| StitchCore.NothingRequestedStitch | stitch/core.py:13-22 | an empty URL dict sends no request and raises StitchException |
| StitchCore.HonestNetworkFetches | stitch/core.py:43-59 | when responses answer the URLs they were sent to, the filter never fails, and a position is fetched exactly when its request returned 200 |
| StitchCore.HonestOutcome | stitch/core.py:45-46 | the k-th outcome answers the k-th distinct requested URL |
| StitchCore.HonestUrlFetched | stitch/core.py:53-55 | for one requested URL, its position is in the result exactly when its response was a 200 |
| StitchCore.DensePixelAt | stitch/core.py:126-135 | a canvas pixel in cell (i, j) comes from the tile at position (minx + j, miny + i), or is background where no tile was fetched |
| StitchCore.DensePixels | stitch/core.py:88-135 | every pixel of the merged dense grid shows the fetched tile covering it, or the background |
| StitchCore.StitchedPixels | stitch/core.py:13-22 | every pixel of the stitched picture is the pixel of the fetched tile covering that spot, or the background |
| StitchCore.OverlayBase | stitch/core.py:139-140 | a new image in the bottom image's mode and size, with the bottom image pasted at the origin, is an exact copy of it |
| StitchCore.Overlay | stitch/core.py:138-143 | the overlay keeps the bottom image's mode and size, whatever the top image and position |
| StitchCore.VerticalOffset | stitch/core.py:157-163 | `geth`: the full height difference for bottom, 0 for top, and for center a float (true division) equal to half the difference, whatever its parity |
| StitchCore.SideBySide | stitch/core.py:146-172 | a layout exactly for top and bottom; ValueError for an unknown valign, and TypeError for center, whose float offset the paste rejects; a layout is a canvas w1 + w2 wide and max(h1, h2) high with the second image starting at x = w1, both images inside, the taller one at y = 0 and the other one top- or bottom-aligned |
| StitchCore.Compose | stitch/core.py:153-172 | the composed image has the layout's mode and size; each pixel is the second image's where it lies there, else the first image's, else the background |
| StitchCore.ComposeShowsBoth | stitch/core.py:165-170 | pasting the two images at offsets that put them side by side inside the canvas shows every pixel of each (`Shows`): the first at (0, y1), the second at (w1, y2) |
| StitchCore.SideBySideShowsBoth | stitch/core.py:146-172 | for top or bottom alignment, every pixel of the first image shows on the side-by-side canvas at (0, y1) and every pixel of the second at (w1, y2) |
| StitchCore.CellRectanglesDisjoint | stitch/core.py:129-133 | two different cells paste into disjoint rectangles |
| StitchPostprocess.CheckArgRange | stitch/postprocess.py:69-72 | passes exactly when every argument lies in [minval, maxval]; otherwise ValueError |
| StitchPostprocess.CheckFourArgs | stitch/postprocess.py:25-26 | the four crop fractions pass exactly when each lies in the range |
| StitchPostprocess.CheckBreadthAndPadding | stitch/postprocess.py:74-78 | passes exactly when breadth and padding lie in [0, 1] and breadth + 2 x padding <= 1; otherwise ValueError |
| StitchPostprocess.ParseCorner | stitch/postprocess.py:83-85 | only the four corner names are accepted, otherwise ValueError; "left" and "top" in the name pick the sides |
| StitchPostprocess.Anchor | stitch/postprocess.py:89-102 | a left or top corner sits `padding_abs` from that edge; a right or bottom corner leaves exactly `padding_abs` between the object and that edge |
| StitchPostprocess.Placement | stitch/postprocess.py:80-104 | ValueError exactly for bad breadth/padding or a bad corner; otherwise the object keeps its mode, fits the breadth box, and is placed within half a pixel of `padding_abs` from its corner's edges |
| StitchPostprocess.PlacementInBounds | stitch/postprocess.py:87-104 | with valid breadth and padding, the placed object lies wholly inside the image, before and after rounding |
| StitchPostprocess.PaddingAbsBounds | stitch/postprocess.py:89 | the absolute padding is non-negative and at most padding x each side |
| StitchPostprocess.AxisInBounds | stitch/postprocess.py:94-102 | on each axis the rounded coordinate keeps the object inside the image |
| StitchPostprocess.FirstReaching | stitch/postprocess.py:55-58 | the loop stops at the first size at which the text no longer fits; all sizes before it fit |
| StitchPostprocess.FontSizeFor | stitch/postprocess.py:52-61 | no font (ValueError) exactly when the target has zero width or height; otherwise the chosen size is the first one that reaches the target |
| StitchPostprocess.FontSizeOnePastFit | stitch/postprocess.py:52-61 | the chosen size is one more than the largest size that still fits, and every larger size also fails to fit |
| StitchPostprocess.ChooseFontSize | stitch/postprocess.py:52-61 | the while loop that grows the font computes `FontSizeFor` |
| StitchPostprocess.LabelText | stitch/postprocess.py:47 | the label text ends in " UTC" |
| StitchPostprocess.LabelSpot | stitch/postprocess.py:41-63 | the label goes at the bottom-left x of `_placement`, its font is the size `FontSizeFor` picks, and its bottom edge is within half a pixel of (1 - padding) x height; it succeeds exactly when breadth and padding are valid and the thumbnail target has no zero side, and otherwise raises ValueError |
| StitchPostprocess.ColorbarTable | stitch/postprocess.py:112-122 | the table maps exactly the bands `ColorbarFile` knows, to those file names |
| StitchPostprocess.ColorbarBands | stitch/postprocess.py:112-122 | the table covers bands 1-10 and 12-16, and not band 11 |
| StitchPostprocess.BuildColorbarTable | stitch/postprocess.py:112-122 | the module-level loops build exactly that table |
| StitchPostprocess.PySuffix | stitch/postprocess.py:138 | `s[-2:]` is the last two characters (the whole string when shorter) |
| StitchPostprocess.GetColorbar | stitch/postprocess.py:136-141 | no colour bar for a product not starting with "band"; ValueError when its last two characters are not an integer; otherwise the table's file, or KeyError for an unlisted band |
| StitchPostprocess.BandProductColorbar | stitch/postprocess.py:136-141 | for "band_NN" the colour bar is band NN's file, and band 11 raises KeyError |
| StitchPostprocess.LogoImage | stitch/postprocess.py:130-134 | only CIRA and NICT have logos; the CIRA logo is RGBA and as wide as the CIRA and RAMMB logos together |
| StitchPostprocess.PostProcessor.constructor | stitch/postprocess.py:7-10 | both `original` and `processed` start as the image, and the timestamp is kept |
| StitchPostprocess.PostProcessor.Result | stitch/postprocess.py:16-17 | returns the processed image |
| StitchPostprocess.PostProcessor.CropRelative | stitch/postprocess.py:25-30 | ValueError, with the image unchanged, exactly when a fraction is outside [0, 1]; otherwise the image is cropped to the fractions times its size |
| StitchPostprocess.PostProcessor.Minimize | stitch/postprocess.py:32-33 | the image is thumbnailed into (width, height), keeping its mode |
| StitchPostprocess.PostProcessor.Scale | stitch/postprocess.py:35-39 | the image is resized to round(width x factor) x round(height x factor) with the given or the bilinear filter |
| StitchPostprocess.PostProcessor.TimestampLabel | stitch/postprocess.py:41-64 | the label is drawn at `LabelSpot`, or the method fails with its error and changes nothing; the image keeps its size |
| StitchPostprocess.PostProcessor.ApplyFilter | stitch/postprocess.py:66-67 | the image is replaced by the filtered image, of the same size and mode |
| StitchPostprocess.PostProcessor.Logo | stitch/postprocess.py:143-147 | a plain processor has no `logo` (AttributeError); CIRA and NICT overlay their logo at the bottom-right placement, keeping the image size |
| StitchPostprocess.PostProcessor.Colorbar | stitch/postprocess.py:149-160 | only CIRA has `colorbar`; a product without a colour bar leaves the image alone; a too-wide bar is first shrunk to the image width, then stacked below the image; the result is RGB, as wide as the image and as high as the image and the bar together |
| StitchRammbSlider.Column | stitch/rammb_slider.py:42-43 | one position per y for a fixed x, in order |
| StitchRammbSlider.Cartesian | stitch/rammb_slider.py:42-43 | `cartesian_product(rangex, rangey)` holds exactly the pairs of an x of rangex and a y of rangey |
| StitchRammbSlider.UrlMap | stitch/rammb_slider.py:42-43 | the dict comprehension fails with the first builder error; otherwise it maps exactly the given positions to their URLs |
| StitchRammbSlider.TileUrls | stitch/rammb_slider.py:42-43 | over a tile range, the dict's keys are exactly rangex x rangey and each URL is the builder's |
| StitchRammbSlider.UrlMapOverProduct | stitch/rammb_slider.py:42-43 | the URL dict over the product range succeeds exactly when the builder succeeds on every pair |
| StitchRammbSlider.PaddedReadsAs | stitch/rammb_slider.py:70 | a zero-filled number reads back as itself |
| StitchRammbSlider.TileFileDecodes | stitch/rammb_slider.py:71 | the file name "yyy_xxx.png" reads back as the tile's row and column |
| StitchRammbSlider.RammbImgUrl | stitch/rammb_slider.py:59-75 | a URL exactly for "himawari" and "goes-16"; ValueError for any other satellite |
| StitchRammbSlider.SliderUrlSegments | stitch/rammb_slider.py:72-75 | a URL joined from slash-free segments splits back into them |
| StitchRammbSlider.ImageryUrlFields | stitch/rammb_slider.py:59-75 | the imagery URL reads back: "imagery", the date, the satellite's full-disk type, the product, the date-time with seconds 00 (Himawari) or 37 (GOES-16), the zoom and the tile position |
| StitchRammbSlider.MapOrLatlonUrl | stitch/rammb_slider.py:78-91 | a URL exactly for the two satellites; ValueError for any other |
| StitchRammbSlider.BackgroundUrlFields | stitch/rammb_slider.py:78-91 | the background URL reads back: the layer kind, the satellite, "full_disk", "white", the satellite's fixed date, the zoom and the tile position |
| StitchRammbSlider.BandProductName | stitch/rammb_slider.py:39-40 | an integer product becomes "band_" followed by two digits that read as the band |
| StitchRammbSlider.SatelliteUrls | stitch/rammb_slider.py:38-43 | ValueError exactly for an unknown satellite over a non-empty range; otherwise the keys are rangex x rangey, each with its imagery URL |
| StitchRammbSlider.BackgroundUrls | stitch/rammb_slider.py:47-56 | the same for the map and lat/lon layers |
| StitchRammbSlider.JustSatellite | stitch/rammb_slider.py:38-44 | ValueError for an unknown satellite over a non-empty range; otherwise the RGB stitch of the tile URL dict |
| StitchRammbSlider.BackgroundLayer | stitch/rammb_slider.py:47-56 | ValueError for an unknown satellite over a non-empty range; otherwise the RGBA stitch of the background URL dict |
| StitchRammbSlider.EmptyRangeStitch | stitch/rammb_slider.py:38-44 | an empty range requests nothing, so the stitch raises StitchException |
| StitchRammbSlider.SatelliteImage | stitch/rammb_slider.py:24-35 | succeeds exactly when the imagery and each requested layer succeed, and otherwise gives the first error in that order; the result keeps the imagery's size and mode; each requested layer is overlaid, the boundary layer before the lat/lon layer |
| StitchNictHimawari.HimawariUrlCommon | stitch/nict_himawari.py:61-69 | a prefix exactly for a known product (case-insensitive) and one of its zoom levels; otherwise ValueError |
| StitchNictHimawari.ProductNameCaseInsensitive | stitch/nict_himawari.py:63 | product names differing only in case give the same prefix |
| StitchNictHimawari.ZoomLevelsRefine | stitch/nict_himawari.py:34-37 | a higher zoom level has more tiles per side |
| StitchNictHimawari.TileNameFields | stitch/nict_himawari.py:52-58 | "head_x_y" reads back as its head, x and y |
| StitchNictHimawari.GetProductUrl | stitch/nict_himawari.py:45-53 | a URL exactly when product and zoom are known; otherwise ValueError |
| StitchNictHimawari.DateFields | stitch/nict_himawari.py:49-50 | the month and day segments read back as the month and day |
| StitchNictHimawari.ClockHeadFields | stitch/nict_himawari.py:51 | the time head "HHMM00" reads back as hour and minute, with seconds always 00 |
| StitchNictHimawari.ProductUrlFields | stitch/nict_himawari.py:45-53 | after the prefix, the URL splits into the year, month, day and "HHMM00_x_y.png", each reading back as the timestamp's fields and the tile |
| StitchNictHimawari.ProductUrlSplits | stitch/nict_himawari.py:52-53 | the product URL is the prefix followed by exactly those four segments |
| StitchNictHimawari.GetCoastlineUrl | stitch/nict_himawari.py:56-58 | a URL exactly when product and zoom are known; otherwise ValueError |
| StitchNictHimawari.CoastlineUrlFields | stitch/nict_himawari.py:56-58 | after the prefix, the coastline URL is "coastline/ffff00_x_y.png" for the tile |
| StitchNictHimawari.ProductUrls | stitch/nict_himawari.py:18-19 | ValueError exactly for an unknown product or zoom over a non-empty range; otherwise the keys are rangex x rangey, each with its URL |
| StitchNictHimawari.CoastlineUrls | stitch/nict_himawari.py:23-24 | the same for the coastline layer |
| StitchNictHimawari.HimawariLayer | stitch/nict_himawari.py:18-20 | ValueError for an unknown product or zoom over a non-empty range; otherwise the RGB stitch of the tile URL dict |
| StitchNictHimawari.CoastlineLayer | stitch/nict_himawari.py:23-25 | the same for the coastline layer, in RGBA |
| StitchNictHimawari.HimawariImage | stitch/nict_himawari.py:17-26 | the imagery's error propagates; the result keeps the imagery's size; with boundaries it is the coastline composited onto the imagery |
| StitchNictHimawari.GetHimawari | stitch/nict_himawari.py:17-31 | a NICT post-processor holding the image, uncropped without a crop box; with one, ValueError exactly when a fraction is outside [0, 1] |
| LegacyCore.TilePathNamed | core.py:28-29 | the saved file's path is the save location followed by a name that starts "x_y_" |
| LegacyCore.TilePathsDistinct | core.py:28-29 | different positions never share a saved file path, whatever the random tokens |
| LegacyCore.SaveAll | core.py:19-38 | every saved position's path names a written file |
| LegacyCore.SaveOne | core.py:25-36 | one response fails exactly when it is None (AttributeError) or answers an unknown URL (KeyError); a 200 is written and recorded |
| LegacyCore.SavedPathsNamed | core.py:28-30 | every recorded path is named for its position |
| LegacyCore.SaveAllFails | core.py:25-36 | the walk fails exactly when some response offends, and it fails with the first offender's error |
| LegacyCore.SaveAllOffence | core.py:25-36 | the walk fails exactly when some response offends, with the error of the first one that does |
| LegacyCore.SaveAllFailsAt | core.py:25-36 | the first offending response decides the error |
| LegacyCore.SaveTiles | core.py:19-38 | the loop over the responses computes `SaveAll` |
| LegacyCore.TileImages | core.py:15 | reading the saved files back gives one image per saved position, in the same order |
| LegacyCore.SavedFilesAreCollected | core.py:14-15 | saving and reading back gives exactly the tiles the package's in-memory filter keeps |
| LegacyCore.ImagesAfterSave | core.py:30-33 | saving one more tile adds exactly that tile to what is read back |
| LegacyCore.FillGrid | core.py:68-72 | the loops fill the grid with the dense tiles exactly when the box has no gap; otherwise KeyError |
| LegacyCore.FillRowStrict | core.py:69-72 | one row is filled, or KeyError at its first gap |
| LegacyCore.FromTilesStrict | core.py:51-73 | ValueError on an empty dict; TypeError on a single tile; otherwise KeyError exactly when the bounding box has a gap, and else the full grid over the box |
| LegacyCore.CompleteGridFull | core.py:68-72 | a box without gaps leaves no cell empty |
| LegacyCore.MergeEveryCell | core.py:102-109 | pasting an empty cell raises ValueError, so the merge succeeds exactly on a full grid, and then gives the package's canvas |
| LegacyCore.Stitch | core.py:12-16 | save, read back, build the strict grid and merge: computes `StitchedStrict` |
| LegacyCore.StitchedStrict | core.py:12-16 | a save error propagates; then ValueError when nothing was fetched, TypeError for one tile, and success exactly when the fetched box has no gap, KeyError when it has one; a success is exactly the package's stitch of the same responses |
| LegacyCore.CheckAccessAsWritten | core.py:82-84 | as written, any list or tuple passes whatever its length, and a scalar raises TypeError |
| LegacyCore.CheckAccessAgreesOnPairs | core.py:82-84 | on two-item lists and tuples the check as written agrees with the intended one |
| LegacyCore.ThreeItemKeyPasses | core.py:83 | a three-item tuple passes the check as written, where the intended check raises IndexError |
| LegacyCore.GetAsWritten | core.py:86-88 | a read uses the first two items of the key; a scalar raises TypeError and a short key IndexError |
| LegacyCore.GetAsWrittenAgrees | core.py:86-88 | on keys the intended check accepts, the read as written is the package's read |
| LegacyCore.ThreeItemKeyReads | core.py:83-88 | a three-item key reads a cell as written, where the intended check refuses it |
| LegacyCore.SetAsWritten | core.py:90-92 | a write succeeds exactly when the read would, replacing that cell only |
| LegacyCore.Overlay | core.py:112-117 | the older overlay always gives RGBA at the bottom image's size |
| LegacyCore.OverlayOnRgba | core.py:113-114 | on an RGBA bottom image the older overlay is the package's overlay |
| LegacyCommon.RangeMin | common.py:19-20 | `min(range)` is the range's least element; ValueError on an empty range |
| LegacyCommon.RangeBox | common.py:19-22 | the box has `len(rangey)` rows and `len(rangex)` columns |
| LegacyCommon.FromTilesInRanges | common.py:15-33 | ValueError on an empty dict or empty range; KeyError exactly when a position of the ranges has no tile; otherwise the full grid over the ranges |
| LegacyCommon.RangeOffsets | common.py:28-32 | position (x, y) of the ranges lands at cell (y - min(rangey), x - min(rangex)) |
| LegacyCommon.CheckAccessAsWritten | common.py:42-44 | as written, every tuple passes whatever its length, a two-item list passes, another list raises IndexError, and a scalar raises TypeError |
| LegacyCommon.CheckAccessDiffers | common.py:42-44 | the check as written differs from the intended one exactly on tuples of other than two items and on scalars |
| LegacyCommon.Combine | common.py:8-10 | the opened tiles merge in RGB exactly when the dict and ranges are non-empty and every position has a tile, giving the merged canvas of the ranges; otherwise ValueError for an empty dict or range and KeyError for a missing tile |
| LegacyCommon.Opened | common.py:9 | one opened image per saved location, same keys |
| LegacyCommon.MergedRanges | common.py:62-69 | an RGB canvas len(rangex) cells wide and len(rangey) cells high |
| LegacyUtils.CropRelative | utils.py:8-17 | ValueError exactly when a fraction is outside [0, 1] or there are not four; otherwise the crop of the fractions times the size, in the same mode |
| LegacyUtils.CropBoxWithinImage | utils.py:13-17 | the crop box lies within the image |
| LegacyUtils.Minimize | utils.py:20-21 | the thumbnail fits (width x ratio, height x ratio) and keeps the mode |
| LegacyPostprocess.LogoCorner | postprocess.py:57-58 | the logo's bottom-right corner is the image's; inside the image when the logo fits |
| LegacyPostprocess.PostProcessor.constructor | postprocess.py:9-11 | both `original` and `processed` start as the image |
| LegacyPostprocess.PostProcessor.CropRelative | postprocess.py:19-26 | ValueError, with the image unchanged, exactly when a fraction is outside [0, 1]; otherwise the relative crop |
| LegacyPostprocess.PostProcessor.Minimize | postprocess.py:28-29 | the image is thumbnailed into (width, height) |
| LegacyPostprocess.PostProcessor.CiraRammbLogo | postprocess.py:55-58 | the logo is overlaid at the bottom-right corner, giving an RGBA image of the same size; without a logo (fetch failed) or on a non-CIRA processor AttributeError, nothing changed |
| LegacyRammbSlider.RammbImgUrl | rammb_slider.py:95-112 | ValueError exactly for an unknown satellite; otherwise the package's URL for product "band_NN" |
| LegacyRammbSlider.BandUrlFields | rammb_slider.py:95-112 | the URL reads back: date, type, "band_" plus the band's two digits, date-time with the satellite's seconds, zoom, tile |
| LegacyRammbSlider.SatelliteUrls | rammb_slider.py:60-65 | ValueError exactly for an unknown satellite over a non-empty range; otherwise keys rangex x rangey with their URLs |
| LegacyRammbSlider.JustSatellite | rammb_slider.py:60-66 | an unknown satellite raises ValueError; otherwise the strict RGB stitch of the tile URL dict |
| LegacyRammbSlider.BackgroundLayer | rammb_slider.py:69-78 | an unknown satellite raises ValueError; otherwise the strict RGBA stitch of the background URL dict |
| LegacyRammbSlider.EmptyRangeFails | rammb_slider.py:60-66 | an empty range makes the older stitch raise ValueError |
| LegacyRammbSlider.Backgrounds | rammb_slider.py:36-43 | succeeds exactly when the imagery and each requested layer succeed, and otherwise gives the first error in that order; the size is kept; each requested layer is overlaid, the map layer before the lat/lon layer, and any overlay makes the picture RGBA |
| LegacyRammbSlider.WidthSumStep | rammb_slider.py:52-54 | the widths from logo k on are logo k's width plus those after it |
| LegacyRammbSlider.Stamped | rammb_slider.py:44-55 | stamping logos keeps the image size and makes it RGBA |
| LegacyRammbSlider.LogosAbut | rammb_slider.py:49-54 | the logos abut left to right, the last one ending at the right edge |
| LegacyRammbSlider.PlaceLogos | rammb_slider.py:48-55 | the loop over the reversed logos lays them along the bottom edge from the right |
| LegacyRammbSlider.GetSatelliteImg | rammb_slider.py:33-57 | the backgrounds, then the logos when asked for and fetched; the error of any layer propagates |
| LegacyNictHimawari.HimawariLayer | nict_himawari.py:11-13 | an unknown product or zoom raises ValueError; otherwise the strict RGB stitch of the tile URL dict, and a success equals the package's layer |
| LegacyNictHimawari.CoastlineLayer | nict_himawari.py:16-18 | the same for the coastline, in RGBA |
| LegacyNictHimawari.Himawari8Image | nict_himawari.py:9-19 | the imagery's error propagates; with boundaries the coastline is overlaid in RGBA, keeping the size |
| LegacyNictHimawari.AgreesWithPackage | nict_himawari.py:9-19 | a successful older picture equals the package's, except that the older overlay first widens the imagery to RGBA |
| RammbHimawari.RammbImgUrl | rammb_himawari.py:18-28 | every URL starts with the parent URL and a slash |
| RammbHimawari.SegmentsHaveNoSlash | rammb_himawari.py:19-24 | no field of the URL contains a slash |
| RammbHimawari.UrlFields | rammb_himawari.py:18-28 | the URL reads back: date, Himawari type, band, date-time ending in the timestamp's own seconds, zoom, tile |
| RammbHimawari.ParentUnderSlider | rammb_himawari.py:5 | the parent URL is the slider's data URL plus "imagery" |
| RammbHimawari.SliderUrlShape | rammb_himawari.py:25-28 | the slider module's Himawari URL is this module's layout with seconds 00 |
| RammbHimawari.SegmentsAtWholeMinute | rammb_himawari.py:22 | the two builders' segments agree exactly when the seconds are 0 |
| RammbHimawari.SliderUrlAtWholeMinute | rammb_himawari.py:18-28 | this URL equals the slider module's exactly when the timestamp falls on a whole minute |
| RammbHimawari.UrlMap | rammb_himawari.py:12-13 | keys exactly rangex x rangey, each with its URL |
| RammbHimawari.Create | rammb_himawari.py:8-15 | the strict RGB stitch of the URL dict; a success equals the package's stitch of the same responses |
| RammbHimawari.CreateEmptyRangeFails | rammb_himawari.py:8-15 | an empty range raises ValueError |
| Base.PyIndex | stitch/core.py:112 | indexing succeeds exactly in -len <= i < len (negative indices wrap); otherwise IndexError |
| Base.Round | stitch/postprocess.py:106-109 | `round` is within half of its argument, and a tie goes to the even neighbour |
| Base.RoundOfInteger | stitch/postprocess.py:107-109 | rounding a whole number gives it back, as `_round` does for an int |
| Text.PaddedRoundTrip | stitch/rammb_slider.py:70-71 | `int(str(n).zfill(w))` is n |
| Text.SplitJoin | stitch/rammb_slider.py:72-75 | joining slash-free segments and splitting again gives them back |
| Raster.New | stitch/core.py:127 | a new image has the given mode and size and is blank everywhere |
| Raster.Paste | stitch/core.py:133 | a paste writes the source's pixels in its rectangle, clipped to the canvas, and keeps every other pixel |

## Left out

- Concurrent HTTP (`grequests`) is not modelled: responses arrive as a `Network` parameter, in request order, and warnings are not emitted.
- Tile decoding (`Image.open`), file writes and temporary directories are not modelled. Saved files are a map from path to image, the random name tokens are a parameter, and `stitch(..., tempfiles=True)` of the package is taken to read back the same tiles as the in-memory path.
- Pixel arithmetic of crop, resize, thumbnail, filters, alpha compositing, text drawing and font metrics is outside the model. These enter through `Pil`, with size and mode contracts only; the size of a crop is not constrained, only its mode. Mode conversion (`convert`) is not modelled.
- Crop coordinates and scale factors are modelled on reals, not binary floating point.
- StitchCore.PasteCoordinate: Pillow's `paste` is not part of this model; that it accepts only integer box coordinates, and raises TypeError for a float, is taken from the library's documented behaviour.
- `StitchPostprocess.PostProcessor.TimestampLabel`: the extra keyword arguments for drawing are not modelled.
- `save`, `show` and the `size` property are not modelled: they only forward to the image.
- The logo downloads are not modelled; their result is a parameter. This covers `cira_rammb_logo` in utils.py, `_get_cira_rammb_logo` in postprocess.py and `cira_rammb_logos` in rammb_slider.py. Bundled resource files (logos, colour bars) are images given as parameters.
- `LegacyUtils.Minimize`: modelled on values, returning the thumbnail, not as the in-place change the source makes.
- `StitchPostprocess.PostProcessor.Colorbar` uses `stack`, which stitch/postprocess.py:3 imports but stitch/core.py does not define. It is modelled as a `Pil` operation: the first image over the second, in the given mode, as wide as the wider one. Where the narrower one goes and the pixels are not modelled.
- `Raster.Sound` takes two facts about font metrics that no source line states: a larger font never measures smaller, and non-empty text measures at least its font size wide. The second one is what makes the font-size loop of `timestamp_label` end. A font whose glyphs are narrower than one pixel per point falls outside the model.
- stitch/rammb_slider.py:35 builds `CIRAPostProcessor` with two arguments where its constructor takes three, so `_get_satellite_img` always fails there. `StitchRammbSlider.SatelliteImage` models the image it builds before that call.
- nict_himawari.py:21 passes a timestamp to the one-argument `PostProcessor` of postprocess.py, and postprocess.py:5 imports `side_by_side` from core.py, which does not define it. The model stops at the image that `himawari8` builds.
- `side_by_side` in utils.py (lines 43-69) is the same code as the package's and is covered by `StitchCore.SideBySide`.
- `LegacyCommon.Range`: only `range(start, stop)` with step 1 is modelled; a stepped range, or any other iterable of ints passed as `rangex`/`rangey`, is not.
- `StitchPostprocess.PostProcessor.Scale`: nothing is stated for a negative factor, which gives the library a negative size.
- `Text.Lower` and `Text.PyInt`: ASCII only; Unicode case mapping, Unicode digits and the whitespace and underscores that `int()` accepts are not modelled.
- The convenience wrappers (`himawari`, `goes16`, `vis`, `ir`) are not modelled: each only fixes one argument.
- The tests' image comparison helpers and the example scripts are not part of this model.

## Findings

| source | as written | input that shows it | evidently intended | confidence | as-written member | corrected member |
|---|---|---|---|---|---|---|
| stitch/core.py:78 | `min(*xpos), max(*xpos)` unpacks the coordinates as separate arguments | a stitch where exactly one tile downloads: `min(5)` raises TypeError | the bounding box of one tile is that tile's 1x1 box, and the canvas is that tile | not executed | StitchCore.SingleTileStitch | StitchCore.MergedTiles |
| core.py:57 | the same `min(*xpos), max(*xpos)` | one tile, e.g. `{(5, 7): img}` | the same 1x1 box | not executed | StitchCore.SingleTileExtent | StitchCore.ExtentOf |
| core.py:83 | `not isinstance(key, (list, tuple)) and len(key) != 2` | the key `(0, 0, 0)` passes, and `arr[0, 0, 7]` reads cell (0, 0) | a list or tuple of exactly two items, as stitch/core.py:107 writes with `or` | not executed | LegacyCore.ThreeItemKeyReads | StitchCore.CheckAccess |
| common.py:43 | `not isinstance(key, tuple) and len(key) != 2` | the tuple `(0, 0, 0)` passes | a list or tuple of exactly two items, as the package checks it | not executed | LegacyCommon.CheckAccessDiffers | StitchCore.CheckAccess |
