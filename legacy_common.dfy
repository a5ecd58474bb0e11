/**
 * The older top-level `common.py`: a `TileArray` built over explicitly
 * requested x and y ranges rather than over the positions present, with a
 * tile required at every requested position, and `combine`, which opens
 * the tile files and merges them in RGB.
 */
module LegacyCommon {
  import opened Base
  import opened Raster
  import opened StitchCore
  import LegacyCore

  /** A Python `range(start, stop)` with step 1. */
  datatype Range = Range(start: int, stop: int) {
    function Len(): nat { if stop > start then stop - start else 0 }
    predicate Contains(x: int) { start <= x < stop }
  }

  /** `min(r)`: the start of a non-empty range; an empty one raises ValueError. */
  function RangeMin(r: Range): (m: Result<int>)
    ensures m.Ok? <==> r.Len() > 0
    ensures m.Err? ==> m.error == ValueError
    ensures m.Ok? ==> r.Contains(m.value) && forall x | r.Contains(x) :: m.value <= x
  {
    if r.stop > r.start then Ok(r.start) else Err(ValueError)
  }

  /** The box the two ranges span. */
  function RangeBox(rangex: Range, rangey: Range): (e: Extent)
    requires rangex.Len() > 0 && rangey.Len() > 0
    ensures e.Valid() && e.Rows() == rangey.Len() && e.Cols() == rangex.Len()
  {
    Extent(rangex.start, rangex.stop - 1, rangey.start, rangey.stop - 1)
  }

  /**
   * `TileArray.fromtiles(tilelookup, rangex, rangey)`: ValueError on an
   * empty lookup or an empty range; a rows x cols grid with rows =
   * len(rangey) and cols = len(rangex), offsets taken from the minima of
   * the ranges (not of the keys), cell size from the first key's tile;
   * KeyError when a requested position has no tile.  Tiles outside the
   * ranges are ignored.
   */
  method FromTilesInRanges(tilelookup: Dict<Pos, Image>, rangex: Range, rangey: Range) returns (r: Result<TileArray>)
    requires tilelookup.Valid()
    ensures tilelookup.keys == [] || rangex.Len() == 0 || rangey.Len() == 0 ==> r == Err(ValueError)
    ensures tilelookup.keys != [] && rangex.Len() > 0 && rangey.Len() > 0 ==>
      && (r.Ok? <==> LegacyCore.Complete(tilelookup, RangeBox(rangex, rangey)))
      && (r.Err? ==> r.error == KeyError)
    ensures r.Ok? ==> tilelookup.keys != [] && rangex.Len() > 0 && rangey.Len() > 0
    ensures r.Ok? ==> fresh(r.value) && r.value.Valid()
    ensures r.Ok? ==>
      var first := tilelookup.m[tilelookup.keys[0]];
      && r.value.rows == rangey.Len() && r.value.cols == rangex.Len()
      && r.value.cellwidth == first.width && r.value.cellheight == first.height
      && r.value.cells == Dense(tilelookup, RangeBox(rangex, rangey))
  {
    if tilelookup.keys == [] {
      return Err(ValueError);
    }
    var minx := RangeMin(rangex);
    if minx.Err? {
      return Err(minx.error);
    }
    var miny := RangeMin(rangey);
    if miny.Err? {
      return Err(miny.error);
    }
    var rows, cols := rangey.Len(), rangex.Len();
    var animg := tilelookup.m[tilelookup.keys[0]];
    var inst := new TileArray(rows, cols, animg.width, animg.height);
    var filled := LegacyCore.FillGrid(inst, tilelookup, RangeBox(rangex, rangey));
    if filled.Err? {
      return Err(filled.error);
    }
    r := Ok(inst);
  }

  /** The tiles lie where the ranges say: the tile at (x, y) of the ranges is in cell (y - min y, x - min x). */
  lemma RangeOffsets(tilelookup: Dict<Pos, Image>, rangex: Range, rangey: Range, x: int, y: int)
    requires rangex.start <= x < rangex.stop && rangey.start <= y < rangey.stop
    ensures var e := RangeBox(rangex, rangey);
      && 0 <= y - rangey.start < e.Rows() && 0 <= x - rangex.start < e.Cols()
      && Dense(tilelookup, e)[y - rangey.start][x - rangex.start] == Lookup(tilelookup, (x, y))
  {
    DenseAt(tilelookup, RangeBox(rangex, rangey), (x, y));
  }

  /**
   * `_check_access` of `common.py` as written:
   * `not isinstance(key, tuple) and len(key) != 2`.  A tuple of any length
   * passes, a list must have two items, and a scalar reaches `len` and
   * raises TypeError.
   */
  function CheckAccessAsWritten(key: Key): (r: Result<()>)
    ensures r.Ok? <==> key.TupleKey? || (key.ListKey? && |key.items| == 2)
    ensures key.ScalarKey? ==> r == Err(TypeError)
    ensures key.ListKey? && r.Err? ==> r.error == IndexError
  {
    match key
    case TupleKey(_) => Ok(())
    case ListKey(items) => if |items| != 2 then Err(IndexError) else Ok(())
    case ScalarKey(_) => Err(TypeError)
  }

  /** The check as written and the intended one differ only on tuples of the wrong length and on scalars. */
  lemma CheckAccessDiffers(key: Key)
    ensures CheckAccessAsWritten(key) != CheckAccess(key) <==>
      key.ScalarKey? || (key.TupleKey? && |key.items| != 2)
  {
  }

  /**
   * `combine(tilelookup, rangex, rangey)`: open each tile file (`open`
   * gives the image a path holds), build the grid over the ranges and
   * merge it in RGB.  ValueError for an empty lookup or an empty range,
   * KeyError when a position of the ranges has no tile; on a complete
   * grid the merge cannot fail.
   */
  method Combine(tilelookup: Dict<Pos, string>, rangex: Range, rangey: Range, open: string -> Image) returns (r: Result<Image>)
    requires tilelookup.Valid()
    ensures var tiles := Opened(tilelookup, open);
      && (r.Ok? <==> tiles.keys != [] && rangex.Len() > 0 && rangey.Len() > 0
                     && LegacyCore.Complete(tiles, RangeBox(rangex, rangey)))
      && (r.Ok? ==> r.value == MergedRanges(tiles, rangex, rangey))
      && (r.Err? ==> r.error == (if tiles.keys == [] || rangex.Len() == 0 || rangey.Len() == 0
                                   then ValueError else KeyError))
  {
    var tiles := Opened(tilelookup, open);
    var arr := FromTilesInRanges(tiles, rangex, rangey);
    if arr.Err? {
      return Err(arr.error);
    }
    LegacyCore.CompleteGridFull(tiles, RangeBox(rangex, rangey));
    r := LegacyCore.MergeEveryCell(arr.value, "RGB");
  }

  /** `{(x, y): Image.open(tileloc) ...}`. */
  function Opened(tilelookup: Dict<Pos, string>, open: string -> Image): (d: Dict<Pos, Image>)
    requires tilelookup.Valid()
    ensures d.Valid() && d.keys == tilelookup.keys
    ensures forall p | p in d.m :: d.m[p] == open(tilelookup.m[p])
  {
    Dict(tilelookup.keys, map p | p in tilelookup.m :: open(tilelookup.m[p]))
  }

  /**
   * The RGB canvas `combine` produces: (cellwidth * len(rangex),
   * cellheight * len(rangey)), the cell size being the first tile's.
   */
  function MergedRanges(tiles: Dict<Pos, Image>, rangex: Range, rangey: Range): (out: Image)
    requires tiles.Valid() && tiles.keys != [] && rangex.Len() > 0 && rangey.Len() > 0
    ensures var first := tiles.m[tiles.keys[0]];
      && out.mode == "RGB"
      && out.width == first.width * rangex.Len() && out.height == first.height * rangey.Len()
  {
    var first := tiles.m[tiles.keys[0]];
    var e := RangeBox(rangex, rangey);
    Merged(Dense(tiles, e), e.Cols(), first.width, first.height, "RGB")
  }
}
