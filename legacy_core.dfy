/**
 * The older top-level `core.py`: `save_tiles` writes every successful
 * tile response to a file named after its position, `TileArray.fromtiles`
 * insists on a tile at every position of the bounding box, `merge` pastes
 * every cell (an empty one makes the imaging library raise), and `overlay`
 * always produces an RGBA image.  The grid itself is the package's
 * `TileArray`, whose constructor, `width` and `height` are the same here.
 */
module LegacyCore {
  import opened Base
  import opened Text
  import opened Raster
  import opened StitchCore

  // ---------------------------------------------------------------------
  // save_tiles: one file per successful response
  // ---------------------------------------------------------------------

  /** `'{x}_{y}_{etc}.png'` with `etc` a random token. */
  function SavedName(x: int, y: int, token: string): string {
    IntToString(x) + "_" + IntToString(y) + "_" + token + ".png"
  }

  /** `os.sep.join([saveloc, filename])` on a system whose separator is '/'. */
  function TilePath(saveloc: string, x: int, y: int, token: string): string {
    saveloc + "/" + SavedName(x, y, token)
  }

  /** The file below `saveloc` is named for position p: its first two '_' fields read back as p. */
  predicate NamedFor(path: string, saveloc: string, p: Pos) {
    && |path| > |saveloc|
    && var parts := Split(path[|saveloc| + 1..], '_');
    && |parts| >= 3 && PyInt(parts[0]) == Ok(p.0) && PyInt(parts[1]) == Ok(p.1)
  }

  /** A saved tile's file name starts with its x and y, whatever the random token. */
  lemma TilePathNamed(saveloc: string, x: int, y: int, token: string)
    ensures NamedFor(TilePath(saveloc, x, y, token), saveloc, (x, y))
  {
    var sx, sy := IntToString(x), IntToString(y);
    var tail := token + ".png";
    IntToStringChars(x, '_');
    IntToStringChars(y, '_');
    IntToStringRoundTrip(x);
    IntToStringRoundTrip(y);
    assert SavedName(x, y, token) == sx + ['_'] + (sy + ['_'] + tail);
    SplitAppend(sx, sy + ['_'] + tail, '_');
    SplitAppend(sy, tail, '_');
    SplitNoSep(sx, '_');
    SplitNoSep(sy, '_');
    assert TilePath(saveloc, x, y, token)[|saveloc| + 1..] == SavedName(x, y, token);
  }

  /** Files saved for different positions never overwrite each other. */
  lemma TilePathsDistinct(saveloc: string, x1: int, y1: int, t1: string, x2: int, y2: int, t2: string)
    requires (x1, y1) != (x2, y2)
    ensures TilePath(saveloc, x1, y1, t1) != TilePath(saveloc, x2, y2, t2)
  {
    TilePathNamed(saveloc, x1, y1, t1);
    TilePathNamed(saveloc, x2, y2, t2);
  }

  /** A response `save_tiles` cannot handle: None (no `.url`) or one for a URL it never asked for. */
  predicate Offends(lookup: map<string, Pos>, o: Outcome) {
    o.None? || o.value.url !in lookup
  }

  /** None fails on `resp.url` before the status check; an unknown URL fails the lookup. */
  function OffenceError(o: Outcome): Error {
    if o.None? then AttributeError else KeyError
  }

  /** What `save_tiles` has produced: the position -> path dict it returns, and the files it wrote. */
  datatype Saved = Saved(paths: Dict<Pos, string>, files: map<string, Image>)

  /**
   * `save_tiles` after the first `|outcomes|` responses, `token(k)` being
   * the random token drawn for response k: the first response that is None
   * or answers an unknown URL raises; a 200 response writes its body to a
   * file named for its position and records the path; any other status
   * only warns.
   */
  function SaveAll(lookup: map<string, Pos>, outcomes: seq<Outcome>, saveloc: string, token: nat -> string): (r: Result<Saved>)
    ensures r.Ok? ==> r.value.paths.Valid()
    ensures r.Ok? ==> forall p | p in r.value.paths.m :: r.value.paths.m[p] in r.value.files
    decreases |outcomes|
  {
    if outcomes == [] then Ok(Saved(EmptyDict(), map[]))
    else
      var n := |outcomes| - 1;
      var prev :- SaveAll(lookup, outcomes[..n], saveloc, token);
      SaveOne(lookup, prev, outcomes[n], saveloc, token(n))
  }

  /** One step of the walk: handles response `resp` with `tok` as its random token. */
  function SaveOne(lookup: map<string, Pos>, prev: Saved, resp: Outcome, saveloc: string, tok: string): (r: Result<Saved>)
    requires prev.paths.Valid() && forall p | p in prev.paths.m :: prev.paths.m[p] in prev.files
    ensures r.Err? <==> Offends(lookup, resp)
    ensures r.Err? ==> r.error == OffenceError(resp)
    ensures r.Ok? ==> r.value.paths.Valid() && forall p | p in r.value.paths.m :: r.value.paths.m[p] in r.value.files
  {
    if resp.None? then Err(AttributeError)
    else if resp.value.url !in lookup then Err(KeyError)
    else
      var (x, y) := lookup[resp.value.url];
      if resp.value.status == 200 then
        var path := TilePath(saveloc, x, y, tok);
        Ok(Saved(prev.paths.Put((x, y), path), prev.files[path := resp.value.body]))
      else Ok(prev)
  }

  /** Every recorded path names the position it is recorded for. */
  lemma {:induction false} SavedPathsNamed(lookup: map<string, Pos>, outcomes: seq<Outcome>, saveloc: string, token: nat -> string)
    requires SaveAll(lookup, outcomes, saveloc, token).Ok?
    ensures var paths := SaveAll(lookup, outcomes, saveloc, token).value.paths;
      forall p | p in paths.m :: NamedFor(paths.m[p], saveloc, p)
    decreases |outcomes|
  {
    if outcomes != [] {
      var n := |outcomes| - 1;
      SavedPathsNamed(lookup, outcomes[..n], saveloc, token);
      var resp := outcomes[n];
      if resp.value.status == 200 {
        var (x, y) := lookup[resp.value.url];
        TilePathNamed(saveloc, x, y, token(n));
      }
    }
  }

  /**
   * `save_tiles` fails exactly when some response is None or answers an
   * unknown URL, and then with the error of the first such response.
   */
  lemma SaveAllFails(lookup: map<string, Pos>, outcomes: seq<Outcome>, saveloc: string, token: nat -> string)
    ensures var r := SaveAll(lookup, outcomes, saveloc, token);
      r.Err? <==> exists k | 0 <= k < |outcomes| :: Offends(lookup, outcomes[k])
    ensures var r := SaveAll(lookup, outcomes, saveloc, token);
      r.Err? ==> exists k | 0 <= k < |outcomes| ::
        && Offends(lookup, outcomes[k]) && r.error == OffenceError(outcomes[k])
        && forall j | 0 <= j < k :: !Offends(lookup, outcomes[j])
  {
    SaveAllOffence(lookup, outcomes, saveloc, token);
    FirstOffenceIsFirst(lookup, outcomes);
  }

  /** The error of the first offending response, if any. */
  function FirstOffence(lookup: map<string, Pos>, outcomes: seq<Outcome>): Option<Error>
    decreases |outcomes|
  {
    if outcomes == [] then None
    else
      var n := |outcomes| - 1;
      var prev := FirstOffence(lookup, outcomes[..n]);
      if prev.Some? then prev
      else if Offends(lookup, outcomes[n]) then Some(OffenceError(outcomes[n]))
      else None
  }

  /** The walk of `save_tiles` fails exactly with the first offence. */
  lemma {:induction false} SaveAllOffence(lookup: map<string, Pos>, outcomes: seq<Outcome>, saveloc: string, token: nat -> string)
    ensures var r := SaveAll(lookup, outcomes, saveloc, token);
      && (r.Err? <==> FirstOffence(lookup, outcomes).Some?)
      && (r.Err? ==> r.error == FirstOffence(lookup, outcomes).value)
    decreases |outcomes|
  {
    if outcomes != [] {
      SaveAllOffence(lookup, outcomes[..|outcomes| - 1], saveloc, token);
      SaveAllStep(lookup, outcomes, saveloc, token);
    }
  }

  /** The first offence is that of the first response that offends. */
  lemma {:induction false} FirstOffenceIsFirst(lookup: map<string, Pos>, outcomes: seq<Outcome>)
    ensures FirstOffence(lookup, outcomes).Some? <==> exists k | 0 <= k < |outcomes| :: Offends(lookup, outcomes[k])
    ensures FirstOffence(lookup, outcomes).Some? ==> exists k | 0 <= k < |outcomes| ::
      && Offends(lookup, outcomes[k]) && FirstOffence(lookup, outcomes).value == OffenceError(outcomes[k])
      && forall j | 0 <= j < k :: !Offends(lookup, outcomes[j])
    decreases |outcomes|
  {
    if outcomes != [] {
      var n := |outcomes| - 1;
      var prefix := outcomes[..n];
      FirstOffenceIsFirst(lookup, prefix);
      if FirstOffence(lookup, prefix).Some? {
        var k :| 0 <= k < n && Offends(lookup, prefix[k]) && FirstOffence(lookup, prefix).value == OffenceError(prefix[k])
          && forall j | 0 <= j < k :: !Offends(lookup, prefix[j]);
        assert prefix[k] == outcomes[k];
        forall j | 0 <= j < k
          ensures !Offends(lookup, outcomes[j])
        {
          assert prefix[j] == outcomes[j];
        }
      } else {
        forall j | 0 <= j < n
          ensures !Offends(lookup, outcomes[j])
        {
          assert prefix[j] == outcomes[j];
        }
      }
    }
  }

  /** The last step of the walk: an earlier error is kept, otherwise the last response decides. */
  lemma SaveAllStep(lookup: map<string, Pos>, outcomes: seq<Outcome>, saveloc: string, token: nat -> string)
    requires |outcomes| > 0
    ensures var n := |outcomes| - 1;
      var prev := SaveAll(lookup, outcomes[..n], saveloc, token);
      var r := SaveAll(lookup, outcomes, saveloc, token);
      && (prev.Err? ==> r.Err? && r.error == prev.error)
      && (prev.Ok? ==> (r.Err? <==> Offends(lookup, outcomes[n])))
      && (prev.Ok? && r.Err? ==> r.error == OffenceError(outcomes[n]))
  {
  }

  /** Once some response offends, the whole walk fails with that response's error. */
  lemma SaveAllFailsAt(lookup: map<string, Pos>, outcomes: seq<Outcome>, saveloc: string, token: nat -> string, n: nat)
    requires n < |outcomes| && Offends(lookup, outcomes[n])
    requires SaveAll(lookup, outcomes[..n], saveloc, token).Ok?
    ensures SaveAll(lookup, outcomes, saveloc, token) == Err(OffenceError(outcomes[n]))
  {
    SaveAllFails(lookup, outcomes[..n], saveloc, token);
    forall j | 0 <= j < n
      ensures !Offends(lookup, outcomes[j])
    {
      assert outcomes[..n][j] == outcomes[j];
    }
    SaveAllFails(lookup, outcomes, saveloc, token);
    var r := SaveAll(lookup, outcomes, saveloc, token);
    assert r.Err?;
    var k :| 0 <= k < |outcomes| && Offends(lookup, outcomes[k]) && r.error == OffenceError(outcomes[k])
      && forall j | 0 <= j < k :: !Offends(lookup, outcomes[j]);
    assert k == n;
  }

  /** `save_tiles`: walks the responses, writing one file per 200 response. */
  method SaveTiles(posUrls: Dict<Pos, string>, outcomes: seq<Outcome>, saveloc: string, token: nat -> string)
    returns (r: Result<Dict<Pos, string>>, written: map<string, Image>)
    requires posUrls.Valid()
    ensures var s := SaveAll(UrlLookup(posUrls), outcomes, saveloc, token);
      && (r.Ok? <==> s.Ok?)
      && (r.Err? ==> r.error == s.error)
      && (r.Ok? ==> Saved(r.value, written) == s.value)
  {
    var lookup := UrlLookup(posUrls);
    var saved: Dict<Pos, string> := EmptyDict();
    written := map[];
    for n := 0 to |outcomes|
      invariant SaveAll(lookup, outcomes[..n], saveloc, token) == Ok(Saved(saved, written))
    {
      assert outcomes[..n + 1][..n] == outcomes[..n];
      var resp := outcomes[n];
      if resp.None? || resp.value.url !in lookup {
        SaveAllFailsAt(lookup, outcomes, saveloc, token, n);
        return Err(OffenceError(resp)), written;
      }
      var (x, y) := lookup[resp.value.url];
      if resp.value.status == 200 {
        var tile := TilePath(saveloc, x, y, token(n));
        saved := saved.Put((x, y), tile);
        written := written[tile := resp.value.body];
      }
    }
    assert outcomes[..|outcomes|] == outcomes;
    r := Ok(saved);
  }

  /** `{(x, y): Image.open(tileloc) ...}`: the image in each saved file. */
  function TileImages(s: Saved): (d: Dict<Pos, Image>)
    requires s.paths.Valid() && forall p | p in s.paths.m :: s.paths.m[p] in s.files
    ensures d.Valid() && d.keys == s.paths.keys
  {
    Dict(s.paths.keys, map p | p in s.paths.m :: s.files[s.paths.m[p]])
  }

  /**
   * The files hold what the package's filter would have kept: whenever
   * `save_tiles` succeeds, reading its files back gives exactly the dict
   * that `_load_tile_inner` collects from the same responses.
   */
  lemma {:induction false} SavedFilesAreCollected(lookup: map<string, Pos>, outcomes: seq<Outcome>, saveloc: string, token: nat -> string)
    requires SaveAll(lookup, outcomes, saveloc, token).Ok?
    ensures Collect(lookup, outcomes) == Ok(TileImages(SaveAll(lookup, outcomes, saveloc, token).value))
    decreases |outcomes|
  {
    if outcomes != [] {
      var n := |outcomes| - 1;
      var prefix := outcomes[..n];
      assert forall k | 0 <= k < n :: prefix[k] == outcomes[k];
      SavedFilesAreCollected(lookup, prefix, saveloc, token);
      SavedPathsNamed(lookup, prefix, saveloc, token);
      var prev := SaveAll(lookup, prefix, saveloc, token).value;
      var resp := outcomes[n];
      if resp.value.status == 200 {
        var (x, y) := lookup[resp.value.url];
        var path := TilePath(saveloc, x, y, token(n));
        TilePathNamed(saveloc, x, y, token(n));
        var next := Saved(prev.paths.Put((x, y), path), prev.files[path := resp.value.body]);
        assert SaveAll(lookup, outcomes, saveloc, token) == Ok(next);
        forall p | p in prev.paths.m && p != (x, y)
          ensures prev.paths.m[p] != path
        {
          assert NamedFor(prev.paths.m[p], saveloc, p);
        }
        ImagesAfterSave(prev, (x, y), path, resp.value.body);
      }
    }
  }

  /** Saving one more file, at a path no other position uses, adds exactly that image. */
  lemma ImagesAfterSave(prev: Saved, p: Pos, path: string, body: Image)
    requires prev.paths.Valid() && forall q | q in prev.paths.m :: prev.paths.m[q] in prev.files
    requires forall q | q in prev.paths.m && q != p :: prev.paths.m[q] != path
    ensures TileImages(Saved(prev.paths.Put(p, path), prev.files[path := body])) == TileImages(prev).Put(p, body)
  {
    var a := TileImages(Saved(prev.paths.Put(p, path), prev.files[path := body]));
    var b := TileImages(prev).Put(p, body);
    assert a.keys == b.keys;
    assert a.m == b.m;
  }

  // ---------------------------------------------------------------------
  // The strict TileArray
  // ---------------------------------------------------------------------

  /** Every position of the box has a tile. */
  predicate Complete(d: Dict<Pos, Image>, e: Extent) {
    forall x, y | e.minx <= x <= e.maxx && e.miny <= y <= e.maxy :: (x, y) in d.m
  }

  /**
   * The loops of `fromtiles` over a fresh grid for box `e`: each tile
   * goes to its offset cell, and the first position of the box without a
   * tile, in row-major order, raises KeyError.
   */
  method FillGrid(arr: TileArray, d: Dict<Pos, Image>, e: Extent) returns (r: Result<()>)
    requires arr.Valid() && e.Valid() && arr.rows == e.Rows() && arr.cols == e.Cols()
    requires forall i, j | 0 <= i < arr.rows && 0 <= j < arr.cols :: arr.cells[i][j] == None
    modifies arr
    ensures arr.Valid()
    ensures r.Ok? <==> Complete(d, e)
    ensures r.Err? ==> r.error == KeyError
    ensures r.Ok? ==> arr.cells == Dense(d, e)
  {
    ghost var dense := Dense(d, e);
    NothingFilled(arr.cells, dense);
    for y := e.miny to e.maxy + 1
      invariant arr.Valid() && FilledBefore(arr.cells, dense, y - e.miny, 0)
      invariant forall x, y' | e.minx <= x <= e.maxx && e.miny <= y' < y :: (x, y') in d.m
    {
      r := FillRowStrict(arr, d, e, dense, y);
      if r.Err? {
        return;
      }
    }
    FilledAll(arr.cells, dense);
    r := Ok(());
  }

  /** One pass of the inner loop: places tile row y, or raises KeyError at its first gap. */
  method FillRowStrict(arr: TileArray, d: Dict<Pos, Image>, e: Extent, ghost dense: seq<seq<Option<Image>>>, y: int)
    returns (r: Result<()>)
    requires arr.Valid() && e.Valid() && arr.rows == e.Rows() && arr.cols == e.Cols()
    requires dense == Dense(d, e) && e.miny <= y <= e.maxy
    requires FilledBefore(arr.cells, dense, y - e.miny, 0)
    modifies arr
    ensures arr.Valid()
    ensures r.Ok? <==> forall x | e.minx <= x <= e.maxx :: (x, y) in d.m
    ensures r.Err? ==> r.error == KeyError
    ensures r.Ok? ==> FilledBefore(arr.cells, dense, y - e.miny + 1, 0)
  {
    var joffset := y - e.miny;
    for x := e.minx to e.maxx + 1
      invariant arr.Valid() && FilledBefore(arr.cells, dense, joffset, x - e.minx)
      invariant forall x' | e.minx <= x' < x :: (x', y) in d.m
    {
      if (x, y) !in d.m {
        return Err(KeyError);
      }
      var ioffset := x - e.minx;
      ghost var before := arr.cells;
      DenseAt(d, e, (x, y));
      var _ := arr.Set(TupleKey([joffset, ioffset]), Some(d.m[(x, y)]));
      FillStep(before, arr.cells, dense, joffset, ioffset);
    }
    RowFilled(arr.cells, dense, joffset);
    r := Ok(());
  }

  /**
   * `TileArray.fromtiles` of `core.py`: ValueError on an empty dict,
   * TypeError on a single tile (`min(*xpos)`), KeyError when the bounding
   * box of the positions has a gap, and otherwise a grid over that box
   * with every cell holding its tile.
   */
  method FromTilesStrict(tileimgs: Dict<Pos, Image>) returns (r: Result<TileArray>)
    requires tileimgs.Valid()
    ensures tileimgs.keys == [] ==> r == Err(ValueError)
    ensures |tileimgs.keys| == 1 ==> r == Err(TypeError)
    ensures |tileimgs.keys| >= 2 ==>
      var e := ExtentOf(tileimgs.keys);
      && (r.Ok? <==> Complete(tileimgs, e))
      && (r.Err? ==> r.error == KeyError)
    ensures r.Ok? ==> |tileimgs.keys| >= 2 && fresh(r.value) && r.value.Valid()
    ensures r.Ok? ==>
      var e := ExtentOf(tileimgs.keys);
      var first := tileimgs.m[tileimgs.keys[0]];
      && r.value.rows == e.Rows() && r.value.cols == e.Cols()
      && r.value.cellwidth == first.width && r.value.cellheight == first.height
      && r.value.cells == Dense(tileimgs, e)
  {
    if tileimgs.keys == [] {
      return Err(ValueError);
    }
    var box := ExtentAsWritten(tileimgs.keys);
    if box.Err? {
      return Err(box.error);
    }
    ExtentAsWrittenAgrees(tileimgs.keys);
    var e := box.value;
    var animg := tileimgs.m[tileimgs.keys[0]];
    var inst := new TileArray(e.maxy - e.miny + 1, e.maxx - e.minx + 1, animg.width, animg.height);
    var filled := FillGrid(inst, tileimgs, e);
    if filled.Err? {
      return Err(filled.error);
    }
    r := Ok(inst);
  }

  /** A complete box leaves no cell of the dense grid empty. */
  lemma CompleteGridFull(d: Dict<Pos, Image>, e: Extent)
    requires e.Valid() && Complete(d, e)
    ensures forall i, j | 0 <= i < e.Rows() && 0 <= j < e.Cols() :: Dense(d, e)[i][j].Some?
    ensures Full(Dense(d, e))
  {
    forall i, j | 0 <= i < e.Rows() && 0 <= j < e.Cols()
      ensures Dense(d, e)[i][j].Some?
    {
      assert (e.minx + j, e.miny + i) in d.m;
      assert Dense(d, e)[i][j] == Lookup(d, (e.minx + j, e.miny + i));
    }
  }

  /** Every cell of the grid holds a tile. */
  ghost predicate Full(cells: seq<seq<Option<Image>>>) {
    forall i, j | 0 <= i < |cells| && 0 <= j < |cells[i]| :: cells[i][j].Some?
  }

  /**
   * `merge(mode)` of `core.py`: every cell is pasted at
   * (j * cellwidth, i * cellheight); pasting an empty cell raises
   * ValueError, so the merge succeeds exactly on a full grid, and then
   * gives the package's merge.
   */
  method MergeEveryCell(arr: TileArray, mode: string) returns (r: Result<Image>)
    requires arr.Valid()
    ensures r.Ok? <==> Full(arr.cells)
    ensures r.Err? ==> r.error == ValueError
    ensures r.Ok? ==> r.value == Merged(arr.cells, arr.cols, arr.cellwidth, arr.cellheight, mode)
  {
    var canvas := New(mode, arr.Width(), arr.Height());
    var output := canvas;
    for i := 0 to arr.rows
      invariant output == PasteRows(canvas, arr.cells, i, arr.cellwidth, arr.cellheight)
      invariant forall a, b | 0 <= a < i && 0 <= b < arr.cols :: arr.cells[a][b].Some?
    {
      ghost var rowStart := output;
      for j := 0 to arr.cols
        invariant output == PasteRow(rowStart, arr.cells[i], i, j, arr.cellwidth, arr.cellheight)
        invariant forall b | 0 <= b < j :: arr.cells[i][b].Some?
      {
        var xpos := j * arr.cellwidth;
        var ypos := i * arr.cellheight;
        var tile := arr.Get(TupleKey([i, j]));
        if tile.value.None? {
          return Err(ValueError);
        }
        output := Paste(output, tile.value.value, xpos, ypos);
      }
    }
    r := Ok(output);
  }

  /**
   * `stitch(pos_urls, imgmode)` of `core.py`: save the tiles to `tmpd`,
   * read them back, build the strict grid and merge it.
   */
  method Stitch(posUrls: Dict<Pos, string>, outcomes: seq<Outcome>, tmpd: string, token: nat -> string, mode: string)
    returns (r: Result<Image>)
    requires posUrls.Valid()
    ensures r == StitchedStrict(posUrls, outcomes, tmpd, token, mode)
  {
    var tilelocs, written := SaveTiles(posUrls, outcomes, tmpd, token);
    if tilelocs.Err? {
      return Err(tilelocs.error);
    }
    ghost var saved := SaveAll(UrlLookup(posUrls), outcomes, tmpd, token);
    assert saved == Ok(Saved(tilelocs.value, written));
    var tileimgs := TileImages(Saved(tilelocs.value, written));
    var arr := FromTilesStrict(tileimgs);
    if arr.Err? {
      assert tileimgs.keys == [] || |tileimgs.keys| == 1 || !Complete(tileimgs, ExtentOf(tileimgs.keys));
      return Err(arr.error);
    }
    var e := ExtentOf(tileimgs.keys);
    assert Complete(tileimgs, e) && arr.value.cells == Dense(tileimgs, e);
    CompleteGridFull(tileimgs, e);
    r := MergeEveryCell(arr.value, mode);
    assert r == Ok(MergedTiles(tileimgs, mode));
  }

  /**
   * What `stitch` of `core.py` returns: the error of `save_tiles`; else
   * ValueError if nothing was fetched, TypeError if one tile was fetched,
   * KeyError if the fetched positions leave a gap in their bounding box,
   * and otherwise the same canvas as the package's `stitch` of the same
   * responses.
   */
  function StitchedStrict(posUrls: Dict<Pos, string>, outcomes: seq<Outcome>, tmpd: string, token: nat -> string, mode: string): (r: Result<Image>)
    requires posUrls.Valid()
    ensures var saved := SaveAll(UrlLookup(posUrls), outcomes, tmpd, token);
      saved.Err? ==> r == Err(saved.error)
    ensures var saved := SaveAll(UrlLookup(posUrls), outcomes, tmpd, token);
      saved.Ok? ==> var tiles := TileImages(saved.value);
        && (tiles.keys == [] ==> r == Err(ValueError))
        && (|tiles.keys| == 1 ==> r == Err(TypeError))
        && (|tiles.keys| >= 2 ==> (r.Ok? <==> Complete(tiles, ExtentOf(tiles.keys))))
        && (|tiles.keys| >= 2 && !Complete(tiles, ExtentOf(tiles.keys)) ==> r == Err(KeyError))
    ensures r.Ok? ==> r == Stitched(posUrls, outcomes, mode)
  {
    var lookup := UrlLookup(posUrls);
    var saved :- SaveAll(lookup, outcomes, tmpd, token);
    var tiles := TileImages(saved);
    SavedFilesAreCollected(lookup, outcomes, tmpd, token);
    if tiles.keys == [] then Err(ValueError)
    else if |tiles.keys| == 1 then Err(TypeError)
    else if !Complete(tiles, ExtentOf(tiles.keys)) then Err(KeyError)
    else Ok(MergedTiles(tiles, mode))
  }

  // ---------------------------------------------------------------------
  // Indexing as written
  // ---------------------------------------------------------------------

  /**
   * `_check_access` of `core.py` as written:
   * `not isinstance(key, (list, tuple)) and len(key) != 2`.  A list or
   * tuple of any length passes; a scalar reaches `len` and raises
   * TypeError.
   */
  function CheckAccessAsWritten(key: Key): (r: Result<()>)
    ensures r.Ok? <==> !key.ScalarKey?
    ensures r.Err? ==> r.error == TypeError
  {
    if key.ScalarKey? then Err(TypeError) else Ok(())
  }

  /** For a two-item list or tuple the check as written agrees with the intended one. */
  lemma CheckAccessAgreesOnPairs(key: Key)
    requires !key.ScalarKey? && |key.items| == 2
    ensures CheckAccessAsWritten(key) == CheckAccess(key)
  {
  }

  /** A three-item tuple passes the check as written, where the intended check raises IndexError. */
  lemma ThreeItemKeyPasses()
    ensures CheckAccessAsWritten(TupleKey([0, 0, 0])).Ok?
    ensures CheckAccess(TupleKey([0, 0, 0])) == Err(IndexError)
  {
  }

  /**
   * `__getitem__` of `core.py`: after the check as written, `item[0]` and
   * `item[1]` pick the row and the column, so any further items are
   * ignored and a shorter key raises IndexError.
   */
  function GetAsWritten(arr: TileArray, key: Key): (r: Result<Option<Image>>)
    reads arr
    requires arr.Valid()
    ensures key.ScalarKey? ==> r == Err(TypeError)
    ensures !key.ScalarKey? ==>
      (r.Ok? <==> |key.items| >= 2 && -(arr.rows as int) <= key.items[0] < arr.rows
                  && -(arr.cols as int) <= key.items[1] < arr.cols)
    ensures !key.ScalarKey? && r.Err? ==> r.error == IndexError
    ensures r.Ok? ==> r.value == arr.cells[Wrap(key.items[0], arr.rows)][Wrap(key.items[1], arr.cols)]
  {
    var _ :- CheckAccessAsWritten(key);
    var i :- PyIndex(key.items, 0);
    var row :- PyIndex(arr.cells, i);
    var j :- PyIndex(key.items, 1);
    PyIndex(row, j)
  }

  /** On a key the intended check accepts, reading as written is the package's read. */
  lemma GetAsWrittenAgrees(arr: TileArray, key: Key)
    requires arr.Valid() && CheckAccess(key).Ok?
    ensures GetAsWritten(arr, key) == arr.Get(key)
  {
  }

  /** A three-item key reads a cell as written, where the intended check refuses it. */
  lemma ThreeItemKeyReads(arr: TileArray)
    requires arr.Valid() && arr.rows > 0 && arr.cols > 0
    ensures GetAsWritten(arr, TupleKey([0, 0, 7])) == Ok(arr.cells[0][0])
    ensures arr.Get(TupleKey([0, 0, 7])) == Err(IndexError)
  {
  }

  /** `__setitem__` of `core.py`: the cell at the first two items is replaced, the rest kept. */
  method SetAsWritten(arr: TileArray, key: Key, value: Option<Image>) returns (r: Result<()>)
    requires arr.Valid()
    modifies arr
    ensures arr.Valid()
    ensures r.Ok? <==> GetAsWritten(arr, key).Ok?
    ensures r.Err? ==> r.error == old(GetAsWritten(arr, key)).error && arr.cells == old(arr.cells)
    ensures r.Ok? ==>
      var i, j := Wrap(key.items[0], arr.rows), Wrap(key.items[1], arr.cols);
      arr.cells == old(arr.cells)[i := old(arr.cells)[i][j := value]]
  {
    var current := GetAsWritten(arr, key);
    if current.Err? {
      return Err(current.error);
    }
    var i, j := Wrap(key.items[0], arr.rows), Wrap(key.items[1], arr.cols);
    arr.cells := arr.cells[i := arr.cells[i][j := value]];
    r := Ok(());
  }

  // ---------------------------------------------------------------------
  // overlay
  // ---------------------------------------------------------------------

  /**
   * `overlay(bottom, top, pos)` of `core.py`: `bottom` pasted onto a new
   * RGBA image of its size, then `top` composited at `pos`; the result is
   * RGBA and sized like `bottom`.
   */
  function Overlay(bottom: Image, top: Image, pos: Pos, pil: Pil): (r: Image)
    requires Sound(pil)
    ensures r.mode == "RGBA" && r.width == bottom.width && r.height == bottom.height
  {
    var base := Paste(New("RGBA", bottom.width, bottom.height), bottom, 0, 0);
    var (x, y) := pos;
    pil.composite(base, top, x, y)
  }

  /** The base it composites onto carries `bottom`'s pixels; on an RGBA `bottom` it is the package's overlay. */
  lemma OverlayOnRgba(bottom: Image, top: Image, pos: Pos, pil: Pil)
    requires Sound(pil)
    ensures Paste(New("RGBA", bottom.width, bottom.height), bottom, 0, 0).pixels == bottom.pixels
    ensures bottom.mode == "RGBA" ==> Overlay(bottom, top, pos, pil) == StitchCore.Overlay(bottom, top, pos, pil)
  {
    PasteWholeAtOrigin(New("RGBA", bottom.width, bottom.height), bottom);
  }
}
