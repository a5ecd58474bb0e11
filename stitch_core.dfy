/**
 * The tile fetch-and-stitch engine of the `stitch` package: filtering the
 * per-tile fetch outcomes into a sparse position -> tile dict, assembling
 * it into a dense rows x cols `TileArray` over the bounding box of the
 * present positions, merging the array onto one canvas, and the two layout
 * primitives `overlay` and `side_by_side`.
 */
module StitchCore {
  import opened Base
  import opened Raster

  /** A tile position (x, y) in the provider's tile space. */
  type Pos = (int, int)

  // ---------------------------------------------------------------------
  // Fetching: the post-hoc filter over the transport's outcomes
  // ---------------------------------------------------------------------

  /** A completed request: the URL it answered for, its status and its decoded body. */
  datatype Response = Response(url: string, status: int, body: Image)

  /** What the concurrent transport returns per request: a response, or nothing. */
  type Outcome = Option<Response>

  /**
   * `{v: k for k, v in pos_url_map.items()}` over the whole dict, in its
   * key order: each URL maps to the last position that asked for it.
   */
  function InvertUrls(keys: seq<Pos>, urls: map<Pos, string>): (lookup: map<string, Pos>)
    requires forall k | k in keys :: k in urls
    ensures lookup.Keys == set k | k in keys :: urls[k]
    ensures forall u | u in lookup :: lookup[u] in keys && urls[lookup[u]] == u
    decreases |keys|
  {
    if keys == [] then map[]
    else
      var last := keys[|keys| - 1];
      InvertUrls(keys[..|keys| - 1], urls)[urls[last] := last]
  }

  /** The lookup that `_load_tile_inner` builds from a position -> URL dict. */
  function UrlLookup(posUrls: Dict<Pos, string>): map<string, Pos>
    requires posUrls.Valid()
  {
    InvertUrls(posUrls.keys, posUrls.m)
  }

  /** Each distinct URL is requested once: there are never more requests than positions. */
  lemma {:induction false} DuplicateUrlsCollapse(keys: seq<Pos>, urls: map<Pos, string>)
    requires forall k | k in keys :: k in urls
    ensures |InvertUrls(keys, urls)| <= |keys|
    decreases |keys|
  {
    if keys != [] {
      DuplicateUrlsCollapse(keys[..|keys| - 1], urls);
    }
  }

  /**
   * The URLs `grequests` is asked for: the keys of the inverted lookup in
   * dict order, i.e. each distinct URL once, at its first occurrence.
   */
  function Requests(keys: seq<Pos>, urls: map<Pos, string>): (reqs: seq<string>)
    requires forall k | k in keys :: k in urls
    ensures forall u :: u in reqs <==> u in InvertUrls(keys, urls)
    ensures forall i, j | 0 <= i < j < |reqs| :: reqs[i] != reqs[j]
    decreases |keys|
  {
    if keys == [] then []
    else
      var prev := Requests(keys[..|keys| - 1], urls);
      var u := urls[keys[|keys| - 1]];
      if u in prev then prev else prev + [u]
  }

  /** The network, seen from the transport: what one request for a URL gives back. */
  type Network = string -> Outcome

  /** `grequests.map` over the requests: one outcome per requested URL, in request order. */
  function Transport(posUrls: Dict<Pos, string>, net: Network): (outcomes: seq<Outcome>)
    requires posUrls.Valid()
  {
    var reqs := Requests(posUrls.keys, posUrls.m);
    seq(|reqs|, k requires 0 <= k < |reqs| => net(reqs[k]))
  }

  predicate Succeeded(o: Outcome) {
    o.Some? && o.value.status == 200
  }

  /**
   * The dict `_load_tile_inner` returns after the first `|outcomes|`
   * responses: a 200 response stores its body under its position, any other
   * outcome only warns; a response for a URL that was never requested
   * raises KeyError.
   */
  function Collect(lookup: map<string, Pos>, outcomes: seq<Outcome>): (r: Result<Dict<Pos, Image>>)
    ensures r.Err? <==> exists k | 0 <= k < |outcomes| :: outcomes[k].Some? && outcomes[k].value.url !in lookup
    ensures r.Err? ==> r.error == KeyError
    ensures r.Ok? ==> r.value.Valid()
    ensures r.Ok? ==> forall p | p in r.value.m ::
      exists k | 0 <= k < |outcomes| ::
        Succeeded(outcomes[k]) && lookup[outcomes[k].value.url] == p && outcomes[k].value.body == r.value.m[p]
    ensures r.Ok? ==> forall k | 0 <= k < |outcomes| && Succeeded(outcomes[k]) ::
      lookup[outcomes[k].value.url] in r.value.m
    decreases |outcomes|
  {
    if outcomes == [] then Ok(EmptyDict())
    else
      var prefix, last := outcomes[..|outcomes| - 1], outcomes[|outcomes| - 1];
      assert outcomes == prefix + [last];
      assert forall k | 0 <= k < |prefix| :: prefix[k] == outcomes[k];
      var prev := Collect(lookup, prefix);
      if prev.Err? then Err(prev.error)
      else if last.None? then prev
      else if last.value.url !in lookup then Err(KeyError)
      else if last.value.status == 200 then Ok(prev.value.Put(lookup[last.value.url], last.value.body))
      else prev
  }

  /** Every fetched tile belongs to a position that was requested. */
  lemma FetchedKeysRequested(posUrls: Dict<Pos, string>, outcomes: seq<Outcome>)
    requires posUrls.Valid()
    requires Collect(UrlLookup(posUrls), outcomes).Ok?
    ensures forall p | p in Collect(UrlLookup(posUrls), outcomes).value.m :: p in posUrls.m
  {
    var lookup := UrlLookup(posUrls);
    var d := Collect(lookup, outcomes).value;
    forall p | p in d.m
      ensures p in posUrls.m
    {
      var k :| 0 <= k < |outcomes| && Succeeded(outcomes[k]) && lookup[outcomes[k].value.url] == p;
    }
  }

  /** `_load_tile_inner`: walk the responses and keep the successful ones. */
  method LoadTiles(posUrls: Dict<Pos, string>, outcomes: seq<Outcome>) returns (r: Result<Dict<Pos, Image>>)
    requires posUrls.Valid()
    ensures r == Collect(UrlLookup(posUrls), outcomes)
  {
    var lookup := UrlLookup(posUrls);
    var tiles: Dict<Pos, Image> := EmptyDict();
    for n := 0 to |outcomes|
      invariant Collect(lookup, outcomes[..n]) == Ok(tiles)
    {
      CollectStep(lookup, outcomes, n);
      var resp := outcomes[n];
      if resp.Some? {
        if resp.value.url !in lookup {
          PrefixError(lookup, outcomes, n + 1);
          return Err(KeyError);
        }
        var pos := lookup[resp.value.url];
        if resp.value.status == 200 {
          tiles := tiles.Put(pos, resp.value.body);
        }
      }
    }
    assert outcomes[..|outcomes|] == outcomes;
    r := Ok(tiles);
  }

  /** One more response extends the walk over a successful prefix by that response alone. */
  lemma CollectStep(lookup: map<string, Pos>, outcomes: seq<Outcome>, n: nat)
    requires n < |outcomes| && Collect(lookup, outcomes[..n]).Ok?
    ensures var prev, o := Collect(lookup, outcomes[..n]).value, outcomes[n];
      Collect(lookup, outcomes[..n + 1]) ==
        if o.None? then Ok(prev)
        else if o.value.url !in lookup then Err(KeyError)
        else if o.value.status == 200 then Ok(prev.Put(lookup[o.value.url], o.value.body))
        else Ok(prev)
  {
    assert outcomes[..n + 1][..n] == outcomes[..n];
    assert outcomes[..n + 1][n] == outcomes[n];
  }

  /** Once a prefix of the responses fails, the whole walk fails. */
  lemma PrefixError(lookup: map<string, Pos>, outcomes: seq<Outcome>, n: nat)
    requires n <= |outcomes|
    requires Collect(lookup, outcomes[..n]).Err?
    ensures Collect(lookup, outcomes) == Err(KeyError)
  {
    var k :| 0 <= k < n && outcomes[..n][k].Some? && outcomes[..n][k].value.url !in lookup;
    assert outcomes[k] == outcomes[..n][k];
  }

  // ---------------------------------------------------------------------
  // The bounding box of the present positions
  // ---------------------------------------------------------------------

  datatype Extent = Extent(minx: int, maxx: int, miny: int, maxy: int) {
    predicate Valid() { minx <= maxx && miny <= maxy }
    function Rows(): nat requires Valid() { maxy - miny + 1 }
    function Cols(): nat requires Valid() { maxx - minx + 1 }
    predicate Contains(p: Pos) { minx <= p.0 <= maxx && miny <= p.1 <= maxy }
  }

  function Xs(keys: seq<Pos>): (xs: seq<int>)
    ensures |xs| == |keys| && forall k | 0 <= k < |keys| :: xs[k] == keys[k].0
  {
    seq(|keys|, k requires 0 <= k < |keys| => keys[k].0)
  }

  function Ys(keys: seq<Pos>): (ys: seq<int>)
    ensures |ys| == |keys| && forall k | 0 <= k < |keys| :: ys[k] == keys[k].1
  {
    seq(|keys|, k requires 0 <= k < |keys| => keys[k].1)
  }

  /**
   * Python's `min(*xs)`: the elements are spread as separate arguments, so
   * a single element reaches `min` as one int, which is not iterable.
   */
  function PyMinOfArgs(xs: seq<int>): (r: Result<int>)
    ensures r.Ok? <==> |xs| >= 2
    ensures r.Err? ==> r.error == TypeError
    ensures r.Ok? ==> r.value in xs && forall k | 0 <= k < |xs| :: r.value <= xs[k]
  {
    if |xs| < 2 then Err(TypeError) else Ok(SeqMin(xs))
  }

  function PyMaxOfArgs(xs: seq<int>): (r: Result<int>)
    ensures r.Ok? <==> |xs| >= 2
    ensures r.Err? ==> r.error == TypeError
    ensures r.Ok? ==> r.value in xs && forall k | 0 <= k < |xs| :: r.value >= xs[k]
  {
    if |xs| < 2 then Err(TypeError) else Ok(SeqMax(xs))
  }

  /** The bounding box as `fromtiles` computes it, with `min(*xpos)` and friends. */
  function ExtentAsWritten(keys: seq<Pos>): (r: Result<Extent>)
    ensures r.Ok? <==> |keys| >= 2
    ensures r.Err? ==> r.error == TypeError
  {
    match PyMinOfArgs(Xs(keys))
    case Err(e) => Err(e)
    case Ok(minx) =>
      // once the first call succeeds the sequences have two or more elements
      Ok(Extent(minx, PyMaxOfArgs(Xs(keys)).value, PyMinOfArgs(Ys(keys)).value, PyMaxOfArgs(Ys(keys)).value))
  }

  /**
   * The bounding box of the present positions (the intended
   * `min(xpos)` ... `max(ypos)`): it contains every key.
   */
  function ExtentOf(keys: seq<Pos>): (e: Extent)
    requires |keys| > 0
    ensures e.Valid()
    ensures forall k | 0 <= k < |keys| :: e.Contains(keys[k])
  {
    var xs, ys := Xs(keys), Ys(keys);
    assert xs[0] == keys[0].0 && ys[0] == keys[0].1;
    Extent(SeqMin(xs), SeqMax(xs), SeqMin(ys), SeqMax(ys))
  }

  /** The box is the smallest one: each of its four edges is attained by some key. */
  lemma ExtentTight(keys: seq<Pos>)
    requires |keys| > 0
    ensures var e := ExtentOf(keys);
      && (exists k | 0 <= k < |keys| :: keys[k].0 == e.minx) && (exists k | 0 <= k < |keys| :: keys[k].0 == e.maxx)
      && (exists k | 0 <= k < |keys| :: keys[k].1 == e.miny) && (exists k | 0 <= k < |keys| :: keys[k].1 == e.maxy)
  {
    var xs, ys := Xs(keys), Ys(keys);
    assert SeqMin(xs) in xs && SeqMax(xs) in xs && SeqMin(ys) in ys && SeqMax(ys) in ys;
  }

  /** With a single tile the code as written fails, where one 1 x 1 grid is meant. */
  lemma SingleTileExtent(p: Pos)
    ensures ExtentAsWritten([p]) == Err(TypeError)
    ensures ExtentOf([p]) == Extent(p.0, p.0, p.1, p.1)
    ensures ExtentOf([p]).Rows() == 1 && ExtentOf([p]).Cols() == 1
  {
  }

  /** For two or more tiles the code as written computes the intended box. */
  lemma ExtentAsWrittenAgrees(keys: seq<Pos>)
    requires |keys| >= 2
    ensures ExtentAsWritten(keys) == Ok(ExtentOf(keys))
  {
  }

  // ---------------------------------------------------------------------
  // The dense grid
  // ---------------------------------------------------------------------

  /** Python's `tileimgs[i, j]` caught by `except KeyError`: an absent tile is None. */
  function Lookup(d: Dict<Pos, Image>, p: Pos): Option<Image> {
    if p in d.m then Some(d.m[p]) else None
  }

  /** The grid that `fromtiles` fills: cell (i, j) holds the tile at (minx + j, miny + i). */
  function Dense(d: Dict<Pos, Image>, e: Extent): (cells: seq<seq<Option<Image>>>)
    requires e.Valid()
    ensures |cells| == e.Rows() && forall i | 0 <= i < |cells| :: |cells[i]| == e.Cols()
  {
    seq(e.Rows(), i requires 0 <= i < e.Rows() =>
      seq(e.Cols(), j requires 0 <= j < e.Cols() => Lookup(d, (e.minx + j, e.miny + i))))
  }

  /** Every present position lies in the bounding box of the keys. */
  lemma KeysInExtent(d: Dict<Pos, Image>)
    requires d.Valid() && |d.keys| > 0
    ensures forall p | p in d.m :: ExtentOf(d.keys).Contains(p)
  {
    var e := ExtentOf(d.keys);
    forall p | p in d.m
      ensures e.Contains(p)
    {
      var k :| 0 <= k < |d.keys| && d.keys[k] == p;
    }
  }

  /**
   * The offset bijection: every present tile at (x, y) is in cell
   * (y - miny, x - minx), and a cell holds a tile exactly when its position
   * is present; every other cell stays None.
   */
  lemma DenseAt(d: Dict<Pos, Image>, e: Extent, p: Pos)
    requires e.Valid() && e.Contains(p)
    ensures 0 <= p.1 - e.miny < e.Rows() && 0 <= p.0 - e.minx < e.Cols()
    ensures Dense(d, e)[p.1 - e.miny][p.0 - e.minx] == Lookup(d, p)
  {
    var (i, j) := (p.1 - e.miny, p.0 - e.minx);
    assert (e.minx + j, e.miny + i) == p;
  }

  /**
   * The offset bijection, for any box holding every present position (such
   * as `ExtentOf`, by `KeysInExtent`): the tile at (x, y) is in cell
   * (y - miny, x - minx), and a cell holds a tile exactly when its position
   * is present; every other cell is None.
   */
  lemma DenseOffsets(d: Dict<Pos, Image>, e: Extent)
    requires e.Valid()
    requires forall p | p in d.m :: e.Contains(p)
    ensures var cells := Dense(d, e);
      && (forall p | p in d.m ::
            0 <= p.1 - e.miny < e.Rows() && 0 <= p.0 - e.minx < e.Cols()
            && cells[p.1 - e.miny][p.0 - e.minx] == Some(d.m[p]))
      && (forall i, j | 0 <= i < e.Rows() && 0 <= j < e.Cols() ::
            cells[i][j].Some? <==> (e.minx + j, e.miny + i) in d.m)
  {
    var cells := Dense(d, e);
    forall p | p in d.m
      ensures 0 <= p.1 - e.miny < e.Rows() && 0 <= p.0 - e.minx < e.Cols()
      ensures cells[p.1 - e.miny][p.0 - e.minx] == Some(d.m[p])
    {
      DenseAt(d, e, p);
    }
    forall i, j | 0 <= i < e.Rows() && 0 <= j < e.Cols()
      ensures cells[i][j].Some? <==> (e.minx + j, e.miny + i) in d.m
    {
      assert cells[i][j] == Lookup(d, (e.minx + j, e.miny + i));
    }
  }

  // ---------------------------------------------------------------------
  // Merging onto a canvas
  // ---------------------------------------------------------------------

  function PasteCell(canvas: Image, cell: Option<Image>, x: int, y: int): Image {
    match cell
    case None => canvas
    case Some(tile) => Paste(canvas, tile, x, y)
  }

  /** Row i after its first j cells have been pasted at (j' * cw, i * ch). */
  function PasteRow(canvas: Image, row: seq<Option<Image>>, i: nat, j: nat, cw: nat, ch: nat): (out: Image)
    requires j <= |row|
    ensures SameShape(out, canvas)
    decreases j
  {
    if j == 0 then canvas
    else PasteCell(PasteRow(canvas, row, i, j - 1, cw, ch), row[j - 1], (j - 1) * cw, i * ch)
  }

  /** The canvas after the first n rows have been pasted. */
  function PasteRows(canvas: Image, cells: seq<seq<Option<Image>>>, n: nat, cw: nat, ch: nat): (out: Image)
    requires n <= |cells|
    ensures SameShape(out, canvas)
    decreases n
  {
    if n == 0 then canvas
    else PasteRow(PasteRows(canvas, cells, n - 1, cw, ch), cells[n - 1], n - 1, |cells[n - 1]|, cw, ch)
  }

  /** What `merge(mode)` returns for a grid of cells of size cw x ch. */
  function Merged(cells: seq<seq<Option<Image>>>, cols: nat, cw: nat, ch: nat, mode: string): (out: Image)
    ensures out.mode == mode && out.width == cw * cols && out.height == ch * |cells|
  {
    PasteRows(New(mode, cw * cols, ch * |cells|), cells, |cells|, cw, ch)
  }

  ghost predicate Rectangular(cells: seq<seq<Option<Image>>>, cols: nat) {
    forall i | 0 <= i < |cells| :: |cells[i]| == cols
  }

  /** Every present tile has the cell size (the source assumes this and does not check it). */
  ghost predicate Uniform(cells: seq<seq<Option<Image>>>, cw: nat, ch: nat) {
    forall i, j | 0 <= i < |cells| && 0 <= j < |cells[i]| && cells[i][j].Some? ::
      cells[i][j].value.width == cw && cells[i][j].value.height == ch
  }

  /** Where pixel column c (or row) falls: band j of width w. */
  lemma MulMonotone(a: int, b: int, w: nat)
    requires a <= b
    ensures a * w <= b * w
  {
    assert b * w - a * w == (b - a) * w;
  }

  /** Two bands of width w that both contain c are the same band. */
  lemma UniqueBand(c: int, q: int, j: int, w: nat)
    requires w > 0
    requires q * w <= c < q * w + w && j * w <= c < j * w + w
    ensures q == j
  {
    if q < j {
      assert (q + 1) * w == q * w + w;
      MulMonotone(q + 1, j, w);
    } else if j < q {
      assert (j + 1) * w == j * w + w;
      MulMonotone(j + 1, q, w);
    }
  }

  /** Where pixel column c (or row) falls: band c / w of width w, at offset c % w. */
  lemma CellBand(c: int, j: int, w: nat)
    requires w > 0 && c >= 0
    ensures (j * w <= c < j * w + w) <==> c / w == j
    ensures c / w == j ==> c - j * w == c % w
  {
    var q, m := c / w, c % w;
    assert c == q * w + m && 0 <= m < w;
    if j * w <= c < j * w + w {
      UniqueBand(c, q, j, w);
    }
  }

  lemma BandBelow(c: int, n: nat, w: nat)
    requires w > 0 && 0 <= c < w * n
    ensures 0 <= c / w < n
  {
    var q, m := c / w, c % w;
    assert c == q * w + m && 0 <= m < w;
    if q >= n {
      MulMonotone(n, q, w);
    }
  }

  /** The pixel that cell (r / ch, c / cw) contributes at (r, c), Background if the cell is empty. */
  function CellPixel(cells: seq<seq<Option<Image>>>, cols: nat, cw: nat, ch: nat, r: nat, c: nat): Pixel
    requires cw > 0 && ch > 0 && Rectangular(cells, cols) && Uniform(cells, cw, ch)
    requires r < ch * |cells| && c < cw * cols
  {
    BandBelow(r, |cells|, ch);
    BandBelow(c, cols, cw);
    match cells[r / ch][c / cw]
    case None => Background
    case Some(tile) => tile.pixels[r % ch][c % cw]
  }

  predicate Before(a: int, b: int, i: int, j: int) {
    a < i || (a == i && b < j)
  }

  /** Pixels of cells before (i, j) in row-major order show their cell, all others the background. */
  ghost predicate ShowsBefore(im: Image, cells: seq<seq<Option<Image>>>, cols: nat, cw: nat, ch: nat, i: int, j: int)
    requires cw > 0 && ch > 0 && Rectangular(cells, cols) && Uniform(cells, cw, ch)
  {
    && im.width == cw * cols && im.height == ch * |cells|
    && forall r, c | 0 <= r < im.height && 0 <= c < im.width ::
         im.pixels[r][c] == if Before(r / ch, c / cw, i, j) then CellPixel(cells, cols, cw, ch, r, c) else Background
  }

  lemma PastePixel(prev: Image, cells: seq<seq<Option<Image>>>, cols: nat, cw: nat, ch: nat, i: nat, j: nat, r: nat, c: nat)
    requires cw > 0 && ch > 0 && Rectangular(cells, cols) && Uniform(cells, cw, ch)
    requires i < |cells| && j < cols
    requires prev.width == cw * cols && prev.height == ch * |cells|
    requires r < prev.height && c < prev.width
    requires prev.pixels[r][c] == if Before(r / ch, c / cw, i, j) then CellPixel(cells, cols, cw, ch, r, c) else Background
    ensures var next := PasteCell(prev, cells[i][j], j * cw, i * ch);
      next.pixels[r][c] == if Before(r / ch, c / cw, i, j + 1) then CellPixel(cells, cols, cw, ch, r, c) else Background
  {
    CellBand(c, j, cw);
    CellBand(r, i, ch);
    BandBelow(r, |cells|, ch);
    BandBelow(c, cols, cw);
  }

  lemma {:induction false} PasteRowShows(canvas: Image, cells: seq<seq<Option<Image>>>, cols: nat, cw: nat, ch: nat, i: nat, j: nat)
    requires cw > 0 && ch > 0 && Rectangular(cells, cols) && Uniform(cells, cw, ch)
    requires i < |cells| && j <= cols
    requires ShowsBefore(canvas, cells, cols, cw, ch, i, 0)
    ensures ShowsBefore(PasteRow(canvas, cells[i], i, j, cw, ch), cells, cols, cw, ch, i, j)
    decreases j
  {
    if j > 0 {
      PasteRowShows(canvas, cells, cols, cw, ch, i, j - 1);
      var prev := PasteRow(canvas, cells[i], i, j - 1, cw, ch);
      forall r, c | 0 <= r < prev.height && 0 <= c < prev.width
        ensures PasteCell(prev, cells[i][j - 1], (j - 1) * cw, i * ch).pixels[r][c]
          == if Before(r / ch, c / cw, i, j) then CellPixel(cells, cols, cw, ch, r, c) else Background
      {
        PastePixel(prev, cells, cols, cw, ch, i, j - 1, r, c);
      }
    }
  }

  lemma {:induction false} PasteRowsShows(canvas: Image, cells: seq<seq<Option<Image>>>, cols: nat, cw: nat, ch: nat, n: nat)
    requires cw > 0 && ch > 0 && Rectangular(cells, cols) && Uniform(cells, cw, ch)
    requires n <= |cells|
    requires ShowsBefore(canvas, cells, cols, cw, ch, 0, 0)
    ensures ShowsBefore(PasteRows(canvas, cells, n, cw, ch), cells, cols, cw, ch, n, 0)
    decreases n
  {
    if n > 0 {
      PasteRowsShows(canvas, cells, cols, cw, ch, n - 1);
      var prev := PasteRows(canvas, cells, n - 1, cw, ch);
      PasteRowShows(prev, cells, cols, cw, ch, n - 1, cols);
      var out := PasteRow(prev, cells[n - 1], n - 1, cols, cw, ch);
      forall r, c | 0 <= r < out.height && 0 <= c < out.width
        ensures Before(r / ch, c / cw, n - 1, cols) == Before(r / ch, c / cw, n, 0)
      {
        BandBelow(c, cols, cw);
      }
    }
  }

  /**
   * The merged canvas, pixel by pixel: each pixel shows the corresponding
   * pixel of the tile in its cell, and the canvas background where the cell
   * is empty.
   */
  lemma MergedPixels(cells: seq<seq<Option<Image>>>, cols: nat, cw: nat, ch: nat, mode: string)
    requires cw > 0 && ch > 0 && Rectangular(cells, cols) && Uniform(cells, cw, ch)
    ensures var out := Merged(cells, cols, cw, ch, mode);
      forall r, c | 0 <= r < out.height && 0 <= c < out.width ::
        out.pixels[r][c] == CellPixel(cells, cols, cw, ch, r, c)
  {
    var canvas := New(mode, cw * cols, ch * |cells|);
    BlankShowsNothing(cells, cols, cw, ch, mode);
    PasteRowsShows(canvas, cells, cols, cw, ch, |cells|);
    var out := Merged(cells, cols, cw, ch, mode);
    assert ShowsBefore(out, cells, cols, cw, ch, |cells|, 0);
    forall r, c | 0 <= r < out.height && 0 <= c < out.width
      ensures out.pixels[r][c] == CellPixel(cells, cols, cw, ch, r, c)
    {
      BandBelow(r, |cells|, ch);
      assert Before(r / ch, c / cw, |cells|, 0);
    }
  }

  /** A new canvas of the merge's size shows no cell yet. */
  lemma BlankShowsNothing(cells: seq<seq<Option<Image>>>, cols: nat, cw: nat, ch: nat, mode: string)
    requires cw > 0 && ch > 0 && Rectangular(cells, cols) && Uniform(cells, cw, ch)
    ensures ShowsBefore(New(mode, cw * cols, ch * |cells|), cells, cols, cw, ch, 0, 0)
  {
    var canvas := New(mode, cw * cols, ch * |cells|);
    forall r, c | 0 <= r < canvas.height && 0 <= c < canvas.width
      ensures canvas.pixels[r][c] == Background && !Before(r / ch, c / cw, 0, 0)
    {
    }
  }

  /** A grid that keeps some tiles of a uniform grid and drops the others is uniform too. */
  lemma PartialUniform(full: seq<seq<Option<Image>>>, partial: seq<seq<Option<Image>>>, cols: nat, cw: nat, ch: nat)
    requires Rectangular(full, cols) && Uniform(full, cw, ch)
    requires |partial| == |full| && Rectangular(partial, cols)
    requires forall i, j | 0 <= i < |full| && 0 <= j < cols :: partial[i][j] == full[i][j] || partial[i][j].None?
    ensures Uniform(partial, cw, ch)
  {
    forall i, j | 0 <= i < |partial| && 0 <= j < |partial[i]| && partial[i][j].Some?
      ensures partial[i][j].value.width == cw && partial[i][j].value.height == ch
    {
      assert partial[i][j] == full[i][j];
    }
  }

  /** Whether the cell holding pixel (r, c) of a merge has a tile. */
  predicate CellFilled(cells: seq<seq<Option<Image>>>, cols: nat, cw: nat, ch: nat, r: nat, c: nat)
    requires cw > 0 && ch > 0 && Rectangular(cells, cols)
    requires r < ch * |cells| && c < cw * cols
  {
    BandBelow(r, |cells|, ch);
    BandBelow(c, cols, cw);
    cells[r / ch][c / cw].Some?
  }

  /**
   * Degraded output: a grid missing some tiles of a full grid merges to the
   * full canvas except inside the rectangles of the missing cells, which
   * show the background.
   */
  lemma MissingTilesBlankOnlyTheirCells(full: seq<seq<Option<Image>>>, partial: seq<seq<Option<Image>>>,
                                        cols: nat, cw: nat, ch: nat, mode: string)
    requires cw > 0 && ch > 0 && Rectangular(full, cols) && Uniform(full, cw, ch)
    requires |partial| == |full| && Rectangular(partial, cols)
    requires forall i, j | 0 <= i < |full| && 0 <= j < cols :: partial[i][j] == full[i][j] || partial[i][j].None?
    ensures var a := Merged(full, cols, cw, ch, mode); var b := Merged(partial, cols, cw, ch, mode);
      && SameShape(a, b)
      && forall r, c | 0 <= r < a.height && 0 <= c < a.width ::
           b.pixels[r][c] == if CellFilled(partial, cols, cw, ch, r, c) then a.pixels[r][c] else Background
  {
    PartialUniform(full, partial, cols, cw, ch);
    MergedPixels(full, cols, cw, ch, mode);
    MergedPixels(partial, cols, cw, ch, mode);
    var a, b := Merged(full, cols, cw, ch, mode), Merged(partial, cols, cw, ch, mode);
    forall r, c | 0 <= r < a.height && 0 <= c < a.width
      ensures b.pixels[r][c] == if CellFilled(partial, cols, cw, ch, r, c) then a.pixels[r][c] else Background
    {
      MissingTilePixel(full, partial, cols, cw, ch, r, c);
    }
  }

  lemma MissingTilePixel(full: seq<seq<Option<Image>>>, partial: seq<seq<Option<Image>>>,
                         cols: nat, cw: nat, ch: nat, r: nat, c: nat)
    requires cw > 0 && ch > 0 && Rectangular(full, cols) && Uniform(full, cw, ch)
    requires |partial| == |full| && Rectangular(partial, cols) && Uniform(partial, cw, ch)
    requires forall i, j | 0 <= i < |full| && 0 <= j < cols :: partial[i][j] == full[i][j] || partial[i][j].None?
    requires r < ch * |full| && c < cw * cols
    ensures CellPixel(partial, cols, cw, ch, r, c)
      == if CellFilled(partial, cols, cw, ch, r, c) then CellPixel(full, cols, cw, ch, r, c) else Background
  {
    BandBelow(r, |full|, ch);
    BandBelow(c, cols, cw);
  }

  // ---------------------------------------------------------------------
  // TileArray
  // ---------------------------------------------------------------------

  /** Same grid shape; the cells before (i, j) in row-major order agree with `dense`, the rest are None. */
  ghost predicate FilledBefore(cells: seq<seq<Option<Image>>>, dense: seq<seq<Option<Image>>>, i: int, j: int) {
    && |cells| == |dense|
    && (forall a | 0 <= a < |dense| :: |cells[a]| == |dense[a]|)
    && forall a, b | 0 <= a < |dense| && 0 <= b < |dense[a]| ::
         cells[a][b] == if Before(a, b, i, j) then dense[a][b] else None
  }

  lemma NothingFilled(cells: seq<seq<Option<Image>>>, dense: seq<seq<Option<Image>>>)
    requires |cells| == |dense| && forall a | 0 <= a < |dense| :: |cells[a]| == |dense[a]|
    requires forall a, b | 0 <= a < |dense| && 0 <= b < |dense[a]| :: cells[a][b] == None
    ensures FilledBefore(cells, dense, 0, 0)
  {
  }

  lemma FillStep(before: seq<seq<Option<Image>>>, after: seq<seq<Option<Image>>>, dense: seq<seq<Option<Image>>>, i: nat, j: nat)
    requires FilledBefore(before, dense, i, j)
    requires i < |dense| && j < |dense[i]|
    requires after == before || (dense[i][j].Some? && after == before[i := before[i][j := dense[i][j]]])
    requires after == before ==> dense[i][j].None?
    ensures FilledBefore(after, dense, i, j + 1)
  {
  }

  lemma RowFilled(cells: seq<seq<Option<Image>>>, dense: seq<seq<Option<Image>>>, i: nat)
    requires i < |dense| && FilledBefore(cells, dense, i, |dense[i]|)
    requires forall a | 0 <= a < |dense| :: |dense[a]| == |dense[i]|
    ensures FilledBefore(cells, dense, i + 1, 0)
  {
  }

  lemma FilledAll(cells: seq<seq<Option<Image>>>, dense: seq<seq<Option<Image>>>)
    requires FilledBefore(cells, dense, |dense|, 0)
    ensures cells == dense
  {
    forall a | 0 <= a < |dense|
      ensures cells[a] == dense[a]
    {
    }
  }

  /** A key as Python code may pass it to `__getitem__`/`__setitem__`. */
  datatype Key = TupleKey(items: seq<int>) | ListKey(items: seq<int>) | ScalarKey(value: int)

  /** `_check_access`: the key must be a list or tuple of exactly two items. */
  function CheckAccess(key: Key): (r: Result<()>)
    ensures r.Ok? <==> !key.ScalarKey? && |key.items| == 2
    ensures r.Err? ==> r.error == IndexError
  {
    if key.ScalarKey? || |key.items| != 2 then Err(IndexError) else Ok(())
  }

  class TileArray {
    const rows: nat
    const cols: nat
    const cellwidth: nat
    const cellheight: nat
    /** `_arr`: a list of `rows` lists of `cols` optional tiles. */
    var cells: seq<seq<Option<Image>>>

    ghost predicate Valid()
      reads this
    {
      |cells| == rows && forall i | 0 <= i < rows :: |cells[i]| == cols
    }

    /** The key addresses a cell: two items, each a valid (possibly negative) Python index. */
    predicate Addresses(key: Key) {
      && !key.ScalarKey? && |key.items| == 2
      && -(rows as int) <= key.items[0] < rows
      && -(cols as int) <= key.items[1] < cols
    }

    constructor (rows: nat, cols: nat, cellwidth: nat, cellheight: nat)
      ensures Valid()
      ensures this.rows == rows && this.cols == cols
      ensures this.cellwidth == cellwidth && this.cellheight == cellheight
      ensures forall i, j | 0 <= i < rows && 0 <= j < cols :: cells[i][j] == None
    {
      this.rows := rows;
      this.cols := cols;
      this.cellwidth := cellwidth;
      this.cellheight := cellheight;
      cells := seq(rows, _ => seq(cols, _ => None));
    }

    /** `__getitem__`. */
    function Get(key: Key): (r: Result<Option<Image>>)
      reads this
      requires Valid()
      ensures r.Ok? <==> Addresses(key)
      ensures r.Err? ==> r.error == IndexError
      ensures r.Ok? ==> r.value == cells[Wrap(key.items[0], rows)][Wrap(key.items[1], cols)]
    {
      match CheckAccess(key)
      case Err(e) => Err(e)
      case Ok(_) =>
        match PyIndex(cells, key.items[0])
        case Err(e) => Err(e)
        case Ok(row) => PyIndex(row, key.items[1])
    }

    /** `__setitem__`: replaces exactly the addressed cell, or raises IndexError and changes nothing. */
    method Set(key: Key, value: Option<Image>) returns (r: Result<()>)
      requires Valid()
      modifies this
      ensures Valid()
      ensures r.Ok? <==> Addresses(key)
      ensures r.Err? ==> r.error == IndexError && cells == old(cells)
      ensures r.Ok? ==>
        var i, j := Wrap(key.items[0], rows), Wrap(key.items[1], cols);
        cells == old(cells)[i := old(cells)[i][j := value]]
    {
      r := CheckAccess(key);
      if r.Err? {
        return;
      }
      var row := PyIndex(cells, key.items[0]);
      if row.Err? {
        return Err(IndexError);
      }
      var j := PyIndex(row.value, key.items[1]);
      if j.Err? {
        return Err(IndexError);
      }
      var a, b := Wrap(key.items[0], rows), Wrap(key.items[1], cols);
      cells := cells[a := cells[a][b := value]];
    }

    /** The `width` property. */
    function Width(): nat
      reads this
    {
      cellwidth * cols
    }

    /** The `height` property. */
    function Height(): nat
      reads this
    {
      cellheight * rows
    }

    /**
     * `merge(mode)`: a canvas of (width, height) in `mode` with every
     * present cell (i, j) pasted at (j * cellwidth, i * cellheight); empty
     * cells are skipped and keep the background.
     */
    method Merge(mode: string) returns (output: Image)
      requires Valid()
      ensures output.mode == mode && output.width == Width() && output.height == Height()
      ensures output == Merged(cells, cols, cellwidth, cellheight, mode)
    {
      var canvas := New(mode, Width(), Height());
      output := canvas;
      for i := 0 to rows
        invariant output == PasteRows(canvas, cells, i, cellwidth, cellheight)
      {
        ghost var rowStart := output;
        for j := 0 to cols
          invariant output == PasteRow(rowStart, cells[i], i, j, cellwidth, cellheight)
        {
          var xpos := j * cellwidth;
          var ypos := i * cellheight;
          var tile := Get(TupleKey([i, j]));
          if tile.value.Some? {
            output := Paste(output, tile.value.value, xpos, ypos);
          }
        }
      }
    }

    /** One pass of the inner loop of `fromtiles`: places the present tiles of tile row y. */
    method FillRow(tileimgs: Dict<Pos, Image>, e: Extent, ghost dense: seq<seq<Option<Image>>>, y: int, ghost row: int)
      requires Valid() && e.Valid() && rows == e.Rows() && cols == e.Cols()
      requires dense == Dense(tileimgs, e) && e.miny <= y <= e.maxy && row == y - e.miny
      requires FilledBefore(cells, dense, row, 0)
      modifies this
      ensures Valid() && FilledBefore(cells, dense, row + 1, 0)
    {
      var joffset := y - e.miny;
      for x := e.minx to e.maxx + 1
        invariant Valid() && FilledBefore(cells, dense, joffset, x - e.minx)
      {
        var ioffset := x - e.minx;
        ghost var before := cells;
        DenseAt(tileimgs, e, (x, y));
        if (x, y) in tileimgs.m {
          var _ := Set(TupleKey([joffset, ioffset]), Some(tileimgs.m[(x, y)]));
        }
        FillStep(before, cells, dense, joffset, ioffset);
      }
      RowFilled(cells, dense, joffset);
    }

    /**
     * `TileArray.fromtiles`: fails on an empty dict, and on a single tile
     * (the box is computed with `min(*xpos)`); otherwise a grid over the
     * bounding box of the present positions whose cell size is that of
     * the first tile, each present tile in its offset cell and every other
     * cell None.
     */
    static method FromTiles(tileimgs: Dict<Pos, Image>) returns (r: Result<TileArray>)
      requires tileimgs.Valid()
      ensures tileimgs.keys == [] ==> r == Err(StitchException)
      ensures |tileimgs.keys| == 1 ==> r == Err(TypeError)
      ensures |tileimgs.keys| >= 2 ==> r.Ok? && fresh(r.value) && r.value.Valid()
      ensures |tileimgs.keys| >= 2 ==>
        var e := ExtentOf(tileimgs.keys);
        var first := tileimgs.m[tileimgs.keys[0]];
        && r.value.rows == e.Rows() && r.value.cols == e.Cols()
        && r.value.cellwidth == first.width && r.value.cellheight == first.height
        && r.value.cells == Dense(tileimgs, e)
    {
      if tileimgs.keys == [] {
        return Err(StitchException);
      }
      var box := ExtentAsWritten(tileimgs.keys);
      if box.Err? {
        return Err(box.error);
      }
      ExtentAsWrittenAgrees(tileimgs.keys);
      var e := box.value;
      var rows, cols := e.maxy - e.miny + 1, e.maxx - e.minx + 1;
      var animg := tileimgs.m[tileimgs.keys[0]];
      var inst := new TileArray(rows, cols, animg.width, animg.height);
      ghost var dense := Dense(tileimgs, e);
      NothingFilled(inst.cells, dense);
      ghost var done := 0;
      for j := e.miny to e.maxy + 1
        invariant inst.Valid() && inst.rows == rows && inst.cols == cols
        invariant done == j - e.miny && FilledBefore(inst.cells, dense, done, 0)
      {
        inst.FillRow(tileimgs, e, dense, j, done);
        done := done + 1;
      }
      FilledAll(inst.cells, dense);
      r := Ok(inst);
    }
  }

  /**
   * The merge of the grid over the bounding box of a non-empty tile dict.
   * `stitch` produces it from two or more tiles; for a single tile it is
   * the intended one-cell canvas, where the code as written raises.
   */
  function MergedTiles(tiles: Dict<Pos, Image>, mode: string): (out: Image)
    requires tiles.Valid() && |tiles.keys| > 0
    ensures var e := ExtentOf(tiles.keys); var first := tiles.m[tiles.keys[0]];
      out.mode == mode && out.width == first.width * e.Cols() && out.height == first.height * e.Rows()
  {
    var e := ExtentOf(tiles.keys);
    var first := tiles.m[tiles.keys[0]];
    Merged(Dense(tiles, e), e.Cols(), first.width, first.height, mode)
  }

  /**
   * `stitch(pos_urls, mode)`: fetch, assemble and merge.  It fails if a
   * response answers an unknown URL, if no tile was fetched, or if exactly
   * one tile was fetched; otherwise the canvas covers the bounding box of
   * the fetched positions.
   */
  method Stitch(posUrls: Dict<Pos, string>, outcomes: seq<Outcome>, mode: string) returns (r: Result<Image>)
    requires posUrls.Valid()
    ensures var tiles := Collect(UrlLookup(posUrls), outcomes);
      && (tiles.Err? ==> r == Err(KeyError))
      && (tiles.Ok? && tiles.value.keys == [] ==> r == Err(StitchException))
      && (tiles.Ok? && |tiles.value.keys| == 1 ==> r == Err(TypeError))
      && (tiles.Ok? && |tiles.value.keys| >= 2 ==> r == Ok(MergedTiles(tiles.value, mode)))
    ensures r == Stitched(posUrls, outcomes, mode)
  {
    var tiles := LoadTiles(posUrls, outcomes);
    if tiles.Err? {
      return Err(tiles.error);
    }
    var arr := TileArray.FromTiles(tiles.value);
    if arr.Err? {
      return Err(arr.error);
    }
    var canvas := arr.value.Merge(mode);
    r := Ok(canvas);
  }

  /** What `stitch` returns for the transport's outcomes. */
  function Stitched(posUrls: Dict<Pos, string>, outcomes: seq<Outcome>, mode: string): (r: Result<Image>)
    requires posUrls.Valid()
    ensures r.Ok? ==> r.value.mode == mode
  {
    match Collect(UrlLookup(posUrls), outcomes)
    case Err(e) => Err(e)
    case Ok(tiles) =>
      if tiles.keys == [] then Err(StitchException)
      else if |tiles.keys| == 1 then Err(TypeError)
      else Ok(MergedTiles(tiles, mode))
  }

  /**
   * Exactly one requested position that downloads: `stitch` raises
   * TypeError, where the intended result is that tile on a one-cell canvas.
   */
  lemma SingleTileStitch(p: Pos, url: string, tile: Image, tiles: Dict<Pos, Image>, net: Network, mode: string)
    requires net(url) == Some(Response(url, 200, tile))
    requires tiles.keys == [p] && tiles.m == map[p := tile]
    ensures var posUrls := Dict([p], map[p := url]);
      && Collect(UrlLookup(posUrls), Transport(posUrls, net)) == Ok(tiles)
      && Stitched(posUrls, Transport(posUrls, net), mode) == Err(TypeError)
      && MergedTiles(tiles, mode).width == tile.width && MergedTiles(tiles, mode).height == tile.height
  {
    SingleRequest(p, url, net);
    SingleCollect(p, url, tile, tiles);
    SingleTileExtent(p);
  }

  /** A one-entry URL dict sends exactly one request, for its URL. */
  lemma SingleRequest(p: Pos, url: string, net: Network)
    ensures var posUrls := Dict([p], map[p := url]);
      && UrlLookup(posUrls) == map[url := p]
      && Transport(posUrls, net) == [net(url)]
  {
    var posUrls := Dict([p], map[p := url]);
    assert posUrls.keys[..0] == [];
    assert Requests(posUrls.keys, posUrls.m) == [url];
  }

  /** A single 200 response for the one requested URL is kept under its position. */
  lemma SingleCollect(p: Pos, url: string, tile: Image, tiles: Dict<Pos, Image>)
    requires tiles.keys == [p] && tiles.m == map[p := tile]
    ensures Collect(map[url := p], [Some(Response(url, 200, tile))]) == Ok(tiles)
  {
    var outcomes := [Some(Response(url, 200, tile))];
    assert outcomes[..0] == [];
    assert EmptyDict<Pos, Image>().Put(p, tile) == tiles;
  }

  /** Nothing requested, nothing fetched: `stitch` of an empty dict raises StitchException. */
  lemma NothingRequestedStitch(posUrls: Dict<Pos, string>, net: Network, mode: string)
    requires posUrls.Valid() && posUrls.keys == []
    ensures Stitched(posUrls, Transport(posUrls, net), mode) == Err(StitchException)
  {
    assert Transport(posUrls, net) == [];
  }

  /**
   * When every response answers the URL it was asked for, the filter never
   * fails, and a requested URL's position is fetched exactly when its
   * request came back with status 200.
   */
  lemma HonestNetworkFetches(posUrls: Dict<Pos, string>, net: Network)
    requires posUrls.Valid()
    requires forall u :: net(u).Some? ==> net(u).value.url == u
    ensures var lookup := UrlLookup(posUrls);
      var tiles := Collect(lookup, Transport(posUrls, net));
      && tiles.Ok?
      && (forall u | u in lookup :: lookup[u] in tiles.value.m <==> Succeeded(net(u)))
  {
    var lookup := UrlLookup(posUrls);
    var outcomes := Transport(posUrls, net);
    forall k | 0 <= k < |outcomes| && outcomes[k].Some?
      ensures outcomes[k].value.url in lookup
    {
      HonestOutcome(posUrls, net, k);
    }
    var tiles := Collect(lookup, outcomes);
    assert tiles.Ok?;
    forall u | u in lookup
      ensures lookup[u] in tiles.value.m <==> Succeeded(net(u))
    {
      HonestUrlFetched(posUrls, net, u);
    }
  }

  /** The k-th outcome is the network's answer to the k-th request, which names a requested URL. */
  lemma HonestOutcome(posUrls: Dict<Pos, string>, net: Network, k: nat)
    requires posUrls.Valid()
    requires forall u :: net(u).Some? ==> net(u).value.url == u
    requires k < |Transport(posUrls, net)|
    ensures var reqs := Requests(posUrls.keys, posUrls.m);
      && k < |reqs| && Transport(posUrls, net)[k] == net(reqs[k]) && reqs[k] in UrlLookup(posUrls)
  {
  }

  lemma HonestUrlFetched(posUrls: Dict<Pos, string>, net: Network, u: string)
    requires posUrls.Valid()
    requires forall u :: net(u).Some? ==> net(u).value.url == u
    requires u in UrlLookup(posUrls)
    requires Collect(UrlLookup(posUrls), Transport(posUrls, net)).Ok?
    ensures UrlLookup(posUrls)[u] in Collect(UrlLookup(posUrls), Transport(posUrls, net)).value.m <==> Succeeded(net(u))
  {
    var lookup := UrlLookup(posUrls);
    var reqs := Requests(posUrls.keys, posUrls.m);
    var outcomes := Transport(posUrls, net);
    var tiles := Collect(lookup, outcomes).value;
    assert u in reqs;
    var k :| 0 <= k < |reqs| && reqs[k] == u;
    if Succeeded(net(u)) {
      assert outcomes[k] == net(u);
    }
    if lookup[u] in tiles.m {
      var k' :| 0 <= k' < |outcomes| && Succeeded(outcomes[k']) && lookup[outcomes[k'].value.url] == lookup[u];
      HonestOutcome(posUrls, net, k');
      assert posUrls.m[lookup[reqs[k']]] == reqs[k'];
    }
  }

  /** One pixel of a dense grid's merge: the tile at the pixel's position, or the background. */
  lemma DensePixelAt(tiles: Dict<Pos, Image>, e: Extent, w: nat, h: nat, mode: string, r: nat, c: nat)
    requires e.Valid() && w > 0 && h > 0
    requires forall p | p in tiles.m :: tiles.m[p].width == w && tiles.m[p].height == h
    requires Uniform(Dense(tiles, e), w, h)
    requires r < h * e.Rows() && c < w * e.Cols()
    requires Merged(Dense(tiles, e), e.Cols(), w, h, mode).pixels[r][c] == CellPixel(Dense(tiles, e), e.Cols(), w, h, r, c)
    ensures 0 <= r / h < e.Rows() && 0 <= c / w < e.Cols()
    ensures var p := (e.minx + c / w, e.miny + r / h);
      Merged(Dense(tiles, e), e.Cols(), w, h, mode).pixels[r][c]
        == if p in tiles.m then tiles.m[p].pixels[r % h][c % w] else Background
  {
    BandBelow(r, e.Rows(), h);
    BandBelow(c, e.Cols(), w);
    assert Dense(tiles, e)[r / h][c / w] == Lookup(tiles, (e.minx + c / w, e.miny + r / h));
  }

  /**
   * `out` shows the tiles of `tiles` laid out over box `e` in cells of
   * w x h: the tile at (x, y) at offset ((x - minx) * w, (y - miny) * h),
   * and the background wherever no tile is present.
   */
  ghost predicate ShowsTiles(out: Image, tiles: Dict<Pos, Image>, e: Extent, w: nat, h: nat)
    requires w > 0 && h > 0
    requires forall p | p in tiles.m :: tiles.m[p].width == w && tiles.m[p].height == h
  {
    forall r, c | 0 <= r < out.height && 0 <= c < out.width ::
      var p := (e.minx + c / w, e.miny + r / h);
      out.pixels[r][c] == if p in tiles.m then tiles.m[p].pixels[r % h][c % w] else Background
  }

  /** The merge of the dense grid over a box, pixel by pixel, for tiles of one common size. */
  lemma DensePixels(tiles: Dict<Pos, Image>, e: Extent, w: nat, h: nat, mode: string)
    requires e.Valid() && w > 0 && h > 0
    requires forall p | p in tiles.m :: tiles.m[p].width == w && tiles.m[p].height == h
    ensures ShowsTiles(Merged(Dense(tiles, e), e.Cols(), w, h, mode), tiles, e, w, h)
  {
    var cells := Dense(tiles, e);
    assert Uniform(cells, w, h) by {
      forall i, j | 0 <= i < |cells| && 0 <= j < |cells[i]| && cells[i][j].Some?
        ensures cells[i][j].value.width == w && cells[i][j].value.height == h
      {
        assert cells[i][j] == Lookup(tiles, (e.minx + j, e.miny + i));
      }
    }
    MergedPixels(cells, e.Cols(), w, h, mode);
    var out := Merged(cells, e.Cols(), w, h, mode);
    forall r, c | 0 <= r < out.height && 0 <= c < out.width
      ensures var p := (e.minx + c / w, e.miny + r / h);
        out.pixels[r][c] == if p in tiles.m then tiles.m[p].pixels[r % h][c % w] else Background
    {
      DensePixelAt(tiles, e, w, h, mode, r, c);
    }
  }

  /**
   * The stitched canvas pixel by pixel, for fetched tiles of one common
   * size w x h: each fetched tile shows at its offset in the bounding box
   * of the fetched positions, and positions that failed show the
   * background.
   */
  lemma StitchedPixels(tiles: Dict<Pos, Image>, mode: string, w: nat, h: nat)
    requires tiles.Valid() && |tiles.keys| > 0 && w > 0 && h > 0
    requires forall p | p in tiles.m :: tiles.m[p].width == w && tiles.m[p].height == h
    ensures ShowsTiles(MergedTiles(tiles, mode), tiles, ExtentOf(tiles.keys), w, h)
  {
    DensePixels(tiles, ExtentOf(tiles.keys), w, h, mode);
  }

  // ---------------------------------------------------------------------
  // Layout primitives
  // ---------------------------------------------------------------------

  /** The first two pastes of `overlay`: a copy of `bottom` on a new image of its mode and size. */
  function OverlayBase(bottom: Image): (base: Image)
    ensures base == bottom
  {
    PasteWholeAtOrigin(New(bottom.mode, bottom.width, bottom.height), bottom);
    Paste(New(bottom.mode, bottom.width, bottom.height), bottom, 0, 0)
  }

  /**
   * `overlay(bottom, top, pos)`: `top` alpha-composited at `pos` onto a
   * copy of `bottom`; the result has `bottom`'s mode and size whatever
   * `top` and `pos` are.
   */
  function Overlay(bottom: Image, top: Image, pos: Pos, pil: Pil): (r: Image)
    requires Sound(pil)
    ensures SameShape(r, bottom)
    ensures r == pil.composite(bottom, top, pos.0, pos.1)
  {
    var base := OverlayBase(bottom);
    var (x, y) := pos;
    var r := pil.composite(base, top, x, y);
    assert SameShape(r, base);
    r
  }

  /** Where `side_by_side` puts its two images on a new canvas. */
  datatype Layout = Layout(mode: string, width: nat, height: nat, x1: int, y1: int, x2: int, y2: int)

  predicate IsVAlign(valign: string) {
    valign == "top" || valign == "bottom" || valign == "center"
  }

  /** A number as Python 3 computes it: `int` arithmetic stays `int`, true division `/` gives a `float`. */
  datatype Number = IntValue(i: int) | FloatValue(f: real)

  /**
   * The `geth` helper: the shorter image's vertical offset for a height
   * difference. `hdiff / 2` is true division, so the centre offset is a
   * float even when `hdiff` is even.
   */
  function VerticalOffset(valign: string, hdiff: nat): (r: Number)
    ensures r.FloatValue? <==> valign == "center"
    ensures r.FloatValue? ==> 2.0 * r.f == hdiff as real
    ensures r.IntValue? ==> r.i == (if valign == "bottom" then hdiff else 0)
  {
    if valign == "bottom" then IntValue(hdiff)
    else if valign == "center" then FloatValue(hdiff as real / 2.0)
    else IntValue(0)
  }

  /** A coordinate of a paste box: Pillow accepts integers and raises TypeError for a float. */
  function PasteCoordinate(v: Number): (r: Result<int>)
    ensures r.Ok? <==> v.IntValue?
    ensures r.Err? ==> r.error == TypeError
  {
    match v
    case IntValue(i) => Ok(i)
    case FloatValue(_) => Err(TypeError)
  }

  /**
   * `side_by_side(im1, im2, mode, valign)` for images of sizes (w1, h1)
   * and (w2, h2): the two images abut horizontally and fill the canvas
   * width; each fits vertically; `top` aligns their top edges and
   * `bottom` their bottom edges; any other `valign` raises ValueError.
   * `center` passes the check, but its offset is a float, which the paste
   * of the shorter image rejects with TypeError.
   */
  function SideBySide(w1: nat, h1: nat, w2: nat, h2: nat, mode: string, valign: string): (r: Result<Layout>)
    ensures r.Ok? <==> valign == "top" || valign == "bottom"
    ensures r.Err? ==> r.error == (if IsVAlign(valign) then TypeError else ValueError)
    ensures r.Ok? ==> var l := r.value;
      && l.mode == mode
      && l.x1 == 0 && l.x2 == w1 && l.width == w1 + w2
      && l.height == (if h1 >= h2 then h1 else h2)
      && 0 <= l.y1 && l.y1 + h1 <= l.height
      && 0 <= l.y2 && l.y2 + h2 <= l.height
      && (l.y1 == 0 || l.y2 == 0)
      && (valign == "top" ==> l.y1 == 0 && l.y2 == 0)
      && (valign == "bottom" ==> l.y1 + h1 == l.height && l.y2 + h2 == l.height)
  {
    if !IsVAlign(valign) then Err(ValueError)
    else
      var newHeight := if h1 >= h2 then h1 else h2;
      var newWidth := w1 + w2;
      if h2 < h1 then
        var y2 :- PasteCoordinate(VerticalOffset(valign, newHeight - h2));
        Ok(Layout(mode, newWidth, newHeight, 0, 0, w1, y2))
      else
        var y1 :- PasteCoordinate(VerticalOffset(valign, newHeight - h1));
        Ok(Layout(mode, newWidth, newHeight, 0, y1, w1, 0))
  }

  /**
   * The image `side_by_side` returns for a layout: a new canvas of the
   * layout's mode and size with both images pasted at their offsets.
   */
  function Compose(im1: Image, im2: Image, l: Layout): (out: Image)
    ensures out.mode == l.mode && out.width == l.width && out.height == l.height
    ensures forall r, c | 0 <= r < out.height && 0 <= c < out.width ::
      out.pixels[r][c] ==
        if Covers(im2, l.x2, l.y2, r, c) then im2.pixels[r - l.y2][c - l.x2]
        else if Covers(im1, l.x1, l.y1, r, c) then im1.pixels[r - l.y1][c - l.x1]
        else Background
  {
    Paste(Paste(New(l.mode, l.width, l.height), im1, l.x1, l.y1), im2, l.x2, l.y2)
  }

  /** Every pixel of `im` shows on `out` with its top-left corner at (x, y). */
  predicate Shows(out: Image, im: Image, x: int, y: int) {
    forall r, c | 0 <= r < im.height && 0 <= c < im.width ::
      0 <= y + r < out.height && 0 <= x + c < out.width && out.pixels[y + r][x + c] == im.pixels[r][c]
  }

  /**
   * Composing at offsets where the two images sit side by side within the
   * canvas keeps both whole.
   */
  lemma ComposeShowsBoth(im1: Image, im2: Image, l: Layout)
    requires l.x1 == 0 && l.x2 == im1.width && l.width == im1.width + im2.width
    requires 0 <= l.y1 && l.y1 + im1.height <= l.height
    requires 0 <= l.y2 && l.y2 + im2.height <= l.height
    ensures Shows(Compose(im1, im2, l), im1, 0, l.y1) && Shows(Compose(im1, im2, l), im2, im1.width, l.y2)
  {
    var out := Compose(im1, im2, l);
    forall r, c | 0 <= r < im1.height && 0 <= c < im1.width
      ensures 0 <= l.y1 + r < out.height && 0 <= c < out.width && out.pixels[l.y1 + r][c] == im1.pixels[r][c]
    {
      assert !Covers(im2, l.x2, l.y2, l.y1 + r, c);
    }
    forall r, c | 0 <= r < im2.height && 0 <= c < im2.width
      ensures 0 <= l.y2 + r < out.height && 0 <= im1.width + c < out.width
        && out.pixels[l.y2 + r][im1.width + c] == im2.pixels[r][c]
    {
      assert Covers(im2, l.x2, l.y2, l.y2 + r, im1.width + c);
    }
  }

  /**
   * `side_by_side` keeps both images whole: on the layout computed for
   * their sizes, every pixel of the first image shows at (0, y1) and every
   * pixel of the second at (w1, y2).
   */
  lemma SideBySideShowsBoth(im1: Image, im2: Image, mode: string, valign: string)
    requires valign == "top" || valign == "bottom"
    ensures var l := SideBySide(im1.width, im1.height, im2.width, im2.height, mode, valign).value;
      Shows(Compose(im1, im2, l), im1, 0, l.y1) && Shows(Compose(im1, im2, l), im2, im1.width, l.y2)
  {
    var l := SideBySide(im1.width, im1.height, im2.width, im2.height, mode, valign).value;
    ComposeShowsBoth(im1, im2, l);
  }

  /** Pastes of distinct cells of a merge never overlap. */
  lemma CellRectanglesDisjoint(cw: nat, ch: nat, i1: nat, j1: nat, i2: nat, j2: nat, r: nat, c: nat)
    requires cw > 0 && ch > 0 && (i1, j1) != (i2, j2)
    requires j1 * cw <= c < j1 * cw + cw && i1 * ch <= r < i1 * ch + ch
    ensures !(j2 * cw <= c < j2 * cw + cw && i2 * ch <= r < i2 * ch + ch)
  {
    CellBand(c, j1, cw);
    CellBand(c, j2, cw);
    CellBand(r, i1, ch);
    CellBand(r, i2, ch);
  }
}
