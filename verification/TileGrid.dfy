/** The tiles of a bounding box, over the reals: which columns and rows are found, and how the result is filled. */
module TileGrid {
  import opened RowMajor
  import opened TileRequests

  /** From `min` up to but not including `max`. */
  datatype Range = Range(min: int, max: int) {
    predicate Has(i: int) {
      min <= i < max
    }

    predicate Inverted() {
      max < min
    }
  }

  datatype Found = Tiles(tiles: array<TileRequest>) | RangeError | TooManyTiles(count: nat)

  const MAX_LAT := 85.0511
  const MAX_LONG := 180.0
  const MAX_TILES := 10000
  const MAX_INT32 := 0x7FFF_FFFF
  const TWO_TO_64 := 0x1_0000_0000_0000_0000

  // ---------- Longitude and latitude ----------

  function WrapDown(lon: real): (r: real)
    ensures r <= MAX_LONG && (lon <= MAX_LONG ==> r == lon) && (lon > MAX_LONG ==> r > 0.0)
    decreases lon.Floor
  {
    if lon > MAX_LONG then WrapDown(lon - MAX_LONG) else lon
  }

  function WrapUp(lon: real): (r: real)
    ensures -MAX_LONG <= r && (lon >= -MAX_LONG ==> r == lon) && (lon <= MAX_LONG ==> r <= MAX_LONG)
    decreases -lon.Floor
  {
    if lon < -MAX_LONG then WrapUp(lon + MAX_LONG) else lon
  }

  function Wrap(lon: real): (r: real)
    ensures -MAX_LONG <= r <= MAX_LONG && (-MAX_LONG <= lon <= MAX_LONG ==> r == lon)
  {
    WrapUp(WrapDown(lon))
  }

  /** Half turns are taken off or added, one after the other until the world is reached. */
  lemma WrapTurns(lon: real) returns (k: int)
    ensures Wrap(lon) == lon + 180.0 * k as real
    ensures k < 0 <==> lon > 180.0
    ensures k > 0 <==> lon < -180.0
    ensures lon > 180.0 ==> 0.0 < Wrap(lon) <= 180.0
    ensures lon < -180.0 ==> -180.0 <= Wrap(lon) < 0.0
  {
    var down: int := TurnsDown(lon);
    var up: int := TurnsUp(WrapDown(lon));
    k := up - down;
  }

  lemma {:induction false} TurnsDown(lon: real) returns (k: nat)
    ensures WrapDown(lon) == lon - 180.0 * k as real && (k > 0 <==> lon > 180.0)
    decreases lon.Floor
  {
    if lon > MAX_LONG {
      k := TurnsDown(lon - MAX_LONG);
      k := k + 1;
    } else {
      k := 0;
    }
  }

  lemma {:induction false} TurnsUp(lon: real) returns (k: nat)
    ensures WrapUp(lon) == lon + 180.0 * k as real && (k > 0 <==> lon < -180.0)
    ensures lon < -180.0 ==> WrapUp(lon) < 0.0
    decreases -lon.Floor
  {
    if lon < -MAX_LONG {
      k := TurnsUp(lon + MAX_LONG);
      k := k + 1;
    } else {
      k := 0;
    }
  }

  method WrapLongitude(lon: real) returns (r: real)
    ensures r == Wrap(lon)
  {
    r := lon;
    while r > MAX_LONG
      invariant WrapDown(r) == WrapDown(lon)
      decreases r.Floor
    {
      r := r - MAX_LONG;
    }
    while r < -MAX_LONG
      invariant WrapUp(r) == Wrap(lon)
      decreases -r.Floor
    {
      r := r + MAX_LONG;
    }
  }

  function Min(a: real, b: real): real {
    if a < b then a else b
  }

  function Max(a: real, b: real): real {
    if a < b then b else a
  }

  function Ceil(r: real): int {
    -(-r).Floor
  }

  /** Latitudes on the map are left alone, and those beyond it are moved to its edge. */
  function ClampLatitude(lat: real): (r: real)
    ensures -85.0511 <= lat <= 85.0511 ==> r == lat
    ensures lat < -85.0511 ==> r == -85.0511
    ensures lat > 85.0511 ==> r == 85.0511
  {
    Min(MAX_LAT, Max(-MAX_LAT, lat))
  }

  // ---------- Columns and rows ----------

  /** A conversion to `int` after cutting to the grid. */
  function Cut(v: real, n: nat): int {
    Min(n as real, Max(0.0, v)).Floor
  }

  function Widened(min: int, max: int): Range {
    Range(min, if min == max then min + 1 else max)
  }

  function Column(lon: real, n: nat): real {
    n as real * ((lon + MAX_LONG) / 360.0)
  }

  function Columns(west: real, east: real, n: nat): Range {
    Widened(Cut(Column(west, n), n), Cut(Column(east, n), n))
  }

  /** `row` gives the place of a latitude in the grid, from 0 at the top to 1 at the bottom. */
  function Rows(south: real, north: real, n: nat, row: real -> real): Range {
    Widened(Cut((n as real * row(north)).Floor as real, n), Cut(Ceil(n as real * row(south)) as real, n))
  }

  /** The eastern edge of a column, as the bounds of its tiles have it. */
  function EastEdge(c: int, n: nat): real
    requires n > 0
  {
    (c + 1) as real / n as real * 360.0 - MAX_LONG
  }

  function WestEdge(c: int, n: nat): real
    requires n > 0
  {
    c as real / n as real * 360.0 - MAX_LONG
  }

  lemma ScaledOrder(u: real, v: real, m: real)
    requires m > 0.0
    ensures u < v <==> m * u < m * v
  {
    if u < v {
      assert m * (v - u) > 0.0;
    } else {
      assert m * (u - v) >= 0.0;
    }
  }

  /** Comparing a longitude with an edge is comparing its column with a number. */
  lemma EdgeIsNumber(lon: real, k: int, n: nat)
    requires n > 0
    ensures k as real / n as real * 360.0 - MAX_LONG <= lon <==> k as real <= Column(lon, n)
  {
    var u, v, m := (lon + MAX_LONG) / 360.0, k as real / n as real, n as real;
    assert m * v == k as real;
    ScaledOrder(u, v, m);
  }

  lemma FloorIs(v: real, k: int)
    ensures v.Floor == k <==> k as real <= v < (k + 1) as real
  {
  }

  lemma ColumnInGrid(lon: real, n: nat)
    requires n > 0 && -MAX_LONG <= lon <= MAX_LONG
    ensures 0.0 <= Column(lon, n) <= n as real && Cut(Column(lon, n), n) == Column(lon, n).Floor
  {
    EdgeIsNumber(lon, 0, n);
    var u := (lon + MAX_LONG) / 360.0;
    assert u <= 1.0;
    ScaledOrder(1.0, u, n as real);
  }

  /**
   The columns found are the one that holds the western edge of the box, and every column whose own eastern
   edge is in the box: a last column that is covered in part is not among them.
  */
  lemma ColumnsExact(west: real, east: real, n: nat, c: int)
    requires n > 0 && -MAX_LONG <= west <= east <= MAX_LONG
    ensures Columns(west, east, n).Has(c) <==>
            (WestEdge(c, n) <= west < EastEdge(c, n)) || (west < EastEdge(c, n) <= east)
  {
    ColumnInGrid(west, n);
    ColumnInGrid(east, n);
    var a, b := Column(west, n), Column(east, n);
    EdgeIsNumber(west, c, n);
    EdgeIsNumber(west, c + 1, n);
    EdgeIsNumber(east, c + 1, n);
    ColumnsGrow(west, east, n);
    FloorIs(a, c);
    assert c >= a.Floor <==> (c + 1) as real > a;
    assert c < b.Floor <==> (c + 1) as real <= b;
  }

  /** The inside of a column and the box have a point in common; a box without width counts as its western edge. */
  predicate Touches(west: real, east: real, n: nat, c: int)
    requires n > 0
  {
    WestEdge(c, n) <= west < EastEdge(c, n) || (west < EastEdge(c, n) && WestEdge(c, n) < east)
  }

  predicate Whole(v: real) {
    v.Floor as real == v
  }

  /**
   Every column the box touches is found exactly when the box ends at the edge of a column, or begins and
   ends in the same one.
  */
  lemma AllTouchedFound(west: real, east: real, n: nat)
    requires n > 0 && -MAX_LONG <= west <= east <= MAX_LONG
    ensures (forall c :: Touches(west, east, n, c) ==> Columns(west, east, n).Has(c))
            <==> Whole(Column(east, n)) || Column(west, n).Floor == Column(east, n).Floor
  {
    var a, b := Column(west, n), Column(east, n);
    ColumnInGrid(west, n);
    ColumnInGrid(east, n);
    ColumnsGrow(west, east, n);
    forall c ensures Touches(west, east, n, c) <==> c == a.Floor || a.Floor <= c < Ceil(b) {
      TouchesIs(west, east, n, c);
    }
    assert Columns(west, east, n) == Widened(a.Floor, b.Floor);
    if !Whole(b) && a.Floor < b.Floor {
      assert Touches(west, east, n, b.Floor) && !Columns(west, east, n).Has(b.Floor);
    }
  }

  lemma TouchesIs(west: real, east: real, n: nat, c: int)
    requires n > 0 && -MAX_LONG <= west <= east <= MAX_LONG
    ensures Touches(west, east, n, c)
            <==> c == Column(west, n).Floor || Column(west, n).Floor <= c < Ceil(Column(east, n))
  {
    EdgeIsNumber(west, c, n);
    EdgeIsNumber(west, c + 1, n);
    EdgeIsNumber(east, c, n);
    EdgeReached(east, c, n);
    FloorIs(Column(west, n), c);
    assert c >= Column(west, n).Floor <==> (c + 1) as real > Column(west, n);
    assert c < Ceil(Column(east, n)) <==> c as real < Column(east, n);
  }

  lemma EdgeReached(lon: real, k: int, n: nat)
    requires n > 0
    ensures k as real / n as real * 360.0 - MAX_LONG < lon <==> (k as real) < Column(lon, n)
  {
    var u, v, m := (lon + MAX_LONG) / 360.0, k as real / n as real, n as real;
    assert m * v == k as real;
    ScaledOrder(v, u, m);
  }

  /** A column that is missed: the box from longitude -180 to 90 reaches into the second of two columns. */
  lemma TouchedButNotFound()
    ensures Touches(-180.0, 90.0, 2, 1) && !Columns(-180.0, 90.0, 2).Has(1)
  {
    assert Column(90.0, 2) == 1.5 && Column(-180.0, 2) == 0.0;
  }

  lemma ColumnsGrow(west: real, east: real, n: nat)
    requires n > 0 && west <= east
    ensures Column(west, n) <= Column(east, n)
  {
    ScaledOrder((east + MAX_LONG) / 360.0, (west + MAX_LONG) / 360.0, n as real);
  }

  /** All of them exist, unless the box begins at the antimeridian. */
  lemma ColumnsExist(west: real, east: real, n: nat)
    requires n > 0 && -MAX_LONG <= west <= east <= MAX_LONG
    ensures 0 <= Columns(west, east, n).min < Columns(west, east, n).max
    ensures Columns(west, east, n).max <= n <==> west < MAX_LONG
  {
    ColumnInGrid(west, n);
    ColumnInGrid(east, n);
    ColumnsGrow(west, east, n);
    EdgeIsNumber(west, n, n);
    assert n as real / n as real == 1.0;
  }

  lemma CutWhole(k: int, n: nat)
    requires 0 <= k <= n
    ensures Cut(k as real, n) == k
  {
  }

  lemma CutBound(v: real, n: nat)
    ensures 0 <= Cut(v, n) <= n
  {
  }

  /** The rows found are those that the box touches; at least the one that holds its northern edge. */
  lemma RowsExact(south: real, north: real, n: nat, row: real -> real, y: int, top: real, bottom: real)
    requires top == n as real * row(north) && bottom == n as real * row(south)
    requires n > 0 && 0.0 <= top <= bottom <= n as real
    ensures Rows(south, north, n, row).Has(y)
            <==> (y as real <= top < (y + 1) as real) || (y as real < bottom && top < (y + 1) as real)
  {
    RowsBetween(top, bottom, n, y);
  }

  lemma RowsBetween(top: real, bottom: real, n: nat, y: int)
    requires 0.0 <= top <= bottom <= n as real
    ensures Widened(Cut(top.Floor as real, n), Cut(Ceil(bottom) as real, n)).Has(y)
            <==> (y as real <= top < (y + 1) as real) || (y as real < bottom && top < (y + 1) as real)
  {
    FloorIs(top, y);
    assert top.Floor as real <= n as real;
    assert Ceil(bottom) as real < n as real + 1.0;
    CutWhole(top.Floor, n);
    CutWhole(Ceil(bottom), n);
    hide Cut;
    assert y < Ceil(bottom) <==> y as real < bottom;
    assert y >= top.Floor <==> (y + 1) as real > top;
  }

  /** The bounds of a tile, made smaller by `d` on both sides, lead back to its column. */
  lemma TileFindsItself(c: int, n: nat, d: real)
    requires 0 <= c < n && 0.0 <= d && 2.0 * d <= 360.0 / n as real
    ensures Columns(WestEdge(c, n) + d, EastEdge(c, n) - d, n) == Range(c, c + 1)
  {
    var west, east := WestEdge(c, n) + d, EastEdge(c, n) - d;
    TileWidth(c, n);
    EdgesInWorld(c, n);
    ColumnInGrid(west, n);
    ColumnInGrid(east, n);
    EdgeIsNumber(west, c, n);
    EdgeIsNumber(west, c + 1, n);
    EdgeIsNumber(east, c, n);
    EdgeIsNumber(east, c + 1, n);
    OneBehind(c, n);
    EdgeIsNumber(east, c + 2, n);
    FloorIs(Column(west, n), c);
    FloorIs(Column(east, n), c);
    FloorIs(Column(east, n), c + 1);
  }

  lemma TileWidth(c: int, n: nat)
    requires n > 0
    ensures EastEdge(c, n) - WestEdge(c, n) == 360.0 / n as real > 0.0
  {
    var m := n as real;
    assert (c + 1) as real / m - c as real / m == 1.0 / m;
  }

  lemma OneBehind(c: int, n: nat)
    requires n > 0
    ensures (c + 2) as real / n as real * 360.0 - MAX_LONG > EastEdge(c, n)
  {
    TileWidth(c + 1, n);
  }

  lemma EdgesInWorld(c: int, n: nat)
    requires 0 <= c < n
    ensures -MAX_LONG <= WestEdge(c, n) && EastEdge(c, n) <= MAX_LONG
    ensures WestEdge(0, n) == -180.0 && EastEdge(n - 1, n) == 180.0 && WestEdge(c + 1, n) == EastEdge(c, n)
  {
    var m := n as real;
    assert c as real / m >= 0.0;
    assert m * ((c + 1) as real / m) == (c + 1) as real;
    ScaledOrder(1.0, (c + 1) as real / m, m);
  }

  lemma {:induction false} Exp2Grows(a: nat, b: nat)
    requires a <= b
    ensures Exp2(a) <= Exp2(b)
  {
    if a < b {
      Exp2Grows(a, b - 1);
    }
  }

  lemma LargestGrid(z: nat)
    requires z <= MAX_ZOOM
    ensures Exp2(z) <= 0x20_0000
  {
    Exp2Grows(z, MAX_ZOOM);
    assert Exp2(7) == 128;
    assert Exp2(14) == 16384;
    assert Exp2(21) == 0x20_0000;
  }

  lemma DeltaFits(n: nat)
    requires 0 < n <= 0x20_0000
    ensures 2.0 * DELTA <= 360.0 / n as real
  {
    ScaledOrder(360.0 / n as real, 2.0 * DELTA, n as real);
    assert n as real * (360.0 / n as real) == 360.0;
  }

  /** At every zoom level the tolerance that is used throughout is small enough for that. */
  lemma {:induction false} TileFindsItselfWithinDelta(z: nat, x: int)
    requires z <= 21 && 0 <= x < Exp2(z)
    ensures Columns(WestEdge(x, Exp2(z)) + 0.00000001, EastEdge(x, Exp2(z)) - 0.00000001, Exp2(z)) == Range(x, x + 1)
  {
    LargestGrid(z);
    DeltaFits(Exp2(z));
    TileFindsItself(x, Exp2(z), DELTA);
  }

  // ---------- The grid ----------

  function Width(r: Range): int {
    r.max - r.min
  }

  /** The tiles of the ranges, one row after the other. */
  function Grid(layerName: string, zoom: int, cols: Range, rows: Range): seq<TileRequest>
    requires Width(cols) > 0 && Width(rows) > 0
  {
    var w := Width(cols);
    seq(Size(w, Width(rows)), (k: nat) => TileRequest(layerName, zoom, cols.min + k % w, rows.min + k / w))
  }

  function Size(w: int, h: int): (s: nat)
    requires w > 0 && h > 0
    ensures s == w * h
  {
    assert w * h > 0;
    w * h
  }

  /** Every tile of the ranges has its place in the grid, and no other. */
  lemma EachTileOnce(layerName: string, zoom: int, cols: Range, rows: Range, x: int, y: int, k: int)
    requires cols.Has(x) && rows.Has(y)
    ensures var g := Grid(layerName, zoom, cols, rows);
            0 <= k < |g| ==>
              (g[k] == TileRequest(layerName, zoom, x, y) <==> k == (y - rows.min) * Width(cols) + (x - cols.min))
    ensures 0 <= (y - rows.min) * Width(cols) + (x - cols.min) < |Grid(layerName, zoom, cols, rows)|
  {
    var w, h := Width(cols), Width(rows);
    SlotParts(y - rows.min, x - cols.min, w);
    SlotInGrid(y - rows.min, x - cols.min, w, h);
    if 0 <= k < w * h {
      RowInGrid(k, w, h);
    }
  }

  /** And nothing else is in it. */
  lemma OnlyTilesInRange(layerName: string, zoom: int, cols: Range, rows: Range, k: int)
    requires Width(cols) > 0 && Width(rows) > 0 && 0 <= k < |Grid(layerName, zoom, cols, rows)|
    ensures var t := Grid(layerName, zoom, cols, rows)[k];
            t.layerName == layerName && t.z == zoom && cols.Has(t.x) && rows.Has(t.y)
  {
    RowInGrid(k, Width(cols), Width(rows));
  }

  // ---------- The search ----------

  /** The number of tiles in 64-bit arithmetic without sign. */
  function NumTiles(cols: Range, rows: Range): nat {
    ((Width(cols) % TWO_TO_64) * (Width(rows) % TWO_TO_64)) % TWO_TO_64
  }

  predicate Small(r: Range) {
    -0x100_0000 < Width(r) < 0x100_0000 && Width(r) != 0
  }

  /** The arithmetic is exact for ranges that are both in order or both inverted, and beyond all limits otherwise. */
  lemma NumTilesIs(cols: Range, rows: Range)
    requires Small(cols) && Small(rows)
    ensures cols.Inverted() == rows.Inverted() ==> NumTiles(cols, rows) == Width(cols) * Width(rows) > 0
    ensures cols.Inverted() != rows.Inverted() ==> NumTiles(cols, rows) > MAX_INT32
  {
    var w, h := Width(cols), Width(rows);
    ProductModulo(w, h);
    Magnitude(w, h);
    Wraps(w * h);
  }

  lemma Wraps(p: int)
    requires -0x1_0000_0000_0000 < p < 0x1_0000_0000_0000
    ensures p % TWO_TO_64 == if p < 0 then p + TWO_TO_64 else p
  {
  }

  lemma Magnitude(w: int, h: int)
    requires -0x100_0000 < w < 0x100_0000 && -0x100_0000 < h < 0x100_0000 && w != 0 && h != 0
    ensures (w < 0) == (h < 0) ==> 0 < w * h < 0x1_0000_0000_0000
    ensures (w < 0) != (h < 0) ==> -0x1_0000_0000_0000 < w * h < 0
  {
    var a, b := if w < 0 then -w else w, if h < 0 then -h else h;
    Multiples(a, b);
    NotNegative(0x100_0000 - a, b);
    assert (0x100_0000 - a) * b == 0x100_0000 * b - a * b;
    assert w * h == if (w < 0) == (h < 0) then a * b else -(a * b);
  }

  lemma ProductModulo(w: int, h: int)
    ensures (w % TWO_TO_64) * (h % TWO_TO_64) % TWO_TO_64 == w * h % TWO_TO_64
  {
    var p, q := w / TWO_TO_64, h / TWO_TO_64;
    var u, v := w % TWO_TO_64, h % TWO_TO_64;
    assert w * h == u * v + TWO_TO_64 * (p * v + q * u + TWO_TO_64 * (p * q)) by {
      assert w == TWO_TO_64 * p + u && h == TWO_TO_64 * q + v;
    }
    AddMultiple(u * v, p * v + q * u + TWO_TO_64 * (p * q));
  }

  lemma {:induction false} AddMultiple(a: int, k: int)
    ensures (a + TWO_TO_64 * k) % TWO_TO_64 == a % TWO_TO_64
  {
    var q, r := a / TWO_TO_64, a % TWO_TO_64;
    assert a + TWO_TO_64 * k == TWO_TO_64 * (q + k) + r;
  }

  lemma {:induction false} RangesAreSmall(west: real, east: real, south: real, north: real, z: nat, row: real -> real)
    requires z <= MAX_ZOOM
    ensures Small(Columns(west, east, Exp2(z))) && Small(Rows(south, north, Exp2(z), row))
  {
    LargestGrid(z);
    var n := Exp2(z);
    CutBound(Column(west, n), n);
    CutBound(Column(east, n), n);
    CutBound((n as real * row(north)).Floor as real, n);
    CutBound(Ceil(n as real * row(south)) as real, n);
    hide Cut, Exp2;
  }

  /**
   Both ranges inverted: at zoom 2 the box whose western edge is 90, eastern edge -90, southern edge 80 and
   northern edge -80 asks for four tiles, for every `row` that puts latitude 80 into the first row and -80
   into the last.  `FindTiles` then returns four blank requests.
  */
  lemma InvertedBoxCountsFour(row: real -> real)
    requires 0.0 < row(80.0) <= 0.25 && 0.75 <= row(-80.0) < 1.0
    ensures var cols := Columns(Wrap(90.0), Wrap(-90.0), Exp2(2));
            var rows := Rows(ClampLatitude(80.0), ClampLatitude(-80.0), Exp2(2), row);
            cols.Inverted() && rows.Inverted() && NumTiles(cols, rows) == 4
  {
    assert Exp2(2) == 4;
    var top, bottom := 4.0 * row(-80.0), 4.0 * row(80.0);
    assert Column(90.0, 4) == 3.0 && Column(-90.0, 4) == 1.0;
    assert top.Floor == 3 && Ceil(bottom) == 1;
    CutWhole(3, 4);
    CutWhole(1, 4);
    var cols, rows := Columns(90.0, -90.0, 4), Rows(80.0, -80.0, 4, row);
    assert cols == Range(3, 1) && rows == Range(3, 1);
    NumTilesIs(cols, rows);
  }

  /** Slot `k` is filled before row `r` of column `c`. */
  predicate Before(k: int, w: int, c: int, r: int)
    requires w > 0
  {
    k % w < c || (k % w == c && k / w < r)
  }

  ghost predicate Filled(s: seq<TileRequest>, g: seq<TileRequest>, w: int, c: int, r: int)
    requires w > 0
  {
    |s| == |g| && forall k :: 0 <= k < |g| && Before(k, w, c, r) ==> s[k] == g[k]
  }

  lemma FillOne(s: seq<TileRequest>, g: seq<TileRequest>, w: int, h: int, c: int, r: int, slot: int)
    requires 0 <= c < w && 0 <= r < h && |g| == w * h && Filled(s, g, w, c, r)
    requires slot == r * w + c && 0 <= slot < |g|
    ensures Filled(s[slot := g[slot]], g, w, c, r + 1)
  {
    forall k | 0 <= k < |g| && Before(k, w, c, r + 1) ensures s[slot := g[slot]][k] == g[k] {
      RowInGrid(k, w, h);
      assert k == slot || Before(k, w, c, r);
    }
  }

  lemma FillColumn(s: seq<TileRequest>, g: seq<TileRequest>, w: int, h: int, c: int)
    requires 0 <= c < w && h > 0 && |g| == w * h && Filled(s, g, w, c, h)
    ensures Filled(s, g, w, c + 1, 0)
  {
    forall k | 0 <= k < |g| && Before(k, w, c + 1, 0) ensures s[k] == g[k] {
      RowInGrid(k, w, h);
      assert Before(k, w, c, h);
    }
  }

  lemma FillAll(s: seq<TileRequest>, g: seq<TileRequest>, w: int, h: int)
    requires w > 0 && h > 0 && |g| == w * h && Filled(s, g, w, w, 0)
    ensures s == g
  {
    forall k | 0 <= k < |g| ensures s[k] == g[k] {
      RowInGrid(k, w, h);
      assert Before(k, w, w, 0);
    }
  }

  lemma FillNone(s: seq<TileRequest>, g: seq<TileRequest>, w: int)
    requires w > 0 && |s| == |g|
    ensures Filled(s, g, w, 0, 0)
  {
  }

  /** Fills the slots column by column. */
  method Fill(layerName: string, zoom: int, cols: Range, rows: Range, result: array<TileRequest>)
    requires Width(cols) > 0 && Width(rows) > 0 && result.Length == Size(Width(cols), Width(rows))
    modifies result
    ensures result[..] == Grid(layerName, zoom, cols, rows)
  {
    ghost var g := Grid(layerName, zoom, cols, rows);
    ghost var w, h := Width(cols), Width(rows);
    FillNone(result[..], g, w);
    var x := cols.min;
    while x < cols.max
      invariant cols.min <= x <= cols.max
      invariant Filled(result[..], g, w, x - cols.min, 0)
    {
      var y := rows.min;
      while y < rows.max
        invariant rows.min <= y <= rows.max
        invariant Filled(result[..], g, w, x - cols.min, y - rows.min)
      {
        ghost var before, c, r := result[..], x - cols.min, y - rows.min;
        SlotInGrid(r, c, w, h);
        var slot := (y - rows.min) * (cols.max - cols.min) + (x - cols.min);
        EachTileOnce(layerName, zoom, cols, rows, x, y, slot);
        FillOne(before, g, w, h, c, r, slot);
        result[slot] := TileRequest(layerName, zoom, x, y);
        assert result[..] == before[slot := g[slot]];
        y := y + 1;
      }
      FillColumn(result[..], g, w, h, x - cols.min);
      x := x + 1;
    }
    FillAll(result[..], g, w, h);
  }

  method FindTiles(b: Bounds, layerName: string, zoom: nat, force: bool, row: real -> real) returns (r: Found)
    ensures r.RangeError? <==> zoom > 21
    ensures zoom <= 21 ==>
              var n := Exp2(zoom);
              var cols := Columns(Wrap(b.west), Wrap(b.east), n);
              var rows := Rows(ClampLatitude(b.south), ClampLatitude(b.north), n, row);
              && (r.TooManyTiles? <==>
                  cols.Inverted() != rows.Inverted()
                  || Width(cols) * Width(rows) > if force then 0x7FFF_FFFF else 10000)
              && (r.TooManyTiles? ==> r.count == NumTiles(cols, rows))
              && (r.Tiles? ==> fresh(r.tiles))
              && (r.Tiles? && !cols.Inverted() ==> !rows.Inverted() && r.tiles[..] == Grid(layerName, zoom, cols, rows))
              && (r.Tiles? && cols.Inverted() ==> forall t <- r.tiles[..] :: t == TileRequest("", 0, 0, 0))
  {
    if zoom > MAX_ZOOM {
      return RangeError;
    }
    var lonMin := WrapLongitude(b.west);
    var lonMax := WrapLongitude(b.east);
    var n := Exp2(zoom);
    var cols := Columns(lonMin, lonMax, n);
    var rows := Rows(ClampLatitude(b.south), ClampLatitude(b.north), n, row);
    RangesAreSmall(lonMin, lonMax, ClampLatitude(b.south), ClampLatitude(b.north), zoom, row);
    NumTilesIs(cols, rows);
    var numTiles := NumTiles(cols, rows);
    if numTiles > MAX_TILES && !force {
      return TooManyTiles(numTiles);
    }
    if numTiles > MAX_INT32 {
      return TooManyTiles(numTiles);
    }
    var result := new TileRequest[numTiles](_ => TileRequest("", 0, 0, 0));
    if cols.min < cols.max {
      Fill(layerName, zoom, cols, rows, result);
    }
    return Tiles(result);
  }
}
