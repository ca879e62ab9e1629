/** Which cache tiles a route between two cells needs, and the level of detail chosen for it. */
module WorldRoute {
  import opened Prelude
  import opened WorldGrid
  import opened WorldPyramid

  const MAX_WORLD_ROUTE_TILES: nat := 16
  const DEFAULT_WORLD_TILE_CELLS: usize := 8

  datatype Rect = Rect(x: real, y: real, width: real, height: real)

  function RMin(a: real, b: real): real { if a <= b then a else b }
  function RMax(a: real, b: real): real { if a <= b then b else a }

  // ---- ranges of cells ----

  function ClampFloor(value: real, upper: nat): nat {
    if value <= 0.0 then 0 else if value >= upper as real then upper else value.Floor
  }

  function Ceil(value: real): int { -((-value).Floor) }

  function ClampCeil(value: real, upper: nat): nat {
    if value <= 0.0 then 0 else if value >= upper as real then upper else Ceil(value)
  }

  datatype CellRange = CellRange(start_column: nat, end_column: nat, start_row: nat, end_row: nat)

  function VisibleRange(l: WorldLayout, rect: Rect, margin_cells: real): CellRange {
    if l.entry_count == 0 || l.rows == 0 then CellRange(0, 0, 0, 0)
    else
      var margin := RMax(margin_cells, 0.0);
      CellRange(ClampFloor(RMin(rect.x, rect.x + rect.width) - margin, l.columns),
                ClampCeil(RMax(rect.x, rect.x + rect.width) + margin, l.columns),
                ClampFloor(RMin(rect.y, rect.y + rect.height) - margin, l.rows),
                ClampCeil(RMax(rect.y, rect.y + rect.height) + margin, l.rows))
  }

  predicate InRange(r: CellRange, c: WorldCell) {
    r.start_column <= c.column < r.end_column && r.start_row <= c.row < r.end_row
  }

  /** The indices of the wallpapers a range shows. */
  ghost function ShownIn(l: WorldLayout, r: CellRange, rows: nat): set<nat>
    requires l.columns > 0
  {
    set i: nat | i < l.entry_count && r.start_column <= Mod(i, l.columns) < r.end_column && r.start_row <= Div(i, l.columns) < rows
  }

  ghost predicate Between(i: nat, a: nat, b: nat) { a <= i < b }
  ghost function Interval(a: nat, b: nat): set<nat> { set i: nat | i < b && Between(i, a, b) }

  lemma {:induction false} IntervalSize(a: nat, b: nat)
    requires a <= b
    ensures |Interval(a, b)| == b - a
  {
    if a < b {
      IntervalSize(a, b - 1);
      assert Interval(a, b) == Interval(a, b - 1) + {b - 1};
    } else {
      assert Interval(a, b) == {};
    }
  }

  lemma InRowRun(l: WorldLayout, r: CellRange, row: nat, i: nat)
    requires l.columns > 0 && r.end_column <= l.columns
    ensures Div(i, l.columns) == row && r.start_column <= Mod(i, l.columns) < r.end_column
      <==> row * l.columns + r.start_column <= i < row * l.columns + r.end_column
  {
    hide Div, Mod;
    if row * l.columns + r.start_column <= i < row * l.columns + r.end_column {
      DivUnique(i, l.columns, row);
    }
  }

  /** Row `row` of the range adds one run of consecutive indices. */
  lemma ShownRow(l: WorldLayout, r: CellRange, row: nat)
    requires l.columns > 0 && r.start_column < r.end_column <= l.columns && r.start_row <= row
    requires row * l.columns + r.start_column <= l.entry_count
    ensures var run := Interval(row * l.columns + r.start_column, Min(row * l.columns + r.end_column, l.entry_count));
      ShownIn(l, r, row + 1) == ShownIn(l, r, row) + run && ShownIn(l, r, row) !! run
  {
    hide ShownIn, Interval;
    forall i: nat ensures (i in ShownIn(l, r, row + 1) <==> i in ShownIn(l, r, row) || i in RowRun(l, r, row)) && !(i in ShownIn(l, r, row) && i in RowRun(l, r, row)) {
      ShownAt(l, r, row, i);
    }
  }

  /** The positions of one row that are in the range and in the library. */
  ghost function RowRun(l: WorldLayout, r: CellRange, row: nat): set<nat> {
    Interval(row * l.columns + r.start_column, Min(row * l.columns + r.end_column, l.entry_count))
  }

  lemma ShownAt(l: WorldLayout, r: CellRange, row: nat, i: nat)
    requires l.columns > 0 && r.end_column <= l.columns && r.start_row <= row
    ensures i in ShownIn(l, r, row + 1) <==> i in ShownIn(l, r, row) || i in RowRun(l, r, row)
    ensures !(i in ShownIn(l, r, row) && i in RowRun(l, r, row))
  {
    hide Div, Mod;
    InRowRun(l, r, row, i);
  }

  /** The count is the number of library wallpapers whose cell is in the range, ragged last row included. */
  method VisibleCellCount(l: WorldLayout, r: CellRange) returns (count: nat)
    requires l.Valid() && r.end_column <= l.columns
    ensures count == |ShownIn(l, r, r.end_row)|
  {
    hide ShownIn, Div, Mod;
    if r.start_column >= r.end_column || r.start_row >= r.end_row {
      ShownNone(l, r, r.end_row);
      return 0;
    }
    count := 0;
    ShownNone(l, r, r.start_row);
    var row := r.start_row;
    while row < r.end_row
      invariant r.start_row <= row <= r.end_row
      invariant count == |ShownIn(l, r, row)|
    {
      var row_start := SatAdd(SatMul(row, l.columns), r.start_column);
      if row_start >= l.entry_count {
        ShownPastEnd(l, r, row, r.end_row);
        return;
      }
      var row_end := Min(SatAdd(SatMul(row, l.columns), r.end_column), l.entry_count);
      ShownRow(l, r, row);
      IntervalSize(row_start, row_end);
      count := count + (row_end - row_start);
      row := row + 1;
    }
  }

  lemma ShownNone(l: WorldLayout, r: CellRange, rows: nat)
    requires l.columns > 0 && (r.start_column >= r.end_column || r.start_row >= rows)
    ensures ShownIn(l, r, rows) == {}
  {}

  lemma ShownPastEnd(l: WorldLayout, r: CellRange, row: nat, rows: nat)
    requires l.columns > 0 && row <= rows && row * l.columns + r.start_column >= l.entry_count
    ensures ShownIn(l, r, rows) == ShownIn(l, r, row)
  {
    hide Div, Mod;
    forall i: nat | i in ShownIn(l, r, rows) ensures Div(i, l.columns) < row {
      if Div(i, l.columns) >= row {
        MulMono(row, Div(i, l.columns), l.columns);
      }
    }
  }

  // ---- tiles of a range ----

  datatype WorldTile = WorldTile(column: nat, row: nat)

  function RowTiles(row: nat, start_column: nat, end_column: nat): (ts: seq<WorldTile>)
    ensures |ts| == Monus(end_column, start_column)
  {
    seq(Monus(end_column, start_column), i requires 0 <= i => WorldTile(start_column + i, row))
  }

  function BlockTiles(start_row: nat, end_row: nat, start_column: nat, end_column: nat): (ts: seq<WorldTile>)
    ensures |ts| == Monus(end_row, start_row) * Monus(end_column, start_column)
  {
    if end_row <= start_row then []
    else BlockTiles(start_row, end_row - 1, start_column, end_column) + RowTiles(end_row - 1, start_column, end_column)
  }

  lemma {:induction false} BlockTilesAre(start_row: nat, end_row: nat, start_column: nat, end_column: nat, t: WorldTile)
    ensures t in BlockTiles(start_row, end_row, start_column, end_column) <==>
      start_row <= t.row < end_row && start_column <= t.column < end_column
  {
    if start_row < end_row {
      BlockTilesAre(start_row, end_row - 1, start_column, end_column, t);
      if t.row == end_row - 1 && start_column <= t.column < end_column {
        assert RowTiles(end_row - 1, start_column, end_column)[t.column - start_column] == t;
      }
    }
  }

  function RangeTiles(r: CellRange, tile_cells: nat): seq<WorldTile> {
    var cells := Max(tile_cells, 1);
    if r.start_column >= r.end_column || r.start_row >= r.end_row then []
    else BlockTiles(Div(r.start_row, cells), DivCeil(r.end_row, cells), Div(r.start_column, cells), DivCeil(r.end_column, cells))
  }

  method WorldTilesForRange(r: CellRange, tile_cells: nat) returns (tiles: seq<WorldTile>)
    ensures tiles == RangeTiles(r, tile_cells)
  {
    hide Div, DivCeil;
    var cells := Max(tile_cells, 1);
    if r.start_column >= r.end_column || r.start_row >= r.end_row {
      return [];
    }
    var start_column, end_column := Div(r.start_column, cells), DivCeil(r.end_column, cells);
    var start_row, end_row := Div(r.start_row, cells), DivCeil(r.end_row, cells);
    tiles := [];
    var row := start_row;
    while row < end_row
      invariant start_row <= row
      invariant tiles == BlockTiles(start_row, Min(row, end_row), start_column, end_column)
    {
      var column := start_column;
      assert RowTiles(row, start_column, start_column) == [];
      while column < end_column
        invariant start_column <= column <= Max(start_column, end_column)
        invariant tiles == BlockTiles(start_row, row, start_column, end_column) + RowTiles(row, start_column, column)
      {
        assert RowTiles(row, start_column, column + 1) == RowTiles(row, start_column, column) + [WorldTile(column, row)];
        tiles := tiles + [WorldTile(column, row)];
        column := column + 1;
      }
      assert RowTiles(row, start_column, column) == RowTiles(row, start_column, end_column);
      row := row + 1;
    }
    CeilCovers(r.end_row, cells, start_row);
  }

  // ---- tiles of a route ----

  function RouteRect(start: WorldCell, target: WorldCell): Rect {
    var min_column, max_column := Min(start.column, target.column) as real, SatAdd(Max(start.column, target.column), 1) as real;
    var min_row, max_row := Min(start.row, target.row) as real, SatAdd(Max(start.row, target.row), 1) as real;
    Rect(min_column, min_row, max_column - min_column, max_row - min_row)
  }

  function RouteTiles(l: WorldLayout, start_index: nat, target_index: nat, tile_cells: nat, margin_cells: real): seq<WorldTile>
    requires l.columns > 0
  {
    match (l.Cell(start_index), l.Cell(target_index))
    case (Some(start), Some(target)) => RangeTiles(VisibleRange(l, RouteRect(start, target), margin_cells), tile_cells)
    case _ => []
  }

  /** The box of a route with a margin of one cell, in whole cells. */
  function RouteBox(l: WorldLayout, a: WorldCell, b: WorldCell): CellRange {
    CellRange(Monus(Min(a.column, b.column), 1), Min(Max(a.column, b.column) + 2, l.columns),
              Monus(Min(a.row, b.row), 1), Min(Max(a.row, b.row) + 2, l.rows))
  }

  lemma RouteRangeIs(l: WorldLayout, a: WorldCell, b: WorldCell)
    requires a.column < l.columns && b.column < l.columns && a.row < l.rows && b.row < l.rows && l.entry_count > 0
    ensures VisibleRange(l, RouteRect(a, b), 1.0) == RouteBox(l, a, b)
  {}

  /** A route needs exactly the tiles that its box, widened by one cell and cut at the edge of the
      world, meets; there is at least one. */
  lemma RouteTilesAre(l: WorldLayout, a: nat, b: nat, tile_cells: nat)
    requires l.Valid() && a < l.entry_count && b < l.entry_count && tile_cells > 0
    ensures var box := RouteBox(l, l.Cell(a).value, l.Cell(b).value);
      && RouteTiles(l, a, b, tile_cells, 1.0) == RangeTiles(box, tile_cells)
      && box.start_column < box.end_column <= l.columns && box.start_row < box.end_row <= l.rows
      && InRange(box, l.Cell(a).value) && InRange(box, l.Cell(b).value)
      && |RouteTiles(l, a, b, tile_cells, 1.0)| >= 1
  {
    hide Div, Mod, DivCeil, VisibleRange;
    CellInGrid(l, a);
    CellInGrid(l, b);
    RouteRangeIs(l, l.Cell(a).value, l.Cell(b).value);
    RangeNonEmpty(RouteBox(l, l.Cell(a).value, l.Cell(b).value), tile_cells);
  }

  lemma RangeNonEmpty(r: CellRange, cells: nat)
    requires r.start_column < r.end_column && r.start_row < r.end_row && cells > 0
    ensures |RangeTiles(r, cells)| >= 1
  {
    hide Div, DivCeil;
    CeilCovers(r.end_column, cells, Div(r.start_column, cells));
    CeilCovers(r.end_row, cells, Div(r.start_row, cells));
    var t := WorldTile(Div(r.start_column, cells), Div(r.start_row, cells));
    BlockTilesAre(Div(r.start_row, cells), DivCeil(r.end_row, cells), Div(r.start_column, cells), DivCeil(r.end_column, cells), t);
    assert t in RangeTiles(r, cells);
  }

  /** A tile is needed exactly when some cell of the range lies in it. */
  lemma RangeTileMeets(r: CellRange, cells: nat, t: WorldTile)
    requires r.start_column < r.end_column && r.start_row < r.end_row && cells > 0
    ensures t in RangeTiles(r, cells) <==>
      exists column: nat, row: nat :: r.start_column <= column < r.end_column && r.start_row <= row < r.end_row
        && Div(column, cells) == t.column && Div(row, cells) == t.row
  {
    hide Div, DivCeil;
    BlockTilesAre(Div(r.start_row, cells), DivCeil(r.end_row, cells), Div(r.start_column, cells), DivCeil(r.end_column, cells), t);
    if t in RangeTiles(r, cells) {
      var column, row := SpanWitness(r.start_column, r.end_column, cells, t.column), SpanWitness(r.start_row, r.end_row, cells, t.row);
    } else {
      forall column: nat, row: nat | r.start_column <= column < r.end_column && r.start_row <= row < r.end_row
        && Div(column, cells) == t.column && Div(row, cells) == t.row
        ensures false
      {
        InSpanOfCell(r.start_column, r.end_column, cells, column);
        InSpanOfCell(r.start_row, r.end_row, cells, row);
      }
    }
  }

  lemma InSpanOfCell(start: nat, end: nat, cells: nat, x: nat)
    requires cells > 0 && start <= x < end
    ensures InSpan(Div(x, cells), start, end, cells)
  {
    hide Div, DivCeil;
    CeilCovers(end, cells, Div(x, cells));
    if Div(x, cells) < Div(start, cells) {
      MulMono(Div(x, cells) + 1, Div(start, cells), cells);
    }
  }

  function SpanWitness(start: nat, end: nat, cells: nat, k: nat): (x: nat)
    requires cells > 0 && start < end && InSpan(k, start, end, cells)
    ensures start <= x < end && Div(x, cells) == k
  {
    hide Div, DivCeil;
    CeilCovers(end, cells, k);
    if k * cells <= start then
      (if k > Div(start, cells) then MulMono(Div(start, cells) + 1, k, cells); start else start)
    else
      DivUnique(k * cells, cells, k);
      k * cells
  }

  /** At level `lod` the tiles of a route are tiles of that level. */
  lemma RouteTilesInGrid(l: WorldLayout, a: nat, b: nat, lod: nat, t: WorldTile)
    requires l.Valid() && a < l.entry_count && b < l.entry_count
    requires t in RouteTiles(l, a, b, LodCells(DEFAULT_WORLD_TILE_CELLS, lod), 1.0)
    ensures var s := TileSpec(DEFAULT_WORLD_TILE_CELLS, l.columns, l.rows); t.row < TileRows(s, lod) && t.column < TileColumns(s, lod)
  {
    hide Div, DivCeil, Mod, LodCells;
    var cells := LodCells(DEFAULT_WORLD_TILE_CELLS, lod);
    RouteTilesAre(l, a, b, cells);
    var r := RouteBox(l, l.Cell(a).value, l.Cell(b).value);
    BlockTilesAre(Div(r.start_row, cells), DivCeil(r.end_row, cells), Div(r.start_column, cells), DivCeil(r.end_column, cells), t);
    CeilCovers(r.end_row, cells, t.row);
    CeilCovers(r.end_column, cells, t.column);
    CeilCovers(l.rows, cells, t.row);
    CeilCovers(l.columns, cells, t.column);
  }

  // ---- selecting the level of detail ----

  datatype Candidate = Candidate(lod: nat, tile_cells: nat)
  datatype Selection = Selection(lod: nat, tile_cells: nat, tile_count: nat)

  function FindLod(l: WorldLayout, a: nat, b: nat, candidates: seq<Candidate>, max_tiles: nat, margin: real): Option<Selection>
    requires l.columns > 0
  {
    if candidates == [] then None
    else
      var c := candidates[0];
      var tile_count := |RouteTiles(l, a, b, c.tile_cells, margin)|;
      if tile_count == 0 || tile_count > max_tiles then FindLod(l, a, b, candidates[1..], max_tiles, margin)
      else Some(Selection(c.lod, Max(c.tile_cells, 1), tile_count))
  }

  function WorldRouteLodForBudget(l: WorldLayout, a: nat, b: nat, candidates: seq<Candidate>, max_tiles: nat, margin: real): Option<Selection>
    requires l.columns > 0
  {
    if max_tiles == 0 then None else FindLod(l, a, b, candidates, max_tiles, margin)
  }

  /** The supervisor's choice. */
  function SupervisorLod(lods: seq<nat>, l: WorldLayout, a: nat, b: nat): Option<nat>
    requires l.columns > 0
  {
    var candidates := seq(|lods|, i requires 0 <= i < |lods| => Candidate(lods[i], LodCells(DEFAULT_WORLD_TILE_CELLS, lods[i])));
    match WorldRouteLodForBudget(l, a, b, candidates, MAX_WORLD_ROUTE_TILES, 1.0)
    case Some(selection) => Some(selection.lod)
    case None => None
  }

  function TilesAt(l: WorldLayout, a: nat, b: nat, lod: nat): seq<WorldTile>
    requires l.columns > 0
  {
    RouteTiles(l, a, b, LodCells(DEFAULT_WORLD_TILE_CELLS, lod), 1.0)
  }

  function CtlLod(lods: seq<nat>, l: WorldLayout, a: nat, b: nat): Option<nat>
    requires l.columns > 0
  {
    if lods == [] then None
    else if |TilesAt(l, a, b, lods[0])| <= MAX_WORLD_ROUTE_TILES then Some(lods[0])
    else CtlLod(lods[1..], l, a, b)
  }

  /** The command-line tool's loop: the first level that fits, which does not look for empty routes. */
  method CtlSelectWorldRouteLod(lods: seq<nat>, l: WorldLayout, a: nat, b: nat) returns (lod: Option<nat>)
    requires l.columns > 0
    ensures lod == CtlLod(lods, l, a, b)
  {
    for i := 0 to |lods|
      invariant CtlLod(lods, l, a, b) == CtlLod(lods[i..], l, a, b)
    {
      var tiles := RouteTiles(l, a, b, LodCells(DEFAULT_WORLD_TILE_CELLS, lods[i]), 1.0);
      assert lods[i..][1..] == lods[i + 1..];
      if |tiles| <= MAX_WORLD_ROUTE_TILES {
        return Some(lods[i]);
      }
    }
    return None;
  }

  ghost predicate IsFirstFitting(lods: seq<nat>, l: WorldLayout, a: nat, b: nat, i: nat)
    requires l.columns > 0
  {
    && i < |lods|
    && |TilesAt(l, a, b, lods[i])| <= MAX_WORLD_ROUTE_TILES
    && forall j | 0 <= j < i :: |TilesAt(l, a, b, lods[j])| > MAX_WORLD_ROUTE_TILES
  }

  lemma {:induction false} CtlLodFinds(lods: seq<nat>, l: WorldLayout, a: nat, b: nat, i: nat)
    requires l.columns > 0 && IsFirstFitting(lods, l, a, b, i)
    ensures CtlLod(lods, l, a, b) == Some(lods[i])
  {
    hide RouteTiles, LodCells;
    if i > 0 {
      assert |TilesAt(l, a, b, lods[0])| > MAX_WORLD_ROUTE_TILES;
      CtlLodFinds(lods[1..], l, a, b, i - 1);
    }
  }

  lemma {:induction false} FindLodFinds(lods: seq<nat>, cs: seq<Candidate>, l: WorldLayout, a: nat, b: nat, i: nat)
    requires l.Valid() && a < l.entry_count && b < l.entry_count && IsFirstFitting(lods, l, a, b, i)
    requires |cs| == |lods| && forall j | 0 <= j < |cs| :: cs[j] == Candidate(lods[j], LodCells(DEFAULT_WORLD_TILE_CELLS, lods[j]))
    ensures FindLod(l, a, b, cs, MAX_WORLD_ROUTE_TILES, 1.0)
         == Some(Selection(lods[i], LodCells(DEFAULT_WORLD_TILE_CELLS, lods[i]), |TilesAt(l, a, b, lods[i])|))
  {
    hide RouteTiles, LodCells;
    RouteTilesAre(l, a, b, LodCells(DEFAULT_WORLD_TILE_CELLS, lods[0]));
    if i > 0 {
      assert |TilesAt(l, a, b, lods[0])| > MAX_WORLD_ROUTE_TILES;
      FindLodFinds(lods[1..], cs[1..], l, a, b, i - 1);
    }
  }

  ghost predicate IsFirstLevel(lods: seq<nat>, l: WorldLayout, a: nat, b: nat, lod: nat)
    requires l.columns > 0
  {
    exists i: nat :: IsFirstFitting(lods, l, a, b, i) && lods[i] == lod
  }

  ghost predicate NoneFits(lods: seq<nat>, l: WorldLayout, a: nat, b: nat)
    requires l.columns > 0
  {
    forall j | 0 <= j < |lods| :: |TilesAt(l, a, b, lods[j])| > MAX_WORLD_ROUTE_TILES
  }

  lemma {:induction false} FirstFitExists(lods: seq<nat>, l: WorldLayout, a: nat, b: nat)
    requires l.columns > 0
    ensures NoneFits(lods, l, a, b) || exists i: nat :: IsFirstFitting(lods, l, a, b, i)
  {
    hide TilesAt;
    if lods != [] && |TilesAt(l, a, b, lods[0])| > MAX_WORLD_ROUTE_TILES {
      FirstFitExists(lods[1..], l, a, b);
      if i: nat :| IsFirstFitting(lods[1..], l, a, b, i) {
        assert IsFirstFitting(lods, l, a, b, i + 1);
      } else {
        forall j | 0 <= j < |lods| ensures |TilesAt(l, a, b, lods[j])| > MAX_WORLD_ROUTE_TILES {
          assert j > 0 ==> lods[j] == lods[1..][j - 1];
        }
      }
    } else if lods != [] {
      assert IsFirstFitting(lods, l, a, b, 0);
    }
  }

  lemma {:induction false} FindLodNone(lods: seq<nat>, cs: seq<Candidate>, l: WorldLayout, a: nat, b: nat)
    requires l.columns > 0 && NoneFits(lods, l, a, b)
    requires |cs| == |lods| && forall j | 0 <= j < |cs| :: cs[j] == Candidate(lods[j], LodCells(DEFAULT_WORLD_TILE_CELLS, lods[j]))
    ensures FindLod(l, a, b, cs, MAX_WORLD_ROUTE_TILES, 1.0).None?
  {
    hide RouteTiles, LodCells;
    if cs != [] {
      assert |TilesAt(l, a, b, lods[0])| > MAX_WORLD_ROUTE_TILES;
      assert cs[0].tile_cells == LodCells(DEFAULT_WORLD_TILE_CELLS, lods[0]);
      FindLodNone(lods[1..], cs[1..], l, a, b);
    }
  }

  /** For any list of levels the supervisor's choice is the first that fits, and none if none fits. */
  lemma SupervisorLodIs(lods: seq<nat>, l: WorldLayout, a: nat, b: nat)
    requires l.Valid() && a < l.entry_count && b < l.entry_count
    ensures match SupervisorLod(lods, l, a, b)
      case Some(lod) => IsFirstLevel(lods, l, a, b, lod)
      case None => NoneFits(lods, l, a, b)
  {
    hide RouteTiles, LodCells, IsFirstFitting, NoneFits, FindLod;
    FirstFitExists(lods, l, a, b);
    if i: nat :| IsFirstFitting(lods, l, a, b, i) {
      SelectionFinds(lods, l, a, b, i);
      FitsInside(lods, l, a, b, i);
    } else {
      var cs := seq(|lods|, i requires 0 <= i < |lods| => Candidate(lods[i], LodCells(DEFAULT_WORLD_TILE_CELLS, lods[i])));
      FindLodNone(lods, cs, l, a, b);
    }
  }

  lemma FitsInside(lods: seq<nat>, l: WorldLayout, a: nat, b: nat, i: nat)
    requires l.columns > 0 && IsFirstFitting(lods, l, a, b, i)
    ensures i < |lods| && !NoneFits(lods, l, a, b)
  {}

  lemma AtTop(l: WorldLayout, a: nat, b: nat)
    requires l.Valid() && a < l.entry_count && b < l.entry_count
    ensures |TilesAt(l, a, b, Top(TileSpec(DEFAULT_WORLD_TILE_CELLS, l.columns, l.rows), 0))| == 1
  {
    hide Div, Mod, DivCeil, LodCells;
    var s := TileSpec(DEFAULT_WORLD_TILE_CELLS, l.columns, l.rows);
    var top := Top(s, 0);
    var cells := LodCells(DEFAULT_WORLD_TILE_CELLS, top);
    CellInGrid(l, a);
    TopIsWholeWorld(s, (x, y, z, w) => "");
    RouteTilesAre(l, a, b, cells);
    var r := RouteBox(l, l.Cell(a).value, l.Cell(b).value);
    AxisAtTop(r.start_row, r.end_row, l.rows, cells);
    AxisAtTop(r.start_column, r.end_column, l.columns, cells);
  }

  lemma AxisAtTop(start: nat, end: nat, length: nat, cells: nat)
    requires cells > 0 && start < end <= length && DivCeil(length, cells) == 1
    ensures Div(start, cells) == 0 && DivCeil(end, cells) == 1
  {
    hide Div, DivCeil;
    CeilCovers(length, cells, 1);
    DivUnique(start, cells, 0);
    CeilCovers(end, cells, 0);
    CeilCovers(end, cells, 1);
  }

  function Upto(n: nat): (s: seq<nat>) { seq(n, i => i) }

  lemma FirstFitting(l: WorldLayout, a: nat, b: nat, k: nat) returns (lod: nat)
    requires l.columns > 0 && |TilesAt(l, a, b, k)| <= MAX_WORLD_ROUTE_TILES
    ensures IsFirstFitting(Upto(k + 1), l, a, b, lod)
  {
    hide RouteTiles, LodCells;
    lod := 0;
    while |TilesAt(l, a, b, lod)| > MAX_WORLD_ROUTE_TILES
      invariant lod <= k
      invariant forall j | 0 <= j < lod :: |TilesAt(l, a, b, j)| > MAX_WORLD_ROUTE_TILES
      decreases k - lod
    {
      lod := lod + 1;
    }
  }

  lemma SelectionFinds(lods: seq<nat>, l: WorldLayout, a: nat, b: nat, i: nat)
    requires l.Valid() && a < l.entry_count && b < l.entry_count && IsFirstFitting(lods, l, a, b, i)
    ensures SupervisorLod(lods, l, a, b) == Some(lods[i]) && CtlLod(lods, l, a, b) == Some(lods[i])
    ensures |TilesAt(l, a, b, lods[i])| >= 1
  {
    hide RouteTiles, LodCells;
    CtlLodFinds(lods, l, a, b, i);
    var cs := seq(|lods|, i requires 0 <= i < |lods| => Candidate(lods[i], LodCells(DEFAULT_WORLD_TILE_CELLS, lods[i])));
    FindLodFinds(lods, cs, l, a, b, i);
    RouteTilesAre(l, a, b, LodCells(DEFAULT_WORLD_TILE_CELLS, lods[i]));
  }

  /** For any two wallpapers of any library and the levels of a full pyramid, both programs choose
      the same level: the first whose route has at most 16 tiles. It has at least one, and there
      always is such a level, so neither "every available level" error can be reached, nor can the
      budget check after it fail. */
  lemma SelectionTotalAndMinimal(l: WorldLayout, key: ContentKey, a: nat, b: nat)
    requires l.Valid() && a < l.entry_count && b < l.entry_count
    ensures var lods := LodStatuses(Pyramid(TileSpec(DEFAULT_WORLD_TILE_CELLS, l.columns, l.rows), key));
      exists lod: nat ::
        && SupervisorLod(lods, l, a, b) == Some(lod) && CtlLod(lods, l, a, b) == Some(lod)
        && lod <= Top(TileSpec(DEFAULT_WORLD_TILE_CELLS, l.columns, l.rows), 0)
        && 1 <= |TilesAt(l, a, b, lod)| <= MAX_WORLD_ROUTE_TILES
        && forall j: nat | j < lod :: |TilesAt(l, a, b, j)| > MAX_WORLD_ROUTE_TILES
  {
    hide Pyramid, LodStatuses, TilesAt, SupervisorLod, CtlLod, Top, Div, Mod, DivCeil;
    var s := TileSpec(DEFAULT_WORLD_TILE_CELLS, l.columns, l.rows);
    var lods := LodStatuses(Pyramid(s, key));
    CellInGrid(l, a);
    PyramidLods(s, key);
    AtTop(l, a, b);
    assert lods == Upto(Top(s, 0) + 1);
    var lod := FirstFitting(l, a, b, Top(s, 0));
    SelectionFinds(lods, l, a, b, lod);
    assert lods[lod] == lod;
    forall j: nat | j < lod ensures |TilesAt(l, a, b, j)| > MAX_WORLD_ROUTE_TILES {
      assert lods[j] == j;
    }
  }
}
