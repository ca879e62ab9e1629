/** The row-major world grid, its cache tile pyramid, and the tiles a route needs. Sizes are
    `usize`; the operations that saturate in the original saturate here. */
module WorldGrid {
  import opened Prelude

  const USIZE_MAX: nat := 0xffff_ffff_ffff_ffff
  const TILE_LOD_BRANCHING: nat := 8
  type usize = n: nat | n <= 0xffff_ffff_ffff_ffff

  function SatMul(a: nat, b: nat): (r: usize) { Min(a * b, USIZE_MAX) }
  function SatAdd(a: nat, b: nat): (r: usize) { Min(a + b, USIZE_MAX) }

  function Div(a: nat, b: nat): (q: nat)
    requires b > 0
    ensures q * b <= a < (q + 1) * b
  {
    a / b
  }

  function Mod(a: nat, b: nat): (r: nat)
    requires b > 0
    ensures r == a - Div(a, b) * b < b
  {
    a % b
  }

  function DivCeil(a: nat, b: nat): nat
    requires b > 0
  {
    if Mod(a, b) == 0 then Div(a, b) else Div(a, b) + 1
  }

  // ---- division facts ----

  lemma DivUnique(a: nat, b: nat, q: nat)
    requires b > 0 && q * b <= a < (q + 1) * b
    ensures Div(a, b) == q
  {
    hide Div;
    if Div(a, b) < q {
      MulMono(Div(a, b) + 1, q, b);
    } else if q < Div(a, b) {
      MulMono(q + 1, Div(a, b), b);
    }
  }

  /** `DivCeil` is the number of blocks of size `b` that cover `a`. */
  lemma CeilCovers(a: nat, b: nat, k: nat)
    requires b > 0
    ensures k < DivCeil(a, b) <==> k * b < a
  {
    hide Div, Mod;
    var q := Div(a, b);
    if k >= DivCeil(a, b) {
      MulMono(DivCeil(a, b), k, b);
    } else {
      MulMono(k, q, b);
      if k < q {
        MulMono(k + 1, q, b);
      }
    }
  }

  // ---- layout ----

  datatype WorldCell = WorldCell(index: nat, column: nat, row: nat)

  datatype WorldLayout = WorldLayout(entry_count: usize, columns: usize, rows: usize) {
    static function New(entry_count: usize, columns: usize): (l: WorldLayout)
      ensures l.Valid()
    {
      var c := Max(columns, 1);
      assert DivCeil(entry_count, c) <= entry_count by {
        CeilCovers(entry_count, c, entry_count);
        MulMono(1, c, entry_count);
      }
      WorldLayout(entry_count, c, DivCeil(entry_count, c))
    }

    predicate Valid() {
      columns >= 1 && rows == DivCeil(entry_count, columns)
    }

    function Cell(index: nat): Option<WorldCell>
      requires columns > 0
    {
      if index >= entry_count then None else Some(WorldCell(index, Mod(index, columns), Div(index, columns)))
    }
  }

  /** A cell lies inside the grid, and its row and column give its index back. */
  lemma CellInGrid(l: WorldLayout, index: nat)
    requires l.Valid() && index < l.entry_count
    ensures l.Cell(index).Some?
    ensures var c := l.Cell(index).value; c.column < l.columns && c.row < l.rows && c.row * l.columns + c.column == index
  {
    hide Div, Mod, DivCeil;
    CeilCovers(l.entry_count, l.columns, Div(index, l.columns));
  }

  /** The near-square width: the least `c` with `c * c >= count`, and at least 1. */
  predicate IsAutoColumns(count: nat, columns: nat) {
    columns >= 1 && columns * columns >= count && (columns > 1 ==> (columns - 1) * (columns - 1) < count)
  }

  lemma AutoColumnsUnique(count: nat, a: nat, b: nat)
    requires IsAutoColumns(count, a) && IsAutoColumns(count, b)
    ensures a == b
  {
    if a < b {
      SquareMono(a, b - 1);
    } else if b < a {
      SquareMono(b, a - 1);
    }
  }

  lemma SquareMono(a: nat, b: nat)
    requires a <= b
    ensures a * a <= b * b
  {
    MulMono(a, b, a);
    MulMono(a, b, b);
  }

  function AutoColumnsFrom(count: usize, columns: nat): (c: usize)
    requires 1 <= columns <= Max(count, 1) && (columns > 1 ==> (columns - 1) * (columns - 1) < count)
    ensures IsAutoColumns(count, c)
    decreases count - columns
  {
    if columns * columns >= count then columns
    else SquareGrows(columns); AutoColumnsFrom(count, columns + 1)
  }

  function AutoColumns(count: usize): (c: usize)
    ensures IsAutoColumns(count, c)
  {
    AutoColumnsFrom(count, 1)
  }

  /** The grid it makes has no more rows than columns. */
  method AutoWorldColumns(count: usize) returns (columns: usize)
    ensures columns == AutoColumns(count)
    ensures WorldLayout.New(count, columns).rows <= columns
  {
    if count <= 1 {
      columns := 1;
    } else {
      columns := 1;
      while SatMul(columns, columns) < count
        invariant 1 <= columns <= count
        invariant columns > 1 ==> (columns - 1) * (columns - 1) < count
        decreases count - columns
      {
        SquareGrows(columns);
        columns := SatAdd(columns, 1);
      }
    }
    CeilCovers(count, columns, columns);
    AutoColumnsUnique(count, columns, AutoColumns(count));
  }

  lemma SquareGrows(n: nat)
    requires n >= 1
    ensures n <= n * n
  {}

  // ---- tile sizes ----

  function LodCells(base: usize, lod: nat): (cells: usize)
    ensures cells >= 1
  {
    if lod == 0 then Max(base, 1) else SatMul(LodCells(base, lod - 1), TILE_LOD_BRANCHING)
  }

  method WorldLodTileCells(base: usize, lod: nat) returns (cells: usize)
    ensures cells == LodCells(base, lod)
  {
    cells := Max(base, 1);
    for i := 0 to lod
      invariant cells == LodCells(base, i)
    {
      cells := SatMul(cells, TILE_LOD_BRANCHING);
    }
  }

  // ---- tiles of one level of detail ----

  datatype TileSpec = TileSpec(tile_cells: usize, columns: usize, rows: usize)

  /** The path of a tile image: its position and the hash of what it shows. */
  datatype TilePath = TilePath(lod: nat, row: nat, column: nat, content: string)
  datatype TileEntry = TileEntry(lod: nat, tile_column: nat, tile_row: nat, start_column: nat, end_column: nat,
                                 start_row: nat, end_row: nat, image_path: TilePath)
  type ContentKey = (nat, nat, nat, nat) -> string
  type TileKey = (nat, nat, nat)

  function KeyOf(e: TileEntry): TileKey { (e.lod, e.tile_row, e.tile_column) }

  function TileColumns(s: TileSpec, lod: nat): nat { DivCeil(s.columns, LodCells(s.tile_cells, lod)) }
  function TileRows(s: TileSpec, lod: nat): nat { DivCeil(s.rows, LodCells(s.tile_cells, lod)) }

  function LodEntry(s: TileSpec, key: ContentKey, lod: nat, row: nat, column: nat): TileEntry {
    var cells := LodCells(s.tile_cells, lod);
    var start_column, start_row := SatMul(column, cells), SatMul(row, cells);
    var end_column, end_row := Min(SatAdd(start_column, cells), s.columns), Min(SatAdd(start_row, cells), s.rows);
    TileEntry(lod, column, row, start_column, end_column, start_row, end_row,
              TilePath(lod, row, column, key(start_column, end_column, start_row, end_row)))
  }

  /** One row of tiles, up to a column. */
  function RowEntries(s: TileSpec, key: ContentKey, lod: nat, row: nat, columns: nat): (es: seq<TileEntry>)
    ensures |es| == columns
  {
    seq(columns, column requires 0 <= column < columns => LodEntry(s, key, lod, row, column))
  }

  function RowsEntries(s: TileSpec, key: ContentKey, lod: nat, rows: nat): (es: seq<TileEntry>)
    ensures |es| == rows * TileColumns(s, lod)
  {
    if rows == 0 then [] else RowsEntries(s, key, lod, rows - 1) + RowEntries(s, key, lod, rows - 1, TileColumns(s, lod))
  }

  function LodEntries(s: TileSpec, key: ContentKey, lod: nat): (es: seq<TileEntry>)
    ensures |es| == TileRows(s, lod) * TileColumns(s, lod)
  {
    RowsEntries(s, key, lod, TileRows(s, lod))
  }

  method TileCacheEntriesForLod(s: TileSpec, key: ContentKey, lod: nat) returns (entries: seq<TileEntry>)
    ensures entries == LodEntries(s, key, lod)
  {
    var cells := WorldLodTileCells(s.tile_cells, lod);
    var tile_columns, tile_rows := DivCeil(s.columns, cells), DivCeil(s.rows, cells);
    entries := [];
    for row := 0 to tile_rows
      invariant entries == RowsEntries(s, key, lod, row)
    {
      for column := 0 to tile_columns
        invariant entries == RowsEntries(s, key, lod, row) + RowEntries(s, key, lod, row, column)
      {
        var start_column, start_row := SatMul(column, cells), SatMul(row, cells);
        var end_column, end_row := Min(SatAdd(start_column, cells), s.columns), Min(SatAdd(start_row, cells), s.rows);
        var entry := TileEntry(lod, column, row, start_column, end_column, start_row, end_row,
                               TilePath(lod, row, column, key(start_column, end_column, start_row, end_row)));
        assert RowEntries(s, key, lod, row, column + 1) == RowEntries(s, key, lod, row, column) + [entry];
        entries := entries + [entry];
      }
    }
  }

  /** The entries of a level are exactly those of its grid positions. */
  lemma {:induction false} RowsEntriesAre(s: TileSpec, key: ContentKey, lod: nat, rows: nat, e: TileEntry)
    ensures e in RowsEntries(s, key, lod, rows) <==>
      e.tile_row < rows && e.tile_column < TileColumns(s, lod) && e == LodEntry(s, key, lod, e.tile_row, e.tile_column)
  {
    if rows > 0 {
      RowsEntriesAre(s, key, lod, rows - 1, e);
      var last := RowEntries(s, key, lod, rows - 1, TileColumns(s, lod));
      if e.tile_row == rows - 1 && e.tile_column < TileColumns(s, lod) && e == LodEntry(s, key, lod, e.tile_row, e.tile_column) {
        assert last[e.tile_column] == e;
      }
    }
  }

  lemma LodEntriesAre(s: TileSpec, key: ContentKey, lod: nat, e: TileEntry)
    ensures e in LodEntries(s, key, lod) <==>
      e.tile_row < TileRows(s, lod) && e.tile_column < TileColumns(s, lod) && e == LodEntry(s, key, lod, e.tile_row, e.tile_column)
  {
    RowsEntriesAre(s, key, lod, TileRows(s, lod), e);
  }

  // ---- one axis ----

  /** Block `k` of size `cells` on an axis of length `length`. */
  function BlockStart(k: nat, cells: nat): nat { k * cells }
  function BlockEnd(k: nat, cells: nat, length: nat): nat { Min((k + 1) * cells, length) }

  /** Inside the grid no bound saturates. */
  lemma EntryBounds(s: TileSpec, key: ContentKey, lod: nat, row: nat, column: nat)
    requires row < TileRows(s, lod) && column < TileColumns(s, lod)
    ensures var e, cells := LodEntry(s, key, lod, row, column), LodCells(s.tile_cells, lod);
      && e.start_column == BlockStart(column, cells) && e.end_column == BlockEnd(column, cells, s.columns)
      && e.start_row == BlockStart(row, cells) && e.end_row == BlockEnd(row, cells, s.rows)
      && e.start_column < e.end_column <= s.columns && e.start_row < e.end_row <= s.rows
  {
    var cells := LodCells(s.tile_cells, lod);
    CeilCovers(s.columns, cells, column);
    CeilCovers(s.rows, cells, row);
    assert (column + 1) * cells == column * cells + cells && (row + 1) * cells == row * cells + cells;
  }

  /** Blocks partition their axis: position `x` is in block `k` exactly when `k` is `x / cells`. */
  lemma BlocksPartition(x: nat, k: nat, cells: nat, length: nat)
    requires cells > 0 && x < length
    ensures Div(x, cells) < DivCeil(length, cells)
    ensures BlockStart(k, cells) <= x < BlockEnd(k, cells, length) <==> k == Div(x, cells)
  {
    hide Div, DivCeil;
    CeilCovers(length, cells, Div(x, cells));
    if BlockStart(k, cells) <= x < BlockEnd(k, cells, length) {
      DivUnique(x, cells, k);
    }
  }

  predicate Holds(e: TileEntry, column: nat, row: nat) {
    e.start_column <= column < e.end_column && e.start_row <= row < e.end_row
  }

  /** At every level of detail each grid cell lies in exactly one tile. */
  lemma TilesPartition(s: TileSpec, key: ContentKey, lod: nat, column: nat, row: nat, e: TileEntry)
    requires column < s.columns && row < s.rows
    ensures var cells := LodCells(s.tile_cells, lod);
      e in LodEntries(s, key, lod) && Holds(e, column, row) <==> e == LodEntry(s, key, lod, Div(row, cells), Div(column, cells))
  {
    hide LodEntry, LodEntries, Div, DivCeil, BlockStart, BlockEnd, LodCells;
    var cells := LodCells(s.tile_cells, lod);
    LodEntriesAre(s, key, lod, e);
    BlocksPartition(column, e.tile_column, cells, s.columns);
    BlocksPartition(row, e.tile_row, cells, s.rows);
    PositionOf(s, key, lod, Div(row, cells), Div(column, cells));
    if e.tile_row < TileRows(s, lod) && e.tile_column < TileColumns(s, lod) {
      EntryBounds(s, key, lod, e.tile_row, e.tile_column);
    }
  }

  lemma PositionOf(s: TileSpec, key: ContentKey, lod: nat, row: nat, column: nat)
    ensures var e := LodEntry(s, key, lod, row, column); e.tile_row == row && e.tile_column == column && e.lod == lod
  {}
}
