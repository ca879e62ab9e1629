/** The cache tile pyramid: levels of detail until one tile covers the world, and how the tiles
    of one level are assembled from the level below. */
module WorldPyramid {
  import opened Prelude
  import opened WorldGrid

  function TileCount(s: TileSpec, lod: nat): nat { TileRows(s, lod) * TileColumns(s, lod) }

  // ---- termination ----

  lemma CeilAtMostOne(length: nat, cells: nat)
    requires cells > 0 && length <= cells
    ensures DivCeil(length, cells) <= 1
  {
    CeilCovers(length, cells, 1);
  }

  lemma ProductAtMostOne(a: nat, b: nat)
    requires a <= 1 && b <= 1
    ensures a * b <= 1
  {}

  /** A saturated tile size leaves at most one tile, so a level with more is followed by larger tiles. */
  lemma LodCellsGrow(s: TileSpec, lod: nat)
    requires TileCount(s, lod) > 1
    ensures LodCells(s.tile_cells, lod) < LodCells(s.tile_cells, lod + 1)
  {
    var cells := LodCells(s.tile_cells, lod);
    if cells == USIZE_MAX {
      CeilAtMostOne(s.columns, cells);
      CeilAtMostOne(s.rows, cells);
      ProductAtMostOne(TileRows(s, lod), TileColumns(s, lod));
    }
  }

  /** The level at which the pyramid starting at `lod` ends. */
  function Top(s: TileSpec, lod: nat): (top: nat)
    ensures lod <= top && TileCount(s, top) <= 1
    ensures forall k | lod <= k < top :: TileCount(s, k) > 1
    decreases USIZE_MAX - LodCells(s.tile_cells, lod)
  {
    if TileCount(s, lod) <= 1 then lod else LodCellsGrow(s, lod); Top(s, lod + 1)
  }

  /** The levels from `lod` up to the last, in order. */
  function PyramidFrom(s: TileSpec, key: ContentKey, lod: nat): seq<TileEntry>
    decreases USIZE_MAX - LodCells(s.tile_cells, lod)
  {
    if TileCount(s, lod) <= 1 then LodEntries(s, key, lod)
    else LodCellsGrow(s, lod); LodEntries(s, key, lod) + PyramidFrom(s, key, lod + 1)
  }

  function Pyramid(s: TileSpec, key: ContentKey): seq<TileEntry> {
    PyramidFrom(s, key, 0)
  }

  /** The loop ends for every grid and base size, saturating ones included. */
  method TilePyramidCacheEntries(s: TileSpec, key: ContentKey) returns (entries: seq<TileEntry>)
    ensures entries == Pyramid(s, key)
  {
    hide LodEntries, LodCells, TileColumns, TileRows, DivCeil;
    entries := [];
    var lod := 0;
    while true
      invariant entries + PyramidFrom(s, key, lod) == Pyramid(s, key)
      decreases USIZE_MAX - LodCells(s.tile_cells, lod)
    {
      var lod_entries := TileCacheEntriesForLod(s, key, lod);
      assert entries + (lod_entries + PyramidFrom(s, key, lod + 1)) == (entries + lod_entries) + PyramidFrom(s, key, lod + 1);
      entries := entries + lod_entries;
      if |lod_entries| <= 1 {
        return;
      }
      LodCellsGrow(s, lod);
      lod := lod + 1;
    }
  }

  // ---- contents ----

  lemma {:induction false} PyramidFromIs(s: TileSpec, key: ContentKey, lod: nat, e: TileEntry)
    ensures e in PyramidFrom(s, key, lod) <==> lod <= e.lod <= Top(s, lod) && e in LodEntries(s, key, e.lod)
    decreases USIZE_MAX - LodCells(s.tile_cells, lod)
  {
    LodEntriesAre(s, key, lod, e);
    if TileCount(s, lod) > 1 {
      LodCellsGrow(s, lod);
      PyramidFromIs(s, key, lod + 1, e);
    }
  }

  /** The pyramid holds the tiles of levels 0 to the top and nothing else. */
  lemma PyramidIs(s: TileSpec, key: ContentKey, e: TileEntry)
    ensures e in Pyramid(s, key) <==> e.lod <= Top(s, 0) && e in LodEntries(s, key, e.lod)
  {
    PyramidFromIs(s, key, 0, e);
  }

  lemma CeilPositive(length: nat, cells: nat)
    requires cells > 0 && length > 0
    ensures DivCeil(length, cells) >= 1
  {
    CeilCovers(length, cells, 0);
  }

  /** For a non-empty grid the last level is a single tile that covers all of it. */
  lemma TopIsWholeWorld(s: TileSpec, key: ContentKey)
    requires s.columns > 0 && s.rows > 0
    ensures TileColumns(s, Top(s, 0)) == 1 && TileRows(s, Top(s, 0)) == 1
    ensures var e := LodEntry(s, key, Top(s, 0), 0, 0);
      LodEntries(s, key, Top(s, 0)) == [e]
      && e.start_column == 0 && e.end_column == s.columns && e.start_row == 0 && e.end_row == s.rows
  {
    hide DivCeil, LodEntry;
    var top := Top(s, 0);
    var cells := LodCells(s.tile_cells, top);
    CeilPositive(s.columns, cells);
    CeilPositive(s.rows, cells);
    FactorsOfOne(TileRows(s, top), TileColumns(s, top));
    CeilCovers(s.columns, cells, 1);
    CeilCovers(s.rows, cells, 1);
    EntryBounds(s, key, top, 0, 0);
    LodEntriesAre(s, key, top, LodEntries(s, key, top)[0]);
  }

  lemma FactorsOfOne(a: nat, b: nat)
    requires a >= 1 && b >= 1 && a * b <= 1
    ensures a == 1 && b == 1
  {
    if a > 1 { MulMono(2, a, b); }
    if b > 1 { MulMono(2, b, a); }
  }

  // ---- levels listed from entries ----

  function MaxLod(entries: seq<TileEntry>): (m: Option<nat>)
    ensures m.None? <==> entries == []
    ensures m.Some? ==> (exists e :: e in entries && e.lod == m.value) && forall e | e in entries :: e.lod <= m.value
  {
    if entries == [] then None
    else
      match MaxLod(entries[1..])
      case None => assert entries == [entries[0]]; Some(entries[0].lod)
      case Some(m) =>
        assert entries == [entries[0]] + entries[1..];
        assert entries[0] in entries;
        Some(Max(entries[0].lod, m))
  }

  /** `world_lod_statuses`: the levels of detail, without their readiness counts. */
  function LodStatuses(entries: seq<TileEntry>): seq<nat> {
    match MaxLod(entries)
    case None => []
    case Some(m) => seq(m + 1, i => i)
  }

  /** From a pyramid over a non-empty grid, the listed levels are 0 to the top. */
  lemma PyramidLods(s: TileSpec, key: ContentKey)
    requires s.columns > 0 && s.rows > 0
    ensures LodStatuses(Pyramid(s, key)) == seq(Top(s, 0) + 1, i => i)
  {
    TopIsWholeWorld(s, key);
    var e := LodEntry(s, key, Top(s, 0), 0, 0);
    assert e in LodEntries(s, key, Top(s, 0));
    PyramidIs(s, key, e);
    var entries := Pyramid(s, key);
    assert e in entries;
    var m := MaxLod(entries).value;
    var top :| top in entries && top.lod == m;
    PyramidIs(s, key, top);
  }

  // ---- children of a tile ----

  datatype ChildBlock = ChildBlock(child_column: nat, child_row: nat, start_column: nat, end_column: nat, start_row: nat, end_row: nat)

  function BlockAt(tile: TileEntry, cells: nat, row: nat, column: nat): ChildBlock {
    var start_column, start_row := SatMul(column, cells), SatMul(row, cells);
    ChildBlock(column, row, start_column, Min(SatAdd(start_column, cells), tile.end_column),
               start_row, Min(SatAdd(start_row, cells), tile.end_row))
  }

  predicate InSpan(j: nat, start: nat, end: nat, cells: nat)
    requires cells > 0
  {
    Div(start, cells) <= j < DivCeil(end, cells)
  }

  /** Exactly the child positions under the tile, each once, in row-major order. */
  method WorldLodChildBlocks(tile: TileEntry, cells: nat) returns (blocks: seq<ChildBlock>)
    requires cells > 0
    ensures forall b :: b in blocks <==>
      InSpan(b.child_row, tile.start_row, tile.end_row, cells) && InSpan(b.child_column, tile.start_column, tile.end_column, cells)
      && b == BlockAt(tile, cells, b.child_row, b.child_column)
    ensures forall i, j | 0 <= i < j < |blocks| ::
      blocks[i].child_row < blocks[j].child_row
      || (blocks[i].child_row == blocks[j].child_row && blocks[i].child_column < blocks[j].child_column)
  {
    hide Div, DivCeil;
    var start_row, end_row := Div(tile.start_row, cells), DivCeil(tile.end_row, cells);
    var start_column, end_column := Div(tile.start_column, cells), DivCeil(tile.end_column, cells);
    blocks := [];
    var row := start_row;
    while row < end_row
      invariant start_row <= row
      invariant forall b :: b in blocks <==>
        start_row <= b.child_row < Min(row, end_row) && start_column <= b.child_column < end_column && b == BlockAt(tile, cells, b.child_row, b.child_column)
      invariant forall i, j | 0 <= i < j < |blocks| ::
        blocks[i].child_row < blocks[j].child_row
        || (blocks[i].child_row == blocks[j].child_row && blocks[i].child_column < blocks[j].child_column)
    {
      var above := blocks;
      var column := start_column;
      while column < end_column
        invariant start_column <= column
        invariant forall b :: b in blocks <==>
          (b in above
           || (b.child_row == row && start_column <= b.child_column < Min(column, end_column) && b == BlockAt(tile, cells, row, b.child_column)))
        invariant forall i, j | 0 <= i < j < |blocks| ::
          blocks[i].child_row < blocks[j].child_row
          || (blocks[i].child_row == blocks[j].child_row && blocks[i].child_column < blocks[j].child_column)
      {
        var block := BlockAt(tile, cells, row, column);
        forall i | 0 <= i < |blocks| ensures blocks[i].child_row < row || (blocks[i].child_row == row && blocks[i].child_column < column) {
          assert blocks[i] in blocks;
        }
        blocks := blocks + [block];
        column := column + 1;
      }
      row := row + 1;
    }
  }

  /** On one axis, with tiles of `SatMul(cells, 8)` made from blocks of `cells`: the blocks under
      tile `k` are blocks of the whole axis, lie inside the tile, and cover it. */
  lemma ChildAxis(k: nat, cells: usize, length: usize)
    requires cells >= 1 && k < DivCeil(length, SatMul(cells, TILE_LOD_BRANCHING))
    ensures var whole := SatMul(cells, TILE_LOD_BRANCHING);
      var start, end := BlockStart(k, whole), BlockEnd(k, whole, length);
      && (forall j: nat | InSpan(j, start, end, cells) ::
            j < DivCeil(length, cells)
            && start <= BlockStart(j, cells) < BlockEnd(j, cells, length) <= end
            && BlockEnd(j, cells, length) == Min(j * cells + cells, end))
      && (forall x: nat | start <= x < end :: InSpan(Div(x, cells), start, end, cells))
  {
    hide Div, DivCeil;
    var whole := SatMul(cells, TILE_LOD_BRANCHING);
    var start, end := BlockStart(k, whole), BlockEnd(k, whole, length);
    var first := if k == 0 then 0 else TILE_LOD_BRANCHING * k;
    CeilCovers(length, whole, k);
    ChildStart(k, cells, length);
    DivUnique(start, cells, first);
    forall j: nat | InSpan(j, start, end, cells)
      ensures j < DivCeil(length, cells) && start <= BlockStart(j, cells) < BlockEnd(j, cells, length) <= end
        && BlockEnd(j, cells, length) == Min(j * cells + cells, end)
    {
      MulMono(first, j, cells);
      CeilCovers(end, cells, j);
      CeilCovers(length, cells, j);
      if end < length {
        ChildEnd(k, cells, length, j);
      }
    }
    forall x: nat | start <= x < end ensures InSpan(Div(x, cells), start, end, cells) {
      CeilCovers(end, cells, Div(x, cells));
      if Div(x, cells) < first {
        MulMono(Div(x, cells) + 1, first, cells);
      }
    }
  }

  /** The start of a tile is a child boundary. Where the tile size saturates there is only tile 0. */
  lemma ChildStart(k: nat, cells: usize, length: usize)
    requires cells >= 1 && k * SatMul(cells, TILE_LOD_BRANCHING) < length
    ensures var first := if k == 0 then 0 else TILE_LOD_BRANCHING * k;
      first * cells == k * SatMul(cells, TILE_LOD_BRANCHING) < (first + 1) * cells
  {
    var whole := SatMul(cells, TILE_LOD_BRANCHING);
    if k > 0 {
      if whole == USIZE_MAX {
        MulMono(1, k, whole);
        assert false;
      }
      assert k * (cells * 8) == (8 * k) * cells;
    }
  }

  /** A tile that ends before the axis does ends on a child boundary. */
  lemma ChildEnd(k: nat, cells: usize, length: usize, j: nat)
    requires cells >= 1
    requires var end := BlockEnd(k, SatMul(cells, TILE_LOD_BRANCHING), length); end < length && j * cells < end
    ensures (j + 1) * cells <= BlockEnd(k, SatMul(cells, TILE_LOD_BRANCHING), length)
  {
    var whole := SatMul(cells, TILE_LOD_BRANCHING);
    if whole == USIZE_MAX {
      MulMono(1, k + 1, whole);
      assert false;
    }
    assert (k + 1) * (cells * 8) == (8 * k + 8) * cells;
    if j >= 8 * k + 8 {
      MulMono(8 * k + 8, j, cells);
    }
    MulMono(j + 1, 8 * k + 8, cells);
  }

  /** Each tile of level `lod + 1` is assembled from tiles of level `lod`: every child block has the
      bounds of its level-`lod` entry, lies inside the tile, and every cell of the tile is in exactly
      one child block. */
  lemma TileIsUnionOfChildren(s: TileSpec, key: ContentKey, lod: nat, e: TileEntry)
    requires e in LodEntries(s, key, lod + 1)
    ensures var cells := LodCells(s.tile_cells, lod);
      && (forall row: nat, column: nat | InSpan(row, e.start_row, e.end_row, cells) && InSpan(column, e.start_column, e.end_column, cells) ::
            var child, b := LodEntry(s, key, lod, row, column), BlockAt(e, cells, row, column);
            child in LodEntries(s, key, lod)
            && b.start_column == child.start_column && b.end_column == child.end_column
            && b.start_row == child.start_row && b.end_row == child.end_row
            && e.start_column <= b.start_column < b.end_column <= e.end_column
            && e.start_row <= b.start_row < b.end_row <= e.end_row)
  {
    hide Div, DivCeil, LodEntry, BlockStart, BlockEnd, InSpan;
    var cells := LodCells(s.tile_cells, lod);
    LodEntriesAre(s, key, lod + 1, e);
    EntryBounds(s, key, lod + 1, e.tile_row, e.tile_column);
    ChildAxis(e.tile_column, cells, s.columns);
    ChildAxis(e.tile_row, cells, s.rows);
    forall row: nat, column: nat | InSpan(row, e.start_row, e.end_row, cells) && InSpan(column, e.start_column, e.end_column, cells)
      ensures var child, b := LodEntry(s, key, lod, row, column), BlockAt(e, cells, row, column);
            child in LodEntries(s, key, lod)
            && b.start_column == child.start_column && b.end_column == child.end_column
            && b.start_row == child.start_row && b.end_row == child.end_row
            && e.start_column <= b.start_column < b.end_column <= e.end_column
            && e.start_row <= b.start_row < b.end_row <= e.end_row
    {
      PositionOf(s, key, lod, row, column);
      LodEntriesAre(s, key, lod, LodEntry(s, key, lod, row, column));
      EntryBounds(s, key, lod, row, column);
      ChildBounds(e, s, cells, row, column);
    }
  }

  lemma ChildBounds(e: TileEntry, s: TileSpec, cells: usize, row: nat, column: nat)
    requires BlockStart(row, cells) < s.rows && BlockStart(column, cells) < s.columns && e.end_column <= s.columns && e.end_row <= s.rows
    ensures var b := BlockAt(e, cells, row, column);
      && b.start_column == BlockStart(column, cells) && b.start_row == BlockStart(row, cells)
      && b.end_column == Min(column * cells + cells, e.end_column) && b.end_row == Min(row * cells + cells, e.end_row)
  {}

  /** Every cell of a tile is in exactly one of its child blocks. */
  lemma CellInOneChild(s: TileSpec, key: ContentKey, lod: nat, e: TileEntry, column: nat, row: nat, i: nat, j: nat)
    requires e in LodEntries(s, key, lod + 1) && Holds(e, column, row)
    requires var cells := LodCells(s.tile_cells, lod); InSpan(i, e.start_row, e.end_row, cells) && InSpan(j, e.start_column, e.end_column, cells)
    ensures var cells := LodCells(s.tile_cells, lod);
      && InSpan(Div(row, cells), e.start_row, e.end_row, cells) && InSpan(Div(column, cells), e.start_column, e.end_column, cells)
      && var b := BlockAt(e, cells, i, j);
      (b.start_column <= column < b.end_column && b.start_row <= row < b.end_row <==> i == Div(row, cells) && j == Div(column, cells))
  {
    hide Div, DivCeil, LodEntry, BlockStart, BlockEnd, InSpan;
    var cells := LodCells(s.tile_cells, lod);
    TileIsUnionOfChildren(s, key, lod, e);
    LodEntriesAre(s, key, lod + 1, e);
    EntryBounds(s, key, lod + 1, e.tile_row, e.tile_column);
    ChildAxis(e.tile_column, cells, s.columns);
    ChildAxis(e.tile_row, cells, s.rows);
    var child := LodEntry(s, key, lod, i, j);
    LodEntriesAre(s, key, lod, child);
    PositionOf(s, key, lod, i, j);
    EntryBounds(s, key, lod, i, j);
    BlocksPartition(column, j, cells, s.columns);
    BlocksPartition(row, i, cells, s.rows);
  }
}
