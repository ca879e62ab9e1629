/** The history of one output layout: rows of wallpapers, one per output, and a window of that
    many entries that slides over the flattened rows. */
module History {
  import opened Prelude

  type Row = seq<string>
  datatype Layout = Layout(out_count: nat, max_history: nat, history: seq<Row>, idx: nat, offset: nat)

  // ---- readers ----

  function Flat(rows: seq<Row>): seq<string> {
    if rows == [] then [] else rows[0] + Flat(rows[1..])
  }

  function TakeAt(s: seq<string>, start: nat, count: nat): seq<string> {
    if start >= |s| then [] else if start + count <= |s| then s[start..start + count] else s[start..]
  }

  /** `window_start`: where the window begins in the flattened history. */
  function Start(l: Layout): nat { Monus(l.idx, 1) * l.out_count + l.offset }

  /** `get_window` at the cursor. */
  function Window(l: Layout): seq<string> { TakeAt(Flat(l.history), Start(l), l.out_count) }

  /** Counted in rows, the history reaches the end of the window. */
  predicate Complete(l: Layout) { |l.history| * l.out_count >= Start(l) + l.out_count }

  // ---- changes ----

  function Prune(l: Layout): Layout {
    if |l.history| <= l.max_history then l
    else
      var drop := |l.history| - l.max_history;
      l.(history := l.history[drop..],
         idx := if l.idx > 0 then (if Monus(l.idx, drop) > 1 then Monus(l.idx, drop) else 1) else l.idx)
  }

  function Append(l: Layout, row: Row): Layout { Prune(l.(history := l.history + [row])) }

  function Trim(l: Layout): Layout { if |l.history| > l.idx then l.(history := l.history[..l.idx]) else l }

  /** One round of `ensure_window`. */
  function Grow(l: Layout, row: Row): Layout {
    var a := Append(l, row);
    if a.idx < 1 then a.(idx := 1, offset := 0) else a
  }

  function GrowAll(l: Layout, rows: seq<Row>): Layout
    decreases |rows|
  {
    if rows == [] then l else GrowAll(Grow(l, rows[0]), rows[1..])
  }

  /** A selection that replaces what follows the cursor. */
  function Record(l: Layout, selection: Row): Layout {
    var pushed := Trim(l).history + [selection];
    Prune(l.(history := pushed, idx := |pushed|, offset := 0))
  }

  /** `heal_selection` after something changed. */
  function Healed(l: Layout, healed: Row): Layout {
    if l.offset == 0 && 1 <= l.idx <= |l.history| then l.(history := l.history[l.idx - 1 := healed])
    else Record(l, healed)
  }

  datatype Move = Next | Back | ShiftForward | ShiftBack

  /** The cursor's move, before the history is made to reach it. */
  function Moved(l: Layout, m: Move): Layout
    requires l.out_count > 0
  {
    match m
    case Next => l.(idx := (if l.idx < 1 then 1 else l.idx) + 1)
    case Back => l.(idx := if l.idx > 1 then l.idx - 1 else 1)
    case ShiftForward =>
      if l.offset + 1 >= l.out_count then l.(offset := 0, idx := l.idx + 1)
      else if l.idx < 1 then l.(idx := 1, offset := 0)
      else l.(offset := l.offset + 1)
    case ShiftBack =>
      if l.offset > 0 then l.(offset := l.offset - 1)
      else if l.idx > 1 then l.(idx := l.idx - 1, offset := l.out_count - 1)
      else l
  }

  // ---- well-formed layouts ----

  ghost predicate Rows(rows: seq<Row>, width: nat) { forall i | 0 <= i < |rows| :: |rows[i]| == width }

  ghost predicate WellFormed(l: Layout) {
    && l.out_count > 0 && l.max_history > 0 && l.offset < l.out_count
    && Rows(l.history, l.out_count) && (l.history != [] ==> l.idx >= 1)
  }

  /** A well-formed layout with something to show. */
  ghost predicate Started(l: Layout) { WellFormed(l) && l.history != [] }

  lemma {:induction false} FlatLength(rows: seq<Row>, width: nat)
    requires Rows(rows, width)
    ensures |Flat(rows)| == |rows| * width
  {
    if rows != [] {
      FlatLength(rows[1..], width);
      assert |rows| * width == width + (|rows| - 1) * width;
    }
  }

  lemma {:induction false} FlatAppend(a: seq<Row>, b: seq<Row>)
    ensures Flat(a + b) == Flat(a) + Flat(b)
  {
    if a != [] {
      FlatAppend(a[1..], b);
      assert (a + b)[1..] == a[1..] + b;
    } else {
      assert a + b == b;
    }
  }

  lemma FlatOne(row: Row)
    ensures Flat([row]) == row
  {
    assert Flat([row]) == row + Flat([row][1..]);
    assert row + [] == row;
  }

  /** Rows the window still lacks. */
  function Deficit(l: Layout): nat { Monus(l.idx + (if l.offset > 0 then 1 else 0), |l.history|) }

  lemma CompleteIsNoDeficit(l: Layout)
    requires Started(l)
    ensures Complete(l) <==> Deficit(l) == 0
  {
    EndOfWindow(l);
    RowsReach(|l.history|, l.idx, l.out_count, l.offset);
  }

  lemma EndOfWindow(l: Layout)
    requires l.idx >= 1
    ensures Start(l) + l.out_count == l.idx * l.out_count + l.offset
  {
    assert (l.idx - 1) * l.out_count + l.out_count == l.idx * l.out_count;
  }

  /** `h` rows reach the end of a window `offset` entries after row `idx`. */
  lemma RowsReach(h: nat, idx: nat, n: nat, offset: nat)
    requires offset < n
    ensures h * n >= idx * n + offset <==> h >= idx + if offset > 0 then 1 else 0
  {
    if h >= idx + 1 {
      MulMono(idx + 1, h, n);
      assert (idx + 1) * n == idx * n + n;
    } else if h < idx {
      MulMono(h + 1, idx, n);
      assert (h + 1) * n == h * n + n;
    }
  }

  // ---- making the history reach the window ----

  /** `ensure_window` can reach its goal. */
  predicate CanComplete(l: Layout) { Complete(l) || l.offset == 0 || l.max_history >= 2 }

  lemma StartPruned(l: Layout, g: Layout, drop: nat)
    requires g.idx >= 1 && g.idx == l.idx - drop && g.out_count == l.out_count && g.offset == l.offset
    ensures Start(g) + drop * l.out_count == Start(l)
  {
    assert (g.idx - 1) * l.out_count + drop * l.out_count == (l.idx - 1) * l.out_count;
  }

  lemma GrowKeeps(l: Layout, row: Row)
    requires Started(l) && |row| == l.out_count && !Complete(l) && CanComplete(l)
    ensures var g := Grow(l, row); var drop := |l.history| + 1 - |g.history|;
      && Started(g) && CanComplete(g) && g.offset == l.offset && g.out_count == l.out_count && g.max_history == l.max_history
      && Deficit(g) == Deficit(l) - 1 && g.idx == l.idx - drop
      && 0 <= drop <= |l.history| && g.history == (l.history + [row])[drop..] && drop == Monus(|l.history| + 1, l.max_history)
  {
    hide Complete;
    CompleteIsNoDeficit(l);
    var g := Grow(l, row);
    var drop := Monus(|l.history| + 1, l.max_history);
    forall i | 0 <= i < |g.history| ensures |g.history[i]| == l.out_count {
      assert g.history[i] == (l.history + [row])[i + drop];
    }
  }

  /** A round brings the end of the history one row closer and leaves the cursor on the same entry. */
  lemma GrowProgress(l: Layout, row: Row)
    requires Started(l) && |row| == l.out_count && !Complete(l) && CanComplete(l)
    ensures var g := Grow(l, row); var drop := |l.history| + 1 - |g.history|;
      && Started(g) && CanComplete(g) && g.offset == l.offset && g.out_count == l.out_count && g.max_history == l.max_history
      && Deficit(g) == Deficit(l) - 1
      && 0 <= drop <= |l.history| && g.history == (l.history + [row])[drop..] && Start(g) + drop * l.out_count == Start(l)
      && drop == Monus(|l.history| + 1, l.max_history)
  {
    hide Complete, CanComplete, Grow, Start, Deficit, Rows;
    GrowKeeps(l, row);
    var g := Grow(l, row);
    StartPruned(l, g, |l.history| + 1 - |g.history|);
  }

  /** Without room for two rows a window that crosses a row boundary is never reached: whatever
      rows are drawn, `ensure_window` goes on. */
  lemma {:induction false} NeverCompletes(l: Layout, rows: seq<Row>)
    requires Started(l) && !CanComplete(l)
    ensures !Complete(GrowAll(l, rows))
  {
    if rows != [] {
      var g := Grow(l, rows[0]);
      assert |g.history| == 1 && g.idx >= 1 && g.offset == l.offset > 0 && g.max_history == 1;
      SingleRowIncomplete(g);
      NeverCompletesSingle(g, rows[1..]);
    }
  }

  /** One row of two entries, room for one row, a window across two. */
  lemma OneRowSpins(rows: seq<Row>)
    ensures !Complete(GrowAll(Layout(2, 1, [["a", "b"]], 1, 1), rows))
  {
    var l := Layout(2, 1, [["a", "b"]], 1, 1);
    assert Started(l);
    NeverCompletes(l, rows);
  }

  lemma {:induction false} GrowAllAppend(l: Layout, rows: seq<Row>, row: Row)
    ensures GrowAll(l, rows + [row]) == Grow(GrowAll(l, rows), row)
    decreases |rows|
  {
    if rows != [] {
      GrowAllAppend(Grow(l, rows[0]), rows[1..], row);
      assert (rows + [row])[1..] == rows[1..] + [row];
    }
  }

  ghost predicate OneRowCrossing(l: Layout) {
    l.out_count > 0 && |l.history| == 1 && l.idx >= 1 && l.offset > 0 && l.max_history == 1
  }

  lemma SingleRowIncomplete(l: Layout)
    requires OneRowCrossing(l)
    ensures !Complete(l)
  {
    MulMono(0, l.idx - 1, l.out_count);
  }

  lemma {:induction false} NeverCompletesSingle(l: Layout, rows: seq<Row>)
    requires OneRowCrossing(l)
    ensures !Complete(GrowAll(l, rows))
    decreases |rows|
  {
    SingleRowIncomplete(l);
    if rows != [] {
      NeverCompletesSingle(Grow(l, rows[0]), rows[1..]);
    }
  }

  /** The rows `ensure_window` adds: as many as the window lacks. */
  ghost predicate Ensured(l: Layout, rows: seq<Row>, l': Layout) {
    && Rows(rows, l.out_count) && l' == GrowAll(l, rows) && Complete(l') && |rows| == Deficit(l)
  }

  // ---- the cursor over an append-only stream ----

  /** Everything ever shown or drawn, the part of it still retained, and the cursor. */
  datatype Cursor = Cursor(stream: seq<string>, base: nat, at: nat)

  ghost predicate Shows(l: Layout, c: Cursor) {
    && c.base <= |c.stream| && c.stream[c.base..] == Flat(l.history) && c.at == c.base + Start(l)
  }

  /** A move of `n` or one entries; backward moves stop at the start of what is retained. */
  function MovedAt(c: Cursor, n: nat, m: Move): nat {
    match m
    case Next => c.at + n
    case Back => if c.at >= c.base + n then c.at - n else c.at
    case ShiftForward => c.at + 1
    case ShiftBack => if c.at > c.base then c.at - 1 else c.at
  }

  /** Appending to the stream forgets all but the last `max` rows. */
  function Extended(c: Cursor, n: nat, max: nat, rows: seq<Row>): Cursor {
    var stream := c.stream + Flat(rows);
    var kept := Monus(|stream|, max * n);
    Cursor(stream, if rows == [] || kept < c.base then c.base else kept, c.at)
  }

  function CursorStep(c: Cursor, n: nat, max: nat, m: Move, rows: seq<Row>): Cursor {
    Extended(c.(at := MovedAt(c, n, m)), n, max, rows)
  }

  lemma MovedShows(l: Layout, c: Cursor, m: Move)
    requires Started(l) && Shows(l, c)
    ensures Started(Moved(l, m)) && Shows(Moved(l, m), c.(at := MovedAt(c, l.out_count, m)))
    ensures Moved(l, m).out_count == l.out_count && Moved(l, m).max_history == l.max_history && Moved(l, m).history == l.history
  {
    StartMoves(l, m);
    var d := Moved(l, m);
    assert d.history == l.history && d.out_count == l.out_count && d.idx >= 1;
  }

  /** How far a move takes the window's start. */
  lemma StartMoves(l: Layout, m: Move)
    requires l.out_count > 0 && l.offset < l.out_count && l.idx >= 1
    ensures Start(Moved(l, m)) ==
      match m
      case Next => Start(l) + l.out_count
      case Back => if Start(l) >= l.out_count then Start(l) - l.out_count else Start(l)
      case ShiftForward => Start(l) + 1
      case ShiftBack => if Start(l) > 0 then Start(l) - 1 else Start(l)
  {
    var n, before := l.out_count, l.idx - 1;
    assert l.idx * n == before * n + n;
    if l.idx > 1 {
      RowBefore(before, n);
    }
  }

  lemma RowBefore(k: nat, n: nat)
    requires k >= 1 && n >= 1
    ensures k * n == (k - 1) * n + n && k * n >= n
  {}

  lemma ExtendedOnce(c: Cursor, n: nat, max: nat, row: Row, rows: seq<Row>)
    requires n > 0 && |row| == n && Rows(rows, n)
    ensures Extended(c, n, max, [row] + rows) == Extended(Extended(c, n, max, [row]), n, max, rows)
  {
    FlatOne(row);
    FlatAppend([row], rows);
    assert c.stream + (row + Flat(rows)) == (c.stream + row) + Flat(rows);
    if rows == [] {
      assert Flat(rows) == [] && [row] + rows == [row];
    }
  }

  lemma GrowShows(l: Layout, c: Cursor, row: Row)
    requires Started(l) && |row| == l.out_count && !Complete(l) && CanComplete(l) && Shows(l, c)
    ensures Shows(Grow(l, row), Extended(c, l.out_count, l.max_history, [row]))
  {
    hide Start, Complete, CanComplete, Deficit, Grow, Flat;
    GrowProgress(l, row);
    var n, g, e := l.out_count, Grow(l, row), Extended(c, l.out_count, l.max_history, [row]);
    var all := l.history + [row];
    var drop := |l.history| + 1 - |g.history|;
    FlatOne(row);
    FlatAppend(l.history, [row]);
    FlatLength(l.history, n);
    FlatAppend(all[..drop], all[drop..]);
    assert all[..drop] + all[drop..] == all;
    FlatLength(all[..drop], n);
    assert Flat(all) == c.stream[c.base..] + row == e.stream[c.base..];
    DropBase(l, drop, n, |c.stream| - c.base);
    assert e.base == c.base + drop * n;
    assert e.stream[e.base..] == e.stream[c.base..][drop * n..];
  }

  /** Rows dropped from the history and entries dropped from the stream are the same. */
  lemma DropBase(l: Layout, drop: nat, n: nat, flat: nat)
    requires flat == |l.history| * n && drop == Monus(|l.history| + 1, l.max_history)
    ensures Monus(flat + n, l.max_history * n) == drop * n
  {
    assert flat + n == (|l.history| + 1) * n;
    if |l.history| + 1 >= l.max_history {
      assert (|l.history| + 1) * n - l.max_history * n == drop * n;
    } else {
      MulMono(|l.history| + 1, l.max_history, n);
    }
  }

  lemma {:induction false} GrowAllShows(l: Layout, c: Cursor, rows: seq<Row>)
    requires Started(l) && CanComplete(l) && Shows(l, c) && Rows(rows, l.out_count) && |rows| == Deficit(l)
    ensures Ensured(l, rows, GrowAll(l, rows)) && Started(GrowAll(l, rows))
    ensures GrowAll(l, rows).out_count == l.out_count && GrowAll(l, rows).max_history == l.max_history && GrowAll(l, rows).offset == l.offset
    ensures Shows(GrowAll(l, rows), Extended(c, l.out_count, l.max_history, rows))
    decreases |rows|
  {
    hide Complete, Deficit, Grow, CanComplete;
    CompleteIsNoDeficit(l);
    if rows == [] {
      assert c.stream + Flat(rows) == c.stream;
    } else {
      var row, rest := rows[0], rows[1..];
      GrowProgress(l, row);
      GrowShows(l, c, row);
      GrowAllShows(Grow(l, row), Extended(c, l.out_count, l.max_history, [row]), rest);
      assert rows == [row] + rest;
      ExtendedOnce(c, l.out_count, l.max_history, row, rest);
    }
  }

  /** The window of a complete layout is the `out_count` entries of the stream at the cursor. */
  lemma WindowIsStream(l: Layout, c: Cursor)
    requires Started(l) && Shows(l, c) && Complete(l)
    ensures c.at + l.out_count <= |c.stream| && Window(l) == c.stream[c.at..c.at + l.out_count]
  {
    hide Start;
    FlatLength(l.history, l.out_count);
  }

  // ---- runs ----

  /** What preparing a move does while the files it shows exist: move, then draw what is missing. */
  ghost predicate Step(l: Layout, m: Move, rows: seq<Row>, l': Layout)
    requires l.out_count > 0
  {
    Ensured(Moved(l, m), rows, l')
  }

  /** A step that is taken reaches its window, so it had room to. */
  lemma StepCanComplete(l: Layout, m: Move, rows: seq<Row>, l': Layout)
    requires Started(l) && Step(l, m, rows, l')
    ensures Started(Moved(l, m)) && CanComplete(Moved(l, m))
  {
    hide Moved, Complete;
    MovedShows(l, Here(l), m);
    if !CanComplete(Moved(l, m)) {
      NeverCompletes(Moved(l, m), rows);
    }
  }

  /** One step refines one step of the cursor, and shows exactly the entries at the new cursor,
      pruning or not. */
  lemma StepRefines(l: Layout, c: Cursor, m: Move, rows: seq<Row>, l': Layout)
    requires Started(l) && Shows(l, c) && Step(l, m, rows, l')
    ensures var c' := CursorStep(c, l.out_count, l.max_history, m, rows);
      && Started(l') && l'.out_count == l.out_count && l'.max_history == l.max_history && Shows(l', c')
      && c'.at + l.out_count <= |c'.stream| && Window(l') == c'.stream[c'.at..c'.at + l.out_count]
      && c.stream <= c'.stream
  {
    hide Moved, Complete, CanComplete;
    StepCanComplete(l, m, rows, l');
    MovedShows(l, c, m);
    GrowAllShows(Moved(l, m), c.(at := MovedAt(c, l.out_count, m)), rows);
    WindowIsStream(l', CursorStep(c, l.out_count, l.max_history, m, rows));
  }

  ghost predicate Run(layouts: seq<Layout>, moves: seq<Move>, draws: seq<seq<Row>>) {
    && |layouts| == |moves| + 1 && |draws| == |moves|
    && forall i | 0 <= i < |moves| :: layouts[i].out_count > 0 && Step(layouts[i], moves[i], draws[i], layouts[i + 1])
  }

  function CursorAfter(c: Cursor, n: nat, max: nat, moves: seq<Move>, draws: seq<seq<Row>>, k: nat): Cursor
    requires k <= |moves| == |draws|
  {
    if k == 0 then c else CursorStep(CursorAfter(c, n, max, moves, draws, k - 1), n, max, moves[k - 1], draws[k - 1])
  }

  /** Over every run of moves: there is one stream, only ever appended to, such that after every
      step the selection is exactly the entries at the cursor. */
  lemma {:induction false} RunRefines(layouts: seq<Layout>, moves: seq<Move>, draws: seq<seq<Row>>, c: Cursor, k: nat)
    requires Run(layouts, moves, draws) && k <= |moves|
    requires Started(layouts[0]) && Shows(layouts[0], c)
    ensures var n, max := layouts[0].out_count, layouts[0].max_history;
      var ck := CursorAfter(c, n, max, moves, draws, k);
      && Started(layouts[k]) && layouts[k].out_count == n && layouts[k].max_history == max && Shows(layouts[k], ck)
      && (k > 0 ==> ck.at + n <= |ck.stream| && Window(layouts[k]) == ck.stream[ck.at..ck.at + n])
  {
    hide Ensured, Window, Complete, Start;
    if k > 0 {
      RunRefines(layouts, moves, draws, c, k - 1);
      StepRefines(layouts[k - 1], CursorAfter(c, layouts[0].out_count, layouts[0].max_history, moves, draws, k - 1), moves[k - 1], draws[k - 1], layouts[k]);
    }
  }

  lemma {:induction false} StreamGrows(c: Cursor, n: nat, max: nat, moves: seq<Move>, draws: seq<seq<Row>>, i: nat, k: nat)
    requires i <= k <= |moves| == |draws|
    ensures CursorAfter(c, n, max, moves, draws, i).stream <= CursorAfter(c, n, max, moves, draws, k).stream
    decreases k
  {
    if i < k {
      StreamGrows(c, n, max, moves, draws, i, k - 1);
    }
  }

  /** All selections of a run are windows of its final stream. */
  lemma SelectionsOfOneStream(layouts: seq<Layout>, moves: seq<Move>, draws: seq<seq<Row>>, c: Cursor, k: nat)
    requires Run(layouts, moves, draws) && 0 < k <= |moves|
    requires Started(layouts[0]) && Shows(layouts[0], c)
    ensures var n, max := layouts[0].out_count, layouts[0].max_history;
      var stream, at := CursorAfter(c, n, max, moves, draws, |moves|).stream, CursorAfter(c, n, max, moves, draws, k).at;
      at + n <= |stream| && Window(layouts[k]) == stream[at..at + n]
  {
    RunRefines(layouts, moves, draws, c, k);
    StreamGrows(c, layouts[0].out_count, layouts[0].max_history, moves, draws, k, |moves|);
  }

  // ---- undoing ----

  /** The cursor of any layout: its own history as the stream. */
  function Here(l: Layout): Cursor { Cursor(Flat(l.history), 0, Start(l)) }

  lemma HereShows(l: Layout)
    ensures Shows(l, Here(l))
  {}

  /** Rows up to the end of the window a forward move leads to. */
  function RowsNeeded(l: Layout, m: Move): nat
    requires l.out_count > 0
  {
    Moved(l, m).idx + (if Moved(l, m).offset > 0 then 1 else 0)
  }

  /** The window that was left is still retained after a forward move: the history already reached the
      next window, or there is room for the rows of both. */
  predicate CanReturn(l: Layout, m: Move)
    requires l.out_count > 0 && l.idx > 0
  {
    |l.history| >= RowsNeeded(l, m) || l.max_history + l.idx >= RowsNeeded(l, m) + 1
  }

  /** After Next these are the rows of the two windows: two, or three across a row boundary. */
  lemma CanReturnFromNext(l: Layout)
    requires Started(l)
    ensures var crossing := if l.offset > 0 then 1 else 0;
      CanReturn(l, Next) <==> |l.history| >= l.idx + 1 + crossing || l.max_history >= 2 + crossing
  {}

  lemma CanReturnFromShift(l: Layout)
    requires Started(l)
    ensures CanReturn(l, ShiftForward) <==> |l.history| >= l.idx + 1 || l.max_history >= 2
  {}

  /** A forward move leaves the start of its window retained exactly when it can return. */
  lemma StartRetained(l: Layout, m: Move, rows: seq<Row>, l': Layout)
    requires Started(l) && Step(l, m, rows, l') && (m == Next || m == ShiftForward)
    ensures CursorStep(Here(l), l.out_count, l.max_history, m, rows).base <= Start(l) <==> CanReturn(l, m)
  {
    hide Moved, Complete, Ensured, CursorStep;
    BaseAfter(l, m, rows);
    DrawnRows(l, m, rows, l');
    if rows != [] {
      BaseInRows(l, m, rows);
      RowsKept(RowsNeeded(l, m), l.max_history, l.idx, l.out_count, l.offset);
    }
  }

  lemma BaseAfter(l: Layout, m: Move, rows: seq<Row>)
    requires l.out_count > 0
    ensures CursorStep(Here(l), l.out_count, l.max_history, m, rows).base
      == if rows == [] then 0 else Monus(|Flat(l.history)| + |Flat(rows)|, l.max_history * l.out_count)
  {}

  lemma BaseInRows(l: Layout, m: Move, rows: seq<Row>)
    requires Started(l) && Rows(rows, l.out_count)
    ensures |Flat(l.history)| + |Flat(rows)| == (|l.history| + |rows|) * l.out_count
  {
    FlatLength(l.history, l.out_count);
    FlatLength(rows, l.out_count);
    assert (|l.history| + |rows|) * l.out_count == |l.history| * l.out_count + |rows| * l.out_count;
  }

  /** A step draws exactly up to the end of the window it leads to. */
  lemma DrawnRows(l: Layout, m: Move, rows: seq<Row>, l': Layout)
    requires Started(l) && Step(l, m, rows, l')
    ensures Rows(rows, l.out_count) && |rows| == Monus(RowsNeeded(l, m), |l.history|)
  {
    hide Complete, GrowAll;
  }

  lemma RowsKept(rows: nat, max: nat, idx: nat, n: nat, offset: nat)
    requires idx >= 1 && offset < n
    ensures Monus(rows * n, max * n) <= (idx - 1) * n + offset <==> rows <= max + idx - 1
  {
    assert (max + idx - 1) * n == max * n + (idx - 1) * n;
    if rows <= max + idx - 1 {
      MulMono(rows, max + idx - 1, n);
    } else {
      MulMono(max + idx, rows, n);
      assert (max + idx) * n == (max + idx - 1) * n + n;
    }
  }

  /** Where Back takes the cursor after Next: to where it was exactly when it can return. */
  lemma CursorReturns(l: Layout, rows: seq<Row>, l1: Layout)
    requires Started(l) && Step(l, Next, rows, l1)
    ensures MovedAt(CursorStep(Here(l), l.out_count, l.max_history, Next, rows), l.out_count, Back) == Start(l) <==> CanReturn(l, Next)
  {
    hide CanReturn, Start;
    StartRetained(l, Next, rows, l1);
  }

  /** Back after Next, for every layout: if it can return, it undoes Next, draws nothing and shows the
      former window; if it cannot, it does not move at all. */
  lemma BackUndoesNext(l: Layout, rows: seq<Row>, l1: Layout, rows': seq<Row>, l2: Layout)
    requires Started(l) && Step(l, Next, rows, l1) && l1.out_count > 0 && Step(l1, Back, rows', l2)
    ensures var c1 := CursorStep(Here(l), l.out_count, l.max_history, Next, rows);
      var c2 := CursorStep(c1, l.out_count, l.max_history, Back, rows');
      Shows(l2, c2) && (c2.at == Start(l) <==> CanReturn(l, Next))
    ensures rows' == []
    ensures CanReturn(l, Next) && Complete(l) ==> Window(l2) == Window(l)
    ensures !CanReturn(l, Next) ==> l2 == l1
  {
    hide Ensured, Complete, Start, Moved, Window, CanReturn;
    HereShows(l);
    StepRefines(l, Here(l), Next, rows, l1);
    var c := CursorStep(Here(l), l.out_count, l.max_history, Next, rows);
    StepRefines(l1, c, Back, rows', l2);
    CursorReturns(l, rows, l1);
    UndoDrawsNothing(l1, c, Back, rows', l2);
    if CanReturn(l, Next) {
      if Complete(l) {
        WindowIsStream(l, Here(l));
      }
    } else {
      StaysPut(l1, c, rows', l2);
    }
  }

  /** A Back that may not move the cursor leaves the layout as it is. */
  lemma StaysPut(l: Layout, c: Cursor, rows: seq<Row>, l': Layout)
    requires Started(l) && Shows(l, c) && c.at < c.base + l.out_count && Step(l, Back, rows, l') && rows == []
    ensures l' == l
  {
    if l.idx > 1 {
      MulMono(1, l.idx - 1, l.out_count);
    }
  }

  /** A backward move that finds its target retained draws nothing and shows the stream there. */
  lemma UndoDrawsNothing(l: Layout, c: Cursor, m: Move, rows: seq<Row>, l': Layout)
    requires Started(l) && Shows(l, c) && Step(l, m, rows, l')
    requires MovedAt(c, l.out_count, m) + l.out_count <= |c.stream|
    ensures rows == [] && Window(l') == c.stream[MovedAt(c, l.out_count, m)..MovedAt(c, l.out_count, m) + l.out_count]
  {
    hide Moved, Start;
    MovedShows(l, c, m);
    FlatLength(l.history, l.out_count);
    CompleteIsNoDeficit(Moved(l, m));
    StepRefines(l, c, m, rows, l');
  }

  /** ShiftBack after ShiftForward: it undoes it exactly when it can return; else it does not move. */
  lemma ShiftBackUndoesShiftForward(l: Layout, rows: seq<Row>, l1: Layout, rows': seq<Row>, l2: Layout)
    requires Started(l) && Step(l, ShiftForward, rows, l1) && l1.out_count > 0 && Step(l1, ShiftBack, rows', l2)
    ensures var c1 := CursorStep(Here(l), l.out_count, l.max_history, ShiftForward, rows);
      var c2 := CursorStep(c1, l.out_count, l.max_history, ShiftBack, rows');
      Shows(l2, c2) && (c2.at == Start(l) <==> CanReturn(l, ShiftForward))
    ensures rows' == []
    ensures CanReturn(l, ShiftForward) && Complete(l) ==> Window(l2) == Window(l)
    ensures !CanReturn(l, ShiftForward) ==> l2 == l1
  {
    hide Ensured, Complete, Start, Moved, Window, CanReturn;
    HereShows(l);
    StepRefines(l, Here(l), ShiftForward, rows, l1);
    var c := CursorStep(Here(l), l.out_count, l.max_history, ShiftForward, rows);
    StepRefines(l1, c, ShiftBack, rows', l2);
    StartRetained(l, ShiftForward, rows, l1);
    UndoDrawsNothing(l1, c, ShiftBack, rows', l2);
    if CanReturn(l, ShiftForward) {
      if Complete(l) {
        WindowIsStream(l, Here(l));
      }
    } else {
      ShiftStaysPut(l1, c, rows', l2);
    }
  }

  lemma ShiftStaysPut(l: Layout, c: Cursor, rows: seq<Row>, l': Layout)
    requires Started(l) && Shows(l, c) && c.at <= c.base && Step(l, ShiftBack, rows, l') && rows == []
    ensures l' == l
  {
    if l.idx > 1 {
      MulMono(1, l.idx - 1, l.out_count);
    }
  }

  /** `Next` undoes a `Back` that moved. */
  lemma NextUndoesBack(l: Layout, rows: seq<Row>, l1: Layout, rows': seq<Row>, l2: Layout)
    requires Started(l) && Complete(l) && l.idx > 1
    requires Step(l, Back, rows, l1) && l1.out_count > 0 && Step(l1, Next, rows', l2)
    ensures Window(l2) == Window(l) && rows == [] && rows' == []
  {
    hide Complete;
    HereShows(l);
    WindowIsStream(l, Here(l));
    MulMono(1, l.idx - 1, l.out_count);
    UndoDrawsNothing(l, Here(l), Back, rows, l1);
    StepRefines(l, Here(l), Back, rows, l1);
    var c := CursorStep(Here(l), l.out_count, l.max_history, Back, rows);
    assert c.stream == Here(l).stream;
    UndoDrawsNothing(l1, c, Next, rows', l2);
  }

  /** With room for two rows only, `Back` does not undo `Next` from a window across two rows. */
  lemma BackDoesNotUndoNextAtTwo()
    ensures
      var l := Layout(2, 2, [["a", "b"], ["c", "d"]], 1, 1);
      var l1 := Layout(2, 2, [["c", "d"], ["e", "f"]], 1, 1);
      && Started(l) && Complete(l) && Step(l, Next, [["e", "f"]], l1) && Step(l1, Back, [], Moved(l1, Back))
      && Window(l) == ["b", "c"] && Window(Moved(l1, Back)) == ["d", "e"] && !CanReturn(l, Next)
  {
    BackMissesAtTwo("a", "b", "c", "d", "e", "f");
  }

  lemma BackMissesAtTwo(a: string, b: string, c: string, d: string, e: string, f: string)
    ensures
      var l := Layout(2, 2, [[a, b], [c, d]], 1, 1);
      var l1 := Layout(2, 2, [[c, d], [e, f]], 1, 1);
      && Started(l) && Complete(l) && Step(l, Next, [[e, f]], l1) && Step(l1, Back, [], Moved(l1, Back))
      && Window(l) == [b, c] && Window(Moved(l1, Back)) == [d, e] && !CanReturn(l, Next)
  {
    var l, l1 := Layout(2, 2, [[a, b], [c, d]], 1, 1), Layout(2, 2, [[c, d], [e, f]], 1, 1);
    OneGrow(Moved(l, Next), [e, f]);
    assert l.history + [[e, f]] == [[a, b], [c, d], [e, f]];
    assert Grow(Moved(l, Next), [e, f]) == l1;
    NoGrow(Moved(l1, Back));
    hide GrowAll, Window;
    MiddleWindow(l, a, b, c, d);
    MiddleWindow(Moved(l1, Back), c, d, e, f);
  }

  lemma MiddleWindow(l: Layout, a: string, b: string, c: string, d: string)
    requires l == Layout(2, l.max_history, [[a, b], [c, d]], 1, 1)
    ensures Window(l) == [b, c]
  {
    hide Flat;
    FlatTwo([a, b], [c, d]);
    assert [a, b] + [c, d] == [a, b, c, d];
  }

  lemma OneGrow(l: Layout, row: Row)
    ensures GrowAll(l, [row]) == Grow(l, row)
  {
    NoGrow(Grow(l, row));
    assert [row][1..] == [];
  }

  lemma NoGrow(l: Layout)
    ensures GrowAll(l, []) == l
  {}

  lemma FlatTwo(a: Row, b: Row)
    ensures Flat([a, b]) == a + b
  {
    FlatOne(b);
    assert [a, b][1..] == [b];
  }

  /** `n` shifts forward move the cursor as far as `Next`, and show the same entries of the stream. */
  lemma {:induction false} ShiftsReachNext(layouts: seq<Layout>, moves: seq<Move>, draws: seq<seq<Row>>, c: Cursor, k: nat)
    requires Run(layouts, moves, draws) && k <= |moves| && forall i | 0 <= i < |moves| :: moves[i] == ShiftForward
    requires Started(layouts[0]) && Shows(layouts[0], c)
    ensures CursorAfter(c, layouts[0].out_count, layouts[0].max_history, moves, draws, k).at == c.at + k
  {
    if k > 0 {
      ShiftsReachNext(layouts, moves, draws, c, k - 1);
    }
  }

  /** All rows drawn in a run. */
  function AllDrawn(draws: seq<seq<Row>>, k: nat): seq<Row>
    requires k <= |draws|
  {
    if k == 0 then [] else AllDrawn(draws, k - 1) + draws[k - 1]
  }

  lemma {:induction false} StreamOfRun(c: Cursor, n: nat, max: nat, moves: seq<Move>, draws: seq<seq<Row>>, k: nat)
    requires k <= |moves| == |draws|
    ensures CursorAfter(c, n, max, moves, draws, k).stream == c.stream + Flat(AllDrawn(draws, k))
  {
    if k == 0 {
      assert c.stream + Flat([]) == c.stream;
    } else {
      StreamOfRun(c, n, max, moves, draws, k - 1);
      FlatAppend(AllDrawn(draws, k - 1), draws[k - 1]);
      assert (c.stream + Flat(AllDrawn(draws, k - 1))) + Flat(draws[k - 1]) == c.stream + (Flat(AllDrawn(draws, k - 1)) + Flat(draws[k - 1]));
    }
  }

  /** The cursors after the shifts and after `Next` are the same, and so is what both have drawn. */
  lemma ShiftsMeetNext(layouts: seq<Layout>, moves: seq<Move>, draws: seq<seq<Row>>, c: Cursor, n: nat, max: nat, rows: seq<Row>)
    requires Run(layouts, moves, draws) && forall i | 0 <= i < |moves| :: moves[i] == ShiftForward
    requires |moves| == n && (rows == [] || AllDrawn(draws, n) == rows)
    ensures var next := CursorStep(c, n, max, Next, rows).stream;
      next <= CursorAfter(c, n, max, moves, draws, n).stream && CursorStep(c, n, max, Next, rows).at == c.at + n
  {
    hide CursorAfter;
    if rows == [] {
      assert CursorStep(c, n, max, Next, rows).stream == c.stream;
      StreamGrows(c, n, max, moves, draws, 0, n);
      AfterNothing(c, n, max, moves, draws);
    } else {
      StreamOfRun(c, n, max, moves, draws, n);
    }
  }

  lemma AfterNothing(c: Cursor, n: nat, max: nat, moves: seq<Move>, draws: seq<seq<Row>>)
    requires |moves| == |draws|
    ensures CursorAfter(c, n, max, moves, draws, 0) == c
  {}

  /** What the last of `n` shifts shows: a slice of the stream after them. */
  lemma Shifted(layouts: seq<Layout>, moves: seq<Move>, draws: seq<seq<Row>>, c: Cursor) returns (stream: seq<string>)
    requires Run(layouts, moves, draws) && forall i | 0 <= i < |moves| :: moves[i] == ShiftForward
    requires Started(layouts[0]) && Shows(layouts[0], c) && |moves| == layouts[0].out_count
    ensures stream == CursorAfter(c, |moves|, layouts[0].max_history, moves, draws, |moves|).stream
    ensures c.at + |moves| + |moves| <= |stream| && Window(layouts[|moves|]) == stream[c.at + |moves|..c.at + |moves| + |moves|]
  {
    hide Window, Start, CursorStep, CursorAfter, Shows;
    ShiftsReachNext(layouts, moves, draws, c, |moves|);
    RunRefines(layouts, moves, draws, c, |moves|);
    stream := CursorAfter(c, |moves|, layouts[0].max_history, moves, draws, |moves|).stream;
  }

  /** What `Next` shows: a slice of the stream after it. */
  lemma Nexted(l: Layout, c: Cursor, rows: seq<Row>, l': Layout) returns (stream: seq<string>)
    requires Started(l) && Shows(l, c) && Step(l, Next, rows, l')
    ensures stream == CursorStep(c, l.out_count, l.max_history, Next, rows).stream
    ensures c.at + l.out_count + l.out_count <= |stream| && Window(l') == stream[c.at + l.out_count..c.at + l.out_count + l.out_count]
  {
    hide Window, Start, Shows, Step;
    StepRefines(l, c, Next, rows, l');
    stream := CursorStep(c, l.out_count, l.max_history, Next, rows).stream;
  }

  /** `out_count` shifts and one `Next` that draw the same rows show the same selection; if the next
      window already exists, nothing needs to be drawn and they always do. */
  lemma ShiftsEqualNext(layouts: seq<Layout>, moves: seq<Move>, draws: seq<seq<Row>>, rows: seq<Row>, l': Layout)
    requires Run(layouts, moves, draws) && forall i | 0 <= i < |moves| :: moves[i] == ShiftForward
    requires Started(layouts[0]) && |moves| == layouts[0].out_count
    requires Step(layouts[0], Next, rows, l') && (rows == [] || AllDrawn(draws, |draws|) == rows)
    ensures Window(layouts[|moves|]) == Window(l')
  {
    hide Run, Step, Window, Started, Start, CursorStep, CursorAfter, AllDrawn, Shows, Here;
    RunLengths(layouts, moves, draws);
    var c, n := Here(layouts[0]), |moves|;
    HereShows(layouts[0]);
    var shifted := Shifted(layouts, moves, draws, c);
    var next := Nexted(layouts[0], c, rows, l');
    ShiftsMeetNext(layouts, moves, draws, c, n, layouts[0].max_history, rows);
    SamePlace(Window(layouts[n]), Window(l'), shifted, next, c.at + n, c.at + n + n);
  }

  lemma RunLengths(layouts: seq<Layout>, moves: seq<Move>, draws: seq<seq<Row>>)
    requires Run(layouts, moves, draws)
    ensures |draws| == |moves| && |layouts| == |moves| + 1
  {}

  /** The same slice of a stream and of what it begins with. */
  lemma SamePlace(w: seq<string>, w': seq<string>, stream: seq<string>, begins: seq<string>, from: nat, to: nat)
    requires begins <= stream && from <= to <= |begins|
    requires w == stream[from..to] && w' == begins[from..to]
    ensures w == w'
  {}

  // ---- replacing ----

  /** A recorded selection is the window at the cursor, and ends the history. */
  lemma RecordShows(l: Layout, selection: Row)
    requires l.out_count > 0 && l.max_history > 0 && Rows(l.history, l.out_count) && |selection| == l.out_count
    ensures var r := Record(l, selection);
      && Started(r) && Complete(r) && Window(r) == selection && r.idx == |r.history|
      && r.history[|r.history| - 1] == selection
  {
    hide Record, Complete;
    var r := Record(l, selection);
    RecordedRows(l, selection);
    var init := r.history[..|r.history| - 1];
    assert r.history == init + [selection];
    FlatAppend(init, [selection]);
    FlatOne(selection);
    FlatLength(init, l.out_count);
    assert Start(r) == |Flat(init)|;
    CompleteIsNoDeficit(r);
  }

  /** Recording forgets what followed the cursor and, beyond the room there is, the oldest rows; nothing else. */
  lemma RecordKeeps(l: Layout, selection: Row)
    requires l.max_history > 0
    ensures var all, kept := l.history[..Min(l.idx, |l.history|)] + [selection], Record(l, selection).history;
      |kept| == Min(|all|, l.max_history) && kept == all[|all| - |kept|..]
  {}

  lemma RecordedRows(l: Layout, selection: Row)
    requires l.out_count > 0 && l.max_history > 0 && Rows(l.history, l.out_count) && |selection| == l.out_count
    ensures var r := Record(l, selection);
      && r.out_count == l.out_count && r.max_history == l.max_history && r.offset == 0
      && Rows(r.history, l.out_count) && |r.history| > 0 && r.idx == |r.history| && r.history[|r.history| - 1] == selection
  {
    var kept := Trim(l).history;
    var pushed := kept + [selection];
    assert Rows(kept, l.out_count);
    assert Rows(pushed, l.out_count);
    var drop := Monus(|pushed|, l.max_history);
    assert Rows(pushed[drop..], l.out_count) && pushed[drop..][|pushed| - drop - 1] == selection;
    assert pushed[0..] == pushed;
  }

  /** Replacing the row at the cursor, on a row boundary. */
  lemma RowHealedShows(l: Layout, healed: Row)
    requires Started(l) && |healed| == l.out_count && l.offset == 0 && 1 <= l.idx <= |l.history|
    ensures var h := l.(history := l.history[l.idx - 1 := healed]); Started(h) && Complete(h) && Window(h) == healed
  {
    var r, n := l.(history := l.history[l.idx - 1 := healed]), l.out_count;
    var before, after := r.history[..l.idx - 1], r.history[l.idx..];
    assert r.history == before + ([healed] + after);
    FlatAppend(before, [healed] + after);
    FlatAppend([healed], after);
    FlatOne(healed);
    FlatLength(before, n);
    FlatLength(r.history, n);
    MulMono(l.idx, |l.history|, n);
    assert Start(r) == |Flat(before)|;
    assert Flat(r.history)[|Flat(before)|..|Flat(before)| + n] == healed;
  }

  /** A healed selection is the window at the cursor. */
  lemma HealedShows(l: Layout, healed: Row)
    requires Started(l) && |healed| == l.out_count
    ensures Started(Healed(l, healed)) && Complete(Healed(l, healed)) && Window(Healed(l, healed)) == healed
    ensures l.offset == 0 && l.idx <= |l.history| ==>
      var h := Healed(l, healed);
      |h.history| == |l.history| && h.idx == l.idx && forall i | 0 <= i < |l.history| && i != l.idx - 1 :: h.history[i] == l.history[i]
    ensures l.offset > 0 || l.idx > |l.history| ==>
      var all, kept := l.history[..Min(l.idx, |l.history|)] + [healed], Healed(l, healed).history;
      |kept| == Min(|all|, l.max_history) && kept == all[|all| - |kept|..]
  {
    hide Record, Complete, Window;
    if l.offset == 0 && 1 <= l.idx <= |l.history| {
      RowHealedShows(l, healed);
    } else {
      RecordShows(l, healed);
      RecordKeeps(l, healed);
    }
  }
}
