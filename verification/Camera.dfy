/** The camera of a world transition: zoom out from the start cell to an overview, pan, and zoom
    in on the target cell. Coordinates are exact reals. */
module Camera {
  import opened Prelude
  import opened WorldGrid
  import opened WorldPyramid
  import opened WorldRoute

  // ---- easing ----

  datatype Easing = Linear | EaseOutCubic | EaseInOutCubic

  function Clamp(x: real, lo: real, hi: real): (r: real)
    requires lo <= hi
    ensures lo <= r <= hi
    ensures lo <= x <= hi ==> r == x
  {
    if x < lo then lo else if x > hi then hi else x
  }

  function Cube(x: real): real { x * x * x }

  function EasedProgress(progress: real, easing: Easing): real {
    var t := Clamp(progress, 0.0, 1.0);
    match easing
    case Linear => t
    case EaseOutCubic => 1.0 - Cube(1.0 - t)
    case EaseInOutCubic => if t < 0.5 then 4.0 * Cube(t) else 1.0 - Cube(-2.0 * t + 2.0) / 2.0
  }

  lemma ProductNonNegative(a: real, b: real)
    requires 0.0 <= a && 0.0 <= b
    ensures 0.0 <= a * b
  {}

  lemma ProductMono(a: real, b: real, c: real, d: real)
    requires 0.0 <= a <= b && 0.0 <= c <= d
    ensures a * c <= b * d
  {
    assert b * d - a * c == (b - a) * d + a * (d - c);
    ProductNonNegative(b - a, d);
    ProductNonNegative(a, d - c);
  }

  lemma CubeMono(a: real, b: real)
    requires 0.0 <= a <= b
    ensures 0.0 <= Cube(a) <= Cube(b)
  {
    ProductMono(a, b, a, b);
    ProductMono(a * a, b * b, a, b);
    ProductNonNegative(a, a);
    ProductNonNegative(a * a, a);
  }

  lemma CubeValues()
    ensures Cube(0.0) == 0.0 && Cube(0.5) == 0.125 && Cube(1.0) == 1.0
  {}

  /** Easing never moves backwards, whatever the progress values. */
  lemma EasedMonotone(p: real, q: real, easing: Easing)
    requires p <= q
    ensures EasedProgress(p, easing) <= EasedProgress(q, easing)
  {
    hide Cube;
    var t, u := Clamp(p, 0.0, 1.0), Clamp(q, 0.0, 1.0);
    match easing
    case Linear =>
    case EaseOutCubic => CubeMono(1.0 - u, 1.0 - t);
    case EaseInOutCubic =>
      if u < 0.5 {
        CubeMono(t, u);
      } else if t < 0.5 {
        CubeMono(t, 0.5);
        CubeMono(-2.0 * u + 2.0, 1.0);
        CubeValues();
      } else {
        CubeMono(-2.0 * u + 2.0, -2.0 * t + 2.0);
      }
  }

  /** The eased value runs from 0 to 1. */
  lemma EasedRange(p: real, easing: Easing)
    ensures 0.0 <= EasedProgress(p, easing) <= 1.0
    ensures p <= 0.0 ==> EasedProgress(p, easing) == 0.0
    ensures p >= 1.0 ==> EasedProgress(p, easing) == 1.0
  {
    hide Cube;
    EasedMonotone(RMin(p, 0.0), p, easing);
    EasedMonotone(p, RMax(p, 1.0), easing);
    CubeValues();
  }

  // ---- path and view ----

  function CellRect(c: WorldCell): Rect { Rect(c.column as real, c.row as real, 1.0, 1.0) }

  function ClampWorldRect(rect: Rect, l: WorldLayout): Rect {
    var max_width, max_height := Max(l.columns, 1) as real, Max(l.rows, 1) as real;
    var width, height := Clamp(rect.width, 1.0, max_width), Clamp(rect.height, 1.0, max_height);
    Rect(Clamp(rect.x, 0.0, max_width - width), Clamp(rect.y, 0.0, max_height - height), width, height)
  }

  datatype CameraPath = CameraPath(start: Rect, overview: Rect, target: Rect)

  function CameraPathOf(l: WorldLayout, a: nat, b: nat, margin_cells: real): Option<CameraPath>
    requires l.columns > 0
  {
    match (l.Cell(a), l.Cell(b))
    case (Some(start_cell), Some(target_cell)) =>
      (var start, target := CellRect(start_cell), CellRect(target_cell);
       var margin := RMax(margin_cells, 0.0);
       var min_x := RMin(start.x, target.x) - margin;
       var max_x := RMax(start.x + start.width, target.x + target.width) + margin;
       var min_y := RMin(start.y, target.y) - margin;
       var max_y := RMax(start.y + start.height, target.y + target.height) + margin;
       Some(CameraPath(start, ClampWorldRect(Rect(min_x, min_y, max_x - min_x, max_y - min_y), l), target)))
    case _ => None
  }

  function Lerp(from: real, to: real, t: real): real { from + (to - from) * t }

  function InterpolateRect(from: Rect, to: Rect, progress: real): Rect {
    var t := Clamp(progress, 0.0, 1.0);
    Rect(Lerp(from.x, to.x, t), Lerp(from.y, to.y, t), Lerp(from.width, to.width, t), Lerp(from.height, to.height, t))
  }

  function CameraView(path: CameraPath, progress: real, easing: Easing): Rect {
    var eased := EasedProgress(progress, easing);
    if eased <= 0.5 then InterpolateRect(path.start, path.overview, eased / 0.5)
    else InterpolateRect(path.overview, path.target, (eased - 0.5) / 0.5)
  }

  // ---- the view stays inside ----

  predicate Inside(inner: Rect, outer: Rect) {
    && outer.x <= inner.x && inner.x + inner.width <= outer.x + outer.width
    && outer.y <= inner.y && inner.y + inner.height <= outer.y + outer.height
  }

  function World(l: WorldLayout): Rect { Rect(0.0, 0.0, l.columns as real, l.rows as real) }

  lemma LerpBetween(a: real, b: real, t: real)
    requires 0.0 <= t <= 1.0
    ensures RMin(a, b) <= Lerp(a, b, t) <= RMax(a, b)
  {
    if a <= b {
      ProductMono(0.0, b - a, 0.0, t);
      ProductMono(b - a, b - a, t, 1.0);
    } else {
      ProductMono(0.0, a - b, 0.0, t);
      ProductMono(a - b, a - b, t, 1.0);
      assert (b - a) * t == -((a - b) * t);
    }
  }

  lemma LerpSum(a: real, b: real, c: real, d: real, t: real)
    ensures Lerp(a, b, t) + Lerp(c, d, t) == Lerp(a + c, b + d, t)
  {}

  lemma SpanBetween(x: real, w: real, x': real, w': real, t: real)
    requires 0.0 <= t <= 1.0 && x' <= x && x + w <= x' + w'
    ensures x' <= Lerp(x, x', t) <= x && x + w <= Lerp(x, x', t) + Lerp(w, w', t) <= x' + w'
    ensures x' <= Lerp(x', x, t) <= x && x + w <= Lerp(x', x, t) + Lerp(w', w, t) <= x' + w'
  {
    hide Lerp;
    LerpBetween(x, x', t);
    LerpBetween(x', x, t);
    LerpSum(x, x', w, w', t);
    LerpSum(x', x, w', w, t);
    LerpBetween(x + w, x' + w', t);
    LerpBetween(x' + w', x + w, t);
  }

  /** Between a rectangle and one around it, every view contains the first and lies in the second. */
  lemma InterpolationNests(inner: Rect, outer: Rect, progress: real)
    requires Inside(inner, outer)
    ensures Inside(inner, InterpolateRect(inner, outer, progress)) && Inside(InterpolateRect(inner, outer, progress), outer)
    ensures Inside(inner, InterpolateRect(outer, inner, progress)) && Inside(InterpolateRect(outer, inner, progress), outer)
  {
    hide Lerp;
    var t := Clamp(progress, 0.0, 1.0);
    SpanBetween(inner.x, inner.width, outer.x, outer.width, t);
    SpanBetween(inner.y, inner.height, outer.y, outer.height, t);
  }

  // ---- one axis of the overview ----

  /** The margin box of cells `lo..hi` runs from `From` to `To`; clamping moves it to `At`, `Wide` wide. */
  function From(lo: nat, margin: real): real { lo as real - RMax(margin, 0.0) }
  function To(hi: nat, margin: real): real { hi as real + 1.0 + RMax(margin, 0.0) }
  function Wide(lo: nat, hi: nat, margin: real, length: nat): real
    requires length >= 1
  {
    Clamp(To(hi, margin) - From(lo, margin), 1.0, length as real)
  }
  function At(lo: nat, hi: nat, margin: real, length: nat): real
    requires length >= 1
  {
    Clamp(From(lo, margin), 0.0, length as real - Wide(lo, hi, margin, length))
  }

  lemma OverviewAxes(l: WorldLayout, a: nat, b: nat, margin: real)
    requires l.Valid() && a < l.entry_count && b < l.entry_count
    ensures CameraPathOf(l, a, b, margin).Some? && l.rows >= 1
    ensures var path, s, t := CameraPathOf(l, a, b, margin).value, l.Cell(a).value, l.Cell(b).value;
      && path.start == CellRect(s) && path.target == CellRect(t)
      && path.overview == Rect(At(Min(s.column, t.column), Max(s.column, t.column), margin, l.columns),
                               At(Min(s.row, t.row), Max(s.row, t.row), margin, l.rows),
                               Wide(Min(s.column, t.column), Max(s.column, t.column), margin, l.columns),
                               Wide(Min(s.row, t.row), Max(s.row, t.row), margin, l.rows))
  {
    hide Div, Mod, DivCeil, Clamp, Min, Max, RMin, RMax, At, Wide;
    CellInGrid(l, a);
    CellInGrid(l, b);
    var s, t := l.Cell(a).value, l.Cell(b).value;
    AxisOf(s.column, t.column, margin, l.columns);
    AxisOf(s.row, t.row, margin, l.rows);
  }

  /** One axis of the path's overview, as the path computes it. */
  lemma AxisOf(s: nat, t: nat, margin: real, length: nat)
    requires length >= 1
    ensures var from := RMin(s as real, t as real) - RMax(margin, 0.0);
      var to := RMax(s as real + 1.0, t as real + 1.0) + RMax(margin, 0.0);
      && Clamp(to - from, 1.0, Max(length, 1) as real) == Wide(Min(s, t), Max(s, t), margin, length)
      && Clamp(from, 0.0, Max(length, 1) as real - Wide(Min(s, t), Max(s, t), margin, length)) == At(Min(s, t), Max(s, t), margin, length)
  {
    hide Clamp, Min, Max, RMin, RMax;
    ExtremesAsReal(s, t);
    ExtremesAsReal(length, 1);
  }

  lemma ExtremesAsReal(a: nat, b: nat)
    ensures RMin(a as real, b as real) == Min(a, b) as real && RMax(a as real + 1.0, b as real + 1.0) == Max(a, b) as real + 1.0
    ensures b <= a ==> Max(a, b) == a
  {}

  /** Clamping a span that holds a cell of the world keeps the cell and stays in the world. */
  lemma ClampKeepsCell(lo: nat, hi: nat, margin: real, length: nat, c: nat)
    requires lo <= c <= hi < length
    ensures var at, wide := At(lo, hi, margin, length), Wide(lo, hi, margin, length);
      0.0 <= at <= c as real && c as real + 1.0 <= at + wide <= length as real
  {}

  lemma OverviewHolds(l: WorldLayout, a: nat, b: nat, margin: real)
    requires l.Valid() && a < l.entry_count && b < l.entry_count
    ensures CameraPathOf(l, a, b, margin).Some?
    ensures var path := CameraPathOf(l, a, b, margin).value;
      Inside(path.start, path.overview) && Inside(path.target, path.overview) && Inside(path.overview, World(l))
  {
    hide Div, Mod, DivCeil, At, Wide, CameraPathOf;
    CellInGrid(l, a);
    CellInGrid(l, b);
    OverviewAxes(l, a, b, margin);
    var s, t := l.Cell(a).value, l.Cell(b).value;
    ClampKeepsCell(Min(s.column, t.column), Max(s.column, t.column), margin, l.columns, s.column);
    ClampKeepsCell(Min(s.column, t.column), Max(s.column, t.column), margin, l.columns, t.column);
    ClampKeepsCell(Min(s.row, t.row), Max(s.row, t.row), margin, l.rows, s.row);
    ClampKeepsCell(Min(s.row, t.row), Max(s.row, t.row), margin, l.rows, t.row);
  }

  /** At every progress, under every easing, the view lies in the overview and so in the world; in
      the first phase it shows the whole start cell, in the second the whole target cell. */
  lemma ViewInside(l: WorldLayout, a: nat, b: nat, margin: real, progress: real, easing: Easing)
    requires l.Valid() && a < l.entry_count && b < l.entry_count
    ensures CameraPathOf(l, a, b, margin).Some?
    ensures var path := CameraPathOf(l, a, b, margin).value;
      var view := CameraView(path, progress, easing);
      && Inside(view, path.overview) && Inside(view, World(l))
      && (EasedProgress(progress, easing) <= 0.5 ==> Inside(path.start, view))
      && (EasedProgress(progress, easing) >= 0.5 ==> Inside(path.target, view))
  {
    hide EasedProgress, CameraPathOf, InterpolateRect;
    OverviewHolds(l, a, b, margin);
    var path := CameraPathOf(l, a, b, margin).value;
    var eased := EasedProgress(progress, easing);
    InterpolationNests(path.start, path.overview, eased / 0.5);
    InterpolationNests(path.target, path.overview, (eased - 0.5) / 0.5);
    if eased == 0.5 {
      AtOverview(path);
    }
  }

  lemma AtOverview(path: CameraPath)
    ensures InterpolateRect(path.start, path.overview, 0.5 / 0.5) == path.overview
  {}

  /** Every path begins on the start cell and ends on the target cell. */
  lemma ViewEnds(path: CameraPath, progress: real, easing: Easing)
    ensures progress <= 0.0 ==> CameraView(path, progress, easing) == path.start
    ensures progress >= 1.0 ==> CameraView(path, progress, easing) == path.target
  {
    EasedRange(progress, easing);
  }

  // ---- how it moves ----

  lemma CubeBelow(x: real)
    requires 0.0 <= x <= 1.0
    ensures Cube(x) <= x
  {
    ProductNonNegative(x, x);
    ProductMono(x, 1.0, x, x);
    ProductMono(x * x, x * x, x, 1.0);
  }

  lemma CubeOfDouble(x: real)
    ensures Cube(2.0 * x) == 8.0 * Cube(x)
  {}

  /** Linear easing is the progress itself; the cubic ones are told apart by their shapes. Easing out
      is ahead all the way and has seven eighths behind it halfway; easing in and out is behind up to
      the middle, and the second half mirrors the first. */
  lemma EasedShapes(t: real)
    requires 0.0 <= t <= 1.0
    ensures EasedProgress(t, Linear) == t
    ensures EasedProgress(t, EaseOutCubic) >= t && EasedProgress(0.5, EaseOutCubic) == 0.875
    ensures EasedProgress(t, EaseInOutCubic) + EasedProgress(1.0 - t, EaseInOutCubic) == 1.0
    ensures t <= 0.5 ==> EasedProgress(t, EaseInOutCubic) <= t
    ensures EasedProgress(0.25, EaseInOutCubic) == 0.0625
  {
    hide Cube;
    CubeValues();
    CubeOfDouble(0.25);
    CubeBelow(1.0 - t);
    var u := if t < 0.5 then t else 1.0 - t;
    CubeOfDouble(u);
    CubeBelow(2.0 * u);
    assert t < 0.5 ==> -2.0 * (1.0 - t) + 2.0 == 2.0 * u;
    assert t >= 0.5 ==> -2.0 * t + 2.0 == 2.0 * u;
  }

  /** Each component of a rectangle. */
  function Component(r: Rect, k: nat): real { if k == 0 then r.x else if k == 1 then r.y else if k == 2 then r.width else r.height }

  lemma LerpStep(from: real, to: real, t: real, u: real)
    ensures Lerp(from, to, u) - Lerp(from, to, t) == (to - from) * (u - t)
    ensures Lerp(from, to, 0.0) == from && Lerp(from, to, 1.0) == to
  {}

  /** The view at an eased progress, from either half. */
  lemma ViewAt(path: CameraPath, p: real, easing: Easing, k: nat)
    ensures var e, view := EasedProgress(p, easing), Component(CameraView(path, p, easing), k);
      && (e <= 0.5 ==> view == Lerp(Component(path.start, k), Component(path.overview, k), 2.0 * e))
      && (e >= 0.5 ==> view == Lerp(Component(path.overview, k), Component(path.target, k), 2.0 * e - 1.0))
  {
    hide Lerp, EasedProgress;
    EasedRange(p, easing);
    LerpStep(Component(path.start, k), Component(path.overview, k), 0.0, 1.0);
    LerpStep(Component(path.overview, k), Component(path.target, k), 0.0, 1.0);
  }

  /** Within each half equal steps of the eased progress move and scale the view equally, and halfway
      the view is the overview, so it never jumps. */
  lemma ViewMovesEvenly(path: CameraPath, p: real, q: real, easing: Easing, k: nat)
    ensures var e, f := EasedProgress(p, easing), EasedProgress(q, easing);
      var step := Component(CameraView(path, q, easing), k) - Component(CameraView(path, p, easing), k);
      && (e == 0.5 ==> Component(CameraView(path, p, easing), k) == Component(path.overview, k))
      && (e <= 0.5 && f <= 0.5 ==> step == (Component(path.overview, k) - Component(path.start, k)) * (2.0 * f - 2.0 * e))
      && (0.5 <= e && 0.5 <= f ==> step == (Component(path.target, k) - Component(path.overview, k)) * (2.0 * f - 2.0 * e))
  {
    hide Lerp, EasedProgress, CameraView, Component;
    var e, f := EasedProgress(p, easing), EasedProgress(q, easing);
    ViewAt(path, p, easing, k);
    ViewAt(path, q, easing, k);
    var from, over, to := Component(path.start, k), Component(path.overview, k), Component(path.target, k);
    var r, z := 2.0 * e, 2.0 * f;
    LerpStep(from, over, r, z);
    var t, u := 2.0 * e - 1.0, 2.0 * f - 1.0;
    LerpStep(over, to, t, u);
    assert u - t == 2.0 * f - 2.0 * e;
    var v, w := Component(CameraView(path, p, easing), k), Component(CameraView(path, q, easing), k);
    if e <= 0.5 && f <= 0.5 {
      assert w == Lerp(from, over, z) && v == Lerp(from, over, r);
      assert w - v == (over - from) * (z - r);
    }
    if 0.5 <= e && 0.5 <= f {
      assert w == Lerp(over, to, u) && v == Lerp(over, to, t);
      assert w - v == (to - over) * (u - t);
      assert w - v == (to - over) * (2.0 * f - 2.0 * e);
    }
  }

  // ---- what the view shows is in the route's tiles ----

  predicate Overlaps(column: nat, row: nat, view: Rect) {
    && column as real < view.x + view.width && view.x < column as real + 1.0
    && row as real < view.y + view.height && view.y < row as real + 1.0
  }

  /** On one axis: the margin box lies in the world, or reaches over both its ends. */
  predicate FitsOrCovers(lo: nat, hi: nat, margin: real, length: nat) {
    || (lo as real - margin >= 0.0 && hi as real + 1.0 + margin <= length as real)
    || (lo as real - margin <= 0.0 && hi as real + 1.0 + margin >= length as real)
  }

  lemma AxisCovered(lo: nat, hi: nat, margin: real, length: nat, c: nat, x: real, w: real)
    requires lo <= hi < length && margin >= 0.0 && FitsOrCovers(lo, hi, margin, length) && c < length
    requires var at := At(lo, hi, margin, length); at <= x && x + w <= at + Wide(lo, hi, margin, length)
    requires c as real < x + w && x < c as real + 1.0
    ensures ClampFloor(From(lo, margin), length) <= c < ClampCeil(To(hi, margin), length)
  {}

  lemma RouteRangeAxes(l: WorldLayout, s: WorldCell, t: WorldCell, margin: real)
    requires s.column < l.columns && t.column < l.columns && s.row < l.rows && t.row < l.rows && l.entry_count > 0
    ensures VisibleRange(l, RouteRect(s, t), margin)
         == CellRange(ClampFloor(From(Min(s.column, t.column), margin), l.columns), ClampCeil(To(Max(s.column, t.column), margin), l.columns),
                      ClampFloor(From(Min(s.row, t.row), margin), l.rows), ClampCeil(To(Max(s.row, t.row), margin), l.rows))
  {
    hide ClampFloor, ClampCeil;
  }

  /** With any margin: when on each axis the margin box fits inside or covers the world, every cell
      that any view of the camera overlaps lies in a tile of the route. */
  lemma ViewCovered(l: WorldLayout, a: nat, b: nat, margin: real, tile_cells: nat, progress: real, easing: Easing, column: nat, row: nat)
    requires l.Valid() && a < l.entry_count && b < l.entry_count && margin >= 0.0 && tile_cells > 0
    requires var s, t := l.Cell(a).value, l.Cell(b).value;
      && FitsOrCovers(Min(s.column, t.column), Max(s.column, t.column), margin, l.columns)
      && FitsOrCovers(Min(s.row, t.row), Max(s.row, t.row), margin, l.rows)
    requires CameraPathOf(l, a, b, margin).Some?
    requires column < l.columns && row < l.rows && Overlaps(column, row, CameraView(CameraPathOf(l, a, b, margin).value, progress, easing))
    ensures WorldTile(Div(column, tile_cells), Div(row, tile_cells)) in RouteTiles(l, a, b, tile_cells, margin)
  {
    hide Div, Mod, DivCeil, CameraView, FitsOrCovers, ClampFloor, ClampCeil, RangeTiles, At, Wide, From, To, CameraPathOf, VisibleRange, EasedProgress;
    CellInGrid(l, a);
    CellInGrid(l, b);
    var s, t := l.Cell(a).value, l.Cell(b).value;
    var view := CameraView(CameraPathOf(l, a, b, margin).value, progress, easing);
    ViewInside(l, a, b, margin, progress, easing);
    OverviewAxes(l, a, b, margin);
    AxisCovered(Min(s.column, t.column), Max(s.column, t.column), margin, l.columns, column, view.x, view.width);
    AxisCovered(Min(s.row, t.row), Max(s.row, t.row), margin, l.rows, row, view.y, view.height);
    RouteRangeAxes(l, s, t, margin);
    RangeTileMeets(VisibleRange(l, RouteRect(s, t), margin), tile_cells, WorldTile(Div(column, tile_cells), Div(row, tile_cells)));
  }

  // ---- the margin of one cell the callers use ----

  /** The overview is pushed back by one cell from an edge of the world, and the cell it then shows
      beyond the margin box starts a tile the route does not need. */
  predicate Overhangs(lo: nat, hi: nat, length: nat, tile_cells: nat)
    requires tile_cells > 0
  {
    || (lo == 0 && hi + 2 < length && Mod(hi + 2, tile_cells) == 0)
    || (hi + 1 == length && lo > 1 && Mod(lo - 1, tile_cells) == 0)
  }

  /** The cells the overview overlaps on one axis. */
  function FirstSeen(lo: nat, hi: nat, length: nat): nat {
    if hi + 1 == length then Monus(lo, 2) else Monus(lo, 1)
  }
  function EndSeen(lo: nat, hi: nat, length: nat): nat {
    Min(if lo == 0 then hi + 3 else hi + 2, length)
  }

  lemma OverviewSees(lo: nat, hi: nat, length: nat, c: nat)
    requires lo <= hi < length && c < length
    ensures FirstSeen(lo, hi, length) <= c < EndSeen(lo, hi, length) <==>
      c as real < At(lo, hi, 1.0, length) + Wide(lo, hi, 1.0, length) && At(lo, hi, 1.0, length) < c as real + 1.0
  {}

  lemma EndTile(end: nat, k: nat, t: nat)
    requires t > 0 && end > 0
    ensures k < DivCeil(end, t) <==> k <= Div(end - 1, t)
  {
    hide Div, DivCeil;
    CeilCovers(end, t, k);
    if k <= Div(end - 1, t) {
      MulMono(k, Div(end - 1, t), t);
    } else {
      MulMono(Div(end - 1, t) + 1, k, t);
    }
  }

  /** Moving up one cell enters a new tile exactly at a multiple of the tile size. */
  lemma NextTile(c: nat, t: nat)
    requires t > 0
    ensures Div(c, t) <= Div(c + 1, t) <= Div(c, t) + 1
    ensures Div(c + 1, t) == Div(c, t) <==> Mod(c + 1, t) != 0
  {
    hide Div, Mod;
    var q := Div(c, t);
    assert (q + 1) * t == q * t + t && (q + 2) * t == q * t + 2 * t;
    if c + 1 < (q + 1) * t {
      DivUnique(c + 1, t, q);
    } else {
      DivUnique(c + 1, t, q + 1);
    }
  }

  lemma DivMono(a: nat, b: nat, t: nat)
    requires t > 0 && a <= b
    ensures Div(a, t) <= Div(b, t)
  {
    hide Div;
    if Div(b, t) < Div(a, t) {
      MulMono(Div(b, t) + 1, Div(a, t), t);
    }
  }

  /** Tiles of an axis that the route needs, margin one. */
  predicate AxisNeeds(lo: nat, hi: nat, length: nat, tile_cells: nat, k: nat)
    requires tile_cells > 0
  {
    InSpan(k, Monus(lo, 1), Min(hi + 2, length), tile_cells)
  }

  /** The one cell of an axis that the overview shows beyond the margin, where it is pushed back. */
  function Pushed(lo: nat, hi: nat): nat { if lo == 0 then hi + 2 else Monus(lo, 2) }

  lemma AxisCell(lo: nat, hi: nat, length: nat, t: nat, c: nat)
    requires lo <= hi < length && t > 0 && FirstSeen(lo, hi, length) <= c < EndSeen(lo, hi, length)
    ensures !AxisNeeds(lo, hi, length, t, Div(c, t)) <==> Overhangs(lo, hi, length, t) && c == Pushed(lo, hi)
  {
    hide Div, Mod, DivCeil;
    var from, to := Monus(lo, 1), Min(hi + 2, length);
    if hi + 2 < length {
      NextTile(hi + 1, t);
    }
    if lo > 1 {
      NextTile(lo - 2, t);
    }
    EndTile(to, Div(c, t), t);
    if c < to { DivMono(c, to - 1, t); }
    if from <= c { DivMono(from, c, t); }
  }

  lemma PushedSeen(lo: nat, hi: nat, length: nat, t: nat)
    requires lo <= hi < length && t > 0
    ensures FirstSeen(lo, hi, length) < EndSeen(lo, hi, length) <= length
    ensures Overhangs(lo, hi, length, t) ==> FirstSeen(lo, hi, length) <= Pushed(lo, hi) < EndSeen(lo, hi, length)
  {
    hide Mod;
  }

  lemma AxisExact(lo: nat, hi: nat, length: nat, t: nat)
    requires lo <= hi < length && t > 0
    ensures (exists c: nat | c < length :: FirstSeen(lo, hi, length) <= c < EndSeen(lo, hi, length) && !AxisNeeds(lo, hi, length, t, Div(c, t)))
      <==> Overhangs(lo, hi, length, t)
  {
    hide Div, Mod, AxisNeeds, Overhangs, FirstSeen, EndSeen, Pushed;
    forall c: nat | FirstSeen(lo, hi, length) <= c < EndSeen(lo, hi, length)
      ensures !AxisNeeds(lo, hi, length, t, Div(c, t)) <==> Overhangs(lo, hi, length, t) && c == Pushed(lo, hi)
    {
      AxisCell(lo, hi, length, t, c);
    }
    PushedSeen(lo, hi, length, t);
    if Overhangs(lo, hi, length, t) {
      assert !AxisNeeds(lo, hi, length, t, Div(Pushed(lo, hi), t));
    }
  }

  /** The corners of the box around the two cells. */
  datatype Corner = Corner(column: nat, row: nat)

  function Lo(l: WorldLayout, a: nat, b: nat): Corner
    requires l.columns > 0 && l.Cell(a).Some? && l.Cell(b).Some?
  {
    var s, t := l.Cell(a).value, l.Cell(b).value;
    Corner(Min(s.column, t.column), Min(s.row, t.row))
  }
  function Hi(l: WorldLayout, a: nat, b: nat): Corner
    requires l.columns > 0 && l.Cell(a).Some? && l.Cell(b).Some?
  {
    var s, t := l.Cell(a).value, l.Cell(b).value;
    Corner(Max(s.column, t.column), Max(s.row, t.row))
  }

  predicate RouteOverhangs(l: WorldLayout, a: nat, b: nat, tile_cells: nat)
    requires l.columns > 0 && l.Cell(a).Some? && l.Cell(b).Some? && tile_cells > 0
  {
    var lo, hi := Lo(l, a, b), Hi(l, a, b);
    Overhangs(lo.column, hi.column, l.columns, tile_cells) || Overhangs(lo.row, hi.row, l.rows, tile_cells)
  }

  lemma RouteNeeds(l: WorldLayout, a: nat, b: nat, t: nat, column: nat, row: nat)
    requires l.Valid() && a < l.entry_count && b < l.entry_count && t > 0
    ensures var lo, hi := Lo(l, a, b), Hi(l, a, b);
      && lo.column <= hi.column < l.columns && lo.row <= hi.row < l.rows
      && (WorldTile(Div(column, t), Div(row, t)) in RouteTiles(l, a, b, t, 1.0) <==>
          AxisNeeds(lo.column, hi.column, l.columns, t, Div(column, t)) && AxisNeeds(lo.row, hi.row, l.rows, t, Div(row, t)))
  {
    hide Div, Mod, DivCeil, RouteTiles;
    CellInGrid(l, a);
    CellInGrid(l, b);
    RouteTilesAre(l, a, b, t);
    var r := RouteBox(l, l.Cell(a).value, l.Cell(b).value);
    BlockTilesAre(Div(r.start_row, t), DivCeil(r.end_row, t), Div(r.start_column, t), DivCeil(r.end_column, t), WorldTile(Div(column, t), Div(row, t)));
  }

  lemma OverviewOverlaps(l: WorldLayout, a: nat, b: nat, column: nat, row: nat)
    requires l.Valid() && a < l.entry_count && b < l.entry_count && column < l.columns && row < l.rows
    ensures CameraPathOf(l, a, b, 1.0).Some?
    ensures var lo, hi := Lo(l, a, b), Hi(l, a, b);
      Overlaps(column, row, CameraPathOf(l, a, b, 1.0).value.overview) <==>
        FirstSeen(lo.column, hi.column, l.columns) <= column < EndSeen(lo.column, hi.column, l.columns)
        && FirstSeen(lo.row, hi.row, l.rows) <= row < EndSeen(lo.row, hi.row, l.rows)
  {
    hide Div, Mod, DivCeil, At, Wide, CameraPathOf, FirstSeen, EndSeen;
    CellInGrid(l, a);
    CellInGrid(l, b);
    OverviewAxes(l, a, b, 1.0);
    var lo, hi := Lo(l, a, b), Hi(l, a, b);
    OverviewSees(lo.column, hi.column, l.columns, column);
    OverviewSees(lo.row, hi.row, l.rows, row);
  }

  /** The view shows a grid position outside the route's tiles. */
  ghost predicate Shows(view: Rect, l: WorldLayout, a: nat, b: nat, t: nat, column: nat, row: nat)
    requires l.columns > 0 && t > 0
  {
    && column < l.columns && row < l.rows && Overlaps(column, row, view)
    && WorldTile(Div(column, t), Div(row, t)) !in RouteTiles(l, a, b, t, 1.0)
  }

  /** With the margin of one cell: some view shows a grid position outside the route's tiles exactly
      when the route overhangs on one of the axes. */
  lemma OverhangExact(l: WorldLayout, a: nat, b: nat, t: nat)
    requires l.Valid() && a < l.entry_count && b < l.entry_count && t > 0
    ensures l.Cell(a).Some? && l.Cell(b).Some? && CameraPathOf(l, a, b, 1.0).Some?
    ensures (exists progress: real, easing: Easing, column: nat, row: nat ::
              Shows(CameraView(CameraPathOf(l, a, b, 1.0).value, progress, easing), l, a, b, t, column, row))
      <==> RouteOverhangs(l, a, b, t)
  {
    hide Div, Mod, DivCeil, AxisNeeds, CameraPathOf, CameraView, FirstSeen, EndSeen, Overhangs, RouteTiles, Overlaps, WorldLayout.Cell, Lo, Hi;
    CellsExist(l, a, b);
    OverviewHolds(l, a, b, 1.0);
    var path := CameraPathOf(l, a, b, 1.0).value;
    var lo, hi := Lo(l, a, b), Hi(l, a, b);
    RouteNeeds(l, a, b, t, lo.column, lo.row);
    AxisExact(lo.column, hi.column, l.columns, t);
    AxisExact(lo.row, hi.row, l.rows, t);
    if progress: real, easing: Easing, column: nat, row: nat :| Shows(CameraView(path, progress, easing), l, a, b, t, column, row) {
      ViewInside(l, a, b, 1.0, progress, easing);
      OverlapsOuter(column, row, CameraView(path, progress, easing), path.overview);
      OverviewOverlaps(l, a, b, column, row);
      RouteNeeds(l, a, b, t, column, row);
    }
    if RouteOverhangs(l, a, b, t) {
      AtHalf(path);
      SeenOfRoute(lo.column, hi.column, l.columns);
      SeenOfRoute(lo.row, hi.row, l.rows);
      var column, row := lo.column, lo.row;
      if Overhangs(lo.column, hi.column, l.columns, t) {
        column :| column < l.columns && FirstSeen(lo.column, hi.column, l.columns) <= column < EndSeen(lo.column, hi.column, l.columns)
          && !AxisNeeds(lo.column, hi.column, l.columns, t, Div(column, t));
      } else {
        row :| row < l.rows && FirstSeen(lo.row, hi.row, l.rows) <= row < EndSeen(lo.row, hi.row, l.rows)
          && !AxisNeeds(lo.row, hi.row, l.rows, t, Div(row, t));
      }
      OverviewOverlaps(l, a, b, column, row);
      RouteNeeds(l, a, b, t, column, row);
      assert Shows(CameraView(path, 0.5, Linear), l, a, b, t, column, row);
    }
  }

  predicate InLibrary(l: WorldLayout, column: nat, row: nat) { row * l.columns + column < l.entry_count }

  /** The route overhangs at a wallpaper: with an axis's pushed cell, the first one seen on the other axis. */
  predicate RouteHides(l: WorldLayout, a: nat, b: nat, tile_cells: nat)
    requires l.columns > 0 && l.Cell(a).Some? && l.Cell(b).Some? && tile_cells > 0
  {
    var lo, hi := Lo(l, a, b), Hi(l, a, b);
    || (Overhangs(lo.column, hi.column, l.columns, tile_cells) && InLibrary(l, Pushed(lo.column, hi.column), FirstSeen(lo.row, hi.row, l.rows)))
    || (Overhangs(lo.row, hi.row, l.rows, tile_cells) && InLibrary(l, FirstSeen(lo.column, hi.column, l.columns), Pushed(lo.row, hi.row)))
  }

  lemma LaterCell(l: WorldLayout, column: nat, row: nat, column': nat, row': nat)
    requires InLibrary(l, column', row') && column <= column' && row <= row'
    ensures InLibrary(l, column, row)
  {
    MulMono(row, row', l.columns);
  }

  /** The same about wallpapers, in a last row that may be ragged: some view shows one outside the
      route's tiles exactly when the route overhangs at a wallpaper. */
  lemma HidesExact(l: WorldLayout, a: nat, b: nat, t: nat)
    requires l.Valid() && a < l.entry_count && b < l.entry_count && t > 0
    ensures l.Cell(a).Some? && l.Cell(b).Some? && CameraPathOf(l, a, b, 1.0).Some?
    ensures (exists progress: real, easing: Easing, column: nat, row: nat :: InLibrary(l, column, row) &&
              Shows(CameraView(CameraPathOf(l, a, b, 1.0).value, progress, easing), l, a, b, t, column, row))
      <==> RouteHides(l, a, b, t)
  {
    hide Div, Mod, DivCeil, AxisNeeds, CameraPathOf, CameraView, FirstSeen, EndSeen, Overhangs, RouteTiles, Overlaps, WorldLayout.Cell, Lo, Hi, Pushed, InLibrary;
    CellsExist(l, a, b);
    OverviewHolds(l, a, b, 1.0);
    var path := CameraPathOf(l, a, b, 1.0).value;
    if progress: real, easing: Easing, column: nat, row: nat :| InLibrary(l, column, row) && Shows(CameraView(path, progress, easing), l, a, b, t, column, row) {
      ViewInside(l, a, b, 1.0, progress, easing);
      OverlapsOuter(column, row, CameraView(path, progress, easing), path.overview);
      HiddenCell(l, a, b, t, column, row);
    }
    if RouteHides(l, a, b, t) {
      AtHalf(path);
      var column, row := SomeHiddenCell(l, a, b, t);
      assert Shows(CameraView(path, 0.5, Linear), l, a, b, t, column, row);
    }
  }

  lemma HiddenCell(l: WorldLayout, a: nat, b: nat, t: nat, column: nat, row: nat)
    requires l.Valid() && a < l.entry_count && b < l.entry_count && t > 0 && l.Cell(a).Some? && l.Cell(b).Some? && CameraPathOf(l, a, b, 1.0).Some?
    requires column < l.columns && row < l.rows && InLibrary(l, column, row) && Overlaps(column, row, CameraPathOf(l, a, b, 1.0).value.overview)
    requires WorldTile(Div(column, t), Div(row, t)) !in RouteTiles(l, a, b, t, 1.0)
    ensures RouteHides(l, a, b, t)
  {
    hide Div, Mod, DivCeil, AxisNeeds, CameraPathOf, FirstSeen, EndSeen, Overhangs, RouteTiles, Overlaps, WorldLayout.Cell, Lo, Hi, Pushed, InLibrary;
    var lo, hi := Lo(l, a, b), Hi(l, a, b);
    OverviewOverlaps(l, a, b, column, row);
    RouteNeeds(l, a, b, t, column, row);
    AxisCell(lo.column, hi.column, l.columns, t, column);
    AxisCell(lo.row, hi.row, l.rows, t, row);
    if AxisNeeds(lo.column, hi.column, l.columns, t, Div(column, t)) {
      LaterCell(l, FirstSeen(lo.column, hi.column, l.columns), row, column, row);
    } else {
      LaterCell(l, column, FirstSeen(lo.row, hi.row, l.rows), column, row);
    }
  }

  lemma SomeHiddenCell(l: WorldLayout, a: nat, b: nat, t: nat) returns (column: nat, row: nat)
    requires l.Valid() && a < l.entry_count && b < l.entry_count && t > 0 && l.Cell(a).Some? && l.Cell(b).Some? && CameraPathOf(l, a, b, 1.0).Some?
    requires RouteHides(l, a, b, t)
    ensures column < l.columns && row < l.rows && InLibrary(l, column, row) && Overlaps(column, row, CameraPathOf(l, a, b, 1.0).value.overview)
    ensures WorldTile(Div(column, t), Div(row, t)) !in RouteTiles(l, a, b, t, 1.0)
  {
    hide Div, Mod, DivCeil, AxisNeeds, CameraPathOf, FirstSeen, EndSeen, Overhangs, RouteTiles, Overlaps, WorldLayout.Cell, Lo, Hi, Pushed, InLibrary;
    var lo, hi := Lo(l, a, b), Hi(l, a, b);
    RouteNeeds(l, a, b, t, 0, 0);
    PushedSeen(lo.column, hi.column, l.columns, t);
    PushedSeen(lo.row, hi.row, l.rows, t);
    column, row := FirstSeen(lo.column, hi.column, l.columns), FirstSeen(lo.row, hi.row, l.rows);
    if Overhangs(lo.column, hi.column, l.columns, t) && InLibrary(l, Pushed(lo.column, hi.column), row) {
      column := Pushed(lo.column, hi.column);
    } else {
      row := Pushed(lo.row, hi.row);
    }
    OverviewOverlaps(l, a, b, column, row);
    RouteNeeds(l, a, b, t, column, row);
    AxisCell(lo.column, hi.column, l.columns, t, column);
    AxisCell(lo.row, hi.row, l.rows, t, row);
  }

  lemma CellsExist(l: WorldLayout, a: nat, b: nat)
    requires l.Valid() && a < l.entry_count && b < l.entry_count
    ensures l.Cell(a).Some? && l.Cell(b).Some?
  {}

  lemma OverlapsOuter(column: nat, row: nat, view: Rect, outer: Rect)
    requires Overlaps(column, row, view) && Inside(view, outer)
    ensures Overlaps(column, row, outer)
  {}

  lemma SeenOfRoute(lo: nat, hi: nat, length: nat)
    requires lo <= hi < length
    ensures FirstSeen(lo, hi, length) <= lo < EndSeen(lo, hi, length)
  {}

  lemma AtHalf(path: CameraPath)
    ensures CameraView(path, 0.5, Linear) == path.overview
  {
    AtOverview(path);
  }

  /** In a world of 16 by 1 cells with tiles of 8, the overview of the route from cell 0 to 6 shows
      column 8, whose tile the route does not load; from cell 0 to 5 nothing is missing. */
  lemma OverhangExample()
    ensures var l := WorldLayout.New(16, 16); RouteOverhangs(l, 0, 5, 8) == false && RouteOverhangs(l, 0, 6, 8)
  {}
}
