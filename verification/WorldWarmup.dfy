/** The command-line warm-up and the supervisor's check work out the tiles of a route separately;
    on the same library they agree. */
module WorldWarmup {
  import opened Prelude
  import opened WorldGrid
  import opened WorldPyramid
  import opened WorldRoute

  // ---- indices of paths ----

  /** `world_cell_index`: the first position. */
  function FirstIndex(library: seq<string>, path: string): (r: Option<nat>)
    ensures r.Some? ==> r.value < |library| && library[r.value] == path
  {
    if library == [] then None
    else if library[0] == path then Some(0)
    else
      match FirstIndex(library[1..], path)
      case Some(i) => Some(i + 1)
      case None => None
  }

  /** `WorldSnapshot::index_of`: collecting into a map keeps the last position. */
  function LastIndex(library: seq<string>, path: string): (r: Option<nat>)
    ensures r.Some? ==> r.value < |library| && library[r.value] == path
  {
    if library == [] then None
    else if library[|library| - 1] == path then Some(|library| - 1)
    else LastIndex(library[..|library| - 1], path)
  }

  lemma {:induction false} FirstIndexNone(library: seq<string>, path: string)
    ensures FirstIndex(library, path).None? <==> path !in library
  {
    if library != [] {
      FirstIndexNone(library[1..], path);
      assert library == [library[0]] + library[1..];
    }
  }

  lemma {:induction false} LastIndexNone(library: seq<string>, path: string)
    ensures LastIndex(library, path).None? <==> path !in library
  {
    if library != [] {
      var init := library[..|library| - 1];
      LastIndexNone(init, path);
      assert library == init + [library[|library| - 1]];
    }
  }

  lemma {:induction false} FirstIndexLeast(library: seq<string>, i: nat)
    requires i < |library|
    ensures FirstIndex(library, library[i]).Some? && FirstIndex(library, library[i]).value <= i
  {
    if library[0] != library[i] {
      FirstIndexLeast(library[1..], i - 1);
    }
  }

  lemma {:induction false} LastIndexGreatest(library: seq<string>, i: nat)
    requires i < |library|
    ensures LastIndex(library, library[i]).Some? && LastIndex(library, library[i]).value >= i
  {
    var last := |library| - 1;
    if library[last] != library[i] {
      LastIndexGreatest(library[..last], i);
    }
  }

  lemma IndicesAgree(library: seq<string>, path: string)
    requires DuplicateFree(library)
    ensures FirstIndex(library, path) == LastIndex(library, path)
  {
    FirstIndexNone(library, path);
    LastIndexNone(library, path);
  }

  /** The two programs place every path of a library alike if and only if it lists none twice. */
  lemma IndicesAgreeIff(library: seq<string>)
    ensures DuplicateFree(library) <==> forall path | path in library :: FirstIndex(library, path) == LastIndex(library, path)
  {
    hide FirstIndex, LastIndex;
    if DuplicateFree(library) {
      forall path | path in library ensures FirstIndex(library, path) == LastIndex(library, path) {
        IndicesAgree(library, path);
      }
    } else {
      var i, j :| 0 <= i < j < |library| && library[i] == library[j];
      FirstIndexLeast(library, i);
      LastIndexGreatest(library, j);
      assert library[i] in library;
    }
  }

  /** On a library that lists a path twice the two programs place it differently. */
  lemma IndicesDisagreeOnDuplicates()
    ensures FirstIndex(["a", "a"], "a") == Some(0) && LastIndex(["a", "a"], "a") == Some(1)
  {}

  // ---- command line: the tiles to generate ----

  datatype CtlRoute = CtlRoute(from: string, to: string)

  function Keys(tiles: seq<WorldTile>, lod: nat): set<TileKey> {
    set t | t in tiles :: (lod, t.row, t.column)
  }

  function PairKeys(library: seq<string>, columns: usize, lods: seq<nat>, route: CtlRoute): Option<set<TileKey>>
    requires |library| <= USIZE_MAX
  {
    match (FirstIndex(library, route.from), FirstIndex(library, route.to))
    case (Some(a), Some(b)) =>
      (var l := WorldLayout.New(|library|, columns);
       match CtlLod(lods, l, a, b)
       case None => None
       case Some(lod) => Some(Keys(TilesAt(l, a, b, lod), lod)))
    case _ => None
  }

  function RouteKeys(library: seq<string>, columns: usize, lods: seq<nat>, routes: seq<CtlRoute>): Option<set<TileKey>>
    requires |library| <= USIZE_MAX
  {
    if routes == [] then Some({})
    else
      match (RouteKeys(library, columns, lods, routes[..|routes| - 1]), PairKeys(library, columns, lods, routes[|routes| - 1]))
      case (Some(before), Some(last)) => Some(before + last)
      case _ => None
  }

  method RouteWorldTileKeys(library: seq<string>, columns: usize, lods: seq<nat>, routes: seq<CtlRoute>) returns (needed: Option<set<TileKey>>)
    requires |library| <= USIZE_MAX
    ensures needed == RouteKeys(library, columns, lods, routes)
  {
    hide PairKeys;
    var keys: set<TileKey> := {};
    for i := 0 to |routes|
      invariant RouteKeys(library, columns, lods, routes[..i]) == Some(keys)
    {
      assert routes[..i + 1][..i] == routes[..i];
      var pair := PairKeys(library, columns, lods, routes[i]);
      if pair.None? {
        NoneStays(library, columns, lods, routes, i + 1);
        return None;
      }
      keys := keys + pair.value;
    }
    assert routes[..|routes|] == routes;
    return Some(keys);
  }

  lemma {:induction false} NoneStays(library: seq<string>, columns: usize, lods: seq<nat>, routes: seq<CtlRoute>, i: nat)
    requires |library| <= USIZE_MAX && i <= |routes| && RouteKeys(library, columns, lods, routes[..i]).None?
    ensures RouteKeys(library, columns, lods, routes).None?
  {
    if i == |routes| {
      assert routes[..i] == routes;
    } else {
      var before := routes[..|routes| - 1];
      assert before[..i] == routes[..i];
      NoneStays(library, columns, lods, before, i);
    }
  }

  /** `route_world_tile_entries`: the pyramid entries a warm-up of these routes generates. */
  function Filtered(entries: seq<TileEntry>, keys: set<TileKey>): (r: seq<TileEntry>)
    ensures forall e :: e in r <==> e in entries && KeyOf(e) in keys
  {
    if entries == [] then []
    else
      assert entries == [entries[0]] + entries[1..];
      (if KeyOf(entries[0]) in keys then [entries[0]] else []) + Filtered(entries[1..], keys)
  }

  // ---- supervisor: the plan ----

  datatype WantedEntry = WantedEntry(output: string, current: Option<string>, target: string)
  datatype WorldRouteFocus = WorldRouteFocus(current_index: nat, target_index: nat, lod: nat)
  datatype PlanError = NoCurrentWallpaper | CurrentNotIndexed | TargetNotIndexed | OverBudgetEverywhere
  datatype Plan = Planned(routes: map<string, WorldRouteFocus>) | Refused(error: PlanError)

  datatype FocusResult = Focus(focus: WorldRouteFocus) | NoFocus(error: PlanError)

  function FocusOf(library: seq<string>, columns: usize, lods: seq<nat>, entry: WantedEntry): FocusResult
    requires |library| <= USIZE_MAX
  {
    if entry.current.None? then NoFocus(NoCurrentWallpaper)
    else
      match LastIndex(library, entry.current.value)
      case None => NoFocus(CurrentNotIndexed)
      case Some(a) =>
        match LastIndex(library, entry.target)
        case None => NoFocus(TargetNotIndexed)
        case Some(b) =>
          match SupervisorLod(lods, WorldLayout.New(|library|, columns), a, b)
          case None => NoFocus(OverBudgetEverywhere)
          case Some(lod) => Focus(WorldRouteFocus(a, b, lod))
  }

  /** The routes of the entries up to the first that has none; a later entry for an output replaces an earlier one. */
  function PlanOf(library: seq<string>, columns: usize, lods: seq<nat>, entries: seq<WantedEntry>): Plan
    requires |library| <= USIZE_MAX
  {
    if entries == [] then Planned(map[])
    else
      var last := entries[|entries| - 1];
      match PlanOf(library, columns, lods, entries[..|entries| - 1])
      case Refused(error) => Refused(error)
      case Planned(routes) =>
        match FocusOf(library, columns, lods, last)
        case NoFocus(error) => Refused(error)
        case Focus(focus) => Planned(routes[last.output := focus])
  }

  // ---- supervisor: the check ----

  /** Tile images by key; a later entry replaces an earlier one. */
  function TileMap(entries: seq<TileEntry>): (m: map<TileKey, TilePath>)
    ensures forall k :: k in m <==> exists e :: e in entries && KeyOf(e) == k
    ensures forall k | k in m :: exists e :: e in entries && KeyOf(e) == k && m[k] == e.image_path
  {
    if entries == [] then map[]
    else
      var last := entries[|entries| - 1];
      assert entries == entries[..|entries| - 1] + [last];
      TileMap(entries[..|entries| - 1])[KeyOf(last) := last.image_path]
  }

  datatype Check = Ready | OverBudget | Missing(tile_count: nat, max_lod: nat)

  predicate Absent(tiles: map<TileKey, TilePath>, files: set<TilePath>, k: TileKey) {
    k !in tiles || tiles[k] !in files
  }

  function FocusTiles(l: WorldLayout, focus: WorldRouteFocus): seq<WorldTile>
    requires l.columns > 0
  {
    TilesAt(l, focus.current_index, focus.target_index, focus.lod)
  }

  predicate FocusFits(l: WorldLayout, focus: WorldRouteFocus)
    requires l.columns > 0
  {
    |FocusTiles(l, focus)| <= MAX_WORLD_ROUTE_TILES
  }

  function AbsentKeys(l: WorldLayout, focus: WorldRouteFocus, tiles: map<TileKey, TilePath>, files: set<TilePath>): set<TileKey>
    requires l.columns > 0
  {
    set k | k in Keys(FocusTiles(l, focus), focus.lod) && Absent(tiles, files, k)
  }

  predicate IsMaxLod(m: nat, keys: set<TileKey>) {
    (exists k :: k in keys && k.0 == m) && forall k | k in keys :: k.0 <= m
  }

  /** Exactly the keys of the planned routes whose image is not there are reported, each once,
      with the highest level among them. */
  method ValidateRoutes(l: WorldLayout, entries: seq<TileEntry>, routes: map<string, WorldRouteFocus>, files: set<TilePath>)
    returns (check: Check, ghost missing: set<TileKey>)
    requires l.columns > 0
    ensures (exists o | o in routes :: !FocusFits(l, routes[o])) <==> check == OverBudget
    ensures check != OverBudget ==> forall k :: k in missing <==> exists o | o in routes :: k in AbsentKeys(l, routes[o], TileMap(entries), files)
    ensures check == Ready ==> missing == {}
    ensures check.Missing? ==> check.tile_count == |missing| > 0 && IsMaxLod(check.max_lod, missing)
  {
    hide RouteTiles, LodCells, TileMap, TilesAt;
    var tiles := TileMap(entries);
    var absent: map<TileKey, Option<TilePath>> := map[];
    var todo := routes.Keys;
    while todo != {}
      invariant todo <= routes.Keys
      invariant forall o | o in routes.Keys - todo :: FocusFits(l, routes[o])
      invariant forall k :: k in absent <==> exists o | o in routes.Keys - todo :: k in AbsentKeys(l, routes[o], tiles, files)
    {
      var output :| output in todo;
      var focus := routes[output];
      var route_tiles := FocusTiles(l, focus);
      if |route_tiles| > MAX_WORLD_ROUTE_TILES {
        assert !FocusFits(l, routes[output]);
        return OverBudget, {};
      }
      absent := AddAbsent(absent, route_tiles, focus.lod, tiles, files);
      ghost var done := routes.Keys - todo;
      todo := todo - {output};
      assert routes.Keys - todo == done + {output};
      forall k ensures k in absent <==> exists o | o in routes.Keys - todo :: k in AbsentKeys(l, routes[o], tiles, files) {
        assert k in absent ==> k in AbsentKeys(l, focus, tiles, files) || exists o | o in done :: k in AbsentKeys(l, routes[o], tiles, files);
      }
    }
    missing := absent.Keys;
    assert routes.Keys - todo == routes.Keys;
    if absent == map[] {
      check := Ready;
    } else {
      var max_lod := HighestLod(absent.Keys);
      check := Missing(|absent|, max_lod);
    }
  }

  method AddAbsent(absent: map<TileKey, Option<TilePath>>, route_tiles: seq<WorldTile>, lod: nat, tiles: map<TileKey, TilePath>, files: set<TilePath>)
    returns (result: map<TileKey, Option<TilePath>>)
    ensures forall k :: k in result <==> k in absent || (k in Keys(route_tiles, lod) && Absent(tiles, files, k))
  {
    result := absent;
    for i := 0 to |route_tiles|
      invariant forall k :: k in result <==> k in absent || (k in Keys(route_tiles[..i], lod) && Absent(tiles, files, k))
    {
      var tile := route_tiles[i];
      var key := (lod, tile.row, tile.column);
      assert route_tiles[..i + 1] == route_tiles[..i] + [tile];
      assert Keys(route_tiles[..i + 1], lod) == Keys(route_tiles[..i], lod) + {key};
      if key !in tiles {
        result := result[key := None];
      } else if tiles[key] !in files {
        result := result[key := Some(tiles[key])];
      }
    }
    assert route_tiles[..|route_tiles|] == route_tiles;
  }

  method HighestLod(keys: set<TileKey>) returns (m: nat)
    requires keys != {}
    ensures IsMaxLod(m, keys)
  {
    var k :| k in keys;
    var todo := keys - {k};
    m := k.0;
    while todo != {}
      invariant todo <= keys
      invariant IsMaxLod(m, keys - todo)
    {
      k :| k in todo;
      ghost var done := keys - todo;
      todo := todo - {k};
      assert keys - todo == done + {k};
      ghost var best :| best in done && best.0 == m;
      assert best in keys - todo && k in keys - todo;
      m := Max(m, k.0);
    }
    assert keys - todo == keys;
  }

  // ---- agreement ----

  function SpecOf(library: seq<string>, columns: usize): TileSpec
    requires |library| <= USIZE_MAX
  {
    var l := WorldLayout.New(|library|, columns);
    TileSpec(DEFAULT_WORLD_TILE_CELLS, l.columns, l.rows)
  }

  function LodsOf(library: seq<string>, columns: usize, key: ContentKey): seq<nat>
    requires |library| <= USIZE_MAX
  {
    LodStatuses(Pyramid(SpecOf(library, columns), key))
  }

  function RouteOf(entry: WantedEntry): CtlRoute
    requires entry.current.Some?
  {
    CtlRoute(entry.current.value, entry.target)
  }

  predicate Routable(library: seq<string>, entry: WantedEntry) {
    entry.current.Some? && entry.current.value in library && entry.target in library
  }

  /** For one route: both programs succeed on the same inputs, choose the same level and need
      exactly the same keys, and the route passes the later budget check. */
  lemma PairAgrees(library: seq<string>, columns: usize, key: ContentKey, entry: WantedEntry)
    requires |library| <= USIZE_MAX && DuplicateFree(library)
    ensures FocusOf(library, columns, LodsOf(library, columns, key), entry).Focus? <==> Routable(library, entry)
    ensures Routable(library, entry) ==>
      var lods, l := LodsOf(library, columns, key), WorldLayout.New(|library|, columns);
      var focus := FocusOf(library, columns, lods, entry).focus;
      && FocusFits(l, focus)
      && PairKeys(library, columns, lods, RouteOf(entry)) == Some(Keys(FocusTiles(l, focus), focus.lod))
  {
    hide SupervisorLod, CtlLod, TilesAt, Pyramid, LodStatuses, FirstIndex, LastIndex, DuplicateFree, DivCeil;
    if entry.current.Some? {
      IndicesAgree(library, entry.current.value);
      IndicesAgree(library, entry.target);
      FirstIndexNone(library, entry.current.value);
      FirstIndexNone(library, entry.target);
      if Routable(library, entry) {
        var l := WorldLayout.New(|library|, columns);
        SelectionTotalAndMinimal(l, key, FirstIndex(library, entry.current.value).value, FirstIndex(library, entry.target).value);
      }
    }
  }

  /** The keys of a planned route are keys of the pyramid. */
  lemma FocusKeysInPyramid(library: seq<string>, columns: usize, key: ContentKey, entry: WantedEntry, k: TileKey)
    requires |library| <= USIZE_MAX && DuplicateFree(library) && Routable(library, entry)
    requires PairKeys(library, columns, LodsOf(library, columns, key), RouteOf(entry)).Some?
    requires k in PairKeys(library, columns, LodsOf(library, columns, key), RouteOf(entry)).value
    ensures k in TileMap(Pyramid(SpecOf(library, columns), key))
  {
    hide CtlLod, SupervisorLod, Pyramid, LodStatuses, FirstIndex, DuplicateFree, DivCeil, LodEntry, TileMap, LodCells, RouteTiles, Top;
    var l, s := WorldLayout.New(|library|, columns), SpecOf(library, columns);
    var a, b := FirstIndex(library, entry.current.value).value, FirstIndex(library, entry.target).value;
    SelectionTotalAndMinimal(l, key, a, b);
    var lod := k.0;
    var t :| t in TilesAt(l, a, b, lod) && k == (lod, t.row, t.column);
    RouteTilesInGrid(l, a, b, lod, t);
    var e := LodEntry(s, key, lod, t.row, t.column);
    PositionOf(s, key, lod, t.row, t.column);
    LodEntriesAre(s, key, lod, e);
    PyramidIs(s, key, e);
    InTileMap(Pyramid(s, key), e);
  }

  lemma InTileMap(entries: seq<TileEntry>, e: TileEntry)
    requires e in entries
    ensures KeyOf(e) in TileMap(entries)
  {}

  /** In the pyramid a key has one entry, so one image. */
  lemma KeysUnique(s: TileSpec, key: ContentKey, e: TileEntry, f: TileEntry)
    requires e in Pyramid(s, key) && f in Pyramid(s, key) && KeyOf(e) == KeyOf(f)
    ensures e == f
  {
    hide Pyramid, LodEntry, LodEntries;
    PyramidIs(s, key, e);
    PyramidIs(s, key, f);
    LodEntriesAre(s, key, e.lod, e);
    LodEntriesAre(s, key, f.lod, f);
  }

  /** No two tiles of the pyramid share an image. */
  lemma ImagesUnique(s: TileSpec, key: ContentKey, e: TileEntry, f: TileEntry)
    requires e in Pyramid(s, key) && f in Pyramid(s, key) && e.image_path == f.image_path
    ensures e == f
  {
    hide Pyramid, LodEntries, LodCells;
    PyramidIs(s, key, e);
    PyramidIs(s, key, f);
    LodEntriesAre(s, key, e.lod, e);
    LodEntriesAre(s, key, f.lod, f);
  }

  // ---- many routes ----

  function Routes(entries: seq<WantedEntry>): (r: seq<CtlRoute>)
    requires forall e | e in entries :: e.current.Some?
    ensures |r| == |entries|
  {
    seq(|entries|, i requires 0 <= i < |entries| => RouteOf(entries[i]))
  }

  predicate AllRoutable(library: seq<string>, entries: seq<WantedEntry>)
    ensures AllRoutable(library, entries) ==> forall e | e in entries :: e.current.Some?
  {
    forall e | e in entries :: Routable(library, e)
  }

  predicate DistinctOutputs(entries: seq<WantedEntry>) {
    forall i, j | 0 <= i < j < |entries| :: entries[i].output != entries[j].output
  }

  ghost predicate PlanMatches(library: seq<string>, columns: usize, lods: seq<nat>, entries: seq<WantedEntry>, routes: map<string, WorldRouteFocus>)
    requires |library| <= USIZE_MAX
  {
    && (forall o | o in routes :: exists i :: 0 <= i < |entries| && entries[i].output == o)
    && (forall i | 0 <= i < |entries| :: entries[i].output in routes
         && FocusOf(library, columns, lods, entries[i]) == Focus(routes[entries[i].output]))
  }

  /** Planning succeeds exactly when every output shows an indexed wallpaper and gets an indexed one. */
  lemma {:induction false} PlanSucceeds(library: seq<string>, columns: usize, key: ContentKey, entries: seq<WantedEntry>)
    requires |library| <= USIZE_MAX && DuplicateFree(library) && DistinctOutputs(entries)
    ensures var plan := PlanOf(library, columns, LodsOf(library, columns, key), entries);
      && (plan.Planned? <==> forall e | e in entries :: Routable(library, e))
      && (plan.Planned? ==> PlanMatches(library, columns, LodsOf(library, columns, key), entries, plan.routes))
  {
    hide FocusOf, LodsOf, Routable, DuplicateFree, PlanMatches;
    if entries != [] {
      var last, before := entries[|entries| - 1], entries[..|entries| - 1];
      assert entries == before + [last];
      PlanSucceeds(library, columns, key, before);
      PairAgrees(library, columns, key, last);
      PlanExtends(library, columns, LodsOf(library, columns, key), entries);
    } else {
      PlanOfNone(library, columns, LodsOf(library, columns, key));
    }
  }

  lemma PlanOfNone(library: seq<string>, columns: usize, lods: seq<nat>)
    requires |library| <= USIZE_MAX
    ensures PlanOf(library, columns, lods, []).Planned? && PlanMatches(library, columns, lods, [], PlanOf(library, columns, lods, []).routes)
  {}

  lemma PlanExtends(library: seq<string>, columns: usize, lods: seq<nat>, entries: seq<WantedEntry>)
    requires |library| <= USIZE_MAX && DistinctOutputs(entries) && entries != []
    requires var before := PlanOf(library, columns, lods, entries[..|entries| - 1]);
      before.Planned? ==> PlanMatches(library, columns, lods, entries[..|entries| - 1], before.routes)
    ensures var plan := PlanOf(library, columns, lods, entries);
      && (plan.Planned? <==> PlanOf(library, columns, lods, entries[..|entries| - 1]).Planned? && FocusOf(library, columns, lods, entries[|entries| - 1]).Focus?)
      && (plan.Planned? ==> PlanMatches(library, columns, lods, entries, plan.routes))
  {
    hide FocusOf, PlanMatches;
    var last, before := entries[|entries| - 1], entries[..|entries| - 1];
    assert entries == before + [last];
    if PlanOf(library, columns, lods, entries).Planned? {
      MatchesExtend(library, columns, lods, before, last, PlanOf(library, columns, lods, before).routes);
    }
  }

  lemma MatchesExtend(library: seq<string>, columns: usize, lods: seq<nat>, before: seq<WantedEntry>, last: WantedEntry, routes: map<string, WorldRouteFocus>)
    requires |library| <= USIZE_MAX && PlanMatches(library, columns, lods, before, routes)
    requires FocusOf(library, columns, lods, last).Focus? && DistinctOutputs(before + [last])
    ensures PlanMatches(library, columns, lods, before + [last], routes[last.output := FocusOf(library, columns, lods, last).focus])
  {
    hide FocusOf;
    var all := before + [last];
    forall i | 0 <= i < |before| ensures before[i].output != last.output {
      assert all[i] == before[i] && all[|before|] == last;
    }
    forall o | o in routes ensures exists i :: 0 <= i < |all| && all[i].output == o {
      var i :| 0 <= i < |before| && before[i].output == o;
      assert all[i].output == o;
    }
    assert all[|before|].output == last.output;
  }

  /** The route starts on the cell of the wallpaper shown and ends on that of the wallpaper to come,
      each at its last position, at the first level that fits. */
  ghost predicate Leads(library: seq<string>, columns: usize, lods: seq<nat>, e: WantedEntry, focus: WorldRouteFocus)
    requires |library| <= USIZE_MAX
  {
    && e.current.Some?
    && LastAt(library, e.current.value, focus.current_index)
    && LastAt(library, e.target, focus.target_index)
    && IsFirstLevel(lods, WorldLayout.New(|library|, columns), focus.current_index, focus.target_index, focus.lod)
  }

  ghost predicate LastAt(library: seq<string>, path: string, i: nat) {
    i < |library| && library[i] == path && forall j | i < j < |library| :: library[j] != path
  }

  /** Why an entry has no route. */
  ghost predicate Refuses(library: seq<string>, columns: usize, lods: seq<nat>, e: WantedEntry, error: PlanError)
    requires |library| <= USIZE_MAX
  {
    match error
    case NoCurrentWallpaper => e.current.None?
    case CurrentNotIndexed => e.current.Some? && e.current.value !in library
    case TargetNotIndexed => e.current.Some? && e.current.value in library && e.target !in library
    case OverBudgetEverywhere =>
      && e.current.Some?
      && exists a, b :: LastAt(library, e.current.value, a) && LastAt(library, e.target, b) && NoneFits(lods, WorldLayout.New(|library|, columns), a, b)
  }

  lemma {:induction false} LastIndexIs(library: seq<string>, path: string)
    ensures match LastIndex(library, path) case Some(i) => LastAt(library, path, i) case None => path !in library
  {
    if library != [] {
      LastIndexIs(library[..|library| - 1], path);
      assert library == library[..|library| - 1] + [library[|library| - 1]];
    }
  }

  lemma FocusIs(library: seq<string>, columns: usize, lods: seq<nat>, e: WantedEntry)
    requires |library| <= USIZE_MAX
    ensures match FocusOf(library, columns, lods, e)
      case Focus(focus) => Leads(library, columns, lods, e, focus)
      case NoFocus(error) => Refuses(library, columns, lods, e, error)
  {
    hide SupervisorLod, LastIndex, LastAt, IsFirstLevel, NoneFits, DivCeil;
    if e.current.Some? {
      LastIndexIs(library, e.current.value);
      LastIndexIs(library, e.target);
      var a, b := LastIndex(library, e.current.value), LastIndex(library, e.target);
      if a.Some? && b.Some? {
        SupervisorLodIs(lods, WorldLayout.New(|library|, columns), a.value, b.value);
      }
    }
  }

  ghost predicate HasRoute(library: seq<string>, columns: usize, lods: seq<nat>, e: WantedEntry)
    requires |library| <= USIZE_MAX
  {
    exists focus :: Leads(library, columns, lods, e, focus)
  }

  /** The first entry without a route, and why it has none. */
  ghost predicate FirstRefused(library: seq<string>, columns: usize, lods: seq<nat>, entries: seq<WantedEntry>, i: nat, error: PlanError)
    requires |library| <= USIZE_MAX
  {
    && i < |entries| && Refuses(library, columns, lods, entries[i], error)
    && forall j | 0 <= j < i :: HasRoute(library, columns, lods, entries[j])
  }

  ghost predicate Refusal(library: seq<string>, columns: usize, lods: seq<nat>, entries: seq<WantedEntry>, error: PlanError)
    requires |library| <= USIZE_MAX
  {
    exists i: nat :: FirstRefused(library, columns, lods, entries, i, error)
  }

  /** The last entry for an output. */
  predicate LastFor(entries: seq<WantedEntry>, i: nat) {
    i < |entries| && forall j | i < j < |entries| :: entries[j].output != entries[i].output
  }

  /** Every listed output, and no other, has the route of its last entry. */
  ghost predicate Planning(library: seq<string>, columns: usize, lods: seq<nat>, entries: seq<WantedEntry>, routes: map<string, WorldRouteFocus>)
    requires |library| <= USIZE_MAX
  {
    && (forall o | o in routes :: exists i :: 0 <= i < |entries| && entries[i].output == o)
    && (forall i | 0 <= i < |entries| :: entries[i].output in routes && HasRoute(library, columns, lods, entries[i]))
    && (forall i: nat | LastFor(entries, i) :: Leads(library, columns, lods, entries[i], routes[entries[i].output]))
  }

  lemma PlanningOfNone(library: seq<string>, columns: usize, lods: seq<nat>)
    requires |library| <= USIZE_MAX
    ensures Planning(library, columns, lods, [], map[])
  {
    hide Leads;
  }

  lemma PlanningExtends(library: seq<string>, columns: usize, lods: seq<nat>, before: seq<WantedEntry>, last: WantedEntry,
                        routes: map<string, WorldRouteFocus>, focus: WorldRouteFocus)
    requires |library| <= USIZE_MAX && Planning(library, columns, lods, before, routes) && Leads(library, columns, lods, last, focus)
    ensures Planning(library, columns, lods, before + [last], routes[last.output := focus])
  {
    hide Leads;
    var all, longer := before + [last], routes[last.output := focus];
    forall o | o in longer ensures exists i :: 0 <= i < |all| && all[i].output == o {
      assert all[|before|].output == last.output;
      if o != last.output {
        var i :| 0 <= i < |before| && before[i].output == o;
        assert all[i].output == o;
      }
    }
    forall i: nat | LastFor(all, i) ensures Leads(library, columns, lods, all[i], longer[all[i].output]) {
      assert all[|before|] == last;
      assert forall j | 0 <= j < |before| :: all[j] == before[j];
      assert i < |before| ==> LastFor(before, i) && before[i].output != last.output;
    }
    forall i | 0 <= i < |all| ensures all[i].output in longer && HasRoute(library, columns, lods, all[i]) {
      assert i < |before| ==> all[i] == before[i];
    }
  }

  /** On any library, levels and entries a plan gives every listed output, and no other, the route of
      its last entry; a refusal is that of the first entry that has no route. */
  lemma {:induction false} PlanLeads(library: seq<string>, columns: usize, lods: seq<nat>, entries: seq<WantedEntry>)
    requires |library| <= USIZE_MAX
    ensures match PlanOf(library, columns, lods, entries)
      case Planned(routes) => Planning(library, columns, lods, entries, routes)
      case Refused(error) => Refusal(library, columns, lods, entries, error)
  {
    hide FocusOf, Leads, Refuses, Planning, Refusal;
    if entries == [] {
      PlanningOfNone(library, columns, lods);
    } else {
      var last, before := entries[|entries| - 1], entries[..|entries| - 1];
      PlanLeads(library, columns, lods, before);
      FocusIs(library, columns, lods, last);
      assert entries == before + [last];
      match PlanOf(library, columns, lods, before)
      case Refused(error) =>
        RefusalStays(library, columns, lods, before, last, error);
      case Planned(routes) =>
        match FocusOf(library, columns, lods, last)
        case NoFocus(error) =>
          LastRefused(library, columns, lods, before, last, routes, error);
        case Focus(focus) => PlanningExtends(library, columns, lods, before, last, routes, focus);
    }
  }

  lemma RefusalStays(library: seq<string>, columns: usize, lods: seq<nat>, before: seq<WantedEntry>, last: WantedEntry, error: PlanError)
    requires |library| <= USIZE_MAX && Refusal(library, columns, lods, before, error)
    ensures Refusal(library, columns, lods, before + [last], error)
  {
    hide HasRoute, Refuses;
    var i: nat :| FirstRefused(library, columns, lods, before, i, error);
    assert FirstRefused(library, columns, lods, before + [last], i, error);
  }

  lemma LastRefused(library: seq<string>, columns: usize, lods: seq<nat>, before: seq<WantedEntry>, last: WantedEntry,
                    routes: map<string, WorldRouteFocus>, error: PlanError)
    requires |library| <= USIZE_MAX && Planning(library, columns, lods, before, routes) && Refuses(library, columns, lods, last, error)
    ensures Refusal(library, columns, lods, before + [last], error)
  {
    hide HasRoute, Refuses, Leads;
    assert FirstRefused(library, columns, lods, before + [last], |before|, error);
  }

  lemma {:induction false} RouteKeysAre(library: seq<string>, columns: usize, lods: seq<nat>, routes: seq<CtlRoute>)
    requires |library| <= USIZE_MAX && forall i | 0 <= i < |routes| :: PairKeys(library, columns, lods, routes[i]).Some?
    ensures RouteKeys(library, columns, lods, routes).Some?
    ensures forall k :: k in RouteKeys(library, columns, lods, routes).value <==>
      exists i :: 0 <= i < |routes| && k in PairKeys(library, columns, lods, routes[i]).value
  {
    hide PairKeys;
    if routes != [] {
      var before := routes[..|routes| - 1];
      RouteKeysAre(library, columns, lods, before);
      assert routes == before + [routes[|routes| - 1]];
    }
  }

  /** The tile images a completed warm-up of `routes` leaves on disk. */
  predicate Warmed(library: seq<string>, columns: usize, key: ContentKey, routes: seq<CtlRoute>, files: set<TilePath>)
    requires |library| <= USIZE_MAX
  {
    var keys := RouteKeys(library, columns, LodsOf(library, columns, key), routes);
    && keys.Some?
    && forall e | e in Filtered(Pyramid(SpecOf(library, columns), key), keys.value) :: e.image_path in files
  }

  predicate NothingAbsent(library: seq<string>, columns: usize, key: ContentKey, routes: map<string, WorldRouteFocus>, files: set<TilePath>)
    requires |library| <= USIZE_MAX
  {
    forall o | o in routes ::
      AbsentKeys(WorldLayout.New(|library|, columns), routes[o], TileMap(Pyramid(SpecOf(library, columns), key)), files) == {}
  }

  /** The image the supervisor looks up for an entry of the pyramid is that entry's own. */
  lemma LookupIsEntry(s: TileSpec, key: ContentKey, e: TileEntry)
    requires e in Pyramid(s, key)
    ensures KeyOf(e) in TileMap(Pyramid(s, key)) && TileMap(Pyramid(s, key))[KeyOf(e)] == e.image_path
  {
    hide Pyramid;
    var m := TileMap(Pyramid(s, key));
    InTileMap(Pyramid(s, key), e);
    var f :| f in Pyramid(s, key) && KeyOf(f) == KeyOf(e) && m[KeyOf(e)] == f.image_path;
    KeysUnique(s, key, e, f);
  }

  /** Some entry of this key has no image on disk. */
  ghost predicate Unwarmed(p: seq<TileEntry>, files: set<TilePath>, k: TileKey) {
    exists e :: e in p && KeyOf(e) == k && e.image_path !in files
  }

  ghost function UnwarmedKeys(keys: set<TileKey>, p: seq<TileEntry>, files: set<TilePath>): set<TileKey> {
    set k | k in keys && Unwarmed(p, files, k)
  }

  /** For a pyramid key: nothing is absent exactly when every entry with such a key is on disk. */
  lemma AbsentIsUnwarmed(s: TileSpec, key: ContentKey, k: TileKey, files: set<TilePath>)
    requires k in TileMap(Pyramid(s, key))
    ensures Absent(TileMap(Pyramid(s, key)), files, k) <==> Unwarmed(Pyramid(s, key), files, k)
  {
    hide Pyramid;
    var e :| e in Pyramid(s, key) && KeyOf(e) == k;
    LookupIsEntry(s, key, e);
    if f :| f in Pyramid(s, key) && KeyOf(f) == k && f.image_path !in files {
      KeysUnique(s, key, e, f);
    }
  }

  /** Route keys of one entry, as both programs compute them. */
  lemma FocusKeys(library: seq<string>, columns: usize, key: ContentKey, entry: WantedEntry, focus: WorldRouteFocus, files: set<TilePath>)
    requires |library| <= USIZE_MAX && DuplicateFree(library) && Routable(library, entry)
    requires FocusOf(library, columns, LodsOf(library, columns, key), entry) == Focus(focus)
    ensures var pair := PairKeys(library, columns, LodsOf(library, columns, key), RouteOf(entry));
      pair.Some?
      && AbsentKeys(WorldLayout.New(|library|, columns), focus, TileMap(Pyramid(SpecOf(library, columns), key)), files)
         == UnwarmedKeys(pair.value, Pyramid(SpecOf(library, columns), key), files)
  {
    hide Pyramid, TileMap, FocusOf, PairKeys, LodsOf, SpecOf, Absent, Unwarmed, TilesAt, Routable, DuplicateFree;
    CurrentOf(library, entry);
    PairAgrees(library, columns, key, entry);
    var pair := PairKeys(library, columns, LodsOf(library, columns, key), RouteOf(entry)).value;
    forall k | k in pair
      ensures Absent(TileMap(Pyramid(SpecOf(library, columns), key)), files, k)
        <==> Unwarmed(Pyramid(SpecOf(library, columns), key), files, k)
    {
      FocusKeysInPyramid(library, columns, key, entry, k);
      AbsentIsUnwarmed(SpecOf(library, columns), key, k, files);
    }
  }

  /** Warm-up and check agree: on a library without duplicates, for any outputs that show and get
      indexed wallpapers, the supervisor's check finds nothing missing exactly when every tile that
      an unlimited warm-up of the same routes generates is on disk. */
  lemma WarmUpIsWhatIsChecked(library: seq<string>, columns: usize, key: ContentKey, entries: seq<WantedEntry>, files: set<TilePath>)
    requires |library| <= USIZE_MAX && DuplicateFree(library) && DistinctOutputs(entries)
    requires AllRoutable(library, entries)
    ensures PlanOf(library, columns, LodsOf(library, columns, key), entries).Planned?
    ensures Warmed(library, columns, key, Routes(entries), files)
      <==> NothingAbsent(library, columns, key, PlanOf(library, columns, LodsOf(library, columns, key), entries).routes, files)
    ensures var routes := PlanOf(library, columns, LodsOf(library, columns, key), entries).routes;
      forall o | o in routes :: FocusFits(WorldLayout.New(|library|, columns), routes[o])
  {
    hide Pyramid, TileMap, FocusOf, PairKeys, LodsOf, SpecOf, AbsentKeys, Routable, DuplicateFree, Filtered, Unwarmed, UnwarmedKeys, FocusFits;
    PlanSucceeds(library, columns, key, entries);
    var lods, p := LodsOf(library, columns, key), Pyramid(SpecOf(library, columns), key);
    var routes, ctl := PlanOf(library, columns, lods, entries).routes, Routes(entries);
    forall i | 0 <= i < |entries|
      ensures PairKeys(library, columns, lods, ctl[i]).Some?
      ensures AbsentKeys(WorldLayout.New(|library|, columns), routes[entries[i].output], TileMap(p), files)
         == UnwarmedKeys(PairKeys(library, columns, lods, ctl[i]).value, p, files)
      ensures FocusFits(WorldLayout.New(|library|, columns), routes[entries[i].output])
    {
      assert entries[i] in entries;
      PairAgrees(library, columns, key, entries[i]);
      FocusKeys(library, columns, key, entries[i], routes[entries[i].output], files);
    }
    RouteKeysAre(library, columns, lods, ctl);
    WarmedByRoute(library, columns, lods, ctl, p, files);
  }

  lemma CurrentOf(library: seq<string>, entry: WantedEntry)
    requires Routable(library, entry)
    ensures entry.current.Some?
  {}

  lemma WarmedByRoute(library: seq<string>, columns: usize, lods: seq<nat>, ctl: seq<CtlRoute>, p: seq<TileEntry>, files: set<TilePath>)
    requires |library| <= USIZE_MAX && forall i | 0 <= i < |ctl| :: PairKeys(library, columns, lods, ctl[i]).Some?
    ensures RouteKeys(library, columns, lods, ctl).Some?
    ensures (forall e | e in Filtered(p, RouteKeys(library, columns, lods, ctl).value) :: e.image_path in files)
      <==> forall i | 0 <= i < |ctl| ::
        UnwarmedKeys(PairKeys(library, columns, lods, ctl[i]).value, p, files) == {}
  {
    hide PairKeys, RouteKeys;
    RouteKeysAre(library, columns, lods, ctl);
    var keys := RouteKeys(library, columns, lods, ctl).value;
    if forall e | e in Filtered(p, keys) :: e.image_path in files {
      assert forall k | k in keys :: !Unwarmed(p, files, k);
    } else {
      var e :| e in Filtered(p, keys) && e.image_path !in files;
      var i :| 0 <= i < |ctl| && KeyOf(e) in PairKeys(library, columns, lods, ctl[i]).value;
      assert KeyOf(e) in UnwarmedKeys(PairKeys(library, columns, lods, ctl[i]).value, p, files);
    }
  }
}
