# Mural, verified

Mural is a wallpaper daemon for Wayland: a supervisor that chooses wallpapers and keeps their history, a
renderer that draws transitions on every output, and a command-line tool; they talk JSON over sockets.
This project models the parts of it that hold state, loops or arithmetic, and proves what they are for.

`dafny verify dfyconfig.toml` checks everything. Where the original works in place, a class or a loop with
invariants is proved against a specification function, and the laws are lemmas about those functions.

| component | files |
|---|---|
| JSON parser: RFC 8259 grammar as parse trees, recursive descent on characters, byte parser | `JsonGrammar`, `JsonDescent`, `JsonExactness`, `JsonUnits`, `Utf8`, `JsonParser` |
| Requests on the wire: printing, typed parsing, compact spellings and defaults | `Decimal`, `StringOrder`, `Protocol`, `ProtocolText`, `ProtocolRoundTrip`, `ProtocolDefaults`, `ProtocolWriters` |
| World grid, tile pyramid, routes, warm-up, camera | `WorldGrid`, `WorldPyramid`, `WorldRoute`, `WorldWarmup`, `Camera` |
| Wallpaper history and shuffle control | `History`, `LayoutState`, `Deck`, `Draws`, `RollbackRuns`, `Changes`, `Preparations`, `WallpaperControl`, `Previews` |
| The supervisor's transaction | `Supervisor` |
| Texture ownership and decode queue of the outputs | `Surface`, `TextureRuns`, `OutputSurface`, `SetWallpapers`, `DecodeQueue`, `DaemonRuns`, `QueueRuns` |
| Text files | `TextLines`, `Persistence`, `Manifest` |

## Where the code does less than one may expect

Each of these is a lemma with a concrete input, beside the exact condition under which the code does meet
the property.

- The overview scale is printed with six decimals: requests round-trip exactly for scales on that grid, and
  the default of one third is not on it (`ProtocolRoundTrip.RoundTrip`, `DefaultScaleDoesNotRoundTrip`).
- `bag_next_n` decides once, before any rescan, whether repeats are allowed. It ends exactly when it fails, or
  the directory is empty, or the directory has one other file (if fewer are listed than asked for), or as many
  as asked for (`WallpaperControl.BagNextN`, `Draws.DrawNeverEnds`, `Draws.VanishedFileSpins`).
- `ensure_window` never ends with `max_history == 1` and a window across two rows (`History.NeverCompletes`,
  `OneRowSpins`).
- Back undoes Next if and only if the history already reached the next window or has room for the rows of both
  windows; otherwise Back does nothing (`History.BackUndoesNext`, `CanReturnFromNext`,
  `BackDoesNotUndoNextAtTwo`). The same holds of ShiftBack after ShiftForward.
- A rollback puts the shuffle position back even into a bag that was rebuilt to the same length. A preparation
  that can be completed is taken back, whatever it draws, if and only if the bag suffices for all its draws, or
  one wallpaper is all there is (`Supervisors.RollbackRestores`, `SecondDrawNotTakenBack`,
  `RollbackAcrossRebuild`). Two failures after preparation return without any rollback: unreadable images
  (supervisor.rs:504) and a failed quarantine move (supervisor.rs:530); and a quarantined file that cannot be
  moved back is left where it is (wallpaper.rs:533). What they leave is stated in
  `Supervisor.RenderWallpaperAction` and `MoveRenderSettle`.
- `preview_window` can miss a required wallpaper when favourites repeat in the bag's window; it holds all of
  them exactly when the window leaves places enough (`Previews.PreviewWindow`, `RepeatedFavoriteHides`).
- `set_cut_wallpapers` and `start_world_uploads` lose the textures not yet placed when a frame fails
  (`SetWallpapers.PlaceUploads`, `FirstFrameFails`); pairwise starts do not (`PlacePairwise`).
- The camera's overview is shifted, not cut, at an edge of the world and can then show a cell whose tile the
  route does not load (`Camera.OverhangExact`, `HidesExact`, `OverhangExample`).
- Warm-up and check place every path alike if and only if the library lists none twice
  (`WorldWarmup.IndicesAgreeIff`, `IndicesDisagreeOnDuplicates`); a library is sorted and duplicate-free whenever
  it comes from a scan (`Decks.RescannedDeck`).
- A stored bag that misses listed wallpapers is not refilled by the scan after loading
  (`WallpaperControl.Load`, `Decks.RescannedLists`, `LackingBagStays`).
- Lines that end in a carriage return do not come back from text files (`TextLines.LinesRoundTrip`,
  `CarriageReturnIsLost`).

## What the model assumes

- Randomness is an arbitrary choice in range; fingerprints and content keys are arbitrary functions.
- Rendering, uploads, image decoding, worker replies, renames and spawning a process are outcomes that may
  go either way at every use. Files on disk are a set of paths that does not change during one call.
- Which paths are eligible wallpapers depends on their names alone. The destination of a quarantine move is a
  parameter: a path that does not exist and is not eligible.
- Texture names are not reused within one operation.
- One layout key stands for one list of outputs (output names contain no `+`; `WallpaperControls.KeysApart`).
- Sizes are unbounded where the original's would only overflow beyond memory; where it saturates
  (`usize` tile arithmetic), wraps (decode ids) or checks a range, the model does too.

## Model

| member | source | states |
|---|---|---|
| JsonParser.ParseJsonByGrammar | crates/mural-ipc/src/json.rs:54-65 | `parse_json` returns value `v` exactly when the RFC 8259 grammar derives the text with value `v` (nesting at most 128, last duplicate key winning, no unpaired surrogate), and its errors are never the byte-level ones, which cannot happen |
| JsonExactness.ParseExact | crates/mural-ipc/src/json.rs:54-165 | the recursive descent accepts a text with value `v` if and only if a parse tree of the grammar spells the text and denotes `v` |
| JsonExactness.GrammarUnambiguous | crates/mural-ipc/src/json.rs:54-65 | a text denotes at most one value |
| JsonExactness.ValueOf | crates/mural-ipc/src/json.rs:78-99 | completeness for one value: the text of any parse tree within the depth limit, whatever may follow it, is read back to that tree's value and to exactly its end |
| JsonExactness.ValueFrom | crates/mural-ipc/src/json.rs:78-99 | soundness for one value: whatever is accepted is whitespace and the text of a parse tree within the depth limit, with the tree's value and rest |
| JsonExactness.ElemsOf | crates/mural-ipc/src/json.rs:148-165 | every list of array elements is read back in order, to its closing bracket |
| JsonExactness.MembersOf | crates/mural-ipc/src/json.rs:123-146 | every list of object members is read back as the map in which the last member of a name wins |
| JsonExactness.MembersFrom | crates/mural-ipc/src/json.rs:123-146 | whatever is accepted as members is the text of a member list with that map |
| JsonExactness.StringOf | crates/mural-ipc/src/json.rs:167-204 | every spelling of a string (plain characters, short escapes, `\u` units, surrogate pairs) is read back to its characters |
| JsonExactness.StringFrom | crates/mural-ipc/src/json.rs:167-204 | whatever is accepted as a string is such a spelling of its value |
| JsonExactness.PairOf | crates/mural-ipc/src/json.rs:206-232 | a high and a low surrogate escape denote the one character of the pair |
| JsonExactness.UnicodeEscapeFrom | crates/mural-ipc/src/json.rs:206-249 | an accepted `\u` escape is one unit that is no surrogate, or a pair in order |
| JsonUnits.EveryCharReads | crates/mural-ipc/src/json.rs:206-249 | every character, written as the escapes of its one or two UTF-16 code units with digits of either case, is read back to it |
| JsonUnits.ItemHasUnits | crates/mural-ipc/src/json.rs:206-232 | an escaped unit or pair holds exactly the UTF-16 code units of the character it denotes |
| JsonExactness.NumberOf | crates/mural-ipc/src/json.rs:251-293 | a number of the grammar is taken whole, wherever it can no longer be continued |
| JsonExactness.NumberFrom | crates/mural-ipc/src/json.rs:251-293 | whatever is taken as a number is a number of the grammar |
| JsonParser.ParseJson | crates/mural-ipc/src/json.rs:54-65 | the byte parser computes the character-level specification |
| JsonParser.JsonParser.ParseValue | crates/mural-ipc/src/json.rs:78-108 | in place, the byte cursor moves exactly past the value the specification reads, and stays on a character boundary |
| JsonParser.JsonParser.ParseObject | crates/mural-ipc/src/json.rs:123-146 | the loop builds the map the specification gives, later members replacing earlier ones |
| JsonParser.JsonParser.ParseArray | crates/mural-ipc/src/json.rs:148-165 | the loop builds the elements the specification gives, in order |
| JsonParser.JsonParser.ParseString | crates/mural-ipc/src/json.rs:167-186 | the loop builds the specified string; every slice it takes is on character boundaries |
| JsonParser.JsonParser.ParseEscape | crates/mural-ipc/src/json.rs:188-204 | one escape gives the specified character or the specified error |
| JsonParser.JsonParser.ParseUnicodeEscape | crates/mural-ipc/src/json.rs:206-232 | surrogates are paired or refused; the "invalid scalar" error is unreachable |
| JsonParser.JsonParser.ParseCodeUnit | crates/mural-ipc/src/json.rs:234-249 | four hexadecimal digits, either case, give their value |
| JsonParser.JsonParser.PassNumber | crates/mural-ipc/src/json.rs:251-293 | the cursor passes exactly the longest number, or the first missing part is reported |
| JsonParser.JsonParser.ParseNumber | crates/mural-ipc/src/json.rs:251-293 | the number is returned as the text it was written in |
| JsonParser.JsonParser.ParseLiteral | crates/mural-ipc/src/json.rs:110-121 | `null`, `true` and `false`, compared byte by byte |
| JsonParser.JsonParser.SkipWhitespace | crates/mural-ipc/src/json.rs:295-299 | exactly the four JSON white-space characters are skipped |
| JsonParser.JsonParser.DecodeUtf8At | crates/mural-ipc/src/json.rs:336-356 | the bytes of one character are sliced out whole; truncated and invalid sequences cannot occur |
| Utf8.OffsetIsBoundary | crates/mural-ipc/src/json.rs:336-356 | every character index is at a byte boundary that gives the index back |
| ProtocolRoundTrip.RoundTrip | crates/mural-ipc/src/lib.rs:916-1004 | a printed request parses back to itself if and only if it is well formed: non-empty names, paths and maps, positive timings and workers, tile counts 1 to 256, a legal mode and walk, and a scale on the six-decimal grid |
| ProtocolRoundTrip.PublicRoundTrip | crates/mural-ipc/src/lib.rs:1132-1176 | on the public socket it does so if and only if it is also not one of the two internal renderer requests |
| ProtocolRoundTrip.ToJsonParses | crates/mural-ipc/src/lib.rs:916-1004 | whatever strings a request holds, its text is JSON for exactly its fields |
| ProtocolRoundTrip.ReadRequest | crates/mural-ipc/src/lib.rs:1144-1176 | the typed parser gives a request back from its fields exactly when it is well formed |
| ProtocolRoundTrip.ReadTransition | crates/mural-ipc/src/lib.rs:1804-1877 | a transition that is printed, in all five kinds, is read back from its fields exactly when it is well formed |
| ProtocolRoundTrip.ReadCanvas | crates/mural-ipc/src/lib.rs:1804-1877 | the same for a canvas transition, with its scale, tile count and mode/walk rule |
| ProtocolRoundTrip.ReadScale | crates/mural-ipc/src/lib.rs:2330-2339 | a printed scale reads back as the scale rounded to six decimals |
| ProtocolRoundTrip.ReadBackExact | crates/mural-ipc/src/lib.rs:2330-2339 | that is the scale itself exactly on the six-decimal grid |
| ProtocolRoundTrip.DefaultScaleDoesNotRoundTrip | crates/mural-ipc/src/lib.rs:2330-2339 | the default scale of one third is off that grid: a request that carries it does not come back |
| ProtocolRoundTrip.ReadTileCount | crates/mural-ipc/src/lib.rs:2005-2028 | tile counts, fixed or automatic with or without a maximum, come back, or are refused outside 1 to 256 |
| ProtocolRoundTrip.ReadOutputs | crates/mural-ipc/src/lib.rs:1775-1802 | output maps come back if and only if they are non-empty and have no empty name or path |
| ProtocolRoundTrip.ReadRoutes | crates/mural-ipc/src/lib.rs:1670-1703 | route maps of a world request come back, unless empty or with an empty name |
| ProtocolDefaults.CompactReads | crates/mural-ipc/src/lib.rs:750-826 | the compact spelling: a string reads as the object with only that type (cut, fade, world, canvas), or with its suffix as the direction (push) or the axis (canvas) as well; any other suffix, a push without one and any other name are refused |
| ProtocolDefaults.PlainSpellings | crates/mural-ipc/src/lib.rs:750-826 | what the plain spellings mean, by value: fade and world take 900 ms and ease out, push is a portal, canvas takes 180, 80 and 260 ms at a scale of one third |
| ProtocolDefaults.TransitionReads | crates/mural-ipc/src/lib.rs:1804-1877 | a transition without an optional field reads as the one with the field at its default (900 ms, ease-out-cubic, portal; 180, 80 and 260 ms, clipped, paged, auto), and a field that is not known changes nothing |
| ProtocolDefaults.CanvasLeftOut | crates/mural-ipc/src/lib.rs:1846-1875 | a canvas without a scale is shown at one third, and an automatic tile count without a largest one has none |
| ProtocolDefaults.RequestReads | crates/mural-ipc/src/lib.rs:1503-1600 | a request without an optional field reads as the one with the field at its default (cut, fill, not partial, no outputs, #000000, no override, current, one worker, auto, start 0), and a field that is not known changes nothing |
| ProtocolDefaults.RequestRefused | crates/mural-ipc/src/lib.rs:1503-1600 | a request without a field it needs is refused |
| ProtocolDefaults.FocusReads | crates/mural-ipc/src/lib.rs:1684-1690 | a route without a level is for level 0 |
| ProtocolDefaults.ActionReads | crates/mural-ipc/src/lib.rs:1705-1714 | an action as a string reads as the object with only that type |
| ProtocolDefaults.OtherSpellings | crates/mural-ipc/src/lib.rs:1705-1714 | spellings that are read but never printed mean what the printed ones mean |
| ProtocolText.EncodesString | crates/mural-ipc/src/lib.rs:2453-2473 | every string, control and non-BMP characters included, is written so that it reads back |
| ProtocolText.EncodesObject | crates/mural-ipc/src/lib.rs:2439-2451 | a list of distinct fields is written as JSON for their map |
| ProtocolText.EncodesStrings | crates/mural-ipc/src/lib.rs:2427-2437 | a list of strings is written as JSON for that list |
| ProtocolText.EncodesMap | crates/mural-ipc/src/lib.rs:2395-2407 | a string map is written, in key order, as JSON for that map |
| ProtocolWriters.WriteJsonString | crates/mural-ipc/src/lib.rs:2453-2473 | the loop that pushes escaped characters writes the specified text |
| ProtocolWriters.WriteObject | crates/mural-ipc/src/lib.rs:2439-2451 | the loop that pushes fields and commas writes the specified text |
| ProtocolWriters.WriteStringMap | crates/mural-ipc/src/lib.rs:2395-2407 | the loop over an ordered map writes the specified text |
| ProtocolWriters.WriteStringArray | crates/mural-ipc/src/lib.rs:2427-2437 | the loop over a list writes the specified text |
| ProtocolWriters.FormatOverviewScale | crates/mural-ipc/src/lib.rs:2330-2339 | printing six decimals and popping trailing zeros writes the specified text |
| Decimal.PrintedMillionths | crates/mural-ipc/src/lib.rs:2330-2339 | the trimmed digits of a number of millionths still denote it |
| WorldGrid.CellInGrid | crates/mural-render/src/world.rs:16-36 | each index of the library has a cell inside the grid whose row and column give the index back |
| WorldGrid.AutoWorldColumns | crates/mural-core/src/world_cache.rs:121-131 | the least width whose square holds the library; the grid is then no taller than wide |
| WorldGrid.WorldLodTileCells | crates/mural-core/src/world_cache.rs:568-574 | the tile size of a level, multiplied by eight per level and saturating |
| WorldGrid.TileCacheEntriesForLod | crates/mural-core/src/world_cache.rs:502-545 | the nested loops list the tiles of a level row by row, with their bounds |
| WorldGrid.TilesPartition | crates/mural-core/src/world_cache.rs:502-545 | at every level each grid cell lies in exactly one tile |
| WorldGrid.LodEntriesAre | crates/mural-core/src/world_cache.rs:502-545 | the entries of a level are exactly those of its grid positions |
| WorldGrid.EntryBounds | crates/mural-core/src/world_cache.rs:511-518 | inside the grid no tile bound saturates, and every tile is non-empty |
| WorldPyramid.TilePyramidCacheEntries | crates/mural-core/src/world_cache.rs:483-500 | the loop over levels ends for every grid and base size, saturating ones included, and lists all levels up to the first of at most one tile |
| WorldPyramid.PyramidIs | crates/mural-core/src/world_cache.rs:483-500 | the pyramid holds the tiles of levels 0 to the top and nothing else |
| WorldPyramid.TopIsWholeWorld | crates/mural-core/src/world_cache.rs:483-500 | for a non-empty grid the last level is a single tile that covers all of it |
| WorldPyramid.PyramidLods | crates/mural-core/src/world_cache.rs:576-596 | the levels listed from a full pyramid are 0 to the top, without gaps |
| WorldPyramid.WorldLodChildBlocks | crates/muralctl/src/main.rs:2618-2648 | the loops visit exactly the child positions under a tile, each once, in row-major order |
| WorldPyramid.ChildAxis | crates/muralctl/src/main.rs:2618-2648 | on one axis the blocks under a tile are blocks of the whole axis, lie inside the tile and cover it, also where the tile size saturates |
| WorldPyramid.TileIsUnionOfChildren | crates/muralctl/src/main.rs:2551-2648 | each child block of a level `k + 1` tile has the bounds of its level `k` entry and lies inside the tile |
| WorldPyramid.CellInOneChild | crates/muralctl/src/main.rs:2551-2648 | every cell of a tile is in exactly one of its child blocks |
| WorldRoute.VisibleCellCount | crates/mural-render/src/world.rs:391-417 | the count is the number of library wallpapers in the range, ragged last row and saturation included |
| WorldRoute.WorldTilesForRange | crates/mural-render/src/world.rs:201-222 | the loops list the tiles of the specified block |
| WorldRoute.RangeTileMeets | crates/mural-render/src/world.rs:201-222 | a tile is listed exactly when some cell of the range lies in it |
| WorldRoute.RouteTilesAre | crates/mural-render/src/world.rs:227-258 | a route needs exactly the tiles its box, widened by one cell and cut at the world's edge, meets; there is at least one |
| WorldRoute.RouteTilesInGrid | crates/mural-render/src/world.rs:227-258 | the tiles of a route at a level are tiles of that level |
| WorldRoute.SelectionTotalAndMinimal | crates/mural-render/src/world.rs:262-292 | for any two wallpapers and the levels of a full pyramid both programs choose the same level: the first with at most 16 route tiles, which always exists and has at least one; so neither "every available level" error nor the later budget error can occur |
| WorldRoute.CtlSelectWorldRouteLod | crates/muralctl/src/main.rs:2376-2399 | the command-line loop returns the first level that fits |
| WorldWarmup.WarmUpIsWhatIsChecked | crates/murald/src/supervisor.rs:590-658 | on a library without duplicates, for outputs that show and get indexed wallpapers, the supervisor finds nothing missing if and only if every tile an unlimited warm-up of the same routes generates is on disk; and no planned route is over budget |
| WorldWarmup.PairAgrees | crates/muralctl/src/main.rs:2360-2417 | for one route both programs succeed on the same inputs and need exactly the same keys |
| WorldWarmup.FocusKeysInPyramid | crates/murald/src/supervisor.rs:627-640 | every key that is checked is in the pyramid index |
| WorldWarmup.KeysUnique | crates/mural-core/src/world_cache.rs:483-545 | in the pyramid a key has one entry, so one image |
| WorldWarmup.ImagesUnique | crates/mural-core/src/world_cache.rs:502-545 | no two tiles of the pyramid have the same image file |
| WorldWarmup.ValidateRoutes | crates/murald/src/supervisor.rs:590-658 | the loops report exactly the keys of planned routes whose image is not there, each once, with the highest level among them; a route over budget is refused before |
| WorldWarmup.RouteWorldTileKeys | crates/muralctl/src/main.rs:2279-2296 | the loop unites the keys of all routes and fails if one has none |
| WorldWarmup.PlanSucceeds | crates/murald/src/supervisor.rs:733-799 | on a duplicate-free library and a full pyramid planning succeeds exactly when every output shows an indexed wallpaper and gets an indexed one |
| WorldWarmup.PlanLeads | crates/murald/src/supervisor.rs:752-799 | on any library, levels and entries: a plan routes exactly the listed outputs, each, by its last entry, from the last position of the wallpaper shown to the last position of the wallpaper to come, at the first level that fits; a refusal is that of the first entry without a route, for the stated reason |
| WorldRoute.SupervisorLodIs | crates/murald/src/supervisor.rs:1205-1235 | for any list of levels the choice is the first whose route has at most 16 tiles, and none exactly when none has |
| WorldWarmup.IndicesAgree | crates/muralctl/src/main.rs:2419-2423 | first and last position of a path agree on a library without duplicates |
| WorldWarmup.IndicesAgreeIff | crates/muralctl/src/main.rs:2419-2423 | the two programs place every path of a library alike if and only if the library lists none twice |
| WorldWarmup.IndicesDisagreeOnDuplicates | crates/muralctl/src/main.rs:2419-2423 | such a library: one path, listed twice |
| Camera.EasedMonotone | crates/mural-render/src/easing.rs:5-19 | easing never moves backwards, whatever the progress values |
| Camera.EasedRange | crates/mural-render/src/easing.rs:5-19 | eased values lie in 0 to 1, from 0 at the start to 1 at the end |
| Camera.EasedShapes | crates/mural-render/src/easing.rs:5-19 | linear easing is the progress itself; easing out is ahead of it and has seven eighths behind it halfway; easing in and out is behind it up to the middle, a sixteenth at a quarter, and its second half mirrors the first |
| Camera.ViewInside | crates/mural-render/src/world.rs:297-359 | at every progress, under every easing, the view lies in the overview and in the world; phase one shows the whole start cell, phase two the whole target cell |
| Camera.ViewEnds | crates/mural-render/src/world.rs:329-345 | every path begins on the start cell and ends on the target cell |
| Camera.ViewMovesEvenly | crates/mural-render/src/world.rs:329-345 | in each half equal steps of the eased progress move and scale the view equally, and halfway the view is the overview: it never jumps |
| Camera.ViewCovered | crates/mural-render/src/world.rs:227-359 | for any margin: when the margin box fits inside or covers the world on each axis, every cell a view overlaps is in a route tile |
| Camera.OverhangExact | crates/mural-render/src/world.rs:348-359 | for the margin of one cell: some view shows a grid position outside the route's tiles if and only if the route touches an edge of the world and the one cell the overview is pushed back by starts a new tile |
| Camera.HidesExact | crates/mural-render/src/world.rs:348-359 | the same about wallpapers: some view shows one outside the route's tiles if and only if that cell, with the first one seen on the other axis, holds a wallpaper; so also in a ragged last row |
| Camera.OverhangExample | crates/mural-render/src/world.rs:348-359 | such a route: cells 0 to 6 of a row of 16, with tiles of 8 |
| History.RunRefines | crates/mural-core/src/wallpaper.rs:765-811 | over every run of Next, Back, ShiftForward and ShiftBack, whatever the room, the layout refines a cursor over an append-only stream that moves by +n, -n, +1 and -1 and stops at the start of what is retained; every selection is exactly the n entries at the cursor, despite pruning |
| History.SelectionsOfOneStream | crates/mural-core/src/wallpaper.rs:1011-1018 | all selections of a run are windows of one final stream |
| History.StepRefines | crates/mural-core/src/wallpaper.rs:392-448 | one prepared move is one move of the cursor and appends at most the rows its window lacks |
| History.MovedShows | crates/mural-core/src/wallpaper.rs:765-811 | the idx/offset arithmetic of each move is the cursor's move |
| History.GrowProgress | crates/mural-core/src/wallpaper.rs:747-763 | each round of `ensure_window` lessens the deficit by one and leaves the cursor on the same entry, pruned or not |
| History.GrowShows | crates/mural-core/src/wallpaper.rs:1020-1040 | appending and pruning never change entries of the addressed window |
| History.NeverCompletes | crates/mural-core/src/wallpaper.rs:747-763 | with room for one row and a window across two, `ensure_window` never ends, whatever is drawn |
| History.OneRowSpins | crates/mural-core/src/wallpaper.rs:747-763 | such a layout: one row of two entries and an offset of one |
| History.BackUndoesNext | crates/mural-core/src/wallpaper.rs:765-785 | Back after Next, for every layout: the cursor is back where it was if and only if the history already reached the next window or there is room for the rows of both; Back draws nothing; where it returns it shows the former window, and where it does not it changes nothing |
| History.CursorReturns | crates/mural-core/src/wallpaper.rs:765-785 | before Back is made: it will return to the cursor Next left if and only if that condition holds of the layout before Next |
| History.CanReturnFromNext | crates/mural-core/src/wallpaper.rs:765-785 | the condition in numbers: the history has idx + 1 rows (one more with an offset), or max_history is at least two (three with an offset) |
| History.StartRetained | crates/mural-core/src/wallpaper.rs:1031-1040 | a forward move leaves the start of its window retained if and only if it can return |
| History.BackDoesNotUndoNextAtTwo | crates/mural-core/src/wallpaper.rs:765-785 | such a layout: room for two rows and an offset |
| History.NextUndoesBack | crates/mural-core/src/wallpaper.rs:765-785 | Next undoes a Back that moved |
| History.ShiftBackUndoesShiftForward | crates/mural-core/src/wallpaper.rs:787-811 | the same for ShiftBack after ShiftForward, for every layout: it returns if and only if the history has idx + 1 rows or there is room for two, and else changes nothing |
| History.CanReturnFromShift | crates/mural-core/src/wallpaper.rs:787-811 | that condition is the one for a forward shift |
| History.ShiftsEqualNext | crates/mural-core/src/wallpaper.rs:787-811 | n forward shifts and one Next show the same selection if they draw the same rows, and always where the next window exists |
| History.ShiftsReachNext | crates/mural-core/src/wallpaper.rs:787-811 | k forward shifts move the cursor by k |
| History.RecordShows | crates/mural-core/src/wallpaper.rs:813-832 | a recorded selection is the whole window at the cursor and ends the history |
| History.RecordKeeps | crates/mural-core/src/wallpaper.rs:825-830 | recording forgets what followed the cursor and, beyond the room there is, the oldest rows; nothing else |
| History.HealedShows | crates/mural-core/src/wallpaper.rs:834-861 | a healed selection is the whole window at the cursor; on a row boundary no other row changes; elsewhere only what followed the cursor and the oldest rows beyond the room there is are forgotten |
| LayoutStates.LayoutState.AppendSet | crates/mural-core/src/wallpaper.rs:1020-1023 | in place: append and prune |
| LayoutStates.LayoutState.PruneHistory | crates/mural-core/src/wallpaper.rs:1031-1040 | in place: the oldest rows go and the index follows, never below one |
| LayoutStates.LayoutState.MoveCursor | crates/mural-core/src/wallpaper.rs:765-811 | in place: the cursor part of the four moves |
| LayoutStates.LayoutState.Push | crates/mural-core/src/wallpaper.rs:825-830 | in place: truncate at the cursor, push, point at it, prune |
| LayoutStates.CurrentIsWhole | crates/mural-core/src/wallpaper.rs:986-995 | a reported current selection is never short |
| Decks.RebuiltBag | crates/mural-core/src/wallpaper.rs:625-640 | a rebuilt bag holds each favourite on disk `favorite_weight` times, every other listed wallpaper once and nothing else, and the lists are in order |
| Decks.RescannedDeck | crates/mural-core/src/wallpaper.rs:580-605 | after a rescan the library is exactly the directory, sorted without repeats, the bag holds the same wallpapers, favourites are listed |
| Decks.RescanOrder | crates/mural-core/src/wallpaper.rs:580-605 | a rescan keeps the wallpapers of the bag that are still there, each as often and in the order it was, puts the new ones behind them, each once, and leaves the position unless the bag got shorter |
| Decks.RescannedLists | crates/mural-core/src/wallpaper.rs:580-605 | after a rescan of any lists, damaged ones included, the library is the directory and favourites are listed; the bag holds the library if and only if no wallpaper of the directory was listed without being in the bag, or all were listed and none was in it |
| Decks.LackingBagStays | crates/mural-core/src/wallpaper.rs:98-138 | lists that break it: a bag that lacks a listed wallpaper |
| Decks.RescanOfFresh | crates/mural-core/src/wallpaper.rs:580-605 | a rescan of an unchanged directory changes neither bag nor position |
| Draws.RoundDecreases | crates/mural-core/src/wallpaper.rs:674-727 | each round of the drawing loop lessens a lexicographic measure (picks to go, rescan to come, attempts before it, bag to turn over, wallpapers left in it), across rebuilds and rescans |
| Draws.DrawNeverEnds | crates/mural-core/src/wallpaper.rs:674-727 | if neither an error nor the settling condition holds, the loop never ends: after every number of rounds, however bags are shuffled, the picks are short and the next round can run |
| Draws.VanishedFileSpins | crates/mural-core/src/wallpaper.rs:687-698 | such a deck: two listed wallpapers of which one has vanished, when two are asked for |
| Draws.PresentSettles | crates/mural-core/src/wallpaper.rs:674-727 | when every listed wallpaper exists, drawing always ends |
| Draws.RoundOk | crates/mural-core/src/wallpaper.rs:674-727 | every round keeps lists and bag in order and the picks on disk, listed, not excluded and, unless repeats are allowed, distinct |
| Draws.OtherEndsIff | crates/mural-core/src/wallpaper.rs:733-735 | drawing one wallpaper other than a given one always ends unless a single file is left and a vanished one is listed |
| Draws.QuarantineOfLastSpins | crates/mural-core/src/wallpaper.rs:733-735 | such a deck |
| Draws.OneEnds | crates/mural-core/src/wallpaper.rs:733-735 | drawing a single wallpaper without exclusion always ends |
| Draws.ScanRound | crates/mural-core/src/wallpaper.rs:674-727 | while the bag suffices a draw changes nothing but the position, and takes the next usable wallpapers |
| WallpaperControls.WallpaperControl.BagNextN | crates/mural-core/src/wallpaper.rs:674-727 | ends under that condition and returns exactly `count` listed wallpapers on disk, none excluded, pairwise distinct if enough others are listed; fails exactly when nothing is listed, only the excluded one is, or the directory is empty |
| WallpaperControls.WallpaperControl.DrawOne | crates/mural-core/src/wallpaper.rs:699-724 | the loop body is one round of the specification |
| WallpaperControls.WallpaperControl.Shuffle | crates/mural-core/src/wallpaper.rs:937-942 | Fisher-Yates in place stays in bounds and keeps the multiset |
| WallpaperControls.WallpaperControl.WeightedLibrary | crates/mural-core/src/wallpaper.rs:628-636 | the loops list every wallpaper once and favourites `favorite_weight` times |
| WallpaperControls.WallpaperControl.RebuildBag | crates/mural-core/src/wallpaper.rs:625-640 | sanitizes favourites and leaves some order of the weighted library, position zero |
| WallpaperControls.WallpaperControl.RescanTopLevel | crates/mural-core/src/wallpaper.rs:580-605 | the new lists are as specified and the counts are what was added and removed |
| WallpaperControls.WallpaperControl.Load | crates/mural-core/src/wallpaper.rs:98-138 | whatever the stored lists are, loading lists exactly the directory and keeps favourites among it; everything is in order if and only if no wallpaper of the directory was listed without being in the bag, or all were listed and none was in it |
| WallpaperControls.WallpaperControl.AddTopLevelFile | crates/mural-core/src/wallpaper.rs:278-291 | an eligible new file is listed in order and drawn last; anything else changes nothing |
| WallpaperControls.WallpaperControl.FavoriteAction | crates/mural-core/src/wallpaper.rs:341-390 | the value returned is the wallpaper at the index of the window; it becomes (or stops being) a favourite exactly if listed and on disk, every other favourite on disk stays one and no other appears, and the new bag has the new weights |
| WallpaperControls.WallpaperControl.EnsureInitialized | crates/mural-core/src/wallpaper.rs:737-745 | an empty history gets one drawn row; another is untouched |
| WallpaperControls.WallpaperControl.EnsureWindow | crates/mural-core/src/wallpaper.rs:747-763 | ends, and adds exactly the drawn rows the window lacks |
| WallpaperControls.WallpaperControl.RunMove | crates/mural-core/src/wallpaper.rs:765-811 | initializes, moves, and for forward moves reaches; the selection is the window |
| WallpaperControls.WallpaperControl.RunReplace | crates/mural-core/src/wallpaper.rs:813-832 | the made-whole window with one entry replaced by a drawn one is recorded |
| WallpaperControls.WallpaperControl.RunQuarantine | crates/mural-core/src/wallpaper.rs:430-439 | the target is the entry at the index, its move is planned if it is on disk, and its replacement is a different wallpaper |
| WallpaperControls.WallpaperControl.HealSelection | crates/mural-core/src/wallpaper.rs:834-861 | what is on disk stays, what is gone is replaced, and the layout follows only if something was |
| WallpaperControls.WallpaperControl.PrepareWallpaperChange | crates/mural-core/src/wallpaper.rs:392-466 | validates, takes the layout, and prepares a layout and selection the action leads to, every change of the deck being one of the specified draws; a quarantine move is prepared exactly for a quarantine whose target is on disk, from the target to the destination; the entries are the outputs with their selection and its marks; where the bag suffices all is as specified, moving only the position; an error says that nothing could be drawn |
| Preparations.PreparedTarget | crates/mural-core/src/wallpaper.rs:430-439 | the target of a quarantine is the entry at the index of the window before it, made whole if need be; no other action has one |
| WallpaperControls.KeysApart | crates/mural-core/src/wallpaper.rs:893-914 | outputs whose names hold no plus sign have the same layout key only if they are the same |
| WallpaperControls.WallpaperControl.PrepareStartupDisplay | crates/mural-core/src/wallpaper.rs:468-498 | the current window, made whole and healed; nothing is drawn if it is whole and on disk |
| WallpaperControls.WallpaperControl.MoveQuarantine | crates/mural-core/src/wallpaper.rs:500-524 | moves the file, or leaves everything as it was |
| WallpaperControls.WallpaperControl.RollbackWallpaperChange | crates/mural-core/src/wallpaper.rs:526-549 | the old layout comes back, the moved file too unless it cannot be moved back (then it stays at its destination), and the position if the bag has its old length |
| WallpaperControls.WallpaperControl.CommitWallpaperChange | crates/mural-core/src/wallpaper.rs:551-571 | the layout becomes current in memory and on disk; a quarantined wallpaper leaves library, favourites and bag alike |
| WallpaperControls.ForgottenOk | crates/mural-core/src/wallpaper.rs:555-560 | forgetting a quarantined wallpaper keeps bag and library the same set and the lists sorted |
| Changes.PreparedIsWindow | crates/mural-core/src/wallpaper.rs:392-466 | every prepared change, for every action, selects the whole window of its layout and shows nothing that is gone |
| Changes.PreparedMoveIsStep | crates/mural-core/src/wallpaper.rs:443-448 | a prepared move is a step of the cursor refinement, so the results about runs apply to it |
| Changes.NextsShowStretches | crates/mural-core/src/wallpaper.rs:674-785 | two Next in a row at the end of the history show two consecutive stretches of the bag and leave the position behind both |
| Changes.NextDealsRow | crates/mural-core/src/wallpaper.rs:674-785 | Next at the end of the history shows the row that the bag deals, ends the history with it, and leaves the position behind it |
| Changes.PreparedReaches | crates/mural-core/src/wallpaper.rs:747-811 | nothing can be prepared from a layout whose windows cannot all be reached: exactly those that can are asked for |
| Changes.PreparedReplacement | crates/mural-core/src/wallpaper.rs:813-832 | Replace and Quarantine change exactly the entry at the index, Quarantine to a different wallpaper |
| Changes.SamePreparation | crates/mural-core/src/wallpaper.rs:392-466 | a preparation from a position beyond the bag is the one from its end: the position a rollback leaves deals the same layout and selection |
| Previews.PreviewWindow | crates/mural-core/src/wallpaper.rs:161-185 | what is where: the window of the bag, the required wallpapers that it lacks after it in their order as far as there is room, and the next ones in place of what is not required, from its end backwards; it holds every required one if and only if the window leaves places for those it lacks |
| Previews.DistinctWindowSuffices | crates/mural-core/src/wallpaper.rs:642-659 | a window without repeats leaves places enough |
| Previews.RepeatedFavoriteHides | crates/mural-core/src/wallpaper.rs:642-659 | a repeated favourite can keep a required wallpaper out |
| Previews.WindowHoldsNext | crates/mural-core/src/wallpaper.rs:642-659 | the window shows the wallpaper drawn next, half its length in or, near the start of the bag, as far in as it is in the bag |
| Previews.WindowRepeatsNothing | crates/mural-core/src/wallpaper.rs:642-659 | the window wraps around without showing a place of the bag twice |
| Previews.PeekBagForward | crates/mural-core/src/wallpaper.rs:661-672 | the next wallpapers of the bag, as many as asked for or left |
| Previews.CanvasPreviewWindow | crates/mural-core/src/wallpaper.rs:187-276 | each answer exactly when it is due: no history, no captured positions, a current or a target wallpaper that is not in the history; otherwise a window if and only if the required range fits in max(tile_count, 1), else the number of tiles the range needs; the window is a slice of the history that begins half the spare places before the range, then the next wallpapers, no longer than asked for, with every current and target wallpaper; the "could not fit" error is unreachable |
| Previews.RequiredRangeIsLeast | crates/mural-core/src/wallpaper.rs:209-243 | the required range is the least that holds both windows and the nearest occurrence of every current and target wallpaper |
| Previews.Widen | crates/mural-core/src/wallpaper.rs:220-243 | the loop widens the range to the least one with the nearest occurrence of each wallpaper, or names one that is not in the history |
| Previews.ClosestPathIndex | crates/mural-core/src/wallpaper.rs:1115-1122 | the first of the positions nearest to the anchor |
| Supervisors.Supervisor.RenderWallpaperAction | crates/murald/src/supervisor.rs:477-548 | the outcome is exactly the one the oracle calls for; a rendered change leaves the prepared layout in memory and on disk, the deck as the preparation drew it, without a quarantined wallpaper, and has moved exactly its file; where the bag suffices the preparation is the specified one and only the position moves; where a failure rolls back, a quiet change (the bag suffices, or one wallpaper is all there is) is invisible afterwards: deck (position clipped to the bag), layouts in memory and on disk are as before, even if a failing request restarted the renderer and restored the wallpapers (for Quarantine: if none did); a quarantined file that cannot be moved back stays at its destination; unreadable images and a failed move return without a rollback, leaving what was drawn |
| Supervisors.Supervisor.PrepareToRender | crates/murald/src/supervisor.rs:492-498 | the first half: the preparation with its deck, its target and its layout, and what it leaves for rendering and rollback; an error leaves the index check, an unknown action or draws that cannot be made |
| Supervisors.RoomAfterDraws | crates/murald/src/supervisor.rs:957-986 | for a quarantine whose requests may restore wallpapers: with at most one file, more files than outputs, or fewer listed and on disk than outputs, draws end after any file is moved away, whatever the preparation has drawn |
| Supervisors.RoomExact | crates/murald/src/supervisor.rs:957-986 | on the deck a preparation leaves: draws end whichever file is moved away if and only if at most one file is there, more files than outputs, or fewer are listed than outputs |
| Supervisors.Supervisor.MoveRenderSettle | crates/murald/src/supervisor.rs:528-536 | move, render, then commit or roll back: a commit stores the prepared layout and leaves the prepared deck without a quarantined wallpaper, whose file is at its destination; a failed move leaves everything as prepared, without a rollback; a rollback restores layout and position, and the file unless it cannot be moved back |
| Supervisors.Supervisor.MoveToRender | crates/murald/src/supervisor.rs:528-530 | the move happens exactly when one is prepared and works; afterwards the wallpapers can still be restored without the file |
| Supervisors.Supervisor.RenderPrepared | crates/murald/src/supervisor.rs:550-579 | a health request where the rendering needs one, then the rendering; it succeeds exactly when each is answered and the request is possible |
| Supervisors.Supervisor.FinishPrepared | crates/murald/src/supervisor.rs:505-536 | unreadable images change nothing more; an unusable cache and a failed rendering roll back; otherwise the change is committed |
| Supervisors.Supervisor.RequestRender | crates/murald/src/supervisor.rs:1114-1140 | an exited renderer is restarted before, a broken request after, each counted; without a restart nothing changes, and with everything current in place no restart is noticed |
| Supervisors.Supervisor.RestartRenderer | crates/murald/src/supervisor.rs:1154-1165 | counts the restart, and restores exactly if a process was spawned |
| Supervisors.Supervisor.RestoreCurrentWallpapers | crates/murald/src/supervisor.rs:957-986 | prepares the current wallpapers, whole and healed, and commits them in memory and on disk if they are rendered, else drops what it prepared; it fails only where nothing can be drawn; nothing is drawn when they are whole and on disk |
| Supervisors.RollbackRestores | crates/mural-core/src/wallpaper.rs:392-549 | decided before the preparation, for every action: if a preparation can be completed at all, its rollback brings the deck back, whatever it draws, if and only if the bag holds every wallpaper that all its draws ask for, or one wallpaper is all there is and a rebuild cannot change its bag; none can be completed only where at most one wallpaper is listed or none is on disk |
| Supervisors.SecondDrawNotTakenBack | crates/mural-core/src/wallpaper.rs:737-785 | such a preparation: one output, no history and Next; the bag holds the wallpaper of each draw, but not of both, and the deck does not come back |
| Preparations.PreparationRollbackIff | crates/mural-core/src/wallpaper.rs:392-466 | the same condition, about all that the draws for the first row, the rows a window lacks, a replacement and healing can do one after the other |
| Preparations.PreparesFate | crates/mural-core/src/wallpaper.rs:392-466 | a completed preparation, draw by draw, is one of `Prepares`; where the bag suffices it is exactly the one that is dealt and moves only the position |
| Preparations.SomePreparation | crates/mural-core/src/wallpaper.rs:392-466 | with two wallpapers listed and one on disk a preparation can always be completed (for Quarantine: unless one file is left and a vanished one is listed), and one that the bag does not suffice for in a way that no rollback takes back |
| RollbackRuns.RollbackIff | crates/mural-core/src/wallpaper.rs:674-727 | the same about a single draw of the loop: every way it can go is taken back if and only if the bag holds enough for it, or one wallpaper is all there is |
| RollbackRuns.DrawFate | crates/mural-core/src/wallpaper.rs:674-727 | what a draw can do to the deck, in all its runs: where the bag suffices it takes what is scanned and moves the position; with one wallpaper for all only the position moves |
| RollbackRuns.NoTurnIff | crates/mural-core/src/wallpaper.rs:699-709 | a run of draws rebuilds the bag if and only if what is left in it does not suffice |
| Supervisors.RollbackAcrossRebuild | crates/mural-core/src/wallpaper.rs:542-549 | after a rebuild of the same length the old position points into another bag, and the next wallpaper is a different one |
| TextureRuns.RunExact | crates/murald/src/surface.rs:417-971 | over every run of operations on any number of outputs and with any replies: each live texture has exactly one owner, but for those that a reply made an uploaded entry forget, and with none of these every one has; no transition is under way beside a wallpaper, and what is freed exists and is freed once |
| TextureRuns.ApplyConserves | crates/murald/src/surface.rs:417-971 | each operation conserves textures: owned afterwards plus freed plus lost is owned before plus handed in, and only a reply to an uploaded entry loses one |
| TextureRuns.EmptyIffNoTextures | crates/murald/src/render_control.rs:127-131 | with all outputs destroyed no texture is left |
| DaemonRuns.DaemonRunOk | crates/murald/src/render_control.rs:8-80 | over every run of the renderer and its workers (queueing, lookahead, popping, cuts, starts, canvas targets, settling, uploads, destruction, replies in any order): each live texture has exactly one owner, nothing is freed twice, no job is sent twice, only the first four entries of a queue are prepared, and a reply that reaches a queue finds an entry that is being decoded, so it loses nothing |
| DaemonRuns.MovesOk | crates/murald/src/render_control.rs:32-72 | each action keeps ownership and decode protocol together |
| DaemonRuns.PopsOk | crates/murald/src/surface.rs:626-652 | popping any number of entries, with the lookahead after each, keeps the protocol |
| DaemonRuns.ReplyLosesNothing | crates/murald/src/render_control.rs:32-72 | a reply the protocol allows never meets an uploaded entry |
| DaemonRuns.EmptyIsSound | crates/murald/src/render_control.rs:127-131 | a renderer whose outputs own nothing starts in order |
| QueueRuns.DecodedIsShown | crates/murald/src/render_control.rs:32-80 | from queueing to display, over every run: a queued wallpaper whose job is answered with an image and whose entry is made a texture was decoded to that image, is never passed over, and when its turn comes that texture is shown under its own path and mode |
| QueueRuns.FailedIsPassedOver | crates/murald/src/surface.rs:626-652 | a wallpaper whose job is answered with an error is never started |
| QueueRuns.ReplyDecides | crates/murald/src/surface.rs:827-836 | over every run a reply with an image leaves its entry decoded to that image until it is uploaded, and an error leaves it failed |
| QueueRuns.UploadStays | crates/murald/src/surface.rs:890-914 | what an upload made of an entry it stays, as long as it is queued |
| QueueRuns.EntryStays | crates/murald/src/surface.rs:434-445 | over every run an entry keeps the output, id, path, mode and kind it was queued with |
| QueueRuns.EntriesCome | crates/murald/src/surface.rs:787-914 | an action changes the entry that a reply is for to its answer, the first decoded one to its upload, paths to sent ones, and nothing else of any entry |
| QueueRuns.FirstFourSent | crates/murald/src/surface.rs:787-821 | at any time of a run exactly the first four entries of a queue no longer wait as paths |
| Surfaces.SettleConserves | crates/murald/src/surface.rs:925-942 | settling keeps the new texture, else the old, and frees the rest once |
| Surfaces.RestoreConserves | crates/murald/src/surface.rs:944-957 | restoring keeps the old texture and frees the rest once |
| Surfaces.DiscardConserves | crates/murald/src/surface.rs:959-971 | discarding frees old, new and auxiliary textures once |
| Surfaces.SetCutConserves | crates/murald/src/surface.rs:417-432 | a cut frees queue, transition and previous wallpaper once and keeps the given texture |
| Surfaces.CutShows | crates/murald/src/surface.rs:417-432 | after a cut the output shows the given wallpaper under its path and mode, with no transition and no queue |
| Surfaces.StartConserves | crates/murald/src/surface.rs:447-508 | a start hands the wallpaper to the transition as its old texture |
| Surfaces.StartCanvasConserves | crates/murald/src/surface.rs:510-624 | so do canvas starts, whose added end tiles own no texture |
| Surfaces.StartNextConserves | crates/murald/src/surface.rs:626-769 | going through the queue frees what skipped entries own and hands over what the started one owns or makes |
| Surfaces.AcceptCanvasConserves | crates/murald/src/surface.rs:849-888 | a decoded canvas target replaces the target texture or ends the transition |
| Surfaces.AcceptDecodeKeeps | crates/murald/src/surface.rs:827-836 | a reply takes exactly the texture of the first entry with its id, if that one is uploaded, and no other |
| Surfaces.UploadOneConserves | crates/murald/src/surface.rs:890-914 | one upload gives its texture to the entry |
| Surfaces.StartThenRestore | crates/murald/src/surface.rs:944-957 | restoring undoes a start: the output is as it was when the transition began |
| Surfaces.StartThenSettle | crates/murald/src/surface.rs:925-942 | settling completes a start: the new wallpaper, image and mode are shown, the previous texture is freed |
| Surfaces.StartThenGiveUp | crates/murald/src/surface.rs:925-942 | settling a start that has no texture yet brings the former wallpaper back |
| Surfaces.PendingCanvasEnds | crates/murald/src/surface.rs:568-624 | a canvas that waits for its target shows the decoded texture in the end, or, if decoding fails, what was there before |
| Surfaces.EndsShown | crates/murald/src/transitions/canvas/layout.rs:366-377 | the tiles of a canvas transition are those built, then, without a texture, the old and the new wallpaper where they are not among them |
| Surfaces.ReadyTilesAre | crates/murald/src/transitions/canvas/layout.rs:330-343 | the ready tiles are counted each once: those with a texture and those of the old and the new wallpaper |
| Surfaces.QueueingIsFast | crates/murald/src/surface.rs:434-445 | queueing only appends, speeds up the transition under way and looks ahead no further than the first four; what starts from the queue runs fast |
| Surfaces.PoppedInOrder | crates/murald/src/surface.rs:626-652 | entries are started in the order they were queued, whatever has been decoded meanwhile |
| Surfaces.DestroyFreesAll | crates/murald/src/surface.rs:1059-1069 | destroying an output frees exactly what it owns |
| OutputSurfaces.OutputSurface.SettleTransition | crates/murald/src/surface.rs:925-942 | in place; every texture freed exists at that moment |
| OutputSurfaces.OutputSurface.RestoreOldTransitionWallpaper | crates/murald/src/surface.rs:944-957 | in place |
| OutputSurfaces.OutputSurface.DiscardTransition | crates/murald/src/surface.rs:959-971 | in place |
| OutputSurfaces.OutputSurface.ClearQueue | crates/murald/src/surface.rs:916-923 | the loop empties the queue and frees what its entries own, each texture once |
| OutputSurfaces.OutputSurface.SetCutWallpaper | crates/murald/src/surface.rs:417-432 | in place: queue cleared, transition settled, previous wallpaper freed, texture and image set |
| OutputSurfaces.OutputSurface.StartPairwiseTransition | crates/murald/src/surface.rs:447-472 | in place |
| OutputSurfaces.OutputSurface.StartWorldTransition | crates/murald/src/surface.rs:474-508 | in place |
| OutputSurfaces.OutputSurface.StartCanvasTransition | crates/murald/src/surface.rs:510-624 | in place, with a texture or a decode id |
| OutputSurfaces.OutputSurface.EnqueueWallpaperTransition | crates/murald/src/surface.rs:434-445 | in place: the transition is accelerated, the entry queued, decoding scheduled |
| OutputSurfaces.OutputSurface.ScheduleDecodeLookahead | crates/murald/src/surface.rs:787-821 | the counter and its early stop never keep a path among the first four entries from being sent |
| OutputSurfaces.OutputSurface.StartNextQueued | crates/murald/src/surface.rs:626-652 | the loop drops entries without a texture, with their auxiliary textures, and starts the first that has one |
| OutputSurfaces.OutputSurface.StartPopped | crates/murald/src/surface.rs:635-648 | a popped entry is started with its texture or dropped with what it owns |
| OutputSurfaces.OutputSurface.StartQueuedCanvas | crates/murald/src/surface.rs:714-769 | with fewer than three tiles ready the tiles are freed and the wallpaper is cut to |
| OutputSurfaces.OutputSurface.TextureForQueued | crates/murald/src/surface.rs:771-785 | an uploaded entry brings its texture, a failed one none, any other may get one |
| OutputSurfaces.OutputSurface.CanvasTilesForPaths | crates/murald/src/surface.rs:1031-1056 | a tile per path, never a texture where the old wallpaper is shown |
| OutputSurfaces.OutputSurface.AcceptDecodeResult | crates/murald/src/surface.rs:827-836 | in place: the first entry with the id is decoded to the image or has failed; `QueueRuns` says what that means for it and the others |
| OutputSurfaces.OutputSurface.AcceptActiveCanvasDecode | crates/murald/src/surface.rs:849-888 | in place; on an error the old wallpaper comes back |
| OutputSurfaces.OutputSurface.UploadOneQueuedTexture | crates/murald/src/surface.rs:890-914 | at most one decoded entry becomes a texture |
| OutputSurfaces.OutputSurface.DestroyTextures | crates/murald/src/surface.rs:1059-1069 | in place; afterwards the output owns nothing |
| OutputSurfaces.EglState.DeleteCanvasTiles | crates/murald/src/transitions/mod.rs:394-400 | the loop frees each tile's texture once |
| OutputSurfaces.EglState.DeleteAux | crates/murald/src/transitions/mod.rs:373-383 | frees exactly the auxiliary textures of a transition |
| SetWallpapers.PlaceUploads | crates/murald/src/transitions/cut.rs:45-55 | cuts (and world starts): outputs show what was placed up to the first frame that fails, the others are untouched; the textures not placed by then stay live without an owner; every live texture has an owner exactly when no frame before the last fails |
| SetWallpapers.FirstFrameFails | crates/murald/src/transitions/cut.rs:45-55 | such a case: two outputs, and the frame of the first fails |
| SetWallpapers.PlacePairwise | crates/murald/src/transitions/pairwise.rs:213-265 | when a frame fails, its output and those started before show their former wallpaper, those after it are untouched and the textures not placed are freed, so nothing is lost whichever frame fails |
| DecodeQueue.RunOk | crates/murald/src/render_control.rs:32-80 | over all interleavings of enqueueing, popping, clearing, replies and uploads: every id is sent at most once, a reply that reaches a queue only hits an entry that is decoding, and only the first four entries of a queue are prepared |
| DecodeQueue.AfterOk | crates/murald/src/surface.rs:787-836 | every event keeps the protocol invariant |
| DecodeQueue.ReplyHitsDecoding | crates/murald/src/surface.rs:827-836 | the entry a reply finds is the only one with its id and awaits it |
| DecodeQueue.AtMostFourPrepared | crates/murald/src/surface.rs:787-821 | entries being decoded, decoded or uploaded are among the first four |
| DecodeQueue.RenderControl.TakeDecodeId | crates/murald/src/render_control.rs:8-12 | ids count up and wrap around past zero |
| DecodeQueue.RenderControl.HandleDecodeResult | crates/murald/src/render_control.rs:32-72 | a reply goes to the canvas target that waits for it, else to the first queue holding its id, whose entry takes its answer |
| DecodeQueue.RenderControl.PumpOneQueueUpload | crates/murald/src/render_control.rs:74-80 | at most one upload, in the first output that can be drawn to and has a decoded entry |
| TextLines.LinesRoundTrip | crates/mural-core/src/wallpaper.rs:1252-1301 | lists of lines come back from their file if and only if no line has a newline or ends in a carriage return |
| TextLines.CarriageReturnIsLost | crates/mural-core/src/wallpaper.rs:1252-1301 | such a line: it comes back without its carriage return |
| TextLines.WriteText | crates/mural-core/src/wallpaper.rs:1294-1301 | the loop writes each line and a newline |
| Persistence.LayoutRoundTrip | crates/mural-core/src/wallpaper.rs:956-984 | a layout comes back from its files if and only if its rows are in order, its index is at least one unless there is no history, and its offset is within a row |
| Persistence.HistoryRoundTrip | crates/mural-core/src/wallpaper.rs:1042-1055 | rows come back if and only if their entries are free of tab and newline, none is just one empty entry, and none ends in a carriage return |
| Persistence.UsizeRoundTrip | crates/mural-core/src/wallpaper.rs:1258-1263 | index and offset come back through trimming and parsing |
| Persistence.IndexedSnapshotReads | crates/mural-core/src/world_cache.rs:697-755 | an indexed library is found again by its manifest, the same in paths, count, columns, rows and fingerprint, if and only if its paths are clean lines |
| Manifests.ManifestRoundTrip | crates/mural-core/src/world_cache.rs:640-695 | a manifest comes back from its text if and only if its order policy is a clean line |
| Manifests.ParseManifest | crates/mural-core/src/world_cache.rs:640-669 | the loop over lines computes the specified fields; a line without an equals sign makes the manifest unreadable |
| Manifests.HexRoundTrip | crates/mural-core/src/world_cache.rs:671-695 | a fingerprint written as 16 hexadecimal digits reads back |
| LayoutStates.SavedLayoutLoads | crates/mural-core/src/wallpaper.rs:956-984 | a well-formed layout is loaded as it was saved |

## Left out

- Wayland, EGL, OpenGL, image decoding, sockets, processes, gdb and systemd.
- Crashes between the separate atomic file writes, and write errors; the stored copies of library, favourites,
  bag and position (`persist_core_state`), so also that `walls_idx` keeps an advanced position after a rollback.
- Renderer restarts inside a restart: nothing in the code bounds them; one level is modelled.
- f32 rounding, NaN and infinities: coordinates, margins, progress and scales are exact reals.
- Texts of error messages and which of several missing tiles is named first; error kinds are kept.
- Canvas layouts, grid scoring, push and fade mathematics, scissor rectangles, frame timing.
- Configuration files, profiles, help text, command-line parsing, the CLI token form of transitions on output.
- Response encoders other than the string, object, list and map writers, and the response parsers.
- Neighborhood warm-up scopes, limits and thumbnails; scheduling and deduplication of background warm-ups.
- Decode ids beyond the wrap at 2^64, where uniqueness ends.
- Supervisors.Supervisor.RenderWallpaperAction: does not restore anything it draws when an image check fails, because the code does not; for a Quarantine whose request may restore wallpapers it asks that draws end without any of the files, whatever the preparation draws (`RoomExact`), because otherwise the original may not return.
- TextureRuns.RunExact, DaemonRuns.DaemonRunOk: take the textures of an operation as handed over by its caller; those lost between upload and placement are the subject of `SetWallpapers.PlaceUploads`.
- Outputs that are plugged in or out while jobs are on their way: the number of outputs is fixed in a run.
- WallpaperControls.WallpaperControl.PrepareWallpaperChange: asks that draws for the outputs end (`Ends`) even where the action turns out to need none; windows it asks for can be reached exactly where the original returns (`PreparedReaches`).
