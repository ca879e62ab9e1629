/** The textures of one output: its wallpaper, the transition under way, and the queue of wallpapers
    to come. A texture is a handle that must be freed by hand, once. */
module Surfaces {
  import opened Prelude

  type Texture = nat
  type Mode = nat

  const MAX_PREPARED_PER_OUTPUT: nat := 4
  const MIN_CANVAS_READY_TILES: nat := 3

  datatype CanvasTile = CanvasTile(path: string, texture: Option<Texture>)

  datatype Kind = Pairwise
                | World(tiles: seq<Texture>)
                | Canvas(canvas_tiles: seq<CanvasTile>, target_decode_id: Option<nat>)

  datatype ActiveTransition = ActiveTransition(old_texture: Option<Texture>, old_scale_mode: Mode, new_texture: Option<Texture>,
                                               new_image: string, new_scale_mode: Mode, kind: Kind, accelerated: bool)

  datatype QueuedKind = QueuedPairwise | QueuedWorld(tiles: seq<Texture>) | QueuedCanvas
  datatype QueuedState = Path | Decoding | Decoded(image: nat) | Uploaded(texture: Texture) | Failed
  datatype QueuedWallpaper = QueuedWallpaper(id: nat, image_path: string, scale_mode: Mode, transition: QueuedKind, state: QueuedState)

  datatype Surface = Surface(current_image: Option<string>, scale_mode: Mode, wallpaper: Option<Texture>,
                             transition: Option<ActiveTransition>, queue: seq<QueuedWallpaper>, restore_pending: bool)

  // ---- who owns what ----

  function One(t: Option<Texture>): multiset<Texture> { if t.Some? then multiset{t.value} else multiset{} }

  function TileTextures(tiles: seq<CanvasTile>): multiset<Texture> {
    if tiles == [] then multiset{} else TileTextures(tiles[..|tiles| - 1]) + One(tiles[|tiles| - 1].texture)
  }

  function Aux(kind: Kind): multiset<Texture> {
    match kind
    case Pairwise => multiset{}
    case World(tiles) => multiset(tiles)
    case Canvas(tiles, _) => TileTextures(tiles)
  }

  function OfTransition(t: Option<ActiveTransition>): multiset<Texture> {
    if t.None? then multiset{} else One(t.value.old_texture) + One(t.value.new_texture) + Aux(t.value.kind)
  }

  function QueuedAux(kind: QueuedKind): multiset<Texture> { if kind.QueuedWorld? then multiset(kind.tiles) else multiset{} }

  function OfState(state: QueuedState): multiset<Texture> { if state.Uploaded? then multiset{state.texture} else multiset{} }

  function OfEntry(q: QueuedWallpaper): multiset<Texture> { OfState(q.state) + QueuedAux(q.transition) }

  function OfQueue(queue: seq<QueuedWallpaper>): multiset<Texture> {
    if queue == [] then multiset{} else OfEntry(queue[0]) + OfQueue(queue[1..])
  }

  /** Every place that owns a texture, counted as often as it is owned. */
  function Owned(s: Surface): multiset<Texture> { One(s.wallpaper) + OfTransition(s.transition) + OfQueue(s.queue) }

  /** While a transition is under way it holds the old wallpaper. */
  predicate WellFormed(s: Surface) { s.transition.Some? ==> s.wallpaper.None? }

  // ---- the operations; each names the textures it frees ----

  datatype Change = Change(surface: Surface, freed: multiset<Texture>)

  /** `settle_transition`: the new wallpaper stays if there is one, else the old. */
  function Settle(s: Surface): Change {
    match s.transition
    case None => Change(s, multiset{})
    case Some(t) =>
      var ended := s.(transition := None);
      if t.new_texture.Some? then
        Change(ended.(wallpaper := t.new_texture, current_image := Some(t.new_image), scale_mode := t.new_scale_mode), Aux(t.kind) + One(t.old_texture))
      else if t.old_texture.Some? then
        Change(ended.(wallpaper := t.old_texture, scale_mode := t.old_scale_mode), Aux(t.kind))
      else Change(ended, Aux(t.kind))
  }

  /** `restore_old_transition_wallpaper`. */
  function Restore(s: Surface): Change {
    match s.transition
    case None => Change(s, multiset{})
    case Some(t) =>
      var ended := s.(transition := None);
      Change(if t.old_texture.Some? then ended.(wallpaper := t.old_texture, scale_mode := t.old_scale_mode) else ended, Aux(t.kind) + One(t.new_texture))
  }

  /** `discard_transition`. */
  function Discard(s: Surface): Change {
    match s.transition
    case None => Change(s, multiset{})
    case Some(t) => Change(s.(transition := None), One(t.old_texture) + Aux(t.kind) + One(t.new_texture))
  }

  function ClearQueue(s: Surface): Change { Change(s.(queue := []), OfQueue(s.queue)) }

  function SetCut(s: Surface, image_path: string, texture: Texture, scale_mode: Mode): Change {
    var cleared := ClearQueue(s);
    var settled := Settle(cleared.surface);
    Change(settled.surface.(wallpaper := Some(texture), current_image := Some(image_path), scale_mode := scale_mode, restore_pending := false),
           cleared.freed + settled.freed + One(settled.surface.wallpaper))
  }

  /** All the `start_` methods: the wallpaper becomes the transition's old texture. */
  function Start(s: Surface, image_path: string, texture: Option<Texture>, scale_mode: Mode, kind: Kind, accelerated: bool): Change {
    var settled := Settle(s);
    Change(settled.surface.(wallpaper := None, restore_pending := false,
                            transition := Some(ActiveTransition(settled.surface.wallpaper, settled.surface.scale_mode, texture,
                                                                image_path, scale_mode, kind, accelerated))),
           settled.freed)
  }

  function EnsureCanvasPath(tiles: seq<CanvasTile>, path: string): seq<CanvasTile> {
    if path == "" || exists t :: t in tiles && t.path == path then tiles else tiles + [CanvasTile(path, None)]
  }

  /** The tiles of a canvas transition show the old and the new wallpaper. */
  function WithEnds(tiles: seq<CanvasTile>, old_image: Option<string>, new_image: string): seq<CanvasTile> {
    EnsureCanvasPath(if old_image.Some? then EnsureCanvasPath(tiles, old_image.value) else tiles, new_image)
  }

  function StartCanvas(s: Surface, image_path: string, texture: Option<Texture>, scale_mode: Mode, tiles: seq<CanvasTile>,
                       decode_id: Option<nat>, accelerated: bool): Change {
    Start(s, image_path, texture, scale_mode, Canvas(WithEnds(tiles, Settle(s).surface.current_image, image_path), decode_id), accelerated)
  }

  /** `schedule_decode_lookahead`: every path among the first four entries is sent to be decoded. */
  function LookaheadEntry(q: QueuedWallpaper, alive: bool): QueuedWallpaper {
    if q.state.Path? then q.(state := if alive then Decoding else Failed) else q
  }

  function Lookahead(queue: seq<QueuedWallpaper>, alive: bool): (r: seq<QueuedWallpaper>)
    ensures |r| == |queue|
  {
    seq(|queue|, i requires 0 <= i < |queue| => if i < MAX_PREPARED_PER_OUTPUT then LookaheadEntry(queue[i], alive) else queue[i])
  }

  function Enqueue(s: Surface, q: QueuedWallpaper, alive: bool): Surface {
    s.(transition := if s.transition.Some? then Some(s.transition.value.(accelerated := true)) else None,
       restore_pending := false, queue := Lookahead(s.queue + [q], alive))
  }

  /** What becomes of one popped entry: its texture, or the failure to get one; and, for a canvas,
      the tiles built for it. */
  datatype Loaded = Loaded(texture: Option<Texture>, tiles: seq<CanvasTile>)

  /** A tile per path, without a texture where the old wallpaper is shown. */
  predicate TilesFor(tiles: seq<CanvasTile>, paths: seq<string>, old_path: Option<string>) {
    |tiles| == |paths| && forall i | 0 <= i < |tiles| :: tiles[i].path == paths[i] && (Some(paths[i]) == old_path ==> tiles[i].texture.None?)
  }

  predicate ReadyTile(tile: CanvasTile, old_path: Option<string>, target_path: string) {
    tile.texture.Some? || Some(tile.path) == old_path || tile.path == target_path
  }

  /** `canvas_ready_tile_count`. */
  function ReadyTiles(tiles: seq<CanvasTile>, old_path: Option<string>, target_path: string): nat {
    if tiles == [] then 0
    else
      ReadyTiles(tiles[..|tiles| - 1], old_path, target_path) + if ReadyTile(tiles[|tiles| - 1], old_path, target_path) then 1 else 0
  }

  /** An uploaded entry brings its own texture; a failed one none; any other is given one or fails. */
  predicate LoadedFor(q: QueuedWallpaper, l: Loaded) {
    && (q.state.Uploaded? ==> l.texture == Some(q.state.texture))
    && (q.state.Failed? ==> l.texture.None?)
    && (!q.transition.QueuedCanvas? || l.texture.None? ==> l.tiles == [])
  }

  /** The textures made for an entry. */
  function Made(q: QueuedWallpaper, l: Loaded): multiset<Texture> {
    (if q.state.Uploaded? then multiset{} else One(l.texture)) + TileTextures(l.tiles)
  }

  function StartQueued(s: Surface, q: QueuedWallpaper, l: Loaded): Change
    requires l.texture.Some?
  {
    match q.transition
    case QueuedPairwise => Start(s, q.image_path, l.texture, q.scale_mode, Pairwise, true)
    case QueuedWorld(tiles) => Start(s, q.image_path, l.texture, q.scale_mode, World(tiles), true)
    case QueuedCanvas =>
      if ReadyTiles(l.tiles, s.current_image, q.image_path) < MIN_CANVAS_READY_TILES then
        var cut := SetCut(s, q.image_path, l.texture.value, q.scale_mode);
        Change(cut.surface, TileTextures(l.tiles) + cut.freed)
      else StartCanvas(s, q.image_path, l.texture, q.scale_mode, l.tiles, None, true)
  }

  /** The queue after `k` entries have been popped, with a lookahead after each. */
  function Popped(queue: seq<QueuedWallpaper>, k: nat, alive: bool): (r: seq<QueuedWallpaper>)
    requires k <= |queue|
    ensures |r| == |queue| - k
  {
    if k == 0 then queue else Lookahead(Popped(queue, k - 1, alive)[1..], alive)
  }

  function SkippedAux(queue: seq<QueuedWallpaper>, k: nat): multiset<Texture>
    requires k <= |queue|
  {
    if k == 0 then multiset{} else SkippedAux(queue, k - 1) + QueuedAux(queue[k - 1].transition)
  }

  /** `k` entries got no texture; the next one did, unless there was none left. */
  predicate NextFits(queue: seq<QueuedWallpaper>, k: nat, load: Option<Loaded>, alive: bool) {
    && k <= |queue| && (forall i | 0 <= i < k :: !queue[i].state.Uploaded?)
    && match load
       case None => k == |queue|
       case Some(l) => k < |queue| && l.texture.Some? && LoadedFor(Popped(queue, k, alive)[0], l)
  }

  /** `start_next_queued`: entries without a texture are dropped, the first with one is started. */
  function StartNext(s: Surface, k: nat, load: Option<Loaded>, alive: bool): Change
    requires NextFits(s.queue, k, load, alive)
  {
    match load
    case None => Change(s.(queue := Popped(s.queue, k, alive)), SkippedAux(s.queue, k))
    case Some(l) =>
      var started := StartQueued(s.(queue := Popped(s.queue, k + 1, alive)), Popped(s.queue, k, alive)[0], l);
      Change(started.surface, SkippedAux(s.queue, k) + started.freed)
  }

  /** The textures made for the entry that starts. */
  function MadeFor(queue: seq<QueuedWallpaper>, k: nat, load: Option<Loaded>, alive: bool): multiset<Texture>
    requires NextFits(queue, k, load, alive)
  {
    match load
    case None => multiset{}
    case Some(l) => Made(Popped(queue, k, alive)[0], l)
  }

  /** `accept_active_canvas_decode`. */
  function AcceptCanvas(s: Surface, id: nat, texture: Option<Texture>): Change {
    if !HasActiveCanvasDecode(s, id) then Change(s, multiset{})
    else if texture.None? then Restore(s)
    else
      var t := s.transition.value;
      Change(s.(transition := Some(t.(new_texture := texture, kind := t.kind.(target_decode_id := None)))), One(t.new_texture))
  }

  predicate HasActiveCanvasDecode(s: Surface, id: nat) {
    s.transition.Some? && s.transition.value.kind.Canvas? && s.transition.value.kind.target_decode_id == Some(id)
  }

  function ById(id: nat): QueuedWallpaper -> bool { (q: QueuedWallpaper) => q.id == id }
  function IsDecoded(): QueuedWallpaper -> bool { (q: QueuedWallpaper) => q.state.Decoded? }

  function IndexWhere(queue: seq<QueuedWallpaper>, p: QueuedWallpaper -> bool): (r: Option<nat>)
    ensures r.None? <==> forall i | 0 <= i < |queue| :: !p(queue[i])
    ensures r.Some? ==> r.value < |queue| && p(queue[r.value]) && forall i | 0 <= i < r.value :: !p(queue[i])
  {
    if queue == [] then None
    else if p(queue[0]) then Some(0)
    else
      match IndexWhere(queue[1..], p)
      case None => None
      case Some(i) => Some(i + 1)
  }

  /** `accept_decode_result`: the first entry with the id takes the reply, whatever state it is in. */
  function AcceptDecode(queue: seq<QueuedWallpaper>, id: nat, image: Option<nat>): seq<QueuedWallpaper> {
    match IndexWhere(queue, ById(id))
    case None => queue
    case Some(i) => queue[i := queue[i].(state := match image case Some(pixels) => Decoded(pixels) case None => Failed)]
  }

  /** `upload_one_queued_texture`, once the output can be drawn to. */
  function UploadOne(queue: seq<QueuedWallpaper>, texture: Option<Texture>): seq<QueuedWallpaper> {
    match IndexWhere(queue, IsDecoded())
    case None => queue
    case Some(i) => queue[i := queue[i].(state := match texture case Some(t) => Uploaded(t) case None => Failed)]
  }

  function Destroy(s: Surface): Change {
    var cleared := ClearQueue(s);
    var discarded := Discard(cleared.surface);
    Change(discarded.surface.(wallpaper := None), cleared.freed + discarded.freed + One(discarded.surface.wallpaper))
  }

  // ---- conservation ----

  /** Counted for one texture: what is owned afterwards and what was freed are exactly what was owned
      before and what came in. */
  predicate Conserves(s: Surface, incoming: nat, c: Change, t: Texture) {
    Owned(c.surface)[t] + c.freed[t] == Owned(s)[t] + incoming
  }

  /** The count of a surface, part by part. */
  lemma OwnedCount(s: Surface, t: Texture)
    ensures Owned(s)[t] == One(s.wallpaper)[t] + OfQueue(s.queue)[t] + match s.transition
      case None => 0
      case Some(a) => One(a.old_texture)[t] + One(a.new_texture)[t] + Aux(a.kind)[t]
    ensures s.wallpaper.None? ==> One(s.wallpaper)[t] == 0
    ensures s.transition.Some? && s.transition.value.old_texture.None? ==> One(s.transition.value.old_texture)[t] == 0
    ensures s.transition.Some? && s.transition.value.new_texture.None? ==> One(s.transition.value.new_texture)[t] == 0
  {
    hide Aux, OfQueue;
  }

  lemma SettleConserves(s: Surface, t: Texture)
    requires WellFormed(s)
    ensures Conserves(s, 0, Settle(s), t) && WellFormed(Settle(s).surface) && Settle(s).surface.transition.None? && Settle(s).surface.queue == s.queue
  {
    hide Owned, OfTransition, One, Aux, OfQueue;
    OwnedCount(s, t);
    OwnedCount(Settle(s).surface, t);
  }

  lemma RestoreConserves(s: Surface, t: Texture)
    requires WellFormed(s)
    ensures Conserves(s, 0, Restore(s), t) && WellFormed(Restore(s).surface) && Restore(s).surface.transition.None? && Restore(s).surface.queue == s.queue
  {
    hide Owned, OfTransition, One, Aux, OfQueue;
    OwnedCount(s, t);
    OwnedCount(Restore(s).surface, t);
  }

  lemma DiscardConserves(s: Surface, t: Texture)
    requires WellFormed(s)
    ensures Conserves(s, 0, Discard(s), t) && WellFormed(Discard(s).surface) && Discard(s).surface.transition.None? && Discard(s).surface.queue == s.queue
  {
    hide Aux, OfQueue;
  }

  lemma ClearConserves(s: Surface, t: Texture)
    ensures Conserves(s, 0, ClearQueue(s), t)
  {
    hide OfTransition, One;
  }

  lemma SetCutConserves(s: Surface, image_path: string, texture: Texture, scale_mode: Mode, t: Texture)
    requires WellFormed(s)
    ensures Conserves(s, One(Some(texture))[t], SetCut(s, image_path, texture, scale_mode), t)
    ensures WellFormed(SetCut(s, image_path, texture, scale_mode).surface) && SetCut(s, image_path, texture, scale_mode).surface.queue == []
  {
    hide Settle, One;
    SettleConserves(ClearQueue(s).surface, t);
  }

  lemma StartConserves(s: Surface, image_path: string, texture: Option<Texture>, scale_mode: Mode, kind: Kind, accelerated: bool, t: Texture)
    requires WellFormed(s)
    ensures Conserves(s, One(texture)[t] + Aux(kind)[t], Start(s, image_path, texture, scale_mode, kind, accelerated), t)
    ensures WellFormed(Start(s, image_path, texture, scale_mode, kind, accelerated).surface)
    ensures Start(s, image_path, texture, scale_mode, kind, accelerated).surface.queue == s.queue
  {
    hide Settle, One, Aux;
    SettleConserves(s, t);
    NoTexture(t);
  }

  lemma NoTexture(t: Texture)
    ensures One(None)[t] == 0
  {}

  lemma EnsuredTiles(tiles: seq<CanvasTile>, path: string, t: Texture)
    ensures TileTextures(EnsureCanvasPath(tiles, path))[t] == TileTextures(tiles)[t]
  {
    if EnsureCanvasPath(tiles, path) != tiles {
      assert (tiles + [CanvasTile(path, None)])[..|tiles|] == tiles;
    }
  }

  lemma StartCanvasConserves(s: Surface, image_path: string, texture: Option<Texture>, scale_mode: Mode, tiles: seq<CanvasTile>,
                             decode_id: Option<nat>, accelerated: bool, t: Texture)
    requires WellFormed(s)
    ensures Conserves(s, One(texture)[t] + TileTextures(tiles)[t], StartCanvas(s, image_path, texture, scale_mode, tiles, decode_id, accelerated), t)
    ensures WellFormed(StartCanvas(s, image_path, texture, scale_mode, tiles, decode_id, accelerated).surface)
    ensures StartCanvas(s, image_path, texture, scale_mode, tiles, decode_id, accelerated).surface.queue == s.queue
  {
    hide Start, Settle, EnsureCanvasPath, TileTextures, One, OfQueue, OfTransition, Owned;
    var old_image := Settle(s).surface.current_image;
    var first := if old_image.Some? then EnsureCanvasPath(tiles, old_image.value) else tiles;
    if old_image.Some? {
      EnsuredTiles(tiles, old_image.value, t);
    }
    EnsuredTiles(first, image_path, t);
    StartConserves(s, image_path, texture, scale_mode, Canvas(WithEnds(tiles, old_image, image_path), decode_id), accelerated, t);
  }

  lemma {:induction false} QueueAppend(a: seq<QueuedWallpaper>, q: QueuedWallpaper, t: Texture)
    ensures OfQueue(a + [q])[t] == OfQueue(a)[t] + OfEntry(q)[t]
  {
    hide OfEntry;
    if a == [] {
      assert OfQueue([q]) == OfEntry(q) + OfQueue([q][1..]);
      assert a + [q] == [q];
    } else {
      QueueAppend(a[1..], q, t);
      assert (a + [q])[1..] == a[1..] + [q];
    }
  }

  lemma {:induction false} QueueUpdate(queue: seq<QueuedWallpaper>, i: nat, q: QueuedWallpaper, t: Texture)
    requires i < |queue|
    ensures OfQueue(queue[i := q])[t] + OfEntry(queue[i])[t] == OfQueue(queue)[t] + OfEntry(q)[t]
  {
    hide OfEntry;
    if i > 0 {
      QueueUpdate(queue[1..], i - 1, q, t);
      assert queue[i := q][1..] == queue[1..][i - 1 := q];
    } else {
      assert queue[i := q][1..] == queue[1..];
    }
  }

  lemma {:induction false} SameTextures(a: seq<QueuedWallpaper>, b: seq<QueuedWallpaper>, t: Texture)
    requires |a| == |b| && forall i | 0 <= i < |a| :: OfEntry(a[i]) == OfEntry(b[i])
    ensures OfQueue(a)[t] == OfQueue(b)[t]
  {
    hide OfEntry;
    if a != [] {
      SameTextures(a[1..], b[1..], t);
    }
  }

  lemma LookaheadKeeps(queue: seq<QueuedWallpaper>, alive: bool, t: Texture)
    ensures OfQueue(Lookahead(queue, alive))[t] == OfQueue(queue)[t]
  {
    hide OfEntry;
    forall i | 0 <= i < |queue| ensures OfEntry(Lookahead(queue, alive)[i]) == OfEntry(queue[i]) {
      EntryKeeps(queue[i], alive);
    }
    SameTextures(Lookahead(queue, alive), queue, t);
  }

  lemma EntryKeeps(q: QueuedWallpaper, alive: bool)
    ensures OfEntry(LookaheadEntry(q, alive)) == OfEntry(q)
  {
    hide QueuedAux;
  }

  lemma EnqueueConserves(s: Surface, q: QueuedWallpaper, alive: bool, t: Texture)
    requires WellFormed(s)
    ensures Owned(Enqueue(s, q, alive))[t] == Owned(s)[t] + OfEntry(q)[t] && WellFormed(Enqueue(s, q, alive))
  {
    hide OfEntry, OfQueue, Lookahead, One, Aux;
    LookaheadKeeps(s.queue + [q], alive, t);
    QueueAppend(s.queue, q, t);
  }

  lemma StartQueuedConserves(s: Surface, q: QueuedWallpaper, l: Loaded, t: Texture)
    requires WellFormed(s) && l.texture.Some? && LoadedFor(q, l)
    ensures Conserves(s, One(l.texture)[t] + QueuedAux(q.transition)[t] + TileTextures(l.tiles)[t], StartQueued(s, q, l), t)
    ensures WellFormed(StartQueued(s, q, l).surface)
  {
    hide Start, StartCanvas, SetCut, Owned, OfQueue, OfTransition, One, TileTextures;
    NoTilesCount(t);
    match q.transition
    case QueuedPairwise => StartConserves(s, q.image_path, l.texture, q.scale_mode, Pairwise, true, t);
    case QueuedWorld(tiles) => StartConserves(s, q.image_path, l.texture, q.scale_mode, World(tiles), true, t);
    case QueuedCanvas =>
      SetCutConserves(s, q.image_path, l.texture.value, q.scale_mode, t);
      StartCanvasConserves(s, q.image_path, l.texture, q.scale_mode, l.tiles, None, true, t);
  }

  lemma NoTilesCount(t: Texture)
    ensures TileTextures([])[t] == 0
  {
  }

  /** Popping frees what the popped entries owned. */
  lemma {:induction false} PoppedConserves(queue: seq<QueuedWallpaper>, k: nat, alive: bool, t: Texture)
    requires k <= |queue| && forall i | 0 <= i < k :: !queue[i].state.Uploaded?
    ensures OfQueue(Popped(queue, k, alive))[t] + SkippedAux(queue, k)[t] == OfQueue(queue)[t]
    ensures k < |queue| ==> OfEntry(Popped(queue, k, alive)[0]) == OfEntry(queue[k])
  {
    hide Lookahead, OfEntry, QueuedAux;
    EntriesKept(queue, k, alive);
    if k > 0 {
      PoppedConserves(queue, k - 1, alive, t);
      var before := Popped(queue, k - 1, alive);
      LookaheadKeeps(before[1..], alive, t);
      UnloadedEntry(queue[k - 1], t);
      assert OfQueue(before)[t] == OfEntry(before[0])[t] + OfQueue(before[1..])[t];
    }
  }

  lemma {:induction false} EntriesKept(queue: seq<QueuedWallpaper>, k: nat, alive: bool)
    requires k <= |queue|
    ensures forall i | 0 <= i < |queue| - k :: OfEntry(Popped(queue, k, alive)[i]) == OfEntry(queue[k + i])
  {
    hide OfEntry;
    if k > 0 {
      EntriesKept(queue, k - 1, alive);
      var rest := Popped(queue, k - 1, alive)[1..];
      forall i | 0 <= i < |queue| - k ensures OfEntry(Popped(queue, k, alive)[i]) == OfEntry(queue[k + i]) {
        EntryKeeps(rest[i], alive);
        assert rest[i] == Popped(queue, k - 1, alive)[i + 1];
      }
    }
  }

  lemma UnloadedEntry(q: QueuedWallpaper, t: Texture)
    requires !q.state.Uploaded?
    ensures OfEntry(q)[t] == QueuedAux(q.transition)[t]
  {
    hide QueuedAux;
  }

  lemma MadeCount(q: QueuedWallpaper, l: Loaded, t: Texture)
    requires LoadedFor(q, l) && l.texture.Some?
    ensures Made(q, l)[t] + OfEntry(q)[t] == One(l.texture)[t] + TileTextures(l.tiles)[t] + QueuedAux(q.transition)[t]
  {
    hide QueuedAux, TileTextures;
  }

  lemma QueueSwap(s: Surface, queue: seq<QueuedWallpaper>, t: Texture)
    ensures Owned(s.(queue := queue))[t] + OfQueue(s.queue)[t] == Owned(s)[t] + OfQueue(queue)[t]
  {
    hide OfTransition, One, OfQueue;
  }

  lemma StartNextConserves(s: Surface, k: nat, load: Option<Loaded>, alive: bool, t: Texture)
    requires WellFormed(s) && NextFits(s.queue, k, load, alive)
    ensures Conserves(s, MadeFor(s.queue, k, load, alive)[t], StartNext(s, k, load, alive), t)
    ensures WellFormed(StartNext(s, k, load, alive).surface)
  {
    hide StartQueued, Owned, OfQueue, Popped, Made, OfEntry, QueuedAux, LoadedFor, One, TileTextures, SkippedAux;
    PoppedConserves(s.queue, k, alive, t);
    match load
    case None => QueueSwap(s, Popped(s.queue, k, alive), t);
    case Some(l) =>
      var q, popped := Popped(s.queue, k, alive)[0], s.(queue := Popped(s.queue, k + 1, alive));
      PoppedOnce(s.queue, k, alive, t);
      QueueSwap(s, popped.queue, t);
      MadeCount(q, l, t);
      StartQueuedConserves(popped, q, l, t);
  }

  lemma PoppedOnce(queue: seq<QueuedWallpaper>, k: nat, alive: bool, t: Texture)
    requires k < |queue|
    ensures OfQueue(Popped(queue, k, alive))[t] == OfEntry(Popped(queue, k, alive)[0])[t] + OfQueue(Popped(queue, k + 1, alive))[t]
  {
    hide Lookahead, OfEntry;
    LookaheadKeeps(Popped(queue, k, alive)[1..], alive, t);
  }

  lemma SameTiles(s: Surface, id: nat)
    ensures HasActiveCanvasDecode(s, id) ==> Aux(s.transition.value.kind.(target_decode_id := None)) == Aux(s.transition.value.kind)
  {}

  lemma AcceptCanvasConserves(s: Surface, id: nat, texture: Option<Texture>, t: Texture)
    requires WellFormed(s)
    ensures Conserves(s, if HasActiveCanvasDecode(s, id) then One(texture)[t] else 0, AcceptCanvas(s, id, texture), t)
    ensures WellFormed(AcceptCanvas(s, id, texture).surface)
  {
    hide Restore, OfQueue, One, TileTextures, Owned, OfTransition;
    RestoreConserves(s, t);
    NoTexture(t);
    OwnedCount(s, t);
    OwnedCount(AcceptCanvas(s, id, texture).surface, t);
    SameTiles(s, id);
  }

  /** The texture of the entry a reply goes to, if it has one already. */
  function Overwritten(queue: seq<QueuedWallpaper>, id: nat): multiset<Texture> {
    match IndexWhere(queue, ById(id))
    case None => multiset{}
    case Some(i) => OfState(queue[i].state)
  }

  /** A reply replaces the state of the entry it goes to: what an uploaded entry owned is lost, and
      nothing else is. */
  lemma AcceptDecodeKeeps(queue: seq<QueuedWallpaper>, id: nat, image: Option<nat>, t: Texture)
    ensures OfQueue(AcceptDecode(queue, id, image))[t] + Overwritten(queue, id)[t] == OfQueue(queue)[t]
  {
    hide OfQueue, QueuedAux, OfEntry;
    var index := IndexWhere(queue, ById(id));
    if index.Some? {
      var q, answered := queue[index.value], AcceptDecode(queue, id, image)[index.value];
      EntryCount(q, t);
      UnloadedEntry(answered, t);
      QueueUpdate(queue, index.value, answered, t);
    }
  }

  lemma EntryCount(q: QueuedWallpaper, t: Texture)
    ensures OfEntry(q)[t] == OfState(q.state)[t] + QueuedAux(q.transition)[t]
  {
    hide QueuedAux, OfState;
  }

  lemma UploadOneConserves(queue: seq<QueuedWallpaper>, texture: Option<Texture>, t: Texture)
    ensures OfQueue(UploadOne(queue, texture))[t] ==
      OfQueue(queue)[t] + if IndexWhere(queue, IsDecoded()).Some? then One(texture)[t] else 0
  {
    hide OfQueue, QueuedAux, OfEntry;
    var index := IndexWhere(queue, IsDecoded());
    if index.Some? {
      var q, uploaded := queue[index.value], UploadOne(queue, texture)[index.value];
      UnloadedEntry(q, t);
      UploadedEntryOwns(q, texture, t);
      QueueUpdate(queue, index.value, uploaded, t);
    }
  }

  lemma UploadedEntryOwns(q: QueuedWallpaper, texture: Option<Texture>, t: Texture)
    ensures OfEntry(q.(state := match texture case Some(u) => Uploaded(u) case None => Failed))[t] == One(texture)[t] + QueuedAux(q.transition)[t]
  {
    hide QueuedAux;
  }

  /** Destroying a surface frees all it owns. */
  lemma DestroyFreesAll(s: Surface, t: Texture)
    requires WellFormed(s)
    ensures Destroy(s).freed[t] == Owned(s)[t] && Owned(Destroy(s).surface)[t] == 0
  {
    hide One, OfTransition;
    DiscardConserves(ClearQueue(s).surface, t);
    DestroyedOwnsNothing(s, t);
  }

  lemma DestroyedOwnsNothing(s: Surface, t: Texture)
    ensures Owned(Destroy(s).surface)[t] == 0
  {}

  // ---- what is shown ----

  /** After a cut the output shows the wallpaper and nothing else. */
  lemma CutShows(s: Surface, image_path: string, texture: Texture, scale_mode: Mode)
    ensures SetCut(s, image_path, texture, scale_mode).surface == Surface(Some(image_path), scale_mode, Some(texture), None, [], false)
  {
    hide OfQueue, Aux, One;
  }

  /** Restoring undoes a start: the output is as it was when the transition began. */
  lemma StartThenRestore(s: Surface, image_path: string, texture: Option<Texture>, scale_mode: Mode, kind: Kind, accelerated: bool)
    requires WellFormed(s)
    ensures Restore(Start(s, image_path, texture, scale_mode, kind, accelerated).surface).surface == Settle(s).surface.(restore_pending := false)
  {}

  /** Settling completes a start: the new wallpaper is shown and the previous one is freed. */
  lemma StartThenSettle(s: Surface, image_path: string, texture: Texture, scale_mode: Mode, kind: Kind, accelerated: bool)
    requires WellFormed(s)
    ensures var before, settled := Settle(s).surface, Settle(Start(s, image_path, Some(texture), scale_mode, kind, accelerated).surface);
      && settled.surface == before.(wallpaper := Some(texture), current_image := Some(image_path), scale_mode := scale_mode, restore_pending := false)
      && settled.freed == Aux(kind) + One(before.wallpaper)
  {}

  /** Settling a start that has no texture yet brings the former wallpaper back. */
  lemma StartThenGiveUp(s: Surface, image_path: string, scale_mode: Mode, kind: Kind, accelerated: bool)
    requires WellFormed(s)
    ensures Settle(Start(s, image_path, None, scale_mode, kind, accelerated).surface).surface == Settle(s).surface.(restore_pending := false)
  {}

  /** The tiles of a canvas transition: those built, then the old and the new wallpaper where they are
      not among them. */
  lemma EndsShown(tiles: seq<CanvasTile>, old_image: Option<string>, new_image: string)
    ensures var all := WithEnds(tiles, old_image, new_image);
      && tiles <= all && |all| <= |tiles| + 2
      && (new_image != "" ==> exists t :: t in all && t.path == new_image)
      && (old_image.Some? && old_image.value != "" ==> exists t :: t in all && t.path == old_image.value)
      && (forall i | |tiles| <= i < |all| :: all[i].texture.None? && Some(all[i].path) in {old_image, Some(new_image)} && !exists t :: t in tiles && t.path == all[i].path)
  {
    var first := if old_image.Some? then EnsureCanvasPath(tiles, old_image.value) else tiles;
    if old_image.Some? {
      EndShown(tiles, old_image.value);
    }
    EndShown(first, new_image);
  }

  lemma EndShown(tiles: seq<CanvasTile>, path: string)
    ensures var all := EnsureCanvasPath(tiles, path);
      && all in {tiles, tiles + [CanvasTile(path, None)]}
      && (path != "" ==> exists t :: t in all && t.path == path)
      && (all != tiles ==> !exists t :: t in tiles && t.path == path)
  {
    assert CanvasTile(path, None) in tiles + [CanvasTile(path, None)];
  }

  ghost function ReadyPlaces(tiles: seq<CanvasTile>, old_path: Option<string>, target_path: string): set<int> {
    set i | 0 <= i < |tiles| && ReadyTile(tiles[i], old_path, target_path)
  }

  /** The ready tiles are counted each once: those with a texture, and those of the old and the new wallpaper. */
  lemma {:induction false} ReadyTilesAre(tiles: seq<CanvasTile>, old_path: Option<string>, target_path: string)
    ensures ReadyTiles(tiles, old_path, target_path) == |ReadyPlaces(tiles, old_path, target_path)|
  {
    hide ReadyTile;
    if tiles != [] {
      var last := |tiles| - 1;
      ReadyTilesAre(tiles[..last], old_path, target_path);
      assert ReadyPlaces(tiles, old_path, target_path)
          == ReadyPlaces(tiles[..last], old_path, target_path) + if ReadyTile(tiles[last], old_path, target_path) then {last} else {};
    }
  }

  /** Queueing a wallpaper only appends it, speeds up the transition under way, and sends what is among
      the first four; what is started from the queue runs fast. */
  lemma QueueingIsFast(s: Surface, q: QueuedWallpaper, alive: bool, l: Loaded)
    ensures var after := Enqueue(s, q, alive);
      && after.wallpaper == s.wallpaper && after.current_image == s.current_image && after.scale_mode == s.scale_mode && !after.restore_pending
      && (after.transition.Some? <==> s.transition.Some?)
      && (s.transition.Some? ==> after.transition.value == s.transition.value.(accelerated := true))
      && |after.queue| == |s.queue| + 1
      && forall i | MAX_PREPARED_PER_OUTPUT <= i < |after.queue| :: after.queue[i] == (s.queue + [q])[i]
    ensures l.texture.Some? && StartQueued(s, q, l).surface.transition.Some? ==>
      StartQueued(s, q, l).surface.transition.value.accelerated
  {
    hide WithEnds, Aux, One, OfQueue, TileTextures, ReadyTiles;
  }

  /** A canvas that waits for its target: the decoded texture is shown in the end, and if decoding fails
      the output is as it was when the transition began. */
  lemma PendingCanvasEnds(s: Surface, image_path: string, scale_mode: Mode, tiles: seq<CanvasTile>, id: nat, accelerated: bool, texture: Texture)
    requires WellFormed(s)
    ensures var before, pending := Settle(s).surface, StartCanvas(s, image_path, None, scale_mode, tiles, Some(id), accelerated).surface;
      && Settle(AcceptCanvas(pending, id, Some(texture)).surface).surface
         == before.(wallpaper := Some(texture), current_image := Some(image_path), scale_mode := scale_mode, restore_pending := false)
      && AcceptCanvas(pending, id, None).surface == before.(restore_pending := false)
  {
    hide WithEnds;
  }

  /** Entries are started in the order they were queued. */
  lemma {:induction false} PoppedInOrder(queue: seq<QueuedWallpaper>, k: nat, i: nat, alive: bool)
    requires k + i < |queue|
    ensures var q := Popped(queue, k, alive)[i];
      q.id == queue[k + i].id && q.image_path == queue[k + i].image_path && q.scale_mode == queue[k + i].scale_mode
      && q.transition == queue[k + i].transition && (q.state.Uploaded? <==> queue[k + i].state.Uploaded?)
  {
    hide Lookahead;
    if k > 0 {
      PoppedInOrder(queue, k - 1, i + 1, alive);
      LookaheadAlike(Popped(queue, k - 1, alive)[1..], alive, i);
    }
  }

  lemma LookaheadAlike(queue: seq<QueuedWallpaper>, alive: bool, i: nat)
    requires i < |queue|
    ensures Lookahead(queue, alive)[i] == queue[i].(state := Lookahead(queue, alive)[i].state)
    ensures Lookahead(queue, alive)[i].state.Uploaded? <==> queue[i].state.Uploaded?
  {}
}
