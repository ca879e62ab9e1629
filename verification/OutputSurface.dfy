/** An output as the object its methods change, with the graphics state that makes and frees
    textures. Freeing asks that the texture exists, so no method frees one twice. */
module OutputSurfaces {
  import opened Prelude
  import opened Surfaces

  /** `Incoming` textures exist and are owned nowhere else. */
  function Count(live: set<Texture>, t: Texture): nat { if t in live then 1 else 0 }

  ghost predicate Within(owned: multiset<Texture>, live: set<Texture>) {
    forall t :: owned[t] <= Count(live, t)
  }

  ghost predicate OwnsIn(s: Surface, live: set<Texture>) { Surfaces.WellFormed(s) && Within(Owned(s), live) }

  /** What lives after some textures were made and some freed. */
  ghost predicate LiveAfter(live': set<Texture>, live: set<Texture>, made: multiset<Texture>, freed: multiset<Texture>) {
    forall t :: t in live' <==> (t in live || made[t] > 0) && freed[t] == 0
  }

  class EglState {
    var live: set<Texture>

    constructor ()
      ensures live == {}
    {
      live := {};
    }

    /** Uploading may fail; a texture that is made has a name not in use. */
    method UploadTexture(works: bool) returns (texture: Option<Texture>)
      modifies this
      ensures works <==> texture.Some?
      ensures texture.None? ==> live == old(live)
      ensures texture.Some? ==> texture.value !in old(live) && live == old(live) + {texture.value}
    {
      if !works {
        return None;
      }
      UnusedName(live);
      var name: Texture :| name !in live;
      live := live + {name};
      texture := Some(name);
    }

    method DeleteTexture(texture: Texture)
      requires texture in live
      modifies this
      ensures live == old(live) - {texture}
    {
      live := live - {texture};
    }

    method DeleteOptional(texture: Option<Texture>)
      requires Within(One(texture), live)
      modifies this
      ensures LiveAfter(live, old(live), multiset{}, One(texture))
    {
      if texture.Some? {
        assert One(texture)[texture.value] == 1;
        DeleteTexture(texture.value);
      }
    }

    /** `cleanup_world_tiles`. */
    method DeleteTextures(textures: seq<Texture>)
      requires Within(multiset(textures), live)
      modifies this
      ensures LiveAfter(live, old(live), multiset{}, multiset(textures))
    {
      for i := 0 to |textures|
        invariant LiveAfter(live, old(live), multiset{}, multiset(textures[..i]))
      {
        assert textures[..i + 1] == textures[..i] + [textures[i]];
        assert textures == textures[..i] + textures[i..] && textures[i] in textures[i..];
        assert multiset(textures)[textures[i]] == multiset(textures[..i])[textures[i]] + multiset(textures[i..])[textures[i]];
        DeleteTexture(textures[i]);
      }
      assert textures[..|textures|] == textures;
    }

    /** `delete_canvas_tiles`. */
    method DeleteCanvasTiles(tiles: seq<CanvasTile>)
      requires Within(TileTextures(tiles), live)
      modifies this
      ensures LiveAfter(live, old(live), multiset{}, TileTextures(tiles))
    {
      hide TileTextures, One;
      NoTiles();
      for i := 0 to |tiles|
        invariant LiveAfter(live, old(live), multiset{}, TileTextures(tiles[..i]))
      {
        TilesStep(tiles, i, live, old(live));
        DeleteOptional(tiles[i].texture);
      }
      assert tiles[..|tiles|] == tiles;
    }

    /** `delete_transition_aux_textures`. */
    method DeleteAux(kind: Kind)
      requires Within(Aux(kind), live)
      modifies this
      ensures LiveAfter(live, old(live), multiset{}, Aux(kind))
    {
      match kind
      case Pairwise =>
      case World(tiles) => DeleteTextures(tiles);
      case Canvas(tiles, _) => DeleteCanvasTiles(tiles);
    }

    /** `delete_queued_transition_aux_textures`. */
    method DeleteQueuedAux(kind: QueuedKind)
      requires Within(QueuedAux(kind), live)
      modifies this
      ensures LiveAfter(live, old(live), multiset{}, QueuedAux(kind))
    {
      match kind
      case QueuedPairwise =>
      case QueuedCanvas =>
      case QueuedWorld(tiles) => DeleteTextures(tiles);
    }

    /** What `clear_queue` does with one entry. */
    method DeleteEntry(queued: QueuedWallpaper)
      requires Within(OfEntry(queued), live)
      modifies this
      ensures LiveAfter(live, old(live), multiset{}, OfEntry(queued))
    {
      hide QueuedAux;
      assert forall t :: OfEntry(queued)[t] == OfState(queued.state)[t] + QueuedAux(queued.transition)[t];
      if queued.state.Uploaded? {
        assert OfState(queued.state)[queued.state.texture] == 1;
        DeleteTexture(queued.state.texture);
      }
      DeleteQueuedAux(queued.transition);
    }
  }

  lemma UnusedName(live: set<Texture>)
    ensures exists name: Texture :: name !in live
  {
    var bound := Bound(live);
    assert bound !in live;
  }

  ghost function Bound(live: set<Texture>): (b: nat)
    ensures forall t | t in live :: t < b
  {
    if live == {} then 0
    else
      var t :| t in live;
      assert forall u | u in live :: u == t || u in live - {t};
      Max(t + 1, Bound(live - {t}))
  }

  lemma NoTiles()
    ensures TileTextures([]) == multiset{}
  {}

  lemma TilesStep(tiles: seq<CanvasTile>, i: nat, live: set<Texture>, before: set<Texture>)
    requires i < |tiles| && Within(TileTextures(tiles), before) && LiveAfter(live, before, multiset{}, TileTextures(tiles[..i]))
    ensures Within(One(tiles[i].texture), live)
    ensures forall t :: TileTextures(tiles[..i + 1])[t] == TileTextures(tiles[..i])[t] + One(tiles[i].texture)[t]
  {
    hide One;
    assert tiles[..i + 1][..i] == tiles[..i];
    TilesPrefix(tiles, i + 1);
    forall t ensures TileTextures(tiles[..i + 1])[t] == TileTextures(tiles[..i])[t] + One(tiles[i].texture)[t] {}
    forall t ensures One(tiles[i].texture)[t] <= Count(live, t) {
      assert TileTextures(tiles[..i + 1])[t] <= TileTextures(tiles)[t] <= Count(before, t);
    }
  }

  lemma {:induction false} TilesPrefix(tiles: seq<CanvasTile>, i: nat)
    requires i <= |tiles|
    ensures forall t :: TileTextures(tiles[..i])[t] <= TileTextures(tiles)[t]
    decreases |tiles|
  {
    if i < |tiles| {
      TilesPrefix(tiles[..|tiles| - 1], i);
      assert tiles[..|tiles| - 1][..i] == tiles[..i];
    } else {
      assert tiles[..i] == tiles;
    }
  }

  class OutputSurface {
    var current_image: Option<string>
    var scale_mode: Mode
    var wallpaper: Option<Texture>
    var transition: Option<ActiveTransition>
    var queue: seq<QueuedWallpaper>
    var restore_pending: bool

    constructor ()
      ensures Value() == Surface(None, 0, None, None, [], false)
    {
      current_image, scale_mode, wallpaper, transition, queue, restore_pending := None, 0, None, None, [], false;
    }

    function Value(): Surface
      reads this
    {
      Surface(current_image, scale_mode, wallpaper, transition, queue, restore_pending)
    }

    method SettleTransition(egl: EglState)
      requires OwnsIn(Value(), egl.live)
      modifies this, egl
      ensures Value() == Settle(old(Value())).surface
      ensures LiveAfter(egl.live, old(egl.live), multiset{}, Settle(old(Value())).freed)
    {
      hide Owned, Aux, One, TileTextures, OfQueue, OfTransition;
      if transition.None? {
        return;
      }
      var ended := transition.value;
      TransitionWithin(Value(), egl.live);
      transition := None;
      egl.DeleteAux(ended.kind);
      if ended.new_texture.Some? {
        egl.DeleteOptional(ended.old_texture);
        wallpaper := ended.new_texture;
        current_image := Some(ended.new_image);
        scale_mode := ended.new_scale_mode;
      } else if ended.old_texture.Some? {
        wallpaper := ended.old_texture;
        scale_mode := ended.old_scale_mode;
      }
    }

    method RestoreOldTransitionWallpaper(egl: EglState)
      requires OwnsIn(Value(), egl.live)
      modifies this, egl
      ensures Value() == Restore(old(Value())).surface
      ensures LiveAfter(egl.live, old(egl.live), multiset{}, Restore(old(Value())).freed)
    {
      hide Owned, Aux, One, TileTextures, OfQueue, OfTransition;
      if transition.None? {
        return;
      }
      var ended := transition.value;
      TransitionWithin(Value(), egl.live);
      transition := None;
      egl.DeleteAux(ended.kind);
      egl.DeleteOptional(ended.new_texture);
      if ended.old_texture.Some? {
        wallpaper := ended.old_texture;
        scale_mode := ended.old_scale_mode;
      }
    }

    method DiscardTransition(egl: EglState)
      requires OwnsIn(Value(), egl.live)
      modifies this, egl
      ensures Value() == Discard(old(Value())).surface
      ensures LiveAfter(egl.live, old(egl.live), multiset{}, Discard(old(Value())).freed)
    {
      hide Owned, Aux, One, TileTextures, OfQueue, OfTransition;
      if transition.None? {
        return;
      }
      var ended := transition.value;
      TransitionWithin(Value(), egl.live);
      transition := None;
      egl.DeleteOptional(ended.old_texture);
      egl.DeleteAux(ended.kind);
      egl.DeleteOptional(ended.new_texture);
    }

    method ClearQueue(egl: EglState)
      requires OwnsIn(Value(), egl.live)
      modifies this`queue, egl
      ensures Value() == Surfaces.ClearQueue(old(Value())).surface
      ensures LiveAfter(egl.live, old(egl.live), multiset{}, OfQueue(old(queue)))
    {
      hide Owned, One, OfTransition, OfEntry, OfQueue;
      QueueWithin(Value(), egl.live);
      ghost var before, first := egl.live, queue;
      ghost var freed: multiset<Texture> := multiset{};
      while queue != []
        invariant Within(OfQueue(queue), egl.live)
        invariant LiveAfter(egl.live, before, multiset{}, freed)
        invariant forall t :: freed[t] + OfQueue(queue)[t] == OfQueue(first)[t]
        decreases |queue|
      {
        var queued := queue[0];
        HeadWithin(queue, egl.live);
        queue := queue[1..];
        egl.DeleteEntry(queued);
        freed := freed + OfEntry(queued);
      }
      NothingQueued();
    }

    /** The texture given is not owned yet. */
    method SetCutWallpaper(egl: EglState, image_path: string, texture: Texture, scale_mode: Mode)
      requires TakesOver(Value(), One(Some(texture)), egl.live)
      modifies this, egl
      ensures Value() == SetCut(old(Value()), image_path, texture, scale_mode).surface
      ensures LiveAfter(egl.live, old(egl.live), multiset{}, SetCut(old(Value()), image_path, texture, scale_mode).freed)
      ensures OwnsIn(Value(), egl.live)
    {
      hide Owned, OfQueue, OfTransition, Settle, Aux, TileTextures;
      ghost var first, live := Value(), egl.live;
      ClearQueue(egl);
      ghost var cleared, live1 := Value(), egl.live;
      ClearKeeps(first, live, live1);
      SettleTransition(egl);
      ghost var settled, live2 := Value(), egl.live;
      SettleKeeps(cleared, live1, live2);
      SettledWallpaper(settled, live2);
      egl.DeleteOptional(wallpaper);
      wallpaper := Some(texture);
      current_image := Some(image_path);
      this.scale_mode := scale_mode;
      restore_pending := false;
      forall t ensures Conserves(first, One(Some(texture))[t], SetCut(first, image_path, texture, scale_mode), t) {
        SetCutConserves(first, image_path, texture, scale_mode, t);
      }
      SetCutConserves(first, image_path, texture, scale_mode, texture);
      KeepsOwning(first, One(Some(texture)), SetCut(first, image_path, texture, scale_mode), live, egl.live);
    }

    /** The common part of the `start_` methods; what is handed over is not owned yet. */
    method StartTransition(egl: EglState, image_path: string, texture: Option<Texture>, scale_mode: Mode, kind: Kind, accelerated: bool)
      requires TakesOver(Value(), One(texture) + Aux(kind), egl.live)
      modifies this, egl
      ensures Value() == Start(old(Value()), image_path, texture, scale_mode, kind, accelerated).surface
      ensures LiveAfter(egl.live, old(egl.live), multiset{}, Settle(old(Value())).freed)
      ensures OwnsIn(Value(), egl.live)
    {
      hide Owned, OfQueue, OfTransition, Settle, Aux, TileTextures, One;
      ghost var first, live := Value(), egl.live;
      TakesOverOwns(first, One(texture) + Aux(kind), live);
      SettleTransition(egl);
      var old_texture := wallpaper;
      wallpaper := None;
      restore_pending := false;
      transition := Some(ActiveTransition(old_texture, this.scale_mode, texture, image_path, scale_mode, kind, accelerated));
      forall t ensures Conserves(first, (One(texture) + Aux(kind))[t], Start(first, image_path, texture, scale_mode, kind, accelerated), t) {
        StartConserves(first, image_path, texture, scale_mode, kind, accelerated, t);
      }
      KeepsOwning(first, One(texture) + Aux(kind), Start(first, image_path, texture, scale_mode, kind, accelerated), live, egl.live);
    }

    method StartPairwiseTransition(egl: EglState, image_path: string, texture: Texture, scale_mode: Mode, accelerated: bool)
      requires TakesOver(Value(), One(Some(texture)) + Aux(Pairwise), egl.live)
      modifies this, egl
      ensures Value() == Start(old(Value()), image_path, Some(texture), scale_mode, Pairwise, accelerated).surface
      ensures LiveAfter(egl.live, old(egl.live), multiset{}, Settle(old(Value())).freed)
      ensures OwnsIn(Value(), egl.live)
    {
      StartTransition(egl, image_path, Some(texture), scale_mode, Pairwise, accelerated);
    }

    method StartWorldTransition(egl: EglState, image_path: string, texture: Texture, scale_mode: Mode, tiles: seq<Texture>, accelerated: bool)
      requires TakesOver(Value(), One(Some(texture)) + Aux(World(tiles)), egl.live)
      modifies this, egl
      ensures Value() == Start(old(Value()), image_path, Some(texture), scale_mode, World(tiles), accelerated).surface
      ensures LiveAfter(egl.live, old(egl.live), multiset{}, Settle(old(Value())).freed)
      ensures OwnsIn(Value(), egl.live)
    {
      StartTransition(egl, image_path, Some(texture), scale_mode, World(tiles), accelerated);
    }

    /** `start_canvas_transition`, and with a decode id instead of a texture `start_pending_canvas_transition`. */
    method StartCanvasTransition(egl: EglState, image_path: string, texture: Option<Texture>, scale_mode: Mode, tiles: seq<CanvasTile>,
                                 decode_id: Option<nat>, accelerated: bool)
      requires TakesOver(Value(), One(texture) + TileTextures(tiles), egl.live)
      modifies this, egl
      ensures Value() == StartCanvas(old(Value()), image_path, texture, scale_mode, tiles, decode_id, accelerated).surface
      ensures LiveAfter(egl.live, old(egl.live), multiset{}, Settle(old(Value())).freed)
      ensures OwnsIn(Value(), egl.live)
    {
      hide Owned, OfQueue, OfTransition, Settle, TileTextures, One, EnsureCanvasPath;
      ghost var first, live := Value(), egl.live;
      TakesOverOwns(first, One(texture) + TileTextures(tiles), live);
      SettleTransition(egl);
      var ensured := tiles;
      if current_image.Some? {
        ensured := EnsureCanvasPath(ensured, current_image.value);
      }
      ensured := EnsureCanvasPath(ensured, image_path);
      var old_texture := wallpaper;
      wallpaper := None;
      restore_pending := false;
      transition := Some(ActiveTransition(old_texture, this.scale_mode, texture, image_path, scale_mode, Canvas(ensured, decode_id), accelerated));
      forall t ensures Conserves(first, (One(texture) + TileTextures(tiles))[t], StartCanvas(first, image_path, texture, scale_mode, tiles, decode_id, accelerated), t) {
        StartCanvasConserves(first, image_path, texture, scale_mode, tiles, decode_id, accelerated, t);
      }
      KeepsOwning(first, One(texture) + TileTextures(tiles), StartCanvas(first, image_path, texture, scale_mode, tiles, decode_id, accelerated), live, egl.live);
    }

    /** The loop counts what is prepared among the first four entries and stops at four; as it looks at
        no more than four, every path among them is sent. */
    method ScheduleDecodeLookahead(alive: bool)
      modifies this`queue
      ensures queue == Lookahead(old(queue), alive)
    {
      var prepared := 0;
      var first := Min(MAX_PREPARED_PER_OUTPUT, |queue|);
      for i := 0 to first
        invariant prepared + Paths(queue, i) <= i
      {
        if queue[i].state.Decoding? || queue[i].state.Decoded? || queue[i].state.Uploaded? {
          prepared := prepared + 1;
        }
      }
      ghost var start := queue;
      for i := 0 to first
        invariant |queue| == |start| && prepared + Paths(start, first) <= first + Paths(start, i)
        invariant forall j | 0 <= j < i :: queue[j] == LookaheadEntry(start[j], alive)
        invariant forall j | i <= j < |queue| :: queue[j] == start[j]
      {
        PathsBetween(start, i, first);
        if prepared >= MAX_PREPARED_PER_OUTPUT {
          break;
        }
        if queue[i].state.Path? {
          queue := queue[i := queue[i].(state := if alive then Decoding else Failed)];
          if alive {
            prepared := prepared + 1;
          }
        }
      }
    }

    method EnqueueWallpaperTransition(queued: QueuedWallpaper, alive: bool)
      modifies this
      ensures Value() == Enqueue(old(Value()), queued, alive)
    {
      if transition.Some? {
        transition := Some(transition.value.(accelerated := true));
      }
      restore_pending := false;
      queue := queue + [queued];
      ScheduleDecodeLookahead(alive);
    }

    // ---- making textures ----

    method UploadWallpaperTexture(egl: EglState) returns (texture: Option<Texture>)
      modifies egl
      ensures Fresh(One(texture), old(egl.live)) && LiveAfter(egl.live, old(egl.live), One(texture), multiset{})
    {
      var works: bool := *;
      texture := egl.UploadTexture(works);
    }

    /** An uploaded entry brings its texture; a decoded one is uploaded; one not decoded yet is loaded
        on the spot; each of the last two may fail. */
    method TextureForQueued(egl: EglState, queued: QueuedWallpaper) returns (texture: Option<Texture>)
      modifies egl
      ensures LoadedFor(queued, Loaded(texture, []))
      ensures Fresh(Made(queued, Loaded(texture, [])), old(egl.live))
      ensures LiveAfter(egl.live, old(egl.live), Made(queued, Loaded(texture, [])), multiset{})
    {
      match queued.state
      case Uploaded(t) => texture := Some(t);
      case Failed => texture := None;
      case Decoded(_) => texture := UploadWallpaperTexture(egl);
      case _ =>
        var loads: bool := *;
        if loads {
          texture := UploadWallpaperTexture(egl);
        } else {
          texture := None;
        }
    }

    /** `canvas_tiles_for_preview_paths`, for the paths chosen: a tile has a texture only if its image
        was cached and could be uploaded, and never where the old wallpaper is shown. */
    method CanvasTilesForPaths(egl: EglState, paths: seq<string>, old_path: Option<string>) returns (tiles: seq<CanvasTile>)
      modifies egl
      ensures TilesFor(tiles, paths, old_path)
      ensures Fresh(TileTextures(tiles), old(egl.live)) && LiveAfter(egl.live, old(egl.live), TileTextures(tiles), multiset{})
    {
      hide TileTextures, One;
      tiles := [];
      NoTiles();
      ghost var live := egl.live;
      for i := 0 to |paths|
        invariant |tiles| == i && forall j | 0 <= j < i :: tiles[j].path == paths[j] && (Some(paths[j]) == old_path ==> tiles[j].texture.None?)
        invariant Fresh(TileTextures(tiles), live) && LiveAfter(egl.live, live, TileTextures(tiles), multiset{})
      {
        var texture := None;
        var cached: bool := *;
        if Some(paths[i]) != old_path && cached {
          texture := UploadWallpaperTexture(egl);
        } else {
          NothingMade();
        }
        TilesAppend(tiles, CanvasTile(paths[i], texture));
        tiles := tiles + [CanvasTile(paths[i], texture)];
      }
    }

    // ---- the queue ----

    /** `start_queued_canvas`: with too few tiles ready the wallpaper is cut to. */
    method StartQueuedCanvas(egl: EglState, queued: QueuedWallpaper, texture: Texture, paths: seq<string>) returns (ghost load: Loaded)
      requires queued.transition.QueuedCanvas? && TakesOver(Value(), One(Some(texture)), egl.live)
      modifies this, egl
      ensures load.texture == Some(texture) && Fresh(TileTextures(load.tiles), old(egl.live)) && TilesFor(load.tiles, paths, old(current_image))
      ensures Value() == StartQueued(old(Value()), queued, load).surface
      ensures LiveAfter(egl.live, old(egl.live), TileTextures(load.tiles), StartQueued(old(Value()), queued, load).freed)
      ensures OwnsIn(Value(), egl.live)
    {
      hide Owned, OfQueue, OfTransition, Settle, TileTextures, One, SetCut, Start, StartCanvas;
      ghost var first, live := Value(), egl.live;
      var tiles := CanvasTilesForPaths(egl, paths, current_image);
      ghost var live1 := egl.live;
      var ready := ReadyTiles(tiles, current_image, queued.image_path);
      load := Loaded(Some(texture), tiles);
      MadeApart(first, One(Some(texture)), TileTextures(tiles), live, live1);
      if ready < MIN_CANVAS_READY_TILES {
        egl.DeleteCanvasTiles(tiles);
        SetCutWallpaper(egl, queued.image_path, texture, queued.scale_mode);
      } else {
        StartCanvasTransition(egl, queued.image_path, Some(texture), queued.scale_mode, tiles, None, true);
        CanvasFreed(first, queued.image_path, texture, queued.scale_mode, tiles);
      }
    }

    method StartQueuedWallpaper(egl: EglState, queued: QueuedWallpaper, texture: Texture, paths: seq<string>) returns (ghost load: Loaded)
      requires TakesOver(Value(), One(Some(texture)) + QueuedAux(queued.transition), egl.live)
      modifies this, egl
      ensures load.texture == Some(texture) && Fresh(TileTextures(load.tiles), old(egl.live)) && (!queued.transition.QueuedCanvas? ==> load.tiles == [])
      ensures queued.transition.QueuedCanvas? ==> TilesFor(load.tiles, paths, old(current_image))
      ensures Value() == StartQueued(old(Value()), queued, load).surface
      ensures LiveAfter(egl.live, old(egl.live), TileTextures(load.tiles), StartQueued(old(Value()), queued, load).freed)
      ensures OwnsIn(Value(), egl.live)
    {
      hide Owned, OfQueue, OfTransition, Settle, TileTextures, One, SetCut, StartCanvas;
      NoTiles();
      load := Loaded(Some(texture), []);
      match queued.transition
      case QueuedPairwise =>
        StartPairwiseTransition(egl, queued.image_path, texture, queued.scale_mode, true);
      case QueuedWorld(tiles) =>
        StartWorldTransition(egl, queued.image_path, texture, queued.scale_mode, tiles, true);
      case QueuedCanvas =>
        load := StartQueuedCanvas(egl, queued, texture, paths);
    }

    /** One popped entry: started if it has a texture, dropped if not. */
    method StartPopped(egl: EglState, queued: QueuedWallpaper, paths: seq<string>) returns (started: bool, ghost l: Loaded)
      requires TakesOver(Value(), OfEntry(queued), egl.live)
      modifies this, egl
      ensures started == l.texture.Some? && LoadedFor(queued, l)
      ensures started && queued.transition.QueuedCanvas? ==> TilesFor(l.tiles, paths, old(current_image))
      ensures !started ==> !queued.state.Uploaded? && Value() == old(Value()) && LiveAfter(egl.live, old(egl.live), multiset{}, QueuedAux(queued.transition))
      ensures started ==> Value() == StartQueued(old(Value()), queued, l).surface && Fresh(Made(queued, l), old(egl.live))
      ensures started ==> LiveAfter(egl.live, old(egl.live), Made(queued, l), StartQueued(old(Value()), queued, l).freed)
      ensures OwnsIn(Value(), egl.live)
    {
      hide Owned, OfQueue, OfTransition, TileTextures, One, StartQueued, QueuedAux, LoadedFor, OfEntry, Made, Fresh;
      ghost var s, live1 := Value(), egl.live;
      var texture := TextureForQueued(egl, queued);
      l := Loaded(texture, []);
      ghost var made := Made(queued, l);
      MadeApart(s, OfEntry(queued), made, live1, egl.live);
      if texture.None? {
        FailedEntry(queued, texture, live1);
        QueuedWithin(s, QueuedAux(queued.transition), egl.live);
        egl.DeleteQueuedAux(queued.transition);
        DroppedOwns(s, OfEntry(queued), QueuedAux(queued.transition), live1, egl.live);
        return false, l;
      }
      LoadedEntry(queued, texture);
      TakesSame(s, OfEntry(queued) + made, One(texture) + QueuedAux(queued.transition), egl.live);
      ghost var live2 := egl.live;
      l := StartQueuedWallpaper(egl, queued, texture.value, paths);
      StillLoaded(queued, texture, l);
      StartedLive(queued, texture, l, live1, live2, egl.live, StartQueued(s, queued, l).freed);
      started := true;
    }

    /** Entries are popped until one has a texture; it is started. `mid` is what is left when the
        entries without one have been dropped. */
    method StartNextQueued(egl: EglState, alive: bool, paths: seq<string>)
      returns (started: bool, ghost skipped: nat, ghost load: Option<Loaded>, ghost mid: set<Texture>)
      requires OwnsIn(Value(), egl.live)
      modifies this, egl
      ensures NextFits(old(queue), skipped, load, alive) && started == load.Some?
      ensures Value() == StartNext(old(Value()), skipped, load, alive).surface
      ensures LiveAfter(mid, old(egl.live), multiset{}, SkippedAux(old(queue), skipped))
      ensures load.None? ==> egl.live == mid
      ensures load.Some? && old(queue)[skipped].transition.QueuedCanvas? ==> TilesFor(load.value.tiles, paths, old(current_image))
      ensures load.Some? ==>
        var q := Popped(old(queue), skipped, alive)[0];
        && Fresh(Made(q, load.value), mid)
        && LiveAfter(egl.live, mid, Made(q, load.value), StartQueued(old(Value()).(queue := Popped(old(queue), skipped + 1, alive)), q, load.value).freed)
      ensures OwnsIn(Value(), egl.live)
    {
      hide Owned, OfQueue, OfTransition, TileTextures, One, Popped, SkippedAux, StartQueued, Lookahead, QueuedAux, LoadedFor, OfEntry, Made, Fresh, TakesOver;
      ghost var first, live := Value(), egl.live;
      skipped := 0;
      PoppedNone(first.queue, alive);
      while queue != []
        invariant skipped <= |first.queue| && queue == Popped(first.queue, skipped, alive) && Value() == first.(queue := queue)
        invariant forall i | 0 <= i < skipped :: !first.queue[i].state.Uploaded?
        invariant LiveAfter(egl.live, live, multiset{}, SkippedAux(first.queue, skipped))
        invariant OwnsIn(Value(), egl.live)
        decreases |queue|
      {
        ghost var s1, live1 := Value(), egl.live;
        var queued := queue[0];
        queue := queue[1..];
        ScheduleDecodeLookahead(alive);
        ghost var s2 := Value();
        PoppedNext(first.queue, skipped, alive);
        HeadSplit(s1, s2, alive, live1);
        ghost var l;
        started, l := StartPopped(egl, queued, paths);
        if started {
          load := Some(l);
          StartedFits(first.queue, skipped, queued, l, alive);
          return true, skipped, load, live1;
        }
        SkippedOne(first.queue, skipped, alive);
        skipped := skipped + 1;
      }
      load, mid := None, egl.live;
      started := false;
    }

    // ---- replies and uploads ----

    method AcceptDecodeResult(id: nat, image: Option<nat>)
      modifies this`queue
      ensures queue == AcceptDecode(old(queue), id, image)
    {
      var index := IndexWhere(queue, ById(id));
      if index.Some? {
        queue := queue[index.value := queue[index.value].(state := if image.Some? then Decoded(image.value) else Failed)];
      }
    }

    /** The decoded target of a canvas transition under way; `accepted` is `None` for an error. */
    method AcceptActiveCanvasDecode(egl: EglState, id: nat, decoded: bool) returns (accepted: Option<bool>, ghost texture: Option<Texture>)
      requires OwnsIn(Value(), egl.live)
      modifies this, egl
      ensures accepted == (if !HasActiveCanvasDecode(old(Value()), id) then Some(false) else if texture.Some? then Some(true) else None)
      ensures Value() == AcceptCanvas(old(Value()), id, texture).surface && Fresh(One(texture), old(egl.live))
      ensures LiveAfter(egl.live, old(egl.live), One(texture), AcceptCanvas(old(Value()), id, texture).freed)
      ensures OwnsIn(Value(), egl.live)
    {
      hide Owned, OfQueue, OfTransition, TileTextures, One, Aux, Restore;
      NothingMade();
      texture := None;
      ghost var first, live := Value(), egl.live;
      if !HasActiveCanvasDecode(Value(), id) {
        return Some(false), None;
      }
      var uploaded := None;
      if decoded {
        uploaded := UploadWallpaperTexture(egl);
      }
      if uploaded.None? {
        RestoreOldTransitionWallpaper(egl);
        RestoreKeeps(first, live, egl.live);
        return None, None;
      }
      texture := uploaded;
      MadeApart(first, multiset{}, One(texture), live, egl.live);
      TransitionWithin(first, live);
      ghost var live1 := egl.live;
      var ended := transition.value;
      NewWithin(first, live, live1, One(texture));
      egl.DeleteOptional(ended.new_texture);
      transition := Some(ended.(new_texture := uploaded, kind := ended.kind.(target_decode_id := None)));
      AcceptKeeps(first, id, texture, live, live1, egl.live);
      accepted := Some(true);
    }

    /** `upload_one_queued_texture`: at most one decoded entry is turned into a texture. */
    method UploadOneQueuedTexture(egl: EglState, egl_ready: bool) returns (did: bool, ghost texture: Option<Texture>)
      requires OwnsIn(Value(), egl.live)
      modifies this`queue, egl
      ensures did == (egl_ready && IndexWhere(old(queue), IsDecoded()).Some?)
      ensures queue == if did then UploadOne(old(queue), texture) else old(queue)
      ensures Fresh(One(texture), old(egl.live)) && LiveAfter(egl.live, old(egl.live), One(texture), multiset{})
      ensures OwnsIn(Value(), egl.live)
    {
      hide Owned, OfQueue, OfTransition, One, OfEntry;
      NothingMade();
      texture := None;
      if !egl_ready {
        return false, None;
      }
      var index := IndexWhere(queue, IsDecoded());
      if index.None? {
        return false, None;
      }
      ghost var first, live := Value(), egl.live;
      var i := index.value;
      queue := queue[i := queue[i].(state := Path)];
      var uploaded := UploadWallpaperTexture(egl);
      texture := uploaded;
      queue := queue[i := queue[i].(state := if uploaded.Some? then Uploaded(uploaded.value) else Failed)];
      assert queue == UploadOne(first.queue, texture);
      UploadKeeps(first, texture, live, egl.live);
      did := true;
    }

    /** Everything the output owns is freed. */
    method DestroyTextures(egl: EglState)
      requires OwnsIn(Value(), egl.live)
      modifies this, egl
      ensures Value() == Destroy(old(Value())).surface && Owned(Value()) == multiset{}
      ensures LiveAfter(egl.live, old(egl.live), multiset{}, Owned(old(Value())))
    {
      hide OfQueue, OfTransition, One, Discard, Owned;
      ghost var first, live := Value(), egl.live;
      ClearQueue(egl);
      ghost var live1 := egl.live;
      ClearKeeps(first, live, live1);
      ghost var cleared := Value();
      DiscardTransition(egl);
      DiscardKeeps(cleared, live1, egl.live);
      SettledWallpaper(Value(), egl.live);
      egl.DeleteOptional(wallpaper);
      wallpaper := None;
      DestroyedAll(first);
    }
  }

  lemma PoppedNone(queue: seq<QueuedWallpaper>, alive: bool)
    ensures Popped(queue, 0, alive) == queue && SkippedAux(queue, 0) == multiset{}
  {}

  lemma PoppedNext(queue: seq<QueuedWallpaper>, k: nat, alive: bool)
    requires k < |queue|
    ensures Popped(queue, k + 1, alive) == Lookahead(Popped(queue, k, alive)[1..], alive)
    ensures OfEntry(Popped(queue, k, alive)[0]) == OfEntry(queue[k])
  {
    hide OfEntry, Lookahead;
    EntriesKept(queue, k, alive);
  }

  lemma HeadSplit(s: Surface, s': Surface, alive: bool, live: set<Texture>)
    requires OwnsIn(s, live) && s.queue != [] && s' == s.(queue := Lookahead(s.queue[1..], alive))
    ensures TakesOver(s', OfEntry(s.queue[0]), live)
  {
    hide Owned, OfEntry, Lookahead, OfQueue;
    forall t ensures Owned(s')[t] + OfEntry(s.queue[0])[t] <= Count(live, t) {
      assert Owned(s)[t] <= Count(live, t);
      QueueSwap(s, s'.queue, t);
      LookaheadKeeps(s.queue[1..], alive, t);
      QueueHead(s.queue, t);
    }
  }

  lemma QueueHead(queue: seq<QueuedWallpaper>, t: Texture)
    requires queue != []
    ensures OfQueue(queue)[t] == OfEntry(queue[0])[t] + OfQueue(queue[1..])[t]
  {
    hide OfEntry;
  }

  lemma FailedEntry(q: QueuedWallpaper, texture: Option<Texture>, live: set<Texture>)
    requires texture.None? && LoadedFor(q, Loaded(texture, []))
    ensures !q.state.Uploaded? && OfEntry(q) == QueuedAux(q.transition)
    ensures forall live' | LiveAfter(live', live, Made(q, Loaded(texture, [])), multiset{}) :: live' == live
  {
    hide QueuedAux;
    assert Made(q, Loaded(texture, [])) == multiset{};
  }

  lemma SkippedOne(queue: seq<QueuedWallpaper>, k: nat, alive: bool)
    requires k < |queue|
    ensures Popped(queue, k, alive)[0].transition == queue[k].transition
    ensures Popped(queue, k, alive)[0].state.Uploaded? <==> queue[k].state.Uploaded?
    ensures SkippedAux(queue, k + 1) == SkippedAux(queue, k) + QueuedAux(queue[k].transition)
  {
    hide QueuedAux;
    PoppedInOrder(queue, k, 0, alive);
  }

  lemma DroppedOwns(s: Surface, entry: multiset<Texture>, freed: multiset<Texture>, live: set<Texture>, live': set<Texture>)
    requires TakesOver(s, entry, live) && freed == entry && LiveAfter(live', live, multiset{}, freed)
    ensures OwnsIn(s, live')
  {
    hide Owned;
    forall t ensures Owned(s)[t] <= Count(live', t) {
      assert Owned(s)[t] + entry[t] <= Count(live, t);
      assert t in live' <==> (t in live || multiset{}[t] > 0) && freed[t] == 0;
    }
  }

  lemma LoadedEntry(q: QueuedWallpaper, texture: Option<Texture>)
    requires texture.Some? && LoadedFor(q, Loaded(texture, []))
    ensures forall t :: (OfEntry(q) + Made(q, Loaded(texture, [])))[t] == (One(texture) + QueuedAux(q.transition))[t]
  {
    hide QueuedAux;
    assert TileTextures([]) == multiset{};
  }

  lemma TakesSame(s: Surface, incoming: multiset<Texture>, incoming': multiset<Texture>, live: set<Texture>)
    requires TakesOver(s, incoming, live) && forall t :: incoming[t] == incoming'[t]
    ensures TakesOver(s, incoming', live)
  {
    hide Owned;
    forall t ensures Owned(s)[t] + incoming'[t] <= Count(live, t) {
      assert Owned(s)[t] + incoming[t] <= Count(live, t);
    }
  }

  lemma QueuedWithin(s: Surface, incoming: multiset<Texture>, live: set<Texture>)
    requires TakesOver(s, incoming, live)
    ensures Within(incoming, live)
  {
    hide Owned;
    forall t ensures incoming[t] <= Count(live, t) {
      assert Owned(s)[t] + incoming[t] <= Count(live, t);
    }
  }

  lemma StillLoaded(q: QueuedWallpaper, texture: Option<Texture>, l: Loaded)
    requires texture.Some? && LoadedFor(q, Loaded(texture, []))
    requires l.texture == texture && (!q.transition.QueuedCanvas? ==> l.tiles == [])
    ensures LoadedFor(q, l)
  {}

  lemma StartedFits(queue: seq<QueuedWallpaper>, k: nat, q: QueuedWallpaper, l: Loaded, alive: bool)
    requires k < |queue| && forall i | 0 <= i < k :: !queue[i].state.Uploaded?
    requires q == Popped(queue, k, alive)[0] && l.texture.Some? && LoadedFor(q, l)
    ensures NextFits(queue, k, Some(l), alive) && q.transition == queue[k].transition
  {
    hide Popped;
    PoppedInOrder(queue, k, 0, alive);
  }

  lemma StartedLive(q: QueuedWallpaper, texture: Option<Texture>, l: Loaded, live1: set<Texture>, live2: set<Texture>, live3: set<Texture>, freed: multiset<Texture>)
    requires l.texture == texture
    requires Fresh(Made(q, Loaded(texture, [])), live1) && LiveAfter(live2, live1, Made(q, Loaded(texture, [])), multiset{})
    requires Fresh(TileTextures(l.tiles), live2) && LiveAfter(live3, live2, TileTextures(l.tiles), freed)
    ensures Fresh(Made(q, l), live1) && LiveAfter(live3, live1, Made(q, l), freed)
  {
    hide TileTextures;
    var first := Made(q, Loaded(texture, []));
    MadeParts(q, texture, l);
    forall t ensures Made(q, l)[t] <= 1 && (Made(q, l)[t] == 1 ==> t !in live1) {
      assert first[t] <= 1 && (first[t] == 1 ==> t !in live1);
      assert TileTextures(l.tiles)[t] <= 1 && (TileTextures(l.tiles)[t] == 1 ==> t !in live2);
    }
  }

  lemma MadeParts(q: QueuedWallpaper, texture: Option<Texture>, l: Loaded)
    requires l.texture == texture
    ensures forall t :: Made(q, l)[t] == Made(q, Loaded(texture, []))[t] + TileTextures(l.tiles)[t]
  {
    hide One;
    NoTiles();
  }

  lemma RestoreKeeps(s: Surface, live: set<Texture>, live': set<Texture>)
    requires OwnsIn(s, live) && LiveAfter(live', live, multiset{}, Restore(s).freed)
    ensures OwnsIn(Restore(s).surface, live')
  {
    hide Owned, Restore;
    forall t ensures Conserves(s, multiset{}[t], Restore(s), t) {
      RestoreConserves(s, t);
    }
    RestoreConserves(s, 0);
    KeepsOwning(s, multiset{}, Restore(s), live, live');
  }

  lemma DiscardKeeps(s: Surface, live: set<Texture>, live': set<Texture>)
    requires OwnsIn(s, live) && LiveAfter(live', live, multiset{}, Discard(s).freed)
    ensures OwnsIn(Discard(s).surface, live')
  {
    hide Owned, Discard;
    forall t ensures Conserves(s, multiset{}[t], Discard(s), t) {
      DiscardConserves(s, t);
    }
    DiscardConserves(s, 0);
    KeepsOwning(s, multiset{}, Discard(s), live, live');
  }

  lemma NewWithin(s: Surface, live: set<Texture>, live': set<Texture>, made: multiset<Texture>)
    requires OwnsIn(s, live) && s.transition.Some? && LiveAfter(live', live, made, multiset{})
    ensures Within(One(s.transition.value.new_texture), live')
  {
    hide Owned, One, Aux;
    forall t ensures One(s.transition.value.new_texture)[t] <= Count(live', t) {
      OwnedCount(s, t);
      assert t in live' <==> (t in live || made[t] > 0) && multiset{}[t] == 0;
    }
  }

  /** A texture made and taken over in one method. */
  lemma KeepsOwningMade(s: Surface, made: multiset<Texture>, c: Change, live: set<Texture>, live1: set<Texture>, live': set<Texture>)
    requires OwnsIn(s, live) && Fresh(made, live) && LiveAfter(live1, live, made, multiset{}) && LiveAfter(live', live1, multiset{}, c.freed)
    requires forall t :: Conserves(s, made[t], c, t)
    ensures Within(Owned(c.surface), live') && LiveAfter(live', live, made, c.freed)
  {
    hide Owned;
    MadeApart(s, multiset{}, made, live, live1);
    TakesSame(s, multiset{} + made, made, live1);
    KeepsOwning(s, made, c, live1, live');
  }

  lemma AcceptKeeps(s: Surface, id: nat, texture: Option<Texture>, live: set<Texture>, live1: set<Texture>, live': set<Texture>)
    requires OwnsIn(s, live) && HasActiveCanvasDecode(s, id) && texture.Some? && Fresh(One(texture), live)
    requires LiveAfter(live1, live, One(texture), multiset{}) && LiveAfter(live', live1, multiset{}, One(s.transition.value.new_texture))
    ensures OwnsIn(AcceptCanvas(s, id, texture).surface, live') && LiveAfter(live', live, One(texture), AcceptCanvas(s, id, texture).freed)
  {
    hide Owned, One;
    forall t ensures Conserves(s, One(texture)[t], AcceptCanvas(s, id, texture), t) {
      AcceptCanvasConserves(s, id, texture, t);
    }
    AcceptCanvasConserves(s, id, texture, 0);
    KeepsOwningMade(s, One(texture), AcceptCanvas(s, id, texture), live, live1, live');
  }

  lemma UploadKeeps(s: Surface, texture: Option<Texture>, live: set<Texture>, live': set<Texture>)
    requires OwnsIn(s, live) && IndexWhere(s.queue, IsDecoded()).Some? && Fresh(One(texture), live)
    requires LiveAfter(live', live, One(texture), multiset{})
    ensures OwnsIn(s.(queue := UploadOne(s.queue, texture)), live')
  {
    hide Owned, One, UploadOne, IndexWhere;
    var c := Change(s.(queue := UploadOne(s.queue, texture)), multiset{});
    forall t ensures Conserves(s, One(texture)[t], c, t) {
      UploadOneConserves(s.queue, texture, t);
      QueueSwap(s, c.surface.queue, t);
    }
    KeepsOwningMade(s, One(texture), c, live, live', live');
  }

  lemma DestroyedAll(s: Surface)
    requires Surfaces.WellFormed(s)
    ensures Owned(Destroy(s).surface) == multiset{} && forall t :: Destroy(s).freed[t] == Owned(s)[t]
  {
    hide Destroy, Owned;
    forall t ensures Destroy(s).freed[t] == Owned(s)[t] && Owned(Destroy(s).surface)[t] == 0 {
      DestroyFreesAll(s, t);
    }
  }

  /** Textures just made do not overlap what was owned or handed over. */
  lemma MadeApart(s: Surface, incoming: multiset<Texture>, made: multiset<Texture>, live: set<Texture>, live': set<Texture>)
    requires TakesOver(s, incoming, live) && Fresh(made, live) && LiveAfter(live', live, made, multiset{})
    ensures TakesOver(s, incoming + made, live') && Within(made, live')
    ensures forall live'' | LiveAfter(live'', live', multiset{}, made) :: live'' == live
  {
    hide Owned;
    forall t ensures Owned(s)[t] + (incoming + made)[t] <= Count(live', t) {
      assert Owned(s)[t] + incoming[t] <= Count(live, t);
      assert made[t] <= 1 && (made[t] == 1 ==> t !in live);
      assert t in live' <==> (t in live || made[t] > 0) && multiset{}[t] == 0;
    }
    forall live'' | LiveAfter(live'', live', multiset{}, made) ensures live'' == live {
      forall t ensures t in live'' <==> t in live {
        assert t in live' <==> (t in live || made[t] > 0) && multiset{}[t] == 0;
        assert t in live'' <==> (t in live' || multiset{}[t] > 0) && made[t] == 0;
      }
    }
  }

  lemma CanvasFreed(s: Surface, image_path: string, texture: Texture, scale_mode: Mode, tiles: seq<CanvasTile>)
    ensures StartCanvas(s, image_path, Some(texture), scale_mode, tiles, None, true).freed == Settle(s).freed
  {}

  /** Newly made textures: each once, with names not in use before. */
  ghost predicate Fresh(made: multiset<Texture>, live: set<Texture>) {
    forall t :: made[t] <= 1 && (made[t] == 1 ==> t !in live)
  }

  lemma NothingMade()
    ensures One(None) == multiset{}
  {}

  lemma TilesAppend(tiles: seq<CanvasTile>, tile: CanvasTile)
    ensures forall t :: TileTextures(tiles + [tile])[t] == TileTextures(tiles)[t] + One(tile.texture)[t]
  {
    hide One;
    assert (tiles + [tile])[..|tiles|] == tiles;
  }

  /** How many of the first `n` entries are still paths. */
  function Paths(queue: seq<QueuedWallpaper>, n: nat): nat
    requires n <= |queue|
  {
    if n == 0 then 0 else Paths(queue, n - 1) + if queue[n - 1].state.Path? then 1 else 0
  }

  lemma {:induction false} PathsBetween(queue: seq<QueuedWallpaper>, i: nat, n: nat)
    requires i <= n <= |queue|
    ensures Paths(queue, i) <= Paths(queue, n)
    ensures Paths(queue, i) == Paths(queue, n) ==> forall j | i <= j < n :: !queue[j].state.Path?
    ensures i < n && queue[i].state.Path? ==> Paths(queue, i) < Paths(queue, n)
    decreases n
  {
    if i < n {
      PathsBetween(queue, i, n - 1);
    }
  }

  // ---- ownership across a method ----

  /** The surface's textures and those handed to it exist, each once. */
  ghost predicate TakesOver(s: Surface, incoming: multiset<Texture>, live: set<Texture>) {
    Surfaces.WellFormed(s) && forall t :: Owned(s)[t] + incoming[t] <= Count(live, t)
  }

  lemma TakesOverOwns(s: Surface, incoming: multiset<Texture>, live: set<Texture>)
    requires TakesOver(s, incoming, live)
    ensures OwnsIn(s, live)
  {
    hide Owned;
    forall t ensures Owned(s)[t] <= Count(live, t) {
      assert Owned(s)[t] + incoming[t] <= Count(live, t);
    }
  }

  lemma KeepsOwning(s: Surface, incoming: multiset<Texture>, c: Change, live: set<Texture>, live': set<Texture>)
    requires TakesOver(s, incoming, live) && LiveAfter(live', live, multiset{}, c.freed)
    requires forall t :: Conserves(s, incoming[t], c, t)
    ensures Within(Owned(c.surface), live')
  {
    hide Owned;
    forall t ensures Owned(c.surface)[t] <= Count(live', t) {
      assert Conserves(s, incoming[t], c, t);
      assert Owned(s)[t] + incoming[t] <= Count(live, t);
      assert t in live' <==> (t in live || multiset{}[t] > 0) && c.freed[t] == 0;
    }
  }

  lemma ClearKeeps(s: Surface, live: set<Texture>, live': set<Texture>)
    requires OwnsIn(s, live) && LiveAfter(live', live, multiset{}, OfQueue(s.queue))
    ensures OwnsIn(Surfaces.ClearQueue(s).surface, live')
  {
    hide Owned, OfQueue;
    forall t ensures Conserves(s, multiset{}[t], Surfaces.ClearQueue(s), t) {
      ClearConserves(s, t);
    }
    KeepsOwning(s, multiset{}, Surfaces.ClearQueue(s), live, live');
  }

  lemma SettleKeeps(s: Surface, live: set<Texture>, live': set<Texture>)
    requires OwnsIn(s, live) && LiveAfter(live', live, multiset{}, Settle(s).freed)
    ensures OwnsIn(Settle(s).surface, live')
  {
    hide Owned, Settle;
    forall t ensures Conserves(s, multiset{}[t], Settle(s), t) {
      SettleConserves(s, t);
    }
    SettleConserves(s, 0);
    KeepsOwning(s, multiset{}, Settle(s), live, live');
  }

  lemma SettledWallpaper(s: Surface, live: set<Texture>)
    requires OwnsIn(s, live)
    ensures Within(One(s.wallpaper), live)
  {
    hide Owned, One, Aux, OfQueue;
    forall t ensures One(s.wallpaper)[t] <= Count(live, t) {
      OwnedCount(s, t);
    }
  }

  lemma NothingQueued()
    ensures OfQueue([]) == multiset{}
  {}

  lemma TransitionWithin(s: Surface, live: set<Texture>)
    requires OwnsIn(s, live) && s.transition.Some?
    ensures var a := s.transition.value;
      forall t :: One(a.old_texture)[t] + One(a.new_texture)[t] + Aux(a.kind)[t] <= Count(live, t)
  {
    hide Owned, One, Aux;
    forall t ensures var a := s.transition.value; One(a.old_texture)[t] + One(a.new_texture)[t] + Aux(a.kind)[t] <= Count(live, t) {
      OwnedCount(s, t);
    }
  }

  lemma QueueWithin(s: Surface, live: set<Texture>)
    requires OwnsIn(s, live)
    ensures Within(OfQueue(s.queue), live)
  {
    hide Owned, One, Aux, OfQueue;
    forall t ensures OfQueue(s.queue)[t] <= Count(live, t) {
      OwnedCount(s, t);
    }
  }

  lemma HeadWithin(queue: seq<QueuedWallpaper>, live: set<Texture>)
    requires queue != [] && Within(OfQueue(queue), live)
    ensures forall t :: OfQueue(queue)[t] == OfEntry(queue[0])[t] + OfQueue(queue[1..])[t] <= Count(live, t)
    ensures Within(OfEntry(queue[0]), live)
  {
    hide OfEntry;
  }
}
