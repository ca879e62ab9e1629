/** The supervisor's transaction around a wallpaper change: prepare, render, commit or roll back.
    The renderer may fail at any request; a failed request restarts it, and a restarted renderer is
    shown the current wallpapers again, in the middle of the change. */
module Supervisors {
  import opened Prelude
  import opened StringOrder
  import opened Decks
  import opened Draws
  import opened RollbackRuns
  import opened History
  import opened LayoutStates
  import opened Changes
  import opened Preparations
  import opened WallpaperControls

  /** What happens when the current wallpapers are restored. */
  datatype Restore = Skipped | Displayed(rendered: bool)
  datatype Restart = SpawnFailed | Spawned(restore: Restore)
  datatype Reply = Accepted | Refused | Broken(restart: Restart)

  /** One request: the renderer may be found to have exited before it is sent. */
  datatype RendererRequest = RendererRequest(exited: Option<Restart>, reply: Reply)

  /** The check of the world cache for a world transition. */
  datatype WorldCheck = NotWorld | CacheReady | FallBack | Unavailable

  /** What happens to a change: canvas and world renderings ask for the renderer's health first, and
      their request may not be possible. */
  datatype Oracle = Oracle(images_ok: bool, world: WorldCheck, rename_works: bool, health: Option<RendererRequest>, request_possible: bool,
                           render: RendererRequest, rename_back_works: bool)

  datatype Outcome = Rendered | NotPrepared | BadImages | NoWorldCache | NotQuarantined | NotRendered

  class Supervisor {
    const wallpaper: WallpaperControl
    var restart_count: nat

    constructor (wallpaper: WallpaperControl)
      ensures this.wallpaper == wallpaper && restart_count == 0
    {
      this.wallpaper, restart_count := wallpaper, 0;
    }

    /** The layout of these outputs as disk has it. */
    ghost function Stored(outputs: seq<string>): Layout
      reads wallpaper
    {
      var key := LayoutKey(outputs);
      LoadLayout(if key in wallpaper.saved then wallpaper.saved[key] else SavedLayout([], 0, 0), |outputs|, wallpaper.max_history)
    }

    ghost predicate Usable(l: Layout, outputs: seq<string>)
      reads wallpaper
    {
      WellFormed(l) && l.out_count == |outputs| && l.max_history == wallpaper.max_history && Completable(l)
    }

    /** Layouts in memory and on disk are usable. */
    ghost predicate Sound(outputs: seq<string>)
      reads wallpaper
    {
      && wallpaper.Valid() && outputs != []
      && Usable(Stored(outputs), outputs) && Usable(wallpaper.LayoutFor(outputs), outputs)
    }

    lemma SoundIsValid(outputs: seq<string>)
      requires Sound(outputs)
      ensures wallpaper.Valid()
    {}

    /** Draws for the outputs end. */
    ghost predicate DrawsEnd(outputs: seq<string>)
      reads wallpaper
    {
      Ends(wallpaper.CurrentDeck(), |outputs|, None, wallpaper.CurrentDisk())
    }

    ghost predicate Ready(outputs: seq<string>)
      reads wallpaper
    {
      Sound(outputs) && DrawsEnd(outputs)
    }

    /** Memory and disk hold the same layout, whole, with all its wallpapers there. */
    ghost predicate Settled(outputs: seq<string>)
      reads wallpaper
    {
      var l := wallpaper.LayoutFor(outputs);
      Stored(outputs) == l && Started(l) && Complete(l) && AllShown(Window(l), wallpaper.CurrentDisk())
    }

    /** Nothing that could be noticed later has changed. */
    twostate predicate Unnoticed(outputs: seq<string>)
      reads wallpaper
    {
      && wallpaper.CurrentDeck() == old(wallpaper.CurrentDeck())
      && wallpaper.LayoutFor(outputs) == old(wallpaper.LayoutFor(outputs)) && Stored(outputs) == old(Stored(outputs))
    }

    /** Other layouts are as they were. */
    twostate predicate LayoutsKept(outputs: seq<string>)
      reads wallpaper
    {
      && wallpaper.layouts - {LayoutKey(outputs)} == old(wallpaper.layouts) - {LayoutKey(outputs)}
      && wallpaper.saved - {LayoutKey(outputs)} == old(wallpaper.saved) - {LayoutKey(outputs)}
    }

    /** Other layouts and the files are as they were. */
    twostate predicate OthersKept(outputs: seq<string>)
      reads wallpaper
    {
      && LayoutsKept(outputs) && wallpaper.files == old(wallpaper.files)
      && (wallpaper.library == old(wallpaper.library) || wallpaper.library == Sorted(wallpaper.Folder()))
    }

    /** The current wallpapers have been prepared and, if they were rendered, committed; or nothing could
        be drawn. Without a commit the layout is only on disk. */
    twostate predicate Restored(outputs: seq<string>, rendered: bool)
      reads wallpaper
    {
      || (CannotDraw(old(wallpaper.CurrentDeck()), wallpaper.CurrentDisk())
          && wallpaper.layouts == old(wallpaper.layouts) - {LayoutKey(outputs)} && wallpaper.saved == old(wallpaper.saved))
      || exists l', selection ::
           && StartsBy(old(wallpaper.CurrentDeck()), old(wallpaper.LayoutFor(outputs)), wallpaper.CurrentDeck(), l', selection, wallpaper.CurrentDisk(), wallpaper.favorite_weight)
           && (if rendered then
                 wallpaper.layouts == old(wallpaper.layouts)[LayoutKey(outputs) := l'] && wallpaper.saved == old(wallpaper.saved)[LayoutKey(outputs) := SaveLayout(l')]
               else wallpaper.layouts == old(wallpaper.layouts) - {LayoutKey(outputs)} && wallpaper.saved == old(wallpaper.saved))
    }

    /** Deck and layouts are as they were. */
    twostate predicate Untouched()
      reads wallpaper
    {
      wallpaper.CurrentDeck() == old(wallpaper.CurrentDeck()) && wallpaper.layouts == old(wallpaper.layouts) && wallpaper.saved == old(wallpaper.saved)
    }

    /** `restore_current_wallpapers`. A failed rendering drops what was prepared. */
    method RestoreCurrentWallpapers(outputs: seq<string>, restore: Restore)
      requires Sound(outputs) && (restore.Displayed? ==> DrawsEnd(outputs))
      modifies wallpaper
      ensures Sound(outputs) && OthersKept(outputs) && (old(DrawsEnd(outputs)) ==> DrawsEnd(outputs))
      ensures if restore == Skipped then Untouched() else Restored(outputs, restore.rendered)
      ensures old(Settled(outputs)) ==> Settled(outputs) && Unnoticed(outputs)
    {
      hide DeckOk, Sorted, Ends, Complete, Window, Started, WellFormed, Completable, AllShown, DealStartup, StartsBy, CannotDraw;
      if restore == Skipped {
        return;
      }
      var l, deck, disk := wallpaper.LayoutFor(outputs), wallpaper.CurrentDeck(), wallpaper.CurrentDisk();
      QuietStartup(deck, l, disk);
      var prepared := wallpaper.PrepareStartupDisplay(outputs);
      EndsStays(deck, wallpaper.CurrentDeck(), |outputs|, None, disk);
      if prepared.Ok? {
        StartedUsable(prepared.value.layout);
        if restore.rendered {
          wallpaper.CommitWallpaperChange(prepared.value);
        }
      }
    }

    /** `restart_renderer`. */
    method RestartRenderer(outputs: seq<string>, restart: Restart) returns (ok: bool)
      requires Sound(outputs) && (Restores(restart) ==> DrawsEnd(outputs))
      modifies this`restart_count, wallpaper
      ensures Sound(outputs) && OthersKept(outputs) && (old(DrawsEnd(outputs)) ==> DrawsEnd(outputs))
      ensures ok <==> restart.Spawned?
      ensures restart_count == old(restart_count) + 1
      ensures match restart
              case Spawned(Displayed(rendered)) => Restored(outputs, rendered)
              case _ => Untouched()
      ensures old(Settled(outputs)) ==> Settled(outputs) && Unnoticed(outputs)
    {
      restart_count := restart_count + 1;
      if restart == SpawnFailed {
        return false;
      }
      RestoreCurrentWallpapers(outputs, restart.restore);
      ok := true;
    }

    /** `renderer_request`: an exited renderer is restarted first; a broken request restarts it and fails. */
    method RequestRender(outputs: seq<string>, request: RendererRequest) returns (ok: bool)
      requires Sound(outputs) && (RequestRestores(request) ==> DrawsEnd(outputs))
      modifies this`restart_count, wallpaper
      ensures Sound(outputs) && OthersKept(outputs) && (old(DrawsEnd(outputs)) ==> DrawsEnd(outputs))
      ensures ok <==> Answered(request)
      ensures restart_count == old(restart_count) + RestartsIn(request)
      ensures old(Settled(outputs)) ==> Settled(outputs) && Unnoticed(outputs)
      ensures !RequestRestarts(request) ==> Untouched()
    {
      hide Sound, Settled, DrawsEnd, Restored;
      if request.exited.Some? {
        var restarted := RestartRenderer(outputs, request.exited.value);
        if !restarted {
          return false;
        }
      }
      match request.reply
      case Accepted => ok := true;
      case Refused => ok := false;
      case Broken(restart) =>
        var _ := RestartRenderer(outputs, restart);
        ok := false;
    }

    /** The requests of one rendering: for health, where the rendering needs it, then to render. */
    method RenderPrepared(outputs: seq<string>, oracle: Oracle) returns (ok: bool)
      requires Sound(outputs) && (MayRestore(oracle) ==> DrawsEnd(outputs))
      modifies this`restart_count, wallpaper
      ensures Sound(outputs) && OthersKept(outputs)
      ensures ok <==> Succeeds(oracle)
      ensures restart_count == old(restart_count)
        + (if oracle.health.Some? then RestartsIn(oracle.health.value) else 0) + if Requests(oracle) then RestartsIn(oracle.render) else 0
      ensures old(Settled(outputs)) ==> Settled(outputs) && Unnoticed(outputs)
      ensures !Restarts(oracle) ==> Untouched()
    {
      hide Sound, Settled, DrawsEnd;
      if oracle.health.Some? {
        var healthy := RequestRender(outputs, oracle.health.value);
        if !healthy {
          return false;
        }
      }
      if !oracle.request_possible {
        return false;
      }
      ok := RequestRender(outputs, oracle.render);
    }

    /** If the wallpapers may be restored after a file has been moved away, draws end without it too,
        whatever the preparation has drawn. */
    ghost predicate Roomy(action: Action, outputs: seq<string>, capture: bool, oracle: Oracle)
      reads wallpaper
    {
      action.Quarantine? && oracle.rename_works && MayRestore(oracle) ==>
        forall d', p | PreparesBy(wallpaper.CurrentDeck(), wallpaper.LayoutFor(outputs), action, capture, d', p, wallpaper.CurrentDisk(), wallpaper.favorite_weight) ::
          EndsWithout(d', |outputs|, wallpaper.CurrentDisk())
    }

    /** Everything current is in place, and a rollback takes back whatever is drawn: the bag holds it all,
        or there is one wallpaper for all. */
    ghost predicate Quiet(action: Action, outputs: seq<string>, capture: bool)
      reads wallpaper
      requires Ready(outputs) && wallpaper.ReadyFor(action, outputs, capture)
    {
      && Settled(outputs) && IndexOk(action, |outputs|)
      && (Dealt(action, outputs, capture) || OneForAll(wallpaper.CurrentDeck(), wallpaper.CurrentDisk(), wallpaper.favorite_weight))
    }

    /** The change can be prepared from the current bag. */
    ghost predicate Dealt(action: Action, outputs: seq<string>, capture: bool)
      reads wallpaper
      requires Ready(outputs) && wallpaper.ReadyFor(action, outputs, capture) && IndexOk(action, |outputs|)
    {
      DealChange(wallpaper.CurrentDeck(), wallpaper.LayoutFor(outputs), action, capture, wallpaper.CurrentDisk()).Some?
    }

    /** The second half of `render_wallpaper_action`: move a quarantined file, render, then commit
        the change or roll it back. */
    method MoveRenderSettle(prepared: PreparedChange, action: Action, outputs: seq<string>, destination: string, oracle: Oracle) returns (outcome: Outcome)
      requires Ready(outputs) && prepared.layout_key == LayoutKey(outputs)
      requires action.Quarantine? && oracle.rename_works && MayRestore(oracle) ==>
        EndsWithout(wallpaper.CurrentDeck(), |outputs|, wallpaper.CurrentDisk())
      requires QuarantineOk(prepared.quarantine, action, destination, wallpaper.CurrentDisk())
      requires !wallpaper.eligible(destination) && destination !in wallpaper.files
      modifies this`restart_count, wallpaper
      ensures wallpaper.Valid() && outcome == SettledAs(oracle, prepared.quarantine.Some?)
      ensures outcome == Rendered ==>
        && wallpaper.LayoutFor(outputs) == prepared.layout && LayoutsKept(outputs)
        && LayoutKey(outputs) in wallpaper.saved && wallpaper.saved[LayoutKey(outputs)] == SaveLayout(prepared.layout)
        && wallpaper.files == FilesAfterMove(old(wallpaper.files), prepared.quarantine)
      ensures outcome == Rendered && ((old(Settled(outputs)) && prepared.quarantine.None?) || !Restarts(oracle)) ==>
        wallpaper.CurrentDeck() == DeckAfterCommit(old(wallpaper.CurrentDeck()), prepared.quarantine)
      ensures outcome == Rendered && prepared.quarantine.Some? ==> Gone(prepared.quarantine.value.source)
      ensures outcome == NotQuarantined || (outcome == NotRendered && (prepared.quarantine.None? || oracle.rename_back_works)) ==>
        wallpaper.files == old(wallpaper.files)
      ensures outcome == NotRendered && prepared.quarantine.Some? && !oracle.rename_back_works ==>
        wallpaper.files == FilesAfterMove(old(wallpaper.files), prepared.quarantine)
      ensures outcome == NotRendered ==> wallpaper.LayoutFor(outputs) == prepared.layout_before
      ensures outcome == NotRendered && ((old(Settled(outputs)) && prepared.quarantine.None?) || !Restarts(oracle)) ==>
        && wallpaper.CurrentDeck() == RolledBack(old(wallpaper.CurrentDeck()), prepared)
        && Stored(outputs) == old(Stored(outputs)) && LayoutsKept(outputs)
      ensures outcome == NotQuarantined ==>
        wallpaper.CurrentDeck() == old(wallpaper.CurrentDeck()) && wallpaper.layouts == old(wallpaper.layouts) && wallpaper.saved == old(wallpaper.saved)
    {
      hide DeckOk, Sorted, Ends, Complete, Window, Started, WellFormed, Completable, AllShown, Forgotten, LoadLayout, SaveLayout, LayoutKey, EndsWithout,
           Settled, Sound, DrawsEnd, Succeeds, Restarts, MayRestore, WallpaperControl.Valid, FilesAfterMove, FilesAfterRollback;
      ghost var files := wallpaper.files;
      var moved, p := MoveToRender(prepared, action, outputs, destination, oracle);
      SoundIsValid(outputs);
      if !moved {
        return NotQuarantined;
      }
      var rendered := RenderPrepared(outputs, oracle);
      SoundIsValid(outputs);
      if !rendered {
        wallpaper.RollbackWallpaperChange(p, oracle.rename_back_works);
        FilesMovedBack(files, prepared.quarantine, p, oracle.rename_back_works);
        return NotRendered;
      }
      ghost var last := wallpaper.CurrentDeck();
      wallpaper.CommitWallpaperChange(p);
      if p.quarantine.Some? {
        ForgottenIsGone(last, p.quarantine.value.source);
      }
      outcome := Rendered;
    }

    /** The move, and what the rendering may then count on. */
    method MoveToRender(prepared: PreparedChange, action: Action, outputs: seq<string>, destination: string, oracle: Oracle)
      returns (ok: bool, moved: PreparedChange)
      requires Ready(outputs) && QuarantineOk(prepared.quarantine, action, destination, wallpaper.CurrentDisk())
      requires action.Quarantine? && oracle.rename_works && MayRestore(oracle) ==>
        EndsWithout(wallpaper.CurrentDeck(), |outputs|, wallpaper.CurrentDisk())
      requires !wallpaper.eligible(destination) && destination !in wallpaper.files
      modifies wallpaper`files
      ensures Sound(outputs) && ok == (prepared.quarantine.Some? ==> oracle.rename_works)
      ensures ok && MayRestore(oracle) ==> DrawsEnd(outputs)
      ensures prepared.quarantine.None? ==> moved == prepared && (old(Settled(outputs)) ==> Settled(outputs))
      ensures ok && prepared.quarantine.Some? ==> moved == prepared.(quarantine := Some(prepared.quarantine.value.(moved := true)))
      ensures wallpaper.files == if ok then FilesAfterMove(old(wallpaper.files), prepared.quarantine) else old(wallpaper.files)
      ensures ok && prepared.quarantine.Some? ==> prepared.quarantine.value.source !in wallpaper.Folder()
    {
      hide DeckOk, Sorted, Ends, Complete, Window, Started, WellFormed, Completable, AllShown, LoadLayout, SaveLayout, LayoutKey, MayRestore;
      ghost var deck, disk := wallpaper.CurrentDeck(), wallpaper.CurrentDisk();
      ok, moved := wallpaper.MoveQuarantine(prepared, oracle.rename_works);
      if ok && prepared.quarantine.Some? {
        assert wallpaper.Folder() == disk.folder - {prepared.quarantine.value.source};
        if MayRestore(oracle) {
          StillEnds(deck, |outputs|, disk, wallpaper.CurrentDisk());
        }
      }
    }

    /** A wallpaper that is neither in the directory nor in any list. */
    predicate Gone(path: string)
      reads wallpaper
    {
      path !in wallpaper.Folder() && path !in wallpaper.library && path !in wallpaper.favorites && path !in wallpaper.shuffle_bag
    }

    /** What `render_wallpaper_action` does with a prepared change: unreadable images end it as it is, an
        unusable world cache rolls it back. */
    method FinishPrepared(prepared: PreparedChange, action: Action, outputs: seq<string>, destination: string, oracle: Oracle) returns (outcome: Outcome)
      requires Ready(outputs) && prepared.layout_key == LayoutKey(outputs)
      requires action.Quarantine? && oracle.rename_works && MayRestore(oracle) ==>
        EndsWithout(wallpaper.CurrentDeck(), |outputs|, wallpaper.CurrentDisk())
      requires QuarantineOk(prepared.quarantine, action, destination, wallpaper.CurrentDisk())
      requires !wallpaper.eligible(destination) && destination !in wallpaper.files
      modifies this`restart_count, wallpaper
      ensures wallpaper.Valid() && outcome == OutcomeOf(oracle, prepared.quarantine.Some?)
      ensures outcome == Rendered ==>
        && wallpaper.LayoutFor(outputs) == prepared.layout && LayoutsKept(outputs)
        && LayoutKey(outputs) in wallpaper.saved && wallpaper.saved[LayoutKey(outputs)] == SaveLayout(prepared.layout)
        && wallpaper.files == FilesAfterMove(old(wallpaper.files), prepared.quarantine)
      ensures outcome == Rendered && ((old(Settled(outputs)) && prepared.quarantine.None?) || !Restarts(oracle)) ==>
        wallpaper.CurrentDeck() == DeckAfterCommit(old(wallpaper.CurrentDeck()), prepared.quarantine)
      ensures outcome == Rendered && prepared.quarantine.Some? ==> Gone(prepared.quarantine.value.source)
      ensures outcome != Rendered && (outcome == NotRendered && prepared.quarantine.Some? ==> oracle.rename_back_works) ==> wallpaper.files == old(wallpaper.files)
      ensures outcome == NotRendered && prepared.quarantine.Some? && !oracle.rename_back_works ==>
        wallpaper.files == FilesAfterMove(old(wallpaper.files), prepared.quarantine)
      ensures outcome in {BadImages, NotQuarantined} ==>
        wallpaper.CurrentDeck() == old(wallpaper.CurrentDeck()) && wallpaper.layouts == old(wallpaper.layouts) && wallpaper.saved == old(wallpaper.saved)
      ensures outcome in {NoWorldCache, NotRendered} ==> wallpaper.LayoutFor(outputs) == prepared.layout_before
      ensures outcome in {NoWorldCache, NotRendered} && ((old(Settled(outputs)) && prepared.quarantine.None?) || !Restarts(oracle)) ==>
        && wallpaper.CurrentDeck() == RolledBack(old(wallpaper.CurrentDeck()), prepared)
        && Stored(outputs) == old(Stored(outputs)) && LayoutsKept(outputs)
    {
      hide DeckOk, Sorted, Ends, WellFormed, Completable, Started, Complete, AllShown, Window, SaveLayout, LoadLayout, Forgotten;
      if !oracle.images_ok {
        return BadImages;
      }
      if oracle.world == Unavailable {
        wallpaper.RollbackWallpaperChange(prepared, oracle.rename_back_works);
        return NoWorldCache;
      }
      outcome := MoveRenderSettle(prepared, action, outputs, destination, oracle);
    }

    /** `render_wallpaper_action`. `drawn` is the deck after the preparation `p`. A rendered change leaves
        that deck, without a quarantined wallpaper, and moves exactly its file. Where a failure rolls the
        change back, a quiet change leaves no trace, even when a failing request restarted the renderer
        and restored the current wallpapers in between; only a quarantined file may be left at its
        destination, if it cannot be moved back. The early returns for unreadable images and for a file
        that cannot be moved do not roll back. */
    method RenderWallpaperAction(action: Action, outputs: seq<string>, capture: bool, destination: string, oracle: Oracle)
      returns (outcome: Outcome, ghost p: Preparation, ghost drawn: Deck)
      requires Ready(outputs) && wallpaper.ReadyFor(action, outputs, capture)
      requires Roomy(action, outputs, capture, oracle) && !wallpaper.eligible(destination) && destination !in wallpaper.files
      modifies this`restart_count, wallpaper
      ensures wallpaper.Valid()
      ensures !IndexOk(action, |outputs|) ==>
        outcome == NotPrepared && wallpaper.CurrentDeck() == old(wallpaper.CurrentDeck()) && wallpaper.layouts == old(wallpaper.layouts)
      ensures outcome == NotPrepared && IndexOk(action, |outputs|) ==> action == Other || CannotAct(old(wallpaper.CurrentDeck()), action, old(wallpaper.CurrentDisk()))
      ensures outcome != NotPrepared ==>
        && PreparesBy(old(wallpaper.CurrentDeck()), old(wallpaper.LayoutFor(outputs)), action, capture, drawn, p, old(wallpaper.CurrentDisk()), wallpaper.favorite_weight)
        && outcome == OutcomeOf(oracle, MoveOf(p.target, destination, old(wallpaper.CurrentDisk())).Some?)
      ensures old(IndexOk(action, |outputs|) && Dealt(action, outputs, capture)) ==>
        var plan := DealChange(old(wallpaper.CurrentDeck()), old(wallpaper.LayoutFor(outputs)), action, capture, old(wallpaper.CurrentDisk())).value;
        outcome != NotPrepared && p == Made(plan) && drawn == old(wallpaper.CurrentDeck()).(pos := plan.pos)
      ensures outcome == Rendered ==>
        var move := MoveOf(p.target, destination, old(wallpaper.CurrentDisk()));
        && wallpaper.LayoutFor(outputs) == p.layout && Stored(outputs) == p.layout && LayoutsKept(outputs)
        && wallpaper.files == FilesAfterMove(old(wallpaper.files), move) && (move.Some? ==> Gone(move.value.source))
        && ((old(Settled(outputs)) && move.None?) || !Restarts(oracle) ==> wallpaper.CurrentDeck() == DeckAfterCommit(drawn, move))
      ensures outcome in {NotPrepared, BadImages, NoWorldCache, NotQuarantined} ==> wallpaper.files == old(wallpaper.files)
      ensures outcome == NotRendered ==>
        var move := MoveOf(p.target, destination, old(wallpaper.CurrentDisk()));
        wallpaper.files == if move.None? || oracle.rename_back_works then old(wallpaper.files) else FilesAfterMove(old(wallpaper.files), move)
      ensures outcome in {NoWorldCache, NotRendered} ==> wallpaper.LayoutFor(outputs) == old(wallpaper.LayoutFor(outputs))
      ensures outcome in {NoWorldCache, NotRendered} && ((old(Settled(outputs)) && !action.Quarantine?) || !Restarts(oracle)) ==>
        && wallpaper.CurrentDeck() == AfterRollback(drawn, old(wallpaper.shuffle_pos), |old(wallpaper.shuffle_bag)|)
        && Stored(outputs) == old(Stored(outputs)) && LayoutsKept(outputs)
      ensures outcome in {BadImages, NotQuarantined} ==> wallpaper.CurrentDeck() == drawn && Stored(outputs) == old(Stored(outputs)) && LayoutsKept(outputs)
      ensures old(Quiet(action, outputs, capture)) && outcome != NotPrepared ==> Same(old(wallpaper.CurrentDeck()), drawn)
      ensures old(Quiet(action, outputs, capture)) && outcome in {BadImages, NotQuarantined} ==> wallpaper.LayoutFor(outputs) == old(wallpaper.LayoutFor(outputs))
      ensures old(Quiet(action, outputs, capture)) && (!action.Quarantine? || !Restarts(oracle)) && outcome in {NoWorldCache, NotRendered} ==>
        wallpaper.CurrentDeck() == Clipped(old(wallpaper.CurrentDeck()))
    {
      hide DeckOk, Sorted, Ends, Complete, Window, Started, WellFormed, Completable, AllShown, DealChange, Prepares, OtherEnds, Reaches, ReachesWith,
           Start, LayoutKey, LoadLayout, SaveLayout, Listed, PreparesBy, OneForAll, EndsWithout, FilesAfterMove, DeckAfterCommit, AfterRollback,
           Made, Sound, DrawsEnd, Settled, Dealt, Gone, Roomy, CannotAct;
      var prepared;
      prepared, p := PrepareToRender(action, outputs, capture, destination, oracle);
      drawn := wallpaper.CurrentDeck();
      if prepared.Err? {
        return NotPrepared, p, drawn;
      }
      outcome := FinishPrepared(prepared.value, action, outputs, destination, oracle);
    }

    /** The preparation, and what it leaves to go on with. */
    method PrepareToRender(action: Action, outputs: seq<string>, capture: bool, destination: string, oracle: Oracle)
      returns (r: Result<PreparedChange>, ghost p: Preparation)
      requires Ready(outputs) && wallpaper.ReadyFor(action, outputs, capture) && Roomy(action, outputs, capture, oracle)
      modifies wallpaper
      ensures wallpaper.Valid() && wallpaper.files == old(wallpaper.files) && wallpaper.saved == old(wallpaper.saved) && LayoutsKept(outputs)
      ensures Stored(outputs) == old(Stored(outputs)) && (old(Settled(outputs)) ==> Settled(outputs))
      ensures !IndexOk(action, |outputs|) ==> r.Err? && wallpaper.CurrentDeck() == old(wallpaper.CurrentDeck()) && wallpaper.layouts == old(wallpaper.layouts)
      ensures r.Err? && IndexOk(action, |outputs|) ==> action == Other || CannotAct(old(wallpaper.CurrentDeck()), action, old(wallpaper.CurrentDisk()))
      ensures old(IndexOk(action, |outputs|) && Dealt(action, outputs, capture)) ==>
        var plan := DealChange(old(wallpaper.CurrentDeck()), old(wallpaper.LayoutFor(outputs)), action, capture, old(wallpaper.CurrentDisk())).value;
        r.Ok? && p == Made(plan) && wallpaper.CurrentDeck() == old(wallpaper.CurrentDeck()).(pos := plan.pos)
      ensures r.Ok? ==>
        && Ready(outputs)
        && (action.Quarantine? && oracle.rename_works && MayRestore(oracle) ==> EndsWithout(wallpaper.CurrentDeck(), |outputs|, wallpaper.CurrentDisk()))
        && PreparesBy(old(wallpaper.CurrentDeck()), old(wallpaper.LayoutFor(outputs)), action, capture, wallpaper.CurrentDeck(), p, old(wallpaper.CurrentDisk()), wallpaper.favorite_weight)
        && LoadLayout(SaveLayout(p.layout), |outputs|, wallpaper.max_history) == p.layout
      ensures r.Ok? ==>
        && Carries(r.value, p, destination, old(wallpaper.CurrentDisk())) && QuarantineOk(r.value.quarantine, action, destination, wallpaper.CurrentDisk())
        && r.value.layout_key == LayoutKey(outputs) && r.value.layout_before == old(wallpaper.LayoutFor(outputs))
        && r.value.pos_before == old(wallpaper.shuffle_pos) && r.value.bag_len_before == |old(wallpaper.shuffle_bag)|
      ensures r.Ok? && old(Quiet(action, outputs, capture)) ==>
        && Same(old(wallpaper.CurrentDeck()), wallpaper.CurrentDeck()) && wallpaper.LayoutFor(outputs) == old(wallpaper.LayoutFor(outputs))
        && AfterRollback(wallpaper.CurrentDeck(), old(wallpaper.shuffle_pos), |old(wallpaper.shuffle_bag)|) == Clipped(old(wallpaper.CurrentDeck()))
    {
      hide DeckOk, Sorted, Ends, Complete, Window, Started, WellFormed, Completable, AllShown, DealChange, Prepares, OtherEnds, Reaches, ReachesWith,
           Start, LayoutKey, LoadLayout, SaveLayout, Listed, PreparesBy, OneForAll, EndsWithout, AfterRollback, Made, Dealing, Kept, CannotAct;
      ghost var first, deck, disk := wallpaper.LayoutFor(outputs), wallpaper.CurrentDeck(), wallpaper.CurrentDisk();
      wallpaper.ValidDealing();
      r, p := wallpaper.PrepareWallpaperChange(action, outputs, capture, destination);
      EndsStays(deck, wallpaper.CurrentDeck(), |outputs|, None, disk);
      if r.Ok? {
        PreparedStores(first, action, capture, p.layout, p.selection, disk);
        PreparedQuietly(deck, first, action, capture, wallpaper.CurrentDeck(), p, disk, wallpaper.favorite_weight);
      }
    }
  }

  /** The files after a quarantined one has been moved away. */
  function FilesAfterMove(files: set<string>, move: Option<QuarantineMove>): set<string> {
    if move.Some? then files - {move.value.source} + {move.value.destination} else files
  }

  lemma FilesMovedBack(files: set<string>, move: Option<QuarantineMove>, p: PreparedChange, rename_back_works: bool)
    requires move.Some? ==> move.value.source in files && move.value.destination !in files && p.quarantine == Some(move.value.(moved := true))
    requires move.None? ==> p.quarantine.None?
    ensures FilesAfterRollback(FilesAfterMove(files, move), p, rename_back_works) == if move.Some? && !rename_back_works then FilesAfterMove(files, move) else files
  {}

  /** A commit keeps the deck, without a quarantined wallpaper. */
  function DeckAfterCommit(d: Deck, move: Option<QuarantineMove>): Deck {
    if move.Some? then Forgotten(d, move.value.source) else d
  }

  lemma ForgottenIsGone(d: Deck, source: string)
    ensures source !in Forgotten(d, source).library && source !in Forgotten(d, source).favorites && source !in Forgotten(d, source).bag
  {}

  function RolledBack(d: Deck, p: PreparedChange): Deck { AfterRollback(d, p.pos_before, p.bag_len_before) }

  /** After a preparation whose draws the bag holds, or with one wallpaper for all, only the position has moved. */
  lemma PreparedQuietly(d: Deck, l: Layout, action: Action, capture: bool, d': Deck, p: Preparation, disk: Disk, weight: nat)
    requires PreparesBy(d, l, action, capture, d', p, disk, weight) && WellFormed(l) && Kept(d, d, disk) && Dealing(d, disk, weight)
    ensures ReachesWith(l, action, capture) && IndexOk(action, l.out_count)
    ensures DealChange(d, l, action, capture, disk).Some? || OneForAll(d, disk, weight) ==> Same(d, d') && AfterRollback(d', d.pos, |d.bag|) == Clipped(d)
    ensures p.target.Some? ==> action.Quarantine?
  {
    hide PreparesBy, WellFormed, Kept, Dealing, DealChange, OneForAll, Prepares;
    PreparesFate(d, d, l, action, capture, d', p, disk, weight);
    PreparedTarget(d, l, action, capture, d', p, disk, weight);
    if DealChange(d, l, action, capture, disk).Some? || OneForAll(d, disk, weight) {
      FateSame(d, d', PlannedPos(DealChange(d, l, action, capture, disk)), disk, weight);
    }
  }

  /** What the rollback of a prepared change restores, decided before the preparation: if it can be
      completed at all, then whatever it draws, however the bags are shuffled, the deck comes back
      exactly when the bag holds all it draws, or a rebuild could not have changed the bag. */
  lemma RollbackRestores(d: Deck, l: Layout, action: Action, capture: bool, disk: Disk, weight: nat, change: PreparedChange)
    requires Dealing(d, disk, weight) && WellFormed(l) && ReachesWith(l, action, capture) && IndexOk(action, l.out_count)
    requires Ends(d, l.out_count, None, disk) && (action.Quarantine? ==> OtherEnds(d, disk))
    requires change.pos_before == d.pos && change.bag_len_before == |d.bag|
    ensures !NothingPrepared(d, l, action, capture, disk, weight) ==>
      ((forall d', p | PreparesBy(d, l, action, capture, d', p, disk, weight) :: RolledBack(d', change) == Clipped(d))
       <==> DealChange(d, l, action, capture, disk).Some? || OneForAll(d, disk, weight))
    ensures NothingPrepared(d, l, action, capture, disk, weight) ==> Rigid(d, disk) || action == Other
  {
    hide PreparesBy, Dealing, WellFormed, ReachesWith, Ends, OtherEnds, DealChange, OneForAll, Rigid;
    PreparationRollbackIff(d, l, action, capture, disk, weight);
    assert forall d': Deck :: RolledBack(d', change) == Clipped(d) <==> TakenBack(d, d');
  }

  const EXAMPLE_DISK: Disk := Disk({"a", "b"}, {"a", "b"})
  const EXAMPLE: Deck := Deck(["a", "b"], [], ["a", "b"], 1)
  const EXAMPLE_END: Deck := Deck(["a", "b"], [], ["a", "b"], 2)
  const EXAMPLE_TURNED: Deck := Deck(["a", "b"], [], ["b", "a"], 0)

  /** After a rebuild of the same length it does not: the old position points into another bag. Two
      wallpapers are drawn from the example deck, whose bag is turned over on the way; then the bags
      differ and so does the next wallpaper drawn. */
  lemma RollbackAcrossRebuild(p: PreparedChange)
    requires p.pos_before == EXAMPLE.pos && p.bag_len_before == |EXAMPLE.bag|
    ensures var want := Want(2, None, false);
      && Round(Hand(EXAMPLE, [], 0), EXAMPLE, Hand(EXAMPLE_END, ["b"], 1), want, EXAMPLE_DISK, 1)
      && Round(Hand(EXAMPLE_END, ["b"], 1), EXAMPLE_TURNED, Hand(EXAMPLE_TURNED.(pos := 1), ["b"], 2), want, EXAMPLE_DISK, 1)
      && Round(Hand(EXAMPLE_TURNED.(pos := 1), ["b"], 2), EXAMPLE_TURNED.(pos := 1), Hand(EXAMPLE_TURNED.(pos := 2), ["b", "a"], 3), want, EXAMPLE_DISK, 1)
    ensures NextDrawn(EXAMPLE) == Some(("b", 2)) && NextDrawn(RolledBack(EXAMPLE_TURNED.(pos := 2), p)) == Some(("a", 2))
  {
    hide Rebuilt, Rescanned, DrawFails, Scan;
    ExampleTurns();
    NextOfBag(EXAMPLE);
    NextOfBag(EXAMPLE_TURNED.(pos := 1));
  }

  /** A single draw of a wallpaper that is on disk. */
  lemma OneRound(d: Deck, mid: Deck, disk: Disk, weight: nat)
    requires Turned(d, mid, disk, weight) && mid.pos < |mid.bag| && mid.bag[mid.pos] in disk.files && !DrawFails(d, 1, None, disk)
    ensures DrawsTo(d, 1, None, [mid.bag[mid.pos]], mid.(pos := mid.pos + 1), disk, weight)
  {
    hide Rebuilt, Rescanned, DrawFails, Available;
    var wall, want := mid.bag[mid.pos], WantOf(d, 1, None);
    var h, h' := Hand(d, [], 0), Hand(mid.(pos := mid.pos + 1), [wall], 1);
    assert [] + [wall] == [wall];
    assert Round(h, mid, h', want, disk, weight);
    assert CompleteRun(d, want, [h, h'], [mid], disk, weight) && Leaves([h, h'], [mid], [wall], h'.deck);
  }

  /** One output, no history, and Next: one wallpaper is drawn to begin with and one to go on. The bag
      holds one of them, and the rebuild for the other is not taken back. */
  lemma SecondDrawNotTakenBack(p: PreparedChange)
    requires p.pos_before == EXAMPLE.pos && p.bag_len_before == |EXAMPLE.bag|
    ensures var l, now := Layout(1, 2, [], 0, 0), EXAMPLE_TURNED.(pos := 1);
      && DealsRow(EXAMPLE, 1, None, EXAMPLE_DISK) && DealChange(EXAMPLE, l, Action.Move(Next), false, EXAMPLE_DISK).None?
      && PreparesBy(EXAMPLE, l, Action.Move(Next), false, now, Preparation(Layout(1, 2, [["b"], ["b"]], 2, 0), ["b"], None, None), EXAMPLE_DISK, 1)
      && RolledBack(now, p) != EXAMPLE
  {
    hide DrawsTo, DrawFails, Rebuilt, DealChange, PreparesBy, WindowBy, HealedBy, Fate, Scan;
    var l, now := Layout(1, 2, [], 0, 0), EXAMPLE_TURNED.(pos := 1);
    var begun, acted, l' := Layout(1, 2, [["b"]], 1, 0), Layout(1, 2, [["b"]], 2, 0), Layout(1, 2, [["b"], ["b"]], 2, 0);
    ExampleTurns();
    ExampleOk();
    OneRound(EXAMPLE, EXAMPLE, EXAMPLE_DISK, 1);
    OneRound(EXAMPLE_END, EXAMPLE_TURNED, EXAMPLE_DISK, 1);
    ExampleWindow(EXAMPLE_END, now);
    ExampleBegins(EXAMPLE, EXAMPLE_END);
    var made := Preparation(l', ["b"], None, None);
    PreparedNext(EXAMPLE, l, EXAMPLE_END, begun, acted, now, made, EXAMPLE_DISK, 1);
    PreparesFate(EXAMPLE, EXAMPLE, l, Action.Move(Next), false, now, made, EXAMPLE_DISK, 1);
    FateKept(EXAMPLE, EXAMPLE, now, PlannedPos(DealChange(EXAMPLE, l, Action.Move(Next), false, EXAMPLE_DISK)), EXAMPLE_DISK, 1);
    assert EXAMPLE.bag[0] == "a" && now.bag[0] == "b" && "a"[0] != "b"[0];
    ExampleDealsOne();
  }

  lemma PreparedNext(d: Deck, l: Layout, mid: Deck, begun: Layout, acted: Layout, d': Deck, p: Preparation, disk: Disk, weight: nat)
    requires BeforeBy(d, l, false, mid, begun, disk, weight) && begun.out_count == l.out_count > 0 && p.before_start.None? && p.target.None?
    requires ActsBy(mid, begun, Action.Move(Next), mid, acted, None, disk, weight) && SelectsBy(mid, acted, d', p.layout, p.selection, disk, weight)
    ensures PreparesBy(d, l, Action.Move(Next), false, d', p, disk, weight)
  {
    hide BeforeBy, ActsBy, SelectsBy;
  }

  lemma ExampleBegins(d: Deck, mid: Deck)
    requires DrawsTo(d, 1, None, ["b"], mid, EXAMPLE_DISK, 1)
    ensures BeforeBy(d, Layout(1, 2, [], 0, 0), false, mid, Layout(1, 2, [["b"]], 1, 0), EXAMPLE_DISK, 1)
  {
    hide DrawsTo;
    assert [] + [["b"]] == [["b"]];
    assert Initialized(Layout(1, 2, [], 0, 0), ["b"]) == Layout(1, 2, [["b"]], 1, 0);
    assert BeginsBy(d, Layout(1, 2, [], 0, 0), mid, Layout(1, 2, [["b"]], 1, 0), EXAMPLE_DISK, 1);
  }

  lemma ExampleWindow(mid: Deck, now: Deck)
    requires DrawsTo(mid, 1, None, ["b"], now, EXAMPLE_DISK, 1)
    ensures SelectsBy(mid, Layout(1, 2, [["b"]], 2, 0), now, Layout(1, 2, [["b"], ["b"]], 2, 0), ["b"], EXAMPLE_DISK, 1)
  {
    hide DrawsTo, Flat;
    var acted, whole := Layout(1, 2, [["b"]], 2, 0), Layout(1, 2, [["b"], ["b"]], 2, 0);
    OneGrow(acted, ["b"]);
    assert [["b"]] + [["b"]] == [["b"], ["b"]];
    assert Ensured(acted, [["b"]], whole);
    assert RowsBy(now, 1, [["b"]][1..], now, EXAMPLE_DISK, 1);
    assert WindowBy(mid, acted, now, whole, EXAMPLE_DISK, 1);
    FlatTwo(["b"], ["b"]);
    assert Window(whole) == ["b"];
    HealedByNothing(now, EXAMPLE_DISK, 1);
    HealedByStep(now, [], now, [], "b", "b", now, EXAMPLE_DISK, 1);
    assert [] + ["b"] == ["b"];
  }

  lemma ExampleOk()
    ensures Dealing(EXAMPLE, EXAMPLE_DISK, 1) && Kept(EXAMPLE, EXAMPLE, EXAMPLE_DISK)
    ensures !DrawFails(EXAMPLE, 1, None, EXAMPLE_DISK) && !DrawFails(EXAMPLE_END, 1, None, EXAMPLE_DISK)
  {
    ExampleSorted();
    assert EXAMPLE.library[0] in Elements(EXAMPLE.library);
    assert Elements(EXAMPLE.bag) == Elements(EXAMPLE.library) && Elements(EXAMPLE.favorites) == {};
  }

  lemma ExampleDealsOne()
    ensures DealsRow(EXAMPLE, 1, None, EXAMPLE_DISK)
  {
    assert [] + ["b"] == ["b"];
  }

  /** The next wallpaper of the bag, where all of them exist. */
  function NextDrawn(d: Deck): Option<(string, nat)> {
    match DealRow(d, 1, None, EXAMPLE_DISK)
    case None => None
    case Some((row, pos)) => Some((row[0], pos))
  }

  lemma NextOfBag(d: Deck)
    requires d.library == ["a", "b"] && d.pos < |d.bag| && d.bag[d.pos] in EXAMPLE_DISK.files
    ensures NextDrawn(d) == Some((d.bag[d.pos], d.pos + 1))
  {
    assert d.library[0] in Elements(d.library);
    assert [] + [d.bag[d.pos]] == [d.bag[d.pos]];
    var want := WantOf(d, 1, None);
    assert Scan(d.bag, d.pos + 1, [d.bag[d.pos]], want, EXAMPLE_DISK) == Some(([d.bag[d.pos]], d.pos + 1));
  }

  lemma ExampleTurns()
    ensures Rebuilt(EXAMPLE_END, EXAMPLE_TURNED, EXAMPLE_DISK, 1)
  {
    hide Sorted, Weighted;
    assert Elements(EXAMPLE.favorites) == {};
    assert (set x | x in EXAMPLE.favorites && x in EXAMPLE.library && x in EXAMPLE_DISK.files) == {};
    ExampleWeights();
  }

  lemma ExampleWeights()
    ensures multiset(EXAMPLE_TURNED.bag) == Weighted(EXAMPLE.library, {}, 1)
  {
    hide Weighted;
    ExampleSorted();
    forall x ensures multiset(EXAMPLE_TURNED.bag)[x] == Weighted(EXAMPLE.library, {}, 1)[x] {
      WeightedIs(EXAMPLE.library, {}, 1, x);
      TwoInBag(x);
    }
  }

  lemma ExampleSorted()
    ensures StrictlySorted(EXAMPLE.library)
  {
    assert "a"[0] != "b"[0];
  }

  lemma TwoInBag(x: string)
    ensures multiset(EXAMPLE_TURNED.bag)[x] == if x in EXAMPLE.library then 1 else 0
  {
    assert EXAMPLE.library[0] == "a" && EXAMPLE.library[1] == "b" && "a"[0] != "b"[0];
  }

  predicate Restores(restart: Restart) { restart.Spawned? && restart.restore.Displayed? }

  /** The renderer is restarted before or after the request. */
  predicate RequestRestarts(request: RendererRequest) { request.exited.Some? || request.reply.Broken? }

  /** How often: before the request if the renderer has exited, and after it if it breaks. */
  function RestartsIn(request: RendererRequest): nat {
    (if request.exited.Some? then 1 else 0) + if request.exited != Some(SpawnFailed) && request.reply.Broken? then 1 else 0
  }

  /** And the current wallpapers are then prepared anew. */
  predicate RequestRestores(request: RendererRequest) {
    (request.exited.Some? && Restores(request.exited.value)) || (request.reply.Broken? && Restores(request.reply.restart))
  }

  /** The request to render is made. */
  predicate Requests(oracle: Oracle) { (oracle.health.Some? ==> Answered(oracle.health.value)) && oracle.request_possible }

  predicate Succeeds(oracle: Oracle) { Requests(oracle) && Answered(oracle.render) }

  predicate Restarts(oracle: Oracle) {
    (oracle.health.Some? && RequestRestarts(oracle.health.value)) || (Requests(oracle) && RequestRestarts(oracle.render))
  }

  predicate MayRestore(oracle: Oracle) {
    (oracle.health.Some? && RequestRestores(oracle.health.value)) || (Requests(oracle) && RequestRestores(oracle.render))
  }

  predicate Answered(request: RendererRequest) { request.reply == Accepted && request.exited != Some(SpawnFailed) }

  lemma PreparedStores(l: Layout, action: Action, capture: bool, l': Layout, selection: Row, disk: Disk)
    requires WellFormed(l) && DiskOk(disk) && Prepares(l, action, capture, l', selection, disk)
    ensures LoadLayout(SaveLayout(l'), l.out_count, l.max_history) == l'
  {
    PreparedIsWindow(l, action, capture, l', selection, disk);
    SavedLayoutLoads(l');
  }

  /** The outcome of a change once it is to be rendered; whether it moves a file. */
  function SettledAs(oracle: Oracle, moves: bool): Outcome {
    if moves && !oracle.rename_works then NotQuarantined
    else if Succeeds(oracle) then Rendered
    else NotRendered
  }

  /** The outcome of a change once it has been prepared. */
  function OutcomeOf(oracle: Oracle, moves: bool): Outcome {
    if !oracle.images_ok then BadImages
    else if oracle.world == Unavailable then NoWorldCache
    else SettledAs(oracle, moves)
  }

  /** Drawing ends whichever file is moved away. */
  ghost predicate EndsWithout(d: Deck, n: nat, disk: Disk) {
    forall x :: Ends(d, n, None, WithoutFile(disk, x))
  }

  function WithoutFile(disk: Disk, x: string): Disk { Disk(disk.files - {x}, disk.folder - {x}) }

  /** Room to move a file away from a deck: none or one is on disk, or more than are drawn, or fewer
      than are drawn are listed. */
  predicate RoomNow(d: Deck, n: nat, folder: set<string>) { |folder| <= 1 || |folder| > n || |d.library| < n }

  /** Moving any file away leaves draws that end exactly where there is room. */
  lemma RoomExact(d: Deck, n: nat, disk: Disk)
    requires StrictlySorted(d.library) && Ends(d, n, None, disk) && n > 0
    ensures EndsWithout(d, n, disk) <==> RoomNow(d, n, disk.folder)
  {
    DistinctListing(d.library);
    if RoomNow(d, n, disk.folder) {
      forall x ensures Ends(d, n, None, WithoutFile(disk, x)) {
        WithoutOne(disk, x);
      }
    } else {
      var x :| x in disk.folder;
      WithoutOne(disk, x);
      assert !Ends(d, n, None, WithoutFile(disk, x));
    }
  }

  lemma WithoutOne(disk: Disk, x: string)
    ensures x !in disk.folder ==> WithoutFile(disk, x).folder == disk.folder
    ensures x in disk.folder ==> |WithoutFile(disk, x).folder| == |disk.folder| - 1
  {}

  /** Room before the preparation that leaves room after it, whatever it draws. */
  predicate RoomToMove(d: Deck, n: nat, folder: set<string>) {
    |folder| <= 1 || |folder| > n || (|d.library| < n && |folder| < n)
  }

  lemma RoomAfterDraws(d: Deck, l: Layout, action: Action, capture: bool, d': Deck, p: Preparation, disk: Disk, weight: nat)
    requires PreparesBy(d, l, action, capture, d', p, disk, weight) && WellFormed(l) && Dealing(d, disk, weight)
    requires Ends(d, l.out_count, None, disk) && RoomToMove(d, l.out_count, disk.folder)
    ensures EndsWithout(d', l.out_count, disk)
  {
    hide PreparesBy, WellFormed, Ends, EndsWithout, Fate, Prepares;
    KeptDealing(d, disk, weight);
    HasOutputs(l);
    PreparesFate(d, d, l, action, capture, d', p, disk, weight);
    FateKept(d, d, d', PlannedPos(DealChange(d, l, action, capture, disk)), disk, weight);
    EndsStays(d, d', l.out_count, None, disk);
    ListingLength(disk.folder);
    RoomExact(d', l.out_count, disk);
  }

  lemma StillEnds(d: Deck, n: nat, disk: Disk, disk': Disk)
    requires Ends(d, n, None, disk) && EndsWithout(d, n, disk)
    requires exists x :: x in disk.files && disk'.folder == disk.folder - {x}
    ensures Ends(d, n, None, disk')
  {
    var x :| x in disk.files && disk'.folder == disk.folder - {x};
    assert Ends(d, n, None, WithoutFile(disk, x));
  }

  /** A layout that is whole and shows nothing that is gone is restored as it is, without a draw. */
  lemma QuietStartup(d: Deck, l: Layout, disk: Disk)
    requires WellFormed(l) && Completable(l)
    ensures Started(l) && Complete(l) && AllShown(Window(l), disk) ==> DealStartup(d, l, disk) == Some((l, Window(l), d.pos))
  {}

  lemma StartedUsable(l: Layout)
    requires Started(l) && Complete(l)
    ensures WellFormed(l) && Completable(l)
    ensures LoadLayout(SaveLayout(l), l.out_count, l.max_history) == l
  {
    SavedLayoutLoads(l);
  }
}
