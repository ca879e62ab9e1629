/** Placing freshly uploaded textures on several outputs, when a first frame may fail to render:
    which textures are lost. */
module SetWallpapers {
  import opened Prelude
  import opened Surfaces
  import opened TextureRuns

  /** A texture uploaded for an output, with the operation that will take it over. */
  datatype Upload = Upload(index: nat, op: Op)

  predicate Places(u: Upload, outputs: nat) { u.index < outputs && (u.op.SetCutOp? || u.op.StartOp?) }

  function Brought(op: Op): multiset<Texture> {
    match op
    case SetCutOp(_, texture, _) => One(Some(texture))
    case StartOp(_, texture, _, kind, _) => One(Some(texture)) + Aux(kind)
    case _ => multiset{}
  }

  function Pending(uploads: seq<Upload>, t: Texture): nat {
    if uploads == [] then 0 else Brought(uploads[0].op)[t] + Pending(uploads[1..], t)
  }

  /** Every live texture is owned once, or is one of those still waiting to be placed. */
  ghost predicate ExactWith(g: Gpu, waiting: seq<Upload>) {
    && (forall i | 0 <= i < |g.surfaces| :: Surfaces.WellFormed(g.surfaces[i]))
    && forall t :: OwnedByAll(g.surfaces, t) + Pending(waiting, t) == if t in g.live then 1 else 0
  }

  function Placed(g: Gpu, i: nat, op: Op): Gpu
    requires i < |g.surfaces| && Allowed(g.surfaces[i], op)
  {
    var c := Apply(g.surfaces[i], op);
    Gpu(g.surfaces[i := c.surface], set t | t in g.live && c.freed[t] == 0)
  }

  lemma PlacedExact(g: Gpu, waiting: seq<Upload>)
    requires waiting != [] && Places(waiting[0], |g.surfaces|) && ExactWith(g, waiting)
    ensures ExactWith(Placed(g, waiting[0].index, waiting[0].op), waiting[1..])
  {
    hide Owned, Apply, OwnedByAll, Pending;
    var i, op := waiting[0].index, waiting[0].op;
    forall t ensures OwnedByAll(Placed(g, i, op).surfaces, t) + Pending(waiting[1..], t) == if t in Placed(g, i, op).live then 1 else 0 {
      PlacedAt(g, waiting, t);
    }
    ApplyConserves(g.surfaces[i], op, 0);
  }

  lemma PlacedAt(g: Gpu, waiting: seq<Upload>, t: Texture)
    requires waiting != [] && Places(waiting[0], |g.surfaces|) && ExactWith(g, waiting)
    ensures var g' := Placed(g, waiting[0].index, waiting[0].op);
      OwnedByAll(g'.surfaces, t) + Pending(waiting[1..], t) == if t in g'.live then 1 else 0
  {
    hide Owned, Apply, OwnedByAll, One, Aux;
    var i, op := waiting[0].index, waiting[0].op;
    assert Incoming(g.surfaces[i], op) == Brought(op);
    assert OwnedByAll(g.surfaces, t) + Pending(waiting, t) == if t in g.live then 1 else 0;
    ApplyConserves(g.surfaces[i], op, t);
    OwnedUpdate(g.surfaces, i, Apply(g.surfaces[i], op).surface, t);
    OwnedPart(g.surfaces, i, t);
  }

  /** Restoring an output while others wait. */
  lemma RestoredExact(g: Gpu, i: nat, waiting: seq<Upload>)
    requires i < |g.surfaces| && ExactWith(g, waiting)
    ensures ExactWith(Placed(g, i, RestoreOp), waiting)
  {
    hide Owned, Restore, OwnedByAll, Pending;
    forall t ensures OwnedByAll(Placed(g, i, RestoreOp).surfaces, t) + Pending(waiting, t) == if t in Placed(g, i, RestoreOp).live then 1 else 0 {
      assert OwnedByAll(g.surfaces, t) + Pending(waiting, t) == if t in g.live then 1 else 0;
      RestoreConserves(g.surfaces[i], t);
      OwnedUpdate(g.surfaces, i, Restore(g.surfaces[i]).surface, t);
      OwnedPart(g.surfaces, i, t);
    }
    RestoreConserves(g.surfaces[i], 0);
  }

  lemma {:induction false} PendingBrings(waiting: seq<Upload>)
    requires waiting != [] && forall i | 0 <= i < |waiting| :: waiting[i].op.SetCutOp? || waiting[i].op.StartOp?
    ensures exists t :: Pending(waiting, t) >= 1
  {
    assert Brought(waiting[0].op)[waiting[0].op.texture] >= 1;
    assert Pending(waiting, waiting[0].op.texture) >= 1;
  }

  // ---- what the outputs show ----

  function Indices(uploads: seq<Upload>): set<nat> { set u | u in uploads :: u.index }

  predicate DistinctOutputs(uploads: seq<Upload>) {
    forall a, b | 0 <= a < b < |uploads| :: uploads[a].index != uploads[b].index
  }

  /** An output as it was, with any transition it had settled. */
  function Former(s: Surface): Surface { Settle(s).surface.(restore_pending := false) }

  /** The outputs of these uploads show what was placed or, where it was taken back, what they showed
      before; every other output is untouched. */
  ghost predicate Shows(before: seq<Surface>, after: seq<Surface>, uploads: seq<Upload>, undone: set<nat>) {
    && |after| == |before|
    && (forall k | 0 <= k < |uploads| ::
          uploads[k].index < |before| && Allowed(before[uploads[k].index], uploads[k].op)
          && after[uploads[k].index] == if k in undone then Former(before[uploads[k].index]) else Apply(before[uploads[k].index], uploads[k].op).surface)
    && forall j | 0 <= j < |before| && j !in Indices(uploads) :: after[j] == before[j]
  }

  lemma ShowsPlaced(before: seq<Surface>, after: seq<Surface>, uploads: seq<Upload>, u: Upload)
    requires Shows(before, after, uploads, {}) && Places(u, |before|) && DistinctOutputs(uploads + [u])
    ensures Shows(before, after[u.index := Apply(after[u.index], u.op).surface], uploads + [u], {})
  {
    hide Apply, Former;
    var all := uploads + [u];
    assert forall j :: j in Indices(all) <==> j in Indices(uploads) || j == u.index;
    forall k | 0 <= k < |uploads| ensures uploads[k].index != u.index {
      assert all[k].index != all[|uploads|].index;
    }
    assert u.index !in Indices(uploads);
  }

  lemma ShowsRestored(before: seq<Surface>, after: seq<Surface>, uploads: seq<Upload>, undone: set<nat>, k: nat)
    requires Shows(before, after, uploads, undone) && k < |uploads| && k !in undone && DistinctOutputs(uploads)
    requires uploads[k].op.StartOp? && Surfaces.WellFormed(before[uploads[k].index])
    ensures Shows(before, after[uploads[k].index := Restore(after[uploads[k].index]).surface], uploads, undone + {k})
  {
    hide Apply, Former, Restore;
    RestoredStart(before[uploads[k].index], uploads[k].op);
    assert uploads[k] in uploads && uploads[k].index in Indices(uploads);
  }

  lemma RestoredStart(s: Surface, op: Op)
    requires op.StartOp? && Surfaces.WellFormed(s)
    ensures Restore(Apply(s, op).surface).surface == Former(s)
  {
    StartThenRestore(s, op.image_path, Some(op.texture), op.scale_mode, op.kind, op.accelerated);
  }

  predicate FirstFailure(renders: seq<bool>, f: nat) {
    f < |renders| && !renders[f] && forall i | 0 <= i < f :: renders[i]
  }

  /** The outputs up to `f` show what they showed before, and so do all others. */
  ghost predicate TakenBack(before: seq<Surface>, after: seq<Surface>, uploads: seq<Upload>, f: nat)
    requires f < |uploads|
  {
    Shows(before, after, uploads[..f + 1], First(f + 1))
  }

  lemma NothingShown(surfaces: seq<Surface>)
    ensures Shows(surfaces, surfaces, [], {})
  {}

  /** `set_cut_wallpapers` and `start_world_uploads`: place one texture after the other and stop at the
      first frame that fails. The textures not placed by then are still live and owned by nobody: each
      live texture has an owner exactly when no frame before the last one fails. */
  method PlaceUploads(g: Gpu, uploads: seq<Upload>, renders: seq<bool>) returns (g': Gpu, ok: bool, placed: nat)
    requires |renders| == |uploads| && ExactWith(g, uploads)
    requires forall i | 0 <= i < |uploads| :: Places(uploads[i], |g.surfaces|)
    ensures ok <==> forall i | 0 <= i < |renders| :: renders[i]
    ensures placed <= |uploads| && ExactWith(g', uploads[placed..])
    ensures ok ==> placed == |uploads|
    ensures !ok ==> placed > 0 && FirstFailure(renders, placed - 1)
    ensures DistinctOutputs(uploads) ==> Shows(g.surfaces, g'.surfaces, uploads[..placed], {})
    ensures Exact(g') <==> forall i | 0 <= i < |renders| - 1 :: renders[i]
  {
    hide ExactWith, Pending, Placed, OwnedByAll, Shows, DistinctOutputs, Apply;
    g', placed := g, 0;
    NothingShown(g.surfaces);
    while placed < |uploads|
      invariant placed <= |uploads| && |g'.surfaces| == |g.surfaces| && ExactWith(g', uploads[placed..])
      invariant DistinctOutputs(uploads) ==> Shows(g.surfaces, g'.surfaces, uploads[..placed], {})
      invariant forall i | 0 <= i < placed :: renders[i]
    {
      PlacedExact(g', uploads[placed..]);
      assert uploads[placed..][1..] == uploads[placed + 1..];
      PlacedSize(g', uploads[placed].index, uploads[placed].op);
      StepShows(g.surfaces, g'.surfaces, uploads, placed);
      g' := Placed(g', uploads[placed].index, uploads[placed].op);
      placed := placed + 1;
      if !renders[placed - 1] {
        ExactIffPlaced(g', uploads[placed..]);
        return g', false, placed;
      }
    }
    ExactIffPlaced(g', uploads[placed..]);
    ok := true;
  }

  lemma PlacedSize(g: Gpu, i: nat, op: Op)
    requires i < |g.surfaces| && Allowed(g.surfaces[i], op)
    ensures |Placed(g, i, op).surfaces| == |g.surfaces|
    ensures Placed(g, i, op).surfaces == g.surfaces[i := Apply(g.surfaces[i], op).surface]
  {}

  lemma StepShows(before: seq<Surface>, after: seq<Surface>, uploads: seq<Upload>, n: nat)
    requires n < |uploads| && Places(uploads[n], |before|) && |after| == |before|
    ensures DistinctOutputs(uploads) && Shows(before, after, uploads[..n], {}) ==>
      Shows(before, after[uploads[n].index := Apply(after[uploads[n].index], uploads[n].op).surface], uploads[..n + 1], {})
  {
    hide Apply, Shows;
    if DistinctOutputs(uploads) && Shows(before, after, uploads[..n], {}) {
      assert uploads[..n + 1] == uploads[..n] + [uploads[n]];
      ShowsPlaced(before, after, uploads[..n], uploads[n]);
    }
  }

  lemma ExactIffPlaced(g: Gpu, waiting: seq<Upload>)
    requires ExactWith(g, waiting) && forall i | 0 <= i < |waiting| :: waiting[i].op.SetCutOp? || waiting[i].op.StartOp?
    ensures Exact(g) <==> waiting == []
  {
    hide OwnedByAll;
    if waiting != [] {
      PendingBrings(waiting);
      var t :| Pending(waiting, t) >= 1;
      assert OwnedByAll(g.surfaces, t) + Pending(waiting, t) == if t in g.live then 1 else 0;
      assert Exact(g) ==> OwnedByAll(g.surfaces, t) == if t in g.live then 1 else 0;
    } else {
      forall t ensures OwnedByAll(g.surfaces, t) == if t in g.live then 1 else 0 {
        assert OwnedByAll(g.surfaces, t) + Pending(waiting, t) == if t in g.live then 1 else 0;
      }
    }
  }

  /** Two outputs, and the frame of the first fails: the second texture is live and has no owner. */
  lemma FirstFrameFails(empty: Surface)
    requires Empty(empty)
    ensures var g, uploads := Gpu([empty, empty], {1, 2}), [Upload(0, SetCutOp("a", 1, 0)), Upload(1, SetCutOp("b", 2, 0))];
      && ExactWith(g, uploads)
      && var g' := Placed(g, 0, uploads[0].op);
      2 in g'.live && OwnedByAll(g'.surfaces, 2) == 0 && !Exact(g')
  {
    hide Owned, Apply, OwnedByAll, Pending, Brought;
    var g, uploads := Gpu([empty, empty], {1, 2}), [Upload(0, SetCutOp("a", 1, 0)), Upload(1, SetCutOp("b", 2, 0))];
    var g' := Placed(g, 0, uploads[0].op);
    forall t ensures OwnedByAll(g.surfaces, t) + Pending(uploads, t) == if t in g.live then 1 else 0 {
      NothingOwned(g.surfaces, t);
      TwoPending(0, 1, t);
    }
    PlacedExact(g, uploads);
    ExactIffPlaced(g', uploads[1..]);
    TwoPending(0, 1, 2);
    assert Apply(empty, uploads[0].op).freed[2] == 0 by {
      ApplyConserves(empty, uploads[0].op, 2);
      EmptyOwns(empty, 2);
    }
  }

  lemma TwoPending(i: nat, j: nat, t: Texture)
    ensures var uploads := [Upload(i, SetCutOp("a", 1, 0)), Upload(j, SetCutOp("b", 2, 0))];
      Pending(uploads, t) == (if t in {1, 2} then 1 else 0) && Pending(uploads[1..], t) == if t == 2 then 1 else 0
  {
    var uploads := [Upload(i, SetCutOp("a", 1, 0)), Upload(j, SetCutOp("b", 2, 0))];
    assert uploads[1..][1..] == [];
    assert Pending(uploads[1..], t) == Brought(uploads[1].op)[t] + Pending([], t);
  }

  predicate PairwiseStart(u: Upload, outputs: nat) { u.index < outputs && u.op.StartOp? && u.op.kind == Pairwise }

  /** The last one started and the `i` first ones. */
  function Undone(last: nat, i: nat): set<nat> { {last} + First(i) }

  function First(n: nat): (r: set<nat>)
    ensures forall k: nat :: k in r <==> k < n
  {
    if n == 0 then {} else First(n - 1) + {n - 1}
  }

  lemma StepRestores(before: seq<Surface>, after: seq<Surface>, uploads: seq<Upload>, undone: set<nat>, k: nat)
    requires k < |uploads| && k !in undone && uploads[k].index < |before| == |after|
    requires uploads[k].op.StartOp? && Surfaces.WellFormed(before[uploads[k].index])
    ensures DistinctOutputs(uploads) && Shows(before, after, uploads, undone) ==>
      Shows(before, after[uploads[k].index := Restore(after[uploads[k].index]).surface], uploads, undone + {k})
  {
    hide Shows, DistinctOutputs, Restore;
    if DistinctOutputs(uploads) && Shows(before, after, uploads, undone) {
      ShowsRestored(before, after, uploads, undone, k);
    }
  }

  lemma ExactFormed(g: Gpu, waiting: seq<Upload>)
    requires ExactWith(g, waiting)
    ensures forall i | 0 <= i < |g.surfaces| :: Surfaces.WellFormed(g.surfaces[i])
  {}

  /** When a frame fails, its output and then those started before it are restored. */
  method RestoreStarted(g: Gpu, started: seq<Upload>, waiting: seq<Upload>, ghost before: seq<Surface>, ghost distinct: bool) returns (g': Gpu)
    requires started != [] && forall i | 0 <= i < |started| :: PairwiseStart(started[i], |g.surfaces|)
    requires |before| == |g.surfaces| && forall i | 0 <= i < |before| :: Surfaces.WellFormed(before[i])
    requires ExactWith(g, waiting) && (distinct ==> DistinctOutputs(started) && Shows(before, g.surfaces, started, {}))
    ensures |g'.surfaces| == |before| && ExactWith(g', waiting)
    ensures distinct ==> Shows(before, g'.surfaces, started, First(|started|))
  {
    hide ExactWith, Placed, Shows, DistinctOutputs, Restore;
    var last := |started| - 1;
    StepRestores(before, g.surfaces, started, {}, last);
    RestoredExact(g, started[last].index, waiting);
    PlacedSize(g, started[last].index, RestoreOp);
    g' := Placed(g, started[last].index, RestoreOp);
    assert {} + {last} == Undone(last, 0);
    for i := 0 to last
      invariant |g'.surfaces| == |before| && ExactWith(g', waiting)
      invariant distinct ==> Shows(before, g'.surfaces, started, Undone(last, i))
    {
      StepRestores(before, g'.surfaces, started, Undone(last, i), i);
      assert Undone(last, i) + {i} == Undone(last, i + 1);
      RestoredExact(g', started[i].index, waiting);
      PlacedSize(g', started[i].index, RestoreOp);
      g' := Placed(g', started[i].index, RestoreOp);
    }
    assert Undone(last, last) == First(|started|);
  }

  /** The textures that were not placed are freed. */
  method FreeUploads(g: Gpu, waiting: seq<Upload>) returns (g': Gpu)
    requires ExactWith(g, waiting) && forall i | 0 <= i < |waiting| :: PairwiseStart(waiting[i], |g.surfaces|)
    ensures ExactWith(g', []) && g'.surfaces == g.surfaces
  {
    hide ExactWith;
    g' := g;
    for i := 0 to |waiting|
      invariant g'.surfaces == g.surfaces && ExactWith(g', waiting[i..])
    {
      assert waiting[i..][1..] == waiting[i + 1..];
      FreedWaiting(g', waiting[i..]);
      g' := g'.(live := g'.live - {waiting[i].op.texture});
    }
    assert waiting[|waiting|..] == [];
  }

  /** `start_pairwise_uploads`: when a frame fails, that output and those started before show what they
      showed before, the outputs after it are not touched, and the textures not placed are freed, so
      nothing is lost. */
  method PlacePairwise(g: Gpu, uploads: seq<Upload>, renders: seq<bool>) returns (g': Gpu, ok: bool)
    requires |renders| == |uploads| && ExactWith(g, uploads)
    requires forall i | 0 <= i < |uploads| :: PairwiseStart(uploads[i], |g.surfaces|)
    ensures ok <==> forall i | 0 <= i < |renders| :: renders[i]
    ensures Exact(g')
    ensures ok && DistinctOutputs(uploads) ==> Shows(g.surfaces, g'.surfaces, uploads, {})
    ensures !ok ==> exists f :: FirstFailure(renders, f) && (DistinctOutputs(uploads) ==> TakenBack(g.surfaces, g'.surfaces, uploads, f))
  {
    hide ExactWith, Pending, Placed, Exact, Shows, DistinctOutputs, Apply;
    g' := g;
    var next := 0;
    ExactFormed(g, uploads);
    NothingShown(g.surfaces);
    while next < |uploads|
      invariant next <= |uploads| && |g'.surfaces| == |g.surfaces| && ExactWith(g', uploads[next..])
      invariant DistinctOutputs(uploads) ==> Shows(g.surfaces, g'.surfaces, uploads[..next], {})
      invariant forall i | 0 <= i < next :: renders[i]
    {
      StepShows(g.surfaces, g'.surfaces, uploads, next);
      PlacedExact(g', uploads[next..]);
      assert uploads[next..][1..] == uploads[next + 1..];
      PlacedSize(g', uploads[next].index, uploads[next].op);
      g' := Placed(g', uploads[next].index, uploads[next].op);
      next := next + 1;
      if !renders[next - 1] {
        DistinctPrefix(uploads, next);
        g' := RestoreStarted(g', uploads[..next], uploads[next..], g.surfaces, DistinctOutputs(uploads));
        g' := FreeUploads(g', uploads[next..]);
        ExactIffPlaced(g', []);
        assert FirstFailure(renders, next - 1);
        return g', false;
      }
    }
    assert uploads[next..] == [] && uploads[..next] == uploads;
    ExactIffPlaced(g', []);
    ok := true;
  }

  lemma DistinctPrefix(uploads: seq<Upload>, n: nat)
    requires n <= |uploads|
    ensures DistinctOutputs(uploads) ==> DistinctOutputs(uploads[..n])
  {}

  lemma FreedWaiting(g: Gpu, waiting: seq<Upload>)
    requires waiting != [] && ExactWith(g, waiting) && waiting[0].op.StartOp? && waiting[0].op.kind == Pairwise
    ensures ExactWith(g.(live := g.live - {waiting[0].op.texture}), waiting[1..])
  {
    hide OwnedByAll;
    forall t ensures OwnedByAll(g.surfaces, t) + Pending(waiting[1..], t) == if t in g.live - {waiting[0].op.texture} then 1 else 0 {
      assert OwnedByAll(g.surfaces, t) + Pending(waiting, t) == if t in g.live then 1 else 0;
      assert Brought(waiting[0].op)[t] == if t == waiting[0].op.texture then 1 else 0;
    }
  }
}
