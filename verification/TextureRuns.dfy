/** Every run of operations on the outputs of a renderer: each live texture has exactly one owner,
    but for those that a reply made an uploaded entry forget. */
module TextureRuns {
  import opened Prelude
  import opened Surfaces

  datatype Op =
    | SetCutOp(image_path: string, texture: Texture, scale_mode: Mode)
    | EnqueueOp(queued: QueuedWallpaper, alive: bool)
    | StartOp(image_path: string, texture: Texture, scale_mode: Mode, kind: Kind, accelerated: bool)
    | StartCanvasOp(image_path: string, target: Option<Texture>, scale_mode: Mode, tiles: seq<CanvasTile>, decode_id: Option<nat>, accelerated: bool)
    | StartNextOp(skipped: nat, load: Option<Loaded>, alive: bool)
    | SettleOp
    | RestoreOp
    | DiscardOp
    | ClearQueueOp
    | AcceptDecodeOp(id: nat, image: Option<nat>)
    | AcceptCanvasOp(id: nat, target: Option<Texture>)
    | UploadOneOp(uploaded: Option<Texture>)
    | DestroyOp

  function Apply(s: Surface, op: Op): Change
    requires Allowed(s, op)
  {
    match op
    case SetCutOp(path, texture, mode) => SetCut(s, path, texture, mode)
    case EnqueueOp(q, alive) => Change(Enqueue(s, q, alive), multiset{})
    case StartOp(path, texture, mode, kind, accelerated) => Start(s, path, Some(texture), mode, kind, accelerated)
    case StartCanvasOp(path, target, mode, tiles, id, accelerated) => StartCanvas(s, path, target, mode, tiles, id, accelerated)
    case StartNextOp(k, load, alive) => StartNext(s, k, load, alive)
    case SettleOp => Settle(s)
    case RestoreOp => Restore(s)
    case DiscardOp => Discard(s)
    case ClearQueueOp => ClearQueue(s)
    case AcceptDecodeOp(id, image) => Change(s.(queue := AcceptDecode(s.queue, id, image)), multiset{})
    case AcceptCanvasOp(id, target) => AcceptCanvas(s, id, target)
    case UploadOneOp(uploaded) => Change(s.(queue := UploadOne(s.queue, uploaded)), multiset{})
    case DestroyOp => Destroy(s)
  }

  /** What is loaded for queued entries fits them. */
  predicate Allowed(s: Surface, op: Op) {
    op.StartNextOp? ==> NextFits(s.queue, op.skipped, op.load, op.alive)
  }

  /** The texture that is neither kept nor freed: a reply overwrites the state of an uploaded entry. */
  function Lost(s: Surface, op: Op): multiset<Texture> {
    if op.AcceptDecodeOp? then Overwritten(s.queue, op.id) else multiset{}
  }

  /** The textures made for an operation, which it takes over. */
  function Incoming(s: Surface, op: Op): multiset<Texture>
    requires Allowed(s, op)
  {
    match op
    case SetCutOp(_, texture, _) => One(Some(texture))
    case EnqueueOp(q, _) => OfEntry(q)
    case StartOp(_, texture, _, kind, _) => One(Some(texture)) + Aux(kind)
    case StartCanvasOp(_, target, _, tiles, _, _) => One(target) + TileTextures(tiles)
    case StartNextOp(k, load, alive) => MadeFor(s.queue, k, load, alive)
    case AcceptCanvasOp(id, target) => if HasActiveCanvasDecode(s, id) then One(target) else multiset{}
    case UploadOneOp(uploaded) => if IndexWhere(s.queue, IsDecoded()).Some? then One(uploaded) else multiset{}
    case _ => multiset{}
  }

  /** Each operation conserves textures, but for the one it may lose, and keeps the wallpaper and the
      transition exclusive. */
  lemma ApplyConserves(s: Surface, op: Op, t: Texture)
    requires Surfaces.WellFormed(s) && Allowed(s, op)
    ensures Owned(Apply(s, op).surface)[t] + Apply(s, op).freed[t] + Lost(s, op)[t] == Owned(s)[t] + Incoming(s, op)[t]
    ensures Surfaces.WellFormed(Apply(s, op).surface)
  {
    hide Owned, SetCut, Enqueue, Start, StartCanvas, StartNext, Settle, Restore, Discard, AcceptCanvas, Destroy,
         NextFits, MadeFor, OfEntry, One, Aux, TileTextures, IndexWhere;
    match op
    case SetCutOp(path, texture, mode) => SetCutConserves(s, path, texture, mode, t);
    case EnqueueOp(q, alive) => EnqueueConserves(s, q, alive, t);
    case StartOp(path, texture, mode, kind, accelerated) => StartConserves(s, path, Some(texture), mode, kind, accelerated, t);
    case StartCanvasOp(path, target, mode, tiles, id, accelerated) => StartCanvasConserves(s, path, target, mode, tiles, id, accelerated, t);
    case StartNextOp(k, load, alive) => StartNextConserves(s, k, load, alive, t);
    case SettleOp => SettleConserves(s, t);
    case RestoreOp => RestoreConserves(s, t);
    case DiscardOp => DiscardConserves(s, t);
    case ClearQueueOp => ClearConserves(s, t);
    case AcceptDecodeOp(id, image) =>
      AcceptDecodeKeeps(s.queue, id, image, t);
      QueueSwap(s, AcceptDecode(s.queue, id, image), t);
    case AcceptCanvasOp(id, target) => AcceptCanvasConserves(s, id, target, t);
    case UploadOneOp(uploaded) =>
      UploadOneConserves(s.queue, uploaded, t);
      QueueSwap(s, UploadOne(s.queue, uploaded), t);
    case DestroyOp =>
      DestroyFreesAll(s, t);
      DestroyKeepsShape(s);
  }

  lemma DestroyKeepsShape(s: Surface)
    ensures Surfaces.WellFormed(Destroy(s).surface)
  {}

  // ---- all outputs ----

  /** The outputs and the textures that exist on the graphics side. */
  datatype Gpu = Gpu(surfaces: seq<Surface>, live: set<Texture>)

  function OwnedByAll(surfaces: seq<Surface>, t: Texture): nat {
    if surfaces == [] then 0 else Owned(surfaces[0])[t] + OwnedByAll(surfaces[1..], t)
  }

  lemma {:induction false} OwnedUpdate(surfaces: seq<Surface>, i: nat, s: Surface, t: Texture)
    requires i < |surfaces|
    ensures OwnedByAll(surfaces[i := s], t) + Owned(surfaces[i])[t] == OwnedByAll(surfaces, t) + Owned(s)[t]
  {
    hide Owned;
    if i > 0 {
      OwnedUpdate(surfaces[1..], i - 1, s, t);
      assert surfaces[i := s][1..] == surfaces[1..][i - 1 := s];
    } else {
      assert surfaces[i := s][1..] == surfaces[1..];
    }
  }

  lemma {:induction false} OwnedPart(surfaces: seq<Surface>, i: nat, t: Texture)
    requires i < |surfaces|
    ensures Owned(surfaces[i])[t] <= OwnedByAll(surfaces, t)
  {
    hide Owned;
    if i > 0 {
      OwnedPart(surfaces[1..], i - 1, t);
    }
  }

  /** New textures have names that are not in use, and are handed over once. */
  ghost predicate FreshlyMade(incoming: multiset<Texture>, live: set<Texture>) {
    forall t :: incoming[t] <= 1 && (incoming[t] == 1 ==> t !in live)
  }

  ghost predicate Step(g: Gpu, i: nat, op: Op, g': Gpu) {
    && i < |g.surfaces| && Allowed(g.surfaces[i], op) && FreshlyMade(Incoming(g.surfaces[i], op), g.live)
    && var c := Apply(g.surfaces[i], op);
    && g'.surfaces == g.surfaces[i := c.surface]
    && forall t :: t in g'.live <==> (t in g.live || Incoming(g.surfaces[i], op)[t] > 0) && c.freed[t] == 0
  }

  /** Each live texture has exactly one owner, save those lost, which have none; nothing owned is dead. */
  ghost predicate ExactBut(g: Gpu, lost: set<Texture>) {
    && lost <= g.live
    && (forall i | 0 <= i < |g.surfaces| :: Surfaces.WellFormed(g.surfaces[i]))
    && forall t :: OwnedByAll(g.surfaces, t) == if t in g.live && t !in lost then 1 else 0
  }

  ghost predicate Exact(g: Gpu) { ExactBut(g, {}) }

  /** What is freed exists at that moment and is freed once. */
  ghost predicate FreedOnce(g: Gpu, i: nat, op: Op) {
    && i < |g.surfaces| && Allowed(g.surfaces[i], op)
    && forall t ::
      && Apply(g.surfaces[i], op).freed[t] <= 1
      && (Apply(g.surfaces[i], op).freed[t] == 1 ==> t in g.live || Incoming(g.surfaces[i], op)[t] > 0)
  }

  lemma StepExactAt(g: Gpu, i: nat, op: Op, g': Gpu, lost: set<Texture>, t: Texture)
    requires ExactBut(g, lost) && Step(g, i, op, g')
    ensures OwnedByAll(g'.surfaces, t) == if t in g'.live && t !in lost && Lost(g.surfaces[i], op)[t] == 0 then 1 else 0
    ensures t in lost || Lost(g.surfaces[i], op)[t] > 0 ==> t in g'.live
    ensures Surfaces.WellFormed(g'.surfaces[i])
    ensures var c := Apply(g.surfaces[i], op); c.freed[t] <= 1 && (c.freed[t] == 1 ==> t in g.live || Incoming(g.surfaces[i], op)[t] > 0)
  {
    hide Owned, Apply, Incoming, Allowed, Lost;
    ApplyConserves(g.surfaces[i], op, t);
    OwnedUpdate(g.surfaces, i, Apply(g.surfaces[i], op).surface, t);
    OwnedPart(g.surfaces, i, t);
    OwnedPart(g'.surfaces, i, t);
  }

  function LostBy(s: Surface, op: Op): set<Texture> { set t | t in Lost(s, op) }

  lemma StepFreesOnce(g: Gpu, i: nat, op: Op, g': Gpu, lost: set<Texture>)
    requires ExactBut(g, lost) && Step(g, i, op, g')
    ensures FreedOnce(g, i, op)
  {
    hide ExactBut, Apply, Incoming;
    StepAllowed(g, i, op, g');
    forall t ensures Apply(g.surfaces[i], op).freed[t] <= 1
      && (Apply(g.surfaces[i], op).freed[t] == 1 ==> t in g.live || Incoming(g.surfaces[i], op)[t] > 0)
    {
      StepExactAt(g, i, op, g', lost, t);
    }
  }

  lemma StepAllowed(g: Gpu, i: nat, op: Op, g': Gpu)
    requires Step(g, i, op, g')
    ensures i < |g.surfaces| && Allowed(g.surfaces[i], op)
    ensures |g'.surfaces| == |g.surfaces| && forall j | 0 <= j < |g.surfaces| && j != i :: g'.surfaces[j] == g.surfaces[j]
  {
    hide Apply, Incoming, Allowed;
  }

  lemma StepExact(g: Gpu, i: nat, op: Op, g': Gpu, lost: set<Texture>)
    requires ExactBut(g, lost) && Step(g, i, op, g')
    ensures ExactBut(g', lost + LostBy(g.surfaces[i], op)) && FreedOnce(g, i, op)
  {
    hide Step, FreedOnce, Allowed, OwnedByAll, Lost;
    StepFreesOnce(g, i, op, g', lost);
    StepAllowed(g, i, op, g');
    var gone := LostBy(g.surfaces[i], op);
    forall t ensures OwnedByAll(g'.surfaces, t) == if t in g'.live && t !in lost + gone then 1 else 0 {
      StepExactAt(g, i, op, g', lost, t);
    }
    forall t | t in lost + gone ensures t in g'.live {
      StepExactAt(g, i, op, g', lost, t);
    }
    forall j | 0 <= j < |g'.surfaces| ensures Surfaces.WellFormed(g'.surfaces[j]) {
      if j == i {
        StepExactAt(g, i, op, g', lost, 0);
      }
    }
  }

  ghost predicate Run(gs: seq<Gpu>, targets: seq<nat>, ops: seq<Op>) {
    && |gs| == |ops| + 1 && |targets| == |ops|
    && forall k | 0 <= k < |ops| :: Step(gs[k], targets[k], ops[k], gs[k + 1])
  }

  /** The textures lost in the first `k` steps. */
  ghost function LostIn(gs: seq<Gpu>, targets: seq<nat>, ops: seq<Op>, k: nat): set<Texture>
    requires Run(gs, targets, ops) && k <= |ops|
  {
    if k == 0 then {}
    else
      assert Step(gs[k - 1], targets[k - 1], ops[k - 1], gs[k]);
      LostIn(gs, targets, ops, k - 1) + LostBy(gs[k - 1].surfaces[targets[k - 1]], ops[k - 1])
  }

  /** Over every run from the start, on any number of outputs and with any replies: every live texture
      has exactly one owner, but for those lost, no transition is under way beside a wallpaper, and
      nothing is freed twice. */
  lemma {:induction false} RunExact(gs: seq<Gpu>, targets: seq<nat>, ops: seq<Op>, k: nat)
    requires Run(gs, targets, ops) && Exact(gs[0]) && k <= |ops|
    ensures ExactBut(gs[k], LostIn(gs, targets, ops, k))
    ensures k < |ops| ==> FreedOnce(gs[k], targets[k], ops[k])
    ensures Exact(gs[k]) <==> LostIn(gs, targets, ops, k) == {}
  {
    hide ExactBut, FreedOnce, Step, LostBy;
    if k > 0 {
      RunExact(gs, targets, ops, k - 1);
      StepExact(gs[k - 1], targets[k - 1], ops[k - 1], gs[k], LostIn(gs, targets, ops, k - 1));
    }
    if k < |ops| {
      StepExact(gs[k], targets[k], ops[k], gs[k + 1], LostIn(gs, targets, ops, k));
    }
    NothingLost(gs[k], LostIn(gs, targets, ops, k));
  }

  lemma NothingLost(g: Gpu, lost: set<Texture>)
    requires ExactBut(g, lost)
    ensures Exact(g) <==> lost == {}
  {
    hide OwnedByAll;
    if lost != {} {
      var t :| t in lost;
      assert OwnedByAll(g.surfaces, t) == 0 && t in g.live;
      assert Exact(g) ==> OwnedByAll(g.surfaces, t) == if t in g.live then 1 else 0;
    }
  }

  /** A renderer starts with outputs that own nothing. */
  lemma {:induction false} NothingOwned(surfaces: seq<Surface>, t: Texture)
    requires forall i | 0 <= i < |surfaces| :: Empty(surfaces[i])
    ensures OwnedByAll(surfaces, t) == 0
  {
    if surfaces != [] {
      EmptyOwns(surfaces[0], t);
      NothingOwned(surfaces[1..], t);
    }
  }

  predicate Empty(s: Surface) { s.wallpaper.None? && s.transition.None? && s.queue == [] }

  lemma EmptyOwns(s: Surface, t: Texture)
    requires Empty(s)
    ensures Owned(s)[t] == 0
  {}

  /** When all outputs are empty no texture is left: so runs may begin and end with none. */
  lemma EmptyIffNoTextures(g: Gpu)
    requires forall i | 0 <= i < |g.surfaces| :: Empty(g.surfaces[i])
    ensures Exact(g) <==> g.live == {}
  {
    hide OwnedByAll;
    forall t ensures OwnedByAll(g.surfaces, t) == 0 {
      NothingOwned(g.surfaces, t);
    }
    if Exact(g) {
      forall t ensures t !in g.live {
        assert OwnedByAll(g.surfaces, t) == if t in g.live then 1 else 0;
      }
    }
  }
}
