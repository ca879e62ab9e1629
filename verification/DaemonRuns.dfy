/** The renderer as one machine: its outputs with their textures and queues, and the decode workers
    with their jobs. Every run keeps both the ownership of textures and the decode protocol, each of
    which the other needs: a reply leaves every texture alone because the entry it finds is one that
    is being decoded. */
module DaemonRuns {
  import opened Prelude
  import opened Surfaces
  import opened TextureRuns
  import opened DecodeQueue

  /** Outputs and textures, the ids taken for canvas targets, the jobs workers have, the ids sent, and
      the next id. */
  datatype Daemon = Daemon(gpu: Gpu, targets: set<nat>, in_flight: set<nat>, sent: seq<nat>, next_id: nat)

  datatype Action =
    | QueueWallpaper(i: nat, image_path: string, scale_mode: Mode, kind: QueuedKind, alive: bool)
    | SendTarget(alive: bool)
    | Reply(id: nat, image: Option<nat>, texture: Option<Texture>)
    | Perform(i: nat, op: Op)

  /** The decode job that a canvas transition under way waits for. */
  function Target(s: Surface): Option<nat> {
    if s.transition.Some? && s.transition.value.kind.Canvas? then s.transition.value.kind.target_decode_id else None
  }

  function Queues(surfaces: seq<Surface>): (r: seq<seq<QueuedWallpaper>>)
    ensures |r| == |surfaces| && forall i | 0 <= i < |r| :: r[i] == surfaces[i].queue
  {
    seq(|surfaces|, i requires 0 <= i < |surfaces| => surfaces[i].queue)
  }

  function Targets(surfaces: seq<Surface>): (r: seq<Option<nat>>)
    ensures |r| == |surfaces| && forall i | 0 <= i < |r| :: r[i] == Target(surfaces[i])
  {
    seq(|surfaces|, i requires 0 <= i < |surfaces| => Target(surfaces[i]))
  }

  function NetOf(d: Daemon): Net { Net(Queues(d.gpu.surfaces), Targets(d.gpu.surfaces), d.in_flight, d.sent, d.next_id) }

  // ---- steps ----

  /** What an output does by itself: entries are queued and replies handled by other actions, and a
      canvas waits for no job but one that was sent for a target. */
  predicate Performs(op: Op, targets: set<nat>) {
    match op
    case EnqueueOp(_, _) => false
    case AcceptDecodeOp(_, _) => false
    case AcceptCanvasOp(_, _) => false
    case StartOp(_, _, _, kind, _) => !kind.Canvas?
    case StartCanvasOp(_, _, _, _, id, _) => id.Some? ==> id.value in targets
    case _ => true
  }

  /** What an action does to which output. A reply goes to the first canvas that waits for it, else to
      the first queue that holds its id, else to nobody. */
  function OpOf(d: Daemon, a: Action): Option<(nat, Op)> {
    match a
    case QueueWallpaper(i, path, mode, kind, alive) => Some((i, EnqueueOp(QueuedWallpaper(d.next_id, path, mode, kind, Path), alive)))
    case SendTarget(_) => None
    case Reply(id, image, texture) =>
      (match CanvasHolder(Targets(d.gpu.surfaces), id)
       case Some(i) => Some((i, AcceptCanvasOp(id, texture)))
       case None =>
         match Holder(Queues(d.gpu.surfaces), id)
         case Some(i) => Some((i, AcceptDecodeOp(id, image)))
         case None => None)
    case Perform(i, op) => Some((i, op))
  }

  predicate CanAct(d: Daemon, a: Action) {
    match a
    case QueueWallpaper(_, _, _, _, _) => d.next_id < LAST_ID
    case SendTarget(_) => d.next_id < LAST_ID
    case Reply(id, _, _) => id in d.in_flight
    case Perform(_, op) => Performs(op, d.targets)
  }

  /** The jobs sent while `k` entries are popped. */
  function PopSends(queue: seq<QueuedWallpaper>, k: nat, alive: bool): seq<nat>
    requires k <= |queue|
  {
    if k == 0 then []
    else
      var rest := Popped(queue, k - 1, alive)[1..];
      PopSends(queue, k - 1, alive) + Sends(rest, Min(MAX_PREPARED_PER_OUTPUT, |rest|), alive)
  }

  function Pops(op: Op): nat
    requires op.StartNextOp?
  {
    if op.load.Some? then op.skipped + 1 else op.skipped
  }

  /** The jobs an operation sends. */
  function JobsOf(s: Surface, op: Op): seq<nat>
    requires Allowed(s, op)
  {
    match op
    case EnqueueOp(q, alive) => Sends(s.queue + [q], Min(MAX_PREPARED_PER_OUTPUT, |s.queue| + 1), alive)
    case StartNextOp(_, _, alive) => PopSends(s.queue, Pops(op), alive)
    case _ => []
  }

  ghost predicate Moves(d: Daemon, a: Action, d': Daemon) {
    && CanAct(d, a)
    && (var o := OpOf(d, a);
        if o.Some? then Step(d.gpu, o.value.0, o.value.1, d'.gpu) else d'.gpu == d.gpu)
    && d'.sent == d.sent + Jobs(d, a)
    && d'.in_flight == d.in_flight - (if a.Reply? then {a.id} else {}) + SentIds(Jobs(d, a))
    && d'.next_id == (if a.QueueWallpaper? || a.SendTarget? then NextId(d.next_id) else d.next_id)
    && d'.targets == d.targets + if a.SendTarget? then {d.next_id} else {}
  }

  function Jobs(d: Daemon, a: Action): seq<nat> {
    if a.SendTarget? then if a.alive then [d.next_id] else []
    else
      var o := OpOf(d, a);
      if o.Some? && o.value.0 < |d.gpu.surfaces| && Allowed(d.gpu.surfaces[o.value.0], o.value.1)
      then JobsOf(d.gpu.surfaces[o.value.0], o.value.1) else []
  }

  /** The ids of targets are in no queue. */
  ghost predicate TargetsApart(d: Daemon) {
    && (forall id | id in d.targets :: id < d.next_id)
    && forall i | 0 <= i < |d.gpu.surfaces| :: d.targets !! QueueIds(d.gpu.surfaces[i].queue)
  }

  ghost predicate Sound(d: Daemon) { Exact(d.gpu) && NetOk(NetOf(d)) && TargetsApart(d) }

  // ---- the net of one output's operation ----

  function NetAfter(net: Net, i: nat, s: Surface, op: Op): Net
    requires i < |net.queues| == |net.canvas| && Allowed(s, op)
  {
    var after, jobs := Apply(s, op).surface, JobsOf(s, op);
    net.(queues := net.queues[i := after.queue], canvas := net.canvas[i := Target(after)],
         sent := net.sent + jobs, in_flight := net.in_flight + SentIds(jobs))
  }

  /** A queue and a target are kept or given up. */
  lemma TrimmedOk(net: Net, i: nat, queue: seq<QueuedWallpaper>, target: Option<nat>)
    requires NetOk(net) && i < |net.queues| == |net.canvas|
    requires queue in {net.queues[i], []} && target in {net.canvas[i], None}
    ensures NetOk(net.(queues := net.queues[i := queue], canvas := net.canvas[i := target]))
  {
    hide NetOk;
    EmptyQueueOk(SentIds(net.sent), net.in_flight, net.next_id);
    ReplacedOk(net, i, []);
    var next := net.(queues := net.queues[i := queue]);
    assert net.queues[i := net.queues[i]] == net.queues;
    CanvasEndedOk(next, i);
    assert net.canvas[i := net.canvas[i]] == net.canvas;
  }

  lemma TargetGivenOk(net: Net, i: nat, id: nat)
    requires NetOk(net) && i < |net.canvas| && id < net.next_id
    requires forall j | 0 <= j < |net.queues| :: id !in QueueIds(net.queues[j])
    ensures NetOk(net.(canvas := net.canvas[i := Some(id)]))
  {
    hide QueueOk, QueueIds, SentIds;
  }

  /** Popping entries, one after the other. */
  lemma {:induction false} PopsOk(net: Net, i: nat, k: nat, alive: bool)
    requires NetOk(net) && i < |net.queues| && k <= |net.queues[i]|
    ensures var queue, jobs := net.queues[i], PopSends(net.queues[i], k, alive);
      && NetOk(net.(queues := net.queues[i := Popped(queue, k, alive)], sent := net.sent + jobs, in_flight := net.in_flight + SentIds(jobs)))
      && QueueIds(Popped(queue, k, alive)) <= QueueIds(queue)
  {
    hide NetOk, Lookahead, Sends;
    var queue := net.queues[i];
    if k == 0 {
      assert SentIds(PopSends(queue, k, alive)) == {};
      assert net.queues[i := Popped(queue, k, alive)] == net.queues;
      assert net.sent + PopSends(queue, k, alive) == net.sent;
      assert net.in_flight + SentIds(PopSends(queue, k, alive)) == net.in_flight;
    } else {
      PopsOk(net, i, k - 1, alive);
      var jobs, before := PopSends(queue, k - 1, alive), Popped(queue, k - 1, alive);
      var rest := before[1..];
      var sends := Sends(rest, Min(MAX_PREPARED_PER_OUTPUT, |rest|), alive);
      var popped := net.(queues := net.queues[i := before], sent := net.sent + jobs, in_flight := net.in_flight + SentIds(jobs));
      PoppedOk(popped, i, alive);
      LookaheadIds(rest, alive);
      assert QueueIds(rest) <= QueueIds(before);
      SentAppend(jobs, sends);
      assert net.sent + jobs + sends == net.sent + (jobs + sends);
      assert net.queues[i := before][i := Lookahead(rest, alive)] == net.queues[i := Lookahead(rest, alive)];
      assert net.in_flight + SentIds(jobs) + SentIds(sends) == net.in_flight + SentIds(jobs + sends);
    }
  }

  lemma SettleTrims(s: Surface)
    ensures Settle(s).surface.queue == s.queue && Settle(s).surface.transition.None?
  {
    hide Aux, One;
  }

  lemma StartTrims(s: Surface, image_path: string, texture: Option<Texture>, scale_mode: Mode, kind: Kind, accelerated: bool)
    ensures var after := Start(s, image_path, texture, scale_mode, kind, accelerated).surface;
      after.queue == s.queue && Target(after) == if kind.Canvas? then kind.target_decode_id else None
  {
    hide Settle;
    SettleTrims(s);
  }

  lemma SetCutTrims(s: Surface, image_path: string, texture: Texture, scale_mode: Mode)
    ensures var after := SetCut(s, image_path, texture, scale_mode).surface; after.queue == [] && Target(after) == None
  {
    hide Settle, One, OfQueue;
    SettleTrims(ClearQueue(s).surface);
  }

  lemma StartQueuedTrims(s: Surface, q: QueuedWallpaper, l: Loaded)
    requires l.texture.Some?
    ensures var after := StartQueued(s, q, l).surface; after.queue in {s.queue, []} && Target(after) == None
  {
    hide Start, SetCut, TileTextures, WithEnds;
    match q.transition
    case QueuedPairwise => StartTrims(s, q.image_path, l.texture, q.scale_mode, Pairwise, true);
    case QueuedWorld(tiles) => StartTrims(s, q.image_path, l.texture, q.scale_mode, World(tiles), true);
    case QueuedCanvas =>
      SetCutTrims(s, q.image_path, l.texture.value, q.scale_mode);
      StartTrims(s, q.image_path, l.texture, q.scale_mode, Canvas(WithEnds(l.tiles, Settle(s).surface.current_image, q.image_path), None), true);
  }

  /** What going through the queue does to the rest of it and to the target. */
  lemma StartNextTrims(s: Surface, k: nat, load: Option<Loaded>, alive: bool)
    requires NextFits(s.queue, k, load, alive)
    ensures var after := StartNext(s, k, load, alive).surface;
      && after.queue in {Popped(s.queue, if load.Some? then k + 1 else k, alive), []}
      && Target(after) in {Target(s), None}
  {
    hide Popped, StartQueued, SkippedAux;
    if load.Some? {
      StartQueuedTrims(s.(queue := Popped(s.queue, k + 1, alive)), Popped(s.queue, k, alive)[0], load.value);
    }
  }

  lemma StartNextOk(net: Net, i: nat, s: Surface, op: Op)
    requires NetOk(net) && i < |net.queues| == |net.canvas| && net.queues[i] == s.queue && net.canvas[i] == Target(s)
    requires op.StartNextOp? && Allowed(s, op)
    ensures NetOk(NetAfter(net, i, s, op)) && QueueIds(Apply(s, op).surface.queue) <= QueueIds(s.queue)
  {
    hide NetOk, Popped, PopSends, StartNext, NextFits;
    var n := Pops(op);
    NextFitsSize(s.queue, op.skipped, op.load, op.alive);
    PopsOk(net, i, n, op.alive);
    StartNextTrims(s, op.skipped, op.load, op.alive);
    var jobs, popped := PopSends(s.queue, n, op.alive), Popped(s.queue, n, op.alive);
    var net' := net.(queues := net.queues[i := popped], sent := net.sent + jobs, in_flight := net.in_flight + SentIds(jobs));
    var after := StartNext(s, op.skipped, op.load, op.alive).surface;
    TrimmedOk(net', i, after.queue, Target(after));
    assert net.queues[i := popped][i := after.queue] == net.queues[i := after.queue];
    assert QueueIds([]) == {};
  }

  lemma NextFitsSize(queue: seq<QueuedWallpaper>, k: nat, load: Option<Loaded>, alive: bool)
    requires NextFits(queue, k, load, alive)
    ensures (if load.Some? then k + 1 else k) <= |queue|
  {}

  /** What an output does by itself keeps the protocol, and its queue gets no new ids. */
  lemma PerformedOk(net: Net, i: nat, s: Surface, op: Op, targets: set<nat>)
    requires NetOk(net) && i < |net.queues| == |net.canvas| && net.queues[i] == s.queue && net.canvas[i] == Target(s)
    requires Performs(op, targets) && Allowed(s, op)
    requires forall id | id in targets :: id < net.next_id && forall j | 0 <= j < |net.queues| :: id !in QueueIds(net.queues[j])
    ensures NetOk(NetAfter(net, i, s, op)) && QueueIds(Apply(s, op).surface.queue) <= QueueIds(s.queue)
  {
    hide NetOk, QueueIds, StartNext, UploadOne;
    if op.StartNextOp? {
      StartNextOk(net, i, s, op);
    } else {
      NoJobs(net, s, op);
      if op.UploadOneOp? {
        UploadedOk(net, i, op.uploaded);
        UploadKeepsIds(s.queue, op.uploaded);
        assert net.canvas[i := Target(s)] == net.canvas;
      } else {
        OthersTrim(s, op, targets);
        var after := Apply(s, op).surface;
        NoIds();
        if op.StartCanvasOp? && op.decode_id.Some? {
          TrimmedOk(net, i, after.queue, None);
          var ended := net.(queues := net.queues[i := after.queue], canvas := net.canvas[i := None]);
          TargetGivenOk(ended, i, op.decode_id.value);
          assert net.canvas[i := None][i := op.decode_id] == net.canvas[i := op.decode_id];
        } else {
          TrimmedOk(net, i, after.queue, Target(after));
        }
      }
    }
  }

  lemma NoIds()
    ensures QueueIds([]) == {}
  {}

  lemma NoJobs(net: Net, s: Surface, op: Op)
    requires Allowed(s, op) && !op.StartNextOp? && !op.EnqueueOp?
    ensures JobsOf(s, op) == [] && net.sent + JobsOf(s, op) == net.sent && net.in_flight + SentIds(JobsOf(s, op)) == net.in_flight
  {}

  lemma UploadKeepsIds(queue: seq<QueuedWallpaper>, texture: Option<Texture>)
    ensures QueueIds(UploadOne(queue, texture)) == QueueIds(queue)
  {
    SameIds(queue, UploadOne(queue, texture));
  }

  /** The other operations keep the queue and the target or give them up; a canvas start sets the target. */
  lemma OthersTrim(s: Surface, op: Op, targets: set<nat>)
    requires Performs(op, targets) && !op.StartNextOp? && !op.UploadOneOp?
    ensures var after := Apply(s, op).surface;
      && after.queue in {s.queue, []}
      && if op.StartCanvasOp? then after.queue == s.queue && Target(after) == op.decode_id else Target(after) in {Target(s), None}
  {
    hide Start, SetCut, Settle, OfQueue, One, Aux, WithEnds;
    match op
    case SetCutOp(path, texture, mode) => SetCutTrims(s, path, texture, mode);
    case StartOp(path, texture, mode, kind, accelerated) => StartTrims(s, path, Some(texture), mode, kind, accelerated);
    case StartCanvasOp(path, target, mode, tiles, id, accelerated) =>
      StartTrims(s, path, target, mode, Canvas(WithEnds(tiles, Settle(s).surface.current_image, path), id), accelerated);
    case SettleOp => SettleTrims(s);
    case _ =>
  }

  // ---- every action keeps everything ----

  /** One output changes: so do one queue and one target. */
  lemma NetOfUpdate(d: Daemon, i: nat, s: Surface)
    requires i < |d.gpu.surfaces|
    ensures Queues(d.gpu.surfaces[i := s]) == Queues(d.gpu.surfaces)[i := s.queue]
    ensures Targets(d.gpu.surfaces[i := s]) == Targets(d.gpu.surfaces)[i := Target(s)]
  {}

  lemma TargetsInNoQueue(d: Daemon)
    requires TargetsApart(d)
    ensures forall id | id in d.targets :: id < d.next_id && forall j | 0 <= j < |NetOf(d).queues| :: id !in QueueIds(NetOf(d).queues[j])
  {
    hide QueueIds;
  }

  lemma QueueWallpaperOk(d: Daemon, a: Action, d': Daemon)
    requires Sound(d) && Moves(d, a, d') && a.QueueWallpaper?
    ensures NetOk(NetOf(d')) && TargetsApart(d')
  {
    hide NetOk, QueueIds, Exact, Lookahead, Sends, OfEntry;
    var net, s := NetOf(d), d.gpu.surfaces[a.i];
    var q := QueuedWallpaper(d.next_id, a.image_path, a.scale_mode, a.kind, Path);
    EnqueuedOk(net, a.i, q, a.alive);
    NetOfUpdate(d, a.i, Enqueue(s, q, a.alive));
    assert Target(Enqueue(s, q, a.alive)) == Target(s);
    assert net.canvas[a.i := Target(s)] == net.canvas;
    LookaheadIds(s.queue + [q], a.alive);
    AppendedIds(s.queue, q);
    assert NetOf(d') == Scheduled(net.(next_id := NextId(net.next_id)), a.i, s.queue + [q], a.alive);
  }

  lemma AppendedIds(queue: seq<QueuedWallpaper>, q: QueuedWallpaper)
    ensures QueueIds(queue + [q]) == QueueIds(queue) + {q.id}
  {}

  lemma SendTargetOk(d: Daemon, a: Action, d': Daemon)
    requires Sound(d) && Moves(d, a, d') && a.SendTarget?
    ensures NetOk(NetOf(d')) && TargetsApart(d')
  {
    hide NetOk, QueueIds, Exact;
    TargetSentOk(NetOf(d), a.alive);
    var jobs := if a.alive then [d.next_id] else [];
    assert NetOf(d') == NetOf(d).(sent := d.sent + jobs, in_flight := d.in_flight + SentIds(jobs), next_id := NextId(d.next_id));
    forall i | 0 <= i < |d.gpu.surfaces| ensures d'.targets !! QueueIds(d.gpu.surfaces[i].queue) {
      QueueOfNet(NetOf(d), i);
      IdsBelow(d.gpu.surfaces[i].queue, SentIds(d.sent), d.in_flight, d.next_id);
    }
  }

  lemma PerformOk(d: Daemon, a: Action, d': Daemon)
    requires Sound(d) && Moves(d, a, d') && a.Perform?
    ensures NetOk(NetOf(d')) && TargetsApart(d')
  {
    hide NetOk, QueueIds, Exact, Apply, Incoming, Allowed, Performs, JobsOf, FreshlyMade;
    var net, s := NetOf(d), d.gpu.surfaces[a.i];
    TargetsInNoQueue(d);
    PerformedOk(net, a.i, s, a.op, d.targets);
    NetOfUpdate(d, a.i, Apply(s, a.op).surface);
    assert NetOf(d') == NetAfter(net, a.i, s, a.op);
  }

  lemma AnsweredTarget(s: Surface, id: nat, texture: Option<Texture>)
    requires Target(s) == Some(id)
    ensures var after := AcceptCanvas(s, id, texture).surface; after.queue == s.queue && Target(after) == None
  {
    hide Aux, One;
  }

  lemma AnsweredIds(queue: seq<QueuedWallpaper>, id: nat, image: Option<nat>)
    ensures QueueIds(AcceptDecode(queue, id, image)) == QueueIds(queue)
  {
    SameIds(queue, AcceptDecode(queue, id, image));
  }

  /** A reply to a canvas. */
  lemma CanvasReplyOk(d: Daemon, a: Action, d': Daemon, i: nat)
    requires Sound(d) && Moves(d, a, d') && a.Reply? && CanvasHolder(NetOf(d).canvas, a.id) == Some(i)
    ensures NetOf(d') == Handle(NetOf(d), a.id, a.image).(in_flight := d.in_flight - {a.id}) && TargetsApart(d')
  {
    hide NetOk, QueueIds, Exact, AcceptCanvas, FreshlyMade, HasActiveCanvasDecode;
    AnsweredTarget(d.gpu.surfaces[i], a.id, a.texture);
    NetOfUpdate(d, i, AcceptCanvas(d.gpu.surfaces[i], a.id, a.texture).surface);
    assert NetOf(d).queues[i := d.gpu.surfaces[i].queue] == NetOf(d).queues;
  }

  /** A reply to an entry of a queue. */
  lemma QueueReplyOk(d: Daemon, a: Action, d': Daemon, i: nat)
    requires Sound(d) && Moves(d, a, d') && a.Reply? && CanvasHolder(NetOf(d).canvas, a.id).None? && Holder(NetOf(d).queues, a.id) == Some(i)
    ensures NetOf(d') == Handle(NetOf(d), a.id, a.image).(in_flight := d.in_flight - {a.id}) && TargetsApart(d')
  {
    hide NetOk, QueueIds, Exact, AcceptDecode, FreshlyMade;
    var s := d.gpu.surfaces[i];
    var answered := s.(queue := AcceptDecode(s.queue, a.id, a.image));
    AnsweredIds(s.queue, a.id, a.image);
    NetOfUpdate(d, i, answered);
    assert Target(answered) == Target(s) && NetOf(d).canvas[i := Target(s)] == NetOf(d).canvas;
  }

  lemma ReplyOk(d: Daemon, a: Action, d': Daemon)
    requires Sound(d) && Moves(d, a, d') && a.Reply?
    ensures NetOk(NetOf(d')) && TargetsApart(d')
  {
    hide NetOk, QueueIds, Exact, ExactBut, Step, Targets, Queues, JobsOf, Allowed;
    var net := NetOf(d);
    RepliedOk(net, a.id, a.image);
    var canvas, holder := CanvasHolder(net.canvas, a.id), Holder(net.queues, a.id);
    if canvas.Some? {
      CanvasReplyOk(d, a, d', canvas.value);
    } else if holder.Some? {
      QueueReplyOk(d, a, d', holder.value);
    } else {
      assert NetOf(d') == After(net, Replied(a.id, a.image));
    }
  }

  predicate Awaits(queue: seq<QueuedWallpaper>, id: nat) {
    var index := IndexWhere(queue, ById(id));
    index.Some? && queue[index.value].state == Decoding
  }

  /** The entry a reply goes to is being decoded, so it has no texture yet. */
  ghost predicate AnswersDecoding(d: Daemon, a: Action) {
    a.Reply? && OpOf(d, a).Some? && OpOf(d, a).value.1.AcceptDecodeOp? ==>
      var i := OpOf(d, a).value.0;
      i < |d.gpu.surfaces| && Awaits(d.gpu.surfaces[i].queue, a.id)
  }

  lemma ReplyLosesNothing(d: Daemon, a: Action)
    requires NetOk(NetOf(d)) && CanAct(d, a)
    ensures AnswersDecoding(d, a)
    ensures OpOf(d, a).Some? && OpOf(d, a).value.0 < |d.gpu.surfaces| ==> Lost(d.gpu.surfaces[OpOf(d, a).value.0], OpOf(d, a).value.1) == multiset{}
  {
    hide NetOk, IndexWhere;
    if a.Reply? && OpOf(d, a).Some? && OpOf(d, a).value.1.AcceptDecodeOp? {
      ReplyHitsDecoding(NetOf(d), a.id, OpOf(d, a).value.0);
    }
  }

  ghost predicate FreesOnce(d: Daemon, a: Action) {
    OpOf(d, a).Some? ==> FreedOnce(d.gpu, OpOf(d, a).value.0, OpOf(d, a).value.1)
  }

  lemma MovesOk(d: Daemon, a: Action, d': Daemon)
    requires Sound(d) && Moves(d, a, d')
    ensures Sound(d') && AnswersDecoding(d, a) && FreesOnce(d, a)
  {
    hide NetOk, TargetsApart, AnswersDecoding, FreedOnce, Step, ExactBut, CanAct, OpOf, Jobs;
    ReplyLosesNothing(d, a);
    TexturesKept(d, a, d');
    match a
    case QueueWallpaper(_, _, _, _, _) => QueueWallpaperOk(d, a, d');
    case SendTarget(_) => SendTargetOk(d, a, d');
    case Reply(_, _, _) => ReplyOk(d, a, d');
    case Perform(_, _) => PerformOk(d, a, d');
  }

  lemma TexturesKept(d: Daemon, a: Action, d': Daemon)
    requires Exact(d.gpu) && NetOk(NetOf(d)) && Moves(d, a, d')
    ensures Exact(d'.gpu) && FreesOnce(d, a)
  {
    hide NetOk, FreedOnce, ExactBut, CanAct, OpOf, Jobs, Lost, FreshlyMade, Apply, Incoming, Allowed;
    ReplyLosesNothing(d, a);
    var o := OpOf(d, a);
    if o.Some? {
      StepExact(d.gpu, o.value.0, o.value.1, d'.gpu, {});
      assert {} + LostBy(d.gpu.surfaces[o.value.0], o.value.1) == {};
    }
  }

  ghost predicate DaemonRun(ds: seq<Daemon>, actions: seq<Action>) {
    && |ds| == |actions| + 1
    && forall k | 0 <= k < |actions| :: Moves(ds[k], actions[k], ds[k + 1])
  }

  /** Over every run of the renderer and its decode workers, in any order of replies: each live texture
      has exactly one owner, nothing is freed twice or before it was made, no job is sent twice, only the
      first four entries of a queue are prepared, and a reply that reaches a queue finds an entry that is
      being decoded. */
  lemma {:induction false} DaemonRunOk(ds: seq<Daemon>, actions: seq<Action>, k: nat)
    requires DaemonRun(ds, actions) && Sound(ds[0]) && k <= |actions|
    ensures Sound(ds[k])
    ensures forall a, b | 0 <= a < b < |ds[k].sent| :: ds[k].sent[a] != ds[k].sent[b]
    ensures forall i, a | 0 <= i < |ds[k].gpu.surfaces| && MAX_PREPARED_PER_OUTPUT <= a < |ds[k].gpu.surfaces[i].queue| ::
      !Prepared(ds[k].gpu.surfaces[i].queue[a])
    ensures k < |actions| ==> AnswersDecoding(ds[k], actions[k]) && FreesOnce(ds[k], actions[k])
  {
    hide Sound, Moves, AnswersDecoding, FreesOnce;
    if k > 0 {
      DaemonRunOk(ds, actions, k - 1);
      MovesOk(ds[k - 1], actions[k - 1], ds[k]);
    }
    if k < |actions| {
      MovesOk(ds[k], actions[k], ds[k + 1]);
    }
    SoundQueues(ds[k]);
  }

  lemma SoundQueues(d: Daemon)
    requires Sound(d)
    ensures forall a, b | 0 <= a < b < |d.sent| :: d.sent[a] != d.sent[b]
    ensures forall i, a | 0 <= i < |d.gpu.surfaces| && MAX_PREPARED_PER_OUTPUT <= a < |d.gpu.surfaces[i].queue| :: !Prepared(d.gpu.surfaces[i].queue[a])
  {
    hide NetOk, Exact, TargetsApart;
    SentOnce(NetOf(d));
    forall i, a | 0 <= i < |d.gpu.surfaces| && MAX_PREPARED_PER_OUTPUT <= a < |d.gpu.surfaces[i].queue| ensures !Prepared(d.gpu.surfaces[i].queue[a]) {
      QueueOfNet(NetOf(d), i);
    }
  }

  /** A renderer whose outputs own nothing starts in order. */
  lemma EmptyIsSound(surfaces: seq<Surface>)
    requires forall i | 0 <= i < |surfaces| :: Empty(surfaces[i])
    ensures Sound(Daemon(Gpu(surfaces, {}), {}, {}, [], 1))
  {
    EmptyIffNoTextures(Gpu(surfaces, {}));
    StartOk(|surfaces|);
    assert Queues(surfaces) == seq(|surfaces|, i => []);
    assert Targets(surfaces) == seq(|surfaces|, i => None);
  }
}
