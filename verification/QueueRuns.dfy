/** What becomes of a queued wallpaper over a run of the renderer: what a worker's reply and an upload
    make of its entry, and what is on the output when it has been started. */
module QueueRuns {
  import opened Prelude
  import opened Surfaces
  import opened TextureRuns
  import opened DecodeQueue
  import opened DaemonRuns

  // ---- one action ----

  predicate SameEntry(q: QueuedWallpaper, q': QueuedWallpaper) {
    q'.id == q.id && q'.image_path == q.image_path && q'.scale_mode == q.scale_mode && q'.transition == q.transition
  }

  function QueueOf(d: Daemon, i: nat): seq<QueuedWallpaper>
    requires i < |d.gpu.surfaces|
  {
    d.gpu.surfaces[i].queue
  }

  /** The first decoded entry. */
  predicate NextToUpload(queue: seq<QueuedWallpaper>, p: nat) {
    p < |queue| && queue[p].state.Decoded? && forall k | 0 <= k < p :: !queue[k].state.Decoded?
  }

  function Answer(image: Option<nat>): QueuedState { if image.Some? then Decoded(image.value) else Failed }

  function Upload(texture: Option<Texture>): QueuedState { if texture.Some? then Uploaded(texture.value) else Failed }

  /** Whether the worker takes the jobs that an action sends. */
  predicate WorkerAlive(a: Action) {
    match a
    case QueueWallpaper(_, _, _, _, alive) => alive
    case Perform(_, op) => op.StartNextOp? && op.alive
    case _ => false
  }

  /** A path that is sent, or that could not be. */
  predicate SentOn(before: QueuedState, after: QueuedState, alive: bool) { before.Path? && after == if alive then Decoding else Failed }

  predicate Uploads(d: Daemon, a: Action, i: nat, p: nat)
    requires i < |d.gpu.surfaces|
  {
    a.Perform? && a.i == i && a.op.UploadOneOp? && NextToUpload(QueueOf(d, i), p)
  }

  /** An entry after an action: the reply to its job is its new state, an upload its texture, and
      otherwise its state only changes when it is sent. */
  predicate Becomes(d: Daemon, a: Action, i: nat, p: nat, q': QueuedWallpaper)
    requires i < |d.gpu.surfaces| && p < |QueueOf(d, i)|
  {
    var q := QueueOf(d, i)[p];
    && SameEntry(q, q')
    && if a.Reply? && a.id == q.id then q'.state == Answer(a.image)
       else if Uploads(d, a, i, p) then q'.state == Upload(a.op.uploaded)
       else q'.state == q.state || SentOn(q.state, q'.state, WorkerAlive(a))
  }

  predicate Queued(d: Daemon, a: Action, i: nat, q': QueuedWallpaper) {
    && a.QueueWallpaper? && a.i == i
    && SameEntry(QueuedWallpaper(d.next_id, a.image_path, a.scale_mode, a.kind, Path), q')
    && (q'.state.Path? || SentOn(Path, q'.state, a.alive))
  }

  ghost predicate Comes(d: Daemon, a: Action, i: nat, q': QueuedWallpaper)
    requires i < |d.gpu.surfaces|
  {
    Queued(d, a, i, q') || exists p :: 0 <= p < |QueueOf(d, i)| && Becomes(d, a, i, p, q')
  }

  /** Popping sends entries on and changes nothing else of them. */
  lemma {:induction false} PoppedSends(queue: seq<QueuedWallpaper>, k: nat, p: nat, alive: bool)
    requires k + p < |queue|
    ensures var q := Popped(queue, k, alive)[p]; SameEntry(queue[k + p], q) && (q.state == queue[k + p].state || SentOn(queue[k + p].state, q.state, alive))
  {
    hide Lookahead;
    if k > 0 {
      PoppedSends(queue, k - 1, p + 1, alive);
      LookaheadSends(Popped(queue, k - 1, alive)[1..], p, alive);
    }
  }

  lemma LookaheadSends(queue: seq<QueuedWallpaper>, p: nat, alive: bool)
    requires p < |queue|
    ensures var q := Lookahead(queue, alive)[p]; SameEntry(queue[p], q) && (q.state == queue[p].state || SentOn(queue[p].state, q.state, alive))
  {}

  /** No job is answered that an entry of another queue waits for. */
  predicate NotAnswered(d: Daemon, a: Action, i: nat)
    requires i < |d.gpu.surfaces|
  {
    a.Reply? ==> forall p | 0 <= p < |QueueOf(d, i)| :: QueueOf(d, i)[p].id != a.id
  }

  lemma KeptComes(d: Daemon, a: Action, i: nat, p: nat)
    requires i < |d.gpu.surfaces| && p < |QueueOf(d, i)| && NotAnswered(d, a, i) && !Uploads(d, a, i, p)
    ensures Comes(d, a, i, QueueOf(d, i)[p])
  {
    assert Becomes(d, a, i, p, QueueOf(d, i)[p]);
  }

  lemma OtherQueueNotAnswered(d: Daemon, a: Action, i: nat)
    requires Sound(d) && CanAct(d, a) && i < |d.gpu.surfaces|
    requires a.Reply? && OpOf(d, a) != Some((i, AcceptDecodeOp(a.id, a.image)))
    ensures NotAnswered(d, a, i)
  {
    hide Exact;
    forall p | 0 <= p < |QueueOf(d, i)| ensures QueueOf(d, i)[p].id != a.id {
      assert QueueOf(d, i)[p] in Queues(d.gpu.surfaces)[i];
      assert QueueOf(d, i)[p].id in QueueIds(Queues(d.gpu.surfaces)[i]);
    }
  }

  /** One output changes by one operation; the others stay. */
  lemma OneChanges(d: Daemon, a: Action, d': Daemon)
    requires Moves(d, a, d')
    ensures |d'.gpu.surfaces| == |d.gpu.surfaces|
    ensures var o := OpOf(d, a);
      if o.Some? then
        && o.value.0 < |d.gpu.surfaces| && Allowed(d.gpu.surfaces[o.value.0], o.value.1)
        && d'.gpu.surfaces == d.gpu.surfaces[o.value.0 := Apply(d.gpu.surfaces[o.value.0], o.value.1).surface]
      else d'.gpu == d.gpu
  {
    hide OpOf, CanAct, Jobs, Apply, Incoming, Allowed, FreshlyMade;
  }

  lemma EnqueuedComes(d: Daemon, a: Action, p: nat)
    requires a.QueueWallpaper? && a.i < |d.gpu.surfaces| && p <= |QueueOf(d, a.i)|
    ensures Comes(d, a, a.i, Enqueue(d.gpu.surfaces[a.i], QueuedWallpaper(d.next_id, a.image_path, a.scale_mode, a.kind, Path), a.alive).queue[p])
  {
    hide Lookahead;
    var queue := QueueOf(d, a.i) + [QueuedWallpaper(d.next_id, a.image_path, a.scale_mode, a.kind, Path)];
    LookaheadSends(queue, p, a.alive);
    assert p < |QueueOf(d, a.i)| ==> Becomes(d, a, a.i, p, Lookahead(queue, a.alive)[p]);
  }

  lemma StartedComes(d: Daemon, a: Action, p: nat)
    requires a.Perform? && a.op.StartNextOp? && a.i < |d.gpu.surfaces| && Allowed(d.gpu.surfaces[a.i], a.op)
    requires p < |Apply(d.gpu.surfaces[a.i], a.op).surface.queue|
    ensures Comes(d, a, a.i, Apply(d.gpu.surfaces[a.i], a.op).surface.queue[p])
  {
    hide Popped, StartNext, NextFits;
    var s, k := d.gpu.surfaces[a.i], Pops(a.op);
    NextFitsSize(s.queue, a.op.skipped, a.op.load, a.op.alive);
    StartNextTrims(s, a.op.skipped, a.op.load, a.op.alive);
    PoppedSends(s.queue, k, p, a.op.alive);
    assert Becomes(d, a, a.i, k + p, Popped(s.queue, k, a.op.alive)[p]);
  }

  lemma UploadedComes(d: Daemon, a: Action, p: nat)
    requires a.Perform? && a.op.UploadOneOp? && a.i < |d.gpu.surfaces| && p < |QueueOf(d, a.i)|
    ensures Comes(d, a, a.i, UploadOne(QueueOf(d, a.i), a.op.uploaded)[p])
  {
    var queue := QueueOf(d, a.i);
    var index := IndexWhere(queue, IsDecoded());
    assert NextToUpload(queue, p) ==> IsDecoded()(queue[p]);
    assert Becomes(d, a, a.i, p, UploadOne(queue, a.op.uploaded)[p]);
  }

  lemma AnsweredComes(d: Daemon, a: Action, i: nat, p: nat)
    requires NetOk(NetOf(d)) && a.Reply? && i < |d.gpu.surfaces| && p < |QueueOf(d, i)|
    requires CanAct(d, a) && Holder(Queues(d.gpu.surfaces), a.id) == Some(i)
    ensures Comes(d, a, i, AcceptDecode(QueueOf(d, i), a.id, a.image)[p])
  {
    hide NetOk, IndexWhere;
    ReplyHitsDecoding(NetOf(d), a.id, i);
    var queue := QueueOf(d, i);
    assert ById(a.id)(queue[IndexWhere(queue, ById(a.id)).value]);
    assert Becomes(d, a, i, p, AcceptDecode(queue, a.id, a.image)[p]);
  }

  /** An action that does nothing to the queue of an output. */
  predicate LeavesQueue(d: Daemon, a: Action, i: nat) {
    match a
    case QueueWallpaper(j, _, _, _, _) => i != j
    case SendTarget(_) => true
    case Reply(id, image, _) => OpOf(d, a) != Some((i, AcceptDecodeOp(id, image)))
    case Perform(j, op) => i != j || !(op.StartNextOp? || op.UploadOneOp?)
  }

  lemma QueueLeft(d: Daemon, a: Action, d': Daemon, i: nat)
    requires Moves(d, a, d') && i < |d.gpu.surfaces| && LeavesQueue(d, a, i)
    ensures i < |d'.gpu.surfaces| && QueueOf(d', i) in {QueueOf(d, i), []}
  {
    hide Apply, Incoming, Allowed, FreshlyMade, JobsOf, AcceptCanvas;
    OneChanges(d, a, d');
    if a.Perform? && a.i == i {
      OthersTrim(d.gpu.surfaces[i], a.op, d.targets);
    } else if a.Reply? && OpOf(d, a).Some? && OpOf(d, a).value.0 == i {
      AnsweredCanvasTrims(d, a, i);
    }
  }

  lemma AnsweredCanvasTrims(d: Daemon, a: Action, i: nat)
    requires a.Reply? && OpOf(d, a).Some? && OpOf(d, a).value.0 == i < |d.gpu.surfaces| && OpOf(d, a) != Some((i, AcceptDecodeOp(a.id, a.image)))
    ensures Allowed(d.gpu.surfaces[i], OpOf(d, a).value.1) && Apply(d.gpu.surfaces[i], OpOf(d, a).value.1).surface.queue == QueueOf(d, i)
  {
    hide AcceptCanvas;
    AnsweredTarget(d.gpu.surfaces[i], a.id, a.texture);
  }

  lemma LeftComes(d: Daemon, a: Action, d': Daemon, i: nat, p: nat)
    requires Sound(d) && Moves(d, a, d') && i < |d.gpu.surfaces| && LeavesQueue(d, a, i)
    requires i < |d'.gpu.surfaces| && p < |QueueOf(d', i)|
    ensures Comes(d, a, i, QueueOf(d', i)[p])
  {
    hide Sound, Moves, OpOf, Comes, NextToUpload, Apply, NotAnswered;
    QueueLeft(d, a, d', i);
    CanActIn(d, a, d');
    if a.Reply? {
      OtherQueueNotAnswered(d, a, i);
    } else {
      NoReply(d, a, i);
    }
    KeptComes(d, a, i, p);
  }

  lemma NoReply(d: Daemon, a: Action, i: nat)
    requires i < |d.gpu.surfaces| && !a.Reply?
    ensures NotAnswered(d, a, i)
  {}

  lemma CanActIn(d: Daemon, a: Action, d': Daemon)
    requires Moves(d, a, d')
    ensures CanAct(d, a)
  {}

  /** Whatever happens, each entry of a queue was there before, or was just queued. */
  lemma EntriesCome(d: Daemon, a: Action, d': Daemon, i: nat, p: nat)
    requires Sound(d) && Moves(d, a, d') && i < |d'.gpu.surfaces| && p < |QueueOf(d', i)|
    ensures i < |d.gpu.surfaces| && Comes(d, a, i, QueueOf(d', i)[p])
  {
    hide Exact, NetOk, TargetsApart, Moves, Becomes, NextToUpload, Comes, Enqueue, StartNext, UploadOne, AcceptDecode, NextFits;
    OneChanges(d, a, d');
    if LeavesQueue(d, a, i) {
      LeftComes(d, a, d', i, p);
    } else {
      CanActIn(d, a, d');
      match a
      case QueueWallpaper(_, _, _, _, _) =>
        EnqueuedSize(d.gpu.surfaces[i], QueuedWallpaper(d.next_id, a.image_path, a.scale_mode, a.kind, Path), a.alive);
        EnqueuedComes(d, a, p);
      case Reply(_, _, _) =>
        SameSizes(QueueOf(d, i), a.id, a.image, None);
        AnsweredComes(d, a, i, p);
      case Perform(_, op) =>
        if op.StartNextOp? {
          StartedComes(d, a, p);
        } else {
          SameSizes(QueueOf(d, i), 0, None, op.uploaded);
          UploadedComes(d, a, p);
        }
    }
  }

  lemma EnqueuedSize(s: Surface, q: QueuedWallpaper, alive: bool)
    ensures |Enqueue(s, q, alive).queue| == |s.queue| + 1
  {}

  lemma SameSizes(queue: seq<QueuedWallpaper>, id: nat, image: Option<nat>, texture: Option<Texture>)
    ensures |AcceptDecode(queue, id, image)| == |queue| && |UploadOne(queue, texture)| == |queue|
  {}

  // ---- runs ----

  /** In the run up to `k`, entry `p` of output `i` after step `k`. */
  predicate InQueue(ds: seq<Daemon>, k: nat, i: nat, p: nat) {
    k < |ds| && i < |ds[k].gpu.surfaces| && p < |QueueOf(ds[k], i)|
  }

  lemma StepSound(ds: seq<Daemon>, actions: seq<Action>, k: nat)
    requires DaemonRun(ds, actions) && Sound(ds[0]) && k < |actions|
    ensures Sound(ds[k]) && Moves(ds[k], actions[k], ds[k + 1]) && Sound(ds[k + 1])
  {
    hide Sound, Moves, AnswersDecoding, FreesOnce;
    DaemonRunOk(ds, actions, k);
    DaemonRunOk(ds, actions, k + 1);
  }

  lemma IdOfEntry(d: Daemon, i: nat, p: nat)
    requires Sound(d) && i < |d.gpu.surfaces| && p < |QueueOf(d, i)|
    ensures QueueOf(d, i)[p].id < d.next_id
    ensures QueueOf(d, i)[p].state.Decoding? <==> QueueOf(d, i)[p].id in d.in_flight
    ensures !QueueOf(d, i)[p].state.Path? ==> p < MAX_PREPARED_PER_OUTPUT
  {
    hide Exact, TargetsApart;
    QueueOfNet(NetOf(d), i);
    assert EntryOk(NetOf(d).queues[i][p], SentIds(d.sent), d.in_flight, d.next_id);
  }

  /** Ids are given out once. */
  lemma {:induction false} IdsGrow(ds: seq<Daemon>, actions: seq<Action>, j: nat, k: nat)
    requires DaemonRun(ds, actions) && j <= k <= |actions|
    ensures ds[j].next_id <= ds[k].next_id
    ensures j < k && actions[j].QueueWallpaper? ==> ds[j].next_id < ds[k].next_id
  {
    hide Step, OpOf, Jobs;
    if j < k {
      IdsGrow(ds, actions, j, k - 1);
      assert Moves(ds[k - 1], actions[k - 1], ds[k]);
    }
  }

  /** An entry keeps the output, path, mode and kind that it was queued with. */
  lemma {:induction false} EntryStays(ds: seq<Daemon>, actions: seq<Action>, j: nat, k: nat, i: nat, p: nat)
    requires DaemonRun(ds, actions) && Sound(ds[0]) && j < k <= |actions| && actions[j].QueueWallpaper?
    requires InQueue(ds, k, i, p) && QueueOf(ds[k], i)[p].id == ds[j].next_id
    ensures i == actions[j].i
    ensures SameEntry(QueuedWallpaper(ds[j].next_id, actions[j].image_path, actions[j].scale_mode, actions[j].kind, Path), QueueOf(ds[k], i)[p])
  {
    hide Sound, Moves, NextToUpload, SentOn;
    var d, a := ds[k - 1], actions[k - 1];
    StepSound(ds, actions, k - 1);
    EntriesCome(d, a, ds[k], i, p);
    IdsGrow(ds, actions, j, k - 1);
    if !Queued(d, a, i, QueueOf(ds[k], i)[p]) {
      var r :| 0 <= r < |QueueOf(d, i)| && Becomes(d, a, i, r, QueueOf(ds[k], i)[p]);
      IdOfEntry(d, i, r);
      EntryStays(ds, actions, j, k - 1, i, r);
    }
  }

  /** An entry with an id given out before was in the queue before. */
  lemma EntryBefore(d: Daemon, a: Action, d': Daemon, i: nat, p: nat) returns (r: nat)
    requires Sound(d) && Moves(d, a, d') && i < |d'.gpu.surfaces| && p < |QueueOf(d', i)| && QueueOf(d', i)[p].id < d.next_id
    ensures i < |d.gpu.surfaces| && r < |QueueOf(d, i)| && Becomes(d, a, i, r, QueueOf(d', i)[p])
  {
    hide Sound, Moves, NextToUpload, SentOn;
    EntriesCome(d, a, d', i, p);
    r :| 0 <= r < |QueueOf(d, i)| && Becomes(d, a, i, r, QueueOf(d', i)[p]);
  }

  lemma OneEntry(d: Daemon, i: nat, p: nat, j: nat, r: nat)
    requires Sound(d) && i < |d.gpu.surfaces| && p < |QueueOf(d, i)| && j < |d.gpu.surfaces| && r < |QueueOf(d, j)|
    requires QueueOf(d, i)[p].id == QueueOf(d, j)[r].id
    ensures i == j && p == r
  {
    hide Exact, TargetsApart, EntryOk;
    QueueOfNet(NetOf(d), i);
    assert NetOf(d).queues[i][p].id in QueueIds(NetOf(d).queues[i]);
    assert NetOf(d).queues[j][r].id in QueueIds(NetOf(d).queues[j]);
  }

  predicate Final(state: QueuedState) { state.Uploaded? || state.Failed? }

  lemma FinalKept(d: Daemon, a: Action, i: nat, p: nat, q': QueuedWallpaper)
    requires Sound(d) && CanAct(d, a) && i < |d.gpu.surfaces| && p < |QueueOf(d, i)|
    requires Becomes(d, a, i, p, q') && Final(QueueOf(d, i)[p].state)
    ensures q'.state == QueueOf(d, i)[p].state
  {
    hide Sound;
    IdOfEntry(d, i, p);
  }

  /** Once an entry is uploaded or has failed it stays so as long as it is queued. */
  lemma {:induction false} FinalStays(ds: seq<Daemon>, actions: seq<Action>, j: nat, k: nat, i: nat, p: nat, i': nat, p': nat)
    requires DaemonRun(ds, actions) && Sound(ds[0]) && j <= k <= |actions|
    requires InQueue(ds, j, i, p) && InQueue(ds, k, i', p') && QueueOf(ds[j], i)[p].id == QueueOf(ds[k], i')[p'].id
    requires Final(QueueOf(ds[j], i)[p].state)
    ensures QueueOf(ds[k], i')[p'].state == QueueOf(ds[j], i)[p].state
  {
    hide Sound, Moves, Becomes, Final;
    DaemonRunOk(ds, actions, j);
    if j == k {
      OneEntry(ds[k], i, p, i', p');
    } else {
      StepSound(ds, actions, k - 1);
      IdsGrow(ds, actions, j, k - 1);
      IdOfEntry(ds[j], i, p);
      var r := EntryBefore(ds[k - 1], actions[k - 1], ds[k], i', p');
      BecomesSame(ds[k - 1], actions[k - 1], i', r, QueueOf(ds[k], i')[p']);
      FinalStays(ds, actions, j, k - 1, i, p, i', r);
      MovesCan(ds[k - 1], actions[k - 1], ds[k]);
      FinalKept(ds[k - 1], actions[k - 1], i', r, QueueOf(ds[k], i')[p']);
    }
  }

  lemma MovesCan(d: Daemon, a: Action, d': Daemon)
    requires Moves(d, a, d')
    ensures CanAct(d, a)
  {}

  lemma BecomesSame(d: Daemon, a: Action, i: nat, p: nat, q': QueuedWallpaper)
    requires i < |d.gpu.surfaces| && p < |QueueOf(d, i)| && Becomes(d, a, i, p, q')
    ensures SameEntry(QueueOf(d, i)[p], q')
  {}

  /** The entry with the id that an upload turned into a texture, or failed to. */
  ghost predicate UploadedAt(d: Daemon, a: Action, i: nat, id: nat, state: QueuedState) {
    && i < |d.gpu.surfaces|
    && exists p: nat :: Uploads(d, a, i, p) && QueueOf(d, i)[p].id == id && state == Upload(a.op.uploaded)
  }

  /** The entry is what the upload made of it. */
  lemma {:induction false} UploadStays(ds: seq<Daemon>, actions: seq<Action>, u: nat, k: nat, i: nat, i': nat, p': nat, state: QueuedState)
    requires DaemonRun(ds, actions) && Sound(ds[0]) && u < k <= |actions|
    requires InQueue(ds, k, i', p') && UploadedAt(ds[u], actions[u], i, QueueOf(ds[k], i')[p'].id, state)
    ensures QueueOf(ds[k], i')[p'].state == state
  {
    hide Sound, Moves, Becomes, Final, UploadedAt;
    StepSound(ds, actions, u);
    StepSound(ds, actions, k - 1);
    var d, a, q' := ds[k - 1], actions[k - 1], QueueOf(ds[k], i')[p'];
    UploadedId(ds[u], actions[u], i, q'.id, state);
    IdsGrow(ds, actions, u, k - 1);
    var r := EntryBefore(d, a, ds[k], i', p');
    BecomesSame(d, a, i', r, q');
    if k == u + 1 {
      BecomesUpload(d, a, i, i', r, q', state);
    } else {
      UploadStays(ds, actions, u, k - 1, i, i', r, state);
      MovesCan(d, a, ds[k]);
      FinalKept(d, a, i', r, q');
    }
  }

  lemma UploadedId(d: Daemon, a: Action, i: nat, id: nat, state: QueuedState)
    requires Sound(d) && UploadedAt(d, a, i, id, state)
    ensures id < d.next_id && Final(state)
  {
    hide Sound;
    var p: nat :| Uploads(d, a, i, p) && QueueOf(d, i)[p].id == id && state == Upload(a.op.uploaded);
    IdOfEntry(d, i, p);
  }

  lemma BecomesUpload(d: Daemon, a: Action, i: nat, j: nat, r: nat, q': QueuedWallpaper, state: QueuedState)
    requires Sound(d) && UploadedAt(d, a, i, q'.id, state)
    requires j < |d.gpu.surfaces| && r < |QueueOf(d, j)| && Becomes(d, a, j, r, q')
    ensures q'.state == state
  {
    hide Sound;
    var p: nat :| Uploads(d, a, i, p) && QueueOf(d, i)[p].id == q'.id && state == Upload(a.op.uploaded);
    OneEntry(d, i, p, j, r);
  }

  /** What a reply makes of its entry: an error fails it; an image is kept until it is uploaded. */
  ghost predicate Answered(ds: seq<Daemon>, actions: seq<Action>, m: nat, k: nat, i: nat, q: QueuedWallpaper)
    requires m < k <= |actions| && |ds| == |actions| + 1 && actions[m].Reply?
  {
    || q.state == Answer(actions[m].image)
    || (actions[m].image.Some? && exists u :: m < u < k && UploadedAt(ds[u], actions[u], i, q.id, q.state))
  }

  lemma {:induction false} ReplyDecides(ds: seq<Daemon>, actions: seq<Action>, m: nat, k: nat, i: nat, p: nat)
    requires DaemonRun(ds, actions) && Sound(ds[0]) && m < k <= |actions| && actions[m].Reply?
    requires InQueue(ds, k, i, p) && QueueOf(ds[k], i)[p].id == actions[m].id
    ensures Answered(ds, actions, m, k, i, QueueOf(ds[k], i)[p])
  {
    hide Sound, Moves, Becomes;
    StepSound(ds, actions, k - 1);
    AnsweredId(ds, actions, m, k - 1);
    var d, a, q' := ds[k - 1], actions[k - 1], QueueOf(ds[k], i)[p];
    var r := EntryBefore(d, a, ds[k], i, p);
    BecomesSame(d, a, i, r, q');
    MovesCan(d, a, ds[k]);
    if k == m + 1 {
      BecomesAnswer(d, a, i, r, q');
    } else {
      ReplyDecides(ds, actions, m, k - 1, i, r);
      AnsweredStep(ds, actions, m, k - 1, i, r, q');
    }
  }

  /** The id of a job that is answered has been given out. */
  lemma AnsweredId(ds: seq<Daemon>, actions: seq<Action>, m: nat, k: nat)
    requires DaemonRun(ds, actions) && Sound(ds[0]) && m <= k <= |actions| && m < |actions| && actions[m].Reply?
    ensures actions[m].id < ds[k].next_id
  {
    hide Step, OpOf, Jobs, Exact, QueueOk, TargetsApart;
    DaemonRunOk(ds, actions, m);
    assert Moves(ds[m], actions[m], ds[m + 1]);
    assert CanAct(ds[m], actions[m]);
    IdsGrow(ds, actions, m, k);
  }

  lemma BecomesAnswer(d: Daemon, a: Action, i: nat, p: nat, q': QueuedWallpaper)
    requires i < |d.gpu.surfaces| && p < |QueueOf(d, i)| && Becomes(d, a, i, p, q') && a.Reply? && a.id == q'.id
    ensures q'.state == Answer(a.image)
  {}

  lemma AnsweredStep(ds: seq<Daemon>, actions: seq<Action>, m: nat, k: nat, i: nat, r: nat, q': QueuedWallpaper)
    requires m < k < |actions| && |ds| == |actions| + 1 && actions[m].Reply? && Sound(ds[k]) && CanAct(ds[k], actions[k])
    requires InQueue(ds, k, i, r) && Answered(ds, actions, m, k, i, QueueOf(ds[k], i)[r])
    requires Becomes(ds[k], actions[k], i, r, q')
    ensures Answered(ds, actions, m, k + 1, i, q')
  {
    hide Sound, UploadedAt, NextToUpload;
    var q := QueueOf(ds[k], i)[r];
    if q.state == Answer(actions[m].image) {
      IdOfEntry(ds[k], i, r);
      if Uploads(ds[k], actions[k], i, r) {
        UploadIs(ds[k], actions[k], i, r, q');
      }
    } else {
      var u :| m < u < k && UploadedAt(ds[u], actions[u], i, q.id, q.state);
      UploadedFinal(ds[u], actions[u], i, q.id, q.state);
      FinalKept(ds[k], actions[k], i, r, q');
    }
  }

  lemma UploadIs(d: Daemon, a: Action, i: nat, p: nat, q': QueuedWallpaper)
    requires i < |d.gpu.surfaces| && p < |QueueOf(d, i)| && Becomes(d, a, i, p, q') && Uploads(d, a, i, p)
    ensures UploadedAt(d, a, i, q'.id, q'.state) && QueueOf(d, i)[p].state.Decoded?
  {
    assert QueueOf(d, i)[p].id == q'.id;
  }

  lemma UploadedFinal(d: Daemon, a: Action, i: nat, id: nat, state: QueuedState)
    requires UploadedAt(d, a, i, id, state)
    ensures Final(state)
  {}

  // ---- what has been sent ----

  /** No path is left among the first four. */
  predicate AllSent(queue: seq<QueuedWallpaper>) { forall p | 0 <= p < |queue| && p < MAX_PREPARED_PER_OUTPUT :: !queue[p].state.Path? }

  lemma LookaheadSendsAll(queue: seq<QueuedWallpaper>, alive: bool)
    ensures AllSent(Lookahead(queue, alive))
  {}

  lemma StatesSent(queue: seq<QueuedWallpaper>, id: nat, image: Option<nat>, texture: Option<Texture>)
    requires AllSent(queue)
    ensures AllSent(AcceptDecode(queue, id, image)) && AllSent(UploadOne(queue, texture))
  {}

  lemma StartedSent(s: Surface, k: nat, load: Option<Loaded>, alive: bool)
    requires NextFits(s.queue, k, load, alive)
    ensures AllSent(StartNext(s, k, load, alive).surface.queue)
  {
    hide Lookahead, StartNext, LoadedFor;
    var n := if load.Some? then k + 1 else k;
    NextFitsSize(s.queue, k, load, alive);
    StartNextTrims(s, k, load, alive);
    if n > 0 {
      LookaheadSendsAll(Popped(s.queue, n - 1, alive)[1..], alive);
    }
  }

  lemma StaysSent(d: Daemon, a: Action, d': Daemon, i: nat)
    requires Sound(d) && Moves(d, a, d') && i < |d.gpu.surfaces| && AllSent(QueueOf(d, i))
    ensures i < |d'.gpu.surfaces| && AllSent(QueueOf(d', i))
  {
    hide Sound, Moves, AllSent, StartNext, AcceptDecode, UploadOne, NextFits, Lookahead;
    OneChanges(d, a, d');
    NoneSent();
    if LeavesQueue(d, a, i) {
      QueueLeft(d, a, d', i);
    } else {
      match a
      case QueueWallpaper(_, _, _, _, _) =>
        LookaheadSendsAll(QueueOf(d, i) + [QueuedWallpaper(d.next_id, a.image_path, a.scale_mode, a.kind, Path)], a.alive);
      case Reply(_, _, _) =>
        StatesSent(QueueOf(d, i), a.id, a.image, None);
      case Perform(_, op) =>
        if op.StartNextOp? {
          StartedSent(d.gpu.surfaces[i], op.skipped, op.load, op.alive);
        } else {
          StatesSent(QueueOf(d, i), 0, None, op.uploaded);
        }
    }
  }

  lemma NoneSent()
    ensures AllSent([])
  {}

  /** At any time of a run exactly the first four entries of a queue no longer wait as paths. */
  lemma {:induction false} FirstFourSent(ds: seq<Daemon>, actions: seq<Action>, k: nat, i: nat)
    requires DaemonRun(ds, actions) && Sound(ds[0]) && k <= |actions|
    requires forall i | 0 <= i < |ds[0].gpu.surfaces| :: Empty(ds[0].gpu.surfaces[i])
    requires i < |ds[k].gpu.surfaces|
    ensures forall p | 0 <= p < |QueueOf(ds[k], i)| :: QueueOf(ds[k], i)[p].state.Path? <==> p >= MAX_PREPARED_PER_OUTPUT
  {
    hide Sound, Moves;
    QueueSent(ds, actions, k, i);
    DaemonRunOk(ds, actions, k);
    forall p | 0 <= p < |QueueOf(ds[k], i)| ensures QueueOf(ds[k], i)[p].state.Path? <==> p >= MAX_PREPARED_PER_OUTPUT {
      IdOfEntry(ds[k], i, p);
    }
  }

  lemma {:induction false} QueueSent(ds: seq<Daemon>, actions: seq<Action>, k: nat, i: nat)
    requires DaemonRun(ds, actions) && Sound(ds[0]) && k <= |actions|
    requires forall i | 0 <= i < |ds[0].gpu.surfaces| :: Empty(ds[0].gpu.surfaces[i])
    requires i < |ds[k].gpu.surfaces|
    ensures AllSent(QueueOf(ds[k], i))
  {
    hide Sound, Moves, AllSent, OpOf, Apply, Allowed, Exact;
    NoneSent();
    if k > 0 {
      StepSound(ds, actions, k - 1);
      OneChanges(ds[k - 1], actions[k - 1], ds[k]);
      QueueSent(ds, actions, k - 1, i);
      StaysSent(ds[k - 1], actions[k - 1], ds[k], i);
    } else {
      assert Empty(ds[0].gpu.surfaces[i]);
    }
  }

  // ---- what is on the output ----

  /** The wallpaper is on the output, or a transition to it is under way. */
  predicate Shows(s: Surface, image_path: string, scale_mode: Mode, texture: Texture) {
    match s.transition
    case Some(t) => t.new_image == image_path && t.new_scale_mode == scale_mode && t.new_texture == Some(texture)
    case None => s.current_image == Some(image_path) && s.scale_mode == scale_mode && s.wallpaper == Some(texture)
  }

  lemma StartQueuedShows(s: Surface, q: QueuedWallpaper, l: Loaded)
    requires l.texture.Some?
    ensures Shows(StartQueued(s, q, l).surface, q.image_path, q.scale_mode, l.texture.value)
  {
    hide WithEnds, Aux, One, OfQueue;
  }

  /** Going through the queue starts the first entry that gets a texture: an uploaded one gets its
      own, and one that failed is passed over. */
  lemma StartNextShows(s: Surface, k: nat, load: Option<Loaded>, alive: bool)
    requires NextFits(s.queue, k, load, alive)
    ensures forall p | 0 <= p < k :: !s.queue[p].state.Uploaded?
    ensures load.Some? ==>
      && k < |s.queue| && !s.queue[k].state.Failed? && load.value.texture.Some?
      && (s.queue[k].state.Uploaded? ==> load.value.texture.value == s.queue[k].state.texture)
      && Shows(StartNext(s, k, load, alive).surface, s.queue[k].image_path, s.queue[k].scale_mode, load.value.texture.value)
    ensures load.None? ==> forall p | 0 <= p < |s.queue| :: !s.queue[p].state.Uploaded?
  {
    hide Popped, StartQueued, SkippedAux, Shows;
    if load.Some? {
      PoppedSends(s.queue, k, 0, alive);
      StartQueuedShows(s.(queue := Popped(s.queue, k + 1, alive)), Popped(s.queue, k, alive)[0], load.value);
    }
  }

  lemma StartedShows(d: Daemon, a: Action, d': Daemon)
    requires Moves(d, a, d') && a.Perform? && a.op.StartNextOp?
    ensures a.i < |d.gpu.surfaces| == |d'.gpu.surfaces| && NextFits(QueueOf(d, a.i), a.op.skipped, a.op.load, a.op.alive)
    ensures a.op.load.Some? ==>
      var q, texture := QueueOf(d, a.i)[a.op.skipped], a.op.load.value.texture;
      && !q.state.Failed? && (q.state.Uploaded? ==> texture == Some(q.state.texture))
      && texture.Some? && Shows(d'.gpu.surfaces[a.i], q.image_path, q.scale_mode, texture.value)
  {
    hide Shows, NextFits, StartNext, FreshlyMade, Incoming, Jobs, Performs;
    OneChanges(d, a, d');
    NextFitsSize(QueueOf(d, a.i), a.op.skipped, a.op.load, a.op.alive);
    StartNextShows(d.gpu.surfaces[a.i], a.op.skipped, a.op.load, a.op.alive);
  }

  /** From queueing to display: a wallpaper queued at `j`, whose job is answered with an image at `m`,
      and whose entry is made a texture at `u`, which is that image's, is never passed over: when the
      queue is gone through and it is its turn, its texture is shown, under its path and scale mode. */
  lemma DecodedIsShown(ds: seq<Daemon>, actions: seq<Action>, j: nat, m: nat, u: nat, n: nat, p: nat, texture: Texture)
    requires DaemonRun(ds, actions) && Sound(ds[0]) && j < m < u < n < |actions|
    requires actions[j].QueueWallpaper? && actions[m].Reply? && actions[m].id == ds[j].next_id && actions[m].image.Some?
    requires var i := actions[j].i; UploadedAt(ds[u], actions[u], i, ds[j].next_id, Uploaded(texture))
    requires actions[n].Perform? && actions[n].op.StartNextOp? && actions[n].i == actions[j].i
    requires InQueue(ds, n, actions[j].i, p) && QueueOf(ds[n], actions[j].i)[p].id == ds[j].next_id
    ensures IsDecodedAs(ds[u], actions[j].i, ds[j].next_id, actions[m].image.value)
    ensures actions[n].op.skipped <= p
    ensures p == actions[n].op.skipped ==> actions[n].op.load.Some? && Shown(ds[n + 1], actions[j].i, actions[j].image_path, actions[j].scale_mode, texture)
  {
    hide Sound, Moves, Step, OpOf, Uploads, Shows, NextFits, UploadedAt, IsDecodedAs, AnswersDecoding, FreesOnce;
    var i := actions[j].i;
    UploadStays(ds, actions, u, n, i, i, p, Uploaded(texture));
    EntryStays(ds, actions, j, n, i, p);
    UploadedImage(ds, actions, m, u, i, Uploaded(texture));
    assert Moves(ds[n], actions[n], ds[n + 1]);
    StartedShows(ds[n], actions[n], ds[n + 1]);
    NotPassedOver(QueueOf(ds[n], i), actions[n].op.skipped, actions[n].op.load, actions[n].op.alive, p);
  }

  lemma NotPassedOver(queue: seq<QueuedWallpaper>, k: nat, load: Option<Loaded>, alive: bool, p: nat)
    requires NextFits(queue, k, load, alive) && p < |queue| && queue[p].state.Uploaded?
    ensures k <= p && load.Some?
  {}

  /** What an upload makes a texture of is the image of the reply. */
  lemma UploadedImage(ds: seq<Daemon>, actions: seq<Action>, m: nat, u: nat, i: nat, state: QueuedState)
    requires DaemonRun(ds, actions) && Sound(ds[0]) && m < u < |actions| && actions[m].Reply?
    requires UploadedAt(ds[u], actions[u], i, actions[m].id, state)
    ensures actions[m].image.Some? && IsDecodedAs(ds[u], i, actions[m].id, actions[m].image.value)
  {
    hide Sound, Moves, UploadedAt;
    var p := UploadedEntry(ds[u], actions[u], i, actions[m].id, state);
    ReplyDecides(ds, actions, m, u, i, p);
    var q := QueueOf(ds[u], i)[p];
    if q.state != Answer(actions[m].image) {
      var v :| m < v < u && UploadedAt(ds[v], actions[v], i, q.id, q.state);
      UploadedFinal(ds[v], actions[v], i, q.id, q.state);
    }
  }

  lemma UploadedEntry(d: Daemon, a: Action, i: nat, id: nat, state: QueuedState) returns (p: nat)
    requires UploadedAt(d, a, i, id, state)
    ensures i < |d.gpu.surfaces| && p < |QueueOf(d, i)| && QueueOf(d, i)[p].id == id && QueueOf(d, i)[p].state.Decoded?
  {
    p :| Uploads(d, a, i, p) && QueueOf(d, i)[p].id == id && state == Upload(a.op.uploaded);
  }

  predicate Shown(d: Daemon, i: nat, image_path: string, scale_mode: Mode, texture: Texture) {
    i < |d.gpu.surfaces| && Shows(d.gpu.surfaces[i], image_path, scale_mode, texture)
  }

  ghost predicate IsDecodedAs(d: Daemon, i: nat, id: nat, image: nat) {
    i < |d.gpu.surfaces| && exists p :: 0 <= p < |QueueOf(d, i)| && QueueOf(d, i)[p].id == id && QueueOf(d, i)[p].state == Decoded(image)
  }

  /** A wallpaper whose job is answered with an error is never started. */
  lemma FailedIsPassedOver(ds: seq<Daemon>, actions: seq<Action>, m: nat, n: nat, p: nat)
    requires DaemonRun(ds, actions) && Sound(ds[0]) && m < n < |actions| && actions[m].Reply? && actions[m].image.None?
    requires actions[n].Perform? && actions[n].op.StartNextOp?
    requires InQueue(ds, n, actions[n].i, p) && QueueOf(ds[n], actions[n].i)[p].id == actions[m].id
    ensures actions[n].op.load.Some? ==> actions[n].op.skipped != p
  {
    hide Sound, Moves, Step, OpOf, Shows, NextFits, UploadedAt, AnswersDecoding, FreesOnce;
    ReplyDecides(ds, actions, m, n, actions[n].i, p);
    assert Moves(ds[n], actions[n], ds[n + 1]);
    StartedShows(ds[n], actions[n], ds[n + 1]);
  }
}
