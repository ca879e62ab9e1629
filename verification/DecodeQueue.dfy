/** The decode protocol: entries wait as paths, are sent to a worker when they come among the first
    four of their queue, and get the worker's reply at any later time. */
module DecodeQueue {
  import opened Prelude
  import opened Surfaces

  const LAST_ID: nat := 0xffff_ffff_ffff_ffff

  /** `next_decode_id`: ids wrap around, and zero is not used again. */
  function NextId(id: nat): nat { if id >= LAST_ID then 1 else id + 1 }

  /** The queues of all outputs, the ids of canvas targets being decoded, the jobs a worker has, all
      ids ever sent, and the next id. */
  datatype Net = Net(queues: seq<seq<QueuedWallpaper>>, canvas: seq<Option<nat>>, in_flight: set<nat>, sent: seq<nat>, next_id: nat)

  function SentIds(sent: seq<nat>): set<nat> { set id | id in sent }
  function QueueIds(queue: seq<QueuedWallpaper>): set<nat> { set q | q in queue :: q.id }

  /** The jobs a lookahead sends. */
  function Sends(queue: seq<QueuedWallpaper>, n: nat, alive: bool): seq<nat>
    requires n <= |queue|
  {
    if n == 0 then []
    else Sends(queue, n - 1, alive) + if alive && queue[n - 1].state.Path? then [queue[n - 1].id] else []
  }

  function Scheduled(net: Net, i: nat, queue: seq<QueuedWallpaper>, alive: bool): Net
    requires i < |net.queues|
  {
    var ids := Sends(queue, Min(MAX_PREPARED_PER_OUTPUT, |queue|), alive);
    net.(queues := net.queues[i := Lookahead(queue, alive)], sent := net.sent + ids, in_flight := net.in_flight + SentIds(ids))
  }

  /** A canvas start sends its job first, and does not happen if the worker is gone. */
  datatype Event =
    | Enqueued(i: nat, image_path: string, scale_mode: Mode, kind: QueuedKind, alive: bool)
    | PoppedFront(i: nat, alive: bool)
    | Cleared(i: nat)
    | CanvasStarted(i: nat)
    | CanvasNotSent
    | CanvasEnded(i: nat)
    | Replied(id: nat, image: Option<nat>)
    | UploadedOne(i: nat, texture: Option<Texture>)

  /** The queue that a reply goes to: the first that holds the id. */
  function Holder(queues: seq<seq<QueuedWallpaper>>, id: nat): (r: Option<nat>)
    ensures r.Some? ==> r.value < |queues| && id in QueueIds(queues[r.value]) && forall j | 0 <= j < r.value :: id !in QueueIds(queues[j])
    ensures r.None? ==> forall j | 0 <= j < |queues| :: id !in QueueIds(queues[j])
  {
    if queues == [] then None
    else if id in QueueIds(queues[0]) then Some(0)
    else
      match Holder(queues[1..], id)
      case None => None
      case Some(i) => Some(i + 1)
  }

  /** The first output whose canvas target has the id. */
  function CanvasHolder(canvas: seq<Option<nat>>, id: nat): (r: Option<nat>)
    ensures r.Some? ==> r.value < |canvas| && canvas[r.value] == Some(id)
    ensures r.None? ==> forall j | 0 <= j < |canvas| :: canvas[j] != Some(id)
  {
    if canvas == [] then None
    else if canvas[0] == Some(id) then Some(0)
    else
      match CanvasHolder(canvas[1..], id)
      case None => None
      case Some(i) => Some(i + 1)
  }

  /** `handle_decode_result`: a canvas target under way comes first, then the queues. */
  function Handle(net: Net, id: nat, image: Option<nat>): Net {
    match CanvasHolder(net.canvas, id)
    case Some(i) => net.(canvas := net.canvas[i := None])
    case None =>
      match Holder(net.queues, id)
      case None => net
      case Some(i) => net.(queues := net.queues[i := AcceptDecode(net.queues[i], id, image)])
  }

  predicate Enabled(net: Net, e: Event) {
    match e
    case Enqueued(i, _, _, _, _) => i < |net.queues| && net.next_id < LAST_ID
    case PoppedFront(i, _) => i < |net.queues| && net.queues[i] != []
    case Cleared(i) => i < |net.queues|
    case CanvasStarted(i) => i < |net.canvas| && net.next_id < LAST_ID
    case CanvasNotSent => net.next_id < LAST_ID
    case CanvasEnded(i) => i < |net.canvas|
    case Replied(id, _) => id in net.in_flight
    case UploadedOne(i, _) => i < |net.queues|
  }

  function After(net: Net, e: Event): Net
    requires Enabled(net, e)
  {
    match e
    case Enqueued(i, path, mode, kind, alive) =>
      Scheduled(net.(next_id := NextId(net.next_id)), i, net.queues[i] + [QueuedWallpaper(net.next_id, path, mode, kind, Path)], alive)
    case PoppedFront(i, alive) => Scheduled(net, i, net.queues[i][1..], alive)
    case Cleared(i) => net.(queues := net.queues[i := []])
    case CanvasStarted(i) =>
      net.(canvas := net.canvas[i := Some(net.next_id)], sent := net.sent + [net.next_id],
           in_flight := net.in_flight + {net.next_id}, next_id := NextId(net.next_id))
    case CanvasNotSent => net.(next_id := NextId(net.next_id))
    case CanvasEnded(i) => net.(canvas := net.canvas[i := None])
    case Replied(id, image) => Handle(net, id, image).(in_flight := net.in_flight - {id})
    case UploadedOne(i, texture) => net.(queues := net.queues[i := UploadOne(net.queues[i], texture)])
  }

  // ---- what always holds ----

  /** A path has not been sent; a decoding entry's job is with the worker; nothing is awaited for any other. */
  ghost predicate EntryOk(q: QueuedWallpaper, sent: set<nat>, in_flight: set<nat>, next_id: nat) {
    && q.id < next_id
    && (q.state.Path? ==> q.id !in sent)
    && (q.state.Decoding? <==> q.id in in_flight)
  }

  predicate DistinctIds(queue: seq<QueuedWallpaper>) { forall a, b | 0 <= a < b < |queue| :: queue[a].id != queue[b].id }

  ghost predicate QueueOk(queue: seq<QueuedWallpaper>, sent: set<nat>, in_flight: set<nat>, next_id: nat) {
    && DistinctIds(queue)
    && (forall a | 0 <= a < |queue| :: EntryOk(queue[a], sent, in_flight, next_id))
    && (forall a | MAX_PREPARED_PER_OUTPUT <= a < |queue| :: queue[a].state.Path?)
  }

  ghost predicate NetOk(net: Net) {
    && net.in_flight <= SentIds(net.sent)
    && (forall id | id in net.sent :: id < net.next_id)
    && (forall a, b | 0 <= a < b < |net.sent| :: net.sent[a] != net.sent[b])
    && (forall i | 0 <= i < |net.queues| :: QueueOk(net.queues[i], SentIds(net.sent), net.in_flight, net.next_id))
    && (forall i, j | 0 <= i < j < |net.queues| :: QueueIds(net.queues[i]) !! QueueIds(net.queues[j]))
    && (forall i, j | 0 <= i < |net.canvas| && 0 <= j < |net.queues| && net.canvas[i].Some? :: net.canvas[i].value !in QueueIds(net.queues[j]))
    && (forall i | 0 <= i < |net.canvas| && net.canvas[i].Some? :: net.canvas[i].value < net.next_id)
  }

  predicate Prepared(q: QueuedWallpaper) { q.state.Decoding? || q.state.Decoded? || q.state.Uploaded? }

  /** At most four entries of a queue are prepared or being prepared, and they are among its first four. */
  lemma AtMostFourPrepared(net: Net, i: nat)
    requires NetOk(net) && i < |net.queues|
    ensures forall a | 0 <= a < |net.queues[i]| && Prepared(net.queues[i][a]) :: a < MAX_PREPARED_PER_OUTPUT
  {}

  /** A reply reaches a queue only at the entry that awaits it, which is still decoding. */
  lemma ReplyHitsDecoding(net: Net, id: nat, i: nat)
    requires NetOk(net) && id in net.in_flight && Holder(net.queues, id) == Some(i)
    ensures var index := IndexWhere(net.queues[i], ById(id));
      index.Some? && net.queues[i][index.value].state == Decoding && !(exists a | 0 <= a < |net.queues[i]| :: a != index.value && net.queues[i][a].id == id)
  {
    var queue := net.queues[i];
    var q :| q in queue && q.id == id;
    var a :| 0 <= a < |queue| && queue[a] == q;
    assert EntryOk(queue[a], SentIds(net.sent), net.in_flight, net.next_id);
    assert ById(id)(queue[a]);
    var index := IndexWhere(queue, ById(id));
    assert EntryOk(queue[index.value], SentIds(net.sent), net.in_flight, net.next_id);
  }

  // ---- every event keeps it ----

  /** All but the queues. */
  ghost predicate CoreOk(net: Net) {
    && net.in_flight <= SentIds(net.sent)
    && (forall id | id in net.sent :: id < net.next_id)
    && (forall a, b | 0 <= a < b < |net.sent| :: net.sent[a] != net.sent[b])
    && (forall i | 0 <= i < |net.canvas| && net.canvas[i].Some? :: net.canvas[i].value < net.next_id)
  }

  /** One queue, and how it relates to the others. */
  ghost predicate QueueFits(net: Net, i: nat, queue: seq<QueuedWallpaper>) {
    && QueueOk(queue, SentIds(net.sent), net.in_flight, net.next_id)
    && (forall j | 0 <= j < |net.queues| && j != i :: QueueIds(queue) !! QueueIds(net.queues[j]))
    && (forall j | 0 <= j < |net.canvas| && net.canvas[j].Some? :: net.canvas[j].value !in QueueIds(queue))
  }

  lemma NetOkParts(net: Net)
    ensures NetOk(net) <==> CoreOk(net) && forall i | 0 <= i < |net.queues| :: QueueFits(net, i, net.queues[i])
  {
    hide QueueOk, QueueIds, SentIds;
  }

  lemma {:induction false} SendsAre(queue: seq<QueuedWallpaper>, n: nat, alive: bool)
    requires n <= |queue| && DistinctIds(queue)
    ensures forall id :: id in Sends(queue, n, alive) <==> alive && exists a :: 0 <= a < n && queue[a].state.Path? && queue[a].id == id
    ensures forall a, b | 0 <= a < b < |Sends(queue, n, alive)| :: Sends(queue, n, alive)[a] != Sends(queue, n, alive)[b]
  {
    if n > 0 {
      SendsAre(queue, n - 1, alive);
      assert queue[n - 1].id !in Sends(queue, n - 1, alive);
    }
  }

  lemma LookaheadIds(queue: seq<QueuedWallpaper>, alive: bool)
    ensures QueueIds(Lookahead(queue, alive)) == QueueIds(queue)
  {
    var next := Lookahead(queue, alive);
    forall id ensures id in QueueIds(next) <==> id in QueueIds(queue) {
      if id in QueueIds(next) {
        var q :| q in next && q.id == id;
        var a :| 0 <= a < |next| && next[a] == q;
        assert queue[a] in queue && queue[a].id == id;
      }
      if id in QueueIds(queue) {
        var q :| q in queue && q.id == id;
        var a :| 0 <= a < |queue| && queue[a] == q;
        assert next[a] in next && next[a].id == id;
      }
    }
  }

  /** The queue that is looked ahead in. */
  lemma ScheduledQueueOk(queue: seq<QueuedWallpaper>, alive: bool, sent: set<nat>, in_flight: set<nat>, next_id: nat)
    requires QueueOk(queue, sent, in_flight, next_id) && in_flight <= sent
    ensures var ids := SentIds(Sends(queue, Min(MAX_PREPARED_PER_OUTPUT, |queue|), alive));
      QueueOk(Lookahead(queue, alive), sent + ids, in_flight + ids, next_id)
  {
    var first := Min(MAX_PREPARED_PER_OUTPUT, |queue|);
    SendsAre(queue, first, alive);
    var sends := Sends(queue, first, alive);
    var ids, next := SentIds(sends), Lookahead(queue, alive);
    forall a | 0 <= a < |next| ensures EntryOk(next[a], sent + ids, in_flight + ids, next_id) {
      assert EntryOk(queue[a], sent, in_flight, next_id);
      assert queue[a].id in ids <==> alive && a < first && queue[a].state.Path?;
    }
  }

  /** A queue that sends nothing while others do. */
  lemma OtherQueueOk(queue: seq<QueuedWallpaper>, ids: set<nat>, sent: set<nat>, in_flight: set<nat>, next_id: nat, next_id': nat)
    requires QueueOk(queue, sent, in_flight, next_id) && QueueIds(queue) !! ids && next_id <= next_id'
    ensures QueueOk(queue, sent + ids, in_flight + ids, next_id')
  {
    forall a | 0 <= a < |queue| ensures EntryOk(queue[a], sent + ids, in_flight + ids, next_id') {
      assert queue[a] in queue && queue[a].id in QueueIds(queue);
      assert EntryOk(queue[a], sent, in_flight, next_id);
    }
  }

  lemma SendsInQueue(queue: seq<QueuedWallpaper>, n: nat, alive: bool)
    requires n <= |queue| && DistinctIds(queue)
    ensures SentIds(Sends(queue, n, alive)) <= QueueIds(queue)
  {
    SendsAre(queue, n, alive);
    forall id | id in Sends(queue, n, alive) ensures id in QueueIds(queue) {
      var a :| 0 <= a < n && queue[a].state.Path? && queue[a].id == id;
      assert queue[a] in queue;
    }
  }

  lemma SentAppend(a: seq<nat>, b: seq<nat>)
    ensures SentIds(a + b) == SentIds(a) + SentIds(b)
  {}

  /** A lookahead in one queue, after something that left the rest in order. */
  lemma ScheduledOk(net: Net, i: nat, queue: seq<QueuedWallpaper>, alive: bool)
    requires CoreOk(net) && i < |net.queues| && QueueFits(net, i, queue)
    requires forall j | 0 <= j < |net.queues| && j != i :: QueueFits(net.(queues := net.queues[i := queue]), j, net.queues[j])
    ensures NetOk(Scheduled(net, i, queue, alive))
  {
    hide QueueOk, QueueIds, EntryOk, DistinctIds;
    var net' := Scheduled(net, i, queue, alive);
    var sends := Sends(queue, Min(MAX_PREPARED_PER_OUTPUT, |queue|), alive);
    QueueOkDistinct(queue, SentIds(net.sent), net.in_flight, net.next_id);
    SendsInQueue(queue, Min(MAX_PREPARED_PER_OUTPUT, |queue|), alive);
    SendsFresh(queue, Min(MAX_PREPARED_PER_OUTPUT, |queue|), alive, net);
    SentAppend(net.sent, sends);
    LookaheadIds(queue, alive);
    ScheduledQueueOk(queue, alive, SentIds(net.sent), net.in_flight, net.next_id);
    var before := net.(queues := net.queues[i := queue]);
    forall j | 0 <= j < |net'.queues| ensures QueueFits(net', j, net'.queues[j]) {
      forall k | 0 <= k < |net'.queues| && k != j ensures QueueIds(net'.queues[j]) !! QueueIds(net'.queues[k]) {
        assert j != i ==> QueueIds(net.queues[j]) !! QueueIds(before.queues[k]);
        assert j == i ==> QueueIds(queue) !! QueueIds(net.queues[k]);
      }
      if j != i {
        assert QueueFits(before, j, net.queues[j]);
        OtherQueueOk(net.queues[j], SentIds(sends), SentIds(net.sent), net.in_flight, net.next_id, net.next_id);
      }
    }
    NetOkParts(net');
  }

  lemma QueueOkDistinct(queue: seq<QueuedWallpaper>, sent: set<nat>, in_flight: set<nat>, next_id: nat)
    requires QueueOk(queue, sent, in_flight, next_id)
    ensures DistinctIds(queue)
  {}

  /** What a lookahead sends has not been sent, and is sent once. */
  lemma SendsFresh(queue: seq<QueuedWallpaper>, n: nat, alive: bool, net: Net)
    requires n <= |queue| && CoreOk(net) && QueueOk(queue, SentIds(net.sent), net.in_flight, net.next_id)
    ensures var all := net.sent + Sends(queue, n, alive);
      && (forall id | id in all :: id < net.next_id)
      && (forall a, b | 0 <= a < b < |all| :: all[a] != all[b])
  {
    SendsAre(queue, n, alive);
    var sends := Sends(queue, n, alive);
    forall id | id in sends ensures id !in net.sent && id < net.next_id {
      var a :| 0 <= a < n && queue[a].state.Path? && queue[a].id == id;
      assert EntryOk(queue[a], SentIds(net.sent), net.in_flight, net.next_id);
    }
    forall a, b | 0 <= a < b < |net.sent + sends| ensures (net.sent + sends)[a] != (net.sent + sends)[b] {
      if a < |net.sent| <= b {
        assert sends[b - |net.sent|] in sends;
      }
    }
  }

  lemma Parts(net: Net)
    requires NetOk(net)
    ensures CoreOk(net) && forall i | 0 <= i < |net.queues| :: QueueFits(net, i, net.queues[i])
  {
    NetOkParts(net);
  }

  /** The queues that are not touched still fit when one queue only loses ids, or gains an unused one. */
  lemma OthersFit(net: Net, net': Net, i: nat, queue: seq<QueuedWallpaper>, extra: set<nat>)
    requires NetOk(net) && i < |net.queues| && net'.queues == net.queues && net'.canvas == net.canvas
    requires net'.sent == net.sent && net'.in_flight == net.in_flight && net.next_id <= net'.next_id
    requires QueueIds(queue) <= QueueIds(net.queues[i]) + extra && forall id | id in extra :: id >= net.next_id
    ensures forall j | 0 <= j < |net.queues| && j != i :: QueueFits(net'.(queues := net'.queues[i := queue]), j, net.queues[j])
    ensures forall j | 0 <= j < |net.queues| && j != i :: QueueIds(queue) !! QueueIds(net.queues[j])
    ensures forall j | 0 <= j < |net.canvas| && net.canvas[j].Some? :: net.canvas[j].value !in QueueIds(queue)
  {
    hide QueueOk, EntryOk, DistinctIds;
    Parts(net);
    forall j | 0 <= j < |net.queues| && j != i
      ensures QueueFits(net'.(queues := net'.queues[i := queue]), j, net.queues[j]) && QueueIds(queue) !! QueueIds(net.queues[j])
    {
      assert QueueFits(net, j, net.queues[j]) && QueueFits(net, i, net.queues[i]);
      IdsBelow(net.queues[j], SentIds(net.sent), net.in_flight, net.next_id);
      LaterId(net.queues[j], SentIds(net.sent), net.in_flight, net.next_id, net'.next_id);
    }
    assert QueueFits(net, i, net.queues[i]);
  }

  lemma IdsBelow(queue: seq<QueuedWallpaper>, sent: set<nat>, in_flight: set<nat>, next_id: nat)
    requires QueueOk(queue, sent, in_flight, next_id)
    ensures forall id | id in QueueIds(queue) :: id < next_id
  {
    forall id | id in QueueIds(queue) ensures id < next_id {
      var q :| q in queue && q.id == id;
      var a :| 0 <= a < |queue| && queue[a] == q;
      assert EntryOk(queue[a], sent, in_flight, next_id);
    }
  }

  lemma LaterId(queue: seq<QueuedWallpaper>, sent: set<nat>, in_flight: set<nat>, next_id: nat, next_id': nat)
    requires QueueOk(queue, sent, in_flight, next_id) && next_id <= next_id'
    ensures QueueOk(queue, sent, in_flight, next_id')
  {
    forall a | 0 <= a < |queue| ensures EntryOk(queue[a], sent, in_flight, next_id') {
      assert EntryOk(queue[a], sent, in_flight, next_id);
    }
  }

  lemma EnqueuedOk(net: Net, i: nat, q: QueuedWallpaper, alive: bool)
    requires NetOk(net) && i < |net.queues| && net.next_id < LAST_ID && q.id == net.next_id && q.state == Path
    ensures NetOk(Scheduled(net.(next_id := NextId(net.next_id)), i, net.queues[i] + [q], alive))
  {
    hide QueueOk, EntryOk, DistinctIds;
    Parts(net);
    var net' := net.(next_id := NextId(net.next_id));
    var queue := net.queues[i] + [q];
    assert QueueIds(queue) == QueueIds(net.queues[i]) + {q.id};
    OthersFit(net, net', i, queue, {q.id});
    AppendedOk(net.queues[i], q, SentIds(net.sent), net.in_flight, net.next_id);
    ScheduledOk(net', i, queue, alive);
  }

  lemma AppendedOk(queue: seq<QueuedWallpaper>, q: QueuedWallpaper, sent: set<nat>, in_flight: set<nat>, next_id: nat)
    requires QueueOk(queue, sent, in_flight, next_id) && q.id == next_id && q.state == Path
    requires in_flight <= sent && forall id | id in sent :: id < next_id
    ensures QueueOk(queue + [q], sent, in_flight, next_id + 1)
  {
    var all := queue + [q];
    forall a | 0 <= a < |all| ensures EntryOk(all[a], sent, in_flight, next_id + 1) {
      if a < |queue| {
        assert EntryOk(queue[a], sent, in_flight, next_id);
      }
    }
    forall a, b | 0 <= a < b < |all| ensures all[a].id != all[b].id {
      assert EntryOk(queue[a], sent, in_flight, next_id);
    }
  }

  lemma PoppedOk(net: Net, i: nat, alive: bool)
    requires NetOk(net) && i < |net.queues| && net.queues[i] != []
    ensures NetOk(Scheduled(net, i, net.queues[i][1..], alive))
  {
    hide QueueOk, EntryOk, DistinctIds;
    Parts(net);
    var queue := net.queues[i][1..];
    assert QueueIds(queue) <= QueueIds(net.queues[i]);
    OthersFit(net, net, i, queue, {});
    TailOk(net.queues[i], SentIds(net.sent), net.in_flight, net.next_id);
    ScheduledOk(net, i, queue, alive);
  }

  lemma TailOk(queue: seq<QueuedWallpaper>, sent: set<nat>, in_flight: set<nat>, next_id: nat)
    requires QueueOk(queue, sent, in_flight, next_id) && queue != []
    ensures QueueOk(queue[1..], sent, in_flight, next_id)
  {
    forall a | 0 <= a < |queue[1..]| ensures EntryOk(queue[1..][a], sent, in_flight, next_id) {
      assert EntryOk(queue[a + 1], sent, in_flight, next_id);
    }
  }

  /** A queue replaced by one with the same or fewer ids, without anything sent. */
  lemma ReplacedOk(net: Net, i: nat, queue: seq<QueuedWallpaper>)
    requires NetOk(net) && i < |net.queues| && QueueIds(queue) <= QueueIds(net.queues[i])
    requires QueueOk(queue, SentIds(net.sent), net.in_flight, net.next_id)
    ensures NetOk(net.(queues := net.queues[i := queue]))
  {
    hide QueueOk, QueueIds, EntryOk, DistinctIds;
    Parts(net);
    OthersFit(net, net, i, queue, {});
    var net' := net.(queues := net.queues[i := queue]);
    forall j | 0 <= j < |net'.queues| ensures QueueFits(net', j, net'.queues[j]) {
      if j == i {
        forall k | 0 <= k < |net'.queues| && k != i ensures QueueIds(queue) !! QueueIds(net'.queues[k]) {
          assert net'.queues[k] == net.queues[k];
        }
      }
    }
    NetOkParts(net');
  }

  lemma UploadedOk(net: Net, i: nat, texture: Option<Texture>)
    requires NetOk(net) && i < |net.queues|
    ensures NetOk(net.(queues := net.queues[i := UploadOne(net.queues[i], texture)]))
  {
    hide EntryOk, NetOk, QueueIds;
    QueueOfNet(net, i);
    var queue, next := net.queues[i], UploadOne(net.queues[i], texture);
    SameIds(queue, next);
    forall a | 0 <= a < |next| ensures EntryOk(next[a], SentIds(net.sent), net.in_flight, net.next_id) {
      assert EntryOk(queue[a], SentIds(net.sent), net.in_flight, net.next_id);
      UploadedEntry(queue, texture, a, SentIds(net.sent), net.in_flight, net.next_id);
    }
    ReplacedOk(net, i, next);
  }

  lemma QueueOfNet(net: Net, i: nat)
    requires NetOk(net) && i < |net.queues|
    ensures QueueOk(net.queues[i], SentIds(net.sent), net.in_flight, net.next_id)
  {}

  lemma UploadedEntry(queue: seq<QueuedWallpaper>, texture: Option<Texture>, a: nat, sent: set<nat>, in_flight: set<nat>, next_id: nat)
    requires a < |queue| && EntryOk(queue[a], sent, in_flight, next_id)
    ensures EntryOk(UploadOne(queue, texture)[a], sent, in_flight, next_id)
  {}

  lemma SameIds(a: seq<QueuedWallpaper>, b: seq<QueuedWallpaper>)
    requires |a| == |b| && forall k | 0 <= k < |a| :: a[k].id == b[k].id
    ensures QueueIds(a) == QueueIds(b)
  {
    forall id ensures id in QueueIds(a) <==> id in QueueIds(b) {
      if id in QueueIds(a) {
        var q :| q in a && q.id == id;
        var k :| 0 <= k < |a| && a[k] == q;
        assert b[k] in b && b[k].id == id;
      }
      if id in QueueIds(b) {
        var q :| q in b && q.id == id;
        var k :| 0 <= k < |b| && b[k] == q;
        assert a[k] in a && a[k].id == id;
      }
    }
  }

  lemma CanvasStartedOk(net: Net, i: nat)
    requires NetOk(net) && i < |net.canvas| && net.next_id < LAST_ID
    ensures NetOk(After(net, CanvasStarted(i)))
  {
    hide QueueOk, EntryOk, DistinctIds;
    Parts(net);
    var net' := After(net, CanvasStarted(i));
    SentAppend(net.sent, [net.next_id]);
    assert SentIds([net.next_id]) == {net.next_id};
    forall j | 0 <= j < |net'.queues| ensures QueueFits(net', j, net'.queues[j]) {
      assert QueueFits(net, j, net.queues[j]);
      IdsBelow(net.queues[j], SentIds(net.sent), net.in_flight, net.next_id);
      OtherQueueOk(net.queues[j], {net.next_id}, SentIds(net.sent), net.in_flight, net.next_id, net.next_id + 1);
    }
    NetOkParts(net');
  }

  /** An id is taken for a canvas target; its job is sent, unless the worker is gone. */
  lemma TargetSentOk(net: Net, alive: bool)
    requires NetOk(net) && net.next_id < LAST_ID
    ensures var jobs := if alive then [net.next_id] else [];
      NetOk(net.(sent := net.sent + jobs, in_flight := net.in_flight + SentIds(jobs), next_id := NextId(net.next_id)))
  {
    hide QueueOk, EntryOk, DistinctIds;
    Parts(net);
    var jobs := if alive then [net.next_id] else [];
    var net' := net.(sent := net.sent + jobs, in_flight := net.in_flight + SentIds(jobs), next_id := NextId(net.next_id));
    SentAppend(net.sent, jobs);
    assert SentIds(jobs) == if alive then {net.next_id} else {};
    forall j | 0 <= j < |net'.queues| ensures QueueFits(net', j, net'.queues[j]) {
      assert QueueFits(net, j, net.queues[j]);
      IdsBelow(net.queues[j], SentIds(net.sent), net.in_flight, net.next_id);
      OtherQueueOk(net.queues[j], SentIds(jobs), SentIds(net.sent), net.in_flight, net.next_id, net.next_id + 1);
    }
    NetOkParts(net');
  }

  lemma CanvasEndedOk(net: Net, i: nat)
    requires NetOk(net) && i < |net.canvas|
    ensures NetOk(net.(canvas := net.canvas[i := None]))
  {
    hide QueueOk, QueueIds, SentIds;
  }

  /** A job whose id no queue holds can be forgotten. */
  lemma ForgottenOk(net: Net, id: nat)
    requires NetOk(net) && forall j | 0 <= j < |net.queues| :: id !in QueueIds(net.queues[j])
    ensures NetOk(net.(in_flight := net.in_flight - {id}))
  {
    hide QueueOk, EntryOk, DistinctIds, QueueIds;
    Parts(net);
    var net' := net.(in_flight := net.in_flight - {id});
    forall j | 0 <= j < |net'.queues| ensures QueueFits(net', j, net'.queues[j]) {
      assert QueueFits(net, j, net.queues[j]);
      WithoutJob(net.queues[j], id, SentIds(net.sent), net.in_flight, net.next_id);
    }
    NetOkParts(net');
  }

  lemma WithoutJob(queue: seq<QueuedWallpaper>, id: nat, sent: set<nat>, in_flight: set<nat>, next_id: nat)
    requires QueueOk(queue, sent, in_flight, next_id) && id !in QueueIds(queue)
    ensures QueueOk(queue, sent, in_flight - {id}, next_id)
  {
    forall a | 0 <= a < |queue| ensures EntryOk(queue[a], sent, in_flight - {id}, next_id) {
      assert queue[a] in queue && queue[a].id in QueueIds(queue);
      assert EntryOk(queue[a], sent, in_flight, next_id);
    }
  }

  lemma AnsweredQueueOk(queue: seq<QueuedWallpaper>, id: nat, image: Option<nat>, sent: set<nat>, in_flight: set<nat>, next_id: nat)
    requires QueueOk(queue, sent, in_flight, next_id) && id in QueueIds(queue) && id in in_flight
    ensures QueueOk(AcceptDecode(queue, id, image), sent, in_flight - {id}, next_id)
    ensures QueueIds(AcceptDecode(queue, id, image)) == QueueIds(queue)
  {
    var next := AcceptDecode(queue, id, image);
    var q :| q in queue && q.id == id;
    var b :| 0 <= b < |queue| && queue[b] == q;
    assert ById(id)(queue[b]);
    var index := IndexWhere(queue, ById(id)).value;
    assert queue[index].id == id && index == b;
    assert EntryOk(queue[index], sent, in_flight, next_id);
    forall a | 0 <= a < |next| ensures EntryOk(next[a], sent, in_flight - {id}, next_id) {
      assert EntryOk(queue[a], sent, in_flight, next_id);
    }
    SameIds(queue, next);
  }

  lemma AnsweredOk(net: Net, id: nat, image: Option<nat>, i: nat)
    requires NetOk(net) && id in net.in_flight && Holder(net.queues, id) == Some(i)
    ensures NetOk(net.(queues := net.queues[i := AcceptDecode(net.queues[i], id, image)], in_flight := net.in_flight - {id}))
  {
    hide QueueOk, EntryOk, DistinctIds, QueueIds;
    Parts(net);
    var queue := AcceptDecode(net.queues[i], id, image);
    var net' := net.(queues := net.queues[i := queue], in_flight := net.in_flight - {id});
    assert QueueFits(net, i, net.queues[i]);
    AnsweredQueueOk(net.queues[i], id, image, SentIds(net.sent), net.in_flight, net.next_id);
    forall j | 0 <= j < |net'.queues| ensures QueueFits(net', j, net'.queues[j]) {
      assert QueueFits(net, j, net.queues[j]);
      forall k | 0 <= k < |net'.queues| && k != j ensures QueueIds(net'.queues[j]) !! QueueIds(net'.queues[k]) {
        assert QueueIds(net.queues[j]) !! QueueIds(net.queues[k]);
      }
      if j != i {
        WithoutJob(net.queues[j], id, SentIds(net.sent), net.in_flight, net.next_id);
      }
    }
    NetOkParts(net');
  }

  lemma RepliedOk(net: Net, id: nat, image: Option<nat>)
    requires NetOk(net) && id in net.in_flight
    ensures NetOk(After(net, Replied(id, image)))
  {
    hide NetOk, QueueIds;
    match CanvasHolder(net.canvas, id)
    case Some(i) =>
      CanvasEndedOk(net, i);
      CanvasIdApart(net, i);
      ForgottenOk(net.(canvas := net.canvas[i := None]), id);
    case None =>
      match Holder(net.queues, id)
      case None => ForgottenOk(net, id);
      case Some(i) => AnsweredOk(net, id, image, i);
  }

  lemma CanvasIdApart(net: Net, i: nat)
    requires NetOk(net) && i < |net.canvas| && net.canvas[i].Some?
    ensures forall j | 0 <= j < |net.queues| :: net.canvas[i].value !in QueueIds(net.queues[j])
  {}

  lemma EmptyQueueOk(sent: set<nat>, in_flight: set<nat>, next_id: nat)
    ensures QueueOk([], sent, in_flight, next_id)
  {}

  /** Every event keeps the protocol in order, and ids that were sent stay sent. */
  lemma AfterOk(net: Net, e: Event)
    requires NetOk(net) && Enabled(net, e)
    ensures NetOk(After(net, e)) && net.sent <= After(net, e).sent
  {
    hide NetOk, QueueOk, Lookahead, Sends;
    match e
    case Enqueued(i, path, mode, kind, alive) => EnqueuedOk(net, i, QueuedWallpaper(net.next_id, path, mode, kind, Path), alive);
    case PoppedFront(i, alive) => PoppedOk(net, i, alive);
    case Cleared(i) =>
      EmptyQueueOk(SentIds(net.sent), net.in_flight, net.next_id);
      ReplacedOk(net, i, []);
    case CanvasStarted(i) => CanvasStartedOk(net, i);
    case CanvasNotSent =>
      TargetSentOk(net, false);
      assert SentIds([]) == {} && net.sent + [] == net.sent && net.in_flight + {} == net.in_flight;
    case CanvasEnded(i) => CanvasEndedOk(net, i);
    case Replied(id, image) => RepliedOk(net, id, image);
    case UploadedOne(i, texture) => UploadedOk(net, i, texture);
  }

  ghost predicate Run(nets: seq<Net>, events: seq<Event>) {
    && |nets| == |events| + 1
    && forall k | 0 <= k < |events| :: Enabled(nets[k], events[k]) && nets[k + 1] == After(nets[k], events[k])
  }

  /** Over all interleavings of enqueueing, popping, clearing, replies and uploads: every id is sent to
      the worker at most once, a reply only ever hits an entry that is decoding, and at most the first
      four entries of a queue are prepared. */
  lemma {:induction false} RunOk(nets: seq<Net>, events: seq<Event>, k: nat)
    requires Run(nets, events) && NetOk(nets[0]) && k <= |events|
    ensures NetOk(nets[k])
    ensures forall a, b | 0 <= a < b < |nets[k].sent| :: nets[k].sent[a] != nets[k].sent[b]
    ensures forall i, a | 0 <= i < |nets[k].queues| && MAX_PREPARED_PER_OUTPUT <= a < |nets[k].queues[i]| :: !Prepared(nets[k].queues[i][a])
    ensures k < |events| && events[k].Replied? && CanvasHolder(nets[k].canvas, events[k].id).None? ==>
      forall i, a | 0 <= i < |nets[k].queues| && 0 <= a < |nets[k].queues[i]| && nets[k].queues[i][a].id == events[k].id :: nets[k].queues[i][a].state == Decoding
  {
    hide After;
    if k > 0 {
      RunOk(nets, events, k - 1);
      AfterOk(nets[k - 1], events[k - 1]);
    }
    if k < |events| && events[k].Replied? {
      forall i, a | 0 <= i < |nets[k].queues| && 0 <= a < |nets[k].queues[i]| && nets[k].queues[i][a].id == events[k].id
        ensures nets[k].queues[i][a].state == Decoding
      {
        QueueOfNet(nets[k], i);
        assert EntryOk(nets[k].queues[i][a], SentIds(nets[k].sent), nets[k].in_flight, nets[k].next_id);
      }
    }
    SentOnce(nets[k]);
    forall i, a | 0 <= i < |nets[k].queues| && MAX_PREPARED_PER_OUTPUT <= a < |nets[k].queues[i]| ensures !Prepared(nets[k].queues[i][a]) {
      QueueOfNet(nets[k], i);
    }
  }

  lemma SentOnce(net: Net)
    requires NetOk(net)
    ensures forall a, b | 0 <= a < b < |net.sent| :: net.sent[a] != net.sent[b]
  {}

  /** A renderer starts in order: no entries, no jobs, first id 1. */
  lemma StartOk(outputs: nat)
    ensures NetOk(Net(seq(outputs, i => []), seq(outputs, i => None), {}, [], 1))
  {}

  // ---- the handlers ----

  class RenderControl {
    var queues: seq<seq<QueuedWallpaper>>
    var canvas: seq<Option<nat>>
    var in_flight: set<nat>
    ghost var sent: seq<nat>
    var next_decode_id: nat

    constructor (outputs: nat)
      ensures NetOk(Value())
    {
      queues, canvas := seq(outputs, i => []), seq(outputs, i => None);
      in_flight, sent, next_decode_id := {}, [], 1;
      new;
      StartOk(outputs);
    }

    ghost function Value(): Net
      reads this
    {
      Net(queues, canvas, in_flight, sent, next_decode_id)
    }

    method TakeDecodeId() returns (id: nat)
      modifies this`next_decode_id
      ensures id == old(next_decode_id) && next_decode_id == NextId(id)
    {
      id := next_decode_id;
      next_decode_id := if id >= LAST_ID then 0 else id + 1;
      next_decode_id := Max(next_decode_id, 1);
    }

    /** A reply goes to the first output whose canvas waits for it, else to the first queue that holds its id. */
    method HandleDecodeResult(id: nat, image: Option<nat>)
      requires NetOk(Value()) && id in in_flight
      modifies this
      ensures Value() == After(old(Value()), Replied(id, image)) && NetOk(Value())
    {
      AfterOk(Value(), Replied(id, image));
      in_flight := in_flight - {id};
      var index := CanvasHolder(canvas, id);
      if index.Some? {
        canvas := canvas[index.value := None];
        return;
      }
      var holder := Holder(queues, id);
      if holder.Some? {
        queues := queues[holder.value := AcceptDecode(queues[holder.value], id, image)];
      }
    }

    /** One upload: in the first output that can be drawn to and has a decoded entry. */
    method PumpOneQueueUpload(ready: seq<bool>, texture: Option<Texture>) returns (done: Option<nat>)
      requires NetOk(Value()) && |ready| == |queues|
      modifies this`queues
      ensures done.Some? ==> done.value < |old(queues)| && Value() == After(old(Value()), UploadedOne(done.value, texture))
      ensures done.Some? ==> ready[done.value] && IndexWhere(old(queues)[done.value], IsDecoded()).Some?
      ensures done.Some? ==> forall j | 0 <= j < done.value :: !(ready[j] && IndexWhere(old(queues)[j], IsDecoded()).Some?)
      ensures done.None? ==> queues == old(queues) && forall i | 0 <= i < |queues| :: !(ready[i] && IndexWhere(queues[i], IsDecoded()).Some?)
      ensures NetOk(Value())
    {
      hide NetOk, IndexWhere, IsDecoded;
      for i := 0 to |queues|
        invariant queues == old(queues)
        invariant forall j | 0 <= j < i :: !(ready[j] && IndexWhere(queues[j], IsDecoded()).Some?)
      {
        if ready[i] && IndexWhere(queues[i], IsDecoded()).Some? {
          UploadedOk(Value(), i, texture);
          queues := queues[i := UploadOne(queues[i], texture)];
          return Some(i);
        }
      }
      done := None;
    }
  }
}
