/** The anti-entropy protocol of src/network/swarm.rs and src/protocol/sync.rs as a step function: the
    engine's synchronization state, the requests in flight and the comparisons running beside the engine. */
module Sync {
  import opened Wrappers
  import opened Limits
  import opened Bytes
  import opened Store
  import opened Queries

  type Rid = nat

  datatype Request =
    | GetInventory
    | GetRecordIds(bucketStart: int, cursor: Option<RecordId>, limit: nat)
    | GetRecords(ids: seq<RecordId>)
  {
    /** `SyncRequest::validate`. */
    predicate Validates() {
      match this
      case GetInventory => true
      case GetRecordIds(_, _, limit) => 0 < limit <= MAX_IDS_PER_RESPONSE
      case GetRecords(ids) => 0 < |ids| <= MAX_REQUESTED_RECORDS
    }
  }

  datatype Response =
    | InventoryReply(buckets: seq<BucketDigest>)
    | IdsReply(ids: seq<RecordId>, next: Option<RecordId>)
    | RecordsReply(records: seq<Record>)
    | Busy
    | Refused
  {
    /** `SyncResponse::validate_bounds`. */
    predicate InBounds() {
      match this
      case InventoryReply(buckets) => |buckets| <= MAX_BUCKETS
      case IdsReply(ids, _) => |ids| <= MAX_IDS_PER_RESPONSE
      case RecordsReply(records) => |records| <= MAX_RECORDS_PER_RESPONSE
      case Busy => true
      case Refused => true
    }
  }

  datatype Pending =
    | PendingInventory(peer: PeerId)
    | PendingIds(peer: PeerId, bucket: int)
    | PendingRecords(peer: PeerId)

  /** A comparison beside the engine: a blocking task that has yet to read the database, or its finished
      action on the way back. */
  datatype Work =
    | ReadInventory(peer: PeerId, remote: seq<BucketDigest>)
    | ReadIds(peer: PeerId, bucket: int, ids: seq<RecordId>, next: Option<RecordId>)
    | InventoryCompared(peer: PeerId, buckets: seq<int>)
    | IdsCompared(peer: PeerId, bucket: int, missing: seq<RecordId>, next: Option<RecordId>)

  datatype Session = Session(started: Instant, queue: seq<int>, outstanding: set<Rid>)

  datatype Sent = Sent(peer: PeerId, request: Request)

  datatype State = State(
    pending: map<Rid, Pending>,
    sessions: map<PeerId, Session>,
    work: map<Rid, Work>,
    inflight: map<Rid, Sent>,         // requests the network has not answered or failed
    nextId: Rid,
    disconnecting: set<PeerId>,       // peers the engine asked the swarm to disconnect
    log: seq<Sent>,                   // history: every request sent
    offered: set<(PeerId, RecordId)>) // history: every record passed to accept_sync_records

  const IDLE: State := State(map[], map[], map[], map[], 0, {}, [], {})

  // ----- Pieces of the handlers -----

  /** `send_request`, and recording the answer to wait for. */
  function Send(s: State, peer: PeerId, request: Request, waiting: Pending): State {
    s.(pending := s.pending[s.nextId := waiting],
       inflight := s.inflight[s.nextId := Sent(peer, request)],
       nextId := s.nextId + 1,
       log := s.log + [Sent(peer, request)])
  }

  function Track(s: State, peer: PeerId, rid: Rid): State {
    if peer in s.sessions then
      s.(sessions := s.sessions[peer := s.sessions[peer].(outstanding := s.sessions[peer].outstanding + {rid})])
    else s
  }

  function Untrack(s: State, peer: PeerId, rid: Rid): State {
    if peer in s.sessions then
      s.(sessions := s.sessions[peer := s.sessions[peer].(outstanding := s.sessions[peer].outstanding - {rid})])
    else s
  }

  function SendTracked(s: State, peer: PeerId, request: Request, waiting: Pending): State {
    Track(Send(s, peer, request, waiting), peer, s.nextId)
  }

  function SetQueue(s: State, peer: PeerId, queue: seq<int>): State {
    if peer in s.sessions then s.(sessions := s.sessions[peer := s.sessions[peer].(queue := queue)]) else s
  }

  function FirstPage(bucket: int): Request { GetRecordIds(bucket, None, MAX_IDS_PER_RESPONSE) }

  // ----- start_sync, pump_sync, finish_sync -----

  function Start(s: State, peer: PeerId, now: Instant): State {
    if peer in s.sessions || |s.sessions| >= MAX_SIMULTANEOUS_SYNC_PEERS then s
    else
      var sent := Send(s, peer, GetInventory, PendingInventory(peer));
      sent.(sessions := sent.sessions[peer := Session(now, [], {s.nextId})])
  }

  function Finish(s: State, peer: PeerId): State { s.(sessions := s.sessions - {peer}) }

  function QueueLength(s: State, peer: PeerId): nat {
    if peer in s.sessions then |s.sessions[peer].queue| else 0
  }

  function Pump(s: State, peer: PeerId): State
    decreases QueueLength(s, peer)
  {
    if peer !in s.sessions || |s.sessions[peer].outstanding| >= MAX_PENDING_SYNC_REQUESTS_PER_PEER then s
    else if s.sessions[peer].queue == [] then
      if s.sessions[peer].outstanding == {} then Finish(s, peer) else s
    else Pump(PumpOne(s, peer), peer)
  }

  function PumpOne(s: State, peer: PeerId): State
    requires peer in s.sessions && s.sessions[peer].queue != []
  {
    var bucket := s.sessions[peer].queue[0];
    SendTracked(SetQueue(s, peer, s.sessions[peer].queue[1..]), peer, FirstPage(bucket), PendingIds(peer, bucket))
  }

  // ----- handle_sync_event and handle_sync_response -----

  /** The network has answered or failed the request: it is no longer in flight or waited for. */
  function Settle(s: State, rid: Rid): State {
    s.(inflight := s.inflight - {rid}, pending := s.pending - {rid})
  }

  function Fail(s: State, rid: Rid): State
    requires rid in s.inflight
  {
    var peer := s.inflight[rid].peer;
    Pump(Untrack(Settle(s, rid), peer, rid), peer)
  }

  function Offer(s: State, peer: PeerId, records: seq<Record>): State {
    s.(offered := s.offered + set r | r in records :: (peer, r.id))
  }

  function Reply(s: State, rid: Rid, response: Response): State
    requires rid in s.inflight
  {
    var peer := s.inflight[rid].peer;
    var settled := Settle(s, rid);
    if rid !in s.pending then settled
    else if !response.InBounds() then
      Untrack(settled, peer, rid).(disconnecting := s.disconnecting + {peer})
    else match (s.pending[rid], response)
      case (PendingInventory(p), InventoryReply(remote)) => settled.(work := s.work[rid := ReadInventory(p, remote)])
      case (PendingIds(p, bucket), IdsReply(ids, next)) => settled.(work := s.work[rid := ReadIds(p, bucket, ids, next)])
      case (PendingRecords(p), RecordsReply(records)) => Pump(Offer(Untrack(settled, p, rid), p, records), p)
      case _ => Pump(Untrack(settled, peer, rid), peer)
  }

  // ----- Comparisons -----

  function Without(ids: seq<RecordId>, held: set<RecordId>): (r: seq<RecordId>)
    ensures forall id :: id in r <==> id in ids && id !in held
    ensures |r| <= |ids|
  {
    if ids == [] then []
    else if ids[0] in held then Without(ids[1..], held)
    else [ids[0]] + Without(ids[1..], held)
  }

  /** The ids of a page the database answers with; a failed read and a page over 256 ids answer nothing. */
  function Existing(local: Option<Records>, ids: seq<RecordId>, now: int): set<RecordId> {
    if local == None then {}
    else match RecordsByIds(local.value, ids, now)
      case Ok(records) => set r | r in records :: r.id
      case Err(_) => {}
  }

  function Missing(local: Option<Records>, ids: seq<RecordId>, now: int): seq<RecordId> {
    var absent := Without(ids, Existing(local, ids, now));
    absent[..Min(|absent|, MAX_REQUESTED_RECORDS)]
  }

  function LocalBuckets(h: Hash32, local: Option<Records>, now: int): seq<BucketDigest> {
    if local == None then [] else Buckets(h, local.value, now)
  }

  function Compare(h: Hash32, w: Work, local: Option<Records>, now: int): Work {
    match w
    case ReadInventory(peer, remote) => InventoryCompared(peer, DifferingBuckets(LocalBuckets(h, local, now), remote))
    case ReadIds(peer, bucket, ids, next) => IdsCompared(peer, bucket, Missing(local, ids, now), next)
    case _ => w
  }

  function Read(h: Hash32, s: State, rid: Rid, local: Option<Records>, now: int): State
    requires rid in s.work
  {
    s.(work := s.work[rid := Compare(h, s.work[rid], local, now)])
  }

  /** The request for the missing records of a page, sent without looking at the session's bound. */
  function RequestMissing(s: State, peer: PeerId, missing: seq<RecordId>): State {
    if missing == [] then s else SendTracked(s, peer, GetRecords(missing), PendingRecords(peer))
  }

  /** Following a page's cursor if the bound allows, else queueing the whole bucket again. */
  function FollowCursor(s: State, peer: PeerId, bucket: int, next: Option<RecordId>): State {
    if next == None || peer !in s.sessions then s
    else if |s.sessions[peer].outstanding| < MAX_PENDING_SYNC_REQUESTS_PER_PEER then
      SendTracked(s, peer, GetRecordIds(bucket, next, MAX_IDS_PER_RESPONSE), PendingIds(peer, bucket))
    else SetQueue(s, peer, [bucket] + s.sessions[peer].queue)
  }

  /** `handle_db_action` on a finished comparison. */
  function Deliver(s: State, rid: Rid): State
    requires rid in s.work
  {
    var taken := s.(work := s.work - {rid});
    match s.work[rid]
    case InventoryCompared(peer, buckets) => Pump(SetQueue(Untrack(taken, peer, rid), peer, buckets), peer)
    case IdsCompared(peer, bucket, missing, next) =>
      Pump(FollowCursor(RequestMissing(Untrack(taken, peer, rid), peer, missing), peer, bucket, next), peer)
    case _ => s
  }

  // ----- Timeouts and disconnects -----

  function TimedOut(s: State, now: Instant): set<PeerId> {
    set p | p in s.sessions && Since(now, s.sessions[p].started) > MAX_SYNC_DURATION_SECS * 1_000_000_000
  }

  function Abandon(s: State, peers: set<PeerId>): State {
    s.(sessions := s.sessions - peers,
       pending := map rid | rid in s.pending && s.pending[rid].peer !in peers :: s.pending[rid])
  }

  function Tick(s: State, now: Instant): State { Abandon(s, TimedOut(s, now)) }

  function Close(s: State, peer: PeerId): State {
    Abandon(s, {peer}).(disconnecting := s.disconnecting - {peer})
  }

  // ----- Steps and runs -----

  datatype Event =
    | Started(peer: PeerId, at: Instant)
    | Replied(rid: Rid, response: Response)
    | Failed(rid: Rid)
    | DatabaseRead(rid: Rid, local: Option<Records>, now: int)
    | Delivered(rid: Rid)
    | Ticked(at: Instant)
    | Closed(peer: PeerId)

  predicate Enabled(s: State, e: Event) {
    match e
    case Replied(rid, _) => rid in s.inflight
    case Failed(rid) => rid in s.inflight
    case DatabaseRead(rid, _, _) => rid in s.work && (s.work[rid].ReadInventory? || s.work[rid].ReadIds?)
    case Delivered(rid) => rid in s.work && (s.work[rid].InventoryCompared? || s.work[rid].IdsCompared?)
    case _ => true
  }

  function Step(h: Hash32, s: State, e: Event): State
    requires Enabled(s, e)
  {
    match e
    case Started(peer, at) => Start(s, peer, at)
    case Replied(rid, response) => Reply(s, rid, response)
    case Failed(rid) => Fail(s, rid)
    case DatabaseRead(rid, local, now) => Read(h, s, rid, local, now)
    case Delivered(rid) => Deliver(s, rid)
    case Ticked(at) => Tick(s, at)
    case Closed(peer) => Close(s, peer)
  }

  ghost predicate CanRun(h: Hash32, s: State, es: seq<Event>)
    decreases |es|
  {
    es == [] || (Enabled(s, es[0]) && CanRun(h, Step(h, s, es[0]), es[1..]))
  }

  function Run(h: Hash32, s: State, es: seq<Event>): State
    requires CanRun(h, s, es)
    decreases |es|
  {
    if es == [] then s else Run(h, Step(h, s, es[0]), es[1..])
  }
}
