/** A session ends: a measure over its queue and its outstanding requests falls with every reply, failure and
    comparison, and a second one bounds the requests it sends. */
module SyncProgress {
  import opened Wrappers
  import opened Limits
  import opened Bytes
  import Store
  import opened Queries
  import opened Sync
  import opened SyncInvariants
  import opened SyncBounds
  import opened SyncViews

  /** `Stages` counts the stages still ahead of a session, `Requests` the requests it may still send. */
  datatype Measure = Stages | Requests

  function QueueWeight(m: Measure): nat { if m.Stages? then 4 else 2 }

  function WaitingWeight(w: Pending, m: Measure): nat {
    match w
    case PendingInventory(_) => if m.Stages? then 4 * MAX_BUCKETS + 3 else 2 * MAX_BUCKETS
    case PendingIds(_, _) => if m.Stages? then 4 else 1
    case PendingRecords(_) => if m.Stages? then 1 else 0
  }

  function WorkWeight(w: Work, m: Measure): nat {
    match w
    case ReadInventory(_, remote) => if m.Stages? then 4 * |remote| + 2 else 2 * |remote|
    case InventoryCompared(_, buckets) => if m.Stages? then 4 * |buckets| + 1 else 2 * |buckets|
    case ReadIds(_, _, _, _) => if m.Stages? then 3 else 1
    case IdsCompared(_, _, _, _) => if m.Stages? then 2 else 1
  }

  function Weight(slot: Slot, m: Measure): nat {
    if slot.waiting.Some? then WaitingWeight(slot.waiting.value, m)
    else if slot.work.Some? then WorkWeight(slot.work.value, m)
    else 0
  }

  ghost function Sum(s: State, ids: set<Rid>, m: Measure): nat
    decreases |ids|
  {
    if ids == {} then 0
    else
      var x :| x in ids;
      Weight(Whereabouts(s, x), m) + Sum(s, ids - {x}, m)
  }

  ghost function Cost(s: State, peer: PeerId, m: Measure): nat {
    if peer in s.sessions then
      QueueWeight(m) * |s.sessions[peer].queue| + Sum(s, s.sessions[peer].outstanding, m)
    else 0
  }

  /** The measure of a peer's session, plus, for `Requests`, what the peer was already sent. */
  ghost function Ledger(s: State, peer: PeerId, m: Measure): nat {
    Cost(s, peer, m) + if m.Requests? then SentTo(s.log, peer) else 0
  }

  lemma {:induction false} SumRemove(s: State, ids: set<Rid>, x: Rid, m: Measure)
    requires x in ids
    ensures Sum(s, ids, m) == Weight(Whereabouts(s, x), m) + Sum(s, ids - {x}, m)
    decreases |ids|
  {
    var y :| y in ids && Sum(s, ids, m) == Weight(Whereabouts(s, y), m) + Sum(s, ids - {y}, m);
    if x != y {
      SumRemove(s, ids - {y}, x, m);
      SumRemove(s, ids - {x}, y, m);
      assert ids - {y} - {x} == ids - {x} - {y};
    }
  }

  lemma {:induction false} SumSame(s: State, t: State, ids: set<Rid>, m: Measure)
    requires forall rid :: rid in ids ==> Whereabouts(s, rid) == Whereabouts(t, rid)
    ensures Sum(s, ids, m) == Sum(t, ids, m)
    decreases |ids|
  {
    if ids != {} {
      var x :| x in ids;
      SumRemove(s, ids, x, m);
      SumRemove(t, ids, x, m);
      SumSame(s, t, ids - {x}, m);
    }
  }

  lemma SameViewSameLedger(s: State, t: State, peer: PeerId, m: Measure)
    requires SameView(s, t, peer)
    ensures Ledger(s, peer, m) == Ledger(t, peer, m)
  {
    if peer in s.sessions { SumSame(s, t, s.sessions[peer].outstanding, m); }
  }

  lemma SendCost(s: State, peer: PeerId, request: Request, waiting: Pending, m: Measure)
    requires Core(s) && peer in s.sessions && waiting.peer == peer
    ensures Ledger(SendTracked(s, peer, request, waiting), peer, m)
            == Ledger(s, peer, m) + WaitingWeight(waiting, m) + if m.Requests? then 1 else 0
  {
    var t := SendTracked(s, peer, request, waiting);
    var out := s.sessions[peer].outstanding;
    FreshId(s, peer);
    SumRemove(t, out + {s.nextId}, s.nextId, m);
    assert out + {s.nextId} - {s.nextId} == out;
    SumSame(s, t, out, m);
    assert t.log[..|s.log|] == s.log;
  }

  /** Dropping a request takes its weight off, moving it to another stage exchanges the weights. */
  lemma MoveCost(s: State, t: State, peer: PeerId, rid: Rid, m: Measure)
    requires peer in s.sessions && t.sessions == s.sessions && t.log == s.log
    requires forall r :: r != rid ==> Whereabouts(s, r) == Whereabouts(t, r)
    ensures rid !in s.sessions[peer].outstanding ==>
              Ledger(t, peer, m) == Ledger(s, peer, m) == Ledger(Untrack(t, peer, rid), peer, m)
    ensures rid in s.sessions[peer].outstanding ==>
              && Ledger(t, peer, m) + Weight(Whereabouts(s, rid), m)
                 == Ledger(s, peer, m) + Weight(Whereabouts(t, rid), m)
              && Ledger(Untrack(t, peer, rid), peer, m) + Weight(Whereabouts(s, rid), m) == Ledger(s, peer, m)
  {
    var out := s.sessions[peer].outstanding;
    var u := Untrack(t, peer, rid);
    SumSame(s, t, out - {rid}, m);
    SumSame(t, u, out - {rid}, m);
    if rid in out {
      SumRemove(s, out, rid, m);
      SumRemove(t, out, rid, m);
    } else {
      assert out - {rid} == out;
    }
  }

  lemma QueueCost(s: State, peer: PeerId, queue: seq<int>, m: Measure)
    requires peer in s.sessions
    ensures Ledger(SetQueue(s, peer, queue), peer, m) + QueueWeight(m) * |s.sessions[peer].queue|
            == Ledger(s, peer, m) + QueueWeight(m) * |queue|
  {
    SumSame(s, SetQueue(s, peer, queue), s.sessions[peer].outstanding, m);
  }

  lemma PumpOneCost(s: State, peer: PeerId, m: Measure)
    requires Core(s) && peer in s.sessions && s.sessions[peer].queue != []
    ensures Ledger(PumpOne(s, peer), peer, m) <= Ledger(s, peer, m)
  {
    var queue := s.sessions[peer].queue;
    var popped := SetQueue(s, peer, queue[1..]);
    QueueCost(s, peer, queue[1..], m);
    SetQueueKeepsCore(s, peer, queue[1..]);
    SendCost(popped, peer, FirstPage(queue[0]), PendingIds(peer, queue[0]), m);
  }

  lemma {:induction false} PumpCost(s: State, peer: PeerId, m: Measure)
    requires Core(s)
    ensures Ledger(Pump(s, peer), peer, m) <= Ledger(s, peer, m)
    decreases QueueLength(s, peer)
  {
    if peer in s.sessions && |s.sessions[peer].outstanding| < MAX_PENDING_SYNC_REQUESTS_PER_PEER {
      if s.sessions[peer].queue != [] {
        PumpOneCost(s, peer, m);
        PumpOneKeepsCore(s, peer);
        PumpCost(PumpOne(s, peer), peer, m);
      } else if s.sessions[peer].outstanding == {} {
        assert Pump(s, peer) == Finish(s, peer);
      }
    }
  }

  // ----- Calm steps, hits and cursors -----

  /** The step does not open the peer's session anew, and returns to the peer only comparisons its session
      asked for. */
  predicate Calm(s: State, e: Event, peer: PeerId)
    requires Enabled(s, e)
  {
    match e
    case Started(p, _) => p == peer ==> Start(s, p, e.at) == s
    case Delivered(rid) => s.work[rid].peer == peer ==> ReachesAsker(s, rid)
    case _ => true
  }

  /** The step brings the peer's session a compared page with a cursor. */
  predicate BringsCursor(s: State, e: Event, peer: PeerId) {
    e.Delivered? && e.rid in s.work && s.work[e.rid].IdsCompared?
    && s.work[e.rid].peer == peer && s.work[e.rid].next != None
  }

  /** What a cursor adds: one more page to read, or the bucket queued again. */
  function CursorCost(s: State, e: Event, peer: PeerId, m: Measure): nat {
    if BringsCursor(s, e, peer) then QueueWeight(m) else 0
  }

  /** The step is a reply, failure or comparison of a request the session has outstanding. */
  predicate Hits(s: State, e: Event, peer: PeerId) {
    peer in s.sessions
    && (match e
        case Replied(rid, _) => rid in s.sessions[peer].outstanding
        case Failed(rid) => rid in s.sessions[peer].outstanding
        case DatabaseRead(rid, _, _) => rid in s.sessions[peer].outstanding
        case Delivered(rid) => rid in s.sessions[peer].outstanding
        case _ => false)
  }

  function Gain(s: State, e: Event, peer: PeerId, m: Measure): nat {
    if m.Stages? && Hits(s, e, peer) then 1 else 0
  }

  // ----- Steps of the peer itself -----

  function Hit(s: State, peer: PeerId, rid: Rid, m: Measure): nat {
    if m.Stages? && peer in s.sessions && rid in s.sessions[peer].outstanding then 1 else 0
  }

  lemma OutstandingHasWeight(s: State, peer: PeerId, rid: Rid)
    requires Core(s) && peer in s.sessions && rid in s.sessions[peer].outstanding
    ensures Weight(Whereabouts(s, rid), Stages) >= 1
  {
    assert Owned(s.pending, s.work, peer, rid);
  }

  lemma DropAndPump(s: State, t: State, peer: PeerId, rid: Rid, m: Measure)
    requires Core(s) && Core(Untrack(t, peer, rid)) && t.sessions == s.sessions && t.log == s.log
    requires forall r :: r != rid ==> Whereabouts(s, r) == Whereabouts(t, r)
    ensures Ledger(Pump(Untrack(t, peer, rid), peer), peer, m)
            + Hit(s, peer, rid, m) <= Ledger(s, peer, m)
    ensures Ledger(Untrack(t, peer, rid), peer, m)
            + Hit(s, peer, rid, m) <= Ledger(s, peer, m)
  {
    PumpCost(Untrack(t, peer, rid), peer, m);
    if peer in s.sessions {
      MoveCost(s, t, peer, rid, m);
      if rid in s.sessions[peer].outstanding { OutstandingHasWeight(s, peer, rid); }
    }
  }

  lemma HandOverCost(s: State, rid: Rid, w: Work, m: Measure)
    requires Core(s) && rid in s.inflight && rid in s.pending
    requires WorkWeight(w, m) + (if m.Stages? then 1 else 0) <= WaitingWeight(s.pending[rid], m)
    ensures var peer := s.inflight[rid].peer;
            var t := Settle(s, rid).(work := s.work[rid := w]);
            Ledger(t, peer, m)
            + Hit(s, peer, rid, m) <= Ledger(s, peer, m)
  {
    var peer := s.inflight[rid].peer;
    var t := Settle(s, rid).(work := s.work[rid := w]);
    if peer in s.sessions { MoveCost(s, t, peer, rid, m); }
  }

  lemma OversizedProgress(s: State, rid: Rid, response: Response, m: Measure)
    requires Inv(s) && rid in s.inflight && rid in s.pending && !response.InBounds()
    ensures var peer := s.inflight[rid].peer;
            Ledger(Reply(s, rid, response), peer, m) + Gain(s, Replied(rid, response), peer, m) <= Ledger(s, peer, m)
  {
    var peer := s.inflight[rid].peer;
    var dropped := Untrack(Settle(s, rid), peer, rid);
    SettleAndPump(s, rid, m);
    SameViewSameLedger(dropped, dropped.(disconnecting := s.disconnecting + {peer}), peer, m);
  }

  lemma AnsweredProgress(s: State, rid: Rid, response: Response, m: Measure)
    requires Inv(s) && rid in s.inflight && rid in s.pending && response.InBounds()
    requires (s.pending[rid].PendingInventory? && response.InventoryReply?)
             || (s.pending[rid].PendingIds? && response.IdsReply?)
    ensures var peer := s.inflight[rid].peer;
            Ledger(Reply(s, rid, response), peer, m) + Gain(s, Replied(rid, response), peer, m) <= Ledger(s, peer, m)
  {
    assert Awaited(s.pending, s.inflight, rid);
    match (s.pending[rid], response)
    case (PendingInventory(p), InventoryReply(remote)) => HandOverCost(s, rid, ReadInventory(p, remote), m);
    case (PendingIds(p, bucket), IdsReply(ids, next)) => HandOverCost(s, rid, ReadIds(p, bucket, ids, next), m);
  }

  lemma ReplyProgress(s: State, rid: Rid, response: Response, m: Measure)
    requires Inv(s) && rid in s.inflight
    ensures var peer := s.inflight[rid].peer;
            Ledger(Reply(s, rid, response), peer, m) + Gain(s, Replied(rid, response), peer, m) <= Ledger(s, peer, m)
  {
    if rid !in s.pending {
      StaleReplyProgress(s, rid, m);
    } else if !response.InBounds() {
      OversizedProgress(s, rid, response, m);
    } else if (s.pending[rid].PendingInventory? && response.InventoryReply?)
              || (s.pending[rid].PendingIds? && response.IdsReply?)
    {
      AnsweredProgress(s, rid, response, m);
    } else {
      EndedProgress(s, rid, response, m);
    }
  }

  lemma EndedProgress(s: State, rid: Rid, response: Response, m: Measure)
    requires Inv(s) && rid in s.inflight && rid in s.pending && response.InBounds()
    requires !(s.pending[rid].PendingInventory? && response.InventoryReply?)
    requires !(s.pending[rid].PendingIds? && response.IdsReply?)
    ensures var peer := s.inflight[rid].peer;
            Ledger(Reply(s, rid, response), peer, m) + Gain(s, Replied(rid, response), peer, m) <= Ledger(s, peer, m)
  {
    var peer := s.inflight[rid].peer;
    var dropped := Untrack(Settle(s, rid), peer, rid);
    SettleAndPump(s, rid, m);
    assert Awaited(s.pending, s.inflight, rid);
    if s.pending[rid].PendingRecords? && response.RecordsReply? {
      OfferCost(dropped, peer, response.records, m);
      assert Reply(s, rid, response) == Pump(Offer(dropped, peer, response.records), peer);
    } else {
      assert Reply(s, rid, response) == Pump(dropped, peer);
    }
  }

  lemma StaleReplyProgress(s: State, rid: Rid, m: Measure)
    requires Inv(s) && rid in s.inflight && rid !in s.pending
    ensures var peer := s.inflight[rid].peer;
            && Ledger(Settle(s, rid), peer, m) == Ledger(s, peer, m)
            && (peer in s.sessions ==> rid !in s.sessions[peer].outstanding)
  {
    var peer := s.inflight[rid].peer;
    if peer in s.sessions {
      assert !Owned(s.pending, s.work, peer, rid);
      MoveCost(s, Settle(s, rid), peer, rid, m);
    }
  }

  lemma OfferCost(s: State, p: PeerId, records: seq<Store.Record>, m: Measure)
    requires Core(s)
    ensures Ledger(Pump(Offer(s, p, records), p), p, m) <= Ledger(s, p, m)
  {
    var offered := Offer(s, p, records);
    assert Tables(offered) && Sessions(offered);
    PumpCost(offered, p, m);
    if p in s.sessions { SumSame(s, offered, s.sessions[p].outstanding, m); }
  }

  lemma FailProgress(s: State, rid: Rid, m: Measure)
    requires Core(s) && rid in s.inflight
    ensures var peer := s.inflight[rid].peer;
            Ledger(Fail(s, rid), peer, m) + Gain(s, Failed(rid), peer, m) <= Ledger(s, peer, m)
  {
    SettleAndPump(s, rid, m);
  }

  /** Settling a request and pumping its session takes a hit off. */
  lemma SettleAndPump(s: State, rid: Rid, m: Measure)
    requires Core(s) && rid in s.inflight
    ensures var peer := s.inflight[rid].peer;
            var dropped := Untrack(Settle(s, rid), peer, rid);
            && Core(dropped)
            && Ledger(Pump(dropped, peer), peer, m) + Hit(s, peer, rid, m) <= Ledger(s, peer, m)
            && Ledger(dropped, peer, m) + Hit(s, peer, rid, m) <= Ledger(s, peer, m)
  {
    SettledKeepsCore(s, rid);
    SettleMovesOne(s, rid);
    DropAndPump(s, Settle(s, rid), s.inflight[rid].peer, rid, m);
  }

  lemma CompareWeight(h: Hash32, w: Work, local: Option<Store.Records>, now: int, m: Measure)
    requires w.ReadInventory? || w.ReadIds?
    ensures WorkWeight(Compare(h, w, local, now), m) + (if m.Stages? then 1 else 0) <= WorkWeight(w, m)
  {
  }

  lemma ReadProgress(h: Hash32, s: State, rid: Rid, local: Option<Store.Records>, now: int, m: Measure)
    requires Inv(s) && Enabled(s, DatabaseRead(rid, local, now))
    ensures var peer := s.work[rid].peer;
            Ledger(Read(h, s, rid, local, now), peer, m) + Gain(s, DatabaseRead(rid, local, now), peer, m)
            <= Ledger(s, peer, m)
  {
    var peer := s.work[rid].peer;
    CompareWeight(h, s.work[rid], local, now, m);
    ReplaceCost(s, rid, Compare(h, s.work[rid], local, now), m);
  }

  lemma ReplaceCost(s: State, rid: Rid, w: Work, m: Measure)
    requires Core(s) && rid in s.work
    requires WorkWeight(w, m) + (if m.Stages? then 1 else 0) <= WorkWeight(s.work[rid], m)
    ensures var peer := s.work[rid].peer;
            Ledger(s.(work := s.work[rid := w]), peer, m)
            + Hit(s, peer, rid, m) <= Ledger(s, peer, m)
  {
    var peer := s.work[rid].peer;
    if peer in s.sessions { MoveCost(s, s.(work := s.work[rid := w]), peer, rid, m); }
  }

  lemma TakenCost(s: State, rid: Rid, m: Measure)
    requires Inv(s) && Enabled(s, Delivered(rid)) && ReachesAsker(s, rid)
    ensures var peer := s.work[rid].peer;
            var taken := Untrack(s.(work := s.work - {rid}), peer, rid);
            Core(taken) && Ledger(taken, peer, m) + WorkWeight(s.work[rid], m) == Ledger(s, peer, m)
  {
    TakenKeepsCore(s, rid);
    MoveCost(s, s.(work := s.work - {rid}), s.work[rid].peer, rid, m);
    assert rid !in s.pending;
  }

  lemma InventoryCost(taken: State, peer: PeerId, buckets: seq<int>, m: Measure)
    requires Core(taken) && peer in taken.sessions
    ensures Ledger(Pump(SetQueue(taken, peer, buckets), peer), peer, m)
            <= Ledger(taken, peer, m) + QueueWeight(m) * |buckets|
  {
    QueueCost(taken, peer, buckets, m);
    SetQueueKeepsCore(taken, peer, buckets);
    PumpCost(SetQueue(taken, peer, buckets), peer, m);
  }

  lemma AskCost(taken: State, peer: PeerId, missing: seq<RecordId>, m: Measure)
    requires Core(taken) && peer in taken.sessions && |missing| <= MAX_REQUESTED_RECORDS
    ensures var asked := RequestMissing(taken, peer, missing);
            Core(asked) && peer in asked.sessions && Ledger(asked, peer, m) <= Ledger(taken, peer, m) + 1
  {
    RequestMissingKeepsCore(taken, peer, missing);
    if missing != [] { SendCost(taken, peer, GetRecords(missing), PendingRecords(peer), m); }
  }

  lemma FollowCost(asked: State, peer: PeerId, bucket: int, next: Option<RecordId>, m: Measure)
    requires Core(asked) && peer in asked.sessions
    ensures Core(FollowCursor(asked, peer, bucket, next))
    ensures Ledger(FollowCursor(asked, peer, bucket, next), peer, m)
            <= Ledger(asked, peer, m) + if next != None then QueueWeight(m) else 0
  {
    FollowCursorKeepsCore(asked, peer, bucket, next);
    if next != None {
      if |asked.sessions[peer].outstanding| < MAX_PENDING_SYNC_REQUESTS_PER_PEER {
        SendCost(asked, peer, GetRecordIds(bucket, next, MAX_IDS_PER_RESPONSE), PendingIds(peer, bucket), m);
      } else {
        QueueCost(asked, peer, [bucket] + asked.sessions[peer].queue, m);
      }
    }
  }

  lemma PageCost(taken: State, peer: PeerId, bucket: int, missing: seq<RecordId>, next: Option<RecordId>, m: Measure)
    requires Core(taken) && peer in taken.sessions && |missing| <= MAX_REQUESTED_RECORDS
    ensures Ledger(Pump(FollowCursor(RequestMissing(taken, peer, missing), peer, bucket, next), peer), peer, m)
            <= Ledger(taken, peer, m) + 1 + if next != None then QueueWeight(m) else 0
  {
    AskCost(taken, peer, missing, m);
    FollowCost(RequestMissing(taken, peer, missing), peer, bucket, next, m);
    PumpCost(FollowCursor(RequestMissing(taken, peer, missing), peer, bucket, next), peer, m);
  }

  lemma DeliverProgress(s: State, rid: Rid, m: Measure)
    requires Inv(s) && Enabled(s, Delivered(rid)) && ReachesAsker(s, rid)
    ensures var peer := s.work[rid].peer;
            Ledger(Deliver(s, rid), peer, m) + Gain(s, Delivered(rid), peer, m)
            <= Ledger(s, peer, m) + CursorCost(s, Delivered(rid), peer, m)
  {
    var peer := s.work[rid].peer;
    var taken := Untrack(s.(work := s.work - {rid}), peer, rid);
    TakenCost(s, rid, m);
    match s.work[rid]
    case InventoryCompared(_, buckets) => InventoryCost(taken, peer, buckets, m);
    case IdsCompared(_, bucket, missing, next) => PageCost(taken, peer, bucket, missing, next, m);
    case _ =>
  }

  lemma EndCost(s: State, peers: set<PeerId>, peer: PeerId, m: Measure)
    requires peer in peers
    ensures Ledger(Abandon(s, peers), peer, m) <= Ledger(s, peer, m)
  {
  }

  /** Every reply, failure or comparison of the session takes at least one off its stages, and nothing adds to
      them but a page's cursor, by four; nothing adds to the requests sent plus those the session may still
      send but a page's cursor, by two. */
  lemma StepProgress(h: Hash32, s: State, e: Event, peer: PeerId, m: Measure)
    requires Inv(s) && Enabled(s, e) && Calm(s, e, peer)
    ensures Ledger(Step(h, s, e), peer, m) + Gain(s, e, peer, m) <= Ledger(s, peer, m) + CursorCost(s, e, peer, m)
  {
    if PeerOf(s, e) == Some(peer) {
      match e
      case Started(_, _) =>
      case Replied(rid, response) => ReplyProgress(s, rid, response, m);
      case Failed(rid) => FailProgress(s, rid, m);
      case DatabaseRead(rid, local, now) => ReadProgress(h, s, rid, local, now, m);
      case Delivered(rid) => DeliverProgress(s, rid, m);
      case Closed(_) => EndCost(s, {peer}, peer, m);
    } else if e.Ticked? && peer in TimedOut(s, e.at) {
      EndCost(s, TimedOut(s, e.at), peer, m);
    } else {
      OtherStepSameView(h, s, e, peer);
      SameViewSameLedger(s, Step(h, s, e), peer, m);
      NoHit(s, e, peer);
    }
  }

  lemma NoHit(s: State, e: Event, peer: PeerId)
    requires Inv(s) && Enabled(s, e) && PeerOf(s, e) != Some(peer)
    ensures !Hits(s, e, peer)
  {
    if peer in s.sessions {
      match e
      case Replied(rid, _) => NotMine(s, s.inflight[rid].peer, rid, peer);
      case Failed(rid) => NotMine(s, s.inflight[rid].peer, rid, peer);
      case DatabaseRead(rid, _, _) => NotMine(s, s.work[rid].peer, rid, peer);
      case Delivered(rid) => NotMine(s, s.work[rid].peer, rid, peer);
      case _ =>
    }
  }

  // ----- Runs -----

  ghost predicate CalmRun(h: Hash32, s: State, es: seq<Event>, peer: PeerId)
    requires CanRun(h, s, es)
    decreases |es|
  {
    es == [] || (Calm(s, es[0], peer) && CalmRun(h, Step(h, s, es[0]), es[1..], peer))
  }

  /** The replies, failures and comparisons a run brings to the peer's session. */
  ghost function HitsIn(h: Hash32, s: State, es: seq<Event>, peer: PeerId): nat
    requires CanRun(h, s, es)
    decreases |es|
  {
    if es == [] then 0
    else (if Hits(s, es[0], peer) then 1 else 0) + HitsIn(h, Step(h, s, es[0]), es[1..], peer)
  }

  /** The cursors a run brings to the peer's session. */
  ghost function CursorsIn(h: Hash32, s: State, es: seq<Event>, peer: PeerId): nat
    requires CanRun(h, s, es)
    decreases |es|
  {
    if es == [] then 0
    else (if BringsCursor(s, es[0], peer) then 1 else 0) + CursorsIn(h, Step(h, s, es[0]), es[1..], peer)
  }

  lemma {:induction false} RunProgress(h: Hash32, s: State, es: seq<Event>, peer: PeerId, m: Measure)
    requires Inv(s) && CanRun(h, s, es) && CalmRun(h, s, es, peer)
    ensures Ledger(Run(h, s, es), peer, m) + (if m.Stages? then HitsIn(h, s, es, peer) else 0)
            <= Ledger(s, peer, m) + QueueWeight(m) * CursorsIn(h, s, es, peer)
    decreases |es|
  {
    if es != [] {
      StepProgress(h, s, es[0], peer, m);
      StepKeepsInv(h, s, es[0]);
      RunProgress(h, Step(h, s, es[0]), es[1..], peer, m);
    }
  }

  lemma OpeningLedger(s: State, peer: PeerId, now: Instant, m: Measure)
    requires Inv(s) && peer !in s.sessions && |s.sessions| < MAX_SIMULTANEOUS_SYNC_PEERS
    ensures Inv(Start(s, peer, now))
    ensures peer in Start(s, peer, now).sessions && Start(s, peer, now).work == s.work
    ensures Ledger(Start(s, peer, now), peer, m)
            == WaitingWeight(PendingInventory(peer), m) + if m.Requests? then SentTo(s.log, peer) + 1 else 0
  {
    StartKeepsInv(s, peer, now);
    var t := Start(s, peer, now);
    var only := {s.nextId};
    SumRemove(t, only, s.nextId, m);
    assert only - {s.nextId} == {};
    assert t.log[..|s.log|] == s.log;
  }

  /** From the moment a session opens, as long as comparisons come back to it and it is not opened again: with
      `c` cursors brought to it, it takes at most 1467 + 4c replies, failures and comparisons, and its peer is
      sent at most 733 + 2c requests, one inventory request and two requests per bucket and per cursor. A
      session still alive has not taken all of them. */
  lemma SessionTerminates(h: Hash32, s: State, peer: PeerId, now: Instant, es: seq<Event>)
    requires Inv(s) && peer !in s.sessions && |s.sessions| < MAX_SIMULTANEOUS_SYNC_PEERS
    requires CanRun(h, Start(s, peer, now), es) && CalmRun(h, Start(s, peer, now), es, peer)
    ensures var t := Start(s, peer, now);
            var u := Run(h, t, es);
            var c := CursorsIn(h, t, es, peer);
            var stages := 4 * MAX_BUCKETS + 3 + 4 * c;
            && HitsIn(h, t, es, peer) <= stages
            && SentTo(u.log, peer) - SentTo(s.log, peer) <= 1 + MAX_BUCKETS + MAX_BUCKETS + 2 * c
            && (peer in u.sessions && peer !in u.disconnecting ==> HitsIn(h, t, es, peer) < stages)
  {
    var t := Start(s, peer, now);
    OpeningLedger(s, peer, now, Stages);
    OpeningLedger(s, peer, now, Requests);
    RunProgress(h, t, es, peer, Stages);
    RunProgress(h, t, es, peer, Requests);
    RunKeepsInv(h, t, es);
    var u := Run(h, t, es);
    if peer in u.sessions && peer !in u.disconnecting {
      var rid :| rid in u.sessions[peer].outstanding;
      SumRemove(u, u.sessions[peer].outstanding, rid, Stages);
      OutstandingHasWeight(u, peer, rid);
    }
  }
}
