/** Steps that concern one peer leave another peer's session exactly as it was. */
module SyncViews {
  import opened Wrappers
  import opened Limits
  import opened Bytes
  import Store
  import opened Queries
  import opened Sync
  import opened SyncInvariants

  /** Where a request is: waited for, in a comparison, in flight. */
  datatype Slot = Slot(waiting: Option<Pending>, work: Option<Work>, inflight: Option<Sent>)

  function At<V>(m: map<Rid, V>, rid: Rid): Option<V> { if rid in m then Some(m[rid]) else None }

  function SlotOf(pending: map<Rid, Pending>, work: map<Rid, Work>, inflight: map<Rid, Sent>, rid: Rid): Slot {
    Slot(At(pending, rid), At(work, rid), At(inflight, rid))
  }

  function Whereabouts(s: State, rid: Rid): Slot { SlotOf(s.pending, s.work, s.inflight, rid) }

  function SentTo(log: seq<Sent>, peer: PeerId): nat {
    if log == [] then 0
    else SentTo(log[..|log| - 1], peer) + if log[|log| - 1].peer == peer then 1 else 0
  }

  /** The peer's session, the whereabouts of its requests, and what it was sent and gave, are the same. */
  ghost predicate SameView(s: State, t: State, peer: PeerId) {
    SameSession(s, t, peer) && forall id :: (peer, id) in s.offered <==> (peer, id) in t.offered
  }

  ghost predicate SameSession(s: State, t: State, peer: PeerId) {
    && (peer in s.sessions <==> peer in t.sessions)
    && (peer in s.sessions ==>
          s.sessions[peer] == t.sessions[peer]
          && forall rid :: rid in s.sessions[peer].outstanding ==> Whereabouts(s, rid) == Whereabouts(t, rid))
    && SentTo(s.log, peer) == SentTo(t.log, peer)
  }

  lemma SameViewTransitive(s: State, t: State, u: State, peer: PeerId)
    requires SameView(s, t, peer) && SameView(t, u, peer)
    ensures SameView(s, u, peer)
  {
  }

  lemma SendSameView(s: State, q: PeerId, request: Request, waiting: Pending, peer: PeerId)
    requires Core(s) && q != peer
    ensures SameView(s, SendTracked(s, q, request, waiting), peer)
  {
    var t := SendTracked(s, q, request, waiting);
    assert t.log[..|s.log|] == s.log;
    if peer in s.sessions { SendKeepsSlots(s, q, request, waiting, peer); }
  }

  lemma SendKeepsSlots(s: State, q: PeerId, request: Request, waiting: Pending, peer: PeerId)
    requires Core(s) && q != peer && peer in s.sessions
    ensures var t := SendTracked(s, q, request, waiting);
            forall rid :: rid in s.sessions[peer].outstanding ==> Whereabouts(s, rid) == Whereabouts(t, rid)
  {
    forall rid | rid in s.sessions[peer].outstanding
      ensures rid != s.nextId
    {
      assert Owned(s.pending, s.work, peer, rid);
    }
  }

  lemma {:induction false} PumpSameView(s: State, q: PeerId, peer: PeerId)
    requires Core(s) && q != peer
    ensures SameView(s, Pump(s, q), peer)
    decreases QueueLength(s, q)
  {
    if q in s.sessions && |s.sessions[q].outstanding| < MAX_PENDING_SYNC_REQUESTS_PER_PEER
       && s.sessions[q].queue != []
    {
      var popped := SetQueue(s, q, s.sessions[q].queue[1..]);
      SetQueueKeepsCore(s, q, s.sessions[q].queue[1..]);
      SendSameView(popped, q, FirstPage(s.sessions[q].queue[0]), PendingIds(q, s.sessions[q].queue[0]), peer);
      assert SameView(s, popped, peer);
      SameViewTransitive(s, popped, PumpOne(s, q), peer);
      PumpOneKeepsCore(s, q);
      PumpSameView(PumpOne(s, q), q, peer);
      SameViewTransitive(s, PumpOne(s, q), Pump(s, q), peer);
    }
  }

  /** Requests of different peers are different. */
  lemma NotMine(s: State, q: PeerId, rid: Rid, peer: PeerId)
    requires Core(s) && q != peer && peer in s.sessions
    requires (rid in s.inflight && s.inflight[rid].peer == q) || (rid in s.work && s.work[rid].peer == q)
    ensures rid !in s.sessions[peer].outstanding
  {
    if rid in s.pending { assert Awaited(s.pending, s.inflight, rid); }
    assert !Owned(s.pending, s.work, peer, rid);
  }

  lemma DropSameView(s: State, t: State, q: PeerId, rid: Rid, peer: PeerId)
    requires Core(s) && q != peer && t.sessions == s.sessions && t.log == s.log
    requires forall id :: (peer, id) in s.offered <==> (peer, id) in t.offered
    requires (rid in s.inflight && s.inflight[rid].peer == q) || (rid in s.work && s.work[rid].peer == q)
    requires forall r :: r != rid ==> Whereabouts(t, r) == Whereabouts(s, r)
    ensures SameView(s, t, peer) && SameView(s, Untrack(t, q, rid), peer)
  {
    if peer in s.sessions {
      NotMine(s, q, rid, peer);
      forall r | r in s.sessions[peer].outstanding
        ensures Whereabouts(s, r) == Whereabouts(t, r) == Whereabouts(Untrack(t, q, rid), r)
      {
      }
    }
  }

  lemma OfferSameView(s: State, p: PeerId, records: seq<Store.Record>, peer: PeerId)
    requires Core(s) && p != peer
    ensures Core(Offer(s, p, records)) && SameView(s, Pump(Offer(s, p, records), p), peer)
  {
    var offered := Offer(s, p, records);
    assert Tables(offered) && Sessions(offered);
    PumpSameView(offered, p, peer);
    SameViewTransitive(s, offered, Pump(offered, p), peer);
  }

  lemma HandOverSameView(s: State, rid: Rid, w: Work, peer: PeerId)
    requires Core(s) && rid in s.inflight && s.inflight[rid].peer != peer
    ensures SameView(s, Settle(s, rid).(work := s.work[rid := w]), peer)
  {
    var t := Settle(s, rid).(work := s.work[rid := w]);
    if peer in s.sessions { NotMine(s, s.inflight[rid].peer, rid, peer); }
  }

  lemma SettleSameView(s: State, rid: Rid, peer: PeerId)
    requires Core(s) && rid in s.inflight && s.inflight[rid].peer != peer
    ensures SameView(s, Settle(s, rid), peer)
    ensures SameView(s, Untrack(Settle(s, rid), s.inflight[rid].peer, rid), peer)
  {
    SettleMovesOne(s, rid);
    DropSameView(s, Settle(s, rid), s.inflight[rid].peer, rid, peer);
  }

  lemma SettleMovesOne(s: State, rid: Rid)
    ensures forall r :: r != rid ==> Whereabouts(Settle(s, rid), r) == Whereabouts(s, r)
    ensures Whereabouts(Settle(s, rid), rid) == Slot(None, At(s.work, rid), None)
    ensures Settle(s, rid).sessions == s.sessions && Settle(s, rid).offered == s.offered
  {
  }

  lemma PumpAfterSameView(s: State, t: State, q: PeerId, peer: PeerId)
    requires Core(t) && q != peer && SameView(s, t, peer)
    ensures SameView(s, Pump(t, q), peer)
  {
    PumpSameView(t, q, peer);
    SameViewTransitive(s, t, Pump(t, q), peer);
  }

  lemma ReplySameView(s: State, rid: Rid, response: Response, peer: PeerId)
    requires Inv(s) && rid in s.inflight && s.inflight[rid].peer != peer
    ensures SameView(s, Reply(s, rid, response), peer)
  {
    var q := s.inflight[rid].peer;
    var dropped := Untrack(Settle(s, rid), q, rid);
    SettleSameView(s, rid, peer);
    SettledKeepsCore(s, rid);
    if rid in s.pending && response.InBounds() {
      assert Awaited(s.pending, s.inflight, rid);
      match (s.pending[rid], response)
      case (PendingInventory(p), InventoryReply(remote)) => HandOverSameView(s, rid, ReadInventory(p, remote), peer);
      case (PendingIds(p, bucket), IdsReply(ids, next)) => HandOverSameView(s, rid, ReadIds(p, bucket, ids, next), peer);
      case (PendingRecords(p), RecordsReply(records)) =>
        OfferSameView(dropped, p, records, peer);
        SameViewTransitive(s, dropped, Pump(Offer(dropped, p, records), p), peer);
      case _ => PumpAfterSameView(s, dropped, q, peer);
    }
  }

  lemma FailSameView(s: State, rid: Rid, peer: PeerId)
    requires Inv(s) && rid in s.inflight && s.inflight[rid].peer != peer
    ensures SameView(s, Fail(s, rid), peer)
  {
    SettleSameView(s, rid, peer);
    SettledKeepsCore(s, rid);
    PumpAfterSameView(s, Untrack(Settle(s, rid), s.inflight[rid].peer, rid), s.inflight[rid].peer, peer);
  }

  lemma InventorySameView(s: State, taken: State, q: PeerId, buckets: seq<int>, peer: PeerId)
    requires Core(taken) && q != peer && SameView(s, taken, peer)
    ensures SameView(s, Pump(SetQueue(taken, q, buckets), q), peer)
  {
    var t := SetQueue(taken, q, buckets);
    SetQueueKeepsCore(taken, q, buckets);
    assert SameView(taken, t, peer);
    SameViewTransitive(s, taken, t, peer);
    PumpAfterSameView(s, t, q, peer);
  }

  lemma PageSameView(s: State, taken: State, q: PeerId, bucket: int, missing: seq<RecordId>, next: Option<RecordId>,
                     peer: PeerId)
    requires Core(taken) && q != peer && SameView(s, taken, peer) && |missing| <= MAX_REQUESTED_RECORDS
    ensures SameView(s, Pump(FollowCursor(RequestMissing(taken, q, missing), q, bucket, next), q), peer)
  {
    var m := RequestMissing(taken, q, missing);
    RequestMissingKeepsCore(taken, q, missing);
    if missing != [] { SendSameView(taken, q, GetRecords(missing), PendingRecords(q), peer); }
    SameViewTransitive(s, taken, m, peer);
    var c := FollowCursor(m, q, bucket, next);
    FollowCursorKeepsCore(m, q, bucket, next);
    FollowSameView(m, q, bucket, next, peer);
    SameViewTransitive(s, m, c, peer);
    PumpAfterSameView(s, c, q, peer);
  }

  lemma DeliverSameView(s: State, rid: Rid, peer: PeerId)
    requires Inv(s) && Enabled(s, Delivered(rid)) && s.work[rid].peer != peer
    ensures SameView(s, Deliver(s, rid), peer)
  {
    var q := s.work[rid].peer;
    var taken := Untrack(s.(work := s.work - {rid}), q, rid);
    DropSameView(s, s.(work := s.work - {rid}), q, rid, peer);
    TakenKeepsCore(s, rid);
    match s.work[rid]
    case InventoryCompared(_, buckets) => InventorySameView(s, taken, q, buckets, peer);
    case IdsCompared(_, bucket, missing, next) => PageSameView(s, taken, q, bucket, missing, next, peer);
    case _ =>
  }

  lemma ReadSameView(s: State, rid: Rid, w: Work, peer: PeerId)
    requires Core(s) && rid in s.work && s.work[rid].peer != peer
    ensures SameView(s, s.(work := s.work[rid := w]), peer)
  {
    if peer in s.sessions { NotMine(s, s.work[rid].peer, rid, peer); }
  }

  lemma FollowSameView(s: State, q: PeerId, bucket: int, next: Option<RecordId>, peer: PeerId)
    requires Core(s) && q != peer
    ensures SameView(s, FollowCursor(s, q, bucket, next), peer)
  {
    if next != None && q in s.sessions
       && |s.sessions[q].outstanding| < MAX_PENDING_SYNC_REQUESTS_PER_PEER
    {
      SendSameView(s, q, GetRecordIds(bucket, next, MAX_IDS_PER_RESPONSE), PendingIds(q, bucket), peer);
    }
  }

  lemma StartSameView(s: State, q: PeerId, now: Instant, peer: PeerId)
    requires Inv(s) && q != peer
    ensures SameView(s, Start(s, q, now), peer)
  {
    if q !in s.sessions && |s.sessions| < MAX_SIMULTANEOUS_SYNC_PEERS {
      SendSameView(s, q, GetInventory, PendingInventory(q), peer);
      assert SendTracked(s, q, GetInventory, PendingInventory(q)) == Send(s, q, GetInventory, PendingInventory(q));
    }
  }

  lemma AbandonSameView(s: State, peers: set<PeerId>, peer: PeerId)
    requires Inv(s) && peer !in peers
    ensures SameView(s, Abandon(s, peers), peer)
  {
    var t := Abandon(s, peers);
    if peer in s.sessions {
      forall rid | rid in s.sessions[peer].outstanding
        ensures Whereabouts(s, rid) == Whereabouts(t, rid)
      {
        assert Owned(s.pending, s.work, peer, rid);
        if rid in s.pending { assert Awaited(s.pending, s.inflight, rid); }
      }
    }
  }

  /** The peer a step is about: none for a timer tick. */
  function PeerOf(s: State, e: Event): Option<PeerId>
    requires Enabled(s, e)
  {
    match e
    case Started(peer, _) => Some(peer)
    case Replied(rid, _) => Some(s.inflight[rid].peer)
    case Failed(rid) => Some(s.inflight[rid].peer)
    case DatabaseRead(rid, _, _) => Some(s.work[rid].peer)
    case Delivered(rid) => Some(s.work[rid].peer)
    case Ticked(_) => None
    case Closed(peer) => Some(peer)
  }

  /** A step about another peer, or a tick the session survives, changes nothing for this one. */
  lemma OtherStepSameView(h: Hash32, s: State, e: Event, peer: PeerId)
    requires Inv(s) && Enabled(s, e) && PeerOf(s, e) != Some(peer)
    requires e.Ticked? ==> peer !in TimedOut(s, e.at)
    ensures SameView(s, Step(h, s, e), peer)
  {
    match e
    case Started(q, at) => StartSameView(s, q, at, peer);
    case Replied(rid, response) => ReplySameView(s, rid, response, peer);
    case Failed(rid) => FailSameView(s, rid, peer);
    case DatabaseRead(rid, local, now) => ReadSameView(s, rid, Compare(h, s.work[rid], local, now), peer);
    case Delivered(rid) => DeliverSameView(s, rid, peer);
    case Ticked(at) => AbandonSameView(s, TimedOut(s, at), peer);
    case Closed(q) => AbandonSameView(s, {q}, peer);
  }
}
