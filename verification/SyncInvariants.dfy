/** What every step of the protocol keeps: nothing waits for an answer that cannot come, requests are within
    the protocol's limits, and the bounds on sessions and outstanding requests. */
module SyncInvariants {
  import opened Wrappers
  import Sets
  import opened Limits
  import opened Bytes
  import Store
  import opened Queries
  import opened Sync

  predicate Asks(waiting: Pending, request: Request) {
    match waiting
    case PendingInventory(_) => request.GetInventory?
    case PendingIds(_, bucket) => request.GetRecordIds? && request.bucketStart == bucket
    case PendingRecords(_) => request.GetRecords?
  }

  /** An entry of `pending_sync` is answered by a request in flight to that peer. */
  predicate Awaited(pending: map<Rid, Pending>, inflight: map<Rid, Sent>, rid: Rid)
    requires rid in pending
  {
    rid in inflight && inflight[rid].peer == pending[rid].peer && Asks(pending[rid], inflight[rid].request)
  }

  /** The request is a key of `pending_sync` for the peer, or carried by a comparison running for it. */
  predicate Owned(pending: map<Rid, Pending>, work: map<Rid, Work>, peer: PeerId, rid: Rid) {
    (rid in pending && pending[rid].peer == peer) || (rid in work && work[rid].peer == peer)
  }

  predicate WithinLimits(w: Work) {
    match w
    case ReadInventory(_, remote) => |remote| <= MAX_BUCKETS
    case InventoryCompared(_, buckets) => |buckets| <= MAX_BUCKETS
    case ReadIds(_, _, ids, _) => |ids| <= MAX_IDS_PER_RESPONSE
    case IdsCompared(_, _, missing, _) => |missing| <= MAX_REQUESTED_RECORDS
  }

  ghost predicate TablesAgree(pending: map<Rid, Pending>, inflight: map<Rid, Sent>, work: map<Rid, Work>, next: Rid) {
    && (forall rid :: rid in pending ==> rid < next && Awaited(pending, inflight, rid))
    && (forall rid :: rid in inflight ==> rid < next)
    && (forall rid :: rid in work ==> rid < next && rid !in inflight && WithinLimits(work[rid]))
  }

  ghost predicate Tables(s: State) { TablesAgree(s.pending, s.inflight, s.work, s.nextId) }

  ghost predicate AllOwned(sessions: map<PeerId, Session>, pending: map<Rid, Pending>, work: map<Rid, Work>) {
    forall p, rid :: p in sessions && rid in sessions[p].outstanding ==> Owned(pending, work, p, rid)
  }

  ghost predicate Sessions(s: State) { AllOwned(s.sessions, s.pending, s.work) }

  ghost predicate Lawful(log: seq<Sent>) {
    forall i :: 0 <= i < |log| ==> log[i].request.Validates()
  }

  ghost predicate Core(s: State) {
    Tables(s) && Sessions(s) && |s.sessions| <= MAX_SIMULTANEOUS_SYNC_PEERS && Lawful(s.log)
  }

  /** No session waits for nothing, unless the engine has already asked for the peer's disconnection. */
  ghost predicate NoStall(s: State) {
    forall p :: p in s.sessions && p !in s.disconnecting ==> s.sessions[p].outstanding != {}
  }

  ghost predicate Inv(s: State) { Core(s) && NoStall(s) }

  // ----- Pieces -----

  lemma SendKeepsCore(s: State, peer: PeerId, request: Request, waiting: Pending)
    requires Core(s) && waiting.peer == peer && Asks(waiting, request) && request.Validates()
    ensures Core(Send(s, peer, request, waiting))
    ensures Core(SendTracked(s, peer, request, waiting))
  {
    var t := Send(s, peer, request, waiting);
    assert Tables(t) && Sessions(t) && Lawful(t.log);
    TrackKeepsCore(t, peer, s.nextId);
  }

  lemma TrackKeepsCore(s: State, peer: PeerId, rid: Rid)
    requires Core(s) && Owned(s.pending, s.work, peer, rid)
    ensures Core(Track(s, peer, rid))
  {
    var t := Track(s, peer, rid);
    if peer in s.sessions {
      assert t.sessions.Keys == s.sessions.Keys;
      assert |t.sessions| == |s.sessions.Keys|;
    }
    forall p, r | p in t.sessions && r in t.sessions[p].outstanding
      ensures Owned(t.pending, t.work, p, r)
    {
      assert Owned(s.pending, s.work, p, r);
    }
  }

  lemma SetQueueKeepsCore(s: State, peer: PeerId, queue: seq<int>)
    requires Core(s)
    ensures Core(SetQueue(s, peer, queue))
  {
    var t := SetQueue(s, peer, queue);
    if peer in s.sessions {
      assert t.sessions.Keys == s.sessions.Keys;
      assert |t.sessions| == |s.sessions.Keys|;
    }
    forall p, r | p in t.sessions && r in t.sessions[p].outstanding
      ensures Owned(t.pending, t.work, p, r)
    {
      assert r in s.sessions[p].outstanding;
    }
  }

  lemma UntrackKeepsOwned(s: State, t: State, peer: PeerId, rid: Rid)
    requires Sessions(s) && t.sessions == s.sessions
    requires forall p, r :: Owned(s.pending, s.work, p, r) && r != rid ==> Owned(t.pending, t.work, p, r)
    requires forall p :: Owned(s.pending, s.work, p, rid) ==> p == peer
    ensures Sessions(Untrack(t, peer, rid)) && |Untrack(t, peer, rid).sessions| == |s.sessions|
  {
    var u := Untrack(t, peer, rid);
    assert u.sessions.Keys == s.sessions.Keys;
    assert |u.sessions| == |s.sessions.Keys|;
  }

  /** What `pump_sync` leaves behind for its peer. */
  ghost predicate Pumped(s: State, peer: PeerId) {
    peer in s.sessions ==>
      && s.sessions[peer].outstanding != {}
      && (|s.sessions[peer].outstanding| >= MAX_PENDING_SYNC_REQUESTS_PER_PEER || s.sessions[peer].queue == [])
  }

  ghost predicate OthersUntouched(s: State, t: State, peer: PeerId) {
    && t.disconnecting == s.disconnecting
    && (forall p :: p != peer ==> (p in t.sessions <==> p in s.sessions))
    && (forall p :: p != peer && p in t.sessions ==> t.sessions[p] == s.sessions[p])
  }

  lemma PumpOneKeepsCore(s: State, peer: PeerId)
    requires Core(s) && peer in s.sessions && s.sessions[peer].queue != []
    ensures Core(PumpOne(s, peer)) && OthersUntouched(s, PumpOne(s, peer), peer)
  {
    var bucket := s.sessions[peer].queue[0];
    var popped := SetQueue(s, peer, s.sessions[peer].queue[1..]);
    SetQueueKeepsCore(s, peer, s.sessions[peer].queue[1..]);
    SendKeepsCore(popped, peer, FirstPage(bucket), PendingIds(peer, bucket));
  }

  lemma FinishKeepsCore(s: State, peer: PeerId)
    requires Core(s)
    ensures Core(Finish(s, peer)) && OthersUntouched(s, Finish(s, peer), peer)
  {
    var t := Finish(s, peer);
    assert t.sessions.Keys <= s.sessions.Keys;
    Sets.SubsetSize(t.sessions.Keys, s.sessions.Keys);
    forall p, r | p in t.sessions && r in t.sessions[p].outstanding
      ensures Owned(t.pending, t.work, p, r)
    {
      assert Owned(s.pending, s.work, p, r);
    }
  }

  lemma {:induction false} PumpKeepsCore(s: State, peer: PeerId)
    requires Core(s)
    ensures Core(Pump(s, peer)) && Pumped(Pump(s, peer), peer) && OthersUntouched(s, Pump(s, peer), peer)
    decreases QueueLength(s, peer)
  {
    if peer in s.sessions && |s.sessions[peer].outstanding| < MAX_PENDING_SYNC_REQUESTS_PER_PEER {
      if s.sessions[peer].queue != [] {
        PumpOneKeepsCore(s, peer);
        PumpKeepsCore(PumpOne(s, peer), peer);
      } else if s.sessions[peer].outstanding == {} {
        FinishKeepsCore(s, peer);
      }
    }
  }

  lemma PumpKeepsInv(s: State, t: State, peer: PeerId)
    requires Inv(s) && Core(t) && OthersUntouched(s, t, peer)
    ensures Inv(Pump(t, peer))
  {
    PumpKeepsCore(t, peer);
    var u := Pump(t, peer);
    forall p | p in u.sessions && p !in u.disconnecting
      ensures u.sessions[p].outstanding != {}
    {
      if p != peer { assert p in t.sessions && p in s.sessions; }
    }
  }

  // ----- Steps -----

  lemma StartKeepsInv(s: State, peer: PeerId, now: Instant)
    requires Inv(s)
    ensures Inv(Start(s, peer, now))
  {
    if peer !in s.sessions && |s.sessions| < MAX_SIMULTANEOUS_SYNC_PEERS {
      var sent := Send(s, peer, GetInventory, PendingInventory(peer));
      SendKeepsCore(s, peer, GetInventory, PendingInventory(peer));
      OpenKeepsInv(s, sent, peer, Session(now, [], {s.nextId}));
    }
  }

  lemma OpenKeepsInv(s: State, sent: State, peer: PeerId, session: Session)
    requires Core(sent) && NoStall(s) && sent.sessions == s.sessions && sent.disconnecting == s.disconnecting
    requires peer !in s.sessions && |s.sessions| < MAX_SIMULTANEOUS_SYNC_PEERS
    requires session.outstanding != {}
    requires forall rid :: rid in session.outstanding ==> Owned(sent.pending, sent.work, peer, rid)
    ensures Inv(sent.(sessions := sent.sessions[peer := session]))
  {
    var t := sent.(sessions := sent.sessions[peer := session]);
    assert t.sessions.Keys == s.sessions.Keys + {peer};
    assert |t.sessions| == |t.sessions.Keys|;
  }

  lemma SettledKeepsCore(s: State, rid: Rid)
    requires Core(s) && rid in s.inflight
    ensures var t := Untrack(Settle(s, rid), s.inflight[rid].peer, rid);
            Core(t) && OthersUntouched(s, t, s.inflight[rid].peer)
  {
    assert rid !in s.work;
    SettleKeepsTables(s, rid);
    UntrackKeepsOwned(s, Settle(s, rid), s.inflight[rid].peer, rid);
  }

  lemma SettleKeepsTables(s: State, rid: Rid)
    requires Tables(s) && rid in s.inflight
    ensures Tables(Settle(s, rid))
  {
    var t := Settle(s, rid);
    forall r | r in t.pending
      ensures Awaited(t.pending, t.inflight, r)
    {
      assert Awaited(s.pending, s.inflight, r);
    }
  }

  lemma FailKeepsInv(s: State, rid: Rid)
    requires Inv(s) && rid in s.inflight
    ensures Inv(Fail(s, rid))
  {
    SettledKeepsCore(s, rid);
    PumpKeepsInv(s, Untrack(Settle(s, rid), s.inflight[rid].peer, rid), s.inflight[rid].peer);
  }

  /** An answer handed to a comparison keeps its request outstanding. */
  lemma HandOverKeepsInv(s: State, rid: Rid, w: Work)
    requires Inv(s) && rid in s.pending && w.peer == s.pending[rid].peer && WithinLimits(w)
    ensures Inv(Settle(s, rid).(work := s.work[rid := w]))
  {
    var t := Settle(s, rid).(work := s.work[rid := w]);
    assert Tables(t);
    forall p, r | p in t.sessions && r in t.sessions[p].outstanding
      ensures Owned(t.pending, t.work, p, r)
    {
      assert Owned(s.pending, s.work, p, r);
    }
  }

  lemma FewerInFlight(s: State, inflight: map<Rid, Sent>)
    requires Inv(s) && TablesAgree(s.pending, inflight, s.work, s.nextId)
    ensures Inv(s.(inflight := inflight))
  {
    var t := s.(inflight := inflight);
    assert Tables(t) && Sessions(t);
  }

  lemma StaleReplyKeepsInv(s: State, rid: Rid)
    requires Inv(s) && rid in s.inflight && rid !in s.pending
    ensures Inv(Settle(s, rid))
  {
    SettleKeepsTables(s, rid);
    var t := Settle(s, rid);
    assert s.pending - {rid} == s.pending;
    FewerInFlight(s, t.inflight);
    assert t == s.(inflight := t.inflight);
  }

  lemma ReplyKeepsInv(s: State, rid: Rid, response: Response)
    requires Inv(s) && rid in s.inflight
    ensures Inv(Reply(s, rid, response))
  {
    var peer := s.inflight[rid].peer;
    var settled := Settle(s, rid);
    if rid !in s.pending {
      StaleReplyKeepsInv(s, rid);
    } else {
      assert Awaited(s.pending, s.inflight, rid);
      SettledKeepsCore(s, rid);
      var dropped := Untrack(settled, peer, rid);
      if !response.InBounds() {
        OversizedKeepsInv(s, dropped, peer);
      } else {
        match (s.pending[rid], response)
        case (PendingInventory(p), InventoryReply(remote)) => HandOverKeepsInv(s, rid, ReadInventory(p, remote));
        case (PendingIds(p, bucket), IdsReply(ids, next)) => HandOverKeepsInv(s, rid, ReadIds(p, bucket, ids, next));
        case (PendingRecords(p), RecordsReply(records)) =>
          var offered := Offer(dropped, p, records);
          assert Tables(offered) && Sessions(offered);
          PumpKeepsInv(s, offered, p);
        case _ => PumpKeepsInv(s, dropped, peer);
      }
    }
  }

  lemma OversizedKeepsInv(s: State, dropped: State, peer: PeerId)
    requires Inv(s) && Core(dropped) && OthersUntouched(s, dropped, peer)
    ensures Inv(dropped.(disconnecting := s.disconnecting + {peer}))
  {
    var t := dropped.(disconnecting := s.disconnecting + {peer});
    assert Tables(t) && Sessions(t);
  }

  lemma CompareKeepsLimits(h: Hash32, w: Work, local: Option<Store.Records>, now: int)
    requires WithinLimits(w)
    ensures WithinLimits(Compare(h, w, local, now)) && Compare(h, w, local, now).peer == w.peer
  {
  }

  lemma ReplaceWorkKeepsInv(s: State, rid: Rid, w: Work)
    requires Inv(s) && rid in s.work && w.peer == s.work[rid].peer && WithinLimits(w)
    ensures Inv(s.(work := s.work[rid := w]))
  {
    var t := s.(work := s.work[rid := w]);
    assert Tables(t);
    forall p, r | p in t.sessions && r in t.sessions[p].outstanding
      ensures Owned(t.pending, t.work, p, r)
    {
      assert Owned(s.pending, s.work, p, r);
    }
  }

  lemma ReadKeepsInv(h: Hash32, s: State, rid: Rid, local: Option<Store.Records>, now: int)
    requires Inv(s) && rid in s.work
    ensures Inv(Read(h, s, rid, local, now))
  {
    CompareKeepsLimits(h, s.work[rid], local, now);
    ReplaceWorkKeepsInv(s, rid, Compare(h, s.work[rid], local, now));
  }

  lemma TakenKeepsCore(s: State, rid: Rid)
    requires Core(s) && rid in s.work
    ensures var t := Untrack(s.(work := s.work - {rid}), s.work[rid].peer, rid);
            Core(t) && OthersUntouched(s, t, s.work[rid].peer)
  {
    var t := s.(work := s.work - {rid});
    assert rid !in s.pending;
    assert Tables(t);
    UntrackKeepsOwned(s, t, s.work[rid].peer, rid);
  }

  lemma RequestMissingKeepsCore(s: State, peer: PeerId, missing: seq<RecordId>)
    requires Core(s) && |missing| <= MAX_REQUESTED_RECORDS
    ensures Core(RequestMissing(s, peer, missing)) && OthersUntouched(s, RequestMissing(s, peer, missing), peer)
  {
    if missing != [] { SendKeepsCore(s, peer, GetRecords(missing), PendingRecords(peer)); }
  }

  lemma FollowCursorKeepsCore(s: State, peer: PeerId, bucket: int, next: Option<RecordId>)
    requires Core(s)
    ensures Core(FollowCursor(s, peer, bucket, next))
    ensures OthersUntouched(s, FollowCursor(s, peer, bucket, next), peer)
  {
    if next != None && peer in s.sessions {
      if |s.sessions[peer].outstanding| < MAX_PENDING_SYNC_REQUESTS_PER_PEER {
        SendKeepsCore(s, peer, GetRecordIds(bucket, next, MAX_IDS_PER_RESPONSE), PendingIds(peer, bucket));
      } else {
        SetQueueKeepsCore(s, peer, [bucket] + s.sessions[peer].queue);
      }
    }
  }

  lemma DeliverKeepsInv(s: State, rid: Rid)
    requires Inv(s) && rid in s.work
    ensures Inv(Deliver(s, rid))
  {
    TakenKeepsCore(s, rid);
    var peer := s.work[rid].peer;
    var t := Untrack(s.(work := s.work - {rid}), peer, rid);
    match s.work[rid]
    case InventoryCompared(_, buckets) =>
      SetQueueKeepsCore(t, peer, buckets);
      PumpKeepsInv(s, SetQueue(t, peer, buckets), peer);
    case IdsCompared(_, bucket, missing, next) =>
      RequestMissingKeepsCore(t, peer, missing);
      FollowCursorKeepsCore(RequestMissing(t, peer, missing), peer, bucket, next);
      PumpKeepsInv(s, FollowCursor(RequestMissing(t, peer, missing), peer, bucket, next), peer);
    case _ =>
  }

  lemma AbandonKeepsInv(s: State, peers: set<PeerId>)
    requires Inv(s)
    ensures Inv(Abandon(s, peers))
  {
    var t := Abandon(s, peers);
    Sets.SubsetSize(t.sessions.Keys, s.sessions.Keys);
    forall p, r | p in t.sessions && r in t.sessions[p].outstanding
      ensures Owned(t.pending, t.work, p, r)
    {
      assert Owned(s.pending, s.work, p, r);
    }
  }

  /** After every handler a live session has an outstanding request, each outstanding request is a key of
      `pending_sync` answered by a request in flight or is carried by a comparison still running, every
      request ever sent passes `validate`, and there are at most four sessions. */
  lemma StepKeepsInv(h: Hash32, s: State, e: Event)
    requires Inv(s) && Enabled(s, e)
    ensures Inv(Step(h, s, e))
  {
    match e
    case Started(peer, at) => StartKeepsInv(s, peer, at);
    case Replied(rid, response) => ReplyKeepsInv(s, rid, response);
    case Failed(rid) => FailKeepsInv(s, rid);
    case DatabaseRead(rid, local, now) => ReadKeepsInv(h, s, rid, local, now);
    case Delivered(rid) => DeliverKeepsInv(s, rid);
    case Ticked(at) => AbandonKeepsInv(s, TimedOut(s, at));
    case Closed(peer) =>
      AbandonKeepsInv(s, {peer});
      var t := Abandon(s, {peer});
      var u := t.(disconnecting := s.disconnecting - {peer});
      assert Tables(u) && Sessions(u);
  }

  lemma {:induction false} RunKeepsInv(h: Hash32, s: State, es: seq<Event>)
    requires Inv(s) && CanRun(h, s, es)
    ensures Inv(Run(h, s, es))
    decreases |es|
  {
    if es != [] {
      StepKeepsInv(h, s, es[0]);
      RunKeepsInv(h, Step(h, s, es[0]), es[1..]);
    }
  }

  /** The same for every reachable state, spelled out. */
  lemma ReachableStatesDoNotStall(h: Hash32, es: seq<Event>)
    requires CanRun(h, IDLE, es)
    ensures var s := Run(h, IDLE, es);
            && |s.sessions| <= MAX_SIMULTANEOUS_SYNC_PEERS
            && (forall i :: 0 <= i < |s.log| ==> s.log[i].request.Validates())
            && (forall p :: p in s.sessions && p !in s.disconnecting ==> s.sessions[p].outstanding != {})
            && (forall p, rid :: p in s.sessions && rid in s.sessions[p].outstanding ==>
                  || (rid in s.pending && s.pending[rid].peer == p && rid in s.inflight && s.inflight[rid].peer == p)
                  || (rid in s.work && s.work[rid].peer == p))
  {
    RunKeepsInv(h, IDLE, es);
    var s := Run(h, IDLE, es);
    forall p, rid | p in s.sessions && rid in s.sessions[p].outstanding
      ensures (rid in s.pending && s.pending[rid].peer == p && rid in s.inflight && s.inflight[rid].peer == p)
              || (rid in s.work && s.work[rid].peer == p)
    {
      assert Owned(s.pending, s.work, p, rid);
      assert rid in s.pending ==> Awaited(s.pending, s.inflight, rid);
    }
  }
}
