/** How many requests a session may have outstanding: the bound that `pump_sync` checks and the request for
    missing records does not. */
module SyncBounds {
  import opened Wrappers
  import Sets
  import opened Limits
  import opened Bytes
  import opened Queries
  import opened Sync
  import opened SyncInvariants

  ghost predicate Bounded(s: State) {
    forall p :: p in s.sessions ==> |s.sessions[p].outstanding| <= MAX_PENDING_SYNC_REQUESTS_PER_PEER
  }

  /** The comparison comes back to the session that asked for it. */
  predicate ReachesAsker(s: State, rid: Rid)
    requires rid in s.work
  {
    s.work[rid].peer in s.sessions && rid in s.sessions[s.work[rid].peer].outstanding
  }

  /** The step does not bring missing ids to a session that has no room for another request. */
  predicate HasRoom(s: State, e: Event)
    requires Enabled(s, e)
  {
    e.Delivered? && s.work[e.rid].IdsCompared? && s.work[e.rid].missing != []
    && s.work[e.rid].peer in s.sessions
    ==> |s.sessions[s.work[e.rid].peer].outstanding - {e.rid}| < MAX_PENDING_SYNC_REQUESTS_PER_PEER
  }

  lemma FreshId(s: State, peer: PeerId)
    requires Core(s) && peer in s.sessions
    ensures s.nextId !in s.sessions[peer].outstanding
  {
    assert !Owned(s.pending, s.work, peer, s.nextId);
  }

  lemma {:induction false} PumpKeepsBound(s: State, peer: PeerId)
    requires Core(s) && peer in s.sessions
    ensures peer in Pump(s, peer).sessions && |s.sessions[peer].outstanding| > 2
            ==> Pump(s, peer).sessions[peer].outstanding == s.sessions[peer].outstanding
    ensures |s.sessions[peer].outstanding| > 2 ==> peer in Pump(s, peer).sessions
    ensures |s.sessions[peer].outstanding| <= 2 && peer in Pump(s, peer).sessions
            ==> |Pump(s, peer).sessions[peer].outstanding| <= 2
    decreases QueueLength(s, peer)
  {
    if |s.sessions[peer].outstanding| < 2 && s.sessions[peer].queue != [] {
      PumpOneKeepsCore(s, peer);
      FreshId(s, peer);
      assert PumpOne(s, peer).sessions[peer].outstanding == s.sessions[peer].outstanding + {s.nextId};
      PumpKeepsBound(PumpOne(s, peer), peer);
    }
  }

  /** Pumping a session of a state that differs from a bounded one in that session only. */
  lemma PumpedBound(s: State, t: State, peer: PeerId)
    requires Bounded(s) && Core(t) && OthersUntouched(s, t, peer)
    ensures Bounded(Pump(t, peer))
            <==> (peer in t.sessions ==> |t.sessions[peer].outstanding| <= MAX_PENDING_SYNC_REQUESTS_PER_PEER)
  {
    PumpKeepsCore(t, peer);
    if peer in t.sessions {
      PumpKeepsBound(t, peer);
    }
    var u := Pump(t, peer);
    forall p | p in u.sessions && p != peer
      ensures |u.sessions[p].outstanding| <= MAX_PENDING_SYNC_REQUESTS_PER_PEER
    {
      assert p in t.sessions && p in s.sessions && u.sessions[p] == s.sessions[p];
    }
  }

  lemma SmallerBound(s: State, t: State, peer: PeerId, rid: Rid)
    requires Bounded(s) && t.sessions == s.sessions && peer in s.sessions
    ensures |Untrack(t, peer, rid).sessions[peer].outstanding| <= MAX_PENDING_SYNC_REQUESTS_PER_PEER
  {
    Sets.SubsetSize(s.sessions[peer].outstanding - {rid}, s.sessions[peer].outstanding);
  }

  lemma ReplyKeepsBound(s: State, rid: Rid, response: Response)
    requires Inv(s) && rid in s.inflight && Bounded(s)
    ensures Bounded(Reply(s, rid, response))
  {
    var peer := s.inflight[rid].peer;
    SettledKeepsCore(s, rid);
    var dropped := Untrack(Settle(s, rid), peer, rid);
    if peer in s.sessions { SmallerBound(s, Settle(s, rid), peer, rid); }
    if rid in s.pending && response.InBounds() {
      assert Awaited(s.pending, s.inflight, rid);
      match (s.pending[rid], response)
      case (PendingInventory(_), InventoryReply(_)) =>
      case (PendingIds(_, _), IdsReply(_, _)) =>
      case (PendingRecords(p), RecordsReply(records)) =>
        var offered := Offer(dropped, p, records);
        assert Tables(offered) && Sessions(offered);
        PumpedBound(s, offered, p);
      case _ => PumpedBound(s, dropped, peer);
    }
  }

  lemma FailKeepsBound(s: State, rid: Rid)
    requires Inv(s) && rid in s.inflight && Bounded(s)
    ensures Bounded(Fail(s, rid))
  {
    var peer := s.inflight[rid].peer;
    SettledKeepsCore(s, rid);
    if peer in s.sessions { SmallerBound(s, Settle(s, rid), peer, rid); }
    PumpedBound(s, Untrack(Settle(s, rid), peer, rid), peer);
  }

  /** The state of a delivery before the final pump. */
  function Delivering(s: State, rid: Rid): State
    requires rid in s.work && (s.work[rid].InventoryCompared? || s.work[rid].IdsCompared?)
  {
    var peer := s.work[rid].peer;
    var taken := Untrack(s.(work := s.work - {rid}), peer, rid);
    match s.work[rid]
    case InventoryCompared(_, buckets) => SetQueue(taken, peer, buckets)
    case IdsCompared(_, bucket, missing, next) =>
      FollowCursor(RequestMissing(taken, peer, missing), peer, bucket, next)
    case _ => s
  }

  lemma DeliveringKeepsCore(s: State, rid: Rid)
    requires Inv(s) && rid in s.work && (s.work[rid].InventoryCompared? || s.work[rid].IdsCompared?)
    ensures Core(Delivering(s, rid)) && OthersUntouched(s, Delivering(s, rid), s.work[rid].peer)
    ensures Deliver(s, rid) == Pump(Delivering(s, rid), s.work[rid].peer)
  {
    var peer := s.work[rid].peer;
    TakenKeepsCore(s, rid);
    var t := Untrack(s.(work := s.work - {rid}), peer, rid);
    match s.work[rid]
    case InventoryCompared(_, buckets) => SetQueueKeepsCore(t, peer, buckets);
    case IdsCompared(_, bucket, missing, next) =>
      RequestMissingKeepsCore(t, peer, missing);
      FollowCursorKeepsCore(RequestMissing(t, peer, missing), peer, bucket, next);
    case _ =>
  }

  lemma PageBound(taken: State, peer: PeerId, bucket: int, missing: seq<RecordId>, next: Option<RecordId>)
    requires Core(taken) && peer in taken.sessions && |missing| <= MAX_REQUESTED_RECORDS
    requires |taken.sessions[peer].outstanding| <= MAX_PENDING_SYNC_REQUESTS_PER_PEER
    ensures var t := FollowCursor(RequestMissing(taken, peer, missing), peer, bucket, next);
            && peer in t.sessions
            && (|t.sessions[peer].outstanding| <= MAX_PENDING_SYNC_REQUESTS_PER_PEER
                <==> missing == [] || |taken.sessions[peer].outstanding| < MAX_PENDING_SYNC_REQUESTS_PER_PEER)
  {
    FreshId(taken, peer);
    var m := RequestMissing(taken, peer, missing);
    RequestMissingKeepsCore(taken, peer, missing);
    FreshId(m, peer);
  }

  lemma DeliveringBound(s: State, rid: Rid)
    requires Inv(s) && Bounded(s) && Enabled(s, Delivered(rid)) && s.work[rid].peer in s.sessions
    ensures var peer := s.work[rid].peer;
            && peer in Delivering(s, rid).sessions
            && (|Delivering(s, rid).sessions[peer].outstanding| <= MAX_PENDING_SYNC_REQUESTS_PER_PEER
                <==> HasRoom(s, Delivered(rid)))
  {
    var peer := s.work[rid].peer;
    TakenKeepsCore(s, rid);
    SmallerBound(s, s.(work := s.work - {rid}), peer, rid);
    if s.work[rid].IdsCompared? {
      var w := s.work[rid];
      PageBound(Untrack(s.(work := s.work - {rid}), peer, rid), peer, w.bucket, w.missing, w.next);
    }
  }

  /** A step keeps every session within two outstanding requests exactly when it does not bring missing ids
      to a session without room: the request for them is inserted unchecked. */
  lemma BoundKeptExactly(h: Hash32, s: State, e: Event)
    requires Inv(s) && Bounded(s) && Enabled(s, e)
    ensures Bounded(Step(h, s, e)) <==> HasRoom(s, e)
  {
    match e
    case Started(peer, at) =>
    case Replied(rid, response) => ReplyKeepsBound(s, rid, response);
    case Failed(rid) => FailKeepsBound(s, rid);
    case DatabaseRead(rid, local, now) =>
    case Delivered(rid) =>
      DeliveringKeepsCore(s, rid);
      PumpedBound(s, Delivering(s, rid), s.work[rid].peer);
      if s.work[rid].peer in s.sessions { DeliveringBound(s, rid); }
    case Ticked(at) =>
    case Closed(peer) =>
  }

  /** A comparison that reaches the session that asked finds room: its own place. */
  lemma AskerHasRoom(s: State, rid: Rid)
    requires Bounded(s) && rid in s.work && Enabled(s, Delivered(rid)) && ReachesAsker(s, rid)
    ensures HasRoom(s, Delivered(rid))
  {
    var out := s.sessions[s.work[rid].peer].outstanding;
    assert out == (out - {rid}) + {rid};
  }

  ghost predicate ComparisonsReachAskers(h: Hash32, s: State, es: seq<Event>)
    requires CanRun(h, s, es)
    decreases |es|
  {
    es == [] || ((es[0].Delivered? ==> ReachesAsker(s, es[0].rid))
                 && ComparisonsReachAskers(h, Step(h, s, es[0]), es[1..]))
  }

  /** In every run whose comparisons reach the sessions that asked, no session ever has more than two
      outstanding requests. */
  lemma {:induction false} RunKeepsBound(h: Hash32, s: State, es: seq<Event>)
    requires Inv(s) && Bounded(s) && CanRun(h, s, es) && ComparisonsReachAskers(h, s, es)
    ensures Bounded(Run(h, s, es))
    decreases |es|
  {
    if es != [] {
      if es[0].Delivered? { AskerHasRoom(s, es[0].rid); }
      BoundKeptExactly(h, s, es[0]);
      StepKeepsInv(h, s, es[0]);
      RunKeepsBound(h, Step(h, s, es[0]), es[1..]);
    }
  }

  lemma ReachableSessionsAreBounded(h: Hash32, es: seq<Event>)
    requires CanRun(h, IDLE, es) && ComparisonsReachAskers(h, IDLE, es)
    ensures Bounded(Run(h, IDLE, es))
  {
    RunKeepsBound(h, IDLE, es);
  }
}
