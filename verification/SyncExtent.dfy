/** The other half of coverage: what an undisturbed session with an honest peer does not fetch, and so exactly which
    records of a day it fetches. */
module SyncExtent {
  import opened Wrappers
  import opened Limits
  import opened Bytes
  import Sets
  import Store
  import opened Queries
  import opened Sync
  import opened SyncInvariants
  import opened SyncViews
  import opened SyncCoverage

  predicate Midnight(bucket: int) { bucket % DAY_MS == 0 }

  /** The ids a page of the bucket lists. */
  function Listed(g: Goal): seq<RecordId> { SortedIds(RangeIds(g.remote, g.now, g.day) - {ZERO_ID}) }

  /** The record lies in the bucket, whose ids fit one page, but not among the first 256 of the page. */
  ghost predicate Trails(g: Goal) {
    && Midnight(g.day) && g.id in RangeIds(g.remote, g.now, g.day)
    && |Listed(g)| <= MAX_IDS_PER_RESPONSE && g.id !in FirstOf(Listed(g)) && Orderly(g.remote)
  }

  // ----- Requests and comparisons that cannot lead to the record -----

  predicate RequestShuns(request: Request, g: Goal) {
    match request
    case GetInventory => true
    case GetRecordIds(bucket, cursor, limit) =>
      Midnight(bucket) && limit == MAX_IDS_PER_RESPONSE && (bucket == g.day ==> cursor == None)
    case GetRecords(ids) => g.id !in ids
  }

  predicate PageShuns(bucket: int, ids: seq<RecordId>, next: Option<RecordId>, g: Goal) {
    && Midnight(bucket) && (bucket == g.day ==> next == None)
    && (g.id in ids ==> |ids| > MAX_REQUESTED_RECORDS && g.id !in FirstOf(ids))
  }

  predicate AllMidnight(buckets: seq<int>) { forall b :: b in buckets ==> Midnight(b) }

  predicate StartsAtMidnight(buckets: seq<BucketDigest>) { forall d :: d in buckets ==> Midnight(d.start) }

  predicate WorkShuns(w: Work, g: Goal) {
    match w
    case ReadInventory(_, remote) => StartsAtMidnight(remote)
    case InventoryCompared(_, buckets) => AllMidnight(buckets)
    case ReadIds(_, bucket, ids, next) => PageShuns(bucket, ids, next, g)
    case IdsCompared(_, bucket, missing, next) =>
      Midnight(bucket) && (bucket == g.day ==> next == None) && g.id !in missing
  }

  predicate SlotShuns(slot: Slot, g: Goal) {
    && (slot.waiting.Some? && slot.waiting.value.peer == g.peer && slot.inflight.Some?
        ==> RequestShuns(slot.inflight.value.request, g))
    && (slot.work.Some? && slot.work.value.peer == g.peer ==> WorkShuns(slot.work.value, g))
  }

  /** The record was not offered, and nothing waited for or compared for its peer can lead to it. */
  ghost predicate Shuns(s: State, g: Goal) {
    && (g.peer, g.id) !in s.offered
    && (g.peer in s.sessions ==> AllMidnight(s.sessions[g.peer].queue))
    && forall rid :: SlotShuns(Whereabouts(s, rid), g)
  }

  // ----- Honest answers -----

  lemma RangesAreApart(g: Goal, bucket: int)
    requires Midnight(bucket) && Midnight(g.day) && bucket != g.day && g.id in RangeIds(g.remote, g.now, g.day)
    ensures g.id !in RangeIds(g.remote, g.now, bucket)
  {
    if bucket < g.day { MidnightsApart(bucket, g.day); } else { MidnightsApart(g.day, bucket); }
  }

  lemma MidnightsApart(a: int, b: int)
    requires Midnight(a) && Midnight(b) && a < b
    ensures a + DAY_MS <= b
  {
    var (j, k) := (a / DAY_MS, b / DAY_MS);
    assert a == DAY_MS * j && b == DAY_MS * k;
    assert j < k;
  }

  lemma HonestPageShuns(h: Hash32, g: Goal, bucket: int, cursor: Option<RecordId>)
    requires Trails(g) && RequestShuns(GetRecordIds(bucket, cursor, MAX_IDS_PER_RESPONSE), g)
    ensures var r := HonestReply(h, g.remote, g.now, GetRecordIds(bucket, cursor, MAX_IDS_PER_RESPONSE));
            r.IdsReply? && PageShuns(bucket, r.ids, r.next, g)
  {
    var ids := SortedIds(Beyond(RangeIds(g.remote, g.now, bucket), From(cursor)));
    if bucket == g.day {
      BeyondZero(RangeIds(g.remote, g.now, bucket));
      assert ids == Listed(g) && PageOf(ids, MAX_IDS_PER_RESPONSE) == Page(ids, None);
      if |ids| <= MAX_REQUESTED_RECORDS { assert FirstOf(ids) == ids; }
    } else {
      RangesAreApart(g, bucket);
      assert g.id !in ids;
    }
  }

  lemma MultipleIsMidnight(q: int)
    ensures Midnight(q * DAY_MS)
  {
  }

  lemma DayIsMidnight(records: Store.Records, now: int, day: int)
    requires day in Days(records, now)
    ensures Midnight(day)
  {
    var id :| id in records && Store.Active(records, id, now) && BucketOf(records[id].createdAt) == day;
    MultipleIsMidnight(TruncDiv(records[id].createdAt, DAY_MS));
  }

  lemma BucketsStartAtMidnight(h: Hash32, records: Store.Records, now: int)
    ensures StartsAtMidnight(Buckets(h, records, now))
  {
    var (buckets, days) := (Buckets(h, records, now), SortedDays(records, now));
    forall d | d in buckets
      ensures Midnight(d.start)
    {
      var k :| 0 <= k < |buckets| && buckets[k] == d;
      assert d.start == days[k] && days[k] in days;
      DayIsMidnight(records, now, days[k]);
    }
  }

  lemma HonestRecordsShun(h: Hash32, g: Goal, ids: seq<RecordId>)
    requires Orderly(g.remote) && g.id !in ids
    ensures var r := HonestReply(h, g.remote, g.now, GetRecords(ids));
            r.RecordsReply? ==> forall record :: record in r.records ==> record.id != g.id
  {
    PresentIsExact(g.remote, ids, g.now);
  }

  // ----- Comparisons -----

  lemma MissingShuns(local: Option<Store.Records>, ids: seq<RecordId>, now: int, g: Goal)
    requires g.id in ids ==> |ids| > MAX_REQUESTED_RECORDS && g.id !in FirstOf(ids)
    ensures g.id !in Missing(local, ids, now)
  {
    if g.id in ids { WithoutNothing(ids); }
  }

  lemma CompareShuns(h: Hash32, w: Work, local: Option<Store.Records>, now: int, g: Goal)
    requires WorkShuns(w, g)
    ensures WorkShuns(Compare(h, w, local, now), g)
  {
    match w
    case ReadInventory(_, remote) =>
    case ReadIds(_, _, ids, _) => MissingShuns(local, ids, now, g);
    case _ =>
  }

  // ----- Pieces of the handlers -----

  lemma SendShuns(s: State, peer: PeerId, request: Request, waiting: Pending, g: Goal)
    requires Shuns(s, g) && waiting.peer == peer && (peer == g.peer ==> RequestShuns(request, g))
    ensures Shuns(Send(s, peer, request, waiting), g) && Shuns(SendTracked(s, peer, request, waiting), g)
  {
    var t := Send(s, peer, request, waiting);
    forall rid
      ensures SlotShuns(Whereabouts(t, rid), g)
      ensures Whereabouts(SendTracked(s, peer, request, waiting), rid) == Whereabouts(t, rid)
    {
      assert SlotShuns(Whereabouts(s, rid), g);
    }
  }

  lemma QueueShuns(s: State, peer: PeerId, queue: seq<int>, g: Goal)
    requires Shuns(s, g) && (peer == g.peer ==> AllMidnight(queue))
    ensures Shuns(SetQueue(s, peer, queue), g)
  {
    SlotsShun(s, SetQueue(s, peer, queue), g);
  }

  /** Slots that keep or lose what they hold. */
  lemma SlotsShun(s: State, t: State, g: Goal)
    requires forall rid :: SlotShuns(Whereabouts(s, rid), g)
    requires forall rid :: rid in t.pending ==> rid in s.pending && t.pending[rid] == s.pending[rid]
    requires forall rid :: rid in t.inflight ==> rid in s.inflight && t.inflight[rid] == s.inflight[rid]
    requires forall rid :: rid in t.work ==> rid in s.work && t.work[rid] == s.work[rid]
    ensures forall rid :: SlotShuns(Whereabouts(t, rid), g)
  {
    forall rid
      ensures SlotShuns(Whereabouts(t, rid), g)
    {
      assert SlotShuns(Whereabouts(s, rid), g);
    }
  }

  lemma UntrackShuns(s: State, peer: PeerId, rid: Rid, g: Goal)
    requires Shuns(s, g)
    ensures Shuns(Untrack(s, peer, rid), g)
  {
    SlotsShun(s, Untrack(s, peer, rid), g);
  }

  lemma SettleShuns(s: State, rid: Rid, g: Goal)
    requires Shuns(s, g)
    ensures Shuns(Settle(s, rid), g)
  {
    SlotsShun(s, Settle(s, rid), g);
  }

  lemma {:induction false} PumpShuns(s: State, peer: PeerId, g: Goal)
    requires Shuns(s, g)
    ensures Shuns(Pump(s, peer), g)
    decreases QueueLength(s, peer)
  {
    if peer in s.sessions && |s.sessions[peer].outstanding| < MAX_PENDING_SYNC_REQUESTS_PER_PEER {
      var queue := s.sessions[peer].queue;
      if queue == [] {
        SlotsShun(s, Finish(s, peer), g);
      } else {
        assert queue[0] in queue;
        QueueShuns(s, peer, queue[1..], g);
        SendShuns(SetQueue(s, peer, queue[1..]), peer, FirstPage(queue[0]), PendingIds(peer, queue[0]), g);
        PumpShuns(PumpOne(s, peer), peer, g);
      }
    }
  }

  lemma WorkMoves(s: State, rid: Rid, w: Work, g: Goal)
    requires Shuns(s, g) && (w.peer == g.peer ==> WorkShuns(w, g))
    ensures Shuns(s.(work := s.work[rid := w]), g)
  {
    var t := s.(work := s.work[rid := w]);
    forall r
      ensures SlotShuns(Whereabouts(t, r), g)
    {
      assert SlotShuns(Whereabouts(s, r), g);
    }
  }

  lemma OfferShuns(s: State, peer: PeerId, records: seq<Store.Record>, g: Goal)
    requires Shuns(s, g) && (peer == g.peer ==> forall r :: r in records ==> r.id != g.id)
    ensures Shuns(Offer(s, peer, records), g)
  {
    SlotsShun(s, Offer(s, peer, records), g);
  }

  lemma AbandonShuns(s: State, peers: set<PeerId>, g: Goal)
    requires Shuns(s, g)
    ensures Shuns(Abandon(s, peers), g)
  {
    SlotsShun(s, Abandon(s, peers), g);
  }

  // ----- Steps -----

  lemma ReplyShuns(h: Hash32, s: State, rid: Rid, response: Response, g: Goal)
    requires Inv(s) && Trails(g) && Shuns(s, g) && rid in s.inflight
    requires s.inflight[rid].peer == g.peer && rid in s.pending
             ==> response == HonestReply(h, g.remote, g.now, s.inflight[rid].request)
    ensures Shuns(Reply(s, rid, response), g)
  {
    SettleShuns(s, rid, g);
    if rid in s.pending {
      var p := s.pending[rid].peer;
      assert Awaited(s.pending, s.inflight, rid) && SlotShuns(Whereabouts(s, rid), g);
      UntrackShuns(Settle(s, rid), p, rid, g);
      if !response.InBounds() {
        SlotsShun(Untrack(Settle(s, rid), p, rid), Reply(s, rid, response), g);
      } else {
        AnswerShuns(h, s, rid, response, g);
      }
    }
  }

  lemma AnswerShuns(h: Hash32, s: State, rid: Rid, response: Response, g: Goal)
    requires Inv(s) && Trails(g) && Shuns(Settle(s, rid), g) && rid in s.inflight && rid in s.pending
    requires s.inflight[rid].peer == s.pending[rid].peer && Asks(s.pending[rid], s.inflight[rid].request)
    requires Shuns(Untrack(Settle(s, rid), s.pending[rid].peer, rid), g) && response.InBounds()
    requires s.pending[rid].peer == g.peer
             ==> RequestShuns(s.inflight[rid].request, g)
                 && response == HonestReply(h, g.remote, g.now, s.inflight[rid].request)
    ensures Shuns(Reply(s, rid, response), g)
  {
    var p := s.pending[rid].peer;
    var dropped := Untrack(Settle(s, rid), p, rid);
    match (s.pending[rid], response)
    case (PendingInventory(_), InventoryReply(remote)) =>
      if p == g.peer { BucketsStartAtMidnight(h, g.remote, g.now); }
      WorkMoves(Settle(s, rid), rid, ReadInventory(p, remote), g);
    case (PendingIds(_, bucket), IdsReply(ids, next)) =>
      if p == g.peer { HonestPageShuns(h, g, bucket, s.inflight[rid].request.cursor); }
      WorkMoves(Settle(s, rid), rid, ReadIds(p, bucket, ids, next), g);
    case (PendingRecords(_), RecordsReply(records)) =>
      if p == g.peer { HonestRecordsShun(h, g, s.inflight[rid].request.ids); }
      OfferShuns(dropped, p, records, g);
      PumpShuns(Offer(dropped, p, records), p, g);
    case _ => PumpShuns(dropped, p, g);
  }

  lemma DeliverShuns(s: State, rid: Rid, g: Goal)
    requires Shuns(s, g) && rid in s.work
    ensures Shuns(Deliver(s, rid), g)
  {
    var taken := s.(work := s.work - {rid});
    assert SlotShuns(Whereabouts(s, rid), g);
    SlotsShun(s, taken, g);
    UntrackShuns(taken, s.work[rid].peer, rid, g);
    match s.work[rid]
    case InventoryCompared(peer, buckets) =>
      QueueShuns(Untrack(taken, peer, rid), peer, buckets, g);
      PumpShuns(SetQueue(Untrack(taken, peer, rid), peer, buckets), peer, g);
    case IdsCompared(peer, bucket, missing, next) =>
      var asked := RequestMissing(Untrack(taken, peer, rid), peer, missing);
      SendShuns(Untrack(taken, peer, rid), peer, GetRecords(missing), PendingRecords(peer), g);
      FollowShuns(asked, peer, bucket, next, g);
      PumpShuns(FollowCursor(asked, peer, bucket, next), peer, g);
    case _ =>
  }

  lemma FollowShuns(s: State, peer: PeerId, bucket: int, next: Option<RecordId>, g: Goal)
    requires Shuns(s, g) && (peer == g.peer ==> Midnight(bucket) && (bucket == g.day ==> next == None))
    ensures Shuns(FollowCursor(s, peer, bucket, next), g)
  {
    if next != None && peer in s.sessions {
      if |s.sessions[peer].outstanding| < MAX_PENDING_SYNC_REQUESTS_PER_PEER {
        SendShuns(s, peer, GetRecordIds(bucket, next, MAX_IDS_PER_RESPONSE), PendingIds(peer, bucket), g);
      } else {
        QueueShuns(s, peer, [bucket] + s.sessions[peer].queue, g);
      }
    }
  }

  lemma StartShuns(s: State, peer: PeerId, now: Instant, g: Goal)
    requires Shuns(s, g)
    ensures Shuns(Start(s, peer, now), g)
  {
    SendShuns(s, peer, GetInventory, PendingInventory(peer), g);
    SlotsShun(Send(s, peer, GetInventory, PendingInventory(peer)),
              Send(s, peer, GetInventory, PendingInventory(peer)).(sessions := Start(s, peer, now).sessions), g);
  }

  lemma StepShuns(h: Hash32, s: State, e: Event, g: Goal)
    requires Inv(s) && Trails(g) && Shuns(s, g) && Enabled(s, e) && Undisturbed(h, s, e, g)
    ensures Shuns(Step(h, s, e), g)
  {
    match e
    case Started(peer, at) => StartShuns(s, peer, at, g);
    case Replied(rid, response) => ReplyShuns(h, s, rid, response, g);
    case Failed(rid) =>
      var peer := s.inflight[rid].peer;
      SettleShuns(s, rid, g);
      UntrackShuns(Settle(s, rid), peer, rid, g);
      PumpShuns(Untrack(Settle(s, rid), peer, rid), peer, g);
    case DatabaseRead(rid, local, now) =>
      assert SlotShuns(Whereabouts(s, rid), g);
      if s.work[rid].peer == g.peer { CompareShuns(h, s.work[rid], local, now, g); }
      WorkMoves(s, rid, Compare(h, s.work[rid], local, now), g);
    case Delivered(rid) => DeliverShuns(s, rid, g);
    case Ticked(at) => AbandonShuns(s, TimedOut(s, at), g);
    case Closed(peer) =>
      AbandonShuns(s, {peer}, g);
      SlotsShun(Abandon(s, {peer}), Close(s, peer), g);
  }

  lemma {:induction false} RunShuns(h: Hash32, w: World, xs: seq<Happening>, g: Goal)
    requires Trails(g) && Inv(w.engine) && Shuns(w.engine, g) && UndisturbedRun(h, w, xs, g)
    ensures Shuns(RunWorld(h, w, xs, g).engine, g)
    decreases |xs|
  {
    if xs != [] {
      if xs[0].Engine? {
        StepShuns(h, w.engine, xs[0].event, g);
        StepKeepsInv(h, w.engine, xs[0].event);
      }
      RunShuns(h, Next(h, w, xs[0]), xs[1..], g);
    }
  }

  // ----- What a session fetches, exactly -----

  /** Nothing of an earlier session with the peer is waited for or being compared. */
  ghost predicate NothingStale(s: State, peer: PeerId) {
    && (forall rid :: rid in s.pending ==> s.pending[rid].peer != peer)
    && (forall rid :: rid in s.work ==> s.work[rid].peer != peer)
  }

  lemma OpeningShuns(w: World, g: Goal, now: Instant)
    requires g.peer !in w.engine.sessions && NothingStale(w.engine, g.peer)
    ensures Shuns(Opened(w, g.peer, now).engine, g)
  {
    var s := w.engine.(offered := {});
    assert forall rid :: SlotShuns(Whereabouts(s, rid), g);
    StartShuns(s, g.peer, now, g);
  }

  /** An id past the 256th of a bucket is never offered in an undisturbed session, if the bucket's ids fit one page
      and nothing stale is left of an earlier session: not even when the bucket is read again. */
  lemma TrailingIsNeverOffered(h: Hash32, w: World, g: Goal, now: Instant, xs: seq<Happening>)
    requires Trails(g) && Inv(w.engine) && g.peer !in w.engine.sessions && NothingStale(w.engine, g.peer)
    requires UndisturbedRun(h, Opened(w, g.peer, now), xs, g)
    ensures (g.peer, g.id) !in RunWorld(h, Opened(w, g.peer, now), xs, g).engine.offered
  {
    OffersDoNotMatter(w.engine);
    StartKeepsInv(w.engine.(offered := {}), g.peer, now);
    OpeningShuns(w, g, now);
    RunShuns(h, Opened(w, g.peer, now), xs, g);
  }

  /** The day lies after 1970, not at the very end of an i64, and its ids fit one page. */
  ghost predicate OnePage(g: Goal) {
    && Orderly(g.remote) && g.id in DayIds(g.remote, g.now, g.day)
    && (forall id :: id in DayIds(g.remote, g.now, g.day) ==> 0 <= g.remote[id].createdAt)
    && g.day + DAY_MS <= I64_MAX && |DayIds(g.remote, g.now, g.day)| <= MAX_IDS_PER_RESPONSE
  }

  lemma TrailsOrLeads(g: Goal)
    requires OnePage(g)
    ensures if g.id in Leading(g.remote, g.now, g.day) then Leads(g) else Trails(g)
  {
    DayFacts(g);
    Sets.SubsetSize(DayIds(g.remote, g.now, g.day) - {ZERO_ID}, DayIds(g.remote, g.now, g.day));
  }

  /** Exactly which records of a day a session fetches, whose ids fit one page: once the session is over, a record is
      held or was offered if and only if it is held or is among the first 256 ids of the day. */
  lemma FinishedSessionCoversExactly(h: Hash32, w: World, g: Goal, now: Instant, xs: seq<Happening>)
    requires Injective(h) && Inventoried(h, g.remote, g.now, g.day) && OnePage(g)
    requires Inv(w.engine) && (forall id :: id in w.local ==> w.local[id].id == id)
    requires g.peer !in w.engine.sessions && |w.engine.sessions| < MAX_SIMULTANEOUS_SYNC_PEERS
    requires NothingStale(w.engine, g.peer) && UndisturbedRun(h, Opened(w, g.peer, now), xs, g)
    ensures var end := RunWorld(h, Opened(w, g.peer, now), xs, g);
            g.peer !in end.engine.sessions ==>
              ((g.id in end.local || (g.peer, g.id) in end.engine.offered)
               <==> g.id in end.local || g.id in Leading(g.remote, g.now, g.day))
  {
    TrailsOrLeads(g);
    if g.id in Leading(g.remote, g.now, g.day) {
      FinishedSessionCovers(h, w, g, now, xs);
    } else {
      TrailingIsNeverOffered(h, w, g, now, xs);
    }
  }
}
