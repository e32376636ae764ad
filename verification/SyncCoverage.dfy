/** End-to-end coverage: what a finished session with an honest peer has fetched. */
module SyncCoverage {
  import opened Wrappers
  import Sets
  import opened Limits
  import opened Bytes
  import Store
  import opened Queries
  import opened Sync
  import opened SyncInvariants
  import opened SyncBounds
  import opened SyncViews

  /** `prepare_sync_response` of a peer whose rate limit does not bite, over a fixed table. */
  function HonestReply(h: Hash32, remote: Store.Records, now: int, request: Request): Response {
    match request
    case GetInventory => InventoryReply(Buckets(h, remote, now))
    case GetRecordIds(bucket, cursor, limit) =>
      (match RecordIds(remote, bucket, cursor, limit, now)
       case Ok(page) => IdsReply(page.ids, page.next)
       case Err(_) => Refused)
    case GetRecords(ids) =>
      (match RecordsByIds(remote, ids, now)
       case Ok(records) => RecordsReply(records)
       case Err(_) => Refused)
  }

  /** The responder's table holds each record under its own id. */
  ghost predicate Orderly(remote: Store.Records) {
    forall id :: id in remote ==> remote[id].id == id
  }

  /** One record the session with `peer` is to fetch. */
  datatype Goal = Goal(peer: PeerId, remote: Store.Records, now: int, day: int, id: RecordId)

  /** The ids of a day that its first page leads with, as many as one lookup takes. */
  function Leading(remote: Store.Records, now: int, day: int): seq<RecordId> {
    FirstOf(SortedIds(DayIds(remote, now, day) - {ZERO_ID}))
  }

  function FirstOf(ids: seq<RecordId>): seq<RecordId> { ids[..Min(|ids|, MAX_REQUESTED_RECORDS)] }

  /** The record is among the first 256 of its day, which lies after 1970 and not at the very end of an i64.
      Nothing is asked of the peer's other days. */
  ghost predicate Leads(g: Goal) {
    && Orderly(g.remote) && g.id in Leading(g.remote, g.now, g.day)
    && (forall id :: id in DayIds(g.remote, g.now, g.day) ==> 0 <= g.remote[id].createdAt)
    && g.day + DAY_MS <= I64_MAX
  }

  ghost predicate Sought(h: Hash32, g: Goal) {
    Injective(h) && Inventoried(h, g.remote, g.now, g.day) && Leads(g)
  }

  /** In a day of at most 256 active records every one but the all-zero id is among the first. */
  lemma SmallDayLeads(remote: Store.Records, now: int, day: int)
    requires |DayIds(remote, now, day)| <= MAX_REQUESTED_RECORDS
    ensures forall id :: id in Leading(remote, now, day) <==> id in DayIds(remote, now, day) && id != ZERO_ID
  {
    var ids := DayIds(remote, now, day) - {ZERO_ID};
    Sets.SubsetSize(ids, DayIds(remote, now, day));
    assert SortedIds(ids)[..|ids|] == SortedIds(ids);
  }

  // ----- What carries the goal -----

  /** A request that will still lead to the record. */
  predicate Carries(h: Hash32, slot: Slot, g: Goal) {
    || (slot.waiting == Some(PendingInventory(g.peer)) && slot.inflight == Some(Sent(g.peer, GetInventory)))
    || slot.work == Some(ReadInventory(g.peer, Buckets(h, g.remote, g.now)))
    || (slot.waiting == Some(PendingIds(g.peer, g.day)) && slot.inflight == Some(Sent(g.peer, FirstPage(g.day))))
    || (slot.work.Some? && WorkCarries(slot.work.value, g))
    || (slot.waiting == Some(PendingRecords(g.peer)) && slot.inflight.Some?
        && slot.inflight.value.request.GetRecords? && g.id in slot.inflight.value.request.ids
        && |slot.inflight.value.request.ids| <= MAX_REQUESTED_RECORDS)
  }

  predicate WorkCarries(w: Work, g: Goal) {
    match w
    case InventoryCompared(peer, buckets) => peer == g.peer && g.day in buckets
    case ReadIds(peer, bucket, ids, next) => peer == g.peer && g.id in FirstOf(ids)
    case IdsCompared(peer, bucket, missing, next) => peer == g.peer && g.id in missing
    case _ => false
  }

  ghost predicate CarriedBy(h: Hash32, s: State, g: Goal, rid: Rid) {
    g.peer in s.sessions && rid in s.sessions[g.peer].outstanding && Carries(h, Whereabouts(s, rid), g)
  }

  /** The record was offered, or the session will still come to it. */
  ghost predicate OnItsWay(h: Hash32, s: State, g: Goal) {
    || (g.peer, g.id) in s.offered
    || (g.peer in s.sessions && g.day in s.sessions[g.peer].queue)
    || exists rid :: CarriedBy(h, s, g, rid)
  }

  /** A session that still waits for its inventory waits for nothing else. */
  predicate InventoryStage(slot: Slot) {
    || (slot.waiting.Some? && slot.waiting.value.PendingInventory?)
    || (slot.work.Some? && (slot.work.value.ReadInventory? || slot.work.value.InventoryCompared?))
  }

  ghost predicate InventoryFirst(s: State, peer: PeerId) {
    peer in s.sessions ==>
      forall rid :: rid in s.sessions[peer].outstanding && InventoryStage(Whereabouts(s, rid)) ==>
        s.sessions[peer].outstanding == {rid} && s.sessions[peer].queue == []
  }

  // ----- Steps about other peers -----

  lemma SameViewKeepsCover(h: Hash32, s: State, t: State, g: Goal)
    requires SameSession(s, t, g.peer) && ((g.peer, g.id) in s.offered ==> (g.peer, g.id) in t.offered)
    ensures OnItsWay(h, s, g) ==> OnItsWay(h, t, g)
    ensures InventoryFirst(s, g.peer) ==> InventoryFirst(t, g.peer)
  {
    if exists rid :: CarriedBy(h, s, g, rid) {
      var rid :| CarriedBy(h, s, g, rid);
      assert CarriedBy(h, t, g, rid);
    }
  }

  // ----- Pumping -----

  lemma SendKeepsWhereabouts(s: State, peer: PeerId, request: Request, waiting: Pending, rid: Rid)
    requires rid < s.nextId
    ensures Whereabouts(SendTracked(s, peer, request, waiting), rid) == Whereabouts(s, rid)
  {
  }

  lemma SendKeepsCover(h: Hash32, s: State, request: Request, waiting: Pending, g: Goal)
    requires Core(s) && OnItsWay(h, s, g)
    ensures OnItsWay(h, SendTracked(s, g.peer, request, waiting), g)
  {
    var t := SendTracked(s, g.peer, request, waiting);
    if exists rid :: CarriedBy(h, s, g, rid) {
      var rid :| CarriedBy(h, s, g, rid);
      assert Owned(s.pending, s.work, g.peer, rid) by { CarrierIsOwned(h, s, g, rid); }
      SendKeepsWhereabouts(s, g.peer, request, waiting, rid);
      assert CarriedBy(h, t, g, rid);
    }
  }

  lemma CarrierIsOwned(h: Hash32, s: State, g: Goal, rid: Rid)
    requires Core(s) && CarriedBy(h, s, g, rid)
    ensures Owned(s.pending, s.work, g.peer, rid) && rid < s.nextId
  {
  }

  lemma PumpOneKeepsCover(h: Hash32, s: State, g: Goal)
    requires Core(s) && g.peer in s.sessions && s.sessions[g.peer].queue != [] && OnItsWay(h, s, g)
    ensures OnItsWay(h, PumpOne(s, g.peer), g)
  {
    var queue := s.sessions[g.peer].queue;
    var popped := SetQueue(s, g.peer, queue[1..]);
    SetQueueKeepsCore(s, g.peer, queue[1..]);
    var t := PumpOne(s, g.peer);
    if OnItsWay(h, popped, g) {
      SendKeepsCover(h, popped, FirstPage(queue[0]), PendingIds(g.peer, queue[0]), g);
    } else {
      PoppedDay(h, s, popped, g);
      assert CarriedBy(h, t, g, s.nextId);
    }
  }

  lemma PoppedDay(h: Hash32, s: State, popped: State, g: Goal)
    requires g.peer in s.sessions && s.sessions[g.peer].queue != [] && OnItsWay(h, s, g)
    requires popped == SetQueue(s, g.peer, s.sessions[g.peer].queue[1..]) && !OnItsWay(h, popped, g)
    ensures s.sessions[g.peer].queue[0] == g.day
  {
    if exists rid :: CarriedBy(h, s, g, rid) {
      var rid :| CarriedBy(h, s, g, rid);
      assert CarriedBy(h, popped, g, rid);
    }
  }

  lemma {:induction false} PumpKeepsCover(h: Hash32, s: State, g: Goal)
    requires Core(s) && OnItsWay(h, s, g)
    ensures OnItsWay(h, Pump(s, g.peer), g)
    decreases QueueLength(s, g.peer)
  {
    if g.peer in s.sessions && |s.sessions[g.peer].outstanding| < MAX_PENDING_SYNC_REQUESTS_PER_PEER
       && s.sessions[g.peer].queue != []
    {
      PumpOneKeepsCover(h, s, g);
      PumpOneKeepsCore(s, g.peer);
      PumpKeepsCover(h, PumpOne(s, g.peer), g);
    }
  }

  ghost predicate NoInventoryStage(s: State, peer: PeerId) {
    peer in s.sessions ==>
      forall rid :: rid in s.sessions[peer].outstanding ==> !InventoryStage(Whereabouts(s, rid))
  }

  lemma SendKeepsNoInventoryStage(s: State, peer: PeerId, request: Request, waiting: Pending)
    requires Core(s) && peer in s.sessions && NoInventoryStage(s, peer) && !waiting.PendingInventory?
    ensures NoInventoryStage(SendTracked(s, peer, request, waiting), peer)
  {
    var t := SendTracked(s, peer, request, waiting);
    forall rid | rid in t.sessions[peer].outstanding
      ensures !InventoryStage(Whereabouts(t, rid))
    {
      if rid != s.nextId {
        assert Owned(s.pending, s.work, peer, rid);
        SendKeepsWhereabouts(s, peer, request, waiting, rid);
      } else {
        assert s.nextId !in s.work;
      }
    }
  }

  lemma {:induction false} PumpKeepsInventoryFirst(s: State, peer: PeerId)
    requires Core(s) && InventoryFirst(s, peer)
    ensures InventoryFirst(Pump(s, peer), peer)
    decreases QueueLength(s, peer)
  {
    if peer in s.sessions && |s.sessions[peer].outstanding| < MAX_PENDING_SYNC_REQUESTS_PER_PEER
       && s.sessions[peer].queue != []
    {
      var queue := s.sessions[peer].queue;
      var popped := SetQueue(s, peer, queue[1..]);
      SetQueueKeepsCore(s, peer, queue[1..]);
      assert NoInventoryStage(popped, peer) by {
        forall rid | rid in s.sessions[peer].outstanding
          ensures !InventoryStage(Whereabouts(popped, rid))
        {
          assert Whereabouts(popped, rid) == Whereabouts(s, rid);
        }
      }
      SendKeepsNoInventoryStage(popped, peer, FirstPage(queue[0]), PendingIds(peer, queue[0]));
      PumpOneKeepsCore(s, peer);
      PumpKeepsInventoryFirst(PumpOne(s, peer), peer);
    }
  }

  /** Dropping one request, pumping after. */
  lemma DropKeepsInventoryFirst(s: State, t: State, peer: PeerId, rid: Rid)
    requires InventoryFirst(s, peer) && t.sessions == s.sessions
    requires forall r :: r != rid ==> Whereabouts(s, r) == Whereabouts(t, r)
    ensures InventoryFirst(Untrack(t, peer, rid), peer)
  {
    var u := Untrack(t, peer, rid);
    if peer in s.sessions {
      forall r | r in u.sessions[peer].outstanding && InventoryStage(Whereabouts(u, r))
        ensures u.sessions[peer].outstanding == {r} && u.sessions[peer].queue == []
      {
        assert Whereabouts(u, r) == Whereabouts(s, r);
      }
    }
  }

  lemma DropKeepsCover(h: Hash32, s: State, t: State, rid: Rid, g: Goal)
    requires OnItsWay(h, s, g) && t.sessions == s.sessions && s.offered <= t.offered
    requires forall r :: r != rid ==> Whereabouts(s, r) == Whereabouts(t, r)
    ensures OnItsWay(h, Untrack(t, g.peer, rid), g) || CarriedBy(h, s, g, rid)
    ensures !CarriedBy(h, s, g, rid) || CarriedBy(h, t, g, rid) ==> OnItsWay(h, t, g)
  {
    if (g.peer, g.id) !in s.offered && !(g.peer in s.sessions && g.day in s.sessions[g.peer].queue) {
      var r :| CarriedBy(h, s, g, r);
      if r != rid {
        assert Whereabouts(s, r) == Whereabouts(t, r) == Whereabouts(Untrack(t, g.peer, rid), r);
        assert CarriedBy(h, t, g, r) && CarriedBy(h, Untrack(t, g.peer, rid), g, r);
      }
    }
  }

  // ----- Honest answers -----

  lemma HonestInBounds(h: Hash32, remote: Store.Records, now: int, request: Request)
    ensures HonestReply(h, remote, now, request).InBounds()
  {
  }

  lemma LeadingFacts(g: Goal)
    requires Leads(g)
    ensures RangeIds(g.remote, g.now, g.day) == DayIds(g.remote, g.now, g.day)
    ensures g.id in DayIds(g.remote, g.now, g.day) && Store.Active(g.remote, g.id, g.now)
  {
    assert g.id in SortedIds(DayIds(g.remote, g.now, g.day) - {ZERO_ID});
    DayFacts(g);
  }

  lemma DayFacts(g: Goal)
    requires g.id in DayIds(g.remote, g.now, g.day) && g.day + DAY_MS <= I64_MAX
    requires forall id :: id in DayIds(g.remote, g.now, g.day) ==> 0 <= g.remote[id].createdAt
    ensures RangeIds(g.remote, g.now, g.day) == DayIds(g.remote, g.now, g.day) && g.day % DAY_MS == 0
  {
    var k := g.remote[g.id].createdAt / DAY_MS;
    assert g.day == k * DAY_MS;
    RangeIsDay(g.remote, g.now, k);
    if k == 0 { OnlyAfterEpoch(g.remote, g.now); }
  }

  lemma OnlyAfterEpoch(remote: Store.Records, now: int)
    requires forall id :: id in DayIds(remote, now, 0) ==> 0 <= remote[id].createdAt
    ensures forall id :: Store.Active(remote, id, now) ==> !(-DAY_MS < remote[id].createdAt < 0)
  {
    forall id | Store.Active(remote, id, now)
      ensures !(-DAY_MS < remote[id].createdAt < 0)
    {
      BucketBounds(remote[id].createdAt, 0);
    }
  }

  /** A first page is the sorted ids of the bucket without the all-zero one, cut at the page's limit. */
  lemma FirstPageIs(remote: Store.Records, day: int, now: int)
    ensures var sorted := SortedIds(RangeIds(remote, now, day) - {ZERO_ID});
            var r := RecordIds(remote, day, None, MAX_IDS_PER_RESPONSE, now);
            r.Ok? && r.value.ids == sorted[..Min(|sorted|, MAX_IDS_PER_RESPONSE)]
  {
    var ids := RangeIds(remote, now, day);
    BeyondZero(ids);
    PageIsCut(SortedIds(ids - {ZERO_ID}), MAX_IDS_PER_RESPONSE);
  }

  lemma PageIsCut(ids: seq<RecordId>, limit: nat)
    requires limit > 0
    ensures PageOf(ids, limit).ids == ids[..Min(|ids|, limit)]
  {
    assert ids[..|ids|] == ids;
  }

  lemma BeyondZero(ids: set<RecordId>)
    ensures Beyond(ids, ZERO_ID) == ids - {ZERO_ID}
  {
    forall id
      ensures id in Beyond(ids, ZERO_ID) <==> id in ids - {ZERO_ID}
    {
      ZeroIsLeast(id);
      LessIrreflexive(ZERO_ID);
    }
  }

  /** The honest first page of the goal's bucket has the goal among its first 256 ids. */
  lemma FirstPageHasGoal(h: Hash32, g: Goal)
    requires Leads(g)
    ensures var r := HonestReply(h, g.remote, g.now, FirstPage(g.day));
            r.IdsReply? && g.id in FirstOf(r.ids)
  {
    LeadingFacts(g);
    FirstPageIs(g.remote, g.day, g.now);
    CutKeepsFirst(SortedIds(DayIds(g.remote, g.now, g.day) - {ZERO_ID}));
  }

  lemma CutKeepsFirst(ids: seq<RecordId>)
    ensures FirstOf(ids[..Min(|ids|, MAX_IDS_PER_RESPONSE)]) == FirstOf(ids)
  {
  }

  lemma HonestRecordsHaveGoal(h: Hash32, g: Goal, ids: seq<RecordId>)
    requires Leads(g) && g.id in ids && |ids| <= MAX_REQUESTED_RECORDS
    ensures var r := HonestReply(h, g.remote, g.now, GetRecords(ids));
            r.RecordsReply? && exists record :: record in r.records && record.id == g.id
  {
    LeadingFacts(g);
    PresentIsExact(g.remote, ids, g.now);
    assert g.remote[g.id] in Present(g.remote, ids, g.now);
  }

  // ----- Steps about the peer itself -----

  lemma MoveKeepsInventoryFirst(s: State, t: State, peer: PeerId, rid: Rid)
    requires InventoryFirst(s, peer) && t.sessions == s.sessions
    requires forall r :: r != rid ==> Whereabouts(s, r) == Whereabouts(t, r)
    requires InventoryStage(Whereabouts(t, rid)) ==> InventoryStage(Whereabouts(s, rid))
    ensures InventoryFirst(t, peer)
  {
    if peer in s.sessions {
      forall r | r in t.sessions[peer].outstanding && InventoryStage(Whereabouts(t, r))
        ensures t.sessions[peer].outstanding == {r} && t.sessions[peer].queue == []
      {
        assert InventoryStage(Whereabouts(s, r));
      }
    }
  }

  lemma StaleIsUntracked(s: State, rid: Rid, peer: PeerId)
    requires Inv(s) && rid in s.inflight && rid !in s.pending && peer in s.sessions
    ensures rid !in s.sessions[peer].outstanding
  {
    assert rid !in s.work;
    assert !Owned(s.pending, s.work, peer, rid);
  }

  lemma StaleAnswer(h: Hash32, s: State, rid: Rid, g: Goal)
    requires Inv(s) && rid in s.inflight && rid !in s.pending && s.inflight[rid].peer == g.peer
    requires OnItsWay(h, s, g) && InventoryFirst(s, g.peer)
    ensures OnItsWay(h, Settle(s, rid), g) && InventoryFirst(Settle(s, rid), g.peer)
    ensures OnItsWay(h, Untrack(Settle(s, rid), g.peer, rid), g)
    ensures InventoryFirst(Untrack(Settle(s, rid), g.peer, rid), g.peer)
  {
    var t := Settle(s, rid);
    SettleMovesOne(s, rid);
    StaleUntouched(h, s, t, rid, g);
  }

  lemma StaleUntouched(h: Hash32, s: State, t: State, rid: Rid, g: Goal)
    requires Inv(s) && rid in s.inflight && rid !in s.pending
    requires OnItsWay(h, s, g) && InventoryFirst(s, g.peer)
    requires t.sessions == s.sessions && t.offered == s.offered
    requires forall r :: r != rid ==> Whereabouts(s, r) == Whereabouts(t, r)
    ensures OnItsWay(h, t, g) && InventoryFirst(t, g.peer)
    ensures OnItsWay(h, Untrack(t, g.peer, rid), g) && InventoryFirst(Untrack(t, g.peer, rid), g.peer)
  {
    if g.peer in s.sessions {
      StaleIsUntracked(s, rid, g.peer);
      forall r | r in s.sessions[g.peer].outstanding
        ensures Whereabouts(t, r) == Whereabouts(s, r)
      {
      }
    }
    DropKeepsCover(h, s, t, rid, g);
    DropKeepsInventoryFirst(s, t, g.peer, rid);
  }

  lemma HandOverCovers(h: Hash32, s: State, rid: Rid, w: Work, g: Goal)
    requires Inv(s) && rid in s.pending && s.pending[rid].peer == g.peer
    requires OnItsWay(h, s, g) && InventoryFirst(s, g.peer)
    requires CarriedBy(h, s, g, rid) ==> Carries(h, Slot(None, Some(w), None), g)
    requires w.ReadInventory? ==> s.pending[rid].PendingInventory?
    requires w.ReadInventory? || w.ReadIds?
    ensures var t := Settle(s, rid).(work := s.work[rid := w]);
            OnItsWay(h, t, g) && InventoryFirst(t, g.peer)
  {
    var t := Settle(s, rid).(work := s.work[rid := w]);
    assert Whereabouts(t, rid) == Slot(None, Some(w), None);
    DropKeepsCover(h, s, t, rid, g);
    MoveKeepsInventoryFirst(s, t, g.peer, rid);
    if CarriedBy(h, s, g, rid) { assert CarriedBy(h, t, g, rid); }
  }

  lemma CarrierAnswered(h: Hash32, s: State, rid: Rid, g: Goal)
    requires Inv(s) && Sought(h, g) && rid in s.pending && CarriedBy(h, s, g, rid)
    ensures var r := HonestReply(h, g.remote, g.now, s.inflight[rid].request);
            && (s.pending[rid].PendingInventory? ==> r == InventoryReply(Buckets(h, g.remote, g.now)))
            && (s.pending[rid].PendingIds? ==>
                  s.pending[rid].bucket == g.day && r.IdsReply? && g.id in FirstOf(r.ids))
            && (s.pending[rid].PendingRecords? ==>
                  r.RecordsReply? && exists record :: record in r.records && record.id == g.id)
  {
    assert Awaited(s.pending, s.inflight, rid);
    assert rid !in s.work;
    if s.pending[rid].PendingIds? {
      FirstPageHasGoal(h, g);
    } else if s.pending[rid].PendingRecords? {
      HonestRecordsHaveGoal(h, g, s.inflight[rid].request.ids);
    }
  }

  lemma ReplyCovers(h: Hash32, s: State, rid: Rid, response: Response, g: Goal)
    requires Inv(s) && Sought(h, g) && OnItsWay(h, s, g) && InventoryFirst(s, g.peer)
    requires rid in s.inflight && s.inflight[rid].peer == g.peer
    requires rid in s.pending ==> response == HonestReply(h, g.remote, g.now, s.inflight[rid].request)
    ensures OnItsWay(h, Reply(s, rid, response), g) && InventoryFirst(Reply(s, rid, response), g.peer)
  {
    if rid !in s.pending {
      StaleAnswer(h, s, rid, g);
    } else {
      HonestInBounds(h, g.remote, g.now, s.inflight[rid].request);
      assert Awaited(s.pending, s.inflight, rid);
      if CarriedBy(h, s, g, rid) { CarrierAnswered(h, s, rid, g); }
      match (s.pending[rid], response)
      case (PendingInventory(p), InventoryReply(remote)) => HandOverCovers(h, s, rid, ReadInventory(p, remote), g);
      case (PendingIds(p, bucket), IdsReply(ids, next)) => HandOverCovers(h, s, rid, ReadIds(p, bucket, ids, next), g);
      case _ => EndCovers(h, s, rid, response, g);
    }
  }

  lemma EndCovers(h: Hash32, s: State, rid: Rid, response: Response, g: Goal)
    requires Inv(s) && OnItsWay(h, s, g) && InventoryFirst(s, g.peer)
    requires rid in s.pending && rid in s.inflight && s.inflight[rid].peer == g.peer && response.InBounds()
    requires !(s.pending[rid].PendingInventory? && response.InventoryReply?)
    requires !(s.pending[rid].PendingIds? && response.IdsReply?)
    requires CarriedBy(h, s, g, rid) ==>
               s.pending[rid].PendingRecords? && response.RecordsReply?
               && exists record :: record in response.records && record.id == g.id
    ensures OnItsWay(h, Reply(s, rid, response), g) && InventoryFirst(Reply(s, rid, response), g.peer)
  {
    var dropped := Untrack(Settle(s, rid), g.peer, rid);
    DroppedCovers(h, s, rid, g);
    EndedReply(s, rid, response);
    if s.pending[rid].PendingRecords? && response.RecordsReply? {
      RecordsCover(h, dropped, response.records, g);
    } else {
      PumpCovers(h, dropped, g);
    }
  }

  lemma DroppedCovers(h: Hash32, s: State, rid: Rid, g: Goal)
    requires Inv(s) && OnItsWay(h, s, g) && InventoryFirst(s, g.peer)
    requires rid in s.inflight && s.inflight[rid].peer == g.peer
    ensures var dropped := Untrack(Settle(s, rid), g.peer, rid);
            && Core(dropped) && InventoryFirst(dropped, g.peer)
            && (OnItsWay(h, dropped, g) || CarriedBy(h, s, g, rid))
  {
    SettledKeepsCore(s, rid);
    SettleMovesOne(s, rid);
    DropKeepsCover(h, s, Settle(s, rid), rid, g);
    DropKeepsInventoryFirst(s, Settle(s, rid), g.peer, rid);
  }

  lemma EndedReply(s: State, rid: Rid, response: Response)
    requires Core(s) && rid in s.pending && rid in s.inflight && response.InBounds()
    requires !(s.pending[rid].PendingInventory? && response.InventoryReply?)
    requires !(s.pending[rid].PendingIds? && response.IdsReply?)
    ensures var peer := s.inflight[rid].peer;
            var dropped := Untrack(Settle(s, rid), peer, rid);
            Reply(s, rid, response)
            == Pump(if s.pending[rid].PendingRecords? && response.RecordsReply?
                    then Offer(dropped, peer, response.records) else dropped, peer)
  {
    assert Awaited(s.pending, s.inflight, rid);
  }

  lemma PumpCovers(h: Hash32, s: State, g: Goal)
    requires Core(s) && OnItsWay(h, s, g) && InventoryFirst(s, g.peer)
    ensures OnItsWay(h, Pump(s, g.peer), g) && InventoryFirst(Pump(s, g.peer), g.peer)
  {
    PumpKeepsCover(h, s, g);
    PumpKeepsInventoryFirst(s, g.peer);
  }

  lemma RecordsCover(h: Hash32, dropped: State, records: seq<Store.Record>, g: Goal)
    requires Core(dropped) && InventoryFirst(dropped, g.peer)
    requires OnItsWay(h, dropped, g) || exists record :: record in records && record.id == g.id
    ensures var t := Pump(Offer(dropped, g.peer, records), g.peer); OnItsWay(h, t, g) && InventoryFirst(t, g.peer)
  {
    var t := Offer(dropped, g.peer, records);
    OfferCovers(h, dropped, records, g);
    if exists record :: record in records && record.id == g.id {
      var record :| record in records && record.id == g.id;
      assert (g.peer, g.id) in t.offered;
    }
    PumpCovers(h, t, g);
  }

  lemma OfferCovers(h: Hash32, s: State, records: seq<Store.Record>, g: Goal)
    requires Core(s)
    ensures var t := Offer(s, g.peer, records);
            && Core(t)
            && (OnItsWay(h, s, g) ==> OnItsWay(h, t, g))
            && (InventoryFirst(s, g.peer) ==> InventoryFirst(t, g.peer))
  {
    var t := Offer(s, g.peer, records);
    assert Tables(t) && Sessions(t);
    SameViewKeepsCover(h, s, t, g);
  }

  lemma FailCovers(h: Hash32, s: State, rid: Rid, g: Goal)
    requires Inv(s) && OnItsWay(h, s, g) && InventoryFirst(s, g.peer)
    requires rid in s.inflight && s.inflight[rid].peer == g.peer && rid !in s.pending
    ensures OnItsWay(h, Fail(s, rid), g) && InventoryFirst(Fail(s, rid), g.peer)
  {
    var dropped := Untrack(Settle(s, rid), g.peer, rid);
    StaleAnswer(h, s, rid, g);
    SettledKeepsCore(s, rid);
    PumpKeepsCover(h, dropped, g);
    PumpKeepsInventoryFirst(dropped, g.peer);
  }

  // ----- The comparison against the local table -----

  lemma AbsentDayDiffers(h: Hash32, remote: Store.Records, now: int, day: int)
    requires Inventoried(h, remote, now, day)
    ensures day in DifferingBuckets([], Buckets(h, remote, now))
  {
    var k := BucketOfDay(h, remote, now, day);
    BucketsAreDistinct(h, remote, now);
    ListedWhenDiffering([], Buckets(h, remote, now), k);
  }

  /** Comparing inventories either lists the goal's bucket or the local table already holds the goal. */
  lemma ComparisonListsOrHolds(h: Hash32, local: Option<Store.Records>, now: int, g: Goal)
    requires Sought(h, g)
    ensures || g.day in DifferingBuckets(LocalBuckets(h, local, now), Buckets(h, g.remote, g.now))
            || (local.Some? && g.id in local.value)
  {
    LeadingFacts(g);
    if local == None {
      AbsentDayDiffers(h, g.remote, g.now, g.day);
    } else {
      DayListedOrHeld(h, local.value, now, g.remote, g.now, g.day, g.id);
    }
  }

  lemma DayListedOrHeld(h: Hash32, local: Store.Records, now: int, remote: Store.Records, now': int, day: int,
                        id: RecordId)
    requires Injective(h) && Inventoried(h, remote, now', day) && id in DayIds(remote, now', day)
    ensures day in DifferingBuckets(Buckets(h, local, now), Buckets(h, remote, now')) || id in local
  {
    DifferingBucketsIsExact(h, local, now, remote, now', day);
  }

  /** Of the first 256 ids of a page each is asked for or held, however long the page is: past 256 ids the
      lookup fails, its answer counts as empty, and the first 256 are asked for. */
  lemma MissingListsOrHolds(local: Option<Store.Records>, ids: seq<RecordId>, now: int, id: RecordId)
    requires id in FirstOf(ids)
    requires local.Some? ==> forall i :: i in local.value ==> local.value[i].id == i
    ensures id in Missing(local, ids, now) || (local.Some? && id in local.value)
  {
    if id in Existing(local, ids, now) {
      PresentIsExact(local.value, ids, now);
    } else if |ids| <= MAX_REQUESTED_RECORDS {
      var absent := Without(ids, Existing(local, ids, now));
      assert absent[..|absent|] == absent;
    } else {
      WithoutNothing(ids);
    }
  }

  lemma ReplaceCovers(h: Hash32, s: State, rid: Rid, w: Work, g: Goal)
    requires Inv(s) && OnItsWay(h, s, g) && rid in s.work && s.work[rid].peer == g.peer
    requires CarriedBy(h, s, g, rid) ==> Carries(h, Slot(None, Some(w), None), g)
    ensures OnItsWay(h, s.(work := s.work[rid := w]), g)
  {
    var t := s.(work := s.work[rid := w]);
    assert rid !in s.pending && rid !in s.inflight;
    assert Whereabouts(t, rid) == Slot(None, Some(w), None);
    DropKeepsCover(h, s, t, rid, g);
    if CarriedBy(h, s, g, rid) { assert CarriedBy(h, t, g, rid); }
  }

  lemma ReplaceKeepsInventoryFirst(s: State, rid: Rid, w: Work, peer: PeerId)
    requires Inv(s) && InventoryFirst(s, peer) && rid in s.work
    requires w.InventoryCompared? ==> s.work[rid].ReadInventory?
    requires w.InventoryCompared? || w.IdsCompared?
    ensures InventoryFirst(s.(work := s.work[rid := w]), peer)
  {
    assert rid !in s.pending;
    MoveKeepsInventoryFirst(s, s.(work := s.work[rid := w]), peer, rid);
  }

  /** What the work of a carrier is while it waits for the database. */
  lemma CarrierReads(h: Hash32, s: State, rid: Rid, local: Option<Store.Records>, now: int, g: Goal)
    requires Inv(s) && CarriedBy(h, s, g, rid) && Enabled(s, DatabaseRead(rid, local, now))
    ensures s.work[rid] == ReadInventory(g.peer, Buckets(h, g.remote, g.now))
            || (s.work[rid].ReadIds? && WorkCarries(s.work[rid], g))
  {
    assert rid !in s.pending && rid !in s.inflight;
  }

  lemma ComparedCarries(h: Hash32, s: State, rid: Rid, local: Option<Store.Records>, now: int, g: Goal)
    requires Inv(s) && Sought(h, g) && CarriedBy(h, s, g, rid)
    requires Enabled(s, DatabaseRead(rid, local, now)) && s.work[rid].peer == g.peer
    requires local.Some? ==> forall i :: i in local.value ==> local.value[i].id == i
    ensures Carries(h, Slot(None, Some(Compare(h, s.work[rid], local, now)), None), g)
            || (local.Some? && g.id in local.value)
  {
    CarrierReads(h, s, rid, local, now, g);
    WorkStaysCarrying(h, s.work[rid], local, now, g);
  }

  lemma WorkStaysCarrying(h: Hash32, w: Work, local: Option<Store.Records>, now: int, g: Goal)
    requires Sought(h, g)
    requires w == ReadInventory(g.peer, Buckets(h, g.remote, g.now)) || (w.ReadIds? && WorkCarries(w, g))
    requires local.Some? ==> forall i :: i in local.value ==> local.value[i].id == i
    ensures WorkCarries(Compare(h, w, local, now), g) || (local.Some? && g.id in local.value)
  {
    if w.ReadInventory? {
      InventoryStaysCarrying(h, local, now, g);
    } else {
      PageStaysCarrying(h, w, local, now, g);
    }
  }

  lemma InventoryStaysCarrying(h: Hash32, local: Option<Store.Records>, now: int, g: Goal)
    requires Sought(h, g)
    ensures WorkCarries(Compare(h, ReadInventory(g.peer, Buckets(h, g.remote, g.now)), local, now), g)
            || (local.Some? && g.id in local.value)
  {
    ComparisonListsOrHolds(h, local, now, g);
  }

  lemma PageStaysCarrying(h: Hash32, w: Work, local: Option<Store.Records>, now: int, g: Goal)
    requires w.ReadIds? && WorkCarries(w, g)
    requires local.Some? ==> forall i :: i in local.value ==> local.value[i].id == i
    ensures WorkCarries(Compare(h, w, local, now), g) || (local.Some? && g.id in local.value)
  {
    MissingListsOrHolds(local, w.ids, now, g.id);
  }

  lemma ReadCovers(h: Hash32, s: State, rid: Rid, local: Option<Store.Records>, now: int, g: Goal)
    requires Inv(s) && Sought(h, g) && OnItsWay(h, s, g) && InventoryFirst(s, g.peer)
    requires Enabled(s, DatabaseRead(rid, local, now)) && s.work[rid].peer == g.peer
    requires local.Some? ==> forall i :: i in local.value ==> local.value[i].id == i
    ensures OnItsWay(h, Read(h, s, rid, local, now), g) || (local.Some? && g.id in local.value)
    ensures InventoryFirst(Read(h, s, rid, local, now), g.peer)
  {
    var w := Compare(h, s.work[rid], local, now);
    ReplaceKeepsInventoryFirst(s, rid, w, g.peer);
    if CarriedBy(h, s, g, rid) { ComparedCarries(h, s, rid, local, now, g); }
    if !(local.Some? && g.id in local.value) { ReplaceCovers(h, s, rid, w, g); }
  }

  // ----- Deliveries -----

  lemma DeliverInventoryCovers(h: Hash32, s: State, rid: Rid, g: Goal)
    requires Inv(s) && OnItsWay(h, s, g) && InventoryFirst(s, g.peer)
    requires Enabled(s, Delivered(rid)) && s.work[rid].peer == g.peer && ReachesAsker(s, rid)
    requires s.work[rid].InventoryCompared?
    ensures OnItsWay(h, Deliver(s, rid), g) && InventoryFirst(Deliver(s, rid), g.peer)
  {
    var taken := Untrack(s.(work := s.work - {rid}), g.peer, rid);
    var t := SetQueue(taken, g.peer, s.work[rid].buckets);
    assert InventoryStage(Whereabouts(s, rid));
    assert s.sessions[g.peer].outstanding == {rid} && s.sessions[g.peer].queue == [];
    TakenKeepsCore(s, rid);
    SetQueueKeepsCore(taken, g.peer, s.work[rid].buckets);
    assert t.sessions[g.peer].outstanding == {};
    if (g.peer, g.id) !in s.offered {
      var r :| CarriedBy(h, s, g, r);
      assert r == rid;
      assert rid !in s.pending;
    }
    PumpKeepsCover(h, t, g);
    PumpKeepsInventoryFirst(t, g.peer);
  }

  lemma RequestCovers(h: Hash32, s: State, missing: seq<RecordId>, g: Goal)
    requires Core(s) && g.peer in s.sessions && |missing| <= MAX_REQUESTED_RECORDS
    requires OnItsWay(h, s, g) || g.id in missing
    ensures OnItsWay(h, RequestMissing(s, g.peer, missing), g)
  {
    if missing != [] {
      if OnItsWay(h, s, g) {
        SendKeepsCover(h, s, GetRecords(missing), PendingRecords(g.peer), g);
      } else {
        var t := RequestMissing(s, g.peer, missing);
        assert CarriedBy(h, t, g, s.nextId);
      }
    }
  }

  lemma FollowCovers(h: Hash32, s: State, bucket: int, next: Option<RecordId>, g: Goal)
    requires Core(s) && OnItsWay(h, s, g)
    ensures OnItsWay(h, FollowCursor(s, g.peer, bucket, next), g)
  {
    if next != None && g.peer in s.sessions {
      if |s.sessions[g.peer].outstanding| < MAX_PENDING_SYNC_REQUESTS_PER_PEER {
        SendKeepsCover(h, s, GetRecordIds(bucket, next, MAX_IDS_PER_RESPONSE), PendingIds(g.peer, bucket), g);
      } else if exists rid :: CarriedBy(h, s, g, rid) {
        var rid :| CarriedBy(h, s, g, rid);
        assert CarriedBy(h, FollowCursor(s, g.peer, bucket, next), g, rid);
      }
    }
  }

  lemma DeliverIdsCovers(h: Hash32, s: State, rid: Rid, g: Goal)
    requires Inv(s) && OnItsWay(h, s, g)
    requires Enabled(s, Delivered(rid)) && s.work[rid].peer == g.peer && ReachesAsker(s, rid)
    requires s.work[rid].IdsCompared?
    ensures OnItsWay(h, Deliver(s, rid), g)
  {
    var w := s.work[rid];
    var taken := Untrack(s.(work := s.work - {rid}), g.peer, rid);
    TakenKeepsCore(s, rid);
    assert rid !in s.pending;
    DropKeepsCover(h, s, s.(work := s.work - {rid}), rid, g);
    RequestCovers(h, taken, w.missing, g);
    RequestMissingKeepsCore(taken, g.peer, w.missing);
    var m := RequestMissing(taken, g.peer, w.missing);
    FollowCovers(h, m, w.bucket, w.next, g);
    FollowCursorKeepsCore(m, g.peer, w.bucket, w.next);
    PumpKeepsCover(h, FollowCursor(m, g.peer, w.bucket, w.next), g);
  }

  lemma DeliverIdsInventoryFirst(s: State, rid: Rid, peer: PeerId)
    requires Inv(s) && InventoryFirst(s, peer)
    requires Enabled(s, Delivered(rid)) && s.work[rid].peer == peer && ReachesAsker(s, rid)
    requires s.work[rid].IdsCompared?
    ensures InventoryFirst(Deliver(s, rid), peer)
  {
    var w := s.work[rid];
    var taken := Untrack(s.(work := s.work - {rid}), peer, rid);
    TakenKeepsCore(s, rid);
    assert NoInventoryStage(taken, peer) by {
      forall r | r in taken.sessions[peer].outstanding
        ensures !InventoryStage(Whereabouts(taken, r))
      {
        assert Whereabouts(taken, r) == Whereabouts(s, r);
      }
    }
    if w.missing != [] {
      SendKeepsNoInventoryStage(taken, peer, GetRecords(w.missing), PendingRecords(peer));
    }
    RequestMissingKeepsCore(taken, peer, w.missing);
    var m := RequestMissing(taken, peer, w.missing);
    FollowKeepsNoInventoryStage(m, peer, w.bucket, w.next);
    FollowCursorKeepsCore(m, peer, w.bucket, w.next);
    PumpKeepsInventoryFirst(FollowCursor(m, peer, w.bucket, w.next), peer);
  }

  lemma FollowKeepsNoInventoryStage(s: State, peer: PeerId, bucket: int, next: Option<RecordId>)
    requires Core(s) && peer in s.sessions && NoInventoryStage(s, peer)
    ensures NoInventoryStage(FollowCursor(s, peer, bucket, next), peer)
  {
    if next != None {
      if |s.sessions[peer].outstanding| < MAX_PENDING_SYNC_REQUESTS_PER_PEER {
        SendKeepsNoInventoryStage(s, peer, GetRecordIds(bucket, next, MAX_IDS_PER_RESPONSE), PendingIds(peer, bucket));
      } else {
        var t := FollowCursor(s, peer, bucket, next);
        forall r | r in t.sessions[peer].outstanding
          ensures !InventoryStage(Whereabouts(t, r))
        {
          assert Whereabouts(t, r) == Whereabouts(s, r);
        }
      }
    }
  }

  // ----- Worlds and runs -----

  /** The engine beside its own record table. */
  datatype World = World(engine: State, local: Store.Records)

  datatype Happening = Engine(event: Event) | Stored(records: Store.Records)

  /** Database reads see the table of the moment or fail; the table only gains rows. */
  predicate CanHappen(w: World, x: Happening) {
    match x
    case Engine(e) =>
      Enabled(w.engine, e) && (e.DatabaseRead? ==> e.local == None || e.local == Some(w.local))
    case Stored(records) => w.local.Keys <= records.Keys && forall id :: id in records ==> records[id].id == id
  }

  function Next(h: Hash32, w: World, x: Happening): World
    requires CanHappen(w, x)
  {
    match x
    case Engine(e) => w.(engine := Step(h, w.engine, e))
    case Stored(records) => w.(local := records)
  }

  /** The peer answers honestly and is neither lost nor timed out, its requests do not fail, and comparisons
      for it reach the session that asked. Nothing is said of other peers. */
  predicate Undisturbed(h: Hash32, s: State, e: Event, g: Goal)
    requires Enabled(s, e)
  {
    match e
    case Replied(rid, response) =>
      s.inflight[rid].peer == g.peer && rid in s.pending
      ==> response == HonestReply(h, g.remote, g.now, s.inflight[rid].request)
    case Failed(rid) => s.inflight[rid].peer == g.peer ==> rid !in s.pending
    case Delivered(rid) => s.work[rid].peer == g.peer ==> ReachesAsker(s, rid)
    case Ticked(at) => g.peer !in TimedOut(s, at)
    case Closed(peer) => peer != g.peer
    case _ => true
  }

  ghost predicate Accounted(h: Hash32, w: World, g: Goal) {
    && Inv(w.engine)
    && (forall id :: id in w.local ==> w.local[id].id == id)
    && (g.id in w.local || (InventoryFirst(w.engine, g.peer) && OnItsWay(h, w.engine, g)))
  }

  lemma StartKeepsInventoryFirst(s: State, peer: PeerId, now: Instant)
    requires Inv(s) && InventoryFirst(s, peer)
    ensures InventoryFirst(Start(s, peer, now), peer)
  {
  }

  lemma OfferedStays(h: Hash32, s: State, e: Event, g: Goal)
    requires Inv(s) && Enabled(s, e) && e.Started?
    requires OnItsWay(h, s, g) && InventoryFirst(s, g.peer)
    ensures OnItsWay(h, Step(h, s, e), g) && InventoryFirst(Step(h, s, e), g.peer)
  {
    if e.peer == g.peer {
      StartKeepsInventoryFirst(s, e.peer, e.at);
    } else {
      OtherStepSameView(h, s, e, g.peer);
      SameViewKeepsCover(h, s, Step(h, s, e), g);
    }
  }

  /** Own steps keep the record on its way, or the local table turns out to hold it. */
  lemma OwnStepCovers(h: Hash32, s: State, e: Event, local: Store.Records, g: Goal)
    requires Inv(s) && Sought(h, g) && Enabled(s, e) && Undisturbed(h, s, e, g) && PeerOf(s, e) == Some(g.peer)
    requires OnItsWay(h, s, g) && InventoryFirst(s, g.peer)
    requires e.DatabaseRead? ==> e.local == None || e.local == Some(local)
    requires forall id :: id in local ==> local[id].id == id
    ensures g.id in local || OnItsWay(h, Step(h, s, e), g)
    ensures InventoryFirst(Step(h, s, e), g.peer)
  {
    match e
    case Started(_, _) => OfferedStays(h, s, e, g);
    case Replied(rid, response) => ReplyCovers(h, s, rid, response, g);
    case Failed(rid) => FailCovers(h, s, rid, g);
    case DatabaseRead(rid, l, now) => ReadCovers(h, s, rid, l, now, g);
    case Delivered(rid) =>
      if s.work[rid].InventoryCompared? {
        DeliverInventoryCovers(h, s, rid, g);
      } else {
        DeliverIdsCovers(h, s, rid, g);
        DeliverIdsInventoryFirst(s, rid, g.peer);
      }
  }

  lemma HappeningKeepsAccount(h: Hash32, w: World, x: Happening, g: Goal)
    requires Sought(h, g) && Accounted(h, w, g) && CanHappen(w, x)
    requires x.Engine? ==> Undisturbed(h, w.engine, x.event, g)
    ensures Accounted(h, Next(h, w, x), g)
  {
    if x.Engine? {
      var e := x.event;
      StepKeepsInv(h, w.engine, e);
      if g.id !in w.local {
        if PeerOf(w.engine, e) == Some(g.peer) {
          OwnStepCovers(h, w.engine, e, w.local, g);
        } else {
          OtherStepSameView(h, w.engine, e, g.peer);
          SameViewKeepsCover(h, w.engine, Step(h, w.engine, e), g);
        }
      }
    }
  }

  ghost predicate UndisturbedRun(h: Hash32, w: World, xs: seq<Happening>, g: Goal)
    decreases |xs|
  {
    xs == []
    || (CanHappen(w, xs[0]) && (xs[0].Engine? ==> Undisturbed(h, w.engine, xs[0].event, g))
        && UndisturbedRun(h, Next(h, w, xs[0]), xs[1..], g))
  }

  function RunWorld(h: Hash32, w: World, xs: seq<Happening>, g: Goal): World
    requires UndisturbedRun(h, w, xs, g)
    decreases |xs|
  {
    if xs == [] then w else RunWorld(h, Next(h, w, xs[0]), xs[1..], g)
  }

  lemma {:induction false} RunKeepsAccount(h: Hash32, w: World, xs: seq<Happening>, g: Goal)
    requires Sought(h, g) && Accounted(h, w, g) && UndisturbedRun(h, w, xs, g)
    ensures Accounted(h, RunWorld(h, w, xs, g), g)
    decreases |xs|
  {
    if xs != [] {
      HappeningKeepsAccount(h, w, xs[0], g);
      RunKeepsAccount(h, Next(h, w, xs[0]), xs[1..], g);
    }
  }

  lemma OpeningCarries(h: Hash32, s: State, g: Goal, now: Instant)
    requires Core(s) && g.peer !in s.sessions && |s.sessions| < MAX_SIMULTANEOUS_SYNC_PEERS
    ensures CarriedBy(h, Start(s, g.peer, now), g, s.nextId)
  {
    assert s.nextId !in s.work;
  }

  lemma OpeningWaitsOnlyForInventory(s: State, peer: PeerId, now: Instant)
    requires peer !in s.sessions && |s.sessions| < MAX_SIMULTANEOUS_SYNC_PEERS
    ensures InventoryFirst(Start(s, peer, now), peer)
  {
    assert Start(s, peer, now).sessions[peer] == Session(now, [], {s.nextId});
  }

  /** The session with the peer is opened, and the history of offers starts afresh. */
  function Opened(w: World, peer: PeerId, now: Instant): World {
    w.(engine := Start(w.engine.(offered := {}), peer, now))
  }

  lemma OffersDoNotMatter(s: State)
    requires Inv(s)
    ensures Inv(s.(offered := {}))
  {
    var t := s.(offered := {});
    assert Tables(t) && Sessions(t);
  }

  lemma OpeningAccount(h: Hash32, w: World, g: Goal, now: Instant)
    requires Sought(h, g) && Inv(w.engine) && (forall id :: id in w.local ==> w.local[id].id == id)
    requires g.peer !in w.engine.sessions && |w.engine.sessions| < MAX_SIMULTANEOUS_SYNC_PEERS
    ensures Accounted(h, Opened(w, g.peer, now), g)
  {
    var s := w.engine.(offered := {});
    OffersDoNotMatter(w.engine);
    StartKeepsInv(s, g.peer, now);
    OpeningWaitsOnlyForInventory(s, g.peer, now);
    assert OnItsWay(h, Start(s, g.peer, now), g) by { OpeningCarries(h, s, g, now); }
  }

  /** End-to-end coverage. A session opened with an honest peer over a fixed table, left undisturbed, among any
      interleaving of its own replies and comparisons with anything other peers do and with rows arriving in the
      local table: when the session is over, every remote record that is among the first 256 of an inventoried
      day is in the local table or was, since the opening, passed to `accept_sync_records`. */
  lemma FinishedSessionCovers(h: Hash32, w: World, g: Goal, now: Instant, xs: seq<Happening>)
    requires Sought(h, g) && Inv(w.engine) && (forall id :: id in w.local ==> w.local[id].id == id)
    requires g.peer !in w.engine.sessions && |w.engine.sessions| < MAX_SIMULTANEOUS_SYNC_PEERS
    requires UndisturbedRun(h, Opened(w, g.peer, now), xs, g)
    ensures var end := RunWorld(h, Opened(w, g.peer, now), xs, g);
            g.peer !in end.engine.sessions ==> g.id in end.local || (g.peer, g.id) in end.engine.offered
  {
    OpeningAccount(h, w, g, now);
    RunKeepsAccount(h, Opened(w, g.peer, now), xs, g);
  }

  /** With at most 366 days every active record of the peer is inventoried, so nothing is missed. */
  lemma EveryDayInventoried(h: Hash32, remote: Store.Records, now: int, id: RecordId)
    requires |Days(remote, now)| <= MAX_BUCKETS && Store.Active(remote, id, now)
    ensures Inventoried(h, remote, now, BucketOf(remote[id].createdAt))
    ensures id in DayIds(remote, now, BucketOf(remote[id].createdAt))
  {
    var day := BucketOf(remote[id].createdAt);
    assert day in Days(remote, now) && day in SortedDays(remote, now);
    var k :| 0 <= k < |SortedDays(remote, now)| && SortedDays(remote, now)[k] == day;
    assert Buckets(h, remote, now)[k] == DayDigest(h, remote, now, day);
  }

  // ----- Why 256 -----

  /** A page of at most 256 ids is asked for exactly where it is not held. */
  lemma MissingIsExact(local: Store.Records, ids: seq<RecordId>, now: int, id: RecordId)
    requires (forall i :: i in local ==> local[i].id == i) && |ids| <= MAX_REQUESTED_RECORDS
    ensures id in Missing(Some(local), ids, now) <==> id in ids && !Store.Active(local, id, now)
  {
    PresentIsExact(local, ids, now);
    var absent := Without(ids, Existing(Some(local), ids, now));
    assert absent[..|absent|] == absent;
    if id in ids && Store.Active(local, id, now) {
      assert local[id] in Present(local, ids, now);
    }
  }

  /** The missing ids of a page are all requested exactly when the page has at most 256 ids, or what lies past
      its first 256 ids is held: beyond 256 the database refuses the lookup, the answer counts as empty, and
      only the first 256 ids are asked for, held or not. */
  lemma PageIsCoveredExactly(local: Store.Records, ids: seq<RecordId>, now: int)
    requires forall i :: i in local ==> local[i].id == i
    requires forall i, j :: 0 <= i < j < |ids| ==> ids[i] != ids[j]
    ensures (forall id :: id in ids ==> Store.Active(local, id, now) || id in Missing(Some(local), ids, now))
            <==> |ids| <= MAX_REQUESTED_RECORDS
                 || forall k :: MAX_REQUESTED_RECORDS <= k < |ids| ==> Store.Active(local, ids[k], now)
  {
    var missing := Missing(Some(local), ids, now);
    if |ids| <= MAX_REQUESTED_RECORDS {
      PresentIsExact(local, ids, now);
      var absent := Without(ids, Existing(Some(local), ids, now));
      assert absent[..|absent|] == absent;
    } else {
      WithoutNothing(ids);
      assert missing == ids[..MAX_REQUESTED_RECORDS];
      forall k | MAX_REQUESTED_RECORDS <= k < |ids|
        ensures ids[k] !in missing
      {
      }
      forall k | 0 <= k < MAX_REQUESTED_RECORDS
        ensures ids[k] in missing
      {
        assert missing[k] == ids[k];
      }
    }
  }

  /** A page of more than 256 ids on an empty table: the 257th is neither held nor asked for. */
  lemma LongPageLosesOne(ids: seq<RecordId>, now: int)
    requires |ids| > MAX_REQUESTED_RECORDS && forall i, j :: 0 <= i < j < |ids| ==> ids[i] != ids[j]
    ensures ids[MAX_REQUESTED_RECORDS] !in Missing(Some(map[]), ids, now)
  {
    WithoutNothing(ids);
    assert Missing(Some(map[]), ids, now) == ids[..MAX_REQUESTED_RECORDS];
  }

  lemma {:induction false} WithoutNothing(ids: seq<RecordId>)
    ensures Without(ids, {}) == ids
  {
    if ids != [] { WithoutNothing(ids[1..]); }
  }
}
