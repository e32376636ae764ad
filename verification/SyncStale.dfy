/** Why the bound on outstanding requests needs comparisons to reach the session that asked: a run in which one
    does not. */
module SyncStale {
  import opened Wrappers
  import opened Limits
  import opened Bytes
  import opened Queries
  import opened Sync
  import opened SyncInvariants
  import opened SyncBounds

  ghost predicate Reaches(h: Hash32, es: seq<Event>, s: State) {
    CanRun(h, IDLE, es) && Run(h, IDLE, es) == s && Inv(s)
  }

  lemma {:induction false} RunExtends(h: Hash32, s: State, es: seq<Event>, e: Event)
    requires CanRun(h, s, es) && Enabled(Run(h, s, es), e)
    ensures CanRun(h, s, es + [e]) && Run(h, s, es + [e]) == Step(h, Run(h, s, es), e)
    decreases |es|
  {
    if es == [] {
      assert [e][1..] == [] && es + [e] == [e];
    } else {
      assert (es + [e])[0] == es[0] && (es + [e])[1..] == es[1..] + [e];
      RunExtends(h, Step(h, s, es[0]), es[1..], e);
    }
  }

  lemma StepOn(h: Hash32, es: seq<Event>, s: State, e: Event) returns (es': seq<Event>, t: State)
    requires Reaches(h, es, s) && Enabled(s, e)
    ensures es' == es + [e] && t == Step(h, s, e) && Reaches(h, es', t)
  {
    RunExtends(h, IDLE, es, e);
    StepKeepsInv(h, s, e);
    es', t := es + [e], Step(h, s, e);
  }

  /** The session waits for two first pages and nothing else. */
  predicate Filled(s: State, peer: PeerId, x: Rid, y: Rid) {
    && peer in s.sessions && s.sessions[peer].queue == [] && s.sessions[peer].outstanding == {x, y} && x != y
    && x in s.pending && s.pending[x].PendingIds? && s.pending[x].peer == peer
    && x in s.inflight && s.inflight[x].peer == peer
    && y in s.inflight && s.inflight[y].peer == peer
  }

  lemma BothDiffer(a: BucketDigest, b: BucketDigest)
    ensures DifferingBuckets([], [a, b]) == [a.start, b.start]
  {
    var none: map<int, (nat, Digest)> := map[];
    assert DigestMap([]) == none;
    assert DifferingFrom(none, [b]) == [b.start] by { assert [b][1..] == []; }
    assert [a, b][1..] == [b];
    assert DifferingFrom(none, [a, b]) == [a.start] + DifferingFrom(none, [b]);
  }

  lemma AsksForOne(s: State, peer: PeerId, rest: seq<int>)
    requires peer in s.sessions && s.sessions[peer].queue != [] && s.sessions[peer].queue[1..] == rest
    ensures var t := PumpOne(s, peer);
            && t.sessions == s.sessions[peer := s.sessions[peer].(queue := rest,
                                                outstanding := s.sessions[peer].outstanding + {s.nextId})]
            && t.work == s.work && t.nextId == s.nextId + 1
            && t.pending == s.pending[s.nextId := PendingIds(peer, s.sessions[peer].queue[0])]
            && t.inflight == s.inflight[s.nextId := Sent(peer, FirstPage(s.sessions[peer].queue[0]))]
  {
  }

  /** Pumping an idle session with two queued buckets asks for both. */
  lemma PumpsTwo(s: State, peer: PeerId, a: int, b: int)
    requires peer in s.sessions && s.sessions[peer].outstanding == {} && s.sessions[peer].queue == [a, b]
    ensures var t := Pump(s, peer);
            && Filled(t, peer, s.nextId, s.nextId + 1) && t.work == s.work && t.sessions.Keys == s.sessions.Keys
  {
    AsksForOne(s, peer, [b]);
    var s1 := PumpOne(s, peer);
    assert [b][1..] == [];
    AsksForOne(s1, peer, []);
    var s2 := PumpOne(s1, peer);
    assert s2.sessions[peer].outstanding == {s.nextId, s.nextId + 1};
    assert |s2.sessions[peer].outstanding| == 2;
    assert Pump(s, peer) == Pump(s1, peer) == Pump(s2, peer) == s2;
  }

  lemma ComparedFills(s: State, peer: PeerId, rid: Rid, a: int, b: int)
    requires rid in s.work && s.work[rid] == InventoryCompared(peer, [a, b])
    requires peer in s.sessions && s.sessions[peer].outstanding == {rid}
    ensures var t := Deliver(s, rid);
            && Filled(t, peer, s.nextId, s.nextId + 1) && t.work == s.work - {rid}
            && t.sessions.Keys == s.sessions.Keys
  {
    var ready := SetQueue(Untrack(s.(work := s.work - {rid}), peer, rid), peer, [a, b]);
    assert {rid} - {rid} == {};
    PumpsTwo(ready, peer, a, b);
    assert ready.sessions.Keys == s.sessions.Keys;
  }

  lemma OpenedSession(s: State, peer: PeerId)
    requires Inv(s) && peer !in s.sessions && |s.sessions| < MAX_SIMULTANEOUS_SYNC_PEERS
    ensures var t := Start(s, peer, 0);
            && t.sessions == s.sessions[peer := Session(0, [], {s.nextId})] && t.work == s.work
            && s.nextId in t.inflight && t.inflight[s.nextId].peer == peer
            && s.nextId in t.pending && t.pending[s.nextId] == PendingInventory(peer)
            && s.nextId !in s.work && t.nextId == s.nextId + 1
  {
  }

  lemma AnsweredSession(h: Hash32, s: State, rid: Rid, peer: PeerId, a: BucketDigest, b: BucketDigest)
    requires rid in s.inflight && rid in s.pending && s.pending[rid] == PendingInventory(peer) && rid !in s.work
    ensures var t := Reply(s, rid, InventoryReply([a, b]));
            && t.work == s.work[rid := ReadInventory(peer, [a, b])] && t.sessions == s.sessions
            && t.nextId == s.nextId
            && Read(h, t, rid, None, 0).work == s.work[rid := InventoryCompared(peer, [a.start, b.start])]
  {
    BothDiffer(a, b);
  }

  /** A session is opened. */
  lemma Open(h: Hash32, es: seq<Event>, s: State, peer: PeerId) returns (es': seq<Event>, t: State)
    requires Reaches(h, es, s) && peer !in s.sessions && |s.sessions| < MAX_SIMULTANEOUS_SYNC_PEERS
    ensures Reaches(h, es', t) && t.nextId == s.nextId + 1 && t.work == s.work && s.nextId !in s.work
    ensures t.sessions == s.sessions[peer := Session(0, [], {s.nextId})]
    ensures s.nextId in t.inflight && s.nextId in t.pending && t.pending[s.nextId] == PendingInventory(peer)
  {
    OpenedSession(s, peer);
    es', t := StepOn(h, es, s, Started(peer, 0));
  }

  /** Its inventory comes, of two buckets, and is compared with a failed local read. */
  lemma Answer(h: Hash32, es: seq<Event>, s: State, rid: Rid, peer: PeerId, a: BucketDigest, b: BucketDigest)
      returns (es': seq<Event>, t: State)
    requires Reaches(h, es, s) && rid !in s.work
    requires rid in s.inflight && rid in s.pending && s.pending[rid] == PendingInventory(peer)
    ensures Reaches(h, es', t) && t.nextId == s.nextId && t.sessions == s.sessions
    ensures t.work == s.work[rid := InventoryCompared(peer, [a.start, b.start])]
  {
    AnsweredSession(h, s, rid, peer, a, b);
    var e1, s1 := StepOn(h, es, s, Replied(rid, InventoryReply([a, b])));
    es', t := StepOn(h, e1, s1, DatabaseRead(rid, None, 0));
  }

  /** The comparison returns, and the session asks for both buckets. */
  lemma Fill(h: Hash32, es: seq<Event>, s: State, peer: PeerId, rid: Rid, a: int, b: int)
      returns (es': seq<Event>, t: State)
    requires Reaches(h, es, s) && rid in s.work && s.work[rid] == InventoryCompared(peer, [a, b])
    requires peer in s.sessions && s.sessions[peer].outstanding == {rid}
    ensures Reaches(h, es', t) && Filled(t, peer, s.nextId, s.nextId + 1)
    ensures t.work == s.work - {rid} && t.sessions.Keys == s.sessions.Keys
  {
    ComparedFills(s, peer, rid, a, b);
    es', t := StepOn(h, es, s, Delivered(rid));
  }

  /** A session opened, answered, and pumped. */
  lemma OpeningFills(h: Hash32, es: seq<Event>, s: State, peer: PeerId, a: BucketDigest, b: BucketDigest)
      returns (es': seq<Event>, t: State)
    requires Reaches(h, es, s) && peer !in s.sessions && |s.sessions| < MAX_SIMULTANEOUS_SYNC_PEERS
    ensures Reaches(h, es', t) && Filled(t, peer, s.nextId + 1, s.nextId + 2)
    ensures t.work == s.work && t.sessions.Keys == s.sessions.Keys + {peer}
  {
    var e1, s1 := Open(h, es, s, peer);
    var e2, s2 := Answer(h, e1, s1, s.nextId, peer, a, b);
    AddedAndTaken(s.work, s.nextId, InventoryCompared(peer, [a.start, b.start]));
    KeyAdded(s.sessions, peer, Session(0, [], {s.nextId}));
    es', t := Fill(h, e2, s2, peer, s.nextId, a.start, b.start);
  }

  lemma AddedAndTaken<K, V>(m: map<K, V>, k: K, v: V)
    requires k !in m
    ensures m[k := v] - {k} == m
  {
  }

  lemma KeyAdded<K, V>(m: map<K, V>, k: K, v: V)
    ensures m[k := v].Keys == m.Keys + {k}
  {
  }

  lemma OneMissing(id: RecordId)
    ensures Missing(None, [id], 0) == [id]
  {
    assert [id][1..] == [] && Without([id], {}) == [id];
  }

  /** One page answered with a missing id, its comparison ready, and the connection closed before it returns. */
  lemma StrandingLeavesWork(h: Hash32, es: seq<Event>, s: State, peer: PeerId, rid: Rid, other: Rid, id: RecordId)
      returns (es': seq<Event>, t: State)
    requires Reaches(h, es, s) && Filled(s, peer, rid, other)
    ensures Reaches(h, es', t) && t.sessions.Keys == s.sessions.Keys - {peer}
    ensures rid in t.work && t.work[rid].IdsCompared? && t.work[rid].peer == peer && t.work[rid].missing == [id]
  {
    var e1, s1 := StepOn(h, es, s, Replied(rid, IdsReply([id], None)));
    assert s1.work == s.work[rid := ReadIds(peer, s.pending[rid].bucket, [id], None)];
    var e2, s2 := StepOn(h, e1, s1, DatabaseRead(rid, None, 0));
    OneMissing(id);
    es', t := StepOn(h, e2, s2, Closed(peer));
  }

  lemma OverfillsOnDelivery(s: State, peer: PeerId, rid: Rid)
    requires Inv(s) && Enabled(s, Delivered(rid)) && s.work[rid].peer == peer
    requires s.work[rid].IdsCompared? && s.work[rid].missing != []
    requires peer in s.sessions && |s.sessions[peer].outstanding| == 2 && rid !in s.sessions[peer].outstanding
    ensures peer in Deliver(s, rid).sessions && |Deliver(s, rid).sessions[peer].outstanding| > 2
  {
    TakenKeepsCore(s, rid);
    var taken := Untrack(s.(work := s.work - {rid}), peer, rid);
    assert s.sessions[peer].outstanding - {rid} == s.sessions[peer].outstanding;
    FreshId(taken, peer);
    var w := s.work[rid];
    RequestMissingKeepsCore(taken, peer, w.missing);
    var asked := RequestMissing(taken, peer, w.missing);
    FollowCursorKeepsCore(asked, peer, w.bucket, w.next);
    PumpKeepsBound(FollowCursor(asked, peer, w.bucket, w.next), peer);
  }

  /** A session is filled while a comparison of an earlier session with its peer is still to return. */
  lemma Reopened(h: Hash32, peer: PeerId, a: BucketDigest, b: BucketDigest, id: RecordId)
      returns (es: seq<Event>, s: State, x: Rid)
    ensures Reaches(h, es, s) && Filled(s, peer, x, x + 1) && x > 1
    ensures 1 in s.work && s.work[1].IdsCompared? && s.work[1].peer == peer && s.work[1].missing == [id]
  {
    assert Reaches(h, [], IDLE);
    var e1, s1 := OpeningFills(h, [], IDLE, peer, a, b);
    var e2, s2 := StrandingLeavesWork(h, e1, s1, peer, 1, 2, id);
    assert |s2.sessions| == |s2.sessions.Keys|;
    assert 1 < s2.nextId;
    es, s := OpeningFills(h, e2, s2, peer, a, b);
    x := s2.nextId + 1;
  }

  /** A reachable session with three outstanding requests: a comparison outlives its session and returns to the
      next session with the same peer, which has no room left. */
  lemma StaleComparisonOverfills(h: Hash32, peer: PeerId, a: BucketDigest, b: BucketDigest, id: RecordId)
      returns (es: seq<Event>)
    ensures CanRun(h, IDLE, es) && peer in Run(h, IDLE, es).sessions
    ensures |Run(h, IDLE, es).sessions[peer].outstanding| > MAX_PENDING_SYNC_REQUESTS_PER_PEER
  {
    var before, s, x := Reopened(h, peer, a, b, id);
    OverfillsOnDelivery(s, peer, 1);
    var after, _ := StepOn(h, before, s, Delivered(1));
    es := after;
  }
}
