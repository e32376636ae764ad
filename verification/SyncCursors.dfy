/** What page cursors do to a session: when one is followed, when it is lost, and that without a bound on them
    there is none on the session. */
module SyncCursors {
  import opened Wrappers
  import opened Limits
  import opened Bytes
  import opened Queries
  import opened Sync
  import opened SyncInvariants
  import opened SyncBounds
  import opened SyncProgress
  import opened SyncTimeouts
  import opened SyncStale

  predicate PageReturns(s: State, rid: Rid) {
    rid in s.work && s.work[rid].IdsCompared? && s.work[rid].next != None && s.work[rid].peer in s.sessions
  }

  /** The page request that continues after the cursor. */
  function NextPage(w: Work): Sent
    requires w.IdsCompared?
  {
    Sent(w.peer, GetRecordIds(w.bucket, w.next, MAX_IDS_PER_RESPONSE))
  }

  /** A page's cursor is followed exactly when the session has room for one more request after the page's own
      request is settled and the missing records are asked for; otherwise the cursor is dropped and the bucket
      is at the head of the queue again, to be read from its first page. */
  lemma CursorIsFollowedExactly(s: State, rid: Rid)
    requires Inv(s) && PageReturns(s, rid)
    ensures var w := s.work[rid];
            var others := s.sessions[w.peer].outstanding - {rid};
            var room := |others| + (if w.missing != [] then 1 else 0) < MAX_PENDING_SYNC_REQUESTS_PER_PEER;
            var t := Deliver(s, rid);
            && s.log <= t.log
            && (room <==> NextPage(w) in t.log[|s.log|..])
            && (!room ==> w.peer in t.sessions
                          && t.sessions[w.peer].queue == [w.bucket] + s.sessions[w.peer].queue)
  {
    var w := s.work[rid];
    TakenKeepsCore(s, rid);
    var taken := Untrack(s.(work := s.work - {rid}), w.peer, rid);
    AskedHasRoom(taken, w.peer, w.missing);
    FollowedExactly(RequestMissing(taken, w.peer, w.missing), w);
    PrefixOfPrefix(s.log, RequestMissing(taken, w.peer, w.missing).log, Deliver(s, rid).log, NextPage(w));
  }

  lemma AskedHasRoom(taken: State, peer: PeerId, missing: seq<RecordId>)
    requires Core(taken) && peer in taken.sessions
    ensures var asked := RequestMissing(taken, peer, missing);
            && peer in asked.sessions && asked.sessions[peer].queue == taken.sessions[peer].queue
            && |asked.sessions[peer].outstanding|
               == |taken.sessions[peer].outstanding| + (if missing != [] then 1 else 0)
            && asked.log == taken.log + if missing == [] then [] else [Sent(peer, GetRecords(missing))]
  {
    FreshId(taken, peer);
  }

  lemma FollowedExactly(asked: State, w: Work)
    requires w.IdsCompared? && w.next != None && w.peer in asked.sessions
    ensures var t := Pump(FollowCursor(asked, w.peer, w.bucket, w.next), w.peer);
            var room := |asked.sessions[w.peer].outstanding| < MAX_PENDING_SYNC_REQUESTS_PER_PEER;
            && asked.log <= t.log
            && (room <==> NextPage(w) in t.log[|asked.log|..])
            && (!room ==> w.peer in t.sessions
                          && t.sessions[w.peer].queue == [w.bucket] + asked.sessions[w.peer].queue)
  {
    var followed := FollowCursor(asked, w.peer, w.bucket, w.next);
    var t := Pump(followed, w.peer);
    PumpSendsFirstPages(followed, w.peer, NextPage(w));
    if |asked.sessions[w.peer].outstanding| < MAX_PENDING_SYNC_REQUESTS_PER_PEER {
      assert followed.log == asked.log + [NextPage(w)];
      assert t.log[|asked.log|..][0] == NextPage(w);
    }
  }

  /** What lies between two prefixes is not the page. */
  lemma PrefixOfPrefix(a: seq<Sent>, b: seq<Sent>, c: seq<Sent>, page: Sent)
    requires a <= b <= c && (forall k :: |a| <= k < |b| ==> b[k] != page)
    ensures page in c[|a|..] <==> page in c[|b|..]
  {
    if page in c[|a|..] {
      var k :| 0 <= k < |c| - |a| && c[|a|..][k] == page;
      assert c[|a| + k] == page && c[|b|..][|a| + k - |b|] == page;
    }
    if page in c[|b|..] {
      var k :| 0 <= k < |c| - |b| && c[|b|..][k] == page;
      assert c[|a|..][|b| + k - |a|] == page;
    }
  }

  /** `pump_sync` sends first pages only, after everything sent before. */
  lemma {:induction false} PumpSendsFirstPages(s: State, peer: PeerId, sent: Sent)
    requires sent.request.GetRecordIds? && sent.request.cursor != None
    ensures s.log <= Pump(s, peer).log
    ensures forall k :: |s.log| <= k < |Pump(s, peer).log| ==> Pump(s, peer).log[k] != sent
    ensures peer in s.sessions && |s.sessions[peer].outstanding| >= MAX_PENDING_SYNC_REQUESTS_PER_PEER
            ==> Pump(s, peer) == s
    decreases QueueLength(s, peer)
  {
    if peer in s.sessions && |s.sessions[peer].outstanding| < MAX_PENDING_SYNC_REQUESTS_PER_PEER
       && s.sessions[peer].queue != []
    {
      PumpSendsFirstPages(PumpOne(s, peer), peer, sent);
    }
  }

  // ----- Cursors without end -----

  /** The session waits for one page and nothing else. */
  predicate AwaitsPage(s: State, peer: PeerId, rid: Rid) {
    && peer in s.sessions && s.sessions[peer].queue == [] && s.sessions[peer].outstanding == {rid}
    && rid in s.pending && s.pending[rid].PendingIds? && s.pending[rid].peer == peer
    && rid in s.inflight && s.inflight[rid].peer == peer
  }

  /** One answer that is empty but for a cursor, the comparison it causes, and the comparison's return. */
  function Cycle(rid: Rid, cursor: RecordId): seq<Event> {
    [Replied(rid, IdsReply([], Some(cursor))), DatabaseRead(rid, None, 0), Delivered(rid)]
  }

  lemma CursorAnswered(h: Hash32, s: State, peer: PeerId, rid: Rid, cursor: RecordId)
    requires AwaitsPage(s, peer, rid)
    ensures var t := Read(h, Reply(s, rid, IdsReply([], Some(cursor))), rid, None, 0);
            t == Settle(s, rid).(work := s.work[rid := IdsCompared(peer, s.pending[rid].bucket, [], Some(cursor))])
  {
    var w := ReadIds(peer, s.pending[rid].bucket, [], Some(cursor));
    assert Reply(s, rid, IdsReply([], Some(cursor))).work == s.work[rid := w];
    assert Compare(h, w, None, 0) == IdsCompared(peer, s.pending[rid].bucket, [], Some(cursor));
  }

  lemma CursorFollowed(s: State, peer: PeerId, rid: Rid, bucket: int, cursor: RecordId)
    requires rid in s.work && s.work[rid] == IdsCompared(peer, bucket, [], Some(cursor))
    requires peer in s.sessions && s.sessions[peer].queue == [] && s.sessions[peer].outstanding == {rid}
    ensures AwaitsPage(Deliver(s, rid), peer, s.nextId)
    ensures Deliver(s, rid).log == s.log + [Sent(peer, GetRecordIds(bucket, Some(cursor), MAX_IDS_PER_RESPONSE))]
  {
    var taken := Untrack(s.(work := s.work - {rid}), peer, rid);
    assert taken.sessions[peer].outstanding == {};
    var followed := FollowCursor(taken, peer, bucket, Some(cursor));
    assert followed.sessions[peer].outstanding == {s.nextId};
    assert Pump(followed, peer) == followed;
  }

  lemma CycleAwaitsAgain(h: Hash32, s: State, peer: PeerId, rid: Rid, cursor: RecordId)
    requires Inv(s) && AwaitsPage(s, peer, rid)
    ensures Enabled(s, Cycle(rid, cursor)[0])
    ensures var s1 := Step(h, s, Cycle(rid, cursor)[0]);
            && Enabled(s1, Cycle(rid, cursor)[1])
            && var s2 := Step(h, s1, Cycle(rid, cursor)[1]);
            && Enabled(s2, Cycle(rid, cursor)[2]) && ReachesAsker(s2, rid)
            && BringsCursor(s2, Cycle(rid, cursor)[2], peer)
            && var s3 := Step(h, s2, Cycle(rid, cursor)[2]);
            && AwaitsPage(s3, peer, s.nextId) && Inv(s3)
            && s3.log == s.log + [Sent(peer, GetRecordIds(s.pending[rid].bucket, Some(cursor), MAX_IDS_PER_RESPONSE))]
  {
    var es := Cycle(rid, cursor);
    CursorAnswered(h, s, peer, rid, cursor);
    var s1 := Step(h, s, es[0]);
    StepKeepsInv(h, s, es[0]);
    assert s1.work[rid] == ReadIds(peer, s.pending[rid].bucket, [], Some(cursor));
    var s2 := Step(h, s1, es[1]);
    StepKeepsInv(h, s1, es[1]);
    CursorFollowed(s2, peer, rid, s.pending[rid].bucket, cursor);
    StepKeepsInv(h, s2, es[2]);
  }

  lemma RunOfOne(h: Hash32, s: State, e: Event, rest: seq<Event>, peer: PeerId)
    requires Enabled(s, e) && CanRun(h, Step(h, s, e), rest)
    ensures var es := [e] + rest;
            && CanRun(h, s, es) && Run(h, s, es) == Run(h, Step(h, s, e), rest)
            && CursorsIn(h, s, es, peer)
               == (if BringsCursor(s, e, peer) then 1 else 0) + CursorsIn(h, Step(h, s, e), rest, peer)
            && (ComparisonsReachAskers(h, s, es)
                <==> (e.Delivered? ==> ReachesAsker(s, e.rid)) && ComparisonsReachAskers(h, Step(h, s, e), rest))
  {
    assert ([e] + rest)[1..] == rest;
  }

  /** A peer that keeps answering with cursors keeps a session going for as long as it likes: for every `n`
      some run of the session's own events, all reaching the session that asked, brings it `n` cursors, sends
      `n` more requests and leaves the session alive. Only the timeout ends it. */
  lemma {:induction false} CursorsNeverEnd(h: Hash32, s: State, peer: PeerId, rid: Rid, cursor: RecordId, n: nat)
      returns (es: seq<Event>)
    requires Inv(s) && AwaitsPage(s, peer, rid)
    ensures CanRun(h, s, es) && peer in Run(h, s, es).sessions
    ensures |Run(h, s, es).log| == |s.log| + n && CursorsIn(h, s, es, peer) == n
    ensures ComparisonsReachAskers(h, s, es)
    ensures forall e :: e in es ==> e.Replied? || e.DatabaseRead? || e.Delivered?
    decreases n
  {
    es := [];
    if n > 0 {
      var cycle := Cycle(rid, cursor);
      CycleAwaitsAgain(h, s, peer, rid, cursor);
      var s1 := Step(h, s, cycle[0]);
      var s2 := Step(h, s1, cycle[1]);
      var s3 := Step(h, s2, cycle[2]);
      es := CursorsNeverEnd(h, s3, peer, s.nextId, cursor, n - 1);
      RunOfOne(h, s2, cycle[2], es, peer);
      es := [cycle[2]] + es;
      RunOfOne(h, s1, cycle[1], es, peer);
      es := [cycle[1]] + es;
      RunOfOne(h, s, cycle[0], es, peer);
      es := [cycle[0]] + es;
    }
  }

  lemma FailedLeavesOne(s: State, peer: PeerId, x: Rid, y: Rid)
    requires Filled(s, peer, x, y)
    ensures AwaitsPage(Fail(s, y), peer, x)
  {
    var dropped := Untrack(Settle(s, y), peer, y);
    assert {x, y} - {y} == {x};
    assert Pump(dropped, peer) == dropped;
  }

  lemma {:induction false} RunConcat(h: Hash32, s: State, a: seq<Event>, b: seq<Event>)
    requires CanRun(h, s, a) && CanRun(h, Run(h, s, a), b)
    ensures CanRun(h, s, a + b) && Run(h, s, a + b) == Run(h, Run(h, s, a), b)
    decreases |a|
  {
    if a == [] {
      assert a + b == b;
    } else {
      assert (a + b)[0] == a[0] && (a + b)[1..] == a[1..] + b;
      RunConcat(h, Step(h, s, a[0]), a[1..], b);
    }
  }

  /** Such a session is reached from nothing: a run of the idle engine opens it and leaves it waiting for one
      page, and for every `n` it then goes on, in its own events alone, through `n` cursors and `n` more requests
      and is still alive. What ends it is the first tick more than a minute after its opening, and no earlier one. */
  lemma EndlessSession(h: Hash32, peer: PeerId, a: BucketDigest, b: BucketDigest, cursor: RecordId, n: nat)
      returns (opening: seq<Event>, rest: seq<Event>, at: Instant)
    ensures CanRun(h, IDLE, opening) && AwaitsPage(Run(h, IDLE, opening), peer, 1)
    ensures var s := Run(h, IDLE, opening);
            && CanRun(h, s, rest) && (forall e :: e in rest ==> e.Replied? || e.DatabaseRead? || e.Delivered?)
            && CursorsIn(h, s, rest, peer) == n && |Run(h, s, rest).log| == |s.log| + n
            && peer in Run(h, s, rest).sessions && ComparisonsReachAskers(h, s, rest)
    ensures CanRun(h, IDLE, opening + rest)
            && Run(h, IDLE, opening + rest) == Run(h, Run(h, IDLE, opening), rest)
    ensures Started(peer, at) in opening
    ensures forall later: Instant :: peer in Step(h, Run(h, IDLE, opening + rest), Ticked(later)).sessions
                                     <==> later <= at + 60_000_000_000
  {
    var e1, s1 := OpeningFills(h, [], IDLE, peer, a, b);
    FailedLeavesOne(s1, peer, 1, 2);
    var s2;
    opening, s2 := StepOn(h, e1, s1, Failed(2));
    rest := CursorsNeverEnd(h, s2, peer, 1, cursor, n);
    RunConcat(h, IDLE, opening, rest);
    at := Run(h, IDLE, opening + rest).sessions[peer].started;
    var before, after := MinuteFromOpening(h, opening + rest, peer);
    assert Started(peer, at) in before + [Started(peer, at)] + after;
  }
}
