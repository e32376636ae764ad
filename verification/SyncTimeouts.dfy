/** When a session times out, and which event its minute is counted from. */
module SyncTimeouts {
  import opened Wrappers
  import opened Limits
  import opened Bytes
  import opened Queries
  import opened Sync

  // ----- One tick -----

  /** A tick removes exactly the sessions more than a minute old, leaves the others as they are, and drops the
      entries waited for from exactly the peers it removes. */
  lemma TickIsExact(h: Hash32, s: State, at: Instant, peer: PeerId)
    ensures var t := Step(h, s, Ticked(at));
            && (peer in t.sessions <==> peer in s.sessions && at <= s.sessions[peer].started + 60_000_000_000)
            && (peer in t.sessions ==> t.sessions[peer] == s.sessions[peer])
            && (forall rid :: rid in t.pending <==>
                  rid in s.pending && (s.pending[rid].peer in s.sessions ==> s.pending[rid].peer in t.sessions))
            && (forall rid :: rid in t.pending ==> t.pending[rid] == s.pending[rid])
            && t.inflight == s.inflight && t.work == s.work
  {
  }

  // ----- Where a session comes from -----

  /** The sessions of `t` are sessions of `s` with the same start. */
  ghost predicate KeepsStarts(s: State, t: State) {
    forall p :: p in t.sessions ==> p in s.sessions && t.sessions[p].started == s.sessions[p].started
  }

  lemma StartsTransitive(s: State, t: State, u: State)
    requires KeepsStarts(s, t) && KeepsStarts(t, u)
    ensures KeepsStarts(s, u)
  {
  }

  lemma SendKeepsStarts(s: State, peer: PeerId, request: Request, waiting: Pending)
    ensures KeepsStarts(s, SendTracked(s, peer, request, waiting))
  {
  }

  lemma QueueKeepsStarts(s: State, peer: PeerId, queue: seq<int>)
    ensures KeepsStarts(s, SetQueue(s, peer, queue))
  {
  }

  lemma UntrackKeepsStarts(s: State, t: State, peer: PeerId, rid: Rid)
    requires t.sessions == s.sessions
    ensures KeepsStarts(s, Untrack(t, peer, rid))
  {
  }

  lemma {:induction false} PumpKeepsStarts(s: State, peer: PeerId)
    ensures KeepsStarts(s, Pump(s, peer))
    decreases QueueLength(s, peer)
  {
    if peer in s.sessions && |s.sessions[peer].outstanding| < MAX_PENDING_SYNC_REQUESTS_PER_PEER
       && s.sessions[peer].queue != []
    {
      var queue := s.sessions[peer].queue;
      QueueKeepsStarts(s, peer, queue[1..]);
      SendKeepsStarts(SetQueue(s, peer, queue[1..]), peer, FirstPage(queue[0]), PendingIds(peer, queue[0]));
      StartsTransitive(s, SetQueue(s, peer, queue[1..]), PumpOne(s, peer));
      PumpKeepsStarts(PumpOne(s, peer), peer);
      StartsTransitive(s, PumpOne(s, peer), Pump(s, peer));
    }
  }

  lemma PumpedKeepsStarts(s: State, t: State, peer: PeerId)
    requires KeepsStarts(s, t)
    ensures KeepsStarts(s, Pump(t, peer))
  {
    PumpKeepsStarts(t, peer);
    StartsTransitive(s, t, Pump(t, peer));
  }

  lemma ReplyKeepsStarts(s: State, rid: Rid, response: Response)
    requires rid in s.inflight
    ensures KeepsStarts(s, Reply(s, rid, response))
  {
    if rid in s.pending {
      var (settled, peer, p) := (Settle(s, rid), s.inflight[rid].peer, s.pending[rid].peer);
      UntrackKeepsStarts(s, settled, peer, rid);
      PumpedKeepsStarts(s, Untrack(settled, peer, rid), peer);
      if response.RecordsReply? {
        UntrackKeepsStarts(s, settled, p, rid);
        PumpedKeepsStarts(s, Offer(Untrack(settled, p, rid), p, response.records), p);
      }
    }
  }

  lemma FollowKeepsStarts(s: State, peer: PeerId, bucket: int, next: Option<RecordId>)
    ensures KeepsStarts(s, FollowCursor(s, peer, bucket, next))
  {
    if next != None && peer in s.sessions {
      SendKeepsStarts(s, peer, GetRecordIds(bucket, next, MAX_IDS_PER_RESPONSE), PendingIds(peer, bucket));
      QueueKeepsStarts(s, peer, [bucket] + s.sessions[peer].queue);
    }
  }

  lemma DeliverKeepsStarts(s: State, rid: Rid)
    requires rid in s.work
    ensures KeepsStarts(s, Deliver(s, rid))
  {
    var taken := s.(work := s.work - {rid});
    var dropped := Untrack(taken, s.work[rid].peer, rid);
    UntrackKeepsStarts(s, taken, s.work[rid].peer, rid);
    match s.work[rid]
    case InventoryCompared(peer, buckets) =>
      QueueKeepsStarts(dropped, peer, buckets);
      StartsTransitive(s, dropped, SetQueue(dropped, peer, buckets));
      PumpedKeepsStarts(s, SetQueue(dropped, peer, buckets), peer);
    case IdsCompared(peer, bucket, missing, next) =>
      var asked := RequestMissing(dropped, peer, missing);
      SendKeepsStarts(dropped, peer, GetRecords(missing), PendingRecords(peer));
      StartsTransitive(s, dropped, asked);
      FollowKeepsStarts(asked, peer, bucket, next);
      StartsTransitive(s, asked, FollowCursor(asked, peer, bucket, next));
      PumpedKeepsStarts(s, FollowCursor(asked, peer, bucket, next), peer);
    case _ =>
  }

  /** No step moves the start of a session, and only starting one adds one. */
  lemma StepSessions(h: Hash32, s: State, e: Event, peer: PeerId)
    requires Enabled(s, e) && peer in Step(h, s, e).sessions
    ensures var started := Step(h, s, e).sessions[peer].started;
            if peer in s.sessions then started == s.sessions[peer].started else e == Started(peer, started)
  {
    match e
    case Started(_, _) =>
    case Replied(rid, response) => ReplyKeepsStarts(s, rid, response);
    case Failed(rid) => PumpKeepsStarts(Untrack(Settle(s, rid), s.inflight[rid].peer, rid), s.inflight[rid].peer);
    case DatabaseRead(_, _, _) =>
    case Delivered(rid) => DeliverKeepsStarts(s, rid);
    case Ticked(_) =>
    case Closed(_) =>
  }

  /** The peer has a session before and after each of the events. */
  ghost predicate AliveThroughout(h: Hash32, s: State, es: seq<Event>, peer: PeerId)
    requires CanRun(h, s, es)
    decreases |es|
  {
    peer in s.sessions && (es == [] || AliveThroughout(h, Step(h, s, es[0]), es[1..], peer))
  }

  lemma RunOfCons(h: Hash32, s: State, e: Event, rest: seq<Event>)
    requires Enabled(s, e) && CanRun(h, Step(h, s, e), rest)
    ensures CanRun(h, s, [e] + rest) && Run(h, s, [e] + rest) == Run(h, Step(h, s, e), rest)
  {
    assert ([e] + rest)[1..] == rest;
  }

  /** The run splits at the event that opened the session, or the session is older than the run. */
  ghost predicate OpenedIn(h: Hash32, s: State, es: seq<Event>, peer: PeerId, at: Instant, before: seq<Event>,
                           after: seq<Event>)
  {
    && es == before + [Started(peer, at)] + after
    && CanRun(h, s, before) && peer !in Run(h, s, before).sessions
    && var begun := Start(Run(h, s, before), peer, at);
       CanRun(h, begun, after) && AliveThroughout(h, begun, after, peer)
  }

  lemma {:induction false} SessionOrigin(h: Hash32, s: State, es: seq<Event>, peer: PeerId)
      returns (before: seq<Event>, after: seq<Event>)
    requires CanRun(h, s, es) && peer in Run(h, s, es).sessions
    ensures var at := Run(h, s, es).sessions[peer].started;
            || OpenedIn(h, s, es, peer, at, before, after)
            || (AliveThroughout(h, s, es, peer) && at == s.sessions[peer].started)
    decreases |es|
  {
    before, after := [], [];
    if es != [] {
      var s1 := Step(h, s, es[0]);
      var b, a := SessionOrigin(h, s1, es[1..], peer);
      var at := Run(h, s, es).sessions[peer].started;
      assert es == [es[0]] + es[1..];
      if OpenedIn(h, s1, es[1..], peer, at, b, a) {
        before, after := [es[0]] + b, a;
        OpenedLater(h, s, es, peer, at, b, a);
      } else {
        StepSessions(h, s, es[0], peer);
        if peer !in s.sessions {
          after := es[1..];
          assert es == before + [Started(peer, at)] + after;
        }
      }
    }
  }

  lemma OpenedLater(h: Hash32, s: State, es: seq<Event>, peer: PeerId, at: Instant, b: seq<Event>, a: seq<Event>)
    requires es != [] && Enabled(s, es[0]) && OpenedIn(h, Step(h, s, es[0]), es[1..], peer, at, b, a)
    ensures OpenedIn(h, s, es, peer, at, [es[0]] + b, a)
  {
    RunOfCons(h, s, es[0], b);
    SplitLater(es, b, Started(peer, at), a);
  }

  lemma SplitLater(es: seq<Event>, b: seq<Event>, opening: Event, a: seq<Event>)
    requires es != [] && es[1..] == b + [opening] + a
    ensures es == [es[0]] + b + [opening] + a
  {
    assert es == [es[0]] + es[1..];
  }

  /** A session that is alive has survived every tick since its opening, so each came within its minute. */
  lemma {:induction false} TicksAreInTime(h: Hash32, s: State, es: seq<Event>, peer: PeerId)
    requires CanRun(h, s, es) && AliveThroughout(h, s, es, peer)
    ensures forall e :: e in es && e.Ticked? ==> e.at <= s.sessions[peer].started + 60_000_000_000
    decreases |es|
  {
    if es != [] {
      StepSessions(h, s, es[0], peer);
      if es[0].Ticked? { TickIsExact(h, s, es[0].at, peer); }
      TicksAreInTime(h, Step(h, s, es[0]), es[1..], peer);
      assert es == [es[0]] + es[1..];
    }
  }

  /** In every reachable state the minute of a session is counted from the event that opened it: the run splits at
      that event, the session has lived ever since, no tick since came more than a minute after it, and the next
      such tick ends it. */
  lemma MinuteFromOpening(h: Hash32, es: seq<Event>, peer: PeerId) returns (before: seq<Event>, after: seq<Event>)
    requires CanRun(h, IDLE, es) && peer in Run(h, IDLE, es).sessions
    ensures var at := Run(h, IDLE, es).sessions[peer].started;
            && OpenedIn(h, IDLE, es, peer, at, before, after)
            && (forall e :: e in after && e.Ticked? ==> e.at <= at + 60_000_000_000)
            && (forall later: Instant :: peer in Step(h, Run(h, IDLE, es), Ticked(later)).sessions
                                         <==> later <= at + 60_000_000_000)
  {
    var at := Run(h, IDLE, es).sessions[peer].started;
    before, after := SessionOrigin(h, IDLE, es, peer);
    var begun := Start(Run(h, IDLE, before), peer, at);
    assert begun.sessions[peer].started == at;
    TicksAreInTime(h, begun, after, peer);
    forall later: Instant
      ensures peer in Step(h, Run(h, IDLE, es), Ticked(later)).sessions <==> later <= at + 60_000_000_000
    {
      TickIsExact(h, Run(h, IDLE, es), later, peer);
    }
  }
}
