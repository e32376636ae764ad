/** Coverage without waiting for the session to say it is over: once nothing is in flight or under comparison for
    the peer, the session has ended and everything inventoried is covered. */
module SyncQuiet {
  import opened Limits
  import opened Bytes
  import Store
  import opened Queries
  import opened Sync
  import opened SyncInvariants
  import opened SyncBounds
  import opened SyncCoverage

  /** Nothing the peer could still answer, and nothing being compared for it. */
  ghost predicate Quiet(s: State, peer: PeerId) {
    && (forall rid :: rid in s.inflight ==> s.inflight[rid].peer != peer)
    && (forall rid :: rid in s.work ==> s.work[rid].peer != peer)
  }

  /** A session always has something that can still happen: when nothing can, there is no session. */
  lemma QuietMeansFinished(s: State, peer: PeerId)
    requires Inv(s) && peer !in s.disconnecting
    ensures Quiet(s, peer) ==> peer !in s.sessions
  {
    if peer in s.sessions {
      var rid :| rid in s.sessions[peer].outstanding;
      assert Owned(s.pending, s.work, peer, rid);
      assert rid in s.pending ==> Awaited(s.pending, s.inflight, rid);
    }
  }

  lemma PumpDisconnectsNobody(s: State, peer: PeerId)
    requires Core(s)
    ensures Pump(s, peer).disconnecting == s.disconnecting
  {
    PumpKeepsCore(s, peer);
  }

  lemma ReplyDisconnectsOnlyOversized(s: State, rid: Rid, response: Response)
    requires Inv(s) && rid in s.inflight && (rid in s.pending ==> response.InBounds())
    ensures Reply(s, rid, response).disconnecting == s.disconnecting
  {
    if rid in s.pending {
      var dropped := Untrack(Settle(s, rid), s.inflight[rid].peer, rid);
      SettledKeepsCore(s, rid);
      assert Awaited(s.pending, s.inflight, rid);
      PumpDisconnectsNobody(dropped, s.inflight[rid].peer);
      if response.RecordsReply? {
        var offered := Offer(dropped, s.inflight[rid].peer, response.records);
        assert Tables(offered) && Sessions(offered);
        PumpDisconnectsNobody(offered, s.inflight[rid].peer);
      }
    }
  }

  /** A reply asks for the disconnection of nobody but the peer that sent it. */
  lemma ReplyDisconnectsSender(s: State, rid: Rid, response: Response, peer: PeerId)
    requires Inv(s) && rid in s.inflight && s.inflight[rid].peer != peer
    ensures peer in Reply(s, rid, response).disconnecting ==> peer in s.disconnecting
  {
    if rid in s.pending ==> response.InBounds() { ReplyDisconnectsOnlyOversized(s, rid, response); }
  }

  lemma DeliverDisconnectsNobody(s: State, rid: Rid)
    requires Inv(s) && Enabled(s, Delivered(rid))
    ensures Deliver(s, rid).disconnecting == s.disconnecting
  {
    DeliveringKeepsCore(s, rid);
    PumpDisconnectsNobody(Delivering(s, rid), s.work[rid].peer);
  }

  lemma FailDisconnectsNobody(s: State, rid: Rid)
    requires Inv(s) && rid in s.inflight
    ensures Fail(s, rid).disconnecting == s.disconnecting
  {
    SettledKeepsCore(s, rid);
    PumpDisconnectsNobody(Untrack(Settle(s, rid), s.inflight[rid].peer, rid), s.inflight[rid].peer);
  }

  /** An undisturbed step never asks for the honest peer's disconnection. */
  lemma HonestPeerStays(h: Hash32, s: State, e: Event, g: Goal)
    requires Inv(s) && Enabled(s, e) && Undisturbed(h, s, e, g) && g.peer !in s.disconnecting
    ensures g.peer !in Step(h, s, e).disconnecting
  {
    match e
    case Replied(rid, response) =>
      if s.inflight[rid].peer != g.peer {
        ReplyDisconnectsSender(s, rid, response, g.peer);
      } else {
        HonestInBounds(h, g.remote, g.now, s.inflight[rid].request);
        ReplyDisconnectsOnlyOversized(s, rid, response);
      }
    case Failed(rid) => FailDisconnectsNobody(s, rid);
    case Delivered(rid) => DeliverDisconnectsNobody(s, rid);
    case _ =>
  }

  lemma {:induction false} HonestPeerStaysOverRun(h: Hash32, w: World, xs: seq<Happening>, g: Goal)
    requires Inv(w.engine) && UndisturbedRun(h, w, xs, g) && g.peer !in w.engine.disconnecting
    ensures Inv(RunWorld(h, w, xs, g).engine) && g.peer !in RunWorld(h, w, xs, g).engine.disconnecting
    decreases |xs|
  {
    if xs != [] {
      if xs[0].Engine? {
        StepKeepsInv(h, w.engine, xs[0].event);
        HonestPeerStays(h, w.engine, xs[0].event, g);
      }
      HonestPeerStaysOverRun(h, Next(h, w, xs[0]), xs[1..], g);
    }
  }

  /** End-to-end coverage at rest. However an undisturbed run that began by opening the session is interleaved,
      once nothing is in flight to the peer or being compared for it, the session is over and the record is held
      locally or was, since the opening, passed to `accept_sync_records`. */
  lemma QuietPeerIsCovered(h: Hash32, w: World, g: Goal, now: Instant, xs: seq<Happening>)
    requires Sought(h, g) && Inv(w.engine) && (forall id :: id in w.local ==> w.local[id].id == id)
    requires g.peer !in w.engine.sessions && |w.engine.sessions| < MAX_SIMULTANEOUS_SYNC_PEERS
    requires g.peer !in w.engine.disconnecting
    requires UndisturbedRun(h, Opened(w, g.peer, now), xs, g)
    ensures var end := RunWorld(h, Opened(w, g.peer, now), xs, g);
            Quiet(end.engine, g.peer) ==>
              g.peer !in end.engine.sessions && (g.id in end.local || (g.peer, g.id) in end.engine.offered)
  {
    OffersDoNotMatter(w.engine);
    StartKeepsInv(w.engine.(offered := {}), g.peer, now);
    HonestPeerStaysOverRun(h, Opened(w, g.peer, now), xs, g);
    FinishedSessionCovers(h, w, g, now, xs);
    QuietMeansFinished(RunWorld(h, Opened(w, g.peer, now), xs, g).engine, g.peer);
  }

  // ----- The hypotheses can be met -----

  /** A table of one record that never expires. */
  function OneRecord(id: RecordId): Store.Records {
    map[id := Store.Record(id, Store.Peer(0), 0, 0, 1, 0, 0)]
  }

  lemma OneRecordDay(id: RecordId)
    ensures forall day :: DayIds(OneRecord(id), 0, day) == if day == 0 then {id} else {}
    ensures Days(OneRecord(id), 0) == {0}
  {
    var records := OneRecord(id);
    assert BucketOf(0) == 0;
    assert Store.Active(records, id, 0);
    forall day
      ensures DayIds(records, 0, day) == if day == 0 then {id} else {}
    {
      assert forall i :: i in DayIds(records, 0, day) <==> i == id && day == 0;
    }
  }

  /** The identity is an injective digest, and a single record under any id but the all-zero one can be sought. */
  lemma SoughtIsPossible(peer: PeerId, id: RecordId)
    requires id != ZERO_ID
    ensures Sought((bytes: seq<Byte>) => bytes, Goal(peer, OneRecord(id), 0, 0, id))
  {
    var h: Hash32 := (bytes: seq<Byte>) => bytes;
    var records := OneRecord(id);
    OneRecordDay(id);
    SmallDayLeads(records, 0, 0);
    EveryDayInventoried(h, records, 0, id);
  }
}
