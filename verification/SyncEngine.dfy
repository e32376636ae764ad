/** The synchronization handlers of src/network/swarm.rs in their own form: an object whose maps they update,
    each proved against the step function of Sync. */
module SyncEngine {
  import opened Wrappers
  import opened Limits
  import opened Bytes
  import opened Queries
  import opened Sync
  import Store

  class Actor {
    var pendingSync: map<Rid, Pending>
    var syncSessions: map<PeerId, Session>

    // The network and the blocking tasks, as far as the handlers see them.
    var work: map<Rid, Work>
    var inflight: map<Rid, Sent>
    var nextId: Rid
    var disconnecting: set<PeerId>
    var log: seq<Sent>
    var offered: set<(PeerId, RecordId)>

    function View(): State
      reads this
    {
      State(pendingSync, syncSessions, work, inflight, nextId, disconnecting, log, offered)
    }

    constructor ()
      ensures View() == IDLE
    {
      pendingSync, syncSessions := map[], map[];
      work, inflight, nextId := map[], map[], 0;
      disconnecting, log, offered := {}, [], {};
    }

    method SendRequest(peer: PeerId, request: Request, waiting: Pending) returns (id: Rid)
      modifies this
      ensures id == old(nextId)
      ensures View() == Send(old(View()), peer, request, waiting)
    {
      id := nextId;
      inflight := inflight[id := Sent(peer, request)];
      nextId := nextId + 1;
      log := log + [Sent(peer, request)];
      pendingSync := pendingSync[id := waiting];
    }

    method InsertOutstanding(peer: PeerId, id: Rid)
      modifies `syncSessions
      ensures View() == Track(old(View()), peer, id)
    {
      if peer in syncSessions {
        var session := syncSessions[peer];
        syncSessions := syncSessions[peer := session.(outstanding := session.outstanding + {id})];
      }
    }

    method RemoveOutstanding(peer: PeerId, id: Rid)
      modifies `syncSessions
      ensures View() == Untrack(old(View()), peer, id)
    {
      if peer in syncSessions {
        var session := syncSessions[peer];
        syncSessions := syncSessions[peer := session.(outstanding := session.outstanding - {id})];
      }
    }

    method StartSync(peer: PeerId, now: Instant)
      modifies this
      ensures View() == Start(old(View()), peer, now)
    {
      if peer in syncSessions || |syncSessions| >= MAX_SIMULTANEOUS_SYNC_PEERS {
        return;
      }
      var id := SendRequest(peer, GetInventory, PendingInventory(peer));
      syncSessions := syncSessions[peer := Session(now, [], {id})];
    }

    method FinishSync(peer: PeerId)
      modifies `syncSessions
      ensures View() == Finish(old(View()), peer)
    {
      syncSessions := syncSessions - {peer};
    }

    method PumpSync(peer: PeerId)
      modifies this
      ensures View() == Pump(old(View()), peer)
    {
      while true
        invariant Pump(View(), peer) == Pump(old(View()), peer)
        decreases QueueLength(View(), peer)
      {
        if peer !in syncSessions || |syncSessions[peer].outstanding| >= MAX_PENDING_SYNC_REQUESTS_PER_PEER {
          return;
        }
        ghost var before := View();
        var session := syncSessions[peer];
        if session.queue == [] {
          if session.outstanding == {} {
            FinishSync(peer);
          }
          return;
        }
        var bucket := session.queue[0];
        syncSessions := syncSessions[peer := session.(queue := session.queue[1..])];
        var id := SendRequest(peer, FirstPage(bucket), PendingIds(peer, bucket));
        InsertOutstanding(peer, id);
        assert View() == PumpOne(before, peer);
      }
    }

    method HandleOutboundFailure(id: Rid)
      requires id in inflight
      modifies this
      ensures View() == Fail(old(View()), id)
    {
      var peer := inflight[id].peer;
      inflight := inflight - {id};
      pendingSync := pendingSync - {id};
      RemoveOutstanding(peer, id);
      PumpSync(peer);
    }

    method HandleRecords(id: Rid, peer: PeerId, records: seq<Store.Record>)
      modifies this
      ensures View() == Pump(Offer(Untrack(old(View()), peer, id), peer, records), peer)
    {
      RemoveOutstanding(peer, id);
      offered := offered + set r | r in records :: (peer, r.id);
      PumpSync(peer);
    }

    method HandleSyncResponse(id: Rid, response: Response)
      requires id in inflight
      modifies this
      ensures View() == Reply(old(View()), id, response)
    {
      var peer := inflight[id].peer;
      inflight := inflight - {id};
      if id !in pendingSync {
        assert pendingSync - {id} == pendingSync;
        return;
      }
      var pending := pendingSync[id];
      pendingSync := pendingSync - {id};
      if !response.InBounds() {
        RemoveOutstanding(peer, id);
        disconnecting := disconnecting + {peer};
        return;
      }
      match (pending, response)
      case (PendingInventory(p), InventoryReply(remote)) =>
        work := work[id := ReadInventory(p, remote)];
      case (PendingIds(p, bucket), IdsReply(ids, next)) =>
        work := work[id := ReadIds(p, bucket, ids, next)];
      case (PendingRecords(p), RecordsReply(records)) => HandleRecords(id, p, records);
      case _ => EndRequest(id, peer);
    }

    method EndRequest(id: Rid, peer: PeerId)
      modifies this
      ensures View() == Pump(Untrack(old(View()), peer, id), peer)
    {
      RemoveOutstanding(peer, id);
      PumpSync(peer);
    }

    /** A blocking task reads the database and hands its action over. */
    method RunComparison(h: Hash32, id: Rid, local: Option<Store.Records>, now: int)
      requires id in work
      modifies `work
      ensures View() == Read(h, old(View()), id, local, now)
    {
      match work[id]
      case ReadInventory(peer, remote) =>
        work := work[id := InventoryCompared(peer, DifferingBuckets(LocalBuckets(h, local, now), remote))];
      case ReadIds(peer, bucket, ids, next) =>
        var existing := Existing(local, ids, now);
        var missing := Without(ids, existing);
        if |missing| > MAX_REQUESTED_RECORDS {
          missing := missing[..MAX_REQUESTED_RECORDS];
        }
        assert missing == Missing(local, ids, now);
        work := work[id := IdsCompared(peer, bucket, missing, next)];
      case _ =>
        assert work[id := work[id]] == work;
    }

    method HandleInventoryCompared(id: Rid, peer: PeerId, buckets: seq<int>)
      modifies this
      ensures View() == Pump(SetQueue(Untrack(old(View()), peer, id), peer, buckets), peer)
    {
      RemoveOutstanding(peer, id);
      if peer in syncSessions {
        syncSessions := syncSessions[peer := syncSessions[peer].(queue := buckets)];
      }
      PumpSync(peer);
    }

    method FollowCursor(peer: PeerId, bucket: int, next: Option<RecordId>)
      modifies this
      ensures View() == Sync.FollowCursor(old(View()), peer, bucket, next)
    {
      if next.Some? && peer in syncSessions {
        var session := syncSessions[peer];
        if |session.outstanding| < MAX_PENDING_SYNC_REQUESTS_PER_PEER {
          var request := SendRequest(peer, GetRecordIds(bucket, next, MAX_IDS_PER_RESPONSE), PendingIds(peer, bucket));
          InsertOutstanding(peer, request);
        } else {
          syncSessions := syncSessions[peer := session.(queue := [bucket] + session.queue)];
        }
      }
    }

    method HandleIdsCompared(id: Rid, peer: PeerId, bucket: int, missing: seq<RecordId>, next: Option<RecordId>)
      modifies this
      ensures View()
              == Pump(Sync.FollowCursor(RequestMissing(Untrack(old(View()), peer, id), peer, missing),
                                        peer, bucket, next), peer)
    {
      RemoveOutstanding(peer, id);
      if missing != [] {
        var request := SendRequest(peer, GetRecords(missing), PendingRecords(peer));
        InsertOutstanding(peer, request);
      }
      FollowCursor(peer, bucket, next);
      PumpSync(peer);
    }

    method HandleDbAction(id: Rid)
      requires id in work && (work[id].InventoryCompared? || work[id].IdsCompared?)
      modifies this
      ensures View() == Deliver(old(View()), id)
    {
      var action := work[id];
      work := work - {id};
      match action
      case InventoryCompared(peer, buckets) => HandleInventoryCompared(id, peer, buckets);
      case IdsCompared(peer, bucket, missing, next) => HandleIdsCompared(id, peer, bucket, missing, next);
    }

    method ForgetPeer(peer: PeerId)
      modifies this
      ensures View() == Abandon(old(View()), {peer})
    {
      pendingSync := map id | id in pendingSync && pendingSync[id].peer != peer :: pendingSync[id];
      FinishSync(peer);
    }

    /** The timeout part of `update_snapshot`. */
    method ExpireSessions(now: Instant)
      modifies this
      ensures View() == Tick(old(View()), now)
    {
      var timedOut := set p | p in syncSessions
                              && Since(now, syncSessions[p].started) > MAX_SYNC_DURATION_SECS * 1_000_000_000;
      assert timedOut == TimedOut(View(), now);
      ghost var gone: set<PeerId> := {};
      NobodyAbandoned(View());
      while timedOut != {}
        invariant gone + timedOut == TimedOut(old(View()), now)
        invariant View() == Abandon(old(View()), gone)
        decreases |timedOut|
      {
        var peer :| peer in timedOut;
        ForgetPeer(peer);
        AbandonOneMore(old(View()), gone, peer);
        timedOut := timedOut - {peer};
        gone := gone + {peer};
      }
    }

    /** The cleanup when the last connection to a peer closes. */
    method ConnectionClosed(peer: PeerId)
      modifies this
      ensures View() == Close(old(View()), peer)
    {
      ForgetPeer(peer);
      disconnecting := disconnecting - {peer};
    }
  }

  lemma NobodyAbandoned(s: State)
    ensures Abandon(s, {}) == s
  {
    assert s.sessions - {} == s.sessions;
  }

  /** Abandoning peers one by one abandons them all. */
  lemma AbandonOneMore(s: State, peers: set<PeerId>, peer: PeerId)
    ensures Abandon(Abandon(s, peers), {peer}) == Abandon(s, peers + {peer})
  {
    assert s.sessions - (peers + {peer}) == s.sessions - peers - {peer};
  }
}
