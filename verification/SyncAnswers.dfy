/** What the engine asks of its peers, in numbers, and which answers make it ask for a disconnection. */
module SyncAnswers {
  import opened Limits
  import opened Queries
  import opened Sync
  import opened SyncInvariants

  // ----- Requests -----

  /** In every reachable state each request ever sent is for an inventory, for pages of 1 to 2,000 ids, or for 1 to
      256 records: a peer that validates requests refuses none of them. */
  lemma EveryRequestIsLawful(h: Hash32, es: seq<Event>, i: nat)
    requires CanRun(h, IDLE, es) && i < |Run(h, IDLE, es).log|
    ensures match Run(h, IDLE, es).log[i].request
            case GetInventory => true
            case GetRecordIds(_, _, limit) => 1 <= limit <= 2_000
            case GetRecords(ids) => 1 <= |ids| <= 256
  {
    ReachableStatesDoNotStall(h, es);
  }

  // ----- Disconnections -----

  /** An answer of more than 366 buckets, 2,000 ids or 256 records. */
  predicate Oversized(response: Response) {
    match response
    case InventoryReply(buckets) => |buckets| > 366
    case IdsReply(ids, _) => |ids| > 2_000
    case RecordsReply(records) => |records| > 256
    case Busy => false
    case Refused => false
  }

  lemma {:induction false} PumpDisconnectsNobody(s: State, peer: PeerId)
    ensures Pump(s, peer).disconnecting == s.disconnecting
    decreases QueueLength(s, peer)
  {
    if peer in s.sessions && |s.sessions[peer].outstanding| < MAX_PENDING_SYNC_REQUESTS_PER_PEER
       && s.sessions[peer].queue != []
    {
      PumpDisconnectsNobody(PumpOne(s, peer), peer);
    }
  }

  /** A reply marks its peer for disconnection exactly when it is waited for and oversized. */
  lemma ReplyDisconnects(s: State, rid: Rid, response: Response)
    requires rid in s.inflight
    ensures Reply(s, rid, response).disconnecting
            == if rid in s.pending && Oversized(response) then s.disconnecting + {s.inflight[rid].peer}
               else s.disconnecting
  {
    if rid in s.pending {
      var (settled, peer, p) := (Settle(s, rid), s.inflight[rid].peer, s.pending[rid].peer);
      PumpDisconnectsNobody(Untrack(settled, peer, rid), peer);
      if response.RecordsReply? {
        PumpDisconnectsNobody(Offer(Untrack(settled, p, rid), p, response.records), p);
      }
    }
  }

  lemma DeliverDisconnectsNobody(s: State, rid: Rid)
    requires rid in s.work
    ensures Deliver(s, rid).disconnecting == s.disconnecting
  {
    var taken := s.(work := s.work - {rid});
    match s.work[rid]
    case InventoryCompared(peer, buckets) =>
      PumpDisconnectsNobody(SetQueue(Untrack(taken, peer, rid), peer, buckets), peer);
    case IdsCompared(peer, bucket, missing, next) =>
      var asked := RequestMissing(Untrack(taken, peer, rid), peer, missing);
      PumpDisconnectsNobody(FollowCursor(asked, peer, bucket, next), peer);
    case _ =>
  }

  /** The peers a run has marked for disconnection and whose last connection has not closed since. */
  function Marked(h: Hash32, s: State, es: seq<Event>, marked: set<PeerId>): set<PeerId>
    requires CanRun(h, s, es)
    decreases |es|
  {
    if es == [] then marked
    else
      var next := match es[0]
                  case Replied(rid, response) =>
                    if rid in s.pending && Oversized(response) then marked + {s.inflight[rid].peer} else marked
                  case Closed(peer) => marked - {peer}
                  case _ => marked;
      Marked(h, Step(h, s, es[0]), es[1..], next)
  }

  lemma StepDisconnects(h: Hash32, s: State, e: Event)
    requires Enabled(s, e)
    ensures Step(h, s, e).disconnecting
            == match e
               case Replied(rid, response) =>
                 if rid in s.pending && Oversized(response) then s.disconnecting + {s.inflight[rid].peer}
                 else s.disconnecting
               case Closed(peer) => s.disconnecting - {peer}
               case _ => s.disconnecting
  {
    match e
    case Replied(rid, response) => ReplyDisconnects(s, rid, response);
    case Failed(rid) =>
      PumpDisconnectsNobody(Untrack(Settle(s, rid), s.inflight[rid].peer, rid), s.inflight[rid].peer);
    case Delivered(rid) => DeliverDisconnectsNobody(s, rid);
    case _ =>
  }

  /** A peer is to be disconnected exactly when it gave an oversized answer that was waited for and its last
      connection has not closed since: not for being busy, refusing, failing or answering something else. */
  lemma {:induction false} DisconnectsExactly(h: Hash32, s: State, es: seq<Event>)
    requires CanRun(h, s, es)
    ensures Run(h, s, es).disconnecting == Marked(h, s, es, s.disconnecting)
    decreases |es|
  {
    if es != [] {
      StepDisconnects(h, s, es[0]);
      DisconnectsExactly(h, Step(h, s, es[0]), es[1..]);
    }
  }
}
