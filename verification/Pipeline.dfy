/** From gossip to disk: the intake handlers of src/network/swarm.rs on values. */
module Pipeline {
  import opened Wrappers
  import opened Limits
  import Store
  import Replay
  import opened Persistence

  datatype Acceptance = Accept | Ignore | Reject

  datatype Verdict = Verdict(token: Token, acceptance: Acceptance)

  /** What blocking, rate limits and record validation make of a gossip message. */
  datatype Screening =
    | Refused
    | Malformed
    | Wellformed(record: Store.Record, sourceAllowed: bool)

  /** A record of a synchronization response, with the answers of validation and of the source's rate limit. */
  datatype Item = Item(record: Store.Record, valid: bool, sourceAllowed: bool, now: Instant)

  datatype Engine = Engine(
    replay: Replay.State,
    safetyMode: bool,
    queue: seq<Request>,
    delivered: seq<Token>,   // history: every gossip message delivered
    verdicts: seq<Verdict>)  // history: every verdict reported
  {
    function Report(token: Option<Token>, acceptance: Acceptance): Engine {
      if token.Some? then this.(verdicts := verdicts + [Verdict(token.value, acceptance)]) else this
    }

    predicate HasSpace() { |queue| < PERSISTENCE_QUEUE_CAPACITY }

    function Enqueue(r: Request, now: Instant): Engine {
      this.(queue := queue + [r], replay := replay.MarkPending(r.record.id, now))
    }
  }

  // ----- validate_gossip -----

  function ValidateGossip(e: Engine, token: Token, source: PeerId, screening: Screening, now: Instant): (f: Engine)
    requires e.replay.modulus > 0
    ensures f.replay.modulus == e.replay.modulus
  {
    var e := e.(delivered := e.delivered + [token]);
    if e.safetyMode || !screening.Wellformed? then e.Report(Some(token), Reject)
    else if screening.record.origin.Malformed? then e.Report(Some(token), Reject)
    else
      var r := screening.record;
      var checked := e.(replay := e.replay.Check(r.id, r.origin.peer, now));
      match e.replay.Decide(r.id, r.origin.peer, r.sequence, now)
      case Duplicate => checked.Report(Some(token), Ignore)
      case TooOld => checked.Report(Some(token), Reject)
      case New =>
        if !screening.sourceAllowed then checked.Report(Some(token), Reject)
        else if checked.HasSpace() then checked.Enqueue(Request(r, Some(source), Some(token)), now)
        else checked.Report(Some(token), Ignore)
  }

  // ----- accept_sync_records -----

  /** One record of the list: the engine after it, and whether the list goes on. */
  function AcceptItem(e: Engine, peer: PeerId, item: Item): (r: (Engine, bool))
    requires e.replay.modulus > 0
    ensures r.0.replay.modulus == e.replay.modulus
  {
    var r := item.record;
    if !item.valid || r.origin.Malformed? then (e, true)
    else
      var checked := e.(replay := e.replay.Check(r.id, r.origin.peer, item.now));
      if e.replay.Decide(r.id, r.origin.peer, r.sequence, item.now) != Replay.New then (checked, true)
      else if !item.sourceAllowed || !checked.HasSpace() then (checked, false)
      else (checked.Enqueue(Request(r, Some(peer), None), item.now), true)
  }

  function AcceptItems(e: Engine, peer: PeerId, items: seq<Item>): (f: Engine)
    requires e.replay.modulus > 0
    ensures f.replay.modulus == e.replay.modulus
    decreases |items|
  {
    if items == [] then e
    else
      var (next, more) := AcceptItem(e, peer, items[0]);
      if more then AcceptItems(next, peer, items[1..]) else next
  }

  function AcceptSyncRecords(e: Engine, peer: PeerId, items: seq<Item>): (f: Engine)
    requires e.replay.modulus > 0
    ensures f.replay.modulus == e.replay.modulus
  {
    if e.safetyMode then e else AcceptItems(e, peer, items[..Min(|items|, MAX_REQUESTED_RECORDS)])
  }

  // ----- handle_signed_record and handle_persisted -----

  /** A record signed here is queued without consulting the replay filter. */
  function HandleSigned(e: Engine, record: Store.Record): Engine {
    if e.safetyMode || !e.HasSpace() then e else e.(queue := e.queue + [Request(record, None, None)])
  }

  function HandlePersisted(e: Engine, event: PersistEvent, now: Instant): (f: Engine)
    requires e.replay.modulus > 0
    ensures f.replay.modulus == e.replay.modulus
  {
    match event
    case Stored(record, _, gossip) =>
      var replay := match record.origin
                    case Peer(peer) => e.replay.Accept(record.id, peer, record.sequence, now)
                    case Malformed(_) => e.replay;
      e.(replay := replay).Report(gossip, Accept)
    case Duplicate(id, origin, sequence, gossip) =>
      var replay := match origin
                    case Some(peer) => e.replay.Accept(id, peer, sequence, now)
                    case None => e.replay.Forget(id);
      e.(replay := replay).Report(gossip, Ignore)
    case Failed(id, _, gossip) =>
      e.(replay := e.replay.Forget(id), safetyMode := true).Report(gossip, Ignore)
  }
}
