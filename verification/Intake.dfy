/** The intake handlers of src/network/swarm.rs in their own form, proved against the values of Pipeline. */
module Intake {
  import opened Wrappers
  import opened Limits
  import Store
  import Replay
  import ReplayEngine
  import opened Persistence
  import P = Pipeline

  class Actor {
    const replay: ReplayEngine.ReplayState
    var safetyMode: bool
    var queue: seq<Request>
    var delivered: seq<Token>
    var verdicts: seq<P.Verdict>

    ghost predicate Valid()
      reads this, replay, replay.activeRecords, replay.activeRecords.bits
    {
      replay.Valid()
    }

    ghost function View(): P.Engine
      reads this, replay, replay.activeRecords.bits
    {
      P.Engine(replay.View(), safetyMode, queue, delivered, verdicts)
    }

    constructor (replay: ReplayEngine.ReplayState, safetyMode: bool)
      requires replay.Valid()
      ensures Valid() && this.replay == replay && View() == P.Engine(replay.View(), safetyMode, [], [], [])
    {
      this.replay := replay;
      this.safetyMode := safetyMode;
      queue, delivered, verdicts := [], [], [];
    }

    method ReportGossip(token: Option<Token>, acceptance: P.Acceptance)
      modifies `verdicts
      ensures View() == old(View()).Report(token, acceptance)
    {
      if token.Some? {
        verdicts := verdicts + [P.Verdict(token.value, acceptance)];
      }
    }

    method TryEnqueue(request: Request) returns (accepted: bool)
      modifies `queue
      ensures accepted == old(View()).HasSpace()
      ensures queue == if accepted then old(queue) + [request] else old(queue)
    {
      accepted := |queue| < PERSISTENCE_QUEUE_CAPACITY;
      if accepted {
        queue := queue + [request];
      }
    }

    method ValidateGossip(token: Token, source: PeerId, screening: P.Screening, now: Instant)
      requires Valid()
      modifies this, replay, replay.activeRecords.bits
      ensures Valid() && View() == P.ValidateGossip(old(View()), token, source, screening, now)
    {
      delivered := delivered + [token];
      if safetyMode || !screening.Wellformed? {
        ReportGossip(Some(token), P.Reject);
        return;
      }
      var record := screening.record;
      if record.origin.Malformed? {
        ReportGossip(Some(token), P.Reject);
        return;
      }
      var decision := replay.Check(record.id, record.origin.peer, record.sequence, now);
      match decision
      case Duplicate => ReportGossip(Some(token), P.Ignore);
      case TooOld => ReportGossip(Some(token), P.Reject);
      case New =>
        if !screening.sourceAllowed {
          ReportGossip(Some(token), P.Reject);
          return;
        }
        var accepted := TryEnqueue(Request(record, Some(source), Some(token)));
        if accepted {
          replay.MarkPending(record.id, now);
        } else {
          ReportGossip(Some(token), P.Ignore);
        }
    }

    method AcceptSyncRecords(peer: PeerId, items: seq<P.Item>)
      requires Valid()
      modifies this, replay, replay.activeRecords.bits
      ensures Valid() && View() == P.AcceptSyncRecords(old(View()), peer, items)
    {
      if safetyMode {
        return;
      }
      var left := items[..Min(|items|, MAX_REQUESTED_RECORDS)];
      while left != []
        invariant Valid()
        invariant P.AcceptItems(View(), peer, left)
                  == P.AcceptItems(old(View()), peer, items[..Min(|items|, MAX_REQUESTED_RECORDS)])
        decreases |left|
      {
        var item := left[0];
        left := left[1..];
        var record := item.record;
        if !item.valid || record.origin.Malformed? {
          continue;
        }
        var decision := replay.Check(record.id, record.origin.peer, record.sequence, item.now);
        if decision != Replay.New {
          continue;
        }
        if !item.sourceAllowed {
          return;
        }
        var accepted := TryEnqueue(Request(record, Some(peer), None));
        if !accepted {
          return;
        }
        replay.MarkPending(record.id, item.now);
      }
    }

    method HandleSignedRecord(record: Store.Record)
      requires Valid()
      modifies `queue
      ensures Valid() && View() == P.HandleSigned(old(View()), record)
    {
      if safetyMode {
        return;
      }
      var accepted := TryEnqueue(Request(record, None, None));
    }

    method HandlePersisted(event: PersistEvent, now: Instant)
      requires Valid()
      modifies this, replay, replay.activeRecords.bits
      ensures Valid() && View() == P.HandlePersisted(old(View()), event, now)
    {
      match event
      case Stored(record, _, gossip) =>
        if record.origin.Peer? {
          replay.Accept(record.id, record.origin.peer, record.sequence, now);
        }
        ReportGossip(gossip, P.Accept);
      case Duplicate(id, origin, sequence, gossip) =>
        if origin.Some? {
          replay.Accept(id, origin.value, sequence, now);
        } else {
          replay.Forget(id);
        }
        ReportGossip(gossip, P.Ignore);
      case Failed(id, error, gossip) =>
        replay.Forget(id);
        safetyMode := true;
        ReportGossip(gossip, P.Ignore);
    }
  }
}
