/** The worker of src/storage/worker.rs: batching off the queue, one transaction, one event for each request. */
module Persistence {
  import opened Wrappers
  import opened Limits
  import opened Bytes
  import Store
  import Writes
  import Database

  /** The message id and propagation source a gossip verdict is reported for. */
  type Token = nat

  datatype Request = Request(record: Store.Record, source: Option<PeerId>, gossip: Option<Token>)

  datatype PersistEvent =
    | Stored(record: Store.Record, source: Option<PeerId>, gossip: Option<Token>)
    | Duplicate(id: RecordId, origin: Option<PeerId>, sequence: U64, gossip: Option<Token>)
    | Failed(id: RecordId, error: Store.Error, gossip: Option<Token>)

  type Outcome = Result<seq<bool>, Store.Error>

  function PeerOf(origin: Store.Origin): Option<PeerId> {
    match origin
    case Peer(peer) => Some(peer)
    case Malformed(_) => None
  }

  function EventFor(r: Request, inserted: bool): PersistEvent {
    if inserted then Stored(r.record, r.source, r.gossip)
    else Duplicate(r.record.id, PeerOf(r.record.origin), r.record.sequence, r.gossip)
  }

  /** Pairing requests with results stops at the shorter of the two. */
  function ZipEvents(batch: seq<Request>, flags: seq<bool>): (events: seq<PersistEvent>)
    ensures |events| == Min(|batch|, |flags|)
    ensures forall i :: 0 <= i < |events| ==> events[i] == EventFor(batch[i], flags[i])
  {
    if batch == [] || flags == [] then []
    else [EventFor(batch[0], flags[0])] + ZipEvents(batch[1..], flags[1..])
  }

  lemma ZipUnfolds(batch: seq<Request>, flags: seq<bool>, i: nat)
    requires batch != [] && i < |flags|
    ensures ZipEvents(batch, flags[i..]) == [EventFor(batch[0], flags[i])] + ZipEvents(batch[1..], flags[i + 1..])
  {
    assert flags[i..][1..] == flags[i + 1..];
  }

  lemma Reassociate(events: seq<PersistEvent>, event: PersistEvent, rest: seq<PersistEvent>)
    ensures events + ([event] + rest) == events + [event] + rest
  {
  }

  function FailEvents(batch: seq<Request>, error: Store.Error): (events: seq<PersistEvent>)
    ensures |events| == |batch|
    ensures forall i :: 0 <= i < |batch| ==> events[i] == Failed(batch[i].record.id, error, batch[i].gossip)
  {
    if batch == [] then [] else [Failed(batch[0].record.id, error, batch[0].gossip)] + FailEvents(batch[1..], error)
  }

  function EventsFor(batch: seq<Request>, outcome: Outcome): seq<PersistEvent> {
    match outcome
    case Ok(flags) => ZipEvents(batch, flags)
    case Err(error) => FailEvents(batch, error)
  }

  function RecordsOf(batch: seq<Request>): (records: seq<Store.Record>)
    ensures |records| == |batch| && forall i :: 0 <= i < |batch| ==> records[i] == batch[i].record
  {
    if batch == [] then [] else [batch[0].record] + RecordsOf(batch[1..])
  }

  /** What one transaction answers and leaves. */
  function Persist(t: Store.Tables, batch: seq<Request>, m: Store.Machine): (Store.Tables, Outcome) {
    match Store.InsertBatch(t, RecordsOf(batch), m)
    case Ok((t1, flags)) => (t1, Ok(flags))
    case Err(error) => (t, Err(error))
  }

  /** Nothing is dropped when requests and results are paired exactly when the batch has at most 100 requests:
      the worker's `MAX_BATCH` is the cap of `insert_batch`. */
  lemma PairingDropsNothingExactly(t: Store.Tables, batch: seq<Request>, m: Store.Machine)
    requires Store.Valid(t) && Store.InsertBatch(t, RecordsOf(batch), m).Ok?
    ensures |EventsFor(batch, Persist(t, batch, m).1)| == |batch| <==> |batch| <= MAX_BATCH
  {
    Writes.InsertBatchIsExact(t, RecordsOf(batch), m);
  }

  /** An event carries the token of the request it answers, in order. */
  lemma EventsCarryTokens(t: Store.Tables, batch: seq<Request>, m: Store.Machine)
    requires Store.Valid(t) && |batch| <= MAX_BATCH
    ensures var events := EventsFor(batch, Persist(t, batch, m).1);
            && |events| == |batch|
            && forall i :: 0 <= i < |batch| ==> events[i].gossip == batch[i].gossip
  {
    if Store.InsertBatch(t, RecordsOf(batch), m).Ok? {
      PairingDropsNothingExactly(t, batch, m);
    }
  }

  /** Every request of a batch is answered `Failed`, and the tables are left alone, exactly when the batch does
      not succeed. */
  lemma FailedExactly(t: Store.Tables, batch: seq<Request>, m: Store.Machine, i: nat)
    requires Store.Valid(t) && i < |batch| <= MAX_BATCH
    ensures var (t1, outcome) := Persist(t, batch, m);
            var events := EventsFor(batch, outcome);
            && |events| == |batch|
            && (events[i].Failed? <==> !Writes.Succeeds(t, RecordsOf(batch), m))
            && (events[i].Failed? ==> t1 == t)
  {
    EventsCarryTokens(t, batch, m);
    Writes.InsertBatchSucceedsExactly(t, RecordsOf(batch), m);
  }

  /** A request is answered `Stored` exactly when its batch succeeds and it clashes with no row of the table and
      with no request before it that was written; its row is then in the table: not there before, there after. */
  lemma StoredExactly(t: Store.Tables, batch: seq<Request>, m: Store.Machine, i: nat)
    requires Store.Valid(t) && i < |batch| <= MAX_BATCH
    ensures var (t1, outcome) := Persist(t, batch, m);
            var events := EventsFor(batch, outcome);
            && |events| == |batch| && (outcome.Ok? ==> |outcome.value| == |batch|)
            && (events[i].Stored? <==>
                  && Writes.Succeeds(t, RecordsOf(batch), m) && outcome.Ok?
                  && !Store.Blocked(t.records, batch[i].record)
                  && !Store.ClashesWithWritten(RecordsOf(batch), outcome.value, i, batch[i].record))
            && (events[i].Stored? ==> batch[i].record.id !in t.records && batch[i].record.id in t1.records
                                      && t1.records[batch[i].record.id] == batch[i].record)
  {
    FailedExactly(t, batch, m, i);
    Writes.InsertBatchSucceedsExactly(t, RecordsOf(batch), m);
    if Writes.Succeeds(t, RecordsOf(batch), m) { WrittenExactly(t, batch, m, i); }
  }

  lemma {:induction false} WrittenExactly(t: Store.Tables, batch: seq<Request>, m: Store.Machine, i: nat)
    requires Store.Valid(t) && i < |batch| <= MAX_BATCH && Store.InsertBatch(t, RecordsOf(batch), m).Ok?
    ensures var (t1, outcome) := Persist(t, batch, m);
            && |outcome.value| == |batch|
            && (outcome.value[i] <==>
                  && !Store.Blocked(t.records, batch[i].record)
                  && !Store.ClashesWithWritten(RecordsOf(batch), outcome.value, i, batch[i].record))
            && (outcome.value[i] ==> batch[i].record.id !in t.records && batch[i].record.id in t1.records
                                     && t1.records[batch[i].record.id] == batch[i].record)
  {
    Writes.InsertBatchIsExact(t, RecordsOf(batch), m);
    var rows := RecordsOf(batch);
    assert Writes.FirstRows(rows) == rows;
    var flags := Store.InsertBatch(t, rows, m).value.1;
    assert Store.ExactFlag(t.records, rows, flags, i);
  }

  class PersistenceWorker {
    const database: Database.SignatureDatabase
    var queue: seq<Request>       // the channel's contents
    var depth: nat                // the depth counter, while no producer is between its add and its send
    var batch: seq<Request>
    var events: seq<PersistEvent>

    ghost predicate Valid()
      reads this, database
    {
      database.Valid() && depth == |queue| && batch == []
    }

    constructor (database: Database.SignatureDatabase)
      requires database.Valid()
      ensures Valid() && this.database == database && queue == [] && events == []
    {
      this.database := database;
      queue, depth, batch, events := [], 0, [], [];
    }

    method TryEnqueue(request: Request) returns (accepted: bool)
      requires Valid()
      modifies this
      ensures Valid() && events == old(events)
      ensures accepted <==> |old(queue)| < PERSISTENCE_QUEUE_CAPACITY
      ensures queue == if accepted then old(queue) + [request] else old(queue)
    {
      depth := depth + 1;
      if |queue| < PERSISTENCE_QUEUE_CAPACITY {
        queue := queue + [request];
        return true;
      }
      depth := depth - 1;
      return false;
    }

    /** One blocking receive, then as many as arrive before the deadline, `patience` of them, up to a full batch. */
    method FillBatch(patience: nat)
      requires Valid() && queue != []
      modifies this
      ensures events == old(events) && depth == |queue| && batch + queue == old(queue)
      ensures |batch| == Min(Min(1 + patience, |old(queue)|), MAX_BATCH)
    {
      depth := depth - 1;
      batch, queue := batch + [queue[0]], queue[1..];
      var left := patience;
      while |batch| < MAX_BATCH
        invariant events == old(events) && depth == |queue| && batch + queue == old(queue)
        invariant 1 <= |batch| <= MAX_BATCH && |batch| + left == 1 + patience
        decreases MAX_BATCH - |batch|
      {
        if left == 0 || queue == [] {
          break;
        }
        depth := depth - 1;
        assert batch + [queue[0]] + queue[1..] == batch + queue;
        batch, queue := batch + [queue[0]], queue[1..];
        left := left - 1;
      }
    }

    /** Pairs the batch with its results; requests past the last result are dropped. */
    method DrainResults(flags: seq<bool>)
      modifies `batch, `events
      ensures batch == [] && events == old(events) + ZipEvents(old(batch), flags)
    {
      var i := 0;
      while i < |flags| && batch != []
        invariant 0 <= i <= |flags|
        invariant events + ZipEvents(batch, flags[i..]) == old(events) + ZipEvents(old(batch), flags)
        decreases |batch|
      {
        var event := EventFor(batch[0], flags[i]);
        ZipUnfolds(batch, flags, i);
        Reassociate(events, event, ZipEvents(batch[1..], flags[i + 1..]));
        batch := batch[1..];
        events := events + [event];
        i := i + 1;
      }
      batch := [];
    }

    method DrainFailures(error: Store.Error)
      modifies `batch, `events
      ensures batch == [] && events == old(events) + FailEvents(old(batch), error)
    {
      while batch != []
        invariant events + FailEvents(batch, error) == old(events) + FailEvents(old(batch), error)
        decreases |batch|
      {
        var event := Failed(batch[0].record.id, error, batch[0].gossip);
        Reassociate(events, event, FailEvents(batch[1..], error));
        batch := batch[1..];
        events := events + [event];
      }
    }

    /** One turn of the worker loop: a batch off the head of the queue, one transaction, and one event for each
        request of the batch, in order. */
    method Turn(patience: nat, m: Store.Machine)
      requires Valid() && queue != []
      modifies this, database
      ensures Valid()
      ensures var n := Min(Min(1 + patience, |old(queue)|), MAX_BATCH);
              var (tables, outcome) := Persist(old(database.tables), old(queue)[..n], m);
              && queue == old(queue)[n..] && database.tables == tables
              && events == old(events) + EventsFor(old(queue)[..n], outcome)
              && |events| == |old(events)| + n
    {
      FillBatch(patience);
      var n := |batch|;
      assert batch == old(queue)[..n] && queue == old(queue)[n..];
      EventsCarryTokens(database.tables, batch, m);
      var results := database.InsertBatch(RecordsOf(batch), m);
      match results
      case Ok(flags) => DrainResults(flags);
      case Err(error) => DrainFailures(error);
    }
  }
}
