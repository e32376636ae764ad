/** What the pipeline's answers mean: for the rows of the table, and for records that come again. */
module PipelineOutcomes {
  import opened Limits
  import opened Bytes
  import Store
  import Writes
  import Lru
  import Replay
  import opened Persistence
  import opened Pipeline
  import opened PipelineRuns

  // ----- Stored answers are the rows written -----

  ghost predicate StoredAt(es: seq<PersistEvent>, i: nat, id: RecordId) {
    i < |es| && es[i].Stored? && es[i].record.id == id
  }

  ghost predicate SomeStored(es: seq<PersistEvent>, id: RecordId) { exists i :: StoredAt(es, i, id) }

  /** The rows of `after` are those of `before` and, each new and each once, the records of the stored answers. */
  ghost predicate RowsAreStored(before: Store.Records, after: Store.Records, es: seq<PersistEvent>) {
    && (forall id :: id in before ==> id in after && after[id] == before[id])
    && (forall id :: id in after && id !in before ==> SomeStored(es, id))
    && (forall i :: 0 <= i < |es| && es[i].Stored? ==>
          es[i].record.id !in before && es[i].record.id in after && after[es[i].record.id] == es[i].record)
    && (forall i: nat, j: nat, id :: i < j && StoredAt(es, i, id) ==> !StoredAt(es, j, id))
  }

  lemma TransactionRows(t: Store.Tables, batch: seq<Request>, m: Store.Machine)
    requires Store.Valid(t) && |batch| <= MAX_BATCH
    ensures var (t1, outcome) := Persist(t, batch, m);
            RowsAreStored(t.records, t1.records, EventsFor(batch, outcome))
  {
    var rows := RecordsOf(batch);
    if Store.InsertBatch(t, rows, m).Ok? {
      Writes.InsertBatchIsExact(t, rows, m);
      assert Writes.FirstRows(rows) == rows;
      var (t1, flags) := Store.InsertBatch(t, rows, m).value;
      AddedRowsAreStored(t.records, t1.records, batch, flags);
    }
  }

  lemma AddedRowsAreStored(before: Store.Records, after: Store.Records, batch: seq<Request>, flags: seq<bool>)
    requires |flags| == |batch|
    requires Store.Added(before, after, RecordsOf(batch), flags) && Store.ExactFlags(before, RecordsOf(batch), flags)
    ensures RowsAreStored(before, after, ZipEvents(batch, flags))
  {
    var es := ZipEvents(batch, flags);
    forall id | id in after && id !in before
      ensures SomeStored(es, id)
    {
      var i := AddedIsStored(before, after, batch, flags, id);
      assert StoredAt(es, i, id);
    }
    forall i | 0 <= i < |es| && es[i].Stored?
      ensures es[i].record.id !in before && es[i].record.id in after && after[es[i].record.id] == es[i].record
    {
      StoredIsAdded(before, after, batch, flags, i);
    }
    StoredOnce(before, batch, flags);
  }

  lemma AddedIsStored(before: Store.Records, after: Store.Records, batch: seq<Request>, flags: seq<bool>, id: RecordId)
      returns (i: nat)
    requires |flags| == |batch| && Store.Added(before, after, RecordsOf(batch), flags)
    requires id in after && id !in before
    ensures StoredAt(ZipEvents(batch, flags), i, id)
  {
    var rows := RecordsOf(batch);
    i :| 0 <= i < |rows| && flags[i] && rows[i].id == id;
    assert ZipEvents(batch, flags)[i].record == rows[i];
  }

  lemma StoredIsAdded(before: Store.Records, after: Store.Records, batch: seq<Request>, flags: seq<bool>, i: nat)
    requires |flags| == |batch| && i < |batch| && ZipEvents(batch, flags)[i].Stored?
    requires Store.Added(before, after, RecordsOf(batch), flags) && Store.ExactFlags(before, RecordsOf(batch), flags)
    ensures var r := ZipEvents(batch, flags)[i].record; r.id !in before && r.id in after && after[r.id] == r
  {
    var rows := RecordsOf(batch);
    assert rows[i] == ZipEvents(batch, flags)[i].record && flags[i];
    assert Store.ExactFlag(before, rows, flags, i);
  }

  lemma StoredOnce(before: Store.Records, batch: seq<Request>, flags: seq<bool>)
    requires |flags| == |batch| && Store.ExactFlags(before, RecordsOf(batch), flags)
    ensures forall i: nat, j: nat, id ::
              i < j && StoredAt(ZipEvents(batch, flags), i, id) ==> !StoredAt(ZipEvents(batch, flags), j, id)
  {
    var rows := RecordsOf(batch);
    forall i: nat, j: nat, id | i < j && StoredAt(ZipEvents(batch, flags), i, id)
      ensures !StoredAt(ZipEvents(batch, flags), j, id)
    {
      if j < |rows| && rows[j].id == id { WrittenOnce(before, rows, flags, i, j); }
    }
  }

  lemma WrittenOnce(before: Store.Records, rows: seq<Store.Record>, flags: seq<bool>, i: nat, j: nat)
    requires |flags| == |rows| && Store.ExactFlags(before, rows, flags)
    requires i < j < |rows| && flags[i] && rows[i].id == rows[j].id
    ensures !flags[j]
  {
    assert Store.Clash(rows[i], rows[j]);
    assert Store.ExactFlag(before, rows, flags, j);
  }

  lemma RowsCompose(before: Store.Records, mid: Store.Records, after: Store.Records,
                    earlier: seq<PersistEvent>, made: seq<PersistEvent>)
    requires RowsAreStored(before, mid, earlier) && RowsAreStored(mid, after, made)
    ensures RowsAreStored(before, after, earlier + made)
  {
    var es := earlier + made;
    forall id | id in after && id !in before
      ensures SomeStored(es, id)
    {
      if id in mid {
        var i :| StoredAt(earlier, i, id);
        assert StoredAt(es, i, id);
      } else {
        var i :| StoredAt(made, i, id);
        assert StoredAt(es, |earlier| + i, id);
      }
    }
    forall i | 0 <= i < |es| && es[i].Stored?
      ensures es[i].record.id !in before && es[i].record.id in after && after[es[i].record.id] == es[i].record
    {
      assert if i < |earlier| then es[i] == earlier[i] else es[i] == made[i - |earlier|];
    }
    forall i: nat, j: nat, id | i < j && StoredAt(es, i, id)
      ensures !StoredAt(es, j, id)
    {
      if i >= |earlier| {
        assert StoredAt(made, i - |earlier|, id) && !StoredAt(made, j - |earlier|, id);
      } else {
        assert StoredAt(earlier, i, id);
        if j < |earlier| {
          assert !StoredAt(earlier, j, id);
        } else {
          assert id in mid;
        }
      }
    }
  }

  lemma StoredRowsStep(s: State, e: Event, t: Token, start: Store.Records)
    requires Inv(s, t) && Enabled(s, e) && !e.Written?
    requires RowsAreStored(start, s.tables.records, s.answered)
    ensures RowsAreStored(start, Step(s, e).tables.records, Step(s, e).answered)
  {
    if e.Insert? {
      var (tables, outcome) := Persist(s.tables, s.batch, e.machine);
      TransactionRows(s.tables, s.batch, e.machine);
      RowsCompose(start, s.tables.records, tables.records, s.answered, EventsFor(s.batch, outcome));
    } else {
      assert Step(s, e).tables == s.tables && Step(s, e).answered == s.answered;
    }
  }

  lemma {:induction false} StoredRowsOverRun(s: State, es: seq<Event>, t: Token, start: Store.Records)
    requires Inv(s, t) && CanRun(s, es) && (forall e :: e in es ==> !e.Written?)
    requires RowsAreStored(start, s.tables.records, s.answered)
    ensures RowsAreStored(start, Run(s, es).tables.records, Run(s, es).answered)
    decreases |es|
  {
    if es != [] {
      StepKeepsInv(s, es[0], t);
      StoredRowsStep(s, es[0], t, start);
      StoredRowsOverRun(Step(s, es[0]), es[1..], t, start);
    }
  }

  /** While nothing is deleted, the table holds its first rows and exactly one row for each stored answer: a
      request is answered `Stored`, and its message accepted, only for a row it wrote itself, at most once for
      any record id. */
  lemma StoredAnswersAreRows(s: State, start: State, es: seq<Event>)
    requires Reachable(s, start, es) && forall e :: e in es ==> !e.Written?
    ensures RowsAreStored(start.tables.records, s.tables.records, s.answered)
  {
    StoredRowsOverRun(start, es, 0, start.tables.records);
  }

  // ----- Records that come again -----

  /** The filter holds all four positions of the id. */
  ghost predicate Known(r: Replay.State, id: RecordId) {
    r.modulus > 0 && Replay.IndexSet(id, r.modulus) <= r.bits
  }

  /** The answer names an origin, so that handling it accepts its record into the filter. */
  predicate Accepts(e: PersistEvent, id: RecordId) {
    match e
    case Stored(record, _, _) => record.id == id && record.origin.Peer?
    case Duplicate(i, origin, _, _) => i == id && origin.Some?
    case Failed(_, _, _) => false
  }

  lemma HandledBecomesKnown(e: Engine, event: PersistEvent, now: Instant, id: RecordId)
    requires e.replay.modulus > 0 && Accepts(event, id)
    ensures Known(HandlePersisted(e, event, now).replay, id)
  {
  }

  /** Requests that intake, not signing, put at the end of the queue. */
  ghost predicate NoneFor(rs: seq<Request>, from: nat, id: RecordId) {
    forall i :: from <= i < |rs| && rs[i].source.Some? ==> rs[i].record.id != id
  }

  lemma KnownGossipIsRefused(e: Engine, token: Token, source: PeerId, screening: Screening, now: Instant, id: RecordId)
    requires Known(e.replay, id)
    ensures NoneFor(ValidateGossip(e, token, source, screening, now).queue, |e.queue|, id)
    ensures screening.Wellformed? && screening.record.id == id
            ==> OneVerdict(e, ValidateGossip(e, token, source, screening, now), token, Ignore)
                || OneVerdict(e, ValidateGossip(e, token, source, screening, now), token, Reject)
  {
    GossipShape(e, token, source, screening, now);
    if screening.Wellformed? && screening.record.id == id && screening.record.origin.Peer? {
      var r := screening.record;
      assert e.replay.Decide(r.id, r.origin.peer, r.sequence, now) == Replay.Duplicate;
    }
  }

  lemma KnownItemIsRefused(e: Engine, peer: PeerId, item: Item, id: RecordId)
    requires e.replay.Valid() && Known(e.replay, id)
    ensures var next := AcceptItem(e, peer, item).0;
            && Known(next.replay, id) && e.queue <= next.queue && NoneFor(next.queue, |e.queue|, id)
  {
    ItemShape(e, peer, item);
    ItemIsLater(e, peer, item);
    var r := item.record;
    if r.id == id && r.origin.Peer? {
      assert e.replay.Decide(r.id, r.origin.peer, r.sequence, item.now) == Replay.Duplicate;
    }
  }

  lemma NoneForExtends(a: seq<Request>, b: seq<Request>, from: nat, id: RecordId)
    requires a <= b && from <= |a| && NoneFor(a, from, id) && NoneFor(b, |a|, id)
    ensures NoneFor(b, from, id)
  {
    assert forall i :: 0 <= i < |a| ==> b[i] == a[i];
  }

  lemma {:induction false} KnownItemsAreRefused(e: Engine, peer: PeerId, items: seq<Item>, id: RecordId)
    requires e.replay.Valid() && Known(e.replay, id)
    ensures e.queue <= AcceptItems(e, peer, items).queue
    ensures NoneFor(AcceptItems(e, peer, items).queue, |e.queue|, id)
    decreases |items|
  {
    if items != [] {
      var (next, more) := AcceptItem(e, peer, items[0]);
      KnownItemIsRefused(e, peer, items[0], id);
      ItemIsLater(e, peer, items[0]);
      if more {
        KnownItemsAreRefused(next, peer, items[1..], id);
        NoneForExtends(next.queue, AcceptItems(next, peer, items[1..]).queue, |e.queue|, id);
      }
    }
  }

  lemma AfterQueuesNone(s: State, e: Engine, id: RecordId, from: nat)
    requires s.engine.queue <= e.queue && NoneFor(e.queue, |s.engine.queue|, id)
    requires from <= |s.enqueued| && NoneFor(s.enqueued, from, id)
    ensures NoneFor(After(s, e).enqueued, from, id)
  {
    var added := e.queue[|s.engine.queue|..];
    forall i | from <= i < |s.enqueued + added| && (s.enqueued + added)[i].source.Some?
      ensures (s.enqueued + added)[i].record.id != id
    {
      if i >= |s.enqueued| {
        assert (s.enqueued + added)[i] == e.queue[|s.engine.queue| + i - |s.enqueued|];
      }
    }
  }

  lemma KnownStep(s: State, e: Event, id: RecordId, from: nat)
    requires Inv(s, 0) && Enabled(s, e) && Known(s.engine.replay, id)
    requires from <= |s.enqueued| && NoneFor(s.enqueued, from, id)
    ensures Known(Step(s, e).engine.replay, id)
    ensures from <= |Step(s, e).enqueued| && NoneFor(Step(s, e).enqueued, from, id)
  {
    match e
    case Delivered(token, source, screening, now) =>
      GossipIsLater(s.engine, token, source, screening, now);
      GossipMoves(s.engine, token, source, screening, now, 0);
      KnownGossipIsRefused(s.engine, token, source, screening, now, id);
      AfterQueuesNone(s, ValidateGossip(s.engine, token, source, screening, now), id, from);
    case SyncRecords(peer, items) =>
      var first := items[..Min(|items|, MAX_REQUESTED_RECORDS)];
      ItemsAreLater(s.engine, peer, first);
      KnownItemsAreRefused(s.engine, peer, first, id);
      AfterQueuesNone(s, AcceptSyncRecords(s.engine, peer, items), id, from);
    case Signed(record) => AfterQueuesNone(s, HandleSigned(s.engine, record), id, from);
    case Handle(now) => HandledIsLater(s.engine, s.events[0], now);
    case _ =>
  }

  lemma {:induction false} KnownOverRun(s: State, es: seq<Event>, id: RecordId, from: nat)
    requires Inv(s, 0) && CanRun(s, es) && Known(s.engine.replay, id)
    requires from <= |s.enqueued| && NoneFor(s.enqueued, from, id)
    ensures NoneFor(Run(s, es).enqueued, from, id)
    decreases |es|
  {
    if es != [] {
      KnownStep(s, es[0], id, from);
      StepKeepsInv(s, es[0], 0);
      KnownOverRun(Step(s, es[0]), es[1..], id, from);
    }
  }

  /** Once the engine has handled the answer for a record that names its origin, stored or duplicate, neither
      gossip nor synchronization queues that record again in any later run. */
  lemma HandledIsNeverQueuedAgain(s: State, start: State, before: seq<Event>, now: Instant, id: RecordId,
                                  after: seq<Event>)
    requires Reachable(s, start, before) && s.events != [] && Accepts(s.events[0], id)
    requires CanRun(Step(s, Handle(now)), after)
    ensures var t := Run(Step(s, Handle(now)), after);
            forall i :: |s.enqueued| <= i < |t.enqueued| && t.enqueued[i].source.Some? ==> t.enqueued[i].record.id != id
  {
    ReachableInv(s, start, before, 0);
    HandledBecomesKnown(s.engine, s.events[0], now, id);
    StepKeepsInv(s, Handle(now), 0);
    KnownOverRun(Step(s, Handle(now)), after, id, |s.enqueued|);
  }

  // ----- Failed transactions -----

  /** A record whose transaction failed is decided afresh: it is `New` again exactly when neither the filter nor
      its origin's sequences refuse it, whatever the recent cache held. */
  lemma FailedIsDecidedAfresh(e: Engine, event: PersistEvent, now: Instant, origin: PeerId, sequence: U64,
                              later: Instant)
    requires e.replay.Valid() && event.Failed?
    ensures var f := HandlePersisted(e, event, now);
            && f.replay.modulus > 0
            && (f.replay.Decide(event.id, origin, sequence, later) == Replay.New
                <==> !e.replay.FilterContains(event.id) && e.replay.DecideByOrigin(origin, sequence) == Replay.New)
  {
    Lru.PopRemoves(e.replay.recent, event.id);
  }

  ghost predicate AllFailed(es: seq<PersistEvent>) { forall e :: e in es ==> e.Failed? }

  /** One record whose sequence or size does not fit an INTEGER column fails every request of its batch, and
      leaves the tables alone. */
  lemma UnstorableFailsTheBatch(s: State, m: Store.Machine, bad: Request)
    requires Inv(s, 0) && Enabled(s, Insert(m)) && bad in s.batch && !Writes.Storable(bad.record)
    ensures var t := Step(s, Insert(m));
            t.tables == s.tables && |t.outbox| == |s.batch| && AllFailed(t.outbox)
  {
    var rows := RecordsOf(s.batch);
    var k :| 0 <= k < |s.batch| && s.batch[k] == bad;
    assert Writes.FirstRows(rows) == rows && rows[k] in rows;
    var made := Step(s, Insert(m)).outbox;
    forall e | e in made
      ensures e.Failed?
    {
      var i :| 0 <= i < |made| && made[i] == e;
      EventsCarryTokens(s.tables, s.batch, m);
      FailedExactly(s.tables, s.batch, m, i);
    }
    FailedExactly(s.tables, s.batch, m, k);
  }
}
