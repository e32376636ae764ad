/** A run in which a good record is not stored: it shares its batch with one whose sequence fits no INTEGER
    column, and the engine turns safety mode on. */
module PipelineWitness {
  import opened Wrappers
  import opened Limits
  import opened Bytes
  import Lru
  import Store
  import Writes
  import Replay
  import opened Persistence
  import opened Pipeline
  import opened PipelineRuns
  import opened PipelineOutcomes

  lemma {:induction false} RunExtends(s: State, es: seq<Event>, e: Event)
    requires s.engine.replay.modulus > 0 && CanRun(s, es) && Enabled(Run(s, es), e)
    ensures CanRun(s, es + [e]) && Run(s, es + [e]) == Step(Run(s, es), e)
    decreases |es|
  {
    if es == [] {
      assert [e][1..] == [] && es + [e] == [e];
    } else {
      assert (es + [e])[0] == es[0] && (es + [e])[1..] == es[1..] + [e];
      RunExtends(Step(s, es[0]), es[1..], e);
    }
  }

  lemma StepOn(start: State, es: seq<Event>, s: State, e: Event) returns (es': seq<Event>, t: State)
    requires Reachable(s, start, es) && Enabled(s, e)
    ensures es' == es + [e] && t == Step(s, e) && Reachable(t, start, es')
  {
    RunExtends(start, es, e);
    es', t := es + [e], Step(s, e);
  }

  /** A filter that has accepted and loaded nothing finds every id new that it does not remember. */
  lemma UnseenIsNew(r: Replay.State, id: RecordId, origin: PeerId, sequence: U64, now: Instant)
    requires r.modulus > 0 && r.bits == {} && id !in r.recent.table
    requires r.origins.table == map[] && r.persistent == map[]
    ensures r.Decide(id, origin, sequence, now) == Replay.New
  {
    assert Replay.Indices(id, r.modulus)[0] in Replay.IndexSet(id, r.modulus);
  }

  /** The engine's filter has accepted nothing and remembers only these ids; it is not in safety mode. */
  ghost predicate Waiting(e: Engine, queue: seq<Request>) {
    && e.replay.Valid() && e.replay.bits == {} && e.replay.origins.table == map[] && e.replay.persistent == map[]
    && !e.safetyMode && e.queue == queue
    && forall id :: id in e.replay.recent.table ==> exists r :: r in queue && r.record.id == id
  }

  lemma NewIsQueued(e: Engine, queue: seq<Request>, token: Token, source: PeerId, record: Store.Record, now: Instant)
    requires Waiting(e, queue) && |queue| < PERSISTENCE_QUEUE_CAPACITY && record.origin.Peer?
    requires forall r :: r in queue ==> r.record.id != record.id
    ensures Waiting(ValidateGossip(e, token, source, Wellformed(record, true), now),
                    queue + [Request(record, Some(source), Some(token))])
  {
    var request := Request(record, Some(source), Some(token));
    UnseenIsNew(e.replay, record.id, record.origin.peer, record.sequence, now);
    CheckForgetsNothing(e.replay, record.id, record.origin.peer, now);
    var checked := e.replay.Check(record.id, record.origin.peer, now);
    OpIsLater(checked, Replay.Pending(record.id, now));
    Lru.PutKeepsOrEvicts(checked.recent, record.id, now);
    var f := ValidateGossip(e, token, source, Wellformed(record, true), now);
    assert f.replay == checked.MarkPending(record.id, now);
    RememberedIsQueued(checked.recent, record.id, now, queue, request);
  }

  lemma CheckForgetsNothing(r: Replay.State, id: RecordId, origin: PeerId, now: Instant)
    requires r.Valid() && id !in r.recent.table && r.origins.table == map[]
    ensures r.Check(id, origin, now).Valid()
    ensures r.Check(id, origin, now).recent == r.recent && r.Check(id, origin, now).origins == r.origins
  {
  }

  lemma RememberedIsQueued(c: Lru.Cache<RecordId, Instant>, id: RecordId, now: Instant, queue: seq<Request>,
                           request: Request)
    requires c.Valid() && request.record.id == id
    requires forall x :: x in c.table ==> exists r :: r in queue && r.record.id == x
    ensures forall x :: x in c.Put(id, now).table ==> exists r :: r in queue + [request] && r.record.id == x
  {
    Lru.PutKeepsOrEvicts(c, id, now);
    forall x | x in c.Put(id, now).table
      ensures exists r :: r in queue + [request] && r.record.id == x
    {
      if x == id {
        assert request in queue + [request];
      } else {
        var r :| r in queue && r.record.id == x;
        assert r in queue + [request];
      }
    }
  }

  /** Both messages are delivered and queued. */
  lemma BothQueued(good: Store.Record, bad: Store.Record) returns (start: State, es: seq<Event>, s: State)
    requires good.origin.Peer? && bad.origin.Peer? && good.id != bad.id
    ensures Reachable(s, start, es) && start == Initial(Replay.Default(), false, Store.EMPTY)
    ensures s.engine.queue == [Request(good, Some(5), Some(1)), Request(bad, Some(6), Some(2))]
    ensures s.batch == [] && s.outbox == [] && s.events == [] && s.tables == Store.EMPTY
    ensures !s.engine.safetyMode && s.handled == []
  {
    start := Initial(Replay.Default(), false, Store.EMPTY);
    assert Reachable(start, start, []);
    assert Waiting(start.engine, []);
    NewIsQueued(start.engine, [], 1, 5, good, 0);
    var e1, s1 := StepOn(start, [], start, Delivered(1, 5, Wellformed(good, true), 0));
    assert [] + [Request(good, Some(5), Some(1))] == [Request(good, Some(5), Some(1))];
    NewIsQueued(s1.engine, [Request(good, Some(5), Some(1))], 2, 6, bad, 0);
    es, s := StepOn(start, e1, s1, Delivered(2, 6, Wellformed(bad, true), 0));
  }

  /** The worker takes both requests into one batch. */
  lemma BothTaken(start: State, es: seq<Event>, s: State, a: Request, b: Request)
      returns (es': seq<Event>, t: State)
    requires Reachable(s, start, es) && s.engine.queue == [a, b] && s.batch == [] && s.outbox == [] && s.events == []
    ensures Reachable(t, start, es') && t.batch == [a, b] && t.outbox == [] && t.events == []
    ensures t.tables == s.tables && t.engine.safetyMode == s.engine.safetyMode && t.handled == s.handled
  {
    var e1, s1 := StepOn(start, es, s, Receive);
    assert s1.batch == [a] && s1.engine.queue == [b];
    es', t := StepOn(start, e1, s1, Receive);
    assert [a] + [b] == [a, b];
  }

  /** Nothing about the database or the machine is in the way of a batch on empty tables. */
  function Willing(): Store.Machine { Store.Machine(0, 0, 0, true, None) }

  /** Alone the record would be stored. */
  lemma AloneSucceeds(good: Store.Record, other: Store.Record)
    requires Writes.Storable(good)
    ensures Store.InsertBatch(Store.EMPTY, [good], Willing()).Ok?
    ensures Store.HasCapacity(Store.EMPTY, [good, other], Willing())
  {
    Writes.SmallHasCapacity(Store.EMPTY, [good], Willing());
    Writes.SmallHasCapacity(Store.EMPTY, [good, other], Willing());
    assert Writes.FirstRows([good]) == [good];
    Writes.InsertBatchSucceedsExactly(Store.EMPTY, [good], Willing());
  }

  /** The batch fails as a whole. */
  lemma BatchFails(start: State, es: seq<Event>, s: State, a: Request, b: Request)
      returns (es': seq<Event>, t: State)
    requires Reachable(s, start, es) && s.batch == [a, b] && s.outbox == [] && !Writes.Storable(b.record)
    ensures es' == es + [Insert(Willing())] && t == Step(s, Insert(Willing())) && Reachable(t, start, es')
    ensures t.tables == s.tables && t.engine == s.engine && t.handled == s.handled
    ensures t.events == s.events && |t.outbox| == 2 && t.outbox[0].Failed? && Answers(a, t.outbox[0])
  {
    var m := Willing();
    ReachableInv(s, start, es, 0);
    assert b in s.batch;
    UnstorableFailsTheBatch(s, m, b);
    MadeAnswers(s.tables, s.batch, m, 0);
    es', t := StepOn(start, es, s, Insert(m));
    assert t.outbox[0] in t.outbox;
  }

  /** The engine handles the first answer. */
  lemma FirstHandled(start: State, es: seq<Event>, s: State) returns (es': seq<Event>, t: State)
    requires Reachable(s, start, es) && s.outbox != [] && s.events == [] && s.outbox[0].Failed?
    requires s.outbox[0].gossip == Some(1)
    ensures es' == es + [Send, Handle(0)] && Reachable(t, start, es') && t.tables == s.tables && t.engine.safetyMode
    ensures t.handled == s.handled + [s.outbox[0]] && Verdict(1, Ignore) in t.engine.verdicts
  {
    var e1, s1 := StepOn(start, es, s, Send);
    assert s1.events == [s.outbox[0]];
    es', t := StepOn(start, e1, s1, Handle(0));
    assert es' == es + [Send, Handle(0)];
    HandledShape(s1.engine, s.outbox[0], 0);
    assert t.engine.verdicts[|t.engine.verdicts| - 1] == Verdict(1, Ignore);
  }

  /** A run from the empty database brings a good record and one that does not fit into one batch. The batch has
      capacity, SQLite refuses nothing, and the good record alone would be stored; beside the other it is answered
      `Failed`: the tables stay empty, its message is ignored, and safety mode is on. */
  lemma GoodRecordFailsBesideBad(good: Store.Record, bad: Store.Record)
      returns (start: State, before: seq<Event>, s: State, t: State)
    requires good.origin.Peer? && bad.origin.Peer? && good.id != bad.id
    requires Writes.Storable(good) && !Writes.Storable(bad)
    ensures Reachable(s, start, before) && start.tables == Store.EMPTY == s.tables && !start.engine.safetyMode
    ensures s.batch == [Request(good, Some(5), Some(1)), Request(bad, Some(6), Some(2))] && !s.engine.safetyMode
    ensures Store.HasCapacity(s.tables, [good, bad], Willing()) && Willing().refusedAt.None?
    ensures Store.InsertBatch(s.tables, [good], Willing()).Ok?
    ensures Reachable(t, start, before + [Insert(Willing()), Send, Handle(0)])
    ensures t.tables == Store.EMPTY && t.engine.safetyMode
    ensures |t.handled| == 1 && t.handled[0].Failed? && t.handled[0].id == good.id
    ensures Verdict(1, Ignore) in t.engine.verdicts
  {
    var (a, b) := (Request(good, Some(5), Some(1)), Request(bad, Some(6), Some(2)));
    var e0, s0;
    start, e0, s0 := BothQueued(good, bad);
    before, s := BothTaken(start, e0, s0, a, b);
    AloneSucceeds(good, bad);
    var e2, s2 := BatchFails(start, before, s, a, b);
    var e3;
    e3, t := FirstHandled(start, e2, s2);
    assert e3 == before + [Insert(Willing()), Send, Handle(0)];
  }
}
