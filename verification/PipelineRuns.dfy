/** The gossip-to-disk pipeline as a state machine: the engine, the queue, the worker thread's batch and events,
    and the tables, each advancing on its own. */
module PipelineRuns {
  import opened Wrappers
  import opened Limits
  import opened Bytes
  import Store
  import Writes
  import Replay
  import opened Persistence
  import opened Pipeline

  datatype State = State(
    engine: Engine,
    batch: seq<Request>,
    outbox: seq<PersistEvent>,     // events of the last transaction the worker has yet to send
    events: seq<PersistEvent>,     // the event channel
    tables: Store.Tables,
    enqueued: seq<Request>,        // history: every request accepted by the queue
    taken: seq<Request>,           // history: every request the worker received
    answered: seq<PersistEvent>,   // history: every event the worker made
    handled: seq<PersistEvent>)    // history: every event the engine handled

  function Initial(replay: Replay.State, safetyMode: bool, tables: Store.Tables): State {
    State(Engine(replay, safetyMode, [], [], []), [], [], [], tables, [], [], [], [])
  }

  datatype Event =
    | Delivered(token: Token, source: PeerId, screening: Screening, now: Instant)
    | SyncRecords(peer: PeerId, items: seq<Item>)
    | Signed(record: Store.Record)
    | Receive
    | Insert(machine: Store.Machine)
    | Send
    | Handle(now: Instant)
    | Maintained(safetyMode: bool)
    | Written(write: Store.Write)  // a removal or a cleanup by another thread

  predicate Enabled(s: State, e: Event) {
    match e
    case Receive => s.engine.queue != [] && s.outbox == [] && |s.batch| < MAX_BATCH
    case Insert(_) => s.batch != [] && s.outbox == []
    case Send => s.outbox != [] && |s.events| < PERSISTENCE_QUEUE_CAPACITY
    case Handle(_) => s.events != []
    case Written(w) => !w.Insert?
    case _ => true
  }

  /** The engine after a handler, with what the handler queued. */
  function After(s: State, e: Engine): State {
    s.(engine := e, enqueued := s.enqueued + e.queue[Min(|s.engine.queue|, |e.queue|)..])
  }

  function Step(s: State, e: Event): (t: State)
    requires Enabled(s, e) && s.engine.replay.modulus > 0
    ensures t.engine.replay.modulus == s.engine.replay.modulus
  {
    match e
    case Delivered(token, source, screening, now) =>
      After(s, ValidateGossip(s.engine, token, source, screening, now))
    case SyncRecords(peer, items) => After(s, AcceptSyncRecords(s.engine, peer, items))
    case Signed(record) => After(s, HandleSigned(s.engine, record))
    case Receive =>
      s.(batch := s.batch + [s.engine.queue[0]],
         taken := s.taken + [s.engine.queue[0]],
         engine := s.engine.(queue := s.engine.queue[1..]))
    case Insert(m) =>
      var (tables, outcome) := Persist(s.tables, s.batch, m);
      var made := EventsFor(s.batch, outcome);
      s.(tables := tables, batch := [], outbox := made, answered := s.answered + made)
    case Send => s.(events := s.events + [s.outbox[0]], outbox := s.outbox[1..])
    case Handle(now) =>
      s.(engine := HandlePersisted(s.engine, s.events[0], now),
         events := s.events[1..], handled := s.handled + [s.events[0]])
    case Maintained(mode) => s.(engine := s.engine.(safetyMode := mode))
    case Written(w) => s.(tables := Store.Apply(s.tables, w))
  }

  ghost predicate CanRun(s: State, es: seq<Event>)
    requires s.engine.replay.modulus > 0
    decreases |es|
  {
    es == [] || (Enabled(s, es[0]) && CanRun(Step(s, es[0]), es[1..]))
  }

  function Run(s: State, es: seq<Event>): (r: State)
    requires s.engine.replay.modulus > 0 && CanRun(s, es)
    ensures r.engine.replay.modulus > 0
    decreases |es|
  {
    if es == [] then s else Run(Step(s, es[0]), es[1..])
  }

  // ----- Counting tokens -----

  function One(yes: bool): nat { if yes then 1 else 0 }

  /** How often a token occurs among delivered messages, in queued requests, and in events. */
  function Deliveries(ts: seq<Token>, t: Token): nat {
    if ts == [] then 0 else Deliveries(ts[..|ts| - 1], t) + One(ts[|ts| - 1] == t)
  }

  function Queued(rs: seq<Request>, t: Token): nat {
    if rs == [] then 0 else One(rs[0].gossip == Some(t)) + Queued(rs[1..], t)
  }

  function Carried(es: seq<PersistEvent>, t: Token): nat {
    if es == [] then 0 else One(es[0].gossip == Some(t)) + Carried(es[1..], t)
  }

  function CarriedStored(es: seq<PersistEvent>, t: Token): nat {
    if es == [] then 0 else One(es[0].Stored? && es[0].gossip == Some(t)) + CarriedStored(es[1..], t)
  }

  /** How many verdicts a token has had, and how many of them accept. */
  function Reported(vs: seq<Verdict>, t: Token): nat {
    if vs == [] then 0 else Reported(vs[..|vs| - 1], t) + One(vs[|vs| - 1].token == t)
  }

  function Accepted(vs: seq<Verdict>, t: Token): nat {
    if vs == [] then 0 else Accepted(vs[..|vs| - 1], t) + One(vs[|vs| - 1] == Verdict(t, Accept))
  }

  lemma {:induction false} QueuedConcat(a: seq<Request>, b: seq<Request>, t: Token)
    ensures Queued(a + b, t) == Queued(a, t) + Queued(b, t)
  {
    if a == [] {
      assert a + b == b;
    } else {
      assert (a + b)[0] == a[0] && (a + b)[1..] == a[1..] + b;
      QueuedConcat(a[1..], b, t);
    }
  }

  lemma {:induction false} CarriedConcat(a: seq<PersistEvent>, b: seq<PersistEvent>, t: Token)
    ensures Carried(a + b, t) == Carried(a, t) + Carried(b, t)
    ensures CarriedStored(a + b, t) == CarriedStored(a, t) + CarriedStored(b, t)
  {
    if a == [] {
      assert a + b == b;
    } else {
      assert (a + b)[0] == a[0] && (a + b)[1..] == a[1..] + b;
      CarriedConcat(a[1..], b, t);
    }
  }

  lemma QueuedOneMore(rs: seq<Request>, r: Request, t: Token)
    ensures Queued(rs + [r], t) == Queued(rs, t) + One(r.gossip == Some(t))
  {
    QueuedConcat(rs, [r], t);
    assert [r][1..] == [];
  }

  lemma CarriedOneMore(es: seq<PersistEvent>, e: PersistEvent, t: Token)
    ensures Carried(es + [e], t) == Carried(es, t) + One(e.gossip == Some(t))
    ensures CarriedStored(es + [e], t) == CarriedStored(es, t) + One(e.Stored? && e.gossip == Some(t))
  {
    CarriedConcat(es, [e], t);
    assert [e][1..] == [];
  }

  lemma ReportedOneMore(vs: seq<Verdict>, v: Verdict, t: Token)
    ensures Reported(vs + [v], t) == Reported(vs, t) + One(v.token == t)
    ensures Accepted(vs + [v], t) == Accepted(vs, t) + One(v == Verdict(t, Accept))
  {
    assert (vs + [v])[..|vs|] == vs;
  }

  lemma DeliveredOneMore(ts: seq<Token>, token: Token, t: Token)
    ensures Deliveries(ts + [token], t) == Deliveries(ts, t) + One(token == t)
  {
    assert (ts + [token])[..|ts|] == ts;
  }

  lemma {:induction false} EventsCarryQueued(batch: seq<Request>, es: seq<PersistEvent>, t: Token)
    requires |es| == |batch| && forall i :: 0 <= i < |batch| ==> es[i].gossip == batch[i].gossip
    ensures Carried(es, t) == Queued(batch, t)
  {
    if batch != [] { EventsCarryQueued(batch[1..], es[1..], t); }
  }

  // ----- What the engine's handlers move -----

  /** The copies of a token the engine has reported or still queues. */
  function Held(e: Engine, t: Token): nat { Reported(e.verdicts, t) + Queued(e.queue, t) }

  /** The handler gave one more verdict, for this token. */
  ghost predicate OneVerdict(e: Engine, f: Engine, token: Token, acceptance: Acceptance) {
    f.queue == e.queue && f.verdicts == e.verdicts + [Verdict(token, acceptance)]
  }

  ghost predicate OneRequest(e: Engine, f: Engine, r: Request) {
    f.verdicts == e.verdicts && f.queue == e.queue + [r] && |e.queue| < PERSISTENCE_QUEUE_CAPACITY
  }

  lemma OneVerdictMoves(e: Engine, f: Engine, token: Token, acceptance: Acceptance, t: Token)
    requires OneVerdict(e, f, token, acceptance)
    ensures Held(f, t) == Held(e, t) + One(token == t)
    ensures Accepted(f.verdicts, t) == Accepted(e.verdicts, t) + One(token == t && acceptance.Accept?)
  {
    ReportedOneMore(e.verdicts, Verdict(token, acceptance), t);
  }

  lemma OneRequestMoves(e: Engine, f: Engine, r: Request, t: Token)
    requires OneRequest(e, f, r)
    ensures Held(f, t) == Held(e, t) + One(r.gossip == Some(t))
  {
    QueuedOneMore(e.queue, r, t);
  }

  lemma GossipShape(e: Engine, token: Token, source: PeerId, screening: Screening, now: Instant)
    requires e.replay.modulus > 0
    ensures var t := ValidateGossip(e, token, source, screening, now);
            && t.delivered == e.delivered + [token] && t.safetyMode == e.safetyMode
            && (OneVerdict(e, t, token, Ignore) || OneVerdict(e, t, token, Reject)
                || (screening.Wellformed? && OneRequest(e, t, Request(screening.record, Some(source), Some(token)))))
  {
  }

  /** One delivered message gives exactly one verdict or one queued request, and no accepting verdict. */
  lemma GossipMoves(e: Engine, token: Token, source: PeerId, screening: Screening, now: Instant, t: Token)
    requires e.replay.modulus > 0 && |e.queue| <= PERSISTENCE_QUEUE_CAPACITY
    ensures var f := ValidateGossip(e, token, source, screening, now);
            && Deliveries(f.delivered, t) == Deliveries(e.delivered, t) + One(token == t)
            && Held(f, t) == Held(e, t) + One(token == t)
            && Accepted(f.verdicts, t) == Accepted(e.verdicts, t)
            && e.queue <= f.queue && |f.queue| <= PERSISTENCE_QUEUE_CAPACITY
  {
    GossipShape(e, token, source, screening, now);
    DeliveredOneMore(e.delivered, token, t);
    var f := ValidateGossip(e, token, source, screening, now);
    if OneVerdict(e, f, token, Ignore) {
      OneVerdictMoves(e, f, token, Ignore, t);
    } else if OneVerdict(e, f, token, Reject) {
      OneVerdictMoves(e, f, token, Reject, t);
    } else {
      OneRequestMoves(e, f, Request(screening.record, Some(source), Some(token)), t);
    }
  }

  /** A record of a list is passed over, ends the list, or is queued without a token. */
  lemma ItemShape(e: Engine, peer: PeerId, item: Item)
    requires e.replay.modulus > 0
    ensures var next := AcceptItem(e, peer, item).0;
            && next.delivered == e.delivered && next.verdicts == e.verdicts && next.safetyMode == e.safetyMode
            && (next.queue == e.queue || OneRequest(e, next, Request(item.record, Some(peer), None)))
  {
  }

  /** Records of synchronization bring no gossip tokens, and join at the end of the queue. */
  lemma {:induction false} ItemsMove(e: Engine, peer: PeerId, items: seq<Item>, t: Token)
    requires e.replay.modulus > 0 && |e.queue| <= PERSISTENCE_QUEUE_CAPACITY
    ensures var f := AcceptItems(e, peer, items);
            && f.delivered == e.delivered && f.verdicts == e.verdicts
            && Held(f, t) == Held(e, t)
            && e.queue <= f.queue && |f.queue| <= PERSISTENCE_QUEUE_CAPACITY
    decreases |items|
  {
    if items != [] {
      var (next, more) := AcceptItem(e, peer, items[0]);
      ItemShape(e, peer, items[0]);
      if next.queue != e.queue { OneRequestMoves(e, next, Request(items[0].record, Some(peer), None), t); }
      if more { ItemsMove(next, peer, items[1..], t); }
    }
  }

  lemma HandledShape(e: Engine, event: PersistEvent, now: Instant)
    requires e.replay.modulus > 0
    ensures var t := HandlePersisted(e, event, now);
            && t.delivered == e.delivered && t.queue == e.queue
            && if event.gossip.Some? then OneVerdict(e, t, event.gossip.value, if event.Stored? then Accept else Ignore)
               else t.verdicts == e.verdicts
  {
  }

  /** Handling an event reports its token, accepting it exactly when the event is `Stored`. */
  lemma HandledMoves(e: Engine, event: PersistEvent, now: Instant, t: Token)
    requires e.replay.modulus > 0
    ensures var f := HandlePersisted(e, event, now);
            && f.delivered == e.delivered && f.queue == e.queue
            && Held(f, t) == Held(e, t) + One(event.gossip == Some(t))
            && Accepted(f.verdicts, t) == Accepted(e.verdicts, t) + One(event.Stored? && event.gossip == Some(t))
  {
    HandledShape(e, event, now);
    var f := HandlePersisted(e, event, now);
    if event.gossip.Some? {
      OneVerdictMoves(e, f, event.gossip.value, if event.Stored? then Accept else Ignore, t);
    }
  }

  // ----- The invariant -----

  /** Every delivered message has one verdict or one copy of its token on the way. */
  ghost predicate TokensConserved(s: State, t: Token) {
    Deliveries(s.engine.delivered, t)
    == Held(s.engine, t) + Queued(s.batch, t) + Carried(s.outbox, t) + Carried(s.events, t)
  }

  /** Accepting verdicts, with the `Stored` events still to be handled, are the stored answers. */
  ghost predicate AcceptsAreStored(s: State, t: Token) {
    Accepted(s.engine.verdicts, t) + CarriedStored(s.outbox, t) + CarriedStored(s.events, t)
    == CarriedStored(s.answered, t)
  }

  /** The event answers the request. */
  ghost predicate Answers(r: Request, e: PersistEvent) {
    e == EventFor(r, true) || e == EventFor(r, false) || (e.Failed? && e == Failed(r.record.id, e.error, r.gossip))
  }

  /** Requests pass through the queue and the batch in order. */
  ghost predicate RequestsFlow(enqueued: seq<Request>, taken: seq<Request>, queue: seq<Request>) {
    enqueued == taken + queue
  }

  /** Each request taken has one event, in the same order, except those of the batch. */
  ghost predicate OneAnswerEach(taken: seq<Request>, answered: seq<PersistEvent>, batch: seq<Request>) {
    && |answered| + |batch| == |taken| && batch == taken[|answered|..]
    && forall i :: 0 <= i < |answered| ==> Answers(taken[i], answered[i])
  }

  /** Events pass through the worker and the channel in order. */
  ghost predicate EventsFlow(answered: seq<PersistEvent>, handled: seq<PersistEvent>, events: seq<PersistEvent>,
                             outbox: seq<PersistEvent>) {
    answered == handled + events + outbox
  }

  ghost predicate InOrder(s: State) {
    && RequestsFlow(s.enqueued, s.taken, s.engine.queue)
    && OneAnswerEach(s.taken, s.answered, s.batch)
    && EventsFlow(s.answered, s.handled, s.events, s.outbox)
  }

  ghost predicate Sizes(s: State) {
    && |s.engine.queue| <= PERSISTENCE_QUEUE_CAPACITY && |s.batch| <= MAX_BATCH
    && (s.outbox != [] ==> s.batch == []) && |s.events| <= PERSISTENCE_QUEUE_CAPACITY
  }

  ghost predicate Inv(s: State, t: Token) {
    && s.engine.replay.Valid() && Store.Valid(s.tables)
    && Sizes(s) && InOrder(s) && TokensConserved(s, t) && AcceptsAreStored(s, t)
  }

  // ----- The replay filter through the handlers -----

  /** A later state of the same filter. */
  ghost predicate Later(a: Replay.State, b: Replay.State) {
    && b.Valid() && b.modulus == a.modulus && a.bits <= b.bits
    && b.ttl == a.ttl && b.recent.capacity == a.recent.capacity
  }

  lemma OpIsLater(a: Replay.State, op: Replay.Op)
    requires a.Valid()
    ensures Later(a, a.Apply(op))
  {
    Replay.StepKeepsValid(a, op);
  }

  lemma CheckIsLater(a: Replay.State, id: RecordId, origin: PeerId, now: Instant)
    requires a.Valid()
    ensures Later(a, a.Check(id, origin, now))
  {
    Replay.CheckKeepsValid(a, id, origin, now);
  }

  lemma GossipIsLater(e: Engine, token: Token, source: PeerId, screening: Screening, now: Instant)
    requires e.replay.Valid()
    ensures Later(e.replay, ValidateGossip(e, token, source, screening, now).replay)
  {
    if screening.Wellformed? && screening.record.origin.Peer? {
      var r := screening.record;
      CheckIsLater(e.replay, r.id, r.origin.peer, now);
      OpIsLater(e.replay.Check(r.id, r.origin.peer, now), Replay.Pending(r.id, now));
    }
  }

  lemma ItemIsLater(e: Engine, peer: PeerId, item: Item)
    requires e.replay.Valid()
    ensures Later(e.replay, AcceptItem(e, peer, item).0.replay)
  {
    var r := item.record;
    if r.origin.Peer? {
      CheckIsLater(e.replay, r.id, r.origin.peer, item.now);
      OpIsLater(e.replay.Check(r.id, r.origin.peer, item.now), Replay.Pending(r.id, item.now));
    }
  }

  lemma {:induction false} ItemsAreLater(e: Engine, peer: PeerId, items: seq<Item>)
    requires e.replay.Valid()
    ensures Later(e.replay, AcceptItems(e, peer, items).replay)
    decreases |items|
  {
    if items != [] {
      ItemIsLater(e, peer, items[0]);
      ItemsAreLater(AcceptItem(e, peer, items[0]).0, peer, items[1..]);
    }
  }

  lemma HandledIsLater(e: Engine, event: PersistEvent, now: Instant)
    requires e.replay.Valid()
    ensures Later(e.replay, HandlePersisted(e, event, now).replay)
  {
    match event
    case Stored(record, _, _) =>
      if record.origin.Peer? {
        OpIsLater(e.replay, Replay.Accepted(record.id, record.origin.peer, record.sequence, now));
      }
    case Duplicate(id, origin, sequence, _) =>
      if origin.Some? {
        OpIsLater(e.replay, Replay.Accepted(id, origin.value, sequence, now));
      } else {
        OpIsLater(e.replay, Replay.Forgotten(id));
      }
    case Failed(id, _, _) => OpIsLater(e.replay, Replay.Forgotten(id));
  }

  // ----- Steps -----

  /** A handler that reports, queues and checks, and touches nothing beyond the engine. */
  lemma IntakeKeepsInv(s: State, e: Engine, t: Token)
    requires Inv(s, t) && Later(s.engine.replay, e.replay)
    requires s.engine.queue <= e.queue && |e.queue| <= PERSISTENCE_QUEUE_CAPACITY
    requires Deliveries(e.delivered, t) - Deliveries(s.engine.delivered, t) == Held(e, t) - Held(s.engine, t)
    requires Accepted(e.verdicts, t) == Accepted(s.engine.verdicts, t)
    ensures Inv(After(s, e), t)
  {
    QueueGrows(s.enqueued, s.taken, s.engine.queue, e.queue);
  }

  lemma QueueGrows(enqueued: seq<Request>, taken: seq<Request>, queue: seq<Request>, longer: seq<Request>)
    requires RequestsFlow(enqueued, taken, queue) && queue <= longer
    ensures RequestsFlow(enqueued + longer[Min(|queue|, |longer|)..], taken, longer)
  {
    assert longer == queue + longer[|queue|..];
  }

  lemma DeliveredKeepsInv(s: State, token: Token, source: PeerId, screening: Screening, now: Instant, t: Token)
    requires Inv(s, t)
    ensures Inv(After(s, ValidateGossip(s.engine, token, source, screening, now)), t)
  {
    GossipIsLater(s.engine, token, source, screening, now);
    GossipMoves(s.engine, token, source, screening, now, t);
    IntakeKeepsInv(s, ValidateGossip(s.engine, token, source, screening, now), t);
  }

  lemma SyncKeepsInv(s: State, peer: PeerId, items: seq<Item>, t: Token)
    requires Inv(s, t)
    ensures Inv(After(s, AcceptSyncRecords(s.engine, peer, items)), t)
  {
    var first := items[..Min(|items|, MAX_REQUESTED_RECORDS)];
    ItemsAreLater(s.engine, peer, first);
    ItemsMove(s.engine, peer, first, t);
    IntakeKeepsInv(s, AcceptSyncRecords(s.engine, peer, items), t);
  }

  lemma SignedKeepsInv(s: State, record: Store.Record, t: Token)
    requires Inv(s, t)
    ensures Inv(After(s, HandleSigned(s.engine, record)), t)
  {
    var e := HandleSigned(s.engine, record);
    if e.queue != s.engine.queue { OneRequestMoves(s.engine, e, Request(record, None, None), t); }
    IntakeKeepsInv(s, e, t);
  }

  lemma ReceiveKeepsInv(s: State, t: Token)
    requires Inv(s, t) && Enabled(s, Receive)
    ensures Inv(Step(s, Receive), t)
  {
    ReceiveFlows(s.enqueued, s.taken, s.engine.queue, s.answered, s.batch);
    QueuedOneMore(s.batch, s.engine.queue[0], t);
  }

  lemma ReceiveFlows(enqueued: seq<Request>, taken: seq<Request>, queue: seq<Request>, answered: seq<PersistEvent>,
                     batch: seq<Request>)
    requires RequestsFlow(enqueued, taken, queue) && OneAnswerEach(taken, answered, batch) && queue != []
    ensures RequestsFlow(enqueued, taken + [queue[0]], queue[1..])
    ensures OneAnswerEach(taken + [queue[0]], answered, batch + [queue[0]])
  {
    assert queue == [queue[0]] + queue[1..];
  }

  lemma InsertFlows(taken: seq<Request>, answered: seq<PersistEvent>, batch: seq<Request>, made: seq<PersistEvent>)
    requires OneAnswerEach(taken, answered, batch) && |made| == |batch|
    requires forall i :: 0 <= i < |made| ==> Answers(batch[i], made[i])
    ensures OneAnswerEach(taken, answered + made, [])
  {
    forall i | 0 <= i < |answered + made|
      ensures Answers(taken[i], (answered + made)[i])
    {
      if i >= |answered| {
        assert taken[i] == batch[i - |answered|] && (answered + made)[i] == made[i - |answered|];
      }
    }
  }

  /** What the transaction's events are. */
  lemma MadeAnswers(tables: Store.Tables, batch: seq<Request>, m: Store.Machine, t: Token)
    requires Store.Valid(tables) && |batch| <= MAX_BATCH
    ensures var made := EventsFor(batch, Persist(tables, batch, m).1);
            && |made| == |batch| && Carried(made, t) == Queued(batch, t)
            && forall i :: 0 <= i < |made| ==> Answers(batch[i], made[i])
  {
    EventsCarryTokens(tables, batch, m);
    EventsCarryQueued(batch, EventsFor(batch, Persist(tables, batch, m).1), t);
  }

  lemma InsertKeepsInv(s: State, m: Store.Machine, t: Token)
    requires Inv(s, t) && Enabled(s, Insert(m))
    ensures Inv(Step(s, Insert(m)), t)
  {
    var made := EventsFor(s.batch, Persist(s.tables, s.batch, m).1);
    MadeAnswers(s.tables, s.batch, m, t);
    InsertFlows(s.taken, s.answered, s.batch, made);
    PersistKeepsValid(s.tables, s.batch, m);
    InsertedInv(s, Persist(s.tables, s.batch, m).0, made, t);
  }

  lemma InsertedInv(s: State, tables: Store.Tables, made: seq<PersistEvent>, t: Token)
    requires Inv(s, t) && s.outbox == [] && Store.Valid(tables) && Carried(made, t) == Queued(s.batch, t)
    requires OneAnswerEach(s.taken, s.answered + made, [])
    ensures Inv(s.(tables := tables, batch := [], outbox := made, answered := s.answered + made), t)
  {
    CarriedConcat(s.answered, made, t);
  }

  lemma PersistKeepsValid(tables: Store.Tables, batch: seq<Request>, m: Store.Machine)
    requires Store.Valid(tables)
    ensures Store.Valid(Persist(tables, batch, m).0)
  {
    Writes.WriteKeepsValid(tables, Store.Insert(RecordsOf(batch), m));
  }

  lemma SendKeepsInv(s: State, t: Token)
    requires Inv(s, t) && Enabled(s, Send)
    ensures Inv(Step(s, Send), t)
  {
    CarriedOneMore(s.events, s.outbox[0], t);
    assert s.outbox == [s.outbox[0]] + s.outbox[1..];
  }

  lemma HandleKeepsInv(s: State, now: Instant, t: Token)
    requires Inv(s, t) && Enabled(s, Handle(now))
    ensures Inv(Step(s, Handle(now)), t)
  {
    HandledMoves(s.engine, s.events[0], now, t);
    HandledIsLater(s.engine, s.events[0], now);
    HandledInv(s, HandlePersisted(s.engine, s.events[0], now), t);
  }

  lemma HandledInv(s: State, e: Engine, t: Token)
    requires Inv(s, t) && s.events != [] && Later(s.engine.replay, e.replay)
    requires e.delivered == s.engine.delivered && e.queue == s.engine.queue
    requires Held(e, t) == Held(s.engine, t) + One(s.events[0].gossip == Some(t))
    requires Accepted(e.verdicts, t)
             == Accepted(s.engine.verdicts, t) + One(s.events[0].Stored? && s.events[0].gossip == Some(t))
    ensures Inv(s.(engine := e, events := s.events[1..], handled := s.handled + [s.events[0]]), t)
  {
    assert s.events == [s.events[0]] + s.events[1..];
  }

  lemma StepKeepsInv(s: State, e: Event, t: Token)
    requires Inv(s, t) && Enabled(s, e)
    ensures Inv(Step(s, e), t)
  {
    match e
    case Delivered(token, source, screening, now) => DeliveredKeepsInv(s, token, source, screening, now, t);
    case SyncRecords(peer, items) => SyncKeepsInv(s, peer, items, t);
    case Signed(record) => SignedKeepsInv(s, record, t);
    case Receive => ReceiveKeepsInv(s, t);
    case Insert(m) => InsertKeepsInv(s, m, t);
    case Send => SendKeepsInv(s, t);
    case Handle(now) => HandleKeepsInv(s, now, t);
    case Maintained(_) =>
    case Written(w) => Writes.WriteKeepsValid(s.tables, w);
  }

  lemma {:induction false} RunKeepsInv(s: State, es: seq<Event>, t: Token)
    requires Inv(s, t) && CanRun(s, es)
    ensures Inv(Run(s, es), t)
    decreases |es|
  {
    if es != [] {
      StepKeepsInv(s, es[0], t);
      RunKeepsInv(Step(s, es[0]), es[1..], t);
    }
  }

  // ----- Verdicts -----

  /** A state the pipeline can reach from a start with an empty queue. */
  ghost predicate Reachable(s: State, start: State, es: seq<Event>) {
    && start.engine.replay.Valid() && Store.Valid(start.tables)
    && start == Initial(start.engine.replay, start.engine.safetyMode, start.tables)
    && CanRun(start, es) && s == Run(start, es)
  }

  lemma ReachableInv(s: State, start: State, es: seq<Event>, t: Token)
    requires Reachable(s, start, es)
    ensures Inv(s, t)
  {
    RunKeepsInv(start, es, t);
  }

  /** In every reachable state each delivered gossip message has, in all, exactly one verdict or one copy in the
      queue, the worker's batch, its unsent events or the event channel; and a token's accepting verdicts are
      exactly the `Stored` answers handled for it. */
  lemma ExactlyOneVerdict(s: State, start: State, es: seq<Event>, t: Token)
    requires Reachable(s, start, es)
    ensures Deliveries(s.engine.delivered, t)
            == Reported(s.engine.verdicts, t)
               + Queued(s.engine.queue, t) + Queued(s.batch, t) + Carried(s.outbox, t) + Carried(s.events, t)
    ensures Accepted(s.engine.verdicts, t) == CarriedStored(s.handled, t)
  {
    ReachableInv(s, start, es, t);
    CarriedConcat(s.handled + s.events, s.outbox, t);
    CarriedConcat(s.handled, s.events, t);
  }

  /** Requests leave the queue in the order they entered; the worker answers each with one event, in that order;
      the engine handles the events in that order. */
  lemma WorkerConserves(s: State, start: State, es: seq<Event>)
    requires Reachable(s, start, es)
    ensures s.enqueued == s.taken + s.engine.queue
    ensures |s.answered| + |s.batch| == |s.taken| && s.taken[|s.answered|..] == s.batch
    ensures forall i :: 0 <= i < |s.answered| ==> Answers(s.taken[i], s.answered[i])
    ensures s.answered == s.handled + s.events + s.outbox
  {
    ReachableInv(s, start, es, 0);
  }

  /** In every reachable state an answer carries what its own request asked for: the stored record, its propagation
      source and token; or the id, sequence and token, and exactly the peer the record names as its origin. */
  lemma AnswersNameTheirRequests(s: State, start: State, es: seq<Event>, i: nat, peer: PeerId)
    requires Reachable(s, start, es) && i < |s.answered|
    ensures |s.answered| <= |s.taken|
    ensures var (r, e) := (s.taken[i], s.answered[i]);
            && e.gossip == r.gossip
            && (e.Stored? ==> e.record == r.record && e.source == r.source)
            && (!e.Stored? ==> e.id == r.record.id)
            && (e.Duplicate? ==> e.sequence == r.record.sequence
                                 && (e.origin == Some(peer) <==> r.record.origin == Store.Peer(peer)))
  {
    WorkerConserves(s, start, es);
    assert Answers(s.taken[i], s.answered[i]);
  }

  /** In every reachable state queue and event channel hold at most 10,000 each, a batch at most 100, and the worker
      neither receives nor inserts before it has sent the answers of its last transaction: a transaction sees a
      batch of 1 to 100 requests, and its answers leave one at a time, when the channel has room. */
  lemma WorkerIsSequential(s: State, start: State, es: seq<Event>, m: Store.Machine)
    requires Reachable(s, start, es)
    ensures |s.engine.queue| <= 10_000 && |s.events| <= 10_000 && |s.batch| <= 100
    ensures s.batch == [] || s.outbox == []
    ensures Enabled(s, Insert(m)) <==> 1 <= |s.batch| <= 100
    ensures Enabled(s, Send) <==> s.outbox != [] && |s.events| < 10_000
    ensures Enabled(s, Receive) <==> s.engine.queue != [] && s.outbox == [] && |s.batch| < 100
  {
    ReachableInv(s, start, es, 0);
  }
}
