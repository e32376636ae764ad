/** How long a record on its way to the disk is remembered, and what that keeps from being queued twice. */
module PipelineMemory {
  import opened Wrappers
  import opened Limits
  import opened Bytes
  import Sets
  import Lru
  import Store
  import Replay
  import opened Persistence
  import opened Pipeline
  import opened PipelineRuns
  import opened PipelineOutcomes

  // ----- What the recent cache holds -----

  /** The cache holds the id as of an instant, and has used nothing since but ids among `others`. */
  ghost predicate Remembers(r: Replay.State, id: RecordId, since: Instant, others: set<RecordId>) {
    && r.Valid() && id in r.recent.table && r.recent.table[id] == since
    && Lru.Newer(r.recent.order, id) <= others && |others| < r.recent.capacity
  }

  /** An id arrives: again within the time to live, or among the others. */
  predicate InReach(x: RecordId, now: Instant, id: RecordId, since: Instant, ttl: nat, others: set<RecordId>) {
    if x == id then Since(now, since) <= ttl else x in others
  }

  lemma CheckRemembers(r: Replay.State, x: RecordId, origin: PeerId, now: Instant, id: RecordId, since: Instant,
                       others: set<RecordId>)
    requires Remembers(r, id, since, others) && InReach(x, now, id, since, r.ttl, others)
    ensures Remembers(r.Check(x, origin, now), id, since, others)
  {
    Replay.CheckKeepsValid(r, x, origin, now);
    Lru.TouchKeeps(r.recent, x);
    if x == id {
      assert r.recent.Touch(id).order[0] == id;
    } else {
      Lru.TouchAges(r.recent, x, id);
      Lru.PopAges(r.recent.Touch(x), x, id);
    }
  }

  lemma PutRemembers(c: Lru.Cache<RecordId, Instant>, x: RecordId, now: Instant, id: RecordId, others: set<RecordId>)
    requires c.Valid() && id in c.table && Lru.Newer(c.order, id) <= others && |others| < c.capacity
    requires x != id && x in others
    ensures var d := c.Put(x, now);
            id in d.table && d.table[id] == c.table[id] && Lru.Newer(d.order, id) <= others
  {
    Sets.SubsetSize(Lru.Newer(c.order, id) + {x}, others);
    Lru.PutAges(c, x, now, id);
  }

  lemma PendingRemembers(r: Replay.State, x: RecordId, now: Instant, id: RecordId, since: Instant,
                         others: set<RecordId>)
    requires Remembers(r, id, since, others) && x != id && x in others
    ensures Remembers(r.MarkPending(x, now), id, since, others)
  {
    OpIsLater(r, Replay.Pending(x, now));
    PutRemembers(r.recent, x, now, id, others);
  }

  lemma AcceptRemembers(r: Replay.State, x: RecordId, origin: PeerId, sequence: U64, now: Instant, id: RecordId,
                        since: Instant, others: set<RecordId>)
    requires Remembers(r, id, since, others) && x != id && x in others
    ensures Remembers(r.Accept(x, origin, sequence, now), id, since, others)
  {
    OpIsLater(r, Replay.Accepted(x, origin, sequence, now));
    PutRemembers(r.recent, x, now, id, others);
  }

  lemma ForgetRemembers(r: Replay.State, x: RecordId, id: RecordId, since: Instant, others: set<RecordId>)
    requires Remembers(r, id, since, others) && x != id
    ensures Remembers(r.Forget(x), id, since, others)
  {
    OpIsLater(r, Replay.Forgotten(x));
    Lru.PopAges(r.recent, x, id);
  }

  lemma RememberedIsDuplicate(r: Replay.State, id: RecordId, since: Instant, others: set<RecordId>, origin: PeerId,
                              sequence: U64, now: Instant)
    requires (Remembers(r, id, since, others) && Since(now, since) <= r.ttl) || (r.Valid() && Known(r, id))
    ensures r.Decide(id, origin, sequence, now) == Replay.Duplicate
  {
  }

  // ----- Through the handlers -----

  lemma QueuedIsRemembered(e: Engine, token: Token, source: PeerId, screening: Screening, now: Instant,
                           others: set<RecordId>)
    requires e.replay.Valid() && screening.Wellformed? && |others| < e.replay.recent.capacity
    requires ValidateGossip(e, token, source, screening, now).queue != e.queue
    ensures Remembers(ValidateGossip(e, token, source, screening, now).replay, screening.record.id, now, others)
  {
    var r := screening.record;
    assert r.origin.Peer?;
    CheckIsLater(e.replay, r.id, r.origin.peer, now);
    var checked := e.replay.Check(r.id, r.origin.peer, now);
    OpIsLater(checked, Replay.Pending(r.id, now));
    Lru.PutKeepsOrEvicts(checked.recent, r.id, now);
    assert checked.recent.Put(r.id, now).order[0] == r.id;
  }

  /** What a delivery does to the filter: nothing, a check, or a check and a mark. */
  lemma GossipReplay(e: Engine, token: Token, source: PeerId, screening: Screening, now: Instant)
    requires e.replay.modulus > 0
    ensures var replay := ValidateGossip(e, token, source, screening, now).replay;
            replay == e.replay ||
            (screening.Wellformed? && screening.record.origin.Peer? &&
             var r := screening.record;
             var checked := e.replay.Check(r.id, r.origin.peer, now);
             replay == checked ||
             (e.replay.Decide(r.id, r.origin.peer, r.sequence, now) == Replay.New
              && replay == checked.MarkPending(r.id, now)))
  {
  }

  lemma GossipRemembers(e: Engine, token: Token, source: PeerId, screening: Screening, now: Instant, id: RecordId,
                        since: Instant, others: set<RecordId>)
    requires Remembers(e.replay, id, since, others)
    requires screening.Wellformed? ==> InReach(screening.record.id, now, id, since, e.replay.ttl, others)
    ensures Remembers(ValidateGossip(e, token, source, screening, now).replay, id, since, others)
  {
    GossipReplay(e, token, source, screening, now);
    if ValidateGossip(e, token, source, screening, now).replay != e.replay {
      CheckAndMarkRemember(e.replay, screening.record, now, id, since, others);
    }
  }

  lemma CheckAndMarkRemember(replay: Replay.State, r: Store.Record, now: Instant, id: RecordId, since: Instant,
                             others: set<RecordId>)
    requires Remembers(replay, id, since, others) && InReach(r.id, now, id, since, replay.ttl, others)
    requires r.origin.Peer?
    ensures var checked := replay.Check(r.id, r.origin.peer, now);
            && Remembers(checked, id, since, others)
            && (replay.Decide(r.id, r.origin.peer, r.sequence, now) == Replay.New
                ==> r.id != id && Remembers(checked.MarkPending(r.id, now), id, since, others))
  {
    CheckRemembers(replay, r.id, r.origin.peer, now, id, since, others);
    if r.id == id {
      RememberedIsDuplicate(replay, id, since, others, r.origin.peer, r.sequence, now);
    } else {
      PendingRemembers(replay.Check(r.id, r.origin.peer, now), r.id, now, id, since, others);
    }
  }

  lemma RefusedGossip(e: Engine, token: Token, source: PeerId, screening: Screening, now: Instant, id: RecordId,
                      since: Instant, others: set<RecordId>)
    requires Remembers(e.replay, id, since, others)
    requires screening.Wellformed? ==> InReach(screening.record.id, now, id, since, e.replay.ttl, others)
    ensures NoneFor(ValidateGossip(e, token, source, screening, now).queue, |e.queue|, id)
  {
    GossipShape(e, token, source, screening, now);
    if screening.Wellformed? && screening.record.id == id && screening.record.origin.Peer? {
      var r := screening.record;
      RememberedIsDuplicate(e.replay, id, since, others, r.origin.peer, r.sequence, now);
    }
  }

  lemma ItemRemembers(e: Engine, peer: PeerId, item: Item, id: RecordId, since: Instant, others: set<RecordId>)
    requires Remembers(e.replay, id, since, others)
    requires InReach(item.record.id, item.now, id, since, e.replay.ttl, others)
    ensures var next := AcceptItem(e, peer, item).0;
            && Remembers(next.replay, id, since, others) && next.replay.ttl == e.replay.ttl
            && e.queue <= next.queue && NoneFor(next.queue, |e.queue|, id)
  {
    ItemShape(e, peer, item);
    var r := item.record;
    if r.origin.Peer? { CheckAndMarkRemember(e.replay, r, item.now, id, since, others); }
  }

  ghost predicate AllInReach(items: seq<Item>, id: RecordId, since: Instant, ttl: nat, others: set<RecordId>) {
    forall item :: item in items ==> InReach(item.record.id, item.now, id, since, ttl, others)
  }

  lemma {:induction false} ItemsRemember(e: Engine, peer: PeerId, items: seq<Item>, id: RecordId, since: Instant,
                                         others: set<RecordId>)
    requires Remembers(e.replay, id, since, others) && AllInReach(items, id, since, e.replay.ttl, others)
    ensures var f := AcceptItems(e, peer, items);
            && Remembers(f.replay, id, since, others)
            && e.queue <= f.queue && NoneFor(f.queue, |e.queue|, id)
    decreases |items|
  {
    if items != [] {
      assert items[0] in items;
      ItemRemembers(e, peer, items[0], id, since, others);
      var (next, more) := AcceptItem(e, peer, items[0]);
      if more {
        ItemsRemember(next, peer, items[1..], id, since, others);
        NoneForExtends(next.queue, AcceptItems(next, peer, items[1..]).queue, |e.queue|, id);
      }
    }
  }

  function IdOf(e: PersistEvent): RecordId {
    match e
    case Stored(record, _, _) => record.id
    case Duplicate(id, _, _, _) => id
    case Failed(id, _, _) => id
  }

  /** Handling the answer makes the engine forget its record. */
  predicate Forgets(e: PersistEvent) { e.Failed? || (e.Duplicate? && e.origin.None?) }

  lemma HandledRemembers(e: Engine, event: PersistEvent, now: Instant, id: RecordId, since: Instant,
                         others: set<RecordId>)
    requires Remembers(e.replay, id, since, others)
    requires if IdOf(event) == id then !Forgets(event) else IdOf(event) in others
    ensures var r := HandlePersisted(e, event, now).replay;
            Known(r, id) || Remembers(r, id, since, others)
  {
    if IdOf(event) == id {
      if Accepts(event, id) { HandledBecomesKnown(e, event, now, id); }
    } else {
      match event
      case Stored(record, _, _) =>
        if record.origin.Peer? {
          AcceptRemembers(e.replay, record.id, record.origin.peer, record.sequence, now, id, since, others);
        }
      case Duplicate(x, origin, sequence, _) =>
        if origin.Some? {
          AcceptRemembers(e.replay, x, origin.value, sequence, now, id, since, others);
        } else {
          ForgetRemembers(e.replay, x, id, since, others);
        }
      case Failed(x, _, _) => ForgetRemembers(e.replay, x, id, since, others);
    }
  }

  // ----- Over runs -----

  /** What arrives in a step leaves the id remembered: the id itself within its time to live, others among
      `others`, and no answer that makes the engine forget it. */
  ghost predicate Spares(s: State, e: Event, id: RecordId, since: Instant, others: set<RecordId>)
    requires Enabled(s, e)
  {
    match e
    case Delivered(_, _, screening, now) =>
      screening.Wellformed? ==> InReach(screening.record.id, now, id, since, s.engine.replay.ttl, others)
    case SyncRecords(_, items) =>
      AllInReach(items[..Min(|items|, MAX_REQUESTED_RECORDS)], id, since, s.engine.replay.ttl, others)
    case Handle(_) => if IdOf(s.events[0]) == id then !Forgets(s.events[0]) else IdOf(s.events[0]) in others
    case _ => true
  }

  /** Every step up to the one that handles the id's accepting answer does so; what follows is arbitrary. */
  ghost predicate SparesThroughout(s: State, es: seq<Event>, id: RecordId, since: Instant, others: set<RecordId>)
    requires s.engine.replay.modulus > 0 && CanRun(s, es)
    decreases |es|
  {
    es == [] || Known(s.engine.replay, id)
    || (Spares(s, es[0], id, since, others) && SparesThroughout(Step(s, es[0]), es[1..], id, since, others))
  }

  ghost predicate Refuses(r: Replay.State, id: RecordId, since: Instant, others: set<RecordId>) {
    Known(r, id) || Remembers(r, id, since, others)
  }

  lemma RememberingStep(s: State, e: Event, id: RecordId, since: Instant, others: set<RecordId>, from: nat)
    requires Inv(s, 0) && Enabled(s, e) && Remembers(s.engine.replay, id, since, others)
    requires Spares(s, e, id, since, others) && from <= |s.enqueued| && NoneFor(s.enqueued, from, id)
    ensures Refuses(Step(s, e).engine.replay, id, since, others)
    ensures from <= |Step(s, e).enqueued| && NoneFor(Step(s, e).enqueued, from, id)
  {
    match e
    case Delivered(token, source, screening, now) =>
      GossipMoves(s.engine, token, source, screening, now, 0);
      GossipRemembers(s.engine, token, source, screening, now, id, since, others);
      RefusedGossip(s.engine, token, source, screening, now, id, since, others);
      AfterQueuesNone(s, ValidateGossip(s.engine, token, source, screening, now), id, from);
    case SyncRecords(peer, items) =>
      ItemsRemember(s.engine, peer, items[..Min(|items|, MAX_REQUESTED_RECORDS)], id, since, others);
      AfterQueuesNone(s, AcceptSyncRecords(s.engine, peer, items), id, from);
    case Signed(record) => AfterQueuesNone(s, HandleSigned(s.engine, record), id, from);
    case Handle(now) => HandledRemembers(s.engine, s.events[0], now, id, since, others);
    case _ =>
  }

  lemma {:induction false} RefusedOverRun(s: State, es: seq<Event>, id: RecordId, since: Instant,
                                          others: set<RecordId>, from: nat)
    requires Inv(s, 0) && CanRun(s, es) && Refuses(s.engine.replay, id, since, others)
    requires SparesThroughout(s, es, id, since, others) && from <= |s.enqueued| && NoneFor(s.enqueued, from, id)
    ensures Refuses(Run(s, es).engine.replay, id, since, others) && Run(s, es).engine.replay.Valid()
    ensures NoneFor(Run(s, es).enqueued, from, id)
    decreases |es|
  {
    if es != [] {
      StepKeepsInv(s, es[0], 0);
      if Known(s.engine.replay, id) {
        KnownStep(s, es[0], id, from);
      } else {
        RememberingStep(s, es[0], id, since, others, from);
      }
      RefusedOverRun(Step(s, es[0]), es[1..], id, since, others, from);
    }
  }

  /** A record that gossip has queued is not queued again by gossip or synchronization, in any later run in which,
      until its own answer is handled, fewer other ids arrive than the recent cache holds, the id itself arrives
      only within its time to live, and no answer makes the engine forget it. From its accepting answer on, the
      run is arbitrary. */
  lemma QueuedOnce(s: State, start: State, before: seq<Event>, token: Token, source: PeerId, screening: Screening,
                   now: Instant, others: set<RecordId>, after: seq<Event>)
    requires Reachable(s, start, before) && screening.Wellformed? && |others| < s.engine.replay.recent.capacity
    requires var t := Step(s, Delivered(token, source, screening, now));
             && t.engine.queue != s.engine.queue
             && CanRun(t, after) && SparesThroughout(t, after, screening.record.id, now, others)
    ensures var t := Step(s, Delivered(token, source, screening, now));
            && t.enqueued == s.enqueued + [Request(screening.record, Some(source), Some(token))]
            && NoneFor(Run(t, after).enqueued, |s.enqueued| + 1, screening.record.id)
  {
    QueuedIsRefused(s, start, before, token, source, screening, now, others);
    RefusedOverRun(Step(s, Delivered(token, source, screening, now)), after, screening.record.id, now, others,
                   |s.enqueued| + 1);
  }

  lemma QueuedIsRefused(s: State, start: State, before: seq<Event>, token: Token, source: PeerId,
                        screening: Screening, now: Instant, others: set<RecordId>)
    requires Reachable(s, start, before) && screening.Wellformed? && |others| < s.engine.replay.recent.capacity
    requires Step(s, Delivered(token, source, screening, now)).engine.queue != s.engine.queue
    ensures var t := Step(s, Delivered(token, source, screening, now));
            && Inv(t, 0) && Refuses(t.engine.replay, screening.record.id, now, others)
            && t.enqueued == s.enqueued + [Request(screening.record, Some(source), Some(token))]
  {
    var e := Delivered(token, source, screening, now);
    ReachableInv(s, start, before, 0);
    GossipShape(s.engine, token, source, screening, now);
    QueuedIsRemembered(s.engine, token, source, screening, now, others);
    StepKeepsInv(s, e, 0);
  }

  /** At the end of such a run the record, delivered once more within its time to live or after its accepting
      answer, is ignored, whoever sends it and whatever origin and sequence it names; in safety mode it is
      rejected like everything else. */
  lemma RedeliveryIsIgnored(s: State, start: State, before: seq<Event>, token: Token, source: PeerId,
                            screening: Screening, now: Instant, others: set<RecordId>, after: seq<Event>,
                            token': Token, source': PeerId, screening': Screening, later: Instant)
    requires Reachable(s, start, before) && screening.Wellformed? && |others| < s.engine.replay.recent.capacity
    requires var t := Step(s, Delivered(token, source, screening, now));
             && t.engine.queue != s.engine.queue
             && CanRun(t, after) && SparesThroughout(t, after, screening.record.id, now, others)
             && (Since(later, now) <= Run(t, after).engine.replay.ttl
                 || Known(Run(t, after).engine.replay, screening.record.id))
    requires screening'.Wellformed? && screening'.record.id == screening.record.id && screening'.record.origin.Peer?
    ensures var u := Run(Step(s, Delivered(token, source, screening, now)), after);
            OneVerdict(u.engine, ValidateGossip(u.engine, token', source', screening', later), token',
                       if u.engine.safetyMode then Reject else Ignore)
  {
    QueuedIsRefused(s, start, before, token, source, screening, now, others);
    var t := Step(s, Delivered(token, source, screening, now));
    RefusedOverRun(t, after, screening.record.id, now, others, |s.enqueued| + 1);
    var r := screening'.record;
    RememberedIsDuplicate(Run(t, after).engine.replay, r.id, now, others, r.origin.peer, r.sequence, later);
  }
}
