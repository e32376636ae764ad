/** What intake queues and what it answers instead, and when safety mode is on. */
module PipelineIntake {
  import opened Wrappers
  import opened Limits
  import opened Bytes
  import Lru
  import Store
  import Replay
  import opened Persistence
  import opened Pipeline
  import opened PipelineRuns

  // ----- Intake asks the filter -----

  /** A delivery is queued exactly when safety mode is off, the message is well formed and names its origin, the
      filter finds it new, its source is within its limit, and the queue has room. */
  lemma GossipIsQueuedExactly(e: Engine, token: Token, source: PeerId, screening: Screening, now: Instant)
    requires e.replay.modulus > 0
    ensures var f := ValidateGossip(e, token, source, screening, now);
            f.queue != e.queue <==>
              && !e.safetyMode && screening.Wellformed? && screening.record.origin.Peer? && screening.sourceAllowed
              && e.replay.Decide(screening.record.id, screening.record.origin.peer, screening.record.sequence, now)
                 == Replay.New
              && |e.queue| < 10_000
    ensures ValidateGossip(e, token, source, screening, now).queue != e.queue
            ==> OneRequest(e, ValidateGossip(e, token, source, screening, now),
                           Request(screening.record, Some(source), Some(token)))
  {
  }

  /** What is not queued is ignored if it is known or the queue is full, and rejected otherwise. */
  lemma RefusedGossipIsAnswered(e: Engine, token: Token, source: PeerId, screening: Screening, now: Instant)
    requires e.replay.modulus > 0 && ValidateGossip(e, token, source, screening, now).queue == e.queue
    ensures var known := screening.Wellformed? && screening.record.origin.Peer?
                         && e.replay.Decide(screening.record.id, screening.record.origin.peer,
                                            screening.record.sequence, now) == Replay.Duplicate;
            var full := screening.Wellformed? && screening.record.origin.Peer? && screening.sourceAllowed
                        && e.replay.Decide(screening.record.id, screening.record.origin.peer,
                                           screening.record.sequence, now) == Replay.New;
            OneVerdict(e, ValidateGossip(e, token, source, screening, now), token,
                       if !e.safetyMode && (known || full) then Ignore else Reject)
  {
  }

  /** A record of a list is queued exactly when it is valid, names its origin, is new, and source and queue have
      room; the list ends early exactly at a new record for which one of them has not. */
  lemma ItemIsQueuedExactly(e: Engine, peer: PeerId, item: Item)
    requires e.replay.modulus > 0
    ensures var (f, more) := AcceptItem(e, peer, item);
            var isNew := item.valid && item.record.origin.Peer?
                         && e.replay.Decide(item.record.id, item.record.origin.peer, item.record.sequence, item.now)
                            == Replay.New;
            var room := item.sourceAllowed && |e.queue| < 10_000;
            && (f.queue != e.queue <==> isNew && room)
            && (f.queue != e.queue ==> f.queue == e.queue + [Request(item.record, Some(peer), None)])
            && (more <==> isNew ==> room)
  {
  }

  /** A record signed here is queued, with neither source nor token, exactly when safety mode is off and the queue
      has room; the filter is neither asked nor told. */
  lemma SignedIsQueuedExactly(e: Engine, record: Store.Record)
    ensures var f := HandleSigned(e, record);
            && f.queue == (if !e.safetyMode && |e.queue| < 10_000 then e.queue + [Request(record, None, None)]
                           else e.queue)
            && f.replay == e.replay && f.verdicts == e.verdicts && f.safetyMode == e.safetyMode
  {
  }

  // ----- A list whose source is within its limit -----

  /** Every request the list adds is for one of its first 256 items, valid, with an origin, from a source within its
      limit, and carries the peer it came from and no gossip token. */
  ghost predicate FromItems(rs: seq<Request>, from: nat, peer: PeerId, items: seq<Item>) {
    forall i :: from <= i < |rs| ==> FromSome(rs[i], peer, items)
  }

  ghost predicate FromSome(r: Request, peer: PeerId, items: seq<Item>) {
    exists item :: item in items && FromItem(r, peer, item)
  }

  predicate FromItem(r: Request, peer: PeerId, item: Item) {
    item.valid && item.sourceAllowed && item.record.origin.Peer? && r == Request(item.record, Some(peer), None)
  }

  lemma {:induction false} OnlyValidAreQueued(e: Engine, peer: PeerId, items: seq<Item>)
    requires e.replay.modulus > 0
    ensures var f := AcceptItems(e, peer, items);
            e.queue <= f.queue && FromItems(f.queue, |e.queue|, peer, items)
    decreases |items|
  {
    if items != [] {
      var (next, more) := AcceptItem(e, peer, items[0]);
      ItemIsQueuedExactly(e, peer, items[0]);
      if more { OnlyValidAreQueued(next, peer, items[1..]); }
      if next.queue != e.queue { FromFirst(Request(items[0].record, Some(peer), None), peer, items); }
      var f := AcceptItems(e, peer, items);
      forall i | |e.queue| <= i < |f.queue|
        ensures FromSome(f.queue[i], peer, items)
      {
        if i < |next.queue| {
          assert f.queue[i] == next.queue[i] == Request(items[0].record, Some(peer), None);
        } else {
          FromRest(f.queue[i], peer, items);
        }
      }
    }
  }

  lemma FromFirst(r: Request, peer: PeerId, items: seq<Item>)
    requires items != [] && FromItem(r, peer, items[0])
    ensures FromSome(r, peer, items)
  {
    assert items[0] in items;
  }

  lemma FromRest(r: Request, peer: PeerId, items: seq<Item>)
    requires items != [] && FromSome(r, peer, items[1..])
    ensures FromSome(r, peer, items)
  {
    var item :| item in items[1..] && FromItem(r, peer, item);
    assert item in items;
  }

  /** The id is waiting in the queue. */
  ghost predicate Waits(e: Engine, id: RecordId) { exists r :: r in e.queue && r.record.id == id }

  /** What is remembered now was remembered at first, since the same instant, or waits in the queue. */
  ghost predicate OnlyQueuedRemembered(e: Engine, f: Engine) {
    && f.replay.bits == e.replay.bits && f.replay.modulus == e.replay.modulus && f.replay.ttl == e.replay.ttl
    && f.replay.persistent == e.replay.persistent && f.replay.window == e.replay.window
    && f.replay.origins.table == e.replay.origins.table && e.queue <= f.queue
    && forall id :: id in f.replay.recent.table ==>
         Waits(f, id) || (id in e.replay.recent.table && f.replay.recent.table[id] == e.replay.recent.table[id])
  }

  lemma WaitsStill(e: Engine, f: Engine, id: RecordId)
    requires e.queue <= f.queue && Waits(e, id)
    ensures Waits(f, id)
  {
    var r :| r in e.queue && r.record.id == id;
    assert r in f.queue;
  }

  lemma QueuedWaits(e: Engine, r: Request)
    requires r in e.queue
    ensures Waits(e, r.record.id)
  {
  }

  lemma ItemRemembersOnlyQueued(e: Engine, peer: PeerId, item: Item)
    requires e.replay.Valid()
    ensures var f := AcceptItem(e, peer, item).0; f.replay.Valid() && OnlyQueuedRemembered(e, f)
  {
    ItemIsLater(e, peer, item);
    ItemIsQueuedExactly(e, peer, item);
    var (r, f) := (item.record, AcceptItem(e, peer, item).0);
    if item.valid && r.origin.Peer? {
      CheckRemembersNothing(e.replay, r.id, r.origin.peer, item.now);
      if f.queue != e.queue {
        Lru.PutKeepsOrEvicts(e.replay.Check(r.id, r.origin.peer, item.now).recent, r.id, item.now);
        QueuedWaits(f, Request(r, Some(peer), None));
      }
    }
  }

  lemma CheckRemembersNothing(r: Replay.State, id: RecordId, origin: PeerId, now: Instant)
    requires r.Valid()
    ensures var t := r.Check(id, origin, now);
            && t.Valid() && t.origins.table == r.origins.table && t == r.(recent := t.recent, origins := t.origins)
            && forall x :: x in t.recent.table ==> x in r.recent.table && t.recent.table[x] == r.recent.table[x]
  {
    CheckIsLater(r, id, origin, now);
    Lru.TouchKeeps(r.recent, id);
    Lru.PopRemoves(r.recent.Touch(id), id);
  }

  lemma OnlyQueuedTransitive(e: Engine, f: Engine, g: Engine)
    requires OnlyQueuedRemembered(e, f) && OnlyQueuedRemembered(f, g)
    ensures OnlyQueuedRemembered(e, g)
  {
    forall id | id in g.replay.recent.table && !Waits(g, id)
      ensures id in e.replay.recent.table && g.replay.recent.table[id] == e.replay.recent.table[id]
    {
      if Waits(f, id) { WaitsStill(f, g, id); }
    }
  }

  /** What was new to `e` is new to `f`, unless it waits in the queue. */
  lemma StillNew(e: Engine, f: Engine, id: RecordId, origin: PeerId, sequence: U64, now: Instant)
    requires e.replay.modulus > 0 && OnlyQueuedRemembered(e, f) && !Waits(f, id)
    ensures e.replay.Decide(id, origin, sequence, now) == f.replay.Decide(id, origin, sequence, now)
            || e.replay.SeenRecently(id, now)
  {
  }

  ghost predicate AllAllowed(items: seq<Item>) { forall item :: item in items ==> item.sourceAllowed }

  /** Of a list from a source within its limit, on a queue with room for it, every valid record that names its origin
      and that the filter finds new when the list arrives is waiting in the queue when the list is done. */
  lemma {:induction false} AllNewAreQueued(first: Engine, e: Engine, peer: PeerId, items: seq<Item>, item: Item)
    requires first.replay.Valid() && e.replay.Valid() && OnlyQueuedRemembered(first, e)
    requires AllAllowed(items) && |e.queue| + |items| <= 10_000
    requires item in items && item.valid && item.record.origin.Peer?
    requires first.replay.Decide(item.record.id, item.record.origin.peer, item.record.sequence, item.now) == Replay.New
    ensures Waits(AcceptItems(e, peer, items), item.record.id)
    decreases |items|
  {
    var (next, more) := AcceptItem(e, peer, items[0]);
    var f := AcceptItems(e, peer, items);
    assert items[0] in items;
    ItemIsQueuedExactly(e, peer, items[0]);
    ItemRemembersOnlyQueued(e, peer, items[0]);
    OnlyQueuedTransitive(first, e, next);
    assert more && f == AcceptItems(next, peer, items[1..]);
    OnlyValidAreQueued(next, peer, items[1..]);
    if items[0] == item {
      if Waits(e, item.record.id) {
        WaitsStill(e, f, item.record.id);
      } else {
        StillNew(first, e, item.record.id, item.record.origin.peer, item.record.sequence, item.now);
        QueuedWaits(next, Request(item.record, Some(peer), None));
        WaitsStill(next, f, item.record.id);
      }
    } else {
      assert item in items[1..];
      AllNewAreQueued(first, next, peer, items[1..], item);
    }
  }

  /** A response's list of at most 256 records does so as a whole, outside safety mode. */
  lemma SyncQueuesAllNew(e: Engine, peer: PeerId, items: seq<Item>, item: Item)
    requires e.replay.Valid() && !e.safetyMode && |items| <= 256
    requires AllAllowed(items) && |e.queue| + |items| <= 10_000
    requires item in items && item.valid && item.record.origin.Peer?
    requires e.replay.Decide(item.record.id, item.record.origin.peer, item.record.sequence, item.now) == Replay.New
    ensures Waits(AcceptSyncRecords(e, peer, items), item.record.id)
  {
    assert items[..|items|] == items;
    AllNewAreQueued(e, e, peer, items, item);
  }

  /** Outside its first 256 records, in safety mode, or for what is not valid, a list adds nothing. */
  lemma SyncQueuesOnlyValid(e: Engine, peer: PeerId, items: seq<Item>)
    requires e.replay.modulus > 0
    ensures var f := AcceptSyncRecords(e, peer, items);
            && e.queue <= f.queue && f.verdicts == e.verdicts && f.delivered == e.delivered
            && FromItems(f.queue, |e.queue|, peer, if |items| > 256 then items[..256] else items)
            && (e.safetyMode ==> f == e)
  {
    var first := items[..Min(|items|, MAX_REQUESTED_RECORDS)];
    assert first == if |items| > 256 then items[..256] else items;
    OnlyValidAreQueued(e, peer, first);
    ItemsMoveNoTokens(e, peer, first);
  }

  lemma {:induction false} ItemsMoveNoTokens(e: Engine, peer: PeerId, items: seq<Item>)
    requires e.replay.modulus > 0
    ensures AcceptItems(e, peer, items).verdicts == e.verdicts && AcceptItems(e, peer, items).delivered == e.delivered
    decreases |items|
  {
    if items != [] {
      ItemShape(e, peer, items[0]);
      ItemsMoveNoTokens(AcceptItem(e, peer, items[0]).0, peer, items[1..]);
    }
  }

  // ----- Safety mode -----

  /** The mode set last: by a maintenance report, or on by a failed answer. */
  function LastMode(s: State, es: seq<Event>, mode: bool): bool
    requires s.engine.replay.modulus > 0 && CanRun(s, es)
    decreases |es|
  {
    if es == [] then mode
    else
      var next := match es[0]
                  case Maintained(reported) => reported
                  case Handle(_) => mode || s.events[0].Failed?
                  case _ => mode;
      LastMode(Step(s, es[0]), es[1..], next)
  }

  /** Nothing but a maintenance report and a failed answer moves safety mode, in any run. */
  lemma {:induction false} SafetyModeIsLastSet(s: State, es: seq<Event>)
    requires s.engine.replay.modulus > 0 && CanRun(s, es)
    ensures Run(s, es).engine.safetyMode == LastMode(s, es, s.engine.safetyMode)
    decreases |es|
  {
    if es != [] {
      match es[0] {
        case Delivered(token, source, screening, now) => GossipShape(s.engine, token, source, screening, now);
        case SyncRecords(peer, items) =>
          ItemsKeepMode(s.engine, peer, items[..Min(|items|, MAX_REQUESTED_RECORDS)]);
        case _ =>
      }
      SafetyModeIsLastSet(Step(s, es[0]), es[1..]);
    }
  }

  lemma {:induction false} ItemsKeepMode(e: Engine, peer: PeerId, items: seq<Item>)
    requires e.replay.modulus > 0
    ensures AcceptItems(e, peer, items).safetyMode == e.safetyMode
    decreases |items|
  {
    if items != [] {
      ItemShape(e, peer, items[0]);
      ItemsKeepMode(AcceptItem(e, peer, items[0]).0, peer, items[1..]);
    }
  }
}
