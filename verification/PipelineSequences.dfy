/** Under which sequence an answered record is accepted, and what that keeps out of the queue. */
module PipelineSequences {
  import opened Wrappers
  import opened Limits
  import opened Bytes
  import Store
  import Replay
  import opened Persistence
  import opened Pipeline
  import opened PipelineRuns
  import opened PipelineIntake

  // ----- One answer -----

  /** The answer is for a record of this origin and sequence, new to the table or not. */
  predicate AnswersFor(e: PersistEvent, origin: PeerId, sequence: U64) {
    match e
    case Stored(record, _, _) => record.origin == Store.Peer(origin) && record.sequence == sequence
    case Duplicate(_, o, q, _) => o == Some(origin) && q == sequence
    case Failed(_, _, _) => false
  }

  /** The window has taken the sequence, or has moved on past it. */
  predicate Covers(w: Replay.OriginWindow, sequence: U64, window: U64) {
    sequence in w.accepted || sequence + window < w.highest
  }

  ghost predicate Covered(r: Replay.State, origin: PeerId, sequence: U64) {
    origin in r.origins.table && Covers(r.origins.table[origin], sequence, r.window)
  }

  lemma CoveredIsRefused(r: Replay.State, origin: PeerId, sequence: U64)
    requires Covered(r, origin, sequence)
    ensures r.DecideByOrigin(origin, sequence) != Replay.New
  {
  }

  lemma AcceptTakes(r: Replay.State, id: RecordId, origin: PeerId, sequence: U64, now: Instant)
    requires r.Valid()
    ensures var t := r.Accept(id, origin, sequence, now);
            && Covered(t, origin, sequence)
            && t.origins.table[origin].highest
               == (if origin in r.origins.table then Max(r.origins.table[origin].highest, sequence) else sequence)
            && origin in t.persistent
            && t.persistent[origin]
               == (if origin in r.persistent then Max(r.persistent[origin], sequence) else sequence)
            && forall p :: p != origin ==>
                 (p in t.persistent <==> p in r.persistent)
                 && (p in t.persistent ==> t.persistent[p] == r.persistent[p])
  {
    Replay.WindowAfterAccept(r, origin, sequence);
  }

  /** Handling the answer for a record accepts it under its own id, origin and sequence: the sequence is refused
      from then on, whatever id comes with it, and window and mark move to it if it is the greatest. */
  lemma AnsweredSequenceIsTaken(e: Engine, event: PersistEvent, now: Instant, origin: PeerId, sequence: U64)
    requires e.replay.Valid() && AnswersFor(event, origin, sequence)
    ensures var (r, t) := (e.replay, HandlePersisted(e, event, now).replay);
            && t.DecideByOrigin(origin, sequence) != Replay.New
            && Covered(t, origin, sequence)
            && t.origins.table[origin].highest
               == (if origin in r.origins.table then Max(r.origins.table[origin].highest, sequence) else sequence)
            && origin in t.persistent
            && t.persistent[origin]
               == (if origin in r.persistent then Max(r.persistent[origin], sequence) else sequence)
  {
    match event
    case Stored(record, _, _) => AcceptTakes(e.replay, record.id, origin, sequence, now);
    case Duplicate(id, _, _, _) => AcceptTakes(e.replay, id, origin, sequence, now);
    case Failed(_, _, _) =>
  }

  // ----- An answered sequence over runs -----

  /** Intake moves no window. */
  lemma GossipKeepsWindows(e: Engine, token: Token, source: PeerId, screening: Screening, now: Instant)
    requires e.replay.modulus > 0
    ensures var (r, t) := (e.replay, ValidateGossip(e, token, source, screening, now).replay);
            t.origins.table == r.origins.table && t.window == r.window
  {
  }

  lemma ItemKeepsWindows(e: Engine, peer: PeerId, item: Item)
    requires e.replay.modulus > 0
    ensures var (r, t) := (e.replay, AcceptItem(e, peer, item).0.replay);
            t.origins.table == r.origins.table && t.window == r.window
  {
  }

  /** No request of intake from `from` on is for this origin and sequence. */
  ghost predicate NoneUnder(rs: seq<Request>, from: nat, origin: PeerId, sequence: U64) {
    forall i :: from <= i < |rs| && rs[i].source.Some? ==>
      !(rs[i].record.origin == Store.Peer(origin) && rs[i].record.sequence == sequence)
  }

  lemma NoneUnderExtends(a: seq<Request>, b: seq<Request>, from: nat, origin: PeerId, sequence: U64)
    requires a <= b && from <= |a| && NoneUnder(a, from, origin, sequence) && NoneUnder(b, |a|, origin, sequence)
    ensures NoneUnder(b, from, origin, sequence)
  {
    assert forall i :: 0 <= i < |a| ==> b[i] == a[i];
  }

  lemma CoveredGossip(e: Engine, token: Token, source: PeerId, screening: Screening, now: Instant, origin: PeerId,
                      sequence: U64)
    requires e.replay.modulus > 0 && Covered(e.replay, origin, sequence)
    ensures NoneUnder(ValidateGossip(e, token, source, screening, now).queue, |e.queue|, origin, sequence)
  {
    GossipShape(e, token, source, screening, now);
    GossipIsQueuedExactly(e, token, source, screening, now);
    CoveredIsRefused(e.replay, origin, sequence);
  }

  lemma {:induction false} CoveredItems(e: Engine, peer: PeerId, items: seq<Item>, origin: PeerId, sequence: U64)
    requires e.replay.modulus > 0 && Covered(e.replay, origin, sequence)
    ensures var f := AcceptItems(e, peer, items);
            && e.queue <= f.queue && NoneUnder(f.queue, |e.queue|, origin, sequence)
            && f.replay.origins.table == e.replay.origins.table && f.replay.window == e.replay.window
    decreases |items|
  {
    if items != [] {
      var (next, more) := AcceptItem(e, peer, items[0]);
      ItemIsQueuedExactly(e, peer, items[0]);
      ItemKeepsWindows(e, peer, items[0]);
      CoveredIsRefused(e.replay, origin, sequence);
      if more {
        CoveredItems(next, peer, items[1..], origin, sequence);
        NoneUnderExtends(next.queue, AcceptItems(next, peer, items[1..]).queue, |e.queue|, origin, sequence);
      }
    }
  }

  lemma SlideKeepsCover(r: Replay.State, w: Replay.OriginWindow, next: U64, sequence: U64)
    requires Covers(w, sequence, r.window)
    ensures Covers(r.Slide(w, next), sequence, r.window)
  {
  }

  lemma AcceptKeepsCover(r: Replay.State, id: RecordId, p: PeerId, q: U64, now: Instant, origin: PeerId, sequence: U64)
    requires r.Valid() && Covered(r, origin, sequence)
    requires origin in r.Accept(id, p, q, now).origins.table
    ensures Covered(r.Accept(id, p, q, now), origin, sequence)
  {
    Replay.WindowAfterAccept(r, p, q);
    SlideKeepsCover(r, r.origins.table[origin], q, sequence);
  }

  lemma HandledKeepsCover(e: Engine, event: PersistEvent, now: Instant, origin: PeerId, sequence: U64)
    requires e.replay.Valid() && Covered(e.replay, origin, sequence)
    requires origin in HandlePersisted(e, event, now).replay.origins.table
    ensures Covered(HandlePersisted(e, event, now).replay, origin, sequence)
  {
    match event
    case Stored(record, _, _) =>
      if record.origin.Peer? {
        AcceptKeepsCover(e.replay, record.id, record.origin.peer, record.sequence, now, origin, sequence);
      }
    case Duplicate(id, o, q, _) =>
      if o.Some? { AcceptKeepsCover(e.replay, id, o.value, q, now, origin, sequence); }
    case Failed(_, _, _) =>
  }

  ghost predicate TrackedThroughout(s: State, es: seq<Event>, origin: PeerId)
    requires s.engine.replay.modulus > 0 && CanRun(s, es)
    decreases |es|
  {
    origin in s.engine.replay.origins.table && (es == [] || TrackedThroughout(Step(s, es[0]), es[1..], origin))
  }

  lemma AfterAdds(s: State, e: Engine, origin: PeerId, sequence: U64, from: nat)
    requires s.engine.queue <= e.queue && NoneUnder(e.queue, |s.engine.queue|, origin, sequence)
    requires from <= |s.enqueued| && NoneUnder(s.enqueued, from, origin, sequence)
    ensures NoneUnder(After(s, e).enqueued, from, origin, sequence)
  {
    var added := e.queue[|s.engine.queue|..];
    forall i | from <= i < |s.enqueued + added| && (s.enqueued + added)[i].source.Some?
      ensures !((s.enqueued + added)[i].record.origin == Store.Peer(origin)
                && (s.enqueued + added)[i].record.sequence == sequence)
    {
      if i >= |s.enqueued| {
        assert (s.enqueued + added)[i] == e.queue[|s.engine.queue| + i - |s.enqueued|];
      }
    }
  }

  lemma CoveredStep(s: State, e: Event, origin: PeerId, sequence: U64, from: nat)
    requires Inv(s, 0) && Enabled(s, e) && Covered(s.engine.replay, origin, sequence)
    requires origin in Step(s, e).engine.replay.origins.table
    requires from <= |s.enqueued| && NoneUnder(s.enqueued, from, origin, sequence)
    ensures Covered(Step(s, e).engine.replay, origin, sequence)
    ensures from <= |Step(s, e).enqueued| && NoneUnder(Step(s, e).enqueued, from, origin, sequence)
  {
    match e
    case Delivered(token, source, screening, now) =>
      GossipMoves(s.engine, token, source, screening, now, 0);
      GossipKeepsWindows(s.engine, token, source, screening, now);
      CoveredGossip(s.engine, token, source, screening, now, origin, sequence);
      AfterAdds(s, ValidateGossip(s.engine, token, source, screening, now), origin, sequence, from);
    case SyncRecords(peer, items) =>
      CoveredItems(s.engine, peer, items[..Min(|items|, MAX_REQUESTED_RECORDS)], origin, sequence);
      AfterAdds(s, AcceptSyncRecords(s.engine, peer, items), origin, sequence, from);
    case Signed(record) => AfterAdds(s, HandleSigned(s.engine, record), origin, sequence, from);
    case Handle(now) => HandledKeepsCover(s.engine, s.events[0], now, origin, sequence);
    case _ =>
  }

  lemma {:induction false} CoveredOverRun(s: State, es: seq<Event>, origin: PeerId, sequence: U64, from: nat)
    requires Inv(s, 0) && CanRun(s, es) && Covered(s.engine.replay, origin, sequence)
    requires TrackedThroughout(s, es, origin) && from <= |s.enqueued| && NoneUnder(s.enqueued, from, origin, sequence)
    ensures NoneUnder(Run(s, es).enqueued, from, origin, sequence)
    decreases |es|
  {
    if es != [] {
      CoveredStep(s, es[0], origin, sequence, from);
      StepKeepsInv(s, es[0], 0);
      CoveredOverRun(Step(s, es[0]), es[1..], origin, sequence, from);
    }
  }

  /** Once the engine has handled the answer for a record, its origin and sequence are not queued again by gossip or
      synchronization under any id, in any later run in which the origin stays tracked. */
  lemma AnsweredSequenceIsNotQueued(s: State, start: State, before: seq<Event>, now: Instant, origin: PeerId,
                                    sequence: U64, after: seq<Event>)
    requires Reachable(s, start, before) && s.events != [] && AnswersFor(s.events[0], origin, sequence)
    requires CanRun(Step(s, Handle(now)), after) && TrackedThroughout(Step(s, Handle(now)), after, origin)
    ensures NoneUnder(Run(Step(s, Handle(now)), after).enqueued, |s.enqueued|, origin, sequence)
  {
    ReachableInv(s, start, before, 0);
    AnsweredSequenceIsTaken(s.engine, s.events[0], now, origin, sequence);
    StepKeepsInv(s, Handle(now), 0);
    CoveredOverRun(Step(s, Handle(now)), after, origin, sequence, |s.enqueued|);
  }
}
