/** What a check decides after any run of calls on a new filter, tracked or not. */
module ReplayRuns {
  import Sets
  import opened Limits
  import opened Bytes
  import Lru
  import opened Replay

  // ----- Windows over runs with evictions -----

  /** What a call does to the sequences accepted since the origin's window was last created. */
  function SinceStep(s: State, op: Op, origin: PeerId, since: set<U64>): set<U64> {
    (if origin in s.origins.table then since else {}) + AcceptedBy(op, origin)
  }

  /** The sequences accepted for the origin since its window was last created, over a run. */
  function SinceMade(s: State, ops: seq<Op>, origin: PeerId, since: set<U64>): set<U64>
    requires s.modulus > 0
    decreases |ops|
  {
    if ops == [] then since else SinceMade(s.Apply(ops[0]), ops[1..], origin, SinceStep(s, ops[0], origin, since))
  }

  ghost predicate WindowHolds(s: State, origin: PeerId, since: set<U64>) {
    origin in s.origins.table ==> WindowOf(s.origins.table[origin], since, s.window)
  }

  /** Only an accept for the origin makes it tracked. */
  lemma StaysUntracked(s: State, op: Op, origin: PeerId)
    requires s.Valid() && origin !in s.origins.table && AcceptedBy(op, origin) == {}
    ensures origin !in s.Apply(op).origins.table
  {
    match op
    case Checked(id, o, _, now) => Lru.TouchKeeps(s.origins, o);
    case Accepted(_, o, sequence, _) => WindowAfterAccept(s, o, sequence);
    case _ =>
  }

  lemma OneWindowStep(s: State, op: Op, origin: PeerId, since: set<U64>)
    requires s.Valid() && WindowHolds(s, origin, since)
    ensures WindowHolds(s.Apply(op), origin, SinceStep(s, op, origin, since))
  {
    if origin in s.origins.table {
      if origin in s.Apply(op).origins.table { WindowStep(s, op, origin, since); }
    } else if AcceptedBy(op, origin) == {} {
      StaysUntracked(s, op, origin);
    } else {
      WindowAfterAccept(s, origin, op.sequence);
      assert {} + {op.sequence} == {op.sequence};
    }
  }

  /** After any run, through any evictions, an origin that is tracked has the window of exactly the sequences
      accepted since that window was created. */
  lemma {:induction false} WindowOverAnyRun(s: State, ops: seq<Op>, origin: PeerId, since: set<U64>)
    requires s.Valid() && WindowHolds(s, origin, since)
    ensures s.Run(ops).Valid() && WindowHolds(s.Run(ops), origin, SinceMade(s, ops, origin, since))
    decreases |ops|
  {
    if ops != [] {
      StepKeepsValid(s, ops[0]);
      OneWindowStep(s, ops[0], origin, since);
      WindowOverAnyRun(s.Apply(ops[0]), ops[1..], origin, SinceStep(s, ops[0], origin, since));
    }
  }

  // ----- Runs that evict nothing -----

  ghost predicate AcceptsFrom(ops: seq<Op>, peers: set<PeerId>) {
    forall op :: op in ops ==> op.Accepted? && op.origin in peers
  }

  lemma NotFull<K(!new), V>(c: Lru.Cache<K, V>, k: K, keys: set<K>)
    requires c.Valid() && k in keys && k !in c.table && c.table.Keys <= keys && |keys| <= c.capacity
    ensures |c.order| < c.capacity
  {
    Lru.DistinctCount(c.order);
    assert (set x | x in c.order) == c.table.Keys;
    Sets.ProperSubsetSize(c.table.Keys, keys, k);
  }

  /** A cache of at most as many keys as it holds keeps them all. */
  lemma PutEvictsNothing<K(!new), V>(c: Lru.Cache<K, V>, k: K, v: V, keys: set<K>)
    requires c.Valid() && k in keys && k !in c.table && c.table.Keys <= keys && |keys| <= c.capacity
    ensures c.Put(k, v).table.Keys == c.table.Keys + {k}
  {
    NotFull(c, k, keys);
    Lru.PutKeepsOrEvicts(c, k, v);
  }

  lemma AcceptEvictsNothing(s: State, op: Op, peers: set<PeerId>)
    requires s.Valid() && op.Accepted? && op.origin in peers
    requires s.origins.table.Keys <= peers && |peers| <= s.origins.capacity
    ensures s.Apply(op).origins.table.Keys == s.origins.table.Keys + {op.origin}
  {
    var anew := OriginWindow(op.sequence, {});
    var held := s.origins.GetOrInsert(op.origin, anew);
    assert held.table.Keys == s.origins.table.Keys + {op.origin} by {
      if op.origin in s.origins.table {
        Lru.TouchKeeps(s.origins, op.origin);
      } else {
        PutEvictsNothing(s.origins, op.origin, anew, peers);
      }
    }
  }

  /** While a run accepts from no more origins than the cache holds, each stays tracked once it is, and its
      window is that of all its sequences. */
  lemma {:induction false} NothingEvicted(s: State, ops: seq<Op>, peers: set<PeerId>, origin: PeerId, since: set<U64>)
    requires s.Valid() && AcceptsFrom(ops, peers)
    requires s.origins.table.Keys <= peers && |peers| <= s.origins.capacity
    requires origin !in s.origins.table ==> since == {}
    ensures SinceMade(s, ops, origin, since) == since + AcceptedFor(ops, origin)
    ensures origin in s.Run(ops).origins.table <==> origin in s.origins.table || AcceptedFor(ops, origin) != {}
    decreases |ops|
  {
    if ops == [] {
      assert since + {} == since;
    } else {
      var op := ops[0];
      assert op in ops && AcceptsFrom(ops[1..], peers);
      StepKeepsValid(s, op);
      AcceptEvictsNothing(s, op, peers);
      NothingEvicted(s.Apply(op), ops[1..], peers, origin, SinceStep(s, op, origin, since));
      assert since + AcceptedBy(op, origin) + AcceptedFor(ops[1..], origin) == since + AcceptedFor(ops, origin);
    }
  }

  lemma {:induction false} AcceptedForHas(ops: seq<Op>, op: Op, origin: PeerId)
    requires op in ops && op.Accepted? && op.origin == origin
    ensures op.sequence in AcceptedFor(ops, origin)
  {
    if ops[0] != op { AcceptedForHas(ops[1..], op, origin); }
  }

  // ----- Persistent marks over runs -----

  function MarkedStep(op: Op, origin: PeerId, marked: set<U64>): set<U64> {
    match op
    case Loaded(highest, _) => if origin in Collect(highest) then {Collect(highest)[origin]} else {}
    case _ => marked + AcceptedBy(op, origin)
  }

  /** The origin's mark as last loaded, and the sequences accepted for it since. */
  function Marked(ops: seq<Op>, origin: PeerId, marked: set<U64>): set<U64>
    decreases |ops|
  {
    if ops == [] then marked else Marked(ops[1..], origin, MarkedStep(ops[0], origin, marked))
  }

  /** The mark is the greatest of these, if there is any. */
  ghost predicate MarkHolds(persistent: map<PeerId, U64>, origin: PeerId, marked: set<U64>) {
    if origin in persistent then persistent[origin] in marked && forall v :: v in marked ==> v <= persistent[origin]
    else marked == {}
  }

  lemma {:induction false} MarkOverRun(s: State, ops: seq<Op>, origin: PeerId, marked: set<U64>)
    requires s.modulus > 0 && MarkHolds(s.persistent, origin, marked)
    ensures MarkHolds(s.Run(ops).persistent, origin, Marked(ops, origin, marked))
    decreases |ops|
  {
    if ops != [] {
      MarkStep(s, ops[0], origin, marked);
      MarkOverRun(s.Apply(ops[0]), ops[1..], origin, MarkedStep(ops[0], origin, marked));
    }
  }

  lemma MarkStep(s: State, op: Op, origin: PeerId, marked: set<U64>)
    requires s.modulus > 0 && MarkHolds(s.persistent, origin, marked)
    ensures MarkHolds(s.Apply(op).persistent, origin, MarkedStep(op, origin, marked))
  {
  }

  // ----- Every decision -----

  /** The sequences a check is measured against: those of the window if the origin is tracked, else those of
      the mark. */
  function Measure(s: State, ops: seq<Op>, origin: PeerId): set<U64>
    requires s.modulus > 0
  {
    if origin in s.Run(ops).origins.table then SinceMade(s, ops, origin, {}) else Marked(ops, origin, {})
  }

  lemma DecisionByMark(s: State, origin: PeerId, marked: set<U64>, sequence: U64)
    requires origin !in s.origins.table && MarkHolds(s.persistent, origin, marked)
    ensures s.DecideByOrigin(origin, sequence) == New
            <==> forall v :: v in marked ==> v < SatAdd64(sequence, s.window)
  {
  }

  lemma DecisionBySince(s: State, origin: PeerId, since: set<U64>, sequence: U64)
    requires origin in s.origins.table && WindowOf(s.origins.table[origin], since, s.window)
    ensures s.DecideByOrigin(origin, sequence) == New
            <==> sequence !in since && forall v :: v in since ==> v < SatAdd64(sequence, s.window)
  {
    var w := s.origins.table[origin];
    if sequence in since && sequence !in w.accepted {
      assert sequence < SatSub(w.highest, s.window);
    }
  }

  lemma DecisionBy(s: State, origin: PeerId, since: set<U64>, marked: set<U64>, sequence: U64)
    requires WindowHolds(s, origin, since) && MarkHolds(s.persistent, origin, marked)
    ensures var measure := if origin in s.origins.table then since else marked;
            s.DecideByOrigin(origin, sequence) == New
            <==> (origin in s.origins.table ==> sequence !in measure)
                 && forall v :: v in measure ==> v < SatAdd64(sequence, s.window)
  {
    if origin in s.origins.table {
      DecisionBySince(s, origin, since, sequence);
    } else {
      DecisionByMark(s, origin, marked, sequence);
    }
  }

  lemma FilterFromNothing(s: State, ops: seq<Op>, id: RecordId)
    requires s.modulus > 0 && s.bits == {}
    ensures s.Run(ops).FilterContains(id) <==> IndexSet(id, s.modulus) <= IndicesOfAll(Inserted(ops), s.modulus)
  {
    FilterIsExactlyTheInserted(s, ops);
    assert s.Run(ops).bits == IndicesOfAll(Inserted(ops), s.modulus);
  }

  lemma DecisionFromNothing(s: State, ops: seq<Op>, id: RecordId, origin: PeerId, sequence: U64, now: Instant)
    requires s.Valid() && s.bits == {} && origin !in s.origins.table && origin !in s.persistent
    ensures var t := s.Run(ops);
            var measure := Measure(s, ops, origin);
            t.Decide(id, origin, sequence, now) == New <==>
              && !t.SeenRecently(id, now) && !(IndexSet(id, s.modulus) <= IndicesOfAll(Inserted(ops), s.modulus))
              && (origin in t.origins.table ==> sequence !in measure)
              && forall v :: v in measure ==> v < SatAdd64(sequence, s.window)
  {
    WindowOverAnyRun(s, ops, origin, {});
    MarkOverRun(s, ops, origin, {});
    FilterFromNothing(s, ops, id);
    var t := s.Run(ops);
    assert t.window == s.window;
    DecisionBy(t, origin, SinceMade(s, ops, origin, {}), Marked(ops, origin, {}), sequence);
    var measure := Measure(s, ops, origin);
    assert t.DecideByOrigin(origin, sequence) == New
           <==> (origin in t.origins.table ==> sequence !in measure)
                && forall v :: v in measure ==> v < SatAdd64(sequence, s.window);
  }

  /** After any run of calls on a new filter a check answers `New` exactly when the recent cache does not hold
      the id, the positions of the ids accepted or loaded do not cover it, and, for the sequences it is measured
      against, every one lies below the sequence plus `W` (saturating) and, if the origin is tracked, the
      sequence is none of them. Those are the sequences accepted since the window was last created, or, for an
      origin without a window, the mark last loaded and the sequences accepted since. */
  lemma DecisionIsExact(records: nat, ttl: nat, origins: nat, window: U64, modulus: nat, ops: seq<Op>,
                        id: RecordId, origin: PeerId, sequence: U64, now: Instant)
    requires modulus > 0
    ensures var s := Fresh(records, ttl, origins, window, modulus);
            var t := s.Run(ops);
            var measure := Measure(s, ops, origin);
            t.Decide(id, origin, sequence, now) == New <==>
              && !t.SeenRecently(id, now) && !(IndexSet(id, modulus) <= IndicesOfAll(Inserted(ops), modulus))
              && (origin in t.origins.table ==> sequence !in measure)
              && forall v :: v in measure ==> v < SatAdd64(sequence, window)
  {
    var s := Fresh(records, ttl, origins, window, modulus);
    DecisionFromNothing(s, ops, id, origin, sequence, now);
  }

  // ----- The recent cache over runs -----

  /** The call marks the id at an instant. */
  predicate Marks(op: Op, id: RecordId, at: Instant) {
    (op.Accepted? || op.Pending?) && op.id == id && op.now == at
  }

  lemma StepMarks(s: State, op: Op, id: RecordId)
    requires s.Valid() && id in s.Apply(op).recent.table
    ensures Marks(op, id, s.Apply(op).recent.table[id])
            || (id in s.recent.table && s.Apply(op).recent.table[id] == s.recent.table[id])
  {
    match op
    case Checked(x, _, _, now) =>
      Lru.TouchKeeps(s.recent, x);
      Lru.PopRemoves(s.recent.Touch(x), x);
    case Accepted(x, _, _, now) => Lru.PutKeepsOrEvicts(s.recent, x, now);
    case Pending(x, now) => Lru.PutKeepsOrEvicts(s.recent, x, now);
    case Forgotten(x) => Lru.PopRemoves(s.recent, x);
    case Loaded(_, _) =>
  }

  /** What is remembered after a run was marked in it, at the instant it is remembered from. */
  lemma {:induction false} RememberedWasMarked(s: State, ops: seq<Op>, id: RecordId)
    requires s.Valid() && id in s.Run(ops).recent.table
    ensures var at := s.Run(ops).recent.table[id];
            (exists op :: op in ops && Marks(op, id, at)) || (id in s.recent.table && s.recent.table[id] == at)
    decreases |ops|
  {
    if ops != [] {
      var t := s.Apply(ops[0]);
      var at := s.Run(ops).recent.table[id];
      StepKeepsValid(s, ops[0]);
      RememberedWasMarked(t, ops[1..], id);
      if exists op :: op in ops[1..] && Marks(op, id, at) {
        var op :| op in ops[1..] && Marks(op, id, at);
        assert op in ops;
      } else {
        StepMarks(s, ops[0], id);
        assert ops[0] in ops;
      }
    }
  }

  /** After any run on a new filter, an id whose marks are all more than the time to live ago, and which the bit
      filter does not cover, is decided by its origin alone, and checking it drops what was remembered of it. */
  lemma ExpiredIsDecidedByOrigin(records: nat, ttl: nat, origins: nat, window: U64, modulus: nat, ops: seq<Op>,
                                 id: RecordId, origin: PeerId, sequence: U64, now: Instant)
    requires modulus > 0 && forall op, at: Instant :: op in ops && Marks(op, id, at) ==> at + ttl < now
    requires !(IndexSet(id, modulus) <= IndicesOfAll(Inserted(ops), modulus))
    ensures var t := Fresh(records, ttl, origins, window, modulus).Run(ops);
            && t.Decide(id, origin, sequence, now) == t.DecideByOrigin(origin, sequence)
            && id !in t.Check(id, origin, now).recent.table
  {
    var s := Fresh(records, ttl, origins, window, modulus);
    var t := s.Run(ops);
    FilterFromNothing(s, ops, id);
    CachesStayBounded(s, ops);
    if id in t.recent.table { RememberedWasMarked(s, ops, id); }
    Lru.TouchKeeps(t.recent, id);
    Lru.PopRemoves(t.recent.Touch(id), id);
  }

  /** Just marked, an id is a duplicate for as long as the time to live lasts; after it, filter and origin decide. */
  lemma MarkLastsItsTime(s: State, id: RecordId, at: Instant, origin: PeerId, sequence: U64, now: Instant)
    requires s.Valid()
    ensures s.MarkPending(id, at).Decide(id, origin, sequence, now)
            == (if now <= at + s.ttl || s.FilterContains(id) then Duplicate else s.DecideByOrigin(origin, sequence))
  {
    Lru.PutKeepsOrEvicts(s.recent, id, at);
  }
}
