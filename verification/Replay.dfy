/** The replay filter of src/network/replay.rs, on values: the meaning its classes are proved against. */
module Replay {
  import opened Limits
  import opened Bytes
  import Lru

  datatype Decision = New | Duplicate | TooOld

  datatype OriginWindow = OriginWindow(highest: U64, accepted: set<U64>)

  /** The four bit positions of an id in a filter of `modulus` bits. */
  function Indices(id: RecordId, modulus: nat): (r: seq<nat>)
    requires modulus > 0
    ensures forall i :: 0 <= i < |r| ==> r[i] < modulus
  {
    [FromLe(id[0..8]) % modulus, FromLe(id[8..16]) % modulus,
     FromLe(id[16..24]) % modulus, FromLe(id[24..32]) % modulus]
  }

  function IndexSet(id: RecordId, modulus: nat): set<nat>
    requires modulus > 0
  {
    set i | i in Indices(id, modulus)
  }

  /** Collecting pairs into a hash map: the last pair of a key wins. */
  function Collect(pairs: seq<(PeerId, U64)>): map<PeerId, U64>
  {
    if pairs == [] then map[]
    else var last := pairs[|pairs| - 1]; Collect(pairs[..|pairs| - 1])[last.0 := last.1]
  }

  function IndicesOfAll(ids: seq<RecordId>, modulus: nat): set<nat>
    requires modulus > 0
  {
    if ids == [] then {} else IndicesOfAll(ids[..|ids| - 1], modulus) + IndexSet(ids[|ids| - 1], modulus)
  }

  datatype State = State(
    recent: Lru.Cache<RecordId, Instant>,
    origins: Lru.Cache<PeerId, OriginWindow>,
    persistent: map<PeerId, U64>,
    bits: set<nat>,
    modulus: nat,
    ttl: nat,
    window: U64)
  {
    ghost predicate Valid() {
      recent.Valid() && origins.Valid() && modulus > 0
    }

    predicate SeenRecently(id: RecordId, now: Instant) {
      id in recent.table && Since(now, recent.table[id]) <= ttl
    }

    predicate FilterContains(id: RecordId)
      requires modulus > 0
    {
      IndexSet(id, modulus) <= bits
    }

    function Decide(id: RecordId, origin: PeerId, sequence: U64, now: Instant): Decision
      requires modulus > 0
    {
      if SeenRecently(id, now) || FilterContains(id) then Duplicate else DecideByOrigin(origin, sequence)
    }

    /** By the origin's window if it is tracked, else by its persistent mark. */
    function DecideByOrigin(origin: PeerId, sequence: U64): Decision {
      if origin in origins.table then
        var w := origins.table[origin];
        if sequence in w.accepted then Duplicate
        else if SatAdd64(sequence, window) <= w.highest then TooOld
        else New
      else if origin in persistent && SatAdd64(sequence, window) <= persistent[origin] then TooOld
      else New
    }

    /** A hit is promoted, an expired entry removed. */
    function TakenRecent(id: RecordId, now: Instant): Lru.Cache<RecordId, Instant> {
      if SeenRecently(id, now) then recent.Touch(id) else recent.Touch(id).Pop(id)
    }

    /** What `check` leaves behind: the recent cache, and the origin promoted if the check came to it. */
    function Check(id: RecordId, origin: PeerId, now: Instant): State
      requires modulus > 0
    {
      this.(recent := TakenRecent(id, now),
            origins := if SeenRecently(id, now) || FilterContains(id) then origins else origins.Touch(origin))
    }

    function Accept(id: RecordId, origin: PeerId, sequence: U64, now: Instant): State
      requires modulus > 0
    {
      State(recent.Put(id, now),
            AcceptWindow(origin, sequence),
            persistent[origin := if origin in persistent then Max(persistent[origin], sequence) else sequence],
            bits + IndexSet(id, modulus),
            modulus, ttl, window)
    }

    function AcceptWindow(origin: PeerId, sequence: U64): Lru.Cache<PeerId, OriginWindow> {
      var held := origins.GetOrInsert(origin, OriginWindow(sequence, {}));
      if origin in held.table then held.Write(origin, Slide(held.table[origin], sequence)) else held
    }

    function Slide(w: OriginWindow, sequence: U64): OriginWindow {
      var highest: U64 := Max(w.highest, sequence);
      var floor := SatSub(highest, window);
      OriginWindow(highest, set v | v in w.accepted + {sequence} && v >= floor)
    }

    function MarkPending(id: RecordId, now: Instant): State { this.(recent := recent.Put(id, now)) }

    function Forget(id: RecordId): State { this.(recent := recent.Pop(id)) }

    function Load(highest: seq<(PeerId, U64)>, ids: seq<RecordId>): State
      requires modulus > 0
    {
      this.(persistent := Collect(highest), bits := bits + IndicesOfAll(ids, modulus))
    }

    function Apply(op: Op): (r: State)
      requires modulus > 0
      ensures r.modulus == modulus && r.window == window && r.ttl == ttl
    {
      match op
      case Checked(id, origin, _, now) => Check(id, origin, now)
      case Accepted(id, origin, sequence, now) => Accept(id, origin, sequence, now)
      case Pending(id, now) => MarkPending(id, now)
      case Forgotten(id) => Forget(id)
      case Loaded(highest, ids) => Load(highest, ids)
    }

    function Run(ops: seq<Op>): (r: State)
      requires modulus > 0
      ensures r.modulus == modulus && r.window == window && r.ttl == ttl
      decreases |ops|
    {
      if ops == [] then this else Apply(ops[0]).Run(ops[1..])
    }
  }

  /** Every call the engine makes on the filter, in any order and with any clock reading. */
  datatype Op =
    | Checked(id: RecordId, origin: PeerId, sequence: U64, now: Instant)
    | Accepted(id: RecordId, origin: PeerId, sequence: U64, now: Instant)
    | Pending(id: RecordId, now: Instant)
    | Forgotten(id: RecordId)
    | Loaded(highest: seq<(PeerId, U64)>, ids: seq<RecordId>)

  function Fresh(records: nat, ttl: nat, origins: nat, window: U64, modulus: nat): State {
    State(Lru.Empty(Max(records, 1)), Lru.Empty(Max(origins, 1)), map[], {}, modulus, ttl, window)
  }

  /** `ActiveRecordFilter::new(16 MiB)`. */
  const FILTER_BITS: nat := 134_217_728

  function Default(): State {
    Fresh(RECENT_RECORD_CAPACITY, RECENT_RECORD_TTL, MAX_TRACKED_ORIGINS, SEQUENCE_WINDOW, FILTER_BITS)
  }

  // ----- Replay safety over whole runs -----

  /** No call ever clears a bit. */
  lemma {:induction false} BitsOnlyGrow(s: State, ops: seq<Op>)
    requires s.modulus > 0
    ensures s.bits <= s.Run(ops).bits
    decreases |ops|
  {
    if ops != [] { BitsOnlyGrow(s.Apply(ops[0]), ops[1..]); }
  }

  /** Once `accept` has run for an id, every later `check` of that id is `Duplicate`: whatever calls,
      evictions, expiries and reloads lie between, and whatever origin and sequence come with it. */
  lemma AcceptedIsNeverNewAgain(s: State, id: RecordId, origin: PeerId, sequence: U64, now: Instant,
                                ops: seq<Op>, origin': PeerId, sequence': U64, now': Instant)
    requires s.modulus > 0
    ensures s.Accept(id, origin, sequence, now).Run(ops).Decide(id, origin', sequence', now') == Duplicate
  {
    BitsOnlyGrow(s.Accept(id, origin, sequence, now), ops);
  }

  lemma {:induction false} IndicesOfMember(ids: seq<RecordId>, id: RecordId, modulus: nat)
    requires modulus > 0 && id in ids
    ensures IndexSet(id, modulus) <= IndicesOfAll(ids, modulus)
  {
    if id != ids[|ids| - 1] {
      assert id in ids[..|ids| - 1];
      IndicesOfMember(ids[..|ids| - 1], id, modulus);
    }
  }

  /** The same for an id loaded from the database at start-up. */
  lemma LoadedIsNeverNewAgain(s: State, highest: seq<(PeerId, U64)>, ids: seq<RecordId>, id: RecordId,
                              ops: seq<Op>, origin: PeerId, sequence: U64, now: Instant)
    requires s.modulus > 0 && id in ids
    ensures s.Load(highest, ids).Run(ops).Decide(id, origin, sequence, now) == Duplicate
  {
    IndicesOfMember(ids, id, s.modulus);
    BitsOnlyGrow(s.Load(highest, ids), ops);
  }

  /** The ids a run put into the bit filter. */
  function Inserted(ops: seq<Op>): seq<RecordId>
  {
    if ops == [] then []
    else (match ops[0]
          case Accepted(id, _, _, _) => [id]
          case Loaded(_, ids) => ids
          case _ => []) + Inserted(ops[1..])
  }

  lemma {:induction false} IndicesOfConcat(a: seq<RecordId>, b: seq<RecordId>, modulus: nat)
    requires modulus > 0
    ensures IndicesOfAll(a + b, modulus) == IndicesOfAll(a, modulus) + IndicesOfAll(b, modulus)
    decreases |b|
  {
    if b == [] {
      assert a + b == a;
    } else {
      assert (a + b)[..|a + b| - 1] == a + b[..|b| - 1];
      IndicesOfConcat(a, b[..|b| - 1], modulus);
    }
  }

  /** The bit array is exactly the union of the positions of the ids put into it: a `check` that hits the
      filter for an id never accepted is a collision on all four positions, and nothing else. */
  lemma {:induction false} FilterIsExactlyTheInserted(s: State, ops: seq<Op>)
    requires s.modulus > 0
    ensures s.Run(ops).bits == s.bits + IndicesOfAll(Inserted(ops), s.modulus)
    decreases |ops|
  {
    if ops != [] {
      FilterIsExactlyTheInserted(s.Apply(ops[0]), ops[1..]);
      var here := (match ops[0]
                   case Accepted(id, _, _, _) => [id]
                   case Loaded(_, ids) => ids
                   case _ => []);
      IndicesOfConcat(here, Inserted(ops[1..]), s.modulus);
      if ops[0].Accepted? {
        assert [ops[0].id][..0] == [];
        assert IndicesOfAll([ops[0].id], s.modulus) == IndexSet(ops[0].id, s.modulus);
      }
      assert s.Apply(ops[0]).bits == s.bits + IndicesOfAll(here, s.modulus);
    }
  }

  /** Both caches stay within their capacities in every run. */
  lemma {:induction false} CachesStayBounded(s: State, ops: seq<Op>)
    requires s.Valid()
    ensures s.Run(ops).Valid()
    ensures |s.Run(ops).recent.order| <= s.recent.capacity && |s.Run(ops).origins.order| <= s.origins.capacity
    decreases |ops|
  {
    if ops != [] {
      StepKeepsValid(s, ops[0]);
      CachesStayBounded(s.Apply(ops[0]), ops[1..]);
    }
  }

  lemma StepKeepsValid(s: State, op: Op)
    requires s.Valid()
    ensures s.Apply(op).Valid()
    ensures s.Apply(op).recent.capacity == s.recent.capacity && s.Apply(op).origins.capacity == s.origins.capacity
  {
    match op
    case Checked(id, origin, _, now) => CheckKeepsValid(s, id, origin, now);
    case Accepted(id, origin, sequence, now) =>
      Lru.PutKeepsOrEvicts(s.recent, id, now);
      WindowAfterAccept(s, origin, sequence);
      assert s.Apply(op) == s.Accept(id, origin, sequence, now);
    case Pending(id, now) =>
      Lru.PutKeepsOrEvicts(s.recent, id, now);
      assert s.Apply(op) == s.MarkPending(id, now);
    case Forgotten(id) =>
      Lru.PopRemoves(s.recent, id);
      assert s.Apply(op) == s.Forget(id);
    case Loaded(_, _) =>
  }

  lemma CheckKeepsValid(s: State, id: RecordId, origin: PeerId, now: Instant)
    requires s.Valid()
    ensures var t := s.Check(id, origin, now);
            t.Valid() && t.recent.capacity == s.recent.capacity && t.origins.capacity == s.origins.capacity
  {
    Lru.TouchKeeps(s.recent, id);
    Lru.TouchKeeps(s.origins, origin);
    TouchPopKeeps(s.recent, id);
  }

  lemma TouchPopKeeps(c: Lru.Cache<RecordId, Instant>, id: RecordId)
    requires c.Valid()
    ensures c.Touch(id).Pop(id).Valid() && c.Touch(id).Pop(id).capacity == c.capacity
  {
    Lru.TouchKeeps(c, id);
    Lru.PopRemoves(c.Touch(id), id);
  }

  /** `accept` slides the origin's window, creating it at the accepted sequence when it was not tracked, and
      touches no other window except by evicting it. */
  lemma WindowAfterAccept(s: State, origin: PeerId, sequence: U64)
    requires s.Valid()
    ensures var o := s.AcceptWindow(origin, sequence);
            && o.Valid() && o.capacity == s.origins.capacity && origin in o.table
            && o.table[origin] == s.Slide(if origin in s.origins.table then s.origins.table[origin]
                                          else OriginWindow(sequence, {}), sequence)
            && forall p :: p in o.table && p != origin ==> p in s.origins.table && o.table[p] == s.origins.table[p]
  {
    if origin in s.origins.table {
      Lru.TouchKeeps(s.origins, origin);
    } else {
      Lru.PutKeepsOrEvicts(s.origins, origin, OriginWindow(sequence, {}));
    }
  }

  // ----- Window exactness -----

  /** The sequences a run accepted for an origin. */
  function AcceptedFor(ops: seq<Op>, origin: PeerId): set<U64>
  {
    if ops == [] then {}
    else AcceptedBy(ops[0], origin) + AcceptedFor(ops[1..], origin)
  }

  ghost predicate TrackedThroughout(s: State, ops: seq<Op>, origin: PeerId)
    requires s.modulus > 0
    decreases |ops|
  {
    origin in s.origins.table && (ops == [] || TrackedThroughout(s.Apply(ops[0]), ops[1..], origin))
  }

  /** The window of an origin whose tracked acceptances are `all`. */
  ghost predicate WindowOf(w: OriginWindow, all: set<U64>, window: U64) {
    && w.highest in all
    && (forall v :: v in all ==> v <= w.highest)
    && w.accepted == set v | v in all && v >= SatSub(w.highest, window)
  }

  lemma SlideAddsOne(s: State, w: OriginWindow, all: set<U64>, sequence: U64)
    requires WindowOf(w, all, s.window)
    ensures WindowOf(s.Slide(w, sequence), all + {sequence}, s.window)
  {
    var r := s.Slide(w, sequence);
    var grown := all + {sequence};
    assert SatSub(r.highest, s.window) >= SatSub(w.highest, s.window);
    assert r.accepted == set v | v in grown && v >= SatSub(r.highest, s.window);
  }

  /** The sequences a call accepts for an origin. */
  function AcceptedBy(op: Op, origin: PeerId): set<U64> {
    if op.Accepted? && op.origin == origin then {op.sequence} else {}
  }

  lemma WindowStep(s: State, op: Op, origin: PeerId, all: set<U64>)
    requires s.Valid() && origin in s.origins.table && origin in s.Apply(op).origins.table
    requires WindowOf(s.origins.table[origin], all, s.window)
    ensures WindowOf(s.Apply(op).origins.table[origin], all + AcceptedBy(op, origin), s.window)
  {
    assert all + {} == all;
    if op.Accepted? {
      WindowAfterAccept(s, op.origin, op.sequence);
      if op.origin == origin {
        SlideAddsOne(s, s.origins.table[origin], all, op.sequence);
      }
    }
  }

  lemma {:induction false} WindowOverRun(s: State, ops: seq<Op>, origin: PeerId, all: set<U64>)
    requires s.Valid() && TrackedThroughout(s, ops, origin)
    requires WindowOf(s.origins.table[origin], all, s.window)
    ensures s.Run(ops).Valid() && origin in s.Run(ops).origins.table
    ensures WindowOf(s.Run(ops).origins.table[origin], all + AcceptedFor(ops, origin), s.window)
    decreases |ops|
  {
    if ops == [] {
      assert all + AcceptedFor(ops, origin) == all;
    } else {
      var op := ops[0];
      StepKeepsValid(s, op);
      WindowStep(s, op, origin, all);
      WindowOverRun(s.Apply(op), ops[1..], origin, all + AcceptedBy(op, origin));
      assert all + AcceptedBy(op, origin) + AcceptedFor(ops[1..], origin) == all + AcceptedFor(ops, origin);
    }
  }

  lemma {:induction false} IntervalSize(values: set<U64>, low: int, width: nat)
    requires forall v :: v in values ==> low <= v < low + width
    ensures |values| <= width
    decreases width
  {
    if width == 0 {
      assert values == {};
    } else {
      var top := low + width - 1;
      var rest := set v | v in values && v != top;
      IntervalSize(rest, low, width - 1);
      if top in values {
        assert values == rest + {top};
      } else {
        assert values == rest;
      }
    }
  }

  lemma DecisionByWindow(s: State, id: RecordId, origin: PeerId, all: set<U64>, sequence: U64, now: Instant)
    requires s.modulus > 0 && origin in s.origins.table && WindowOf(s.origins.table[origin], all, s.window)
    ensures sequence in all ==> s.Decide(id, origin, sequence, now) != New
    ensures var highest := s.origins.table[origin].highest;
            s.Decide(id, origin, sequence, now) == New <==>
            && !s.SeenRecently(id, now) && !s.FilterContains(id)
            && sequence !in all && highest < sequence + s.window && highest < U64_MAX
  {
    var w := s.origins.table[origin];
    if sequence in all && sequence !in w.accepted {
      assert sequence < SatSub(w.highest, s.window);
    }
  }

  /** From the `accept` that creates an origin's window, for as long as the window stays tracked: the window
      holds exactly the accepted sequences at or above `highest - W`, at most `W + 1` of them, and `highest`
      is the greatest sequence accepted. */
  lemma WindowIsExact(s: State, id: RecordId, origin: PeerId, sequence: U64, now: Instant, ops: seq<Op>)
    requires s.Valid() && origin !in s.origins.table
    requires TrackedThroughout(s.Accept(id, origin, sequence, now), ops, origin)
    ensures var t := s.Accept(id, origin, sequence, now).Run(ops);
            && origin in t.origins.table
            && WindowOf(t.origins.table[origin], {sequence} + AcceptedFor(ops, origin), s.window)
            && |t.origins.table[origin].accepted| <= s.window + 1
  {
    var s1 := s.Accept(id, origin, sequence, now);
    StepKeepsValid(s, Accepted(id, origin, sequence, now));
    WindowAfterAccept(s, origin, sequence);
    assert WindowOf(s1.origins.table[origin], {sequence}, s.window);
    WindowOverRun(s1, ops, origin, {sequence});
    var w := s1.Run(ops).origins.table[origin];
    IntervalSize(w.accepted, SatSub(w.highest, s.window), s.window + 1);
  }

  /** While the window stays tracked a check answers `New` exactly when the id is unknown to the recent cache
      and to the bit filter, the sequence was not accepted, it is less than `W` below the greatest accepted
      sequence, and that sequence is not `u64::MAX`: there the saturating addition makes every unseen
      sequence too old. In particular no sequence accepted since is `New` again, under any record id. */
  lemma TrackedDecisionIsExact(s: State, id: RecordId, origin: PeerId, sequence: U64, now: Instant,
                               ops: seq<Op>, id': RecordId, sequence': U64, now': Instant)
    requires s.Valid() && origin !in s.origins.table
    requires TrackedThroughout(s.Accept(id, origin, sequence, now), ops, origin)
    ensures var t := s.Accept(id, origin, sequence, now).Run(ops);
            var all := {sequence} + AcceptedFor(ops, origin);
            && t.modulus > 0 && origin in t.origins.table
            && (sequence' in all ==> t.Decide(id', origin, sequence', now') != New)
            && (t.Decide(id', origin, sequence', now') == New <==>
                  && !t.SeenRecently(id', now') && !t.FilterContains(id')
                  && sequence' !in all
                  && t.origins.table[origin].highest < sequence' + s.window
                  && t.origins.table[origin].highest < U64_MAX)
  {
    WindowIsExact(s, id, origin, sequence, now, ops);
    var t := s.Accept(id, origin, sequence, now).Run(ops);
    DecisionByWindow(t, id', origin, {sequence} + AcceptedFor(ops, origin), sequence', now');
  }
}
