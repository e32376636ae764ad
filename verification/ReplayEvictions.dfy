/** When the replay filter still tracks an origin, and a sequence it forgets when it does not. */
module ReplayEvictions {
  import Sets
  import opened Limits
  import opened Bytes
  import Lru
  import opened Replay
  import opened ReplayRuns

  // ----- Which windows are kept -----

  /** The origin whose window a call makes the most recent, if it does. */
  function Uses(s: State, op: Op): set<PeerId>
    requires s.modulus > 0
  {
    match op
    case Accepted(_, origin, _, _) => {origin}
    case Checked(id, origin, _, now) =>
      if origin in s.origins.table && !s.SeenRecently(id, now) && !s.FilterContains(id) then {origin} else {}
    case _ => {}
  }

  function UsedBy(s: State, ops: seq<Op>): set<PeerId>
    requires s.modulus > 0
    decreases |ops|
  {
    if ops == [] then {} else Uses(s, ops[0]) + UsedBy(s.Apply(ops[0]), ops[1..])
  }

  /** Accepting uses the cache as putting does. */
  lemma AcceptIsPut(s: State, origin: PeerId, sequence: U64, w: OriginWindow)
    requires s.Valid()
    ensures var (held, put) := (s.AcceptWindow(origin, sequence), s.origins.Put(origin, w));
            held.order == put.order && held.table.Keys == put.table.Keys
  {
    var anew := OriginWindow(sequence, {});
    assert s.origins.GetOrInsert(origin, anew).order == s.origins.Put(origin, w).order;
    Lru.PutKeepsOrEvicts(s.origins, origin, anew);
    Lru.PutKeepsOrEvicts(s.origins, origin, w);
    Lru.TouchKeeps(s.origins, origin);
  }

  lemma NewerFits(c: Lru.Cache<PeerId, OriginWindow>, p: PeerId)
    requires c.Valid() && p in c.table
    ensures |Lru.Newer(c.order, p)| < c.capacity
  {
    var i :| 0 <= i < |c.order| && c.order[i] == p;
    Lru.NewerCount(c.order, p, i);
  }

  lemma UseAges(s: State, op: Op, p: PeerId)
    requires s.Valid() && p in s.origins.table && p !in Uses(s, op)
    ensures var newer := Lru.Newer(s.origins.order, p) + Uses(s, op);
            && (p in s.Apply(op).origins.table <==> |newer| < s.origins.capacity)
            && (p in s.Apply(op).origins.table ==> Lru.Newer(s.Apply(op).origins.order, p) == newer)
  {
    var newer := Lru.Newer(s.origins.order, p);
    NewerFits(s.origins, p);
    assert newer + {} == newer;
    match op
    case Accepted(_, origin, sequence, _) => AcceptAges(s, origin, sequence, p);
    case Checked(_, origin, _, _) => if Uses(s, op) == {origin} { CheckAges(s.origins, origin, p); }
    case _ =>
  }

  lemma AcceptAges(s: State, origin: PeerId, sequence: U64, p: PeerId)
    requires s.Valid() && p in s.origins.table && p != origin
    ensures var (newer, held) := (Lru.Newer(s.origins.order, p) + {origin}, s.AcceptWindow(origin, sequence));
            && (p in held.table <==> |newer| < s.origins.capacity)
            && (p in held.table ==> Lru.Newer(held.order, p) == newer)
  {
    AcceptIsPut(s, origin, sequence, OriginWindow(sequence, {}));
    Lru.PutAges(s.origins, origin, OriginWindow(sequence, {}), p);
    assert p in s.AcceptWindow(origin, sequence).table
           <==> p in s.origins.Put(origin, OriginWindow(sequence, {})).table;
  }

  lemma CheckAges(c: Lru.Cache<PeerId, OriginWindow>, origin: PeerId, p: PeerId)
    requires c.Valid() && p in c.table && origin in c.table && p != origin
    ensures var newer := Lru.Newer(c.order, p) + {origin};
            |newer| < c.capacity && Lru.Newer(c.Touch(origin).order, p) == newer && p in c.Touch(origin).table
  {
    Lru.TouchKeeps(c, origin);
    NewerFits(c.Touch(origin), p);
    Lru.TouchAges(c, origin, p);
  }

  lemma {:induction false} UntrackedStays(s: State, ops: seq<Op>, p: PeerId)
    requires s.Valid() && p !in s.origins.table && p !in UsedBy(s, ops)
    ensures p !in s.Run(ops).origins.table
    decreases |ops|
  {
    if ops != [] {
      StepKeepsValid(s, ops[0]);
      StaysUntracked(s, ops[0], p);
      UntrackedStays(s.Apply(ops[0]), ops[1..], p);
    }
  }

  lemma {:induction false} TrackedAfter(s: State, ops: seq<Op>, p: PeerId)
    requires s.Valid() && p in s.origins.table && p !in UsedBy(s, ops)
    ensures p in s.Run(ops).origins.table
            <==> |Lru.Newer(s.origins.order, p) + UsedBy(s, ops)| < s.origins.capacity
    decreases |ops|
  {
    var newer := Lru.Newer(s.origins.order, p);
    if ops == [] {
      NewerFits(s.origins, p);
      assert newer + {} == newer;
    } else {
      var (t, used, rest) := (s.Apply(ops[0]), Uses(s, ops[0]), UsedBy(s.Apply(ops[0]), ops[1..]));
      StepKeepsValid(s, ops[0]);
      UseAges(s, ops[0], p);
      assert newer + (used + rest) == newer + used + rest;
      if p in t.origins.table {
        TrackedAfter(t, ops[1..], p);
      } else {
        Sets.SubsetSize(newer + used, newer + used + rest);
        UntrackedStays(t, ops[1..], p);
      }
    }
  }

  /** Accepting a record of an origin keeps it tracked, through any calls that do not use it again, exactly as
      long as fewer origins have been used since than the cache holds. */
  lemma TrackedExactly(s: State, id: RecordId, origin: PeerId, sequence: U64, now: Instant, ops: seq<Op>)
    requires s.Valid() && origin !in UsedBy(s.Accept(id, origin, sequence, now), ops)
    ensures var t := s.Accept(id, origin, sequence, now);
            origin in t.Run(ops).origins.table <==> |UsedBy(t, ops)| < s.origins.capacity
  {
    var t := s.Accept(id, origin, sequence, now);
    StepKeepsValid(s, Accepted(id, origin, sequence, now));
    WindowAfterAccept(s, origin, sequence);
    AcceptIsPut(s, origin, sequence, OriginWindow(sequence, {}));
    assert t.origins.order[0] == origin;
    assert {} + UsedBy(t, ops) == UsedBy(t, ops);
    TrackedAfter(t, ops, origin);
  }

  // ----- Which ids are remembered -----

  /** Calls that mark ids other than this one. */
  ghost predicate MarksOthers(ops: seq<Op>, id: RecordId) {
    forall op :: op in ops ==> (op.Accepted? || op.Pending?) && op.id != id
  }

  function MarkedIds(ops: seq<Op>): set<RecordId> {
    if ops == [] then {}
    else (if ops[0].Accepted? || ops[0].Pending? then {ops[0].id} else {}) + MarkedIds(ops[1..])
  }

  lemma ForgottenStays(s: State, op: Op, id: RecordId)
    requires s.Valid() && (op.Accepted? || op.Pending?) && op.id != id && id !in s.recent.table
    ensures id !in s.Apply(op).recent.table
  {
    Lru.PutKeepsOrEvicts(s.recent, op.id, op.now);
  }

  lemma MarkAges(s: State, op: Op, id: RecordId)
    requires s.Valid() && (op.Accepted? || op.Pending?) && op.id != id && id in s.recent.table
    ensures var newer := Lru.Newer(s.recent.order, id) + {op.id};
            var t := s.Apply(op).recent;
            && (id in t.table <==> |newer| < s.recent.capacity)
            && (id in t.table ==> t.table[id] == s.recent.table[id] && Lru.Newer(t.order, id) == newer)
  {
    Lru.PutAges(s.recent, op.id, op.now, id);
  }

  lemma {:induction false} RememberedAfter(s: State, ops: seq<Op>, id: RecordId)
    requires s.Valid() && id in s.recent.table && MarksOthers(ops, id)
    ensures id in s.Run(ops).recent.table
            <==> |Lru.Newer(s.recent.order, id) + MarkedIds(ops)| < s.recent.capacity
    ensures id in s.Run(ops).recent.table ==> s.Run(ops).recent.table[id] == s.recent.table[id]
    decreases |ops|
  {
    var newer := Lru.Newer(s.recent.order, id);
    if ops == [] {
      var i :| 0 <= i < |s.recent.order| && s.recent.order[i] == id;
      Lru.NewerCount(s.recent.order, id, i);
      assert newer + {} == newer;
    } else {
      var t := s.Apply(ops[0]);
      assert ops[0] in ops;
      StepKeepsValid(s, ops[0]);
      MarkAges(s, ops[0], id);
      assert newer + MarkedIds(ops) == newer + {ops[0].id} + MarkedIds(ops[1..]);
      if id in t.recent.table {
        RememberedAfter(t, ops[1..], id);
      } else {
        Sets.SubsetSize(newer + {ops[0].id}, newer + MarkedIds(ops));
        NeverRemembered(t, ops[1..], id);
      }
    }
  }

  lemma {:induction false} NeverRemembered(s: State, ops: seq<Op>, id: RecordId)
    requires s.Valid() && id !in s.recent.table && MarksOthers(ops, id)
    ensures id !in s.Run(ops).recent.table
    decreases |ops|
  {
    if ops != [] {
      assert ops[0] in ops;
      StepKeepsValid(s, ops[0]);
      ForgottenStays(s, ops[0], id);
      NeverRemembered(s.Apply(ops[0]), ops[1..], id);
    }
  }

  /** A marked id is remembered exactly as long as fewer others are marked after it than the cache holds, and so is
      an id that a check has just found again: a hit counts as the latest use and keeps its instant. */
  lemma RememberedExactly(s: State, id: RecordId, origin: PeerId, at: Instant, now: Instant, ops: seq<Op>)
    requires s.Valid() && MarksOthers(ops, id)
    ensures var t := s.MarkPending(id, at).Run(ops);
            && (id in t.recent.table <==> |MarkedIds(ops)| < s.recent.capacity)
            && (id in t.recent.table ==> t.recent.table[id] == at)
    ensures s.SeenRecently(id, now) ==>
              var t := s.Check(id, origin, now).Run(ops);
              && (id in t.recent.table <==> |MarkedIds(ops)| < s.recent.capacity)
              && (id in t.recent.table ==> t.recent.table[id] == s.recent.table[id])
  {
    StepKeepsValid(s, Pending(id, at));
    Lru.PutKeepsOrEvicts(s.recent, id, at);
    assert s.recent.Put(id, at).order[0] == id;
    assert {} + MarkedIds(ops) == MarkedIds(ops);
    RememberedAfter(s.MarkPending(id, at), ops, id);
    if s.SeenRecently(id, now) {
      CheckKeepsValid(s, id, origin, now);
      Lru.TouchKeeps(s.recent, id);
      assert s.recent.Touch(id).order[0] == id;
      RememberedAfter(s.Check(id, origin, now), ops, id);
    }
  }

  /** In a new filter of at least one record each way, the two capacities are those asked for. */
  lemma FreshHolds(records: nat, ttl: nat, origins: nat, window: U64, modulus: nat)
    requires modulus > 0
    ensures var s := Fresh(records, ttl, origins, window, modulus);
            && s.Valid() && s.recent.table == map[] && s.origins.table == map[] && s.persistent == map[] && s.bits == {}
            && s.recent.capacity == (if records == 0 then 1 else records)
            && s.origins.capacity == (if origins == 0 then 1 else origins)
            && s.ttl == ttl && s.window == window && s.modulus == modulus
  {
  }

  // ----- A sequence forgotten -----

  ghost predicate AcceptsOthers(ops: seq<Op>, origin: PeerId) {
    forall op :: op in ops ==> op.Accepted? && op.origin != origin
  }

  function OriginsOf(ops: seq<Op>): set<PeerId> {
    if ops == [] then {} else (if ops[0].Accepted? then {ops[0].origin} else {}) + OriginsOf(ops[1..])
  }

  lemma {:induction false} AcceptsUse(s: State, ops: seq<Op>, origin: PeerId)
    requires s.modulus > 0 && AcceptsOthers(ops, origin)
    ensures UsedBy(s, ops) == OriginsOf(ops) && origin !in UsedBy(s, ops)
    decreases |ops|
  {
    if ops != [] {
      AcceptsUse(s.Apply(ops[0]), ops[1..], origin);
    }
  }

  /** What the recent cache holds has been put into the bit filter, if every call accepts. */
  lemma {:induction false} RecentAreInserted(s: State, ops: seq<Op>, origin: PeerId)
    requires s.Valid() && AcceptsOthers(ops, origin)
    ensures s.Run(ops).Valid()
    ensures forall x :: x in s.Run(ops).recent.table ==> x in s.recent.table || x in Inserted(ops)
    decreases |ops|
  {
    if ops != [] {
      Lru.PutKeepsOrEvicts(s.recent, ops[0].id, ops[0].now);
      StepKeepsValid(s, ops[0]);
      RecentAreInserted(s.Apply(ops[0]), ops[1..], origin);
    }
  }

  lemma NewUnderItsWindow(s: State, origin: PeerId, sequence: U64, d: RecordId, later: Instant)
    requires s.modulus > 0 && s.window >= 2 && sequence + 1 < U64_MAX && origin in s.origins.table
    requires s.origins.table[origin] == OriginWindow(sequence + 1, {sequence + 1})
    requires d !in s.recent.table && !s.FilterContains(d)
    ensures s.Decide(d, origin, sequence, later) == New
  {
  }

  lemma Unknown(s: State, ops: seq<Op>, origin: PeerId, c: RecordId, sequence: U64, now: Instant, d: RecordId)
    requires s.Valid() && AcceptsOthers(ops, origin) && d !in s.recent.table
    requires !(IndexSet(d, s.modulus) <= s.bits + IndicesOfAll(Inserted(ops), s.modulus) + IndexSet(c, s.modulus))
    ensures var t := s.Run(ops).Accept(c, origin, sequence, now);
            d !in t.recent.table && !t.FilterContains(d)
  {
    FilterIsExactlyTheInserted(s, ops);
    RecentAreInserted(s, ops, origin);
    if d in Inserted(ops) { IndicesOfMember(Inserted(ops), d, s.modulus); }
    Lru.PutKeepsOrEvicts(s.Run(ops).recent, c, now);
  }

  lemma MadeAnew(s: State, id: RecordId, origin: PeerId, sequence: U64, now: Instant)
    requires s.Valid() && origin !in s.origins.table
    ensures var t := s.Accept(id, origin, sequence, now);
            t.Valid() && origin in t.origins.table && t.origins.table[origin] == OriginWindow(sequence, {sequence})
  {
    StepKeepsValid(s, Accepted(id, origin, sequence, now));
    WindowAfterAccept(s, origin, sequence);
    assert s.Slide(OriginWindow(sequence, {}), sequence) == OriginWindow(sequence, {sequence});
  }

  /** In a filter of any size: a sequence that was accepted, and is refused while its origin is tracked, is `New`
      again under another id once as many other origins as the cache holds have been accepted and the origin's
      next sequence has made its window anew. */
  lemma EvictedSequenceIsNewAgain(records: nat, ttl: nat, origins: nat, window: U64, modulus: nat, s: State,
                                  origin: PeerId, sequence: U64, a: RecordId, others: seq<Op>, c: RecordId,
                                  d: RecordId, now: Instant, later: Instant)
    requires s == Fresh(records, ttl, origins, window, modulus)
    requires modulus > 0 && window >= 2 && sequence + 1 < U64_MAX
    requires AcceptsOthers(others, origin) && |OriginsOf(others)| >= Max(origins, 1)
    requires !(IndexSet(d, modulus)
               <= IndexSet(a, modulus) + IndicesOfAll(Inserted(others), modulus) + IndexSet(c, modulus))
    ensures var accepted := s.Accept(a, origin, sequence, now);
            var evicted := accepted.Run(others);
            var anew := evicted.Accept(c, origin, sequence + 1, now);
            && origin in accepted.origins.table && accepted.Decide(d, origin, sequence, later) != New
            && origin !in evicted.origins.table
            && origin in anew.origins.table && anew.Decide(d, origin, sequence, later) == New
  {
    ForgottenFrom(s, origin, sequence, a, others, c, d, now, later);
  }

  lemma ForgottenFrom(s: State, origin: PeerId, sequence: U64, a: RecordId, others: seq<Op>, c: RecordId,
                      d: RecordId, now: Instant, later: Instant)
    requires s.Valid() && s.recent.table == map[] && s.bits == {} && origin !in s.origins.table
    requires s.window >= 2 && sequence + 1 < U64_MAX
    requires AcceptsOthers(others, origin) && |OriginsOf(others)| >= s.origins.capacity
    requires !(IndexSet(d, s.modulus)
               <= IndexSet(a, s.modulus) + IndicesOfAll(Inserted(others), s.modulus) + IndexSet(c, s.modulus))
    ensures var accepted := s.Accept(a, origin, sequence, now);
            var evicted := accepted.Run(others);
            var anew := evicted.Accept(c, origin, sequence + 1, now);
            && origin in accepted.origins.table && accepted.Decide(d, origin, sequence, later) != New
            && origin !in evicted.origins.table
            && origin in anew.origins.table && anew.Decide(d, origin, sequence, later) == New
  {
    FirstAccepted(s, origin, sequence, a, d, now, later);
    Evicted(s, a, origin, sequence, now, others);
    Forgotten(s.Accept(a, origin, sequence, now), others, origin, sequence, c, d, now, later);
  }

  lemma FirstAccepted(s: State, origin: PeerId, sequence: U64, a: RecordId, d: RecordId, now: Instant, later: Instant)
    requires s.Valid() && s.recent.table == map[] && s.bits == {} && origin !in s.origins.table
    ensures var t := s.Accept(a, origin, sequence, now);
            && t.Valid() && t.recent.table == map[a := now] && t.bits == IndexSet(a, s.modulus)
            && origin in t.origins.table && t.Decide(d, origin, sequence, later) != New
  {
    MadeAnew(s, a, origin, sequence, now);
    var t := s.Accept(a, origin, sequence, now);
    assert sequence in t.origins.table[origin].accepted;
    assert {} + IndexSet(a, s.modulus) == IndexSet(a, s.modulus);
  }

  lemma Evicted(s: State, a: RecordId, origin: PeerId, sequence: U64, now: Instant, others: seq<Op>)
    requires s.Valid() && AcceptsOthers(others, origin) && |OriginsOf(others)| >= s.origins.capacity
    ensures origin !in s.Accept(a, origin, sequence, now).Run(others).origins.table
  {
    AcceptsUse(s.Accept(a, origin, sequence, now), others, origin);
    TrackedExactly(s, a, origin, sequence, now, others);
  }

  lemma Forgotten(s: State, others: seq<Op>, origin: PeerId, sequence: U64, c: RecordId, d: RecordId, now: Instant,
                  later: Instant)
    requires s.Valid() && s.window >= 2 && sequence + 1 < U64_MAX
    requires AcceptsOthers(others, origin) && origin !in s.Run(others).origins.table && d !in s.recent.table
    requires !(IndexSet(d, s.modulus) <= s.bits + IndicesOfAll(Inserted(others), s.modulus) + IndexSet(c, s.modulus))
    ensures var anew := s.Run(others).Accept(c, origin, sequence + 1, now);
            origin in anew.origins.table && anew.Decide(d, origin, sequence, later) == New
  {
    RecentAreInserted(s, others, origin);
    MadeAnew(s.Run(others), c, origin, sequence + 1, now);
    Unknown(s, others, origin, c, sequence + 1, now, d);
    NewUnderItsWindow(s.Run(others).Accept(c, origin, sequence + 1, now), origin, sequence, d, later);
  }

  // ----- In the filter the engine uses -----

  lemma {:induction false} ZerosAreZero(n: nat)
    ensures FromLe(Zeros(n)) == 0
  {
    if n > 0 {
      assert Zeros(n)[1..] == Zeros(n - 1);
      ZerosAreZero(n - 1);
    }
  }

  /** An id whose first three numbers are zero and whose last is `n`. */
  function LowId(n: nat): (id: RecordId)
    requires n < 0x1_0000
    ensures id[0..8] == id[8..16] == id[16..24] == Zeros(8) && id[24..32] == [n % 256, n / 256] + Zeros(6)
  {
    Zeros(24) + [n % 256, n / 256] + Zeros(6)
  }

  lemma LowPositions(n: nat)
    requires n < 0x1_0000
    ensures IndexSet(LowId(n), FILTER_BITS) == {0, n}
  {
    ZerosAreZero(8);
    TwoBytes(n);
    assert Indices(LowId(n), FILTER_BITS) == [0, 0, 0, n];
  }

  lemma TwoBytes(n: nat)
    requires n < 0x1_0000
    ensures FromLe([n % 256, n / 256] + Zeros(6)) == n
  {
    ZerosAreZero(6);
    var bytes := [n % 256, n / 256] + Zeros(6);
    assert bytes[1..] == [n / 256] + Zeros(6) && bytes[1..][1..] == Zeros(6);
    assert FromLe(bytes[1..]) == n / 256;
  }

  /** An id whose first number is 2^20. */
  function HighId(): (id: RecordId)
    ensures id[0..8] == [0, 0, 16] + Zeros(5)
  {
    [0, 0, 16] + Zeros(29)
  }

  lemma HighPosition()
    ensures 0x10_0000 in IndexSet(HighId(), FILTER_BITS)
  {
    var bytes := [0, 0, 16] + Zeros(5);
    ZerosAreZero(5);
    assert bytes[1..] == [0, 16] + Zeros(5) && bytes[1..][1..] == [16] + Zeros(5);
    assert bytes[1..][1..][1..] == Zeros(5) && FromLe(bytes[1..][1..]) == 16 && FromLe(bytes[1..]) == 0x1000;
    assert FromLe(bytes) == 0x10_0000;
    assert Indices(HighId(), FILTER_BITS)[0] == 0x10_0000;
  }

  /** One record of each of the origins 1 to `n`. */
  function OnePerOrigin(n: nat, now: Instant): (ops: seq<Op>)
    requires n < 0x1_0000
    ensures |ops| == n && forall k :: 0 <= k < n ==> ops[k] == Accepted(LowId(k + 1), k + 1, 1, now)
  {
    seq(n, k requires 0 <= k < n => Accepted(LowId(k + 1), k + 1, 1, now))
  }

  function FirstPeers(n: nat): (r: set<PeerId>)
    ensures |r| == n && forall k :: k in r <==> 1 <= k <= n
  {
    if n == 0 then {} else FirstPeers(n - 1) + {n}
  }

  lemma {:induction false} OriginsAreExact(ops: seq<Op>)
    ensures forall p :: p in OriginsOf(ops) <==> exists op :: op in ops && op.Accepted? && op.origin == p
  {
    if ops != [] {
      OriginsAreExact(ops[1..]);
      assert ops == [ops[0]] + ops[1..];
    }
  }

  lemma OnePerOriginCounts(n: nat, now: Instant)
    requires n < 0x1_0000
    ensures |OriginsOf(OnePerOrigin(n, now))| == n
  {
    var ops := OnePerOrigin(n, now);
    OriginsAreExact(ops);
    forall k | k in FirstPeers(n)
      ensures k in OriginsOf(ops)
    {
      assert ops[k - 1] in ops && ops[k - 1].origin == k;
    }
    assert OriginsOf(ops) == FirstPeers(n);
  }

  ghost predicate Low(id: RecordId) { forall i :: i in IndexSet(id, FILTER_BITS) ==> i < 0x1_0000 }

  lemma {:induction false} InsertedAreLow(ops: seq<Op>)
    requires forall op :: op in ops ==> op.Accepted? && Low(op.id)
    ensures forall id :: id in Inserted(ops) ==> Low(id)
  {
    if ops != [] { InsertedAreLow(ops[1..]); }
  }

  lemma {:induction false} LowIndices(ids: seq<RecordId>)
    requires forall id :: id in ids ==> Low(id)
    ensures forall i :: i in IndicesOfAll(ids, FILTER_BITS) ==> i < 0x1_0000
  {
    if ids != [] {
      assert Low(ids[|ids| - 1]);
      LowIndices(ids[..|ids| - 1]);
    }
  }

  lemma OnePerOriginIsLow(n: nat, now: Instant)
    requires n < 0x1_0000
    ensures forall i :: i in IndicesOfAll(Inserted(OnePerOrigin(n, now)), FILTER_BITS) ==> i < 0x1_0000
  {
    var ops := OnePerOrigin(n, now);
    forall op | op in ops
      ensures op.Accepted? && Low(op.id)
    {
      var k :| 0 <= k < n && ops[k] == op;
      LowPositions(k + 1);
    }
    InsertedAreLow(ops);
    LowIndices(Inserted(ops));
  }

  lemma OnePerOriginIsOthers(n: nat, now: Instant)
    requires n < 0x1_0000
    ensures AcceptsOthers(OnePerOrigin(n, now), 0)
  {
  }

  lemma HighIsNotCovered(n: nat, now: Instant)
    requires n < 0xFFFF
    ensures !(IndexSet(HighId(), FILTER_BITS)
              <= IndexSet(LowId(0), FILTER_BITS) + IndicesOfAll(Inserted(OnePerOrigin(n, now)), FILTER_BITS)
                 + IndexSet(LowId(n + 1), FILTER_BITS))
  {
    LowPositions(0);
    LowPositions(n + 1);
    HighPosition();
    OnePerOriginIsLow(n, now);
    Uncovered(IndexSet(HighId(), FILTER_BITS), IndexSet(LowId(0), FILTER_BITS),
              IndicesOfAll(Inserted(OnePerOrigin(n, now)), FILTER_BITS), IndexSet(LowId(n + 1), FILTER_BITS));
  }

  lemma Uncovered(d: set<nat>, a: set<nat>, b: set<nat>, c: set<nat>)
    requires 0x10_0000 in d && forall i :: i in a || i in b || i in c ==> i < 0x1_0000
    ensures !(d <= a + b + c)
  {
    assert 0x10_0000 !in a + b + c;
  }

  /** The same in the filter the engine uses, of 16 MiB and 10,000 origins. */
  lemma ForgettingIsPossible(now: Instant, later: Instant)
    ensures var n := MAX_TRACKED_ORIGINS;
            var accepted := Default().Accept(LowId(0), 0, 99, now);
            accepted.Decide(HighId(), 0, 99, later) != New
            && accepted.Run(OnePerOrigin(n, now)).Accept(LowId(n + 1), 0, 100, now).Decide(HighId(), 0, 99, later) == New
  {
    ForgottenAmong(MAX_TRACKED_ORIGINS, now, later);
  }

  lemma ForgottenAmong(n: nat, now: Instant, later: Instant)
    requires 0 < n < 0xFFFF
    ensures var accepted :=
              Fresh(RECENT_RECORD_CAPACITY, RECENT_RECORD_TTL, n, SEQUENCE_WINDOW, FILTER_BITS)
                .Accept(LowId(0), 0, 99, now);
            accepted.Decide(HighId(), 0, 99, later) != New
            && accepted.Run(OnePerOrigin(n, now)).Accept(LowId(n + 1), 0, 100, now).Decide(HighId(), 0, 99, later) == New
  {
    HighIsNotCovered(n, now);
    OnePerOriginIsOthers(n, now);
    OnePerOriginCounts(n, now);
    EvictedSequenceIsNewAgain(RECENT_RECORD_CAPACITY, RECENT_RECORD_TTL, n, SEQUENCE_WINDOW, FILTER_BITS,
                              Fresh(RECENT_RECORD_CAPACITY, RECENT_RECORD_TTL, n, SEQUENCE_WINDOW, FILTER_BITS),
                              0, 99, LowId(0), OnePerOrigin(n, now), LowId(n + 1), HighId(), now, later);
  }
}
