/** Single bits of a machine word, kept apart from everything else. */
module BitWords {
  predicate Bit(word: bv64, k: nat)
    requires k < 64
  {
    word & (1 << k) != 0
  }

  /** The word with one more bit set: that position and no other. */
  function WithBit(word: bv64, k: nat): (r: bv64)
    requires k < 64
    ensures forall j: nat | j < 64 :: Bit(r, j) <==> j == k || Bit(word, j)
  {
    forall j: nat | j < 64
      ensures Bit(word | (1 << k), j) <==> j == k || Bit(word, j)
    {
      WithBitIsExact(word, k, j);
    }
    word | (1 << k)
  }

  lemma NoBits(j: nat)
    requires j < 64
    ensures !Bit(0, j)
  {
  }

  lemma SetsItsBit(word: bv64, k: nat)
    requires k < 64
    ensures Bit(word | (1 << k), k)
  {
  }

  lemma ShiftBySixBits(k: nat)
    requires k < 64
    ensures (1 as bv64) << k == (1 as bv64) << (k as bv6)
  {
  }

  lemma SixBitsRoundTrip(k: nat)
    requires k < 64
    ensures (k as bv6) as nat == k
  {
  }

  lemma ShiftsAreDisjoint(a: bv6, b: bv6)
    requires a != b
    ensures (1 as bv64 << a) & (1 << b) == 0
  {
  }

  lemma DisjointMaskIsIgnored(word: bv64, a: bv64, b: bv64)
    requires a & b == 0
    ensures (word | a) & b == word & b
  {
  }

  lemma OtherShiftStays(word: bv64, a: bv6, b: bv6)
    requires a != b
    ensures (word | (1 << a)) & (1 << b) == word & (1 << b)
  {
    ShiftsAreDisjoint(a, b);
    DisjointMaskIsIgnored(word, 1 << a, 1 << b);
  }

  lemma DifferentBits(k: nat, j: nat)
    requires k < 64 && j < 64 && j != k
    ensures k as bv6 != j as bv6
  {
    SixBitsRoundTrip(k);
    SixBitsRoundTrip(j);
  }

  lemma OtherBitStays(word: bv64, k: nat, j: nat)
    requires k < 64 && j < 64 && j != k
    ensures Bit(word | (1 << k), j) <==> Bit(word, j)
  {
    ShiftBySixBits(k);
    ShiftBySixBits(j);
    DifferentBits(k, j);
    OtherShiftStays(word, k as bv6, j as bv6);
  }

  lemma WithBitIsExact(word: bv64, k: nat, j: nat)
    requires k < 64 && j < 64
    ensures Bit(word | (1 << k), j) <==> j == k || Bit(word, j)
  {
    if j == k { SetsItsBit(word, k); } else { OtherBitStays(word, k, j); }
  }
}

/** The replay filter in the source's own form: a bit array updated in place and an object over it. */
module ReplayEngine {
  import opened Limits
  import opened Bytes
  import BitWords
  import Lru
  import Replay

  class ActiveRecordFilter {
    const bits: array<bv64>

    ghost predicate Valid()
      reads this, bits
    {
      bits.Length > 0
    }

    function Modulus(): nat { bits.Length * 64 }

    predicate IsSet(index: nat)
      requires index < Modulus()
      reads bits
    {
      BitWords.Bit(bits[index / 64], index % 64)
    }

    ghost function SetBits(): set<nat>
      reads bits
    {
      set i: nat | i < Modulus() && IsSet(i)
    }

    constructor (bytes: nat)
      ensures Valid() && fresh(bits)
      ensures Modulus() == Max(bytes, 8) / 8 * 64 && SetBits() == {}
    {
      bits := new bv64[Max(bytes, 8) / 8](_ => 0);
      new;
      forall i: nat | i < Modulus()
        ensures !IsSet(i)
      {
        BitWords.NoBits(i % 64);
      }
    }

    method Set(index: nat)
      requires Valid() && index < Modulus()
      modifies bits
      ensures SetBits() == old(SetBits()) + {index}
    {
      bits[index / 64] := BitWords.WithBit(bits[index / 64], index % 64);
      forall i: nat | i < Modulus()
        ensures IsSet(i) <==> i == index || old(IsSet(i))
      {
        if i / 64 == index / 64 { SamePosition(i, index); }
      }
    }

    method Insert(id: RecordId)
      requires Valid()
      modifies bits
      ensures Valid()
      ensures SetBits() == old(SetBits()) + Replay.IndexSet(id, Modulus())
    {
      var indices := Replay.Indices(id, Modulus());
      for n := 0 to |indices|
        invariant SetBits() == old(SetBits()) + set i | i in indices[..n]
      {
        Set(indices[n]);
        assert indices[..n + 1] == indices[..n] + [indices[n]];
      }
      assert indices[..|indices|] == indices;
    }

    method Contains(id: RecordId) returns (all: bool)
      requires Valid()
      ensures all <==> Replay.IndexSet(id, Modulus()) <= SetBits()
    {
      var indices := Replay.Indices(id, Modulus());
      all := true;
      for n := 0 to |indices|
        invariant all <==> forall i :: i in indices[..n] ==> i in SetBits()
      {
        assert indices[..n + 1] == indices[..n] + [indices[n]];
        assert IsSet(indices[n]) <==> indices[n] in SetBits();
        all := all && IsSet(indices[n]);
      }
      assert indices[..|indices|] == indices;
    }
  }

  class ReplayState {
    var recentlySeen: Lru.Cache<RecordId, Instant>
    var origins: Lru.Cache<PeerId, Replay.OriginWindow>
    var persistentHighest: map<PeerId, U64>
    const activeRecords: ActiveRecordFilter
    const ttl: nat
    const sequenceWindow: U64

    ghost predicate Valid()
      reads this, activeRecords, activeRecords.bits
    {
      activeRecords.Valid() && View().Valid()
    }

    ghost function View(): Replay.State
      reads this, activeRecords.bits
    {
      Replay.State(recentlySeen, origins, persistentHighest, activeRecords.SetBits(),
                   activeRecords.Modulus(), ttl, sequenceWindow)
    }

    constructor WithLimits(records: nat, ttl: nat, origins: nat, sequenceWindow: U64)
      ensures Valid() && fresh(activeRecords) && fresh(activeRecords.bits)
      ensures View() == Replay.Fresh(records, ttl, origins, sequenceWindow, 134_217_728)
    {
      this.recentlySeen := Lru.Empty(Max(records, 1));
      this.origins := Lru.Empty(Max(origins, 1));
      this.persistentHighest := map[];
      this.activeRecords := new ActiveRecordFilter(16 * 1024 * 1024);
      this.ttl := ttl;
      this.sequenceWindow := sequenceWindow;
    }

    /** Looks the id up among the recent ones: a hit is promoted, an expired entry removed. */
    method TakeRecent(id: RecordId, now: Instant) returns (seen: bool)
      requires Valid()
      modifies `recentlySeen
      ensures seen == old(View()).SeenRecently(id, now)
      ensures recentlySeen == old(View()).TakenRecent(id, now)
    {
      if id !in recentlySeen.table {
        return false;
      }
      var seenAt := recentlySeen.table[id];
      recentlySeen := recentlySeen.Touch(id);
      if Since(now, seenAt) <= ttl {
        return true;
      }
      recentlySeen := recentlySeen.Pop(id);
      return false;
    }

    method CheckOrigin(origin: PeerId, sequence: U64) returns (decision: Replay.Decision)
      modifies `origins
      ensures decision == old(View()).DecideByOrigin(origin, sequence)
      ensures origins == old(origins).Touch(origin)
    {
      if origin !in origins.table {
        if origin in persistentHighest && SatAdd64(sequence, sequenceWindow) <= persistentHighest[origin] {
          return Replay.TooOld;
        }
        return Replay.New;
      }
      var held := origins.table[origin];
      origins := origins.Touch(origin);
      if sequence in held.accepted {
        return Replay.Duplicate;
      }
      if SatAdd64(sequence, sequenceWindow) <= held.highest {
        return Replay.TooOld;
      }
      return Replay.New;
    }

    method Check(id: RecordId, origin: PeerId, sequence: U64, now: Instant) returns (decision: Replay.Decision)
      requires Valid()
      modifies `recentlySeen, `origins
      ensures Valid()
      ensures decision == old(View()).Decide(id, origin, sequence, now)
      ensures View() == old(View()).Check(id, origin, now)
    {
      Replay.CheckKeepsValid(View(), id, origin, now);
      var seen := TakeRecent(id, now);
      if seen {
        return Replay.Duplicate;
      }
      var active := activeRecords.Contains(id);
      if active {
        return Replay.Duplicate;
      }
      decision := CheckOrigin(origin, sequence);
    }

    /** Slides the origin's window, made for the sequence when the origin is not tracked. */
    method AcceptOrigin(origin: PeerId, sequence: U64)
      requires Valid()
      modifies `origins
      ensures origins == old(View()).AcceptWindow(origin, sequence)
    {
      ghost var before := View();
      Replay.WindowAfterAccept(before, origin, sequence);
      origins := origins.GetOrInsert(origin, Replay.OriginWindow(sequence, {}));
      assert origin in origins.table;
      var held := origins.table[origin];
      var top: U64 := Max(held.highest, sequence);
      var floor := SatSub(top, sequenceWindow);
      var kept := set v | v in held.accepted + {sequence} && v >= floor;
      assert Replay.OriginWindow(top, kept) == before.Slide(held, sequence);
      origins := origins.Write(origin, Replay.OriginWindow(top, kept));
    }

    method Accept(id: RecordId, origin: PeerId, sequence: U64, now: Instant)
      requires Valid()
      modifies `recentlySeen, `origins, `persistentHighest, activeRecords.bits
      ensures Valid()
      ensures View() == old(View()).Accept(id, origin, sequence, now)
    {
      Replay.StepKeepsValid(View(), Replay.Accepted(id, origin, sequence, now));
      Lru.PutKeepsOrEvicts(recentlySeen, id, now);
      recentlySeen := recentlySeen.Put(id, now);
      activeRecords.Insert(id);
      var highest := if origin in persistentHighest then Max(persistentHighest[origin], sequence) else sequence;
      persistentHighest := persistentHighest[origin := highest];
      AcceptOrigin(origin, sequence);
    }

    method MarkPending(id: RecordId, now: Instant)
      requires Valid()
      modifies `recentlySeen
      ensures Valid()
      ensures View() == old(View()).MarkPending(id, now)
    {
      Replay.StepKeepsValid(View(), Replay.Pending(id, now));
      recentlySeen := recentlySeen.Put(id, now);
    }

    method Forget(id: RecordId)
      requires Valid()
      modifies `recentlySeen
      ensures Valid()
      ensures View() == old(View()).Forget(id)
    {
      Replay.StepKeepsValid(View(), Replay.Forgotten(id));
      recentlySeen := recentlySeen.Pop(id);
    }

    method LoadPersistentState(highest: seq<(PeerId, U64)>, ids: seq<RecordId>)
      requires Valid()
      modifies `persistentHighest, activeRecords.bits
      ensures Valid()
      ensures View() == old(View()).Load(highest, ids)
    {
      persistentHighest := Replay.Collect(highest);
      for n := 0 to |ids|
        invariant Valid()
        invariant View() == old(View()).Load(highest, ids[..n])
      {
        activeRecords.Insert(ids[n]);
        assert ids[..n + 1][..n] == ids[..n];
      }
      assert ids[..|ids|] == ids;
    }
  }

  /** Positions of the same word differ in their bit. */
  lemma SamePosition(i: nat, j: nat)
    requires i / 64 == j / 64
    ensures i == j <==> i % 64 == j % 64
  {
  }
}
