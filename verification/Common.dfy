/** Failure-carrying datatypes used by every other module. */
module Wrappers {
  datatype Option<+T> = None | Some(value: T)

  datatype Result<+T, +E> = Ok(value: T) | Err(error: E)
}

/** Sizes of finite sets. */
module Sets {
  lemma {:induction false} SubsetSize<T>(a: set<T>, b: set<T>)
    requires a <= b
    ensures |a| <= |b|
  {
    assert b == a + (b - a);
  }

  lemma {:induction false} ProperSubsetSize<T>(a: set<T>, b: set<T>, x: T)
    requires a <= b && x in b && x !in a
    ensures |a| < |b|
  {
    assert b == a + (b - a) && x in b - a;
  }

  lemma {:induction false} SameSizeSubset<T>(a: set<T>, b: set<T>)
    requires a <= b && |a| == |b|
    ensures a == b
  {
    assert |b - a| == 0;
  }
}

/** The limits of src/network/limits.rs and src/protocol/sync.rs, and fixed-width arithmetic. */
module Limits {
  const U64_MAX: U64 := 0xFFFF_FFFF_FFFF_FFFF
  const U32_MAX: nat := 0xFFFF_FFFF
  const I64_MAX: int := 0x7FFF_FFFF_FFFF_FFFF
  const DAY_MS: int := 86_400_000

  const MAX_BUCKETS: nat := 366
  const MAX_IDS_PER_RESPONSE: nat := 2_000
  const MAX_REQUESTED_RECORDS: nat := 256
  const MAX_RECORDS_PER_RESPONSE: nat := 256
  const MAX_SIMULTANEOUS_SYNC_PEERS: nat := 4
  const MAX_PENDING_SYNC_REQUESTS_PER_PEER: nat := 2
  const MAX_SYNC_DURATION_SECS: nat := 60

  const RECENT_RECORD_CAPACITY: nat := 250_000
  const RECENT_RECORD_TTL: nat := 24 * 60 * 60 * 1_000_000_000
  const MAX_TRACKED_ORIGINS: nat := 10_000
  const SEQUENCE_WINDOW: U64 := 1_024

  const MAX_ACTIVE_RECORDS: nat := 1_000_000
  const MAX_DAILY_NEW_RECORDS: nat := 100_000
  const INSERT_BATCH_CAP: nat := 100
  const MAX_BATCH: nat := 100
  const PERSISTENCE_QUEUE_CAPACITY: nat := 10_000

  type U64 = x: int | 0 <= x <= 0xFFFF_FFFF_FFFF_FFFF

  /** Peer identities; only their equality matters to the algorithms modelled here. */
  type PeerId = nat

  /** A point of the monotonic clock, in nanoseconds. */
  type Instant = nat

  function Min(a: int, b: int): int { if a <= b then a else b }

  function Max(a: int, b: int): int { if a >= b then a else b }

  /** `u64::saturating_add`. */
  function SatAdd64(a: U64, b: U64): U64 { Min(a + b, U64_MAX) }

  /** `Instant::saturating_duration_since`. */
  function Since(now: Instant, earlier: Instant): nat { if now >= earlier then now - earlier else 0 }

  /** `u32::saturating_add`. */
  function SatAdd32(a: nat, b: nat): nat { Min(a + b, U32_MAX) }

  /** `saturating_sub` of an unsigned type. */
  function SatSub(a: U64, b: U64): U64 { if a >= b then a - b else 0 }

  /** `i64::saturating_add` of a non-negative amount. */
  function SatAddI64(a: int, b: nat): int { Min(a + b, I64_MAX) }
}

/** Byte strings, record ids and their memcmp order. */
module Bytes {
  type Byte = x: int | 0 <= x < 256

  function Zeros(n: nat): (r: seq<Byte>)
    ensures |r| == n && forall i :: 0 <= i < n ==> r[i] == 0
  {
    if n == 0 then [] else [0] + Zeros(n - 1)
  }

  type RecordId = b: seq<Byte> | |b| == 32 witness Zeros(32)

  const ZERO_ID: RecordId := Zeros(32)

  /** `u64::from_le_bytes`, for any number of bytes. */
  function FromLe(bytes: seq<Byte>): nat
  {
    if bytes == [] then 0 else (bytes[0] as nat) + 256 * FromLe(bytes[1..])
  }

  /** memcmp order of byte strings, a proper prefix first. */
  predicate Less(a: seq<int>, b: seq<int>)
  {
    if b == [] then false
    else if a == [] then true
    else a[0] < b[0] || (a[0] == b[0] && Less(a[1..], b[1..]))
  }

  lemma LessIrreflexive(a: seq<int>)
    ensures !Less(a, a)
  {
    if a != [] { LessIrreflexive(a[1..]); }
  }

  lemma {:induction false} LessTransitive(a: seq<int>, b: seq<int>, c: seq<int>)
    requires Less(a, b) && Less(b, c)
    ensures Less(a, c)
  {
    if a != [] && a[0] == b[0] && b[0] == c[0] {
      LessTransitive(a[1..], b[1..], c[1..]);
    }
  }

  lemma {:induction false} LessTotal(a: seq<int>, b: seq<int>)
    ensures a == b || Less(a, b) || Less(b, a)
  {
    if a != [] && b != [] && a[0] == b[0] {
      LessTotal(a[1..], b[1..]);
      if a[1..] == b[1..] {
        assert a == [a[0]] + a[1..] == b;
      }
    }
  }

  predicate IdLess(a: RecordId, b: RecordId) { Less(a, b) }

  /** The all-zero id is the least record id. */
  lemma ZeroIsLeast(id: RecordId)
    ensures id == ZERO_ID || IdLess(ZERO_ID, id)
  {
    ZerosAreLeast(id);
  }

  lemma {:induction false} ZerosAreLeast(b: seq<Byte>)
    ensures b == Zeros(|b|) || Less(Zeros(|b|), b)
  {
    if b != [] {
      ZerosAreLeast(b[1..]);
      assert Zeros(|b|)[1..] == Zeros(|b| - 1);
      assert b == [b[0]] + b[1..];
    }
  }
}
