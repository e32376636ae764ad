/** The four positions of an id in the bit filter: which numbers they come from, and that they use every bit. */
module ReplayPositions {
  import opened Limits
  import opened Bytes
  import opened Replay

  /** `u64::to_le_bytes`, for any number of bytes. */
  function ToLe(n: nat, k: nat): (r: seq<Byte>)
    ensures |r| == k
  {
    if k == 0 then [] else [n % 256] + ToLe(n / 256, k - 1)
  }

  /** How many numbers `k` bytes hold. */
  function Span(k: nat): nat { if k == 0 then 1 else 256 * Span(k - 1) }

  lemma {:induction false} BytesRoundTrip(n: nat, k: nat)
    requires n < Span(k)
    ensures FromLe(ToLe(n, k)) == n
  {
    if k > 0 {
      BytesRoundTrip(n / 256, k - 1);
      assert ToLe(n, k)[1..] == ToLe(n / 256, k - 1);
    }
  }

  lemma {:induction false} NumberRoundTrip(bytes: seq<Byte>)
    ensures ToLe(FromLe(bytes), |bytes|) == bytes && FromLe(bytes) < Span(|bytes|)
  {
    if bytes != [] {
      NumberRoundTrip(bytes[1..]);
      assert bytes == [bytes[0]] + bytes[1..];
    }
  }

  lemma EightBytes()
    ensures Span(8) == 0x1_0000_0000_0000_0000
  {
    assert Span(4) == 0x1_0000_0000;
  }

  /** The number at eight bytes of an id. */
  function Number(id: RecordId, k: nat): nat
    requires k < 4
  {
    FromLe(id[8 * k..8 * k + 8])
  }

  lemma IndexAt(id: RecordId, modulus: nat, k: nat)
    requires modulus > 0 && k < 4
    ensures |Indices(id, modulus)| == 4 && Indices(id, modulus)[k] == Number(id, k) % modulus
  {
  }

  lemma Division(n: nat, modulus: nat)
    requires modulus > 0
    ensures n == modulus * (n / modulus) + n % modulus
  {
  }

  /** Position `k` is the residue of the id's `k`th little-endian number, in a filter of any size. */
  lemma PositionIsResidue(id: RecordId, modulus: nat, k: nat) returns (times: nat)
    requires modulus > 0 && k < 4
    ensures |Indices(id, modulus)| == 4 && Indices(id, modulus)[k] < modulus
    ensures Number(id, k) == modulus * times + Indices(id, modulus)[k]
  {
    times := Number(id, k) / modulus;
    IndexAt(id, modulus, k);
    Division(Number(id, k), modulus);
  }

  lemma NotNegative(modulus: nat, d: int)
    requires modulus > 0 && modulus * d >= 0
    ensures d >= 0
  {
  }

  lemma Congruent(a: nat, b: nat, modulus: nat)
    requires modulus > 0 && a % modulus == b % modulus && a <= b
    ensures exists times: nat {:trigger modulus * times} :: b == a + modulus * times
  {
    var (p, q) := (a / modulus, b / modulus);
    Division(a, modulus);
    Division(b, modulus);
    assert b - a == modulus * (q - p);
    NotNegative(modulus, q - p);
    assert b == a + modulus * (q - p);
  }

  lemma UniqueRemainder(n: nat, modulus: nat, q: int, r: nat)
    requires r < modulus && n == modulus * q + r
    ensures n % modulus == r
  {
    Division(n, modulus);
    assert modulus * (q - n / modulus) == n % modulus - r;
    Within(modulus, q - n / modulus);
  }

  lemma Within(modulus: nat, d: int)
    requires 0 - modulus < modulus * d < modulus
    ensures d == 0
  {
  }

  /** Ids that agree in a position have numbers there that differ by a multiple of the filter's size: in the filter
      the engine uses, positions collide no more often than that. */
  lemma PositionsAgreeExactly(a: RecordId, b: RecordId, modulus: nat, k: nat)
    requires modulus > 0 && k < 4 && Number(a, k) <= Number(b, k)
    ensures Indices(a, modulus)[k] == Indices(b, modulus)[k]
            <==> exists times: nat {:trigger modulus * times} :: Number(b, k) == Number(a, k) + modulus * times
  {
    IndexAt(a, modulus, k);
    IndexAt(b, modulus, k);
    if Indices(a, modulus)[k] == Indices(b, modulus)[k] {
      Congruent(Number(a, k), Number(b, k), modulus);
    }
    if times: nat {:trigger modulus * times} :| Number(b, k) == Number(a, k) + modulus * times {
      MultipleVanishes(Number(a, k), modulus, times);
    }
  }

  lemma MultipleVanishes(a: nat, modulus: nat, times: nat)
    requires modulus > 0
    ensures (a + modulus * times) % modulus == a % modulus
  {
    Division(a, modulus);
    var q := a / modulus + times;
    assert modulus * q == modulus * (a / modulus) + modulus * times;
    UniqueRemainder(a + modulus * times, modulus, q, a % modulus);
  }

  /** The four positions are independent and reach every bit of the filter. */
  lemma EveryPositionIsReached(p: seq<nat>, modulus: nat) returns (id: RecordId)
    requires 0 < modulus <= 0x1_0000_0000_0000_0000
    requires |p| == 4 && forall k :: 0 <= k < 4 ==> p[k] < modulus
    ensures Indices(id, modulus) == p
  {
    var (a, b, c, d) := (ToLe(p[0], 8), ToLe(p[1], 8), ToLe(p[2], 8), ToLe(p[3], 8));
    id := a + b + c + d;
    assert id[0..8] == a && id[8..16] == b && id[16..24] == c && id[24..32] == d;
    forall k | 0 <= k < 4
      ensures |Indices(id, modulus)| == 4 && Indices(id, modulus)[k] == p[k]
    {
      IndexAt(id, modulus, k);
      assert id[8 * k..8 * k + 8] == ToLe(p[k], 8);
      PositionFits(p[k], modulus);
    }
  }

  lemma PositionFits(n: nat, modulus: nat)
    requires n < modulus <= 0x1_0000_0000_0000_0000
    ensures FromLe(ToLe(n, 8)) % modulus == n
  {
    EightBytes();
    BytesRoundTrip(n, 8);
    UniqueRemainder(n, modulus, 0, n);
  }

  /** In the filter the engine uses: any four of its 134,217,728 bits are the positions of some id, and accepting that
      id sets those bits and no others. */
  lemma EveryBitIsUsed(p: seq<nat>, origin: PeerId, sequence: U64, now: Instant) returns (id: RecordId)
    requires |p| == 4 && forall k :: 0 <= k < 4 ==> p[k] < 134_217_728
    ensures Default().Accept(id, origin, sequence, now).bits == set i | i in p
  {
    id := EveryPositionIsReached(p, FILTER_BITS);
  }
}
