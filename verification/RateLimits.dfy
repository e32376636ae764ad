/** The token buckets of src/network/rate_limit.rs, over exact reals, and how much they can grant. */
module TokenBuckets {
  import opened Limits

  function Least(a: real, b: real): real { if a <= b then a else b }

  function Seconds(nanos: nat): real { nanos as real / 1_000_000_000.0 }

  /** What a rate adds in a span of time: a nanosecond's share, added for each nanosecond. */
  function Refill(rate: real, nanos: nat): real {
    if nanos == 0 then 0.0 else Refill(rate, nanos - 1) + rate / 1_000_000_000.0
  }

  /** It is the source's product of elapsed seconds and refill rate. */
  lemma {:induction false} RefillIsProduct(rate: real, nanos: nat)
    ensures Refill(rate, nanos) == Seconds(nanos) * rate
  {
    if nanos > 0 {
      RefillIsProduct(rate, nanos - 1);
      assert Seconds(nanos) == Seconds(nanos - 1) + 1.0 / 1_000_000_000.0;
    }
  }

  lemma {:induction false} RefillNotNegative(rate: real, nanos: nat)
    requires rate >= 0.0
    ensures Refill(rate, nanos) >= 0.0
  {
    if nanos > 0 { RefillNotNegative(rate, nanos - 1); }
  }

  lemma {:induction false} RefillAdds(rate: real, a: nat, b: nat)
    ensures Refill(rate, a) + Refill(rate, b) == Refill(rate, a + b)
    decreases b
  {
    if b > 0 { RefillAdds(rate, a, b - 1); }
  }

  lemma RefillGrows(rate: real, short: nat, long: nat)
    requires rate >= 0.0 && short <= long
    ensures 0.0 <= Refill(rate, short) <= Refill(rate, long)
  {
    RefillNotNegative(rate, short);
    RefillNotNegative(rate, long - short);
    RefillAdds(rate, short, long - short);
  }

  datatype Bucket = Bucket(tokens: real, capacity: real, refillPerSecond: real, updated: Instant) {
    ghost predicate Valid() { 0.0 <= tokens <= capacity && refillPerSecond >= 0.0 }

    function Refilled(now: Instant): Bucket {
      this.(tokens := Least(tokens + Refill(refillPerSecond, Since(now, updated)), capacity), updated := now)
    }

    predicate Grants(amount: nat, now: Instant) { Refilled(now).tokens >= amount as real }

    function After(amount: nat, now: Instant): Bucket {
      var r := Refilled(now);
      if Grants(amount, now) then r.(tokens := r.tokens - amount as real) else r
    }
  }

  function Full(capacity: nat, periodSeconds: nat, now: Instant): Bucket
    requires periodSeconds > 0
  {
    Bucket(capacity as real, capacity as real, capacity as real / periodSeconds as real, now)
  }

  class TokenBucket {
    var tokens: real
    const capacity: real
    const refillPerSecond: real
    var updated: Instant

    function View(): Bucket
      reads this
    {
      Bucket(tokens, capacity, refillPerSecond, updated)
    }

    constructor (capacity: nat, periodSeconds: nat, now: Instant)
      requires periodSeconds > 0
      ensures View() == Full(capacity, periodSeconds, now)
    {
      this.tokens := capacity as real;
      this.capacity := capacity as real;
      this.refillPerSecond := capacity as real / periodSeconds as real;
      this.updated := now;
    }

    method Take(amount: nat, now: Instant) returns (granted: bool)
      modifies this
      ensures granted == old(View()).Grants(amount, now)
      ensures View() == old(View()).After(amount, now)
    {
      var elapsed := Seconds(Since(now, updated));
      RefillIsProduct(refillPerSecond, Since(now, updated));
      tokens := Least(tokens + elapsed * refillPerSecond, capacity);
      updated := now;
      if tokens < amount as real {
        return false;
      }
      tokens := tokens - amount as real;
      return true;
    }
  }

  // ----- Stretches of calls -----

  datatype Draw = Draw(amount: nat, now: Instant)

  ghost predicate NonDecreasing(draws: seq<Draw>) {
    forall i, j :: 0 <= i <= j < |draws| ==> draws[i].now <= draws[j].now
  }

  function Run(b: Bucket, draws: seq<Draw>): Bucket
    decreases |draws|
  {
    if draws == [] then b else Run(b.After(draws[0].amount, draws[0].now), draws[1..])
  }

  /** What a stretch of calls is granted in all. */
  function Granted(b: Bucket, draws: seq<Draw>): nat
    decreases |draws|
  {
    if draws == [] then 0
    else (if b.Grants(draws[0].amount, draws[0].now) then draws[0].amount else 0)
         + Granted(b.After(draws[0].amount, draws[0].now), draws[1..])
  }

  lemma DrawKeepsValid(b: Bucket, amount: nat, now: Instant)
    requires b.Valid()
    ensures b.Refilled(now).Valid() && b.After(amount, now).Valid()
  {
    RefillNotNegative(b.refillPerSecond, Since(now, b.updated));
  }

  /** The tokens stay between none and the capacity, whatever is drawn and however the clock moves. */
  lemma {:induction false} TokensStayInRange(b: Bucket, draws: seq<Draw>)
    requires b.Valid()
    ensures 0.0 <= Run(b, draws).tokens <= b.capacity && Run(b, draws).Valid()
    ensures Run(b, draws).capacity == b.capacity && Run(b, draws).refillPerSecond == b.refillPerSecond
    decreases |draws|
  {
    if draws != [] {
      DrawKeepsValid(b, draws[0].amount, draws[0].now);
      TokensStayInRange(b.After(draws[0].amount, draws[0].now), draws[1..]);
    }
  }

  /** What is granted and what is left together come to no more than the tokens at first and the refill. */
  lemma {:induction false} GrantedAndLeft(b: Bucket, draws: seq<Draw>, last: Instant)
    requires b.Valid() && NonDecreasing(draws) && b.updated <= last
    requires draws != [] ==> b.updated <= draws[0].now && draws[|draws| - 1].now <= last
    ensures Granted(b, draws) as real + Run(b, draws).tokens
            <= b.tokens + Refill(b.refillPerSecond, last - b.updated)
    decreases |draws|
  {
    if draws == [] {
      RefillNotNegative(b.refillPerSecond, last - b.updated);
    } else {
      var d := draws[0];
      var next := b.After(d.amount, d.now);
      DrawKeepsValid(b, d.amount, d.now);
      assert d.now <= draws[|draws| - 1].now <= last;
      GrantedAndLeft(next, draws[1..], last);
      RefillAdds(b.refillPerSecond, d.now - b.updated, last - d.now);
    }
  }

  /** In any stretch of a run with a clock that does not go back, a bucket grants at most its capacity and what
      the stretch refills. What came before the stretch is arbitrary. */
  lemma StretchBound(b: Bucket, before: seq<Draw>, draws: seq<Draw>)
    requires b.Valid() && draws != [] && NonDecreasing(draws)
    ensures draws[0].now <= draws[|draws| - 1].now
    ensures Granted(Run(b, before), draws) as real
            <= b.capacity + Refill(b.refillPerSecond, draws[|draws| - 1].now - draws[0].now)
  {
    TokensStayInRange(b, before);
    var c := Run(b, before);
    DrawKeepsValid(c, 0, draws[0].now);
    var filled := c.Refilled(draws[0].now);
    assert filled.Refilled(draws[0].now) == filled;
    assert Granted(c, draws) == Granted(filled, draws);
    GrantedAndLeft(filled, draws, draws[|draws| - 1].now);
    TokensStayInRange(filled, draws);
  }

  /** A refused draw costs nothing: no later draw is answered otherwise for it. */
  lemma RefusedDrawIsFree(b: Bucket, amount: nat, now: Instant, next: nat, later: Instant)
    requires b.Valid() && b.updated <= now <= later && !b.Grants(amount, now)
    ensures b.After(amount, now).Grants(next, later) <==> b.Grants(next, later)
    ensures b.After(amount, now).After(next, later) == b.After(next, later)
  {
    RefillGrows(b.refillPerSecond, 0, now - b.updated);
    RefillGrows(b.refillPerSecond, 0, later - now);
    RefillAdds(b.refillPerSecond, now - b.updated, later - now);
  }

  /** A granted draw costs its amount: another at the same instant is granted exactly when both together would be. */
  lemma GrantedDrawCosts(b: Bucket, amount: nat, now: Instant, next: nat)
    requires b.Valid() && b.Grants(amount, now)
    ensures b.After(amount, now).Grants(next, now) <==> b.Grants(amount + next, now)
  {
    DrawKeepsValid(b, amount, now);
    NowTokens(b.After(amount, now), now);
  }

  lemma NowTokens(b: Bucket, now: Instant)
    requires b.Valid() && b.updated == now
    ensures b.Refilled(now).tokens == b.tokens
  {
  }

  /** A bucket left alone for its whole period grants exactly the amounts up to its capacity. */
  lemma FullAfterAPeriod(capacity: nat, periodSeconds: nat, start: Instant, draws: seq<Draw>, amount: nat, now: Instant)
    requires periodSeconds > 0 && now >= Run(Full(capacity, periodSeconds, start), draws).updated
    requires now - Run(Full(capacity, periodSeconds, start), draws).updated >= periodSeconds * 1_000_000_000
    ensures Run(Full(capacity, periodSeconds, start), draws).Grants(amount, now) <==> amount <= capacity
  {
    var full := Full(capacity, periodSeconds, start);
    TokensStayInRange(full, draws);
    var b := Run(full, draws);
    RefillsInAPeriod(capacity, periodSeconds, now - b.updated);
  }

  lemma RefillsInAPeriod(capacity: nat, periodSeconds: nat, elapsed: nat)
    requires periodSeconds > 0 && elapsed >= periodSeconds * 1_000_000_000
    ensures Refill(capacity as real / periodSeconds as real, elapsed) >= capacity as real
  {
    var rate := capacity as real / periodSeconds as real;
    var period := periodSeconds * 1_000_000_000;
    assert Seconds(period) == periodSeconds as real;
    RefillIsProduct(rate, period);
    assert rate >= 0.0 && periodSeconds as real * rate == capacity as real;
    RefillAdds(rate, period, elapsed - period);
    RefillNotNegative(rate, elapsed - period);
  }

  /** The clock matters: when it goes back, the same interval refills twice and the bound fails. */
  lemma BackwardClockOverspends()
    ensures var second := 1_000_000_000;
            var b := Bucket(60.0, 60.0, 1.0, 0);
            var draws := [Draw(60, 0), Draw(10, 10 * second), Draw(0, 0), Draw(10, 10 * second)];
            b.Valid() && Granted(b, draws) == 80 && 80.0 > b.capacity + Refill(b.refillPerSecond, 10 * second)
  {
    var second := 1_000_000_000;
    var b := Bucket(60.0, 60.0, 1.0, 0);
    var draws := [Draw(60, 0), Draw(10, 10 * second), Draw(0, 0), Draw(10, 10 * second)];
    var b1 := b.After(60, 0);
    var b2 := b1.After(10, 10 * second);
    var b3 := b2.After(0, 0);
    RefillIsProduct(1.0, 10 * second);
    assert Seconds(10 * second) == 10.0;
    assert b1.tokens == 0.0 && b2.tokens == 0.0 && b3.tokens == 0.0;
    assert draws[1..][0] == Draw(10, 10 * second) && draws[2..][0] == Draw(0, 0);
    assert draws[3..][0] == Draw(10, 10 * second);
    assert draws[1..][1..] == draws[2..] && draws[2..][1..] == draws[3..] && draws[3..][1..] == [];
    assert Granted(b3, draws[3..]) == 10;
    assert Granted(b2, draws[2..]) == 10;
    assert Granted(b1, draws[1..]) == 20;
  }
}

/** The limiter: buckets of peers, source addresses and source prefixes, each in a bounded cache. */
module RateLimiting {
  import opened Wrappers
  import opened Limits
  import opened TokenBuckets
  import Lru

  const GOSSIP_RECORDS_PER_MINUTE: nat := 120
  const GOSSIP_BYTES_PER_MINUTE: nat := 2 * 1024 * 1024
  const SYNC_REQUESTS_PER_MINUTE: nat := 30
  const SYNC_RESPONSE_BYTES_PER_HOUR: nat := 32 * 1024 * 1024
  const INVALID_MESSAGES_PER_MINUTE: nat := 10
  const INGESTION_RECORDS_PER_IP_PER_MINUTE: nat := 60
  const INGESTION_RECORDS_PER_PREFIX_PER_MINUTE: nat := 600
  const MAX_TRACKED_RATE_PEERS: nat := 10_000

  datatype Kind = GossipRecords | GossipBytes | SyncRequests | SyncResponseBytes | Invalid

  datatype PeerBuckets = PeerBuckets(
    gossipRecords: Bucket,
    gossipBytes: Bucket,
    syncRequests: Bucket,
    syncResponseBytes: Bucket,
    invalid: Bucket)
  {
    function Get(kind: Kind): Bucket {
      match kind
      case GossipRecords => gossipRecords
      case GossipBytes => gossipBytes
      case SyncRequests => syncRequests
      case SyncResponseBytes => syncResponseBytes
      case Invalid => invalid
    }
  }

  function NewPeer(now: Instant): PeerBuckets {
    PeerBuckets(Full(GOSSIP_RECORDS_PER_MINUTE, 60, now), Full(GOSSIP_BYTES_PER_MINUTE, 60, now),
                Full(SYNC_REQUESTS_PER_MINUTE, 60, now), Full(SYNC_RESPONSE_BYTES_PER_HOUR, 3600, now),
                Full(INVALID_MESSAGES_PER_MINUTE, 60, now))
  }

  function NewIp(now: Instant): Bucket { Full(INGESTION_RECORDS_PER_IP_PER_MINUTE, 60, now) }

  function NewPrefix(now: Instant): Bucket { Full(INGESTION_RECORDS_PER_PREFIX_PER_MINUTE, 60, now) }

  datatype Limiter = Limiter(
    peers: Lru.Cache<PeerId, PeerBuckets>,
    ips: Lru.Cache<string, Bucket>,
    prefixes: Lru.Cache<string, Bucket>)

  datatype Call =
    | Gossip(peer: PeerId, bytes: nat, now: Instant)
    | SyncRequest(peer: PeerId, now: Instant)
    | SyncResponse(peer: PeerId, bytes: nat, now: Instant)
    | NoteInvalid(peer: PeerId, now: Instant)
    | Ingestion(ip: string, prefix: string, now: Instant)

  class RateLimiter {
    var peers: Lru.Cache<PeerId, PeerBuckets>
    var ingestionIps: Lru.Cache<string, Bucket>
    var ingestionPrefixes: Lru.Cache<string, Bucket>

    function View(): Limiter
      reads this
    {
      Limiter(peers, ingestionIps, ingestionPrefixes)
    }

    constructor ()
      ensures View() == EMPTY
    {
      peers := Lru.Empty(MAX_TRACKED_RATE_PEERS);
      ingestionIps := Lru.Empty(MAX_TRACKED_RATE_PEERS);
      ingestionPrefixes := Lru.Empty(MAX_TRACKED_RATE_PEERS);
    }

    method Peer(peer: PeerId, now: Instant) returns (buckets: PeerBuckets)
      modifies `peers
      ensures peers == old(peers).GetOrInsert(peer, NewPeer(now))
      ensures peer in peers.table && buckets == peers.table[peer]
    {
      peers := peers.GetOrInsert(peer, NewPeer(now));
      buckets := peers.table[peer];
    }

    /** The byte bucket is charged only after the record bucket has granted. */
    method AllowGossip(peer: PeerId, bytes: nat, now: Instant) returns (allowed: bool)
      modifies this
      ensures (View(), allowed) == Apply(old(View()), Gossip(peer, bytes, now))
    {
      var buckets := Peer(peer, now);
      allowed := buckets.gossipRecords.Grants(1, now);
      buckets := buckets.(gossipRecords := buckets.gossipRecords.After(1, now));
      if allowed {
        allowed := buckets.gossipBytes.Grants(bytes, now);
        buckets := buckets.(gossipBytes := buckets.gossipBytes.After(bytes, now));
      }
      peers := peers.Write(peer, buckets);
    }

    method AllowSyncRequest(peer: PeerId, now: Instant) returns (allowed: bool)
      modifies this
      ensures (View(), allowed) == Apply(old(View()), SyncRequest(peer, now))
    {
      var buckets := Peer(peer, now);
      allowed := buckets.syncRequests.Grants(1, now);
      peers := peers.Write(peer, buckets.(syncRequests := buckets.syncRequests.After(1, now)));
    }

    method AllowSyncResponse(peer: PeerId, bytes: nat, now: Instant) returns (allowed: bool)
      modifies this
      ensures (View(), allowed) == Apply(old(View()), SyncResponse(peer, bytes, now))
    {
      var buckets := Peer(peer, now);
      allowed := buckets.syncResponseBytes.Grants(bytes, now);
      peers := peers.Write(peer, buckets.(syncResponseBytes := buckets.syncResponseBytes.After(bytes, now)));
    }

    method NoteInvalid(peer: PeerId, now: Instant) returns (allowed: bool)
      modifies this
      ensures (View(), allowed) == Apply(old(View()), Call.NoteInvalid(peer, now))
    {
      var buckets := Peer(peer, now);
      allowed := buckets.invalid.Grants(1, now);
      peers := peers.Write(peer, buckets.(invalid := buckets.invalid.After(1, now)));
    }

    /** Both buckets are charged, whatever the first answers. */
    method AllowIngestionSource(ip: string, prefix: string, now: Instant) returns (allowed: bool)
      modifies this
      ensures (View(), allowed) == Apply(old(View()), Ingestion(ip, prefix, now))
    {
      ingestionIps := ingestionIps.GetOrInsert(ip, NewIp(now));
      var ipBucket := ingestionIps.table[ip];
      var ipAllowed := ipBucket.Grants(1, now);
      ingestionIps := ingestionIps.Write(ip, ipBucket.After(1, now));
      ingestionPrefixes := ingestionPrefixes.GetOrInsert(prefix, NewPrefix(now));
      var prefixBucket := ingestionPrefixes.table[prefix];
      var prefixAllowed := prefixBucket.Grants(1, now);
      ingestionPrefixes := ingestionPrefixes.Write(prefix, prefixBucket.After(1, now));
      allowed := ipAllowed && prefixAllowed;
    }
  }

  const EMPTY: Limiter := Limiter(Lru.Empty(MAX_TRACKED_RATE_PEERS), Lru.Empty(MAX_TRACKED_RATE_PEERS),
                                  Lru.Empty(MAX_TRACKED_RATE_PEERS))

  // ----- The calls on values -----

  function ApplyToPeer(buckets: PeerBuckets, call: Call): (PeerBuckets, bool) {
    match call
    case Gossip(_, bytes, now) =>
      var counted := buckets.(gossipRecords := buckets.gossipRecords.After(1, now));
      if !buckets.gossipRecords.Grants(1, now) then (counted, false)
      else (counted.(gossipBytes := buckets.gossipBytes.After(bytes, now)), buckets.gossipBytes.Grants(bytes, now))
    case SyncRequest(_, now) =>
      (buckets.(syncRequests := buckets.syncRequests.After(1, now)), buckets.syncRequests.Grants(1, now))
    case SyncResponse(_, bytes, now) =>
      (buckets.(syncResponseBytes := buckets.syncResponseBytes.After(bytes, now)),
       buckets.syncResponseBytes.Grants(bytes, now))
    case NoteInvalid(_, now) => (buckets.(invalid := buckets.invalid.After(1, now)), buckets.invalid.Grants(1, now))
    case Ingestion(_, _, _) => (buckets, true)
  }

  function Apply(l: Limiter, call: Call): (Limiter, bool) {
    if call.Ingestion? then
      var ips := l.ips.GetOrInsert(call.ip, NewIp(call.now));
      var prefixes := l.prefixes.GetOrInsert(call.prefix, NewPrefix(call.now));
      (l.(ips := ips.Write(call.ip, ips.table[call.ip].After(1, call.now)),
          prefixes := prefixes.Write(call.prefix, prefixes.table[call.prefix].After(1, call.now))),
       ips.table[call.ip].Grants(1, call.now) && prefixes.table[call.prefix].Grants(1, call.now))
    else
      var peers := l.peers.GetOrInsert(call.peer, NewPeer(call.now));
      var (buckets, allowed) := ApplyToPeer(peers.table[call.peer], call);
      (l.(peers := peers.Write(call.peer, buckets)), allowed)
  }

  // ----- One meter of the limiter -----

  datatype Meter = OfPeer(peer: PeerId, kind: Kind) | OfIp(ip: string) | OfPrefix(prefix: string)

  function Find(l: Limiter, m: Meter): Option<Bucket> {
    match m
    case OfPeer(peer, kind) => if peer in l.peers.table then Some(l.peers.table[peer].Get(kind)) else None
    case OfIp(ip) => if ip in l.ips.table then Some(l.ips.table[ip]) else None
    case OfPrefix(prefix) => if prefix in l.prefixes.table then Some(l.prefixes.table[prefix]) else None
  }

  /** What an allowed call uses of a meter. */
  function Uses(call: Call, m: Meter): nat {
    match (call, m)
    case (Gossip(p, _, _), OfPeer(peer, GossipRecords)) => if p == peer then 1 else 0
    case (Gossip(p, bytes, _), OfPeer(peer, GossipBytes)) => if p == peer then bytes else 0
    case (SyncRequest(p, _), OfPeer(peer, SyncRequests)) => if p == peer then 1 else 0
    case (SyncResponse(p, bytes, _), OfPeer(peer, SyncResponseBytes)) => if p == peer then bytes else 0
    case (NoteInvalid(p, _), OfPeer(peer, Invalid)) => if p == peer then 1 else 0
    case (Ingestion(i, _, _), OfIp(ip)) => if i == ip then 1 else 0
    case (Ingestion(_, p, _), OfPrefix(prefix)) => if p == prefix then 1 else 0
    case _ => 0
  }

  ghost predicate Valid(l: Limiter) { l.peers.Valid() && l.ips.Valid() && l.prefixes.Valid() }

  lemma PutKeepsCache<K(!new), V>(c: Lru.Cache<K, V>, k: K, first: V, v: V)
    requires c.Valid()
    ensures var held := c.GetOrInsert(k, first);
            && k in held.table && held.table[k] == (if k in c.table then c.table[k] else first)
            && held.Write(k, v).Valid() && held.Write(k, v).table[k] == v
            && forall x :: x in held.Write(k, v).table && x != k ==>
                 x in c.table && held.Write(k, v).table[x] == c.table[x]
  {
    if k in c.table { Lru.TouchKeeps(c, k); } else { Lru.PutKeepsOrEvicts(c, k, first); }
  }

  lemma ApplyKeepsValid(l: Limiter, call: Call)
    requires Valid(l)
    ensures Valid(Apply(l, call).0)
  {
    if call.Ingestion? {
      var ips := l.ips.GetOrInsert(call.ip, NewIp(call.now));
      var prefixes := l.prefixes.GetOrInsert(call.prefix, NewPrefix(call.now));
      PutKeepsCache(l.ips, call.ip, NewIp(call.now), ips.table[call.ip].After(1, call.now));
      PutKeepsCache(l.prefixes, call.prefix, NewPrefix(call.now), prefixes.table[call.prefix].After(1, call.now));
    } else {
      var peers := l.peers.GetOrInsert(call.peer, NewPeer(call.now));
      PutKeepsCache(l.peers, call.peer, NewPeer(call.now), ApplyToPeer(peers.table[call.peer], call).0);
    }
  }

  function NewMeter(m: Meter, now: Instant): Bucket {
    match m
    case OfPeer(_, kind) => NewPeer(now).Get(kind)
    case OfIp(_) => NewIp(now)
    case OfPrefix(_) => NewPrefix(now)
  }

  /** The bucket a call at `now` finds: the one tracked, or a new one. */
  function Start(l: Limiter, m: Meter, now: Instant): Bucket {
    match Find(l, m)
    case Some(b) => b
    case None => NewMeter(m, now)
  }

  /** A call draws from a meter at most once, from the bucket tracked or from a new one; if it is allowed and uses
      the meter, it was granted what it uses. */
  ghost predicate Draws(l: Limiter, call: Call, m: Meter, drawn: seq<Draw>) {
    && |drawn| <= 1 && (forall d :: d in drawn ==> d.now == call.now)
    && (Find(Apply(l, call).0, m).Some? ==> Find(Apply(l, call).0, m).value == Run(Start(l, m, call.now), drawn))
    && (Apply(l, call).1 ==> Uses(call, m) <= Granted(Start(l, m, call.now), drawn))
  }

  lemma MeterStep(l: Limiter, call: Call, m: Meter) returns (drawn: seq<Draw>)
    requires Valid(l)
    ensures Draws(l, call, m, drawn)
  {
    if call.Ingestion? { drawn := IngestionStep(l, call, m); } else { drawn := PeerStep(l, call, m); }
  }

  lemma IngestionStep(l: Limiter, call: Call, m: Meter) returns (drawn: seq<Draw>)
    requires Valid(l) && call.Ingestion?
    ensures Draws(l, call, m, drawn)
  {
    var ips := l.ips.GetOrInsert(call.ip, NewIp(call.now));
    var prefixes := l.prefixes.GetOrInsert(call.prefix, NewPrefix(call.now));
    PutKeepsCache(l.ips, call.ip, NewIp(call.now), ips.table[call.ip].After(1, call.now));
    PutKeepsCache(l.prefixes, call.prefix, NewPrefix(call.now), prefixes.table[call.prefix].After(1, call.now));
    drawn := if m == OfIp(call.ip) || m == OfPrefix(call.prefix) then [Draw(1, call.now)] else [];
  }

  lemma PeerStep(l: Limiter, call: Call, m: Meter) returns (drawn: seq<Draw>)
    requires Valid(l) && !call.Ingestion?
    ensures Draws(l, call, m, drawn)
  {
    var peers := l.peers.GetOrInsert(call.peer, NewPeer(call.now));
    var buckets := peers.table[call.peer];
    PutKeepsCache(l.peers, call.peer, NewPeer(call.now), ApplyToPeer(buckets, call).0);
    drawn := [];
    if m.OfPeer? && m.peer == call.peer { drawn := PeerDraws(buckets, call, m.kind); }
  }

  lemma PeerDraws(buckets: PeerBuckets, call: Call, kind: Kind) returns (drawn: seq<Draw>)
    requires !call.Ingestion?
    ensures |drawn| <= 1 && (forall d :: d in drawn ==> d.now == call.now)
    ensures ApplyToPeer(buckets, call).0.Get(kind) == Run(buckets.Get(kind), drawn)
    ensures ApplyToPeer(buckets, call).1 ==> Uses(call, OfPeer(call.peer, kind)) <= Granted(buckets.Get(kind), drawn)
  {
    drawn := [];
    match (call, kind)
    case (Gossip(_, _, now), GossipRecords) => drawn := [Draw(1, now)];
    case (Gossip(_, bytes, now), GossipBytes) =>
      if buckets.gossipRecords.Grants(1, now) { drawn := [Draw(bytes, now)]; }
    case (SyncRequest(_, now), SyncRequests) => drawn := [Draw(1, now)];
    case (SyncResponse(_, bytes, now), SyncResponseBytes) => drawn := [Draw(bytes, now)];
    case (NoteInvalid(_, now), Invalid) => drawn := [Draw(1, now)];
    case _ =>
  }

  ghost predicate InOrder(calls: seq<Call>) {
    forall i, j :: 0 <= i <= j < |calls| ==> calls[i].now <= calls[j].now
  }

  /** One call as a meter sees it: when, what an allowed call uses of it, and its bucket before and after. */
  datatype Turn = Turn(now: Instant, used: nat, before: Option<Bucket>, after: Option<Bucket>)

  function TurnOf(l: Limiter, call: Call, m: Meter): Turn {
    Turn(call.now, if Apply(l, call).1 then Uses(call, m) else 0, Find(l, m), Find(Apply(l, call).0, m))
  }

  function Turns(l: Limiter, calls: seq<Call>, m: Meter): (turns: seq<Turn>)
    ensures |turns| == |calls|
    decreases |calls|
  {
    if calls == [] then [] else [TurnOf(l, calls[0], m)] + Turns(Apply(l, calls[0]).0, calls[1..], m)
  }

  function UsedIn(turns: seq<Turn>): nat { if turns == [] then 0 else turns[0].used + UsedIn(turns[1..]) }

  function MadeIn(turns: seq<Turn>): nat {
    if turns == [] then 0 else One(turns[0].before, turns[0].after) + MadeIn(turns[1..])
  }

  function One(before: Option<Bucket>, after: Option<Bucket>): nat { if before.None? && after.Some? then 1 else 0 }

  /** What the allowed calls of a run use of a meter. */
  function Used(l: Limiter, calls: seq<Call>, m: Meter): nat { UsedIn(Turns(l, calls, m)) }

  /** How often a run makes the meter, not tracked at first or evicted before. */
  function Made(l: Limiter, calls: seq<Call>, m: Meter): nat { MadeIn(Turns(l, calls, m)) }

  // ----- Every reachable limiter -----

  /** What the meter may use at once, and what is refilled of it in a second. */
  function Allowance(m: Meter): nat {
    match m
    case OfPeer(_, GossipRecords) => GOSSIP_RECORDS_PER_MINUTE
    case OfPeer(_, GossipBytes) => GOSSIP_BYTES_PER_MINUTE
    case OfPeer(_, SyncRequests) => SYNC_REQUESTS_PER_MINUTE
    case OfPeer(_, SyncResponseBytes) => SYNC_RESPONSE_BYTES_PER_HOUR
    case OfPeer(_, Invalid) => INVALID_MESSAGES_PER_MINUTE
    case OfIp(_) => INGESTION_RECORDS_PER_IP_PER_MINUTE
    case OfPrefix(_) => INGESTION_RECORDS_PER_PREFIX_PER_MINUTE
  }

  function RateOf(m: Meter): real {
    match m
    case OfPeer(_, GossipRecords) => GOSSIP_RECORDS_PER_MINUTE as real / 60.0
    case OfPeer(_, GossipBytes) => GOSSIP_BYTES_PER_MINUTE as real / 60.0
    case OfPeer(_, SyncRequests) => SYNC_REQUESTS_PER_MINUTE as real / 60.0
    case OfPeer(_, SyncResponseBytes) => SYNC_RESPONSE_BYTES_PER_HOUR as real / 3600.0
    case OfPeer(_, Invalid) => INVALID_MESSAGES_PER_MINUTE as real / 60.0
    case OfIp(_) => INGESTION_RECORDS_PER_IP_PER_MINUTE as real / 60.0
    case OfPrefix(_) => INGESTION_RECORDS_PER_PREFIX_PER_MINUTE as real / 60.0
  }

  ghost predicate Like(b: Bucket, capacity: nat, rate: real) {
    b.Valid() && b.capacity == capacity as real && b.refillPerSecond == rate
  }

  ghost predicate Metered(b: Bucket, m: Meter) { Like(b, Allowance(m), RateOf(m)) }

  ghost predicate AllMetered(l: Limiter) {
    Valid(l) && forall m :: Find(l, m).Some? ==> Metered(Find(l, m).value, m)
  }

  lemma DrawsKeepMetered(b: Bucket, draws: seq<Draw>, m: Meter)
    requires Metered(b, m)
    ensures Metered(Run(b, draws), m)
  {
    TokensStayInRange(b, draws);
  }

  lemma NewPeerIsMetered(peer: PeerId, kind: Kind, now: Instant)
    ensures Metered(NewPeer(now).Get(kind), OfPeer(peer, kind))
  {
  }

  lemma NewMeterIsMetered(m: Meter, now: Instant)
    ensures Metered(NewMeter(m, now), m)
  {
    if m.OfPeer? { NewPeerIsMetered(m.peer, m.kind, now); }
  }

  lemma StepKeepsMeter(l: Limiter, call: Call, m: Meter)
    requires AllMetered(l) && Find(Apply(l, call).0, m).Some?
    ensures Metered(Find(Apply(l, call).0, m).value, m)
  {
    var drawn := MeterStep(l, call, m);
    NewMeterIsMetered(m, call.now);
    DrawsKeepMetered(Start(l, m, call.now), drawn, m);
  }

  function RunCalls(l: Limiter, calls: seq<Call>): Limiter
    decreases |calls|
  {
    if calls == [] then l else RunCalls(Apply(l, calls[0]).0, calls[1..])
  }

  lemma KeepsMeters(l: Limiter, call: Call)
    requires AllMetered(l)
    ensures AllMetered(Apply(l, call).0)
  {
    ApplyKeepsValid(l, call);
    forall m | Find(Apply(l, call).0, m).Some?
      ensures Metered(Find(Apply(l, call).0, m).value, m)
    {
      StepKeepsMeter(l, call, m);
    }
  }

  lemma {:induction false} RunKeepsMeters(l: Limiter, calls: seq<Call>)
    requires AllMetered(l)
    ensures AllMetered(RunCalls(l, calls))
    decreases |calls|
  {
    if calls != [] {
      KeepsMeters(l, calls[0]);
      RunKeepsMeters(Apply(l, calls[0]).0, calls[1..]);
    }
  }

  // ----- What a run uses, evictions and all -----

  /** What the bucket could grant at an instant, if there is one. */
  function Ready(tracked: Option<Bucket>, now: Instant): real {
    if tracked.Some? then tracked.value.Refilled(now).tokens else 0.0
  }

  lemma LaterTokens(b: Bucket, now: Instant, later: Instant)
    requires b.Valid() && now <= later
    ensures b.Refilled(later).tokens <= b.Refilled(now).tokens + Refill(b.refillPerSecond, later - now)
  {
    var (short, long) := (Since(now, b.updated), Since(later, b.updated));
    RefillGrows(b.refillPerSecond, short, long);
    RefillGrows(b.refillPerSecond, long - short, later - now);
    RefillAdds(b.refillPerSecond, short, long - short);
  }

  lemma DrawBudget(b: Bucket, drawn: seq<Draw>, now: Instant, later: Instant)
    requires b.Valid() && now <= later && |drawn| <= 1 && forall d :: d in drawn ==> d.now == now
    ensures Granted(b, drawn) as real + Run(b, drawn).Refilled(later).tokens
            <= b.Refilled(now).tokens + Refill(b.refillPerSecond, later - now)
  {
    if drawn == [] {
      LaterTokens(b, now, later);
    } else {
      assert drawn[0] in drawn && drawn[1..] == [];
      DrawKeepsValid(b, drawn[0].amount, now);
      LaterTokens(b.After(drawn[0].amount, now), now, later);
      NowTokens(b.After(drawn[0].amount, now), now);
    }
  }

  lemma ReadyIsWithin(tracked: Option<Bucket>, capacity: nat, rate: real, now: Instant)
    requires tracked.Some? ==> Like(tracked.value, capacity, rate)
    ensures 0.0 <= Ready(tracked, now) <= capacity as real
  {
    if tracked.Some? { DrawKeepsValid(tracked.value, 0, now); }
  }

  /** `k` times an allowance. */
  function Times(n: nat, k: nat): nat { if k == 0 then 0 else Times(n, k - 1) + n }

  lemma {:induction false} TimesIsProduct(n: nat, k: nat)
    ensures Times(n, k) == n * k
  {
    if k > 0 {
      TimesIsProduct(n, k - 1);
      assert n * k == n * (k - 1) + n;
    }
  }

  lemma TimesGrows(n: nat, one: nat, k: nat)
    requires one <= 1
    ensures Times(n, one + k) == Times(n, one) + Times(n, k)
  {
    assert Times(n, 1) == n;
  }

  lemma BucketBudget(before: Option<Bucket>, after: Option<Bucket>, anew: Bucket, drawn: seq<Draw>, used: nat,
                     capacity: nat, rate: real, now: Instant, later: Instant)
    requires (before.Some? ==> Like(before.value, capacity, rate)) && Like(anew, capacity, rate) && now <= later
    requires |drawn| <= 1 && forall d :: d in drawn ==> d.now == now
    requires var b := if before.Some? then before.value else anew;
             (after.Some? ==> after.value == Run(b, drawn)) && used <= if after.Some? then Granted(b, drawn) else 0
    ensures used as real + Ready(after, later)
            <= Ready(before, now) + Times(capacity, One(before, after)) as real + Refill(rate, later - now)
    ensures after.Some? ==> Like(after.value, capacity, rate)
  {
    var b := if before.Some? then before.value else anew;
    ReadyIsWithin(before, capacity, rate, now);
    RefillGrows(rate, 0, later - now);
    DrawBudget(b, drawn, now, later);
    DrawKeepsValid(b, 0, now);
    TokensStayInRange(b, drawn);
    assert Times(capacity, 1) == capacity;
  }

  /** What a call uses and what is ready at any time after it come out of what was ready before it, an allowance if
      the call made the meter, and the refill. */
  ghost predicate Fair(t: Turn, capacity: nat, rate: real) {
    && (t.before.Some? ==> Like(t.before.value, capacity, rate))
    && (t.after.Some? ==> Like(t.after.value, capacity, rate))
    && forall later: Instant :: t.now <= later ==>
         t.used as real + Ready(t.after, later)
         <= Ready(t.before, t.now) + Times(capacity, One(t.before, t.after)) as real + Refill(rate, later - t.now)
  }

  lemma TurnIsFair(l: Limiter, call: Call, m: Meter)
    requires AllMetered(l)
    ensures Fair(TurnOf(l, call, m), Allowance(m), RateOf(m))
  {
    var t := TurnOf(l, call, m);
    NewMeterIsMetered(m, call.now);
    var drawn := MeterStep(l, call, m);
    if t.after.None? { EvictedIsUnused(l, call, m); }
    DrawnIsFair(t, NewMeter(m, call.now), drawn, Allowance(m), RateOf(m));
  }

  lemma DrawnIsFair(t: Turn, anew: Bucket, drawn: seq<Draw>, capacity: nat, rate: real)
    requires (t.before.Some? ==> Like(t.before.value, capacity, rate)) && Like(anew, capacity, rate)
    requires |drawn| <= 1 && forall d :: d in drawn ==> d.now == t.now
    requires var b := if t.before.Some? then t.before.value else anew;
             && (t.after.Some? ==> t.after.value == Run(b, drawn))
             && t.used <= if t.after.Some? then Granted(b, drawn) else 0
    ensures Fair(t, capacity, rate)
  {
    forall later: Instant | t.now <= later
      ensures t.used as real + Ready(t.after, later)
              <= Ready(t.before, t.now) + Times(capacity, One(t.before, t.after)) as real
                 + Refill(rate, later - t.now)
    {
      BucketBudget(t.before, t.after, anew, drawn, t.used, capacity, rate, t.now, later);
    }
    BucketBudget(t.before, t.after, anew, drawn, t.used, capacity, rate, t.now, t.now);
  }

  /** A call does not evict a meter it uses. */
  lemma EvictedIsUnused(l: Limiter, call: Call, m: Meter)
    requires Valid(l) && Find(Apply(l, call).0, m).None?
    ensures Uses(call, m) == 0
  {
    if call.Ingestion? {
      var ips := l.ips.GetOrInsert(call.ip, NewIp(call.now));
      var prefixes := l.prefixes.GetOrInsert(call.prefix, NewPrefix(call.now));
      PutKeepsCache(l.ips, call.ip, NewIp(call.now), ips.table[call.ip].After(1, call.now));
      PutKeepsCache(l.prefixes, call.prefix, NewPrefix(call.now), prefixes.table[call.prefix].After(1, call.now));
    } else {
      var peers := l.peers.GetOrInsert(call.peer, NewPeer(call.now));
      PutKeepsCache(l.peers, call.peer, NewPeer(call.now), ApplyToPeer(peers.table[call.peer], call).0);
    }
  }

  lemma {:induction false} InOrderRest(calls: seq<Call>)
    requires InOrder(calls) && calls != []
    ensures calls[0].now <= calls[|calls| - 1].now && InOrder(calls[1..])
    ensures |calls| > 1 ==> calls[0].now <= calls[1].now <= calls[|calls| - 1].now
  {
    forall i, j | 0 <= i <= j < |calls[1..]|
      ensures calls[1..][i].now <= calls[1..][j].now
    {
      assert calls[i + 1].now <= calls[j + 1].now;
    }
  }

  /** Each turn begins with the bucket the one before it left, and no earlier. */
  ghost predicate Chained(turns: seq<Turn>) {
    forall i :: 0 < i < |turns| ==> turns[i - 1].after == turns[i].before && turns[i - 1].now <= turns[i].now
  }

  ghost predicate AllFair(turns: seq<Turn>, capacity: nat, rate: real) {
    forall t :: t in turns ==> Fair(t, capacity, rate)
  }

  lemma {:induction false} TurnsBudget(turns: seq<Turn>, capacity: nat, rate: real, first: Instant, last: Instant)
    requires turns != [] && Chained(turns) && AllFair(turns, capacity, rate)
    requires turns[0].now == first && turns[|turns| - 1].now == last
    ensures first <= last
    ensures UsedIn(turns) as real
            <= Ready(turns[0].before, first) + Times(capacity, MadeIn(turns)) as real + Refill(rate, last - first)
    decreases |turns|
  {
    var (t, rest) := (turns[0], turns[1..]);
    assert t in turns && Fair(t, capacity, rate);
    if rest == [] {
      ReadyIsWithin(t.after, capacity, rate, first);
    } else {
      var later := rest[0].now;
      assert rest[|rest| - 1].now == last && t.after == turns[1].before && first <= later;
      ChainedRest(turns);
      TurnsBudget(rest, capacity, rate, later, last);
      assert Ready(t.after, later) == Ready(rest[0].before, later);
      TimesGrows(capacity, One(t.before, t.after), MadeIn(rest));
      RefillAdds(rate, later - first, last - later);
    }
  }

  lemma ChainedRest(turns: seq<Turn>)
    requires turns != [] && Chained(turns)
    ensures Chained(turns[1..])
  {
    forall i | 0 < i < |turns| - 1
      ensures turns[1..][i - 1].after == turns[1..][i].before && turns[1..][i - 1].now <= turns[1..][i].now
    {
      assert turns[i].after == turns[i + 1].before;
    }
  }

  lemma {:induction false} TurnsAreFair(l: Limiter, calls: seq<Call>, m: Meter)
    requires AllMetered(l) && InOrder(calls)
    ensures AllFair(Turns(l, calls, m), Allowance(m), RateOf(m)) && Chained(Turns(l, calls, m))
    ensures calls != [] ==> Turns(l, calls, m)[0].before == Find(l, m)
    ensures forall i :: 0 <= i < |calls| ==> Turns(l, calls, m)[i].now == calls[i].now
    decreases |calls|
  {
    if calls != [] {
      var rest := Turns(Apply(l, calls[0]).0, calls[1..], m);
      KeepsMeters(l, calls[0]);
      InOrderRest(calls);
      TurnsAreFair(Apply(l, calls[0]).0, calls[1..], m);
      TurnIsFair(l, calls[0], m);
      ChainedFirst(TurnOf(l, calls[0], m), rest);
    }
  }

  lemma ChainedFirst(t: Turn, rest: seq<Turn>)
    requires Chained(rest) && (rest != [] ==> t.after == rest[0].before && t.now <= rest[0].now)
    ensures Chained([t] + rest)
  {
    var turns := [t] + rest;
    forall i | 0 < i < |turns|
      ensures turns[i - 1].after == turns[i].before && turns[i - 1].now <= turns[i].now
    {
      if i > 1 { assert rest[i - 2].after == rest[i - 1].before; }
    }
  }

  function Buckets(l: Limiter, calls: seq<Call>, m: Meter): nat {
    Made(l, calls, m) + if Find(l, m).Some? then 1 else 0
  }

  lemma FirstBucket(turns: seq<Turn>, capacity: nat, rate: real, first: Instant, last: Instant)
    requires turns != [] && Chained(turns) && AllFair(turns, capacity, rate)
    requires turns[0].now == first && turns[|turns| - 1].now == last
    ensures first <= last
    ensures UsedIn(turns) as real
            <= Times(capacity, MadeIn(turns) + if turns[0].before.Some? then 1 else 0) as real
               + Refill(rate, last - first)
  {
    assert turns[0] in turns && Fair(turns[0], capacity, rate);
    ReadyIsWithin(turns[0].before, capacity, rate, first);
    TurnsBudget(turns, capacity, rate, first, last);
  }

  lemma UseBound(before: seq<Call>, l: Limiter, calls: seq<Call>, m: Meter, first: Instant, last: Instant)
    requires l == RunCalls(EMPTY, before)
    requires calls != [] && InOrder(calls) && calls[0].now == first && calls[|calls| - 1].now == last
    ensures first <= last
    ensures Used(l, calls, m) as real
            <= Times(Allowance(m), Buckets(l, calls, m)) as real + Refill(RateOf(m), last - first)
  {
    RunKeepsMeters(EMPTY, before);
    TurnsAreFair(l, calls, m);
    FairUse(l, calls, m, Allowance(m), RateOf(m), first, last);
  }

  lemma FairUse(l: Limiter, calls: seq<Call>, m: Meter, capacity: nat, rate: real, first: Instant, last: Instant)
    requires calls != [] && calls[0].now == first && calls[|calls| - 1].now == last
    requires var turns := Turns(l, calls, m);
             && AllFair(turns, capacity, rate) && Chained(turns) && turns[0].before == Find(l, m)
             && turns[0].now == first && turns[|turns| - 1].now == last
    ensures first <= last
    ensures Used(l, calls, m) as real <= Times(capacity, Buckets(l, calls, m)) as real + Refill(rate, last - first)
  {
    var turns := Turns(l, calls, m);
    FirstBucket(turns, capacity, rate, first, last);
    assert Buckets(l, calls, m) == MadeIn(turns) + if turns[0].before.Some? then 1 else 0;
  }

  /** After any history of calls, whatever is evicted: what the allowed calls of a stretch use of a meter is at
      most one allowance if it was tracked when the stretch began, one more for each time the stretch made it
      anew, and what the allowance refills over the stretch. */
  lemma ReachableUseBound(before: seq<Call>, l: Limiter, calls: seq<Call>, m: Meter, first: Instant, last: Instant)
    requires l == RunCalls(EMPTY, before)
    requires calls != [] && InOrder(calls) && calls[0].now == first && calls[|calls| - 1].now == last
    ensures first <= last
    ensures Used(l, calls, m) as real
            <= (Allowance(m) * Buckets(l, calls, m)) as real + Refill(RateOf(m), last - first)
  {
    UseBound(before, l, calls, m, first, last);
    TimesIsProduct(Allowance(m), Buckets(l, calls, m));
  }

  ghost predicate TrackedThroughout(l: Limiter, calls: seq<Call>, m: Meter)
    decreases |calls|
  {
    Find(l, m).Some? && (calls == [] || TrackedThroughout(Apply(l, calls[0]).0, calls[1..], m))
  }

  lemma {:induction false} TrackedIsNotMade(l: Limiter, calls: seq<Call>, m: Meter)
    requires TrackedThroughout(l, calls, m)
    ensures Made(l, calls, m) == 0
    decreases |calls|
  {
    if calls != [] { TrackedIsNotMade(Apply(l, calls[0]).0, calls[1..], m); }
  }

  /** As long as the meter stays tracked by the caches, a stretch uses at most the allowance and what the allowance
      refills: for instance at most 120 gossip records of a peer at once and two more a second, however the calls
      of other peers and kinds are mixed in. */
  lemma ReachableMeterBound(before: seq<Call>, l: Limiter, calls: seq<Call>, m: Meter, first: Instant, last: Instant)
    requires l == RunCalls(EMPTY, before) && TrackedThroughout(l, calls, m)
    requires calls != [] && InOrder(calls) && calls[0].now == first && calls[|calls| - 1].now == last
    ensures first <= last
    ensures Used(l, calls, m) as real <= Allowance(m) as real + Refill(RateOf(m), last - first)
  {
    UseBound(before, l, calls, m, first, last);
    TrackedIsNotMade(l, calls, m);
    assert Times(Allowance(m), 1) == Allowance(m);
  }

  // ----- What is allowed -----

  /** In every reachable state a call is allowed exactly when each meter it uses has as much ready as it uses. */
  lemma AllowedExactly(before: seq<Call>, l: Limiter, call: Call)
    requires l == RunCalls(EMPTY, before)
    ensures Apply(l, call).1
            <==> forall m :: Uses(call, m) as real <= Start(l, m, call.now).Refilled(call.now).tokens
  {
    RunKeepsMeters(EMPTY, before);
    if Apply(l, call).1 {
      forall m
        ensures Uses(call, m) as real <= Start(l, m, call.now).Refilled(call.now).tokens
      {
        AllowedIsReady(l, call, m);
      }
    } else {
      var m := RefusingMeter(l, call);
    }
  }

  lemma AllowedIsReady(l: Limiter, call: Call, m: Meter)
    requires AllMetered(l) && Apply(l, call).1
    ensures Uses(call, m) as real <= Start(l, m, call.now).Refilled(call.now).tokens
  {
    NewMeterIsMetered(m, call.now);
    DrawKeepsValid(Start(l, m, call.now), 0, call.now);
    HeldIsStart(l, call);
  }

  /** The bucket a call finds in its cache is the one tracked or a new one. */
  lemma HeldIsStart(l: Limiter, call: Call)
    requires Valid(l)
    ensures call.Ingestion? ==>
              var ips := l.ips.GetOrInsert(call.ip, NewIp(call.now));
              var prefixes := l.prefixes.GetOrInsert(call.prefix, NewPrefix(call.now));
              && ips.table[call.ip] == Start(l, OfIp(call.ip), call.now)
              && prefixes.table[call.prefix] == Start(l, OfPrefix(call.prefix), call.now)
    ensures !call.Ingestion? ==>
              var peers := l.peers.GetOrInsert(call.peer, NewPeer(call.now));
              forall kind :: peers.table[call.peer].Get(kind) == Start(l, OfPeer(call.peer, kind), call.now)
  {
    if call.Ingestion? {
      PutKeepsCache(l.ips, call.ip, NewIp(call.now), NewIp(call.now));
      PutKeepsCache(l.prefixes, call.prefix, NewPrefix(call.now), NewPrefix(call.now));
    } else {
      PutKeepsCache(l.peers, call.peer, NewPeer(call.now), NewPeer(call.now));
    }
  }

  lemma RefusingMeter(l: Limiter, call: Call) returns (m: Meter)
    requires AllMetered(l) && !Apply(l, call).1
    ensures Uses(call, m) as real > Start(l, m, call.now).Refilled(call.now).tokens
  {
    HeldIsStart(l, call);
    match call {
      case Gossip(p, bytes, now) =>
        m := if Start(l, OfPeer(p, GossipRecords), now).Grants(1, now) then OfPeer(p, GossipBytes)
             else OfPeer(p, GossipRecords);
      case SyncRequest(p, _) => m := OfPeer(p, SyncRequests);
      case SyncResponse(p, _, _) => m := OfPeer(p, SyncResponseBytes);
      case NoteInvalid(p, _) => m := OfPeer(p, Invalid);
      case Ingestion(ip, prefix, now) =>
        m := if Start(l, OfIp(ip), now).Grants(1, now) then OfPrefix(prefix) else OfIp(ip);
    }
  }

  /** What a call takes, or tries to take, from a meter: of a message's two meters the bytes only once its record was
      granted, of an address's two meters both. */
  function Charge(l: Limiter, call: Call, m: Meter): Option<nat> {
    match (call, m)
    case (Gossip(p, _, _), OfPeer(peer, GossipRecords)) => if p == peer then Some(1) else None
    case (Gossip(p, bytes, now), OfPeer(peer, GossipBytes)) =>
      if p == peer && Start(l, OfPeer(p, GossipRecords), now).Refilled(now).tokens >= 1.0 then Some(bytes) else None
    case (SyncRequest(p, _), OfPeer(peer, SyncRequests)) => if p == peer then Some(1) else None
    case (SyncResponse(p, bytes, _), OfPeer(peer, SyncResponseBytes)) => if p == peer then Some(bytes) else None
    case (NoteInvalid(p, _), OfPeer(peer, Invalid)) => if p == peer then Some(1) else None
    case (Ingestion(i, _, _), OfIp(ip)) => if i == ip then Some(1) else None
    case (Ingestion(_, p, _), OfPrefix(prefix)) => if p == prefix then Some(1) else None
    case _ => None
  }

  /** The amount comes off the tokens if they cover it; else nothing does. */
  predicate Charged(before: Bucket, after: Bucket, amount: nat, now: Instant) {
    var ready := before.Refilled(now).tokens;
    && after.tokens == (if ready >= amount as real then ready - amount as real else ready)
    && after.updated == now && after.capacity == before.capacity && after.refillPerSecond == before.refillPerSecond
  }

  /** A call moves exactly the meters it charges, refused or not: what it charges is drawn, and every other meter
      that stays tracked keeps its bucket. */
  lemma ChargesExactly(l: Limiter, call: Call, m: Meter)
    requires Valid(l)
    ensures var (b, t) := (Start(l, m, call.now), Apply(l, call).0);
            match Charge(l, call, m)
            case Some(amount) => Find(t, m).Some? && Charged(b, Find(t, m).value, amount, call.now)
            case None => Find(t, m).Some? ==> Find(t, m).value == b
  {
    HeldIsStart(l, call);
    if call.Ingestion? { ChargesSource(l, call, m); } else { ChargesPeer(l, call, m); }
  }

  lemma ChargesSource(l: Limiter, call: Call, m: Meter)
    requires Valid(l) && call.Ingestion?
    ensures var (b, t) := (Start(l, m, call.now), Apply(l, call).0);
            match Charge(l, call, m)
            case Some(amount) => Find(t, m).Some? && Charged(b, Find(t, m).value, amount, call.now)
            case None => Find(t, m).Some? ==> Find(t, m).value == b
  {
    match m
    case OfPeer(_, _) =>
    case OfIp(ip) => PutMoves(l.ips, call.ip, NewIp(call.now), call.now);
    case OfPrefix(prefix) => PutMoves(l.prefixes, call.prefix, NewPrefix(call.now), call.now);
  }

  lemma PutMoves(c: Lru.Cache<string, Bucket>, k: string, first: Bucket, now: Instant)
    requires c.Valid()
    ensures var held := c.GetOrInsert(k, first);
            var next := held.Write(k, held.table[k].After(1, now));
            && k in next.table && Charged(if k in c.table then c.table[k] else first, next.table[k], 1, now)
            && forall x :: x in next.table && x != k ==> x in c.table && next.table[x] == c.table[x]
  {
    PutKeepsCache(c, k, first, c.GetOrInsert(k, first).table[k].After(1, now));
  }

  lemma ChargesPeer(l: Limiter, call: Call, m: Meter)
    requires Valid(l) && !call.Ingestion?
    ensures var (b, t) := (Start(l, m, call.now), Apply(l, call).0);
            match Charge(l, call, m)
            case Some(amount) => Find(t, m).Some? && Charged(b, Find(t, m).value, amount, call.now)
            case None => Find(t, m).Some? ==> Find(t, m).value == b
  {
    HeldIsStart(l, call);
    var buckets := l.peers.GetOrInsert(call.peer, NewPeer(call.now)).table[call.peer];
    PutKeepsCache(l.peers, call.peer, NewPeer(call.now), ApplyToPeer(buckets, call).0);
    if m.OfPeer? && m.peer == call.peer {
      BucketsMove(l, call, buckets, m.kind);
      assert Find(Apply(l, call).0, m) == Some(ApplyToPeer(buckets, call).0.Get(m.kind));
    } else {
      assert Charge(l, call, m).None?;
    }
  }

  predicate Moved(before: Bucket, after: Bucket, charge: Option<nat>, now: Instant) {
    match charge
    case Some(amount) => Charged(before, after, amount, now)
    case None => after == before
  }

  lemma BucketsMove(l: Limiter, call: Call, buckets: PeerBuckets, kind: Kind)
    requires !call.Ingestion? && buckets.gossipRecords == Start(l, OfPeer(call.peer, GossipRecords), call.now)
    ensures Moved(buckets.Get(kind), ApplyToPeer(buckets, call).0.Get(kind), Charge(l, call, OfPeer(call.peer, kind)),
                  call.now)
  {
  }

  /** The requests of one peer at one instant. */
  function Repeated(peer: PeerId, n: nat, now: Instant): seq<Call> {
    if n == 0 then [] else [SyncRequest(peer, now)] + Repeated(peer, n - 1, now)
  }

  /** The peer's request bucket has so many tokens at the instant. */
  ghost predicate HasTokens(l: Limiter, peer: PeerId, tokens: nat, now: Instant) {
    Valid(l) && Start(l, OfPeer(peer, SyncRequests), now) == Full(30, 60, now).(tokens := tokens as real)
  }

  lemma NewHasThirty(peer: PeerId, now: Instant)
    ensures HasTokens(EMPTY, peer, 30, now)
  {
  }

  lemma RequestTakesOne(l: Limiter, peer: PeerId, tokens: nat, now: Instant)
    requires tokens > 0 && HasTokens(l, peer, tokens, now) && tokens <= 30
    ensures HasTokens(Apply(l, SyncRequest(peer, now)).0, peer, tokens - 1, now)
  {
    var call := SyncRequest(peer, now);
    HeldIsStart(l, call);
    ApplyKeepsValid(l, call);
    PutKeepsCache(l.peers, peer, NewPeer(now), ApplyToPeer(l.peers.GetOrInsert(peer, NewPeer(now)).table[peer], call).0);
  }

  lemma {:induction false} BurstLeaves(l: Limiter, peer: PeerId, n: nat, tokens: nat, now: Instant)
    requires n <= tokens <= 30 && HasTokens(l, peer, tokens, now)
    ensures HasTokens(RunCalls(l, Repeated(peer, n, now)), peer, tokens - n, now)
    decreases n, 1
  {
    if n > 0 {
      RequestTakesOne(l, peer, tokens, now);
      BurstAfter(l, Apply(l, SyncRequest(peer, now)).0, peer, n, tokens, now);
    }
  }

  lemma {:induction false} BurstAfter(l: Limiter, next: Limiter, peer: PeerId, n: nat, tokens: nat, now: Instant)
    requires 0 < n <= tokens <= 30 && next == Apply(l, SyncRequest(peer, now)).0
    requires HasTokens(next, peer, tokens - 1, now)
    ensures HasTokens(RunCalls(l, Repeated(peer, n, now)), peer, tokens - n, now)
    decreases n, 0
  {
    BurstLeaves(next, peer, n - 1, tokens - 1, now);
    RunCallsCons(l, SyncRequest(peer, now), Repeated(peer, n - 1, now));
  }

  lemma RunCallsCons(l: Limiter, call: Call, rest: seq<Call>)
    ensures RunCalls(l, [call] + rest) == RunCalls(Apply(l, call).0, rest)
  {
    assert ([call] + rest)[1..] == rest;
  }

  /** Of the requests a new peer makes at one instant exactly the first 30 are allowed. */
  lemma BurstIsExact(peer: PeerId, n: nat, now: Instant)
    requires n <= 30
    ensures Apply(RunCalls(EMPTY, Repeated(peer, n, now)), SyncRequest(peer, now)).1 <==> n < 30
  {
    NewHasThirty(peer, now);
    BurstLeaves(EMPTY, peer, n, 30, now);
    HeldIsStart(RunCalls(EMPTY, Repeated(peer, n, now)), SyncRequest(peer, now));
  }
}
