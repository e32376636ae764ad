/** The fixed-window counter of src/network/swarm.rs, and how much it can grant in any stretch of time. */
module WindowCounters {
  import opened Limits

  datatype Counter = Counter(limit: nat, period: nat, start: Instant, used: nat) {
    ghost predicate Valid() { used <= limit && period > 0 }

    predicate Resets(now: Instant) { Since(now, start) >= period }

    function Rolled(now: Instant): Counter { if Resets(now) then this.(start := now, used := 0) else this }

    function Grants(now: Instant): bool { Rolled(now).used < limit }

    function After(now: Instant): Counter {
      var r := Rolled(now);
      if r.used < limit then r.(used := r.used + 1) else r
    }
  }

  class WindowCounter {
    const limit: nat
    const period: nat
    var start: Instant
    var used: nat

    function View(): Counter
      reads this
    {
      Counter(limit, period, start, used)
    }

    constructor (limit: nat, period: nat, now: Instant)
      ensures View() == Counter(limit, period, now, 0)
    {
      this.limit, this.period := limit, period;
      start, used := now, 0;
    }

    method Take(now: Instant) returns (granted: bool)
      modifies this
      ensures granted == old(View()).Grants(now)
      ensures View() == old(View()).After(now)
    {
      if Since(now, start) >= period {
        start := now;
        used := 0;
      }
      if used >= limit {
        return false;
      }
      used := used + 1;
      return true;
    }
  }

  // ----- Stretches of calls -----

  ghost predicate NonDecreasing(calls: seq<Instant>) {
    forall i, j :: 0 <= i <= j < |calls| ==> calls[i] <= calls[j]
  }

  function Run(c: Counter, calls: seq<Instant>): Counter
    decreases |calls|
  {
    if calls == [] then c else Run(c.After(calls[0]), calls[1..])
  }

  function GrantOf(c: Counter, now: Instant): nat { if c.Grants(now) then 1 else 0 }

  function Granted(c: Counter, calls: seq<Instant>): nat
    decreases |calls|
  {
    if calls == [] then 0
    else GrantOf(c, calls[0]) + Granted(c.After(calls[0]), calls[1..])
  }

  lemma {:induction false} RunKeepsValid(c: Counter, calls: seq<Instant>)
    requires c.Valid() && NonDecreasing(calls) && (calls != [] ==> c.start <= calls[0])
    ensures Run(c, calls).Valid()
    ensures Run(c, calls).limit == c.limit && Run(c, calls).period == c.period
    ensures calls != [] ==> Run(c, calls).start <= calls[|calls| - 1]
    decreases |calls|
  {
    if calls != [] {
      RunKeepsValid(c.After(calls[0]), calls[1..]);
    }
  }

  lemma OneMore(n: nat, q: nat)
    ensures n * (q + 1) == n * q + n
  {
  }

  /** `n` steps of `step` from `from`: the end of the `n`th period, or what `n` windows can grant. */
  function Edge(from: nat, step: nat, n: nat): nat {
    if n == 0 then from else Edge(from, step, n - 1) + step
  }

  lemma {:induction false} EdgeIsProduct(from: nat, step: nat, n: nat)
    ensures Edge(from, step, n) == from + step * n
  {
    if n > 0 {
      EdgeIsProduct(from, step, n - 1);
      OneMore(step, n - 1);
    }
  }

  lemma {:induction false} EdgeMoves(from: nat, later: nat, step: nat, n: nat)
    ensures Edge(later, step, n) - Edge(from, step, n) == later - from
  {
    if n > 0 {
      EdgeMoves(from, later, step, n - 1);
    }
  }

  lemma {:induction false} EdgeFromNext(from: nat, step: nat, n: nat)
    ensures Edge(from, step, n + 1) == Edge(from + step, step, n)
  {
    if n > 0 {
      EdgeFromNext(from, step, n - 1);
    }
  }

  /** What `c` can still grant while `periods` more of its periods begin. */
  function Allowance(c: Counter, periods: nat): nat
    requires c.Valid()
  {
    Edge(c.limit - c.used, c.limit, periods)
  }

  lemma StayAllows(c: Counter, now: Instant, periods: nat)
    requires c.Valid() && !c.Resets(now)
    ensures GrantOf(c, now) + Allowance(c.After(now), periods) == Allowance(c, periods)
  {
    EdgeMoves(c.limit - c.used, c.limit - c.After(now).used, c.limit, periods);
  }

  lemma ResetAllows(c: Counter, now: Instant, periods: nat)
    requires c.Valid() && c.Resets(now)
    ensures GrantOf(c, now) + Allowance(c.After(now), periods) <= Allowance(c, periods + 1)
  {
    EdgeFromNext(c.limit - c.used, c.limit, periods);
    EdgeMoves(c.limit - c.used + c.limit, c.limit - c.After(now).used, c.limit, periods);
  }

  lemma PeriodsRemain(start: Instant, now: Instant, last: Instant, period: nat, periods: nat)
    requires start + period <= now <= last < Edge(start, period, periods + 1)
    ensures periods > 0 && last < Edge(now, period, periods)
  {
    EdgeFromNext(start, period, periods);
    EdgeMoves(start + period, now, period, periods);
  }

  /** A counter grants what is left of its window and one window for each period begun since its start. */
  lemma {:induction false} GrantedSinceStart(c: Counter, calls: seq<Instant>, periods: nat)
    requires c.Valid() && NonDecreasing(calls)
    requires calls != [] ==> c.start <= calls[0] && calls[|calls| - 1] < Edge(c.start, c.period, periods + 1)
    ensures Granted(c, calls) <= Allowance(c, periods)
    decreases |calls|
  {
    if calls == [] {
      EdgeIsProduct(c.limit - c.used, c.limit, periods);
    } else {
      var (now, last, rest) := (calls[0], calls[|calls| - 1], calls[1..]);
      assert rest != [] ==> rest[|rest| - 1] == last;
      assert now <= last;
      if c.Resets(now) {
        PeriodsRemain(c.start, now, last, c.period, periods);
        GrantedSinceStart(c.After(now), rest, periods - 1);
        ResetAllows(c, now, periods - 1);
      } else {
        GrantedSinceStart(c.After(now), rest, periods);
        StayAllows(c, now, periods);
      }
    }
  }

  /** In every stretch of a run that spans at most `k` periods the counter grants at most `(k + 1) * limit`:
      twice the limit within a single period. */
  lemma StretchBound(c: Counter, before: seq<Instant>, calls: seq<Instant>, k: nat)
    requires c.Valid() && calls != [] && NonDecreasing(before + calls) && c.start <= (before + calls)[0]
    requires calls[|calls| - 1] <= calls[0] + c.period * k
    ensures Granted(Run(c, before), calls) <= c.limit * (k + 1)
  {
    SplitOrder(before, calls);
    RunKeepsValid(c, before);
    LaterStretchBound(Run(c, before), calls, k);
  }

  lemma SplitOrder(before: seq<Instant>, calls: seq<Instant>)
    requires NonDecreasing(before + calls) && calls != []
    ensures NonDecreasing(before) && NonDecreasing(calls)
    ensures before != [] ==> before[|before| - 1] <= calls[0] && before[0] == (before + calls)[0]
  {
    var all := before + calls;
    forall i, j | 0 <= i <= j < |before|
      ensures before[i] <= before[j]
    {
      assert all[i] <= all[j];
    }
    forall i, j | 0 <= i <= j < |calls|
      ensures calls[i] <= calls[j]
    {
      assert all[|before| + i] <= all[|before| + j];
    }
    assert before != [] ==> all[|before| - 1] <= all[|before|];
  }

  lemma LaterStretchBound(c: Counter, calls: seq<Instant>, k: nat)
    requires c.Valid() && calls != [] && NonDecreasing(calls) && c.start <= calls[0]
    requires calls[|calls| - 1] <= calls[0] + c.period * k
    ensures Granted(c, calls) <= c.limit * (k + 1)
  {
    var rolled := c.Rolled(calls[0]);
    assert Granted(c, calls) == Granted(rolled, calls);
    EdgeIsProduct(rolled.start, c.period, k);
    GrantedSinceStart(rolled, calls, k);
    EdgeIsProduct(c.limit - rolled.used, c.limit, k);
    OneMore(c.limit, k);
  }

  /** A refused call costs nothing: no later call is answered otherwise for it. */
  lemma RefusedTakeIsFree(c: Counter, now: Instant, later: Instant)
    requires c.Valid() && c.start <= now <= later && !c.Grants(now)
    ensures c.After(now).Grants(later) <==> c.Grants(later)
    ensures c.limit > 0 ==> c.After(now).After(later) == c.After(later)
  {
  }

  /** A period is over exactly when its length has passed, and then the whole limit is there again. */
  lemma WindowEndsExactly(c: Counter, now: Instant)
    requires c.Valid() && c.used == c.limit && c.limit > 0
    ensures c.Grants(now) <==> now >= c.start + c.period
    ensures c.Grants(now) ==> c.After(now).start == now && c.After(now).used == 1
  {
  }

  // ----- The bound is reached -----

  function Burst(at: Instant, n: nat): (r: seq<Instant>)
    ensures |r| == n && forall i :: 0 <= i < n ==> r[i] == at
  {
    if n == 0 then [] else [at] + Burst(at, n - 1)
  }

  /** A burst at the end of the first period and one at the start of each of the next `k`. */
  function Bursts(start: Instant, period: nat, limit: nat, k: nat): seq<Instant>
    requires period > 0
  {
    if k == 0 then Burst(start + period - 1, limit)
    else Bursts(start, period, limit, k - 1) + Burst(Edge(start, period, k), limit)
  }

  lemma {:induction false} GrantedConcat(c: Counter, a: seq<Instant>, b: seq<Instant>)
    ensures Granted(c, a + b) == Granted(c, a) + Granted(Run(c, a), b)
    ensures Run(c, a + b) == Run(Run(c, a), b)
    decreases |a|
  {
    if a == [] {
      assert a + b == b;
    } else {
      assert (a + b)[0] == a[0] && (a + b)[1..] == a[1..] + b;
      GrantedConcat(c.After(a[0]), a[1..], b);
    }
  }

  lemma {:induction false} BurstIsGranted(c: Counter, at: Instant, n: nat)
    requires c.Valid() && c.start <= at < c.start + c.period && c.used + n <= c.limit
    ensures Granted(c, Burst(at, n)) == n
    ensures Run(c, Burst(at, n)) == c.(used := c.used + n)
    decreases n
  {
    if n > 0 {
      assert Burst(at, n)[0] == at && Burst(at, n)[1..] == Burst(at, n - 1);
      BurstIsGranted(c.After(at), at, n - 1);
    }
  }

  lemma ResetBurstIsGranted(c: Counter, at: Instant, n: nat)
    requires c.Valid() && at >= c.start + c.period && 0 < n <= c.limit
    ensures Granted(c, Burst(at, n)) == n
    ensures Run(c, Burst(at, n)) == c.(start := at, used := n)
  {
    assert Burst(at, n)[0] == at && Burst(at, n)[1..] == Burst(at, n - 1);
    BurstIsGranted(c.After(at), at, n - 1);
  }

  lemma {:induction false} BurstsAreGranted(limit: nat, period: nat, start: Instant, k: nat)
    requires limit > 0 && period > 0
    ensures var calls := Bursts(start, period, limit, k);
            && calls != [] && Granted(Counter(limit, period, start, 0), calls) == |calls|
            && NonDecreasing(calls) && calls[0] == start + period - 1
            && forall t :: t in calls ==> t < Edge(start, period, k + 1)
    ensures Run(Counter(limit, period, start, 0), Bursts(start, period, limit, k))
            == Counter(limit, period, Edge(start, period, k), limit)
    ensures k > 0 ==>
              Bursts(start, period, limit, k)[|Bursts(start, period, limit, k)| - 1] == Edge(start, period, k)
  {
    var c := Counter(limit, period, start, 0);
    if k == 0 {
      BurstIsGranted(c, start + period - 1, limit);
    } else {
      BurstsAreGranted(limit, period, start, k - 1);
      ResetBurstIsGranted(Counter(limit, period, Edge(start, period, k - 1), limit), Edge(start, period, k), limit);
      JoinBursts(c, Bursts(start, period, limit, k - 1), Edge(start, period, k), limit);
    }
  }

  lemma {:induction false} BurstsCount(limit: nat, period: nat, start: Instant, k: nat)
    requires period > 0
    ensures |Bursts(start, period, limit, k)| == limit * (k + 1)
  {
    if k > 0 {
      BurstsCount(limit, period, start, k - 1);
      OneMore(limit, k);
    }
  }

  /** The bound cannot be lowered: these calls span at most `k` periods and all of them are granted. */
  lemma BoundIsReached(limit: nat, period: nat, start: Instant, k: nat)
    requires limit > 0 && period > 0
    ensures var calls := Bursts(start, period, limit, k);
            && calls != [] && NonDecreasing(calls) && start <= calls[0]
            && calls[|calls| - 1] <= calls[0] + period * k
            && Granted(Counter(limit, period, start, 0), calls) == limit * (k + 1)
  {
    BurstsAreGranted(limit, period, start, k);
    BurstsCount(limit, period, start, k);
    EdgeIsProduct(start, period, k);
  }

  lemma JoinBursts(c: Counter, earlier: seq<Instant>, at: Instant, n: nat)
    requires earlier != [] && NonDecreasing(earlier) && forall t :: t in earlier ==> t < at
    ensures var calls := earlier + Burst(at, n);
            && NonDecreasing(calls) && (n > 0 ==> calls[|calls| - 1] == at)
            && Granted(c, calls) == Granted(c, earlier) + Granted(Run(c, earlier), Burst(at, n))
            && Run(c, calls) == Run(Run(c, earlier), Burst(at, n))
  {
    GrantedConcat(c, earlier, Burst(at, n));
    assert forall i :: 0 <= i < |earlier| ==> earlier[i] in earlier;
  }
}
