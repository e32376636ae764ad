/** The single pass of `inventory` over its sorted rows, and why it equals grouping by day. */
module InventoryScan {
  import opened Wrappers
  import Sets
  import opened Limits
  import opened Bytes
  import opened Store
  import opened Queries

  /** A finished day. */
  function Ended(h: Hash32, start: int, count: nat, hashed: seq<Byte>): BucketDigest {
    BucketDigest(start, start + DAY_MS, count, h(hashed))
  }

  /** The variables of the loop. */
  datatype Scan = Scan(current: Option<int>, count: nat, hashed: seq<Byte>, buckets: seq<BucketDigest>) {
    function Closed(h: Hash32): seq<BucketDigest> {
      if current.Some? then buckets + [Ended(h, current.value, count, hashed)]
      else buckets
    }

    function Read(h: Hash32, row: Row): Scan {
      if current.Some? && current.value != row.bucket then
        if |Closed(h)| >= MAX_BUCKETS then this.(buckets := Closed(h))
        else Scan(Some(row.bucket), SatAdd32(0, 1), [] + row.id, Closed(h))
      else Scan(Some(row.bucket), SatAdd32(count, 1), hashed + row.id, buckets)
    }
  }

  /** The loop variables after reading rows, with nothing read once 366 buckets are finished. */
  function ScanRows(h: Hash32, rows: seq<Row>): Scan {
    if rows == [] then Scan(None, 0, [], [])
    else
      var before := ScanRows(h, rows[..|rows| - 1]);
      if |before.buckets| >= MAX_BUCKETS then before else before.Read(h, rows[|rows| - 1])
  }

  /** What the pass returns: the last day is finished too, unless the early break fired. */
  function Finished(h: Hash32, a: Scan): seq<BucketDigest> {
    if |a.buckets| < MAX_BUCKETS then a.Closed(h) else a.buckets
  }

  /** The loop. */
  method GroupRows(h: Hash32, rows: seq<Row>) returns (buckets: seq<BucketDigest>)
    ensures buckets == Finished(h, ScanRows(h, rows))
  {
    buckets := [];
    var currentStart: Option<int> := None;
    var currentCount := 0;
    var hashed: seq<Byte> := [];
    var i := 0;
    ghost var read := 0;
    ghost var scan := Scan(None, 0, [], []);
    while i < |rows|
      invariant 0 <= i <= |rows| && read == i && |buckets| < MAX_BUCKETS
      invariant scan == ScanRows(h, rows[..i])
      invariant scan == Scan(currentStart, currentCount, hashed, buckets)
    {
      var Row(start, id) := rows[i];
      ScanNext(h, rows, i);
      read := i + 1;
      scan := scan.Read(h, rows[i]);
      if currentStart.Some? && currentStart.value != start {
        buckets := buckets + [Ended(h, currentStart.value, currentCount, hashed)];
        if |buckets| >= MAX_BUCKETS {
          break;
        }
        currentCount := 0;
        hashed := [];
      }
      currentStart := Some(start);
      currentCount := SatAdd32(currentCount, 1);
      hashed := hashed + id;
      i := i + 1;
    }
    ScanStops(h, rows, read);
    if currentStart.Some? && |buckets| < MAX_BUCKETS {
      buckets := buckets + [Ended(h, currentStart.value, currentCount, hashed)];
    }
  }

  lemma ScanNext(h: Hash32, rows: seq<Row>, i: nat)
    requires i < |rows| && |ScanRows(h, rows[..i]).buckets| < MAX_BUCKETS
    ensures ScanRows(h, rows[..i + 1]) == ScanRows(h, rows[..i]).Read(h, rows[i])
  {
    assert rows[..i + 1][..i] == rows[..i] && rows[..i + 1][i] == rows[i];
  }

  lemma {:induction false} ScanStops(h: Hash32, rows: seq<Row>, n: nat)
    requires n <= |rows| && (n == |rows| || |ScanRows(h, rows[..n]).buckets| >= MAX_BUCKETS)
    ensures ScanRows(h, rows) == ScanRows(h, rows[..n])
    decreases |rows| - n
  {
    if n == |rows| {
      assert rows[..n] == rows;
    } else {
      assert rows[..n + 1][..n] == rows[..n];
      ScanStops(h, rows, n + 1);
    }
  }

  // ----- Rows in bucket order, and their days -----

  ghost predicate Ordered(rows: seq<Row>) {
    forall j, k :: 0 <= j <= k < |rows| ==> rows[j].bucket <= rows[k].bucket
  }

  ghost predicate Increasing(days: seq<int>) {
    forall a, b :: 0 <= a < b < |days| ==> days[a] < days[b]
  }

  ghost predicate DaysOf(rows: seq<Row>, days: seq<int>) {
    && Ordered(rows) && Increasing(days)
    && (forall k :: 0 <= k < |rows| ==> rows[k].bucket in days)
    && (forall d :: d in days ==> HasRow(rows, d))
  }

  ghost predicate HasRow(rows: seq<Row>, day: int) {
    exists k :: 0 <= k < |rows| && rows[k].bucket == day
  }

  /** The finished buckets digest the groups of the first days. */
  ghost predicate Prefix(h: Hash32, rows: seq<Row>, days: seq<int>, buckets: seq<BucketDigest>) {
    && |buckets| <= |days|
    && forall k :: 0 <= k < |buckets| ==> buckets[k] == DigestOf(h, days[k], GroupIds(rows, days[k]))
  }

  ghost predicate Holds(ids: seq<RecordId>, count: nat, hashed: seq<Byte>) {
    count == Min(|ids|, U32_MAX) && hashed == Concat(ids)
  }

  /** The state of the loop before row `i`: the finished buckets are a prefix of the reference, the current
      day is the next one, and its count and hasher hold the ids of that day among the rows seen. */
  ghost predicate LoopState(h: Hash32, rows: seq<Row>, days: seq<int>, i: nat, a: Scan) {
    && i <= |rows|
    && Prefix(h, rows, days, a.buckets)
    && (i == 0 ==> a == Scan(None, 0, [], []))
    && (i > 0 ==>
          && |a.buckets| < |days|
          && a.current == Some(days[|a.buckets|])
          && a.current.value == rows[i - 1].bucket
          && Holds(GroupIds(rows[..i], a.current.value), a.count, a.hashed))
  }

  lemma GroupGrows(rows: seq<Row>, i: nat, count: nat, hashed: seq<Byte>)
    requires i < |rows| && Holds(GroupIds(rows[..i], rows[i].bucket), count, hashed)
    ensures Holds(GroupIds(rows[..i + 1], rows[i].bucket), SatAdd32(count, 1), hashed + rows[i].id)
  {
    assert rows[..i + 1][..i] == rows[..i] && rows[..i + 1][i] == rows[i];
    var ids := GroupIds(rows[..i], rows[i].bucket);
    assert (ids + [rows[i].id])[..|ids|] == ids;
  }

  /** When row `i` opens a day, that day is the next one: none is skipped. */
  lemma NextDay(rows: seq<Row>, days: seq<int>, i: nat, c: nat)
    requires DaysOf(rows, days) && i < |rows| && c <= |days|
    requires c == 0 ==> i == 0
    requires c > 0 ==> i > 0 && rows[i - 1].bucket == days[c - 1] && rows[i].bucket != days[c - 1]
    ensures c < |days| && days[c] == rows[i].bucket
  {
    var d :| 0 <= d < |days| && days[d] == rows[i].bucket;
    if c > 0 {
      assert rows[i - 1].bucket <= rows[i].bucket;
      assert forall k :: 0 <= k < i ==> rows[k].bucket <= rows[i - 1].bucket;
    }
    assert d >= c;
    assert HasRow(rows, days[c]);
    var k :| 0 <= k < |rows| && rows[k].bucket == days[c];
    if k >= i {
      assert rows[i].bucket <= rows[k].bucket;
    }
  }

  lemma GroupEnds(rows: seq<Row>, i: nat)
    requires Ordered(rows) && 0 < i < |rows| && rows[i - 1].bucket != rows[i].bucket
    ensures GroupIds(rows[..i], rows[i - 1].bucket) == GroupIds(rows, rows[i - 1].bucket)
    ensures GroupIds(rows[..i], rows[i].bucket) == []
  {
    assert rows[i - 1].bucket <= rows[i].bucket;
    GroupIgnoresOthers(rows, i, rows[i - 1].bucket);
    forall k | 0 <= k < i
      ensures rows[..i][k].bucket != rows[i].bucket
    {
      assert rows[k].bucket <= rows[i - 1].bucket;
    }
    GroupIgnoresOthers(rows[..i], 0, rows[i].bucket);
    assert rows[..i][..0] == [];
  }

  lemma PrefixGrows(h: Hash32, rows: seq<Row>, days: seq<int>, i: nat, a: Scan)
    requires DaysOf(rows, days) && 0 < i < |rows| && LoopState(h, rows, days, i, a)
    requires a.current.value != rows[i].bucket
    ensures Prefix(h, rows, days, a.Closed(h))
    ensures |a.Closed(h)| < |days| && days[|a.Closed(h)|] == rows[i].bucket
  {
    GroupEnds(rows, i);
    NextDay(rows, days, i, |a.buckets| + 1);
  }

  lemma StateOpens(h: Hash32, rows: seq<Row>, days: seq<int>, i: nat, buckets: seq<BucketDigest>)
    requires DaysOf(rows, days) && 0 < i < |rows| && Prefix(h, rows, days, buckets)
    requires rows[i - 1].bucket != rows[i].bucket && |buckets| < |days| && days[|buckets|] == rows[i].bucket
    ensures LoopState(h, rows, days, i + 1, Scan(Some(rows[i].bucket), SatAdd32(0, 1), [] + rows[i].id, buckets))
  {
    GroupEnds(rows, i);
    GroupGrows(rows, i, 0, []);
  }

  lemma StepKeepsState(h: Hash32, rows: seq<Row>, days: seq<int>, i: nat, a: Scan)
    requires DaysOf(rows, days) && i < |rows| && LoopState(h, rows, days, i, a)
    ensures var b := a.Read(h, rows[i]);
            Prefix(h, rows, days, b.buckets) && (|b.buckets| < MAX_BUCKETS ==> LoopState(h, rows, days, i + 1, b))
  {
    if i == 0 {
      NextDay(rows, days, 0, 0);
      assert rows[..0] == [];
      GroupGrows(rows, 0, 0, []);
    } else if a.current.value == rows[i].bucket {
      GroupGrows(rows, i, a.count, a.hashed);
    } else {
      PrefixGrows(h, rows, days, i, a);
      StateOpens(h, rows, days, i, a.Closed(h));
    }
  }

  lemma {:induction false} ScanKeepsState(h: Hash32, rows: seq<Row>, days: seq<int>, i: nat)
    requires DaysOf(rows, days) && i <= |rows|
    ensures var a := ScanRows(h, rows[..i]);
            && Prefix(h, rows, days, a.buckets) && |a.buckets| <= MAX_BUCKETS
            && (|a.buckets| < MAX_BUCKETS ==> LoopState(h, rows, days, i, a))
  {
    if i == 0 {
      assert rows[..0] == [];
    } else {
      ScanKeepsState(h, rows, days, i - 1);
      var a := ScanRows(h, rows[..i - 1]);
      ScanOnce(h, rows, i - 1);
      if |a.buckets| < MAX_BUCKETS {
        StepKeepsState(h, rows, days, i - 1, a);
        ReadAddsOne(h, a, rows[i - 1]);
      }
    }
  }

  lemma ScanOnce(h: Hash32, rows: seq<Row>, i: nat)
    requires i < |rows|
    ensures var a := ScanRows(h, rows[..i]);
            ScanRows(h, rows[..i + 1]) == if |a.buckets| >= MAX_BUCKETS then a else a.Read(h, rows[i])
  {
    assert rows[..i + 1][..i] == rows[..i] && rows[..i + 1][i] == rows[i];
  }

  lemma ReadAddsOne(h: Hash32, a: Scan, row: Row)
    ensures |a.Read(h, row).buckets| <= |a.buckets| + 1
  {
  }

  lemma LastDay(rows: seq<Row>, days: seq<int>, c: nat)
    requires DaysOf(rows, days) && rows != [] && c < |days| && rows[|rows| - 1].bucket == days[c]
    ensures |days| == c + 1
  {
    assert HasRow(rows, days[|days| - 1]);
    var k :| 0 <= k < |rows| && rows[k].bucket == days[|days| - 1];
    assert rows[k].bucket <= rows[|rows| - 1].bucket;
  }

  /** The pass returns one digest for each of the first 366 days: neither losing nor repeating the last. */
  lemma ScanGroupsRows(h: Hash32, rows: seq<Row>, days: seq<int>)
    requires DaysOf(rows, days)
    ensures var r := Finished(h, ScanRows(h, rows));
            |r| == Min(|days|, MAX_BUCKETS) && Prefix(h, rows, days, r)
  {
    ScanKeepsState(h, rows, days, |rows|);
    assert rows[..|rows|] == rows;
    var a := ScanRows(h, rows);
    if rows == [] {
      NoDays(rows, days);
    } else if |a.buckets| < MAX_BUCKETS {
      LastDay(rows, days, |a.buckets|);
      LastGroupCloses(h, rows, days, a);
    }
  }

  lemma NoDays(rows: seq<Row>, days: seq<int>)
    requires DaysOf(rows, days) && rows == []
    ensures days == []
  {
    assert days == [] || HasRow(rows, days[0]);
  }

  lemma LastGroupCloses(h: Hash32, rows: seq<Row>, days: seq<int>, a: Scan)
    requires rows != [] && LoopState(h, rows, days, |rows|, a)
    ensures Prefix(h, rows, days, a.Closed(h)) && |a.Closed(h)| == |a.buckets| + 1
  {
    assert rows[..|rows|] == rows;
  }

  lemma QueryHasDays(records: Records, now: int)
    ensures DaysOf(SortedRows(records, now), SortedDays(records, now))
  {
    var rows := SortedRows(records, now);
    var days := SortedDays(records, now);
    forall j, k | 0 <= j <= k < |rows|
      ensures rows[j].bucket <= rows[k].bucket
    {
      if j < k { assert RowLess(rows[j], rows[k]); }
    }
    forall a, b | 0 <= a < b < |days|
      ensures days[a] < days[b]
    {
      assert IntLess(days[a], days[b]);
    }
    forall k | 0 <= k < |rows|
      ensures rows[k].bucket in days
    {
      assert rows[k] in rows && rows[k] in InventoryRows(records, now);
      assert rows[k].bucket in Days(records, now);
    }
    forall d | d in days
      ensures HasRow(rows, d)
    {
      assert d in Days(records, now);
      var id :| id in records && Active(records, id, now) && BucketOf(records[id].createdAt) == d;
      assert Row(d, id) in InventoryRows(records, now) && Row(d, id) in rows;
    }
  }

  /** The single pass over the rows of the inventory query equals the group-by of Queries.Buckets. */
  lemma ScanIsInventory(h: Hash32, records: Records, now: int)
    ensures Finished(h, ScanRows(h, SortedRows(records, now))) == Buckets(h, records, now)
  {
    var rows := SortedRows(records, now);
    var days := SortedDays(records, now);
    QueryHasDays(records, now);
    ScanGroupsRows(h, rows, days);
    var r := Finished(h, ScanRows(h, rows));
    forall k | 0 <= k < |r|
      ensures r[k] == DayDigest(h, records, now, days[k])
    {
      GroupIsDay(records, now, days[k]);
    }
  }

  // ----- Counting -----

  /** The active ids of the first `n` days. */
  ghost function IdsOfFirst(records: Records, now: int, n: nat): set<RecordId>
    requires n <= |SortedDays(records, now)|
  {
    set id | id in records && Active(records, id, now)
             && BucketOf(records[id].createdAt) in SortedDays(records, now)[..n]
  }

  lemma {:induction false} FirstBucketsCount(h: Hash32, records: Records, now: int, n: nat)
    requires n <= |SortedDays(records, now)| && forall day :: |DayIds(records, now, day)| <= U32_MAX
    ensures Total(FirstBuckets(h, records, now, n)) == |IdsOfFirst(records, now, n)|
  {
    if n > 0 {
      FirstBucketsCount(h, records, now, n - 1);
      OneMoreDayCounted(h, records, now, n);
    } else {
      NoDaysCounted(h, records, now);
    }
  }

  lemma OneMoreDayCounted(h: Hash32, records: Records, now: int, n: nat)
    requires 0 < n <= |SortedDays(records, now)|
    requires |DayIds(records, now, SortedDays(records, now)[n - 1])| <= U32_MAX
    requires Total(FirstBuckets(h, records, now, n - 1)) == |IdsOfFirst(records, now, n - 1)|
    ensures Total(FirstBuckets(h, records, now, n)) == |IdsOfFirst(records, now, n)|
  {
    OneMoreDay(records, now, n);
    OneMoreBucket(h, records, now, n);
  }

  lemma NoDaysCounted(h: Hash32, records: Records, now: int)
    ensures Total(FirstBuckets(h, records, now, 0)) == 0 == |IdsOfFirst(records, now, 0)|
  {
    assert IdsOfFirst(records, now, 0) == {};
  }

  lemma OneMoreBucket(h: Hash32, records: Records, now: int, n: nat)
    requires 0 < n <= |SortedDays(records, now)|
    requires |DayIds(records, now, SortedDays(records, now)[n - 1])| <= U32_MAX
    ensures Total(FirstBuckets(h, records, now, n))
            == Total(FirstBuckets(h, records, now, n - 1)) + |DayIds(records, now, SortedDays(records, now)[n - 1])|
  {
    var days := SortedDays(records, now);
    TotalGrows(h, records, now, days[..n]);
    assert days[..n][..n - 1] == days[..n - 1];
  }

  lemma TotalGrows(h: Hash32, records: Records, now: int, days: seq<int>)
    requires days != [] && |DayIds(records, now, days[|days| - 1])| <= U32_MAX
    ensures Total(DayDigests(h, records, now, days))
            == Total(DayDigests(h, records, now, days[..|days| - 1])) + |DayIds(records, now, days[|days| - 1])|
  {
    var buckets := DayDigests(h, records, now, days);
    assert buckets[..|days| - 1] == DayDigests(h, records, now, days[..|days| - 1]);
  }

  lemma OneMoreDay(records: Records, now: int, n: nat)
    requires 0 < n <= |SortedDays(records, now)|
    ensures |IdsOfFirst(records, now, n)|
            == |IdsOfFirst(records, now, n - 1)| + |DayIds(records, now, SortedDays(records, now)[n - 1])|
  {
    var days := SortedDays(records, now);
    var (before, today) := (IdsOfFirst(records, now, n - 1), DayIds(records, now, days[n - 1]));
    assert days[..n] == days[..n - 1] + [days[n - 1]];
    assert IdsOfFirst(records, now, n) == before + today;
    forall id | id in before
      ensures id !in today
    {
      var k :| 0 <= k < n - 1 && days[k] == BucketOf(records[id].createdAt);
      assert IntLess(days[k], days[n - 1]);
    }
    assert before !! today;
  }

  /** An inventory counts each active record once: with no day over `u32::MAX` records, its record count is the
      number of active records exactly when they span at most 366 days. */
  lemma InventoryCountsRecords(h: Hash32, records: Records, now: int)
    requires forall day :: |DayIds(records, now, day)| <= U32_MAX
    ensures Total(Buckets(h, records, now)) == |ActiveIds(records, now)| <==> |Days(records, now)| <= MAX_BUCKETS
  {
    var n := Min(|SortedDays(records, now)|, MAX_BUCKETS);
    FirstBucketsCount(h, records, now, n);
    if |SortedDays(records, now)| <= MAX_BUCKETS {
      AllDaysCounted(records, now);
    } else {
      MissingDay(records, now, n);
    }
  }

  lemma AllDaysCounted(records: Records, now: int)
    ensures IdsOfFirst(records, now, |SortedDays(records, now)|) == ActiveIds(records, now)
  {
    var days := SortedDays(records, now);
    assert days[..|days|] == days;
    forall id | id in ActiveIds(records, now)
      ensures BucketOf(records[id].createdAt) in days
    {
      assert BucketOf(records[id].createdAt) in Days(records, now);
    }
  }

  lemma MissingDay(records: Records, now: int, n: nat)
    requires n < |SortedDays(records, now)|
    ensures |IdsOfFirst(records, now, n)| < |ActiveIds(records, now)|
  {
    var days := SortedDays(records, now);
    var counted := IdsOfFirst(records, now, n);
    assert days[n] in days && days[n] in Days(records, now);
    var id :| id in records && Active(records, id, now) && BucketOf(records[id].createdAt) == days[n];
    forall k | 0 <= k < n
      ensures days[k] != days[n]
    {
      assert IntLess(days[k], days[n]);
    }
    assert id !in counted;
    Sets.ProperSubsetSize(counted, ActiveIds(records, now), id);
  }
}
