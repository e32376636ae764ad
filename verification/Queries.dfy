/** The read side of src/storage/database.rs, and `differing_buckets` of src/network/swarm.rs, on values. */
module Queries {
  import opened Wrappers
  import opened Limits
  import opened Bytes
  import opened Ordering
  import opened Store

  type Digest = seq<Byte>

  /** The digest function, an uninterpreted parameter of everything that hashes. */
  type Hash32 = seq<Byte> -> Digest

  datatype BucketDigest = BucketDigest(start: int, end: int, count: nat, digest: Digest)

  /** The `(bucket, record_id)` rows of the inventory query. */
  datatype Row = Row(bucket: int, id: RecordId)

  predicate IntLess(a: int, b: int) { a < b }

  predicate RowLess(a: Row, b: Row) { a.bucket < b.bucket || (a.bucket == b.bucket && IdLess(a.id, b.id)) }

  lemma IdOrder()
    ensures StrictTotalOrder(IdLess)
  {
    forall x: RecordId
      ensures !IdLess(x, x)
    {
      LessIrreflexive(x);
    }
    forall x: RecordId, y: RecordId, z: RecordId | IdLess(x, y) && IdLess(y, z)
      ensures IdLess(x, z)
    {
      LessTransitive(x, y, z);
    }
    forall x: RecordId, y: RecordId
      ensures x == y || IdLess(x, y) || IdLess(y, x)
    {
      LessTotal(x, y);
    }
  }

  lemma RowOrder()
    ensures StrictTotalOrder(RowLess)
  {
    IdOrder();
  }

  function SortedIds(ids: set<RecordId>): (r: seq<RecordId>)
    ensures SortedBy(r, IdLess) && Enumerates(r, ids) && |r| == |ids|
  {
    IdOrder();
    Sorted(ids, IdLess)
  }

  lemma SortedIdsIs(r: seq<RecordId>, ids: set<RecordId>)
    requires SortedBy(r, IdLess) && Enumerates(r, ids)
    ensures r == SortedIds(ids)
  {
    IdOrder();
    SortedIs(r, ids, IdLess);
  }

  // ----- Buckets -----

  /** SQLite's integer division: toward zero. */
  function TruncDiv(a: int, b: int): int
    requires b > 0
  {
    if a >= 0 then a / b else -(-a / b)
  }

  /** `(created_at / DAY_MS) * DAY_MS` as the inventory query computes it. */
  function BucketOf(createdAt: int): int { TruncDiv(createdAt, DAY_MS) * DAY_MS }

  /** The active ids the inventory query puts into bucket `day`. */
  function DayIds(records: Records, now: int, day: int): set<RecordId> {
    set id | id in records && Active(records, id, now) && BucketOf(records[id].createdAt) == day
  }

  function Days(records: Records, now: int): set<int> {
    set id | id in records && Active(records, id, now) :: BucketOf(records[id].createdAt)
  }

  function InventoryRows(records: Records, now: int): set<Row> {
    set id | id in records && Active(records, id, now) :: Row(BucketOf(records[id].createdAt), id)
  }

  function SortedRows(records: Records, now: int): (r: seq<Row>)
    ensures SortedBy(r, RowLess) && Enumerates(r, InventoryRows(records, now))
  {
    RowOrder();
    Sorted(InventoryRows(records, now), RowLess)
  }

  function SortedDays(records: Records, now: int): (r: seq<int>)
    ensures SortedBy(r, IntLess) && Enumerates(r, Days(records, now)) && |r| == |Days(records, now)|
  {
    Sorted(Days(records, now), IntLess)
  }

  function Concat(ids: seq<RecordId>): seq<Byte> {
    if ids == [] then [] else Concat(ids[..|ids| - 1]) + ids[|ids| - 1]
  }

  function DigestOf(h: Hash32, day: int, ids: seq<RecordId>): BucketDigest {
    BucketDigest(day, day + DAY_MS, Min(|ids|, U32_MAX), h(Concat(ids)))
  }

  function DayDigest(h: Hash32, records: Records, now: int, day: int): BucketDigest {
    DigestOf(h, day, SortedIds(DayIds(records, now, day)))
  }

  function DayDigests(h: Hash32, records: Records, now: int, days: seq<int>): (r: seq<BucketDigest>)
    ensures |r| == |days| && forall k :: 0 <= k < |days| ==> r[k] == DayDigest(h, records, now, days[k])
  {
    seq(|days|, k requires 0 <= k < |days| => DayDigest(h, records, now, days[k]))
  }

  function FirstBuckets(h: Hash32, records: Records, now: int, n: nat): (r: seq<BucketDigest>)
    requires n <= |SortedDays(records, now)|
    ensures |r| == n
    ensures forall k :: 0 <= k < n ==> r[k] == DayDigest(h, records, now, SortedDays(records, now)[k])
  {
    DayDigests(h, records, now, SortedDays(records, now)[..n])
  }

  /** The reference meaning of an inventory: group the active records by day, digest the sorted ids of each
      of the first 366 days. */
  function Buckets(h: Hash32, records: Records, now: int): seq<BucketDigest> {
    FirstBuckets(h, records, now, Min(|SortedDays(records, now)|, MAX_BUCKETS))
  }

  function Total(buckets: seq<BucketDigest>): nat {
    if buckets == [] then 0 else Total(buckets[..|buckets| - 1]) + buckets[|buckets| - 1].count
  }

  // ----- Rows of one bucket -----

  function GroupIds(rows: seq<Row>, day: int): seq<RecordId> {
    if rows == [] then []
    else
      var last := rows[|rows| - 1];
      GroupIds(rows[..|rows| - 1], day) + if last.bucket == day then [last.id] else []
  }

  lemma {:induction false} GroupIsSorted(rows: seq<Row>, day: int)
    requires SortedBy(rows, RowLess)
    ensures SortedBy(GroupIds(rows, day), IdLess)
    ensures forall id :: id in GroupIds(rows, day) <==> Row(day, id) in rows
  {
    if rows != [] {
      var last := rows[|rows| - 1];
      var front := rows[..|rows| - 1];
      GroupIsSorted(front, day);
      assert rows == front + [last];
      var ids := GroupIds(front, day);
      forall i | 0 <= i < |ids| && last.bucket == day
        ensures IdLess(ids[i], last.id)
      {
        assert ids[i] in ids && Row(day, ids[i]) in front;
        var j :| 0 <= j < |front| && front[j] == Row(day, ids[i]);
        assert RowLess(rows[j], rows[|rows| - 1]);
      }
    }
  }

  lemma GroupIsDay(records: Records, now: int, day: int)
    ensures GroupIds(SortedRows(records, now), day) == SortedIds(DayIds(records, now, day))
  {
    var rows := SortedRows(records, now);
    GroupIsSorted(rows, day);
    forall id
      ensures id in GroupIds(rows, day) <==> id in DayIds(records, now, day)
    {
      assert Row(day, id) in rows <==> Row(day, id) in InventoryRows(records, now);
    }
    SortedIdsIs(GroupIds(rows, day), DayIds(records, now, day));
  }

  lemma {:induction false} GroupIgnoresOthers(rows: seq<Row>, i: nat, day: int)
    requires i <= |rows| && forall k :: i <= k < |rows| ==> rows[k].bucket != day
    ensures GroupIds(rows, day) == GroupIds(rows[..i], day)
    decreases |rows|
  {
    if i < |rows| {
      var front := rows[..|rows| - 1];
      GroupIgnoresOthers(front, i, day);
      assert front[..i] == rows[..i];
    } else {
      assert rows[..i] == rows;
    }
  }

  // ----- Digests identify id lists -----

  ghost predicate Injective(h: Hash32) {
    forall a, b :: h(a) == h(b) ==> a == b
  }

  lemma {:induction false} ConcatLength(ids: seq<RecordId>)
    ensures |Concat(ids)| == 32 * |ids|
  {
    if ids != [] { ConcatLength(ids[..|ids| - 1]); }
  }

  /** Concatenating 32-byte ids loses nothing. */
  lemma {:induction false} ConcatIsInjective(a: seq<RecordId>, b: seq<RecordId>)
    requires Concat(a) == Concat(b)
    ensures a == b
  {
    ConcatLength(a);
    ConcatLength(b);
    if a != [] {
      var (x, y) := (a[..|a| - 1], b[..|b| - 1]);
      ConcatLength(x);
      ConcatLength(y);
      assert Concat(x) == Concat(a)[..32 * |x|] == Concat(b)[..32 * |y|] == Concat(y);
      assert a[|a| - 1] == Concat(a)[32 * |x|..] == Concat(b)[32 * |y|..] == b[|b| - 1];
      ConcatIsInjective(x, y);
      assert a == x + [a[|a| - 1]] && b == y + [b[|b| - 1]];
    }
  }

  lemma SameDigestSameIds(h: Hash32, day: int, a: set<RecordId>, b: set<RecordId>)
    requires Injective(h)
    ensures DigestOf(h, day, SortedIds(a)) == DigestOf(h, day, SortedIds(b)) <==> a == b
  {
    if DigestOf(h, day, SortedIds(a)) == DigestOf(h, day, SortedIds(b)) {
      ConcatIsInjective(SortedIds(a), SortedIds(b));
      assert forall id :: id in a <==> id in SortedIds(a);
      assert forall id :: id in b <==> id in SortedIds(b);
    }
  }

  // ----- differing_buckets -----

  function DigestMap(buckets: seq<BucketDigest>): map<int, (nat, Digest)> {
    if buckets == [] then map[]
    else var last := buckets[|buckets| - 1];
         DigestMap(buckets[..|buckets| - 1])[last.start := (last.count, last.digest)]
  }

  predicate Differs(local: map<int, (nat, Digest)>, b: BucketDigest) {
    b.start !in local || local[b.start] != (b.count, b.digest)
  }

  function DifferingFrom(local: map<int, (nat, Digest)>, remote: seq<BucketDigest>): (r: seq<int>)
    ensures |r| <= |remote|
    ensures forall d :: d in r <==> exists k :: 0 <= k < |remote| && remote[k].start == d && Differs(local, remote[k])
  {
    if remote == [] then []
    else
      var rest := DifferingFrom(local, remote[1..]);
      assert remote == [remote[0]] + remote[1..];
      if Differs(local, remote[0]) then [remote[0].start] + rest else rest
  }

  function DifferingBuckets(local: seq<BucketDigest>, remote: seq<BucketDigest>): (r: seq<int>)
    ensures |r| <= |remote|
  {
    DifferingFrom(DigestMap(local), remote)
  }

  ghost predicate Inventoried(h: Hash32, records: Records, now: int, day: int) {
    exists k :: 0 <= k < |Buckets(h, records, now)| && Buckets(h, records, now)[k].start == day
  }

  lemma {:induction false} DigestMapFinds(buckets: seq<BucketDigest>, k: nat)
    requires k < |buckets| && DistinctStarts(buckets)
    ensures buckets[k].start in DigestMap(buckets)
    ensures DigestMap(buckets)[buckets[k].start] == (buckets[k].count, buckets[k].digest)
  {
    if k < |buckets| - 1 {
      DigestMapFinds(buckets[..|buckets| - 1], k);
    }
  }

  lemma {:induction false} DigestMapOnly(buckets: seq<BucketDigest>, d: int)
    requires d in DigestMap(buckets)
    ensures exists k :: 0 <= k < |buckets| && buckets[k].start == d
  {
    if buckets[|buckets| - 1].start != d {
      DigestMapOnly(buckets[..|buckets| - 1], d);
    }
  }

  ghost predicate DistinctStarts(buckets: seq<BucketDigest>) {
    forall i, j :: 0 <= i < j < |buckets| ==> buckets[i].start != buckets[j].start
  }

  lemma BucketsAreDistinct(h: Hash32, records: Records, now: int)
    ensures DistinctStarts(Buckets(h, records, now))
  {
  }

  lemma BucketOfDay(h: Hash32, records: Records, now: int, day: int) returns (k: nat)
    requires Inventoried(h, records, now, day)
    ensures k < |Buckets(h, records, now)| && Buckets(h, records, now)[k] == DayDigest(h, records, now, day)
  {
    k :| 0 <= k < |Buckets(h, records, now)| && Buckets(h, records, now)[k].start == day;
  }

  lemma ListedWhenDiffering(ours: seq<BucketDigest>, theirs: seq<BucketDigest>, k: nat)
    requires k < |theirs| && DistinctStarts(theirs)
    ensures theirs[k].start in DifferingBuckets(ours, theirs) <==> Differs(DigestMap(ours), theirs[k])
  {
  }

  lemma EntryDiffers(h: Hash32, local: map<int, (nat, Digest)>, day: int, a: set<RecordId>, b: set<RecordId>)
    requires Injective(h) && day in local
    requires local[day] == (DigestOf(h, day, SortedIds(a)).count, DigestOf(h, day, SortedIds(a)).digest)
    ensures Differs(local, DigestOf(h, day, SortedIds(b))) <==> a != b
  {
    SameDigestSameIds(h, day, a, b);
  }

  /** The local side of the comparison: a day missing from the local inventory always differs, a day in it
      differs exactly when its ids do. */
  lemma LocalDayDiffers(h: Hash32, local: Records, now: int, remote: Records, now': int, day: int)
    requires Injective(h)
    ensures var differs := Differs(DigestMap(Buckets(h, local, now)), DayDigest(h, remote, now', day));
            && (!Inventoried(h, local, now, day) ==> differs)
            && (Inventoried(h, local, now, day) ==> (differs <==> DayIds(local, now, day) != DayIds(remote, now', day)))
  {
    var ours := Buckets(h, local, now);
    if Inventoried(h, local, now, day) {
      var j := BucketOfDay(h, local, now, day);
      BucketsAreDistinct(h, local, now);
      DigestMapFinds(ours, j);
      EntryDiffers(h, DigestMap(ours), day, DayIds(local, now, day), DayIds(remote, now', day));
    } else if day in DigestMap(ours) {
      DigestMapOnly(ours, day);
    }
  }

  /** With an injective digest, an inventoried remote bucket is left out of the comparison exactly when the
      local inventory has that day with the very same active ids. */
  lemma DifferingBucketsIsExact(h: Hash32, local: Records, now: int, remote: Records, now': int, day: int)
    requires Injective(h) && Inventoried(h, remote, now', day)
    ensures day !in DifferingBuckets(Buckets(h, local, now), Buckets(h, remote, now'))
            <==> Inventoried(h, local, now, day) && DayIds(local, now, day) == DayIds(remote, now', day)
  {
    var k := BucketOfDay(h, remote, now', day);
    BucketsAreDistinct(h, remote, now');
    ListedWhenDiffering(Buckets(h, local, now), Buckets(h, remote, now'), k);
    LocalDayDiffers(h, local, now, remote, now', day);
  }

  // ----- record_ids -----

  /** The active ids a page request for bucket `start` ranges over. */
  function RangeIds(records: Records, now: int, start: int): set<RecordId> {
    set id | id in records && Active(records, id, now)
             && start <= records[id].createdAt < SatAddI64(start, DAY_MS)
  }

  function Beyond(ids: set<RecordId>, cursor: RecordId): set<RecordId> {
    set id | id in ids && IdLess(cursor, id)
  }

  datatype Page = Page(ids: seq<RecordId>, next: Option<RecordId>)

  function PageOf(ids: seq<RecordId>, limit: nat): Page
    requires limit > 0
  {
    if |ids| > limit then Page(ids[..limit], Some(ids[limit - 1])) else Page(ids, None)
  }

  /** The cursor a page starts after; no cursor is the all-zero id. */
  function From(cursor: Option<RecordId>): RecordId { if cursor.Some? then cursor.value else ZERO_ID }

  function RecordIds(records: Records, start: int, cursor: Option<RecordId>, limit: nat, now: int): Result<Page, Error> {
    if limit == 0 then Err(ZeroLimit)
    else Ok(PageOf(SortedIds(Beyond(RangeIds(records, now, start), From(cursor))), Min(limit, MAX_IDS_PER_RESPONSE)))
  }

  lemma SuffixIsBeyond(ids: set<RecordId>, k: nat)
    requires 0 < k <= |SortedIds(ids)|
    ensures SortedIds(ids)[k..] == SortedIds(Beyond(ids, SortedIds(ids)[k - 1]))
  {
    var s := SortedIds(ids);
    IdOrder();
    forall id
      ensures id in s[k..] <==> id in Beyond(ids, s[k - 1])
    {
      if id in s[k..] {
        var i :| 0 <= i < |s| - k && s[k..][i] == id;
        assert s[k + i] == id && s[k + i] in s;
      }
      if id in Beyond(ids, s[k - 1]) {
        assert id in s;
        var i :| 0 <= i < |s| && s[i] == id;
        assert i >= k;
        assert s[k..][i - k] == id;
      }
    }
    SortedIdsIs(s[k..], Beyond(ids, s[k - 1]));
  }

  lemma BeyondShrinks(ids: set<RecordId>, from: RecordId, next: RecordId)
    requires next in Beyond(ids, from)
    ensures Beyond(ids, next) < Beyond(ids, from)
    ensures Beyond(Beyond(ids, from), next) == Beyond(ids, next)
  {
    IdOrder();
  }

  lemma NextIsBeyond(ids: set<RecordId>, from: RecordId, limit: nat)
    requires limit > 0 && |SortedIds(Beyond(ids, from))| > limit
    ensures SortedIds(Beyond(ids, from))[limit - 1] in Beyond(ids, from)
  {
    var sorted := SortedIds(Beyond(ids, from));
    assert sorted[limit - 1] in sorted;
  }

  lemma RestIsBeyond(ids: set<RecordId>, from: RecordId, limit: nat)
    requires limit > 0 && |SortedIds(Beyond(ids, from))| > limit
    ensures var sorted := SortedIds(Beyond(ids, from));
            && sorted == sorted[..limit] + SortedIds(Beyond(ids, sorted[limit - 1]))
            && Beyond(ids, sorted[limit - 1]) < Beyond(ids, from)
  {
    NextIsBeyond(ids, from, limit);
    BeyondShrinks(ids, from, SortedIds(Beyond(ids, from))[limit - 1]);
    SuffixIsBeyond(Beyond(ids, from), limit);
  }

  /** The ids of a bucket still to come after a cursor: those strictly after it, or all but the all-zero one. */
  function Left(records: Records, start: int, cursor: Option<RecordId>, now: int): set<RecordId> {
    set id | id in RangeIds(records, now, start) && if cursor.Some? then IdLess(cursor.value, id) else id != ZERO_ID
  }

  lemma LeftIsBeyond(records: Records, start: int, cursor: Option<RecordId>, now: int)
    ensures Left(records, start, cursor, now) == Beyond(RangeIds(records, now, start), From(cursor))
  {
    forall id
      ensures IdLess(ZERO_ID, id) <==> id != ZERO_ID
    {
      ZeroIsLeast(id);
      LessIrreflexive(ZERO_ID);
    }
  }

  /** A page lists, in order, the next ids after its cursor, at most as many as asked for and at most 2,000, and
      says where to go on exactly when more are left. */
  lemma PageIsExact(records: Records, start: int, cursor: Option<RecordId>, limit: nat, now: int)
    requires limit > 0
    ensures var r := RecordIds(records, start, cursor, limit, now);
            && r.Ok? && |r.value.ids| <= limit && |r.value.ids| <= 2_000
            && (forall id :: id in r.value.ids ==> id in Left(records, start, cursor, now))
            && if r.value.next.None? then r.value.ids == SortedIds(Left(records, start, cursor, now))
               else
                 && |r.value.ids| == Min(limit, 2_000) && r.value.next.value == r.value.ids[|r.value.ids| - 1]
                 && SortedIds(Left(records, start, cursor, now))
                    == r.value.ids + SortedIds(Left(records, start, r.value.next, now))
                 && Left(records, start, r.value.next, now) < Left(records, start, cursor, now)
  {
    var r := RecordIds(records, start, cursor, limit, now);
    var (ids, capped) := (RangeIds(records, now, start), Min(limit, MAX_IDS_PER_RESPONSE));
    LeftIsBeyond(records, start, cursor, now);
    LeftIsBeyond(records, start, r.value.next, now);
    if r.value.next.Some? { RestIsBeyond(ids, From(cursor), capped); }
    forall id | id in r.value.ids
      ensures id in Left(records, start, cursor, now)
    {
      assert id in SortedIds(Beyond(ids, From(cursor)));
    }
  }

  /** What a client collects that asks again with the cursor of each page until there is none. */
  function CollectPages(records: Records, start: int, cursor: Option<RecordId>, limit: nat, now: int): seq<RecordId>
    requires limit > 0
    decreases Left(records, start, cursor, now)
  {
    match RecordIds(records, start, cursor, limit, now)
    case Err(_) => []
    case Ok(page) =>
      if page.next == None then page.ids
      else
        PageIsExact(records, start, cursor, limit, now);
        page.ids + CollectPages(records, start, page.next, limit, now)
  }

  lemma {:induction false} CollectsTheRest(records: Records, start: int, cursor: Option<RecordId>, limit: nat, now: int)
    requires limit > 0
    ensures CollectPages(records, start, cursor, limit, now) == SortedIds(Left(records, start, cursor, now))
    decreases Left(records, start, cursor, now)
  {
    PageIsExact(records, start, cursor, limit, now);
    var page := RecordIds(records, start, cursor, limit, now).value;
    if page.next.Some? { CollectsTheRest(records, start, page.next, limit, now); }
  }

  /** Paging from no cursor, with any limit of at least one, ends and yields the active ids of the bucket in
      order, each once, except the all-zero id: it is complete exactly when that id is not in the bucket. */
  lemma PagingIsComplete(records: Records, start: int, limit: nat, now: int)
    requires limit > 0
    ensures CollectPages(records, start, None, limit, now) == SortedIds(RangeIds(records, now, start) - {ZERO_ID})
    ensures CollectPages(records, start, None, limit, now) == SortedIds(RangeIds(records, now, start))
            <==> ZERO_ID !in RangeIds(records, now, start)
  {
    var ids := RangeIds(records, now, start);
    CollectsTheRest(records, start, None, limit, now);
    assert Left(records, start, None, now) == ids - {ZERO_ID};
    if ZERO_ID in ids {
      assert ZERO_ID in SortedIds(ids) && ZERO_ID !in SortedIds(ids - {ZERO_ID});
    } else {
      assert ids - {ZERO_ID} == ids;
    }
  }

  /** A bucket that starts on a positive day is the same set of ids to the inventory and to paging, as long as
      its end fits an i64; day zero is the same exactly when no active record dates from the day before 1970,
      because SQLite divides toward zero. */
  lemma RangeIsDay(records: Records, now: int, k: int)
    requires 0 <= k && k * DAY_MS + DAY_MS <= I64_MAX
    ensures k > 0 ==> RangeIds(records, now, k * DAY_MS) == DayIds(records, now, k * DAY_MS)
    ensures k == 0 ==>
              (RangeIds(records, now, 0) == DayIds(records, now, 0)
               <==> forall id :: Active(records, id, now) ==> !(-DAY_MS < records[id].createdAt < 0))
  {
    var start := k * DAY_MS;
    forall id | Active(records, id, now)
      ensures id in DayIds(records, now, start)
              <==> start <= records[id].createdAt < start + DAY_MS
                   || (k == 0 && -DAY_MS < records[id].createdAt < 0)
    {
      BucketBounds(records[id].createdAt, k);
    }
    if k == 0 && exists id :: Active(records, id, now) && -DAY_MS < records[id].createdAt < 0 {
      var id :| Active(records, id, now) && -DAY_MS < records[id].createdAt < 0;
      assert id in DayIds(records, now, 0) && id !in RangeIds(records, now, 0);
    }
  }

  /** An active record of the last millisecond before 1970 is inventoried in day zero and on none of its pages. */
  lemma DayZeroIsTooWide(id: RecordId, origin: Origin)
    ensures var records := map[id := Record(id, origin, 0, -1, 1, 0, 0)];
            id in DayIds(records, 0, 0) && id !in RangeIds(records, 0, 0)
  {
    BucketBounds(-1, 0);
  }

  lemma BucketBounds(createdAt: int, k: int)
    requires 0 <= k
    ensures BucketOf(createdAt) == k * DAY_MS
            <==> k * DAY_MS <= createdAt < k * DAY_MS + DAY_MS || (k == 0 && -DAY_MS < createdAt < 0)
  {
  }

  // ----- records_by_ids -----

  function Present(records: Records, ids: seq<RecordId>, now: int): (r: seq<Record>)
    ensures |r| <= |ids|
  {
    if ids == [] then []
    else
      var id := ids[|ids| - 1];
      Present(records, ids[..|ids| - 1], now) + if Active(records, id, now) then [records[id]] else []
  }

  function RecordsByIds(records: Records, ids: seq<RecordId>, now: int): Result<seq<Record>, Error> {
    if |ids| > MAX_REQUESTED_RECORDS then Err(TooManyRecords) else Ok(Present(records, ids, now))
  }

  lemma {:induction false} PresentIsExact(records: Records, ids: seq<RecordId>, now: int)
    requires forall id :: id in records ==> records[id].id == id
    ensures forall r :: r in Present(records, ids, now) <==>
              r.id in ids && Active(records, r.id, now) && records[r.id] == r
  {
    if ids != [] {
      PresentIsExact(records, ids[..|ids| - 1], now);
      assert ids == ids[..|ids| - 1] + [ids[|ids| - 1]];
    }
  }
}
