/** What `ensure_capacity` keeps over every run of writes: the limit on active records and the daily limit. */
module Capacity {
  import Sets
  import opened Wrappers
  import opened Limits
  import opened Bytes
  import opened Store
  import opened Writes

  // ----- A clock that does not go back -----

  predicate InTime(w: Write, now: int) {
    match w
    case Insert(_, m) => now <= m.countedAt <= m.checkedAt <= m.storedAt
    case Remove(_, _) => true
    case Cleanup(at, _) => now <= at
  }

  /** The last reading of the clock after a write. */
  function LastReading(w: Write, now: int): int {
    match w
    case Insert(_, m) => m.storedAt
    case Remove(_, _) => now
    case Cleanup(at, _) => at
  }

  ghost predicate AllInTime(ws: seq<Write>, now: int)
    decreases |ws|
  {
    ws == [] || (InTime(ws[0], now) && AllInTime(ws[1..], LastReading(ws[0], now)))
  }

  function LastOf(ws: seq<Write>, now: int): int
    decreases |ws|
  {
    if ws == [] then now else LastOf(ws[1..], LastReading(ws[0], now))
  }

  lemma {:induction false} ReadingsRise(ws: seq<Write>, now: int)
    requires AllInTime(ws, now)
    ensures now <= LastOf(ws, now)
    decreases |ws|
  {
    if ws != [] { ReadingsRise(ws[1..], LastReading(ws[0], now)); }
  }

  // ----- The limit on active records -----

  lemma ActiveOnlyExpire(records: Records, now: int, later: int)
    requires now <= later
    ensures |ActiveIds(records, later)| <= |ActiveIds(records, now)|
  {
    Sets.SubsetSize(ActiveIds(records, later), ActiveIds(records, now));
  }

  function IdsOf(rows: seq<Record>): set<RecordId> { set r | r in rows :: r.id }

  lemma {:induction false} IdsOfCount(rows: seq<Record>)
    ensures |IdsOf(rows)| <= |rows|
  {
    if rows != [] {
      var last := rows[|rows| - 1];
      assert IdsOf(rows) == IdsOf(rows[..|rows| - 1]) + {last.id} by { InLastOrBefore(rows); }
      IdsOfCount(rows[..|rows| - 1]);
    }
  }

  lemma AddedActive(before: Records, after: Records, rows: seq<Record>, results: seq<bool>, now: int)
    requires |results| == |rows| && Added(before, after, rows, results)
    ensures |ActiveIds(after, now)| <= |ActiveIds(before, now)| + |rows|
  {
    forall id | id in ActiveIds(after, now)
      ensures id in ActiveIds(before, now) + IdsOf(rows)
    {
      if id !in before {
        var i :| 0 <= i < |rows| && results[i] && rows[i].id == id;
        assert rows[i] in rows;
      }
    }
    Sets.SubsetSize(ActiveIds(after, now), ActiveIds(before, now) + IdsOf(rows));
    IdsOfCount(rows);
  }

  lemma InsertKeepsActiveLimit(t: Tables, rows: seq<Record>, m: Machine, now: int)
    requires Valid(t) && InTime(Insert(rows, m), now) && |ActiveIds(t.records, now)| <= MAX_ACTIVE_RECORDS
    ensures |ActiveIds(Apply(t, Insert(rows, m)).records, m.storedAt)| <= MAX_ACTIVE_RECORDS
  {
    if InsertBatch(t, rows, m).Ok? {
      InsertBatchIsExact(t, rows, m);
      InsertBatchSucceedsExactly(t, rows, m);
      var (t1, results) := InsertBatch(t, rows, m).value;
      AddedActive(t.records, t1.records, FirstRows(rows), results, m.countedAt);
      ActiveOnlyExpire(t1.records, m.countedAt, m.storedAt);
    } else {
      ActiveOnlyExpire(t.records, now, m.storedAt);
    }
  }

  lemma FewerActive(before: Records, after: Records, now: int, later: int)
    requires now <= later && forall id :: id in after ==> id in before && after[id] == before[id]
    ensures |ActiveIds(after, later)| <= |ActiveIds(before, now)|
  {
    Sets.SubsetSize(ActiveIds(after, later), ActiveIds(before, now));
  }

  lemma StepKeepsActiveLimit(t: Tables, w: Write, now: int)
    requires Valid(t) && InTime(w, now) && |ActiveIds(t.records, now)| <= MAX_ACTIVE_RECORDS
    ensures |ActiveIds(Apply(t, w).records, LastReading(w, now))| <= MAX_ACTIVE_RECORDS
  {
    match w
    case Insert(rows, m) => InsertKeepsActiveLimit(t, rows, m, now);
    case Remove(_, _) => FewerActive(t.records, Apply(t, w).records, now, now);
    case Cleanup(at, _) => FewerActive(t.records, Apply(t, w).records, now, at);
  }

  /** In every run of writes whose clock does not go back, no more than a million records are active at any time
      from its last reading on, although the check counts before the transaction. */
  lemma {:induction false} ActiveNeverExceeds(t: Tables, ws: seq<Write>, now: int, later: int)
    requires Valid(t) && |ActiveIds(t.records, now)| <= MAX_ACTIVE_RECORDS
    requires AllInTime(ws, now) && LastOf(ws, now) <= later
    ensures |ActiveIds(Run(t, ws).records, later)| <= MAX_ACTIVE_RECORDS
    decreases |ws|
  {
    if ws == [] {
      ActiveOnlyExpire(t.records, now, later);
    } else {
      StepKeepsActiveLimit(t, ws[0], now);
      WriteKeepsValid(t, ws[0]);
      ActiveNeverExceeds(Apply(t, ws[0]), ws[1..], LastReading(ws[0], now), later);
    }
  }

  // ----- The daily limit -----

  /** The rows a write adds to the table and stamps with a day. */
  function WrittenBy(t: Tables, w: Write, day: int): nat {
    match w
    case Insert(rows, m) =>
      if InsertBatch(t, rows, m).Ok? && DayOf(m.storedAt) == day then Count(InsertBatch(t, rows, m).value.1) else 0
    case _ => 0
  }

  /** The rows a run adds on a day, whatever becomes of them. */
  function WrittenOn(t: Tables, ws: seq<Write>, day: int): nat
    decreases |ws|
  {
    if ws == [] then 0 else WrittenBy(t, ws[0], day) + WrittenOn(Apply(t, ws[0]), ws[1..], day)
  }

  /** The rows written on a day so far are those counted, unless the day is over and its count was pruned. */
  ghost predicate Counted(t: Tables, day: int, written: nat, now: int) {
    && written <= MAX_DAILY_NEW_RECORDS
    && (if day in t.daily then t.daily[day] == written && day <= DayOf(now)
        else written == 0 || day < DayOf(now) - 31)
  }

  lemma {:induction false} CountAtMost(flags: seq<bool>)
    ensures Count(flags) <= |flags|
    ensures true !in flags ==> Count(flags) == 0
  {
    if flags != [] {
      CountAtMost(flags[..|flags| - 1]);
      assert flags[|flags| - 1] in flags;
    }
  }

  lemma DaysRise(now: int, later: int)
    requires now <= later
    ensures DayOf(now) <= DayOf(later)
  {
  }

  lemma InsertKeepsCounted(t: Tables, rows: seq<Record>, m: Machine, day: int, written: nat, now: int)
    requires Valid(t) && InTime(Insert(rows, m), now) && Counted(t, day, written, now)
    ensures var w := Insert(rows, m);
            Counted(Apply(t, w), day, written + WrittenBy(t, w, day), m.storedAt)
  {
    LaterCounted(t, day, written, now, m.storedAt);
    if InsertBatch(t, rows, m).Ok? {
      InsertBatchSucceedsExactly(t, rows, m);
      InsertBatchIsExact(t, rows, m);
      InsertBatchCounts(t, rows, m);
      var (t1, results) := InsertBatch(t, rows, m).value;
      CountAtMost(results);
      if true in results { StampKeepsCounted(t, t1, m, day, written, now, Count(results)); }
    }
  }

  lemma LaterCounted(t: Tables, day: int, written: nat, now: int, later: int)
    requires now <= later && Counted(t, day, written, now)
    ensures Counted(t, day, written, later)
  {
    DaysRise(now, later);
  }

  /** A batch checked on one day and stamped on the next starts that day's count. */
  lemma StampKeepsCounted(t: Tables, t1: Tables, m: Machine, day: int, written: nat, now: int, n: nat)
    requires now <= m.checkedAt <= m.storedAt && Counted(t, day, written, now)
    requires NewOn(t, DayOf(m.checkedAt)) + n <= MAX_DAILY_NEW_RECORDS
    requires t1.daily == CountToday(t, DayOf(m.storedAt), n).daily
    ensures Counted(t1, day, written + if DayOf(m.storedAt) == day then n else 0, m.storedAt)
  {
    DaysRise(now, m.checkedAt);
    DaysRise(m.checkedAt, m.storedAt);
  }

  lemma CleanupKeepsCounted(t: Tables, at: int, failure: Failure, day: int, written: nat, now: int)
    requires now <= at && Counted(t, day, written, now)
    ensures Counted(Apply(t, Cleanup(at, failure)), day, written, at)
  {
    LaterCounted(t, day, written, now, at);
  }

  lemma StepKeepsCounted(t: Tables, w: Write, day: int, written: nat, now: int)
    requires Valid(t) && InTime(w, now) && Counted(t, day, written, now)
    ensures Counted(Apply(t, w), day, written + WrittenBy(t, w, day), LastReading(w, now))
  {
    match w
    case Insert(rows, m) => InsertKeepsCounted(t, rows, m, day, written, now);
    case Remove(_, _) =>
    case Cleanup(at, failure) => CleanupKeepsCounted(t, at, failure, day, written, now);
  }

  lemma {:induction false} RunKeepsCounted(t: Tables, ws: seq<Write>, day: int, written: nat, now: int)
    requires Valid(t) && AllInTime(ws, now) && Counted(t, day, written, now)
    ensures Counted(Run(t, ws), day, written + WrittenOn(t, ws, day), LastOf(ws, now))
    decreases |ws|
  {
    if ws != [] {
      StepKeepsCounted(t, ws[0], day, written, now);
      WriteKeepsValid(t, ws[0]);
      RunKeepsCounted(Apply(t, ws[0]), ws[1..], day, written + WrittenBy(t, ws[0], day), LastReading(ws[0], now));
    }
  }

  /** No day ever takes more than 100,000 new rows, whatever is removed or pruned in between and although the day
      may end between the check and the stamp; and the count kept for a day is exact until it is pruned. */
  lemma DailyNeverExceeds(ws: seq<Write>, day: int, now: int)
    requires AllInTime(ws, now)
    ensures WrittenOn(EMPTY, ws, day) <= MAX_DAILY_NEW_RECORDS
    ensures day in Run(EMPTY, ws).daily ==> Run(EMPTY, ws).daily[day] == WrittenOn(EMPTY, ws, day)
    ensures day !in Run(EMPTY, ws).daily ==> WrittenOn(EMPTY, ws, day) == 0 || day < DayOf(LastOf(ws, now)) - 31
  {
    RunKeepsCounted(EMPTY, ws, day, 0, now);
  }

  // ----- Which batches are refused -----

  lemma {:induction false} RowsAreNotUnsafe(t: Tables, rows: seq<Record>, m: Machine)
    ensures InsertRows(t, rows, m) != Err(StorageSafety)
  {
    if rows != [] { RowsAreNotUnsafe(t, rows[..|rows| - 1], m); }
  }

  /** In a database the node has written, with a clock that does not go back, a batch is refused for safety exactly
      when the active records and the rows of the batch are more than a million, the machine has no room, or the
      rows written this day and those of the batch are more than 100,000. */
  lemma RefusedExactly(ws: seq<Write>, from: int, rows: seq<Record>, m: Machine)
    requires AllInTime(ws, from) && InTime(Insert(rows, m), LastOf(ws, from))
    ensures var t := Run(EMPTY, ws);
            var n := if |rows| > 100 then 100 else |rows|;
            var active := set id | id in t.records && t.records[id].expiresAt > m.countedAt;
            InsertBatch(t, rows, m) == Err(StorageSafety)
            <==> |active| + n > 1_000_000 || !m.room || WrittenOn(EMPTY, ws, m.checkedAt / 86_400_000) + n > 100_000
  {
    var (t, day) := (Run(EMPTY, ws), DayOf(m.checkedAt));
    RunKeepsCounted(EMPTY, ws, day, 0, from);
    DaysRise(LastOf(ws, from), m.checkedAt);
    assert NewOn(t, day) == WrittenOn(EMPTY, ws, day);
    assert ActiveIds(t.records, m.countedAt)
           == set id | id in t.records && t.records[id].expiresAt > m.countedAt;
    RowsAreNotUnsafe(t, FirstRows(rows), m);
  }

  lemma OneBatchStaysSmall(rows: seq<Record>, m: Machine, day: int)
    requires |rows| <= 100 && m.room && m.refusedAt.None? && forall r :: r in rows ==> Storable(r)
    ensures InsertBatch(EMPTY, rows, m).Ok?
    ensures var t := InsertBatch(EMPTY, rows, m).value.0;
            |t.records| <= 100 && NewOn(t, day) <= 100
  {
    assert FirstRows(rows) == rows;
    SmallHasCapacity(EMPTY, rows, m);
    InsertBatchSucceedsExactly(EMPTY, rows, m);
    InsertBatchIsExact(EMPTY, rows, m);
    InsertBatchCounts(EMPTY, rows, m);
    CountAtMost(InsertBatch(EMPTY, rows, m).value.1);
  }

  /** Two small batches both succeed, on one day as on two, whatever the first one wrote. */
  lemma TwoBatchesOfADay(first: seq<Record>, m: Machine, second: seq<Record>, m': Machine)
    requires |first| <= 100 && |second| <= 100 && forall r :: r in first + second ==> Storable(r)
    requires m.room && m'.room && m.refusedAt.None? && m'.refusedAt.None?
    ensures InsertBatch(EMPTY, first, m).Ok? && InsertBatch(InsertBatch(EMPTY, first, m).value.0, second, m').Ok?
  {
    assert FirstRows(second) == second;
    assert (forall r :: r in first ==> r in first + second) && forall r :: r in second ==> r in first + second;
    OneBatchStaysSmall(first, m, DayOf(m'.checkedAt));
    var t := InsertBatch(EMPTY, first, m).value.0;
    Sets.SubsetSize(ActiveIds(t.records, m'.countedAt), t.records.Keys);
    InsertBatchSucceedsExactly(t, second, m');
  }
}
