/** What the writes promise: constraints, exact answers, idempotence, the generation stamp, the high marks. */
module Writes {
  import opened Wrappers
  import Sets
  import opened Limits
  import opened Bytes
  import opened Store

  // ----- insert_batch -----

  function FirstRows(rows: seq<Record>): seq<Record> { rows[..Min(|rows|, INSERT_BATCH_CAP)] }

  /** A row whose numbers fit the table's INTEGER columns. */
  predicate Storable(r: Record) { r.sequence <= I64_MAX && r.fileSize <= I64_MAX }

  /** The batch passes the capacity check, SQLite refuses no statement, and each of its first 100 rows fits. */
  predicate Succeeds(t: Tables, rows: seq<Record>, m: Machine) {
    HasCapacity(t, rows, m) && m.refusedAt.None? && forall r :: r in FirstRows(rows) ==> Storable(r)
  }

  lemma {:induction false} InsertRowsSucceedsExactly(t: Tables, rows: seq<Record>, m: Machine)
    ensures InsertRows(t, rows, m).Ok?
            <==> (forall r :: r in rows ==> Storable(r)) && (m.refusedAt.Some? ==> m.refusedAt.value >= |rows|)
  {
    if rows != [] {
      var last := |rows| - 1;
      InsertRowsSucceedsExactly(t, rows[..last], m);
      InLastOrBefore(rows);
      if InsertRows(t, rows[..last], m).Ok? {
        var t1 := InsertRows(t, rows[..last], m).value.0;
        assert InsertOne(t1, rows[last]).Ok? <==> Storable(rows[last]);
        assert InsertRows(t, rows, m).Ok? <==> !Refuses(m, last) && Storable(rows[last]);
      } else {
        assert InsertRows(t, rows, m).Err?;
      }
    }
  }

  lemma InLastOrBefore(rows: seq<Record>)
    requires rows != []
    ensures forall r :: r in rows <==> r in rows[..|rows| - 1] || r == rows[|rows| - 1]
  {
    assert rows == rows[..|rows| - 1] + [rows[|rows| - 1]];
  }

  /** A small table on which no day has been counted has room for a small batch. */
  lemma SmallHasCapacity(t: Tables, rows: seq<Record>, m: Machine)
    requires |t.records| + |rows| <= MAX_DAILY_NEW_RECORDS && t.daily == map[] && m.room
    ensures HasCapacity(t, rows, m)
  {
    Sets.SubsetSize(ActiveIds(t.records, m.countedAt), t.records.Keys);
  }

  /** A batch succeeds under exactly this condition: a single row that does not fit fails the whole batch. */
  lemma InsertBatchSucceedsExactly(t: Tables, rows: seq<Record>, m: Machine)
    ensures InsertBatch(t, rows, m).Ok? <==> Succeeds(t, rows, m)
  {
    InsertRowsSucceedsExactly(t, FirstRows(rows), m);
  }

  /** A batch answers for its first 100 rows, each with the exact flag; the rows it writes are those flagged,
      and the constraints hold afterwards. */
  lemma InsertBatchIsExact(t: Tables, rows: seq<Record>, m: Machine)
    requires Valid(t) && InsertBatch(t, rows, m).Ok?
    ensures var (t1, results) := InsertBatch(t, rows, m).value;
            && Valid(t1) && |results| == |FirstRows(rows)|
            && Added(t.records, t1.records, FirstRows(rows), results)
            && ExactFlags(t.records, FirstRows(rows), results)
  {
    InsertRowsIsExact(t, FirstRows(rows), m);
    BatchUnfolds(t, rows, m);
  }

  /** The daily count and the table grow by the number of rows written, the generation moves by one exactly
      when the record table changed, and no high mark falls. */
  lemma InsertBatchCounts(t: Tables, rows: seq<Record>, m: Machine)
    requires Valid(t) && InsertBatch(t, rows, m).Ok?
    ensures var (t1, results) := InsertBatch(t, rows, m).value;
            && |t1.records| == |t.records| + Count(results)
            && (true !in results ==> t1 == t)
            && (true in results ==> t1.records != t.records && t1.generation == SatAdd64(t.generation, 1)
                                    && t1.daily == CountToday(t, DayOf(m.storedAt), Count(results)).daily)
    ensures forall o :: o in t.highest ==>
              o in InsertBatch(t, rows, m).value.0.highest
              && t.highest[o] <= InsertBatch(t, rows, m).value.0.highest[o]
  {
    BatchUnfolds(t, rows, m);
    RowsGrowByCount(t, FirstRows(rows), m);
    RowsKeepCounters(t, FirstRows(rows), m);
    if true !in InsertRows(t, FirstRows(rows), m).value.1 {
      NothingWritten(t, FirstRows(rows), m);
    }
  }

  lemma RowsKeepCounters(t: Tables, rows: seq<Record>, m: Machine)
    requires Valid(t) && InsertRows(t, rows, m).Ok?
    ensures var (t0, results) := InsertRows(t, rows, m).value;
            && t0.generation == t.generation && t0.daily == t.daily
            && (true in results ==> t0.records != t.records)
    ensures forall o :: o in t.highest ==>
              o in InsertRows(t, rows, m).value.0.highest && t.highest[o] <= InsertRows(t, rows, m).value.0.highest[o]
  {
    InsertRowsIsExact(t, rows, m);
    var (t0, results) := InsertRows(t, rows, m).value;
    if true in results {
      SomethingWritten(t, t0, rows, results);
    }
  }

  lemma BatchUnfolds(t: Tables, rows: seq<Record>, m: Machine)
    requires InsertBatch(t, rows, m).Ok?
    ensures InsertRows(t, FirstRows(rows), m).Ok?
    ensures var (t0, results) := InsertRows(t, FirstRows(rows), m).value;
            InsertBatch(t, rows, m).value
            == (if true in results then CountToday(Stamp(t0), DayOf(m.storedAt), Count(results)) else t0, results)
  {
  }

  lemma SomethingWritten(t: Tables, t0: Tables, rows: seq<Record>, results: seq<bool>)
    requires |results| == |rows| && Added(t.records, t0.records, rows, results)
    requires ExactFlags(t.records, rows, results) && true in results
    ensures t0.records != t.records
  {
    var i :| 0 <= i < |results| && results[i];
    assert ExactFlag(t.records, rows, results, i);
    assert rows[i].id in t0.records && rows[i].id !in t.records;
  }

  lemma {:induction false} RowsGrowByCount(t: Tables, rows: seq<Record>, m: Machine)
    requires Valid(t) && InsertRows(t, rows, m).Ok?
    ensures var (t1, results) := InsertRows(t, rows, m).value; |t1.records| == |t.records| + Count(results)
  {
    if rows != [] {
      var last := |rows| - 1;
      RowsGrowByCount(t, rows[..last], m);
      InsertRowsIsExact(t, rows[..last], m);
      var (t0, flags) := InsertRows(t, rows[..last], m).value;
      InsertOneIsExact(t0, rows[last]);
      var (t1, results) := InsertRows(t, rows, m).value;
      assert results[..last] == flags;
      if results[last] {
        assert t1.records == t0.records[rows[last].id := rows[last]];
      }
    }
  }

  lemma {:induction false} NothingWritten(t: Tables, rows: seq<Record>, m: Machine)
    requires InsertRows(t, rows, m).Ok? && true !in InsertRows(t, rows, m).value.1
    ensures InsertRows(t, rows, m).value.0 == t
  {
    if rows != [] {
      var last := |rows| - 1;
      var flags := InsertRows(t, rows[..last], m).value.1;
      var results := InsertRows(t, rows, m).value.1;
      assert results[..last] == flags;
      assert forall x :: x in flags ==> x in results;
      assert results[last] in results;
      NothingWritten(t, rows[..last], m);
    }
  }

  lemma {:induction false} BlockedRowsAreIgnored(t: Tables, rows: seq<Record>, m: Machine)
    requires InsertRows(t, rows, m).Ok? && forall r :: r in rows ==> Blocked(t.records, r)
    ensures InsertRows(t, rows, m).value.0 == t
    ensures true !in InsertRows(t, rows, m).value.1
  {
    if rows != [] {
      var last := |rows| - 1;
      assert rows[last] in rows;
      BlockedRowsAreIgnored(t, rows[..last], m);
    }
  }

  lemma AnsweredIsBlocked(before: Records, after: Records, rows: seq<Record>, results: seq<bool>, i: nat)
    requires |results| == |rows| && i < |rows|
    requires Added(before, after, rows, results) && ExactFlags(before, rows, results)
    ensures Blocked(after, rows[i])
  {
    assert ExactFlag(before, rows, results, i);
    BlockedAfter(before, after, rows, results, rows[i]);
    assert ClashesWithWritten(rows, results, i, rows[i]) ==> ClashesWithWritten(rows, results, |rows|, rows[i]);
  }

  /** Offering a batch again writes nothing and answers `false` for every row. */
  lemma RepeatedBatchChangesNothing(t: Tables, rows: seq<Record>, m: Machine, m': Machine)
    requires Valid(t) && InsertBatch(t, rows, m).Ok?
    requires InsertBatch(InsertBatch(t, rows, m).value.0, rows, m').Ok?
    ensures var t1 := InsertBatch(t, rows, m).value.0;
            var (t2, results) := InsertBatch(t1, rows, m').value;
            t2 == t1 && true !in results
  {
    InsertBatchIsExact(t, rows, m);
    var (t1, results) := InsertBatch(t, rows, m).value;
    var first := FirstRows(rows);
    forall r | r in first
      ensures Blocked(t1.records, r)
    {
      var i :| 0 <= i < |first| && first[i] == r;
      AnsweredIsBlocked(t.records, t1.records, first, results, i);
    }
    BlockedRowsAreIgnored(t1, first, m');
  }

  /** Record ids are hashes over the origin and the sequence: among these rows an id fixes the key. */
  ghost predicate ContentAddressed(records: Records, rows: seq<Record>) {
    && (forall i, j :: 0 <= i < |rows| && 0 <= j < |rows| && rows[i].id == rows[j].id ==> SameKey(rows[i], rows[j]))
    && (forall i :: 0 <= i < |rows| && rows[i].id in records ==> SameKey(records[rows[i].id], rows[i]))
  }

  /** With content-addressed ids a row is written exactly when it clashes with nothing in the table and with
      no earlier row of the batch, written or not. */
  lemma ContentAddressedFlags(t: Tables, rows: seq<Record>, m: Machine)
    requires Valid(t) && InsertBatch(t, rows, m).Ok? && ContentAddressed(t.records, FirstRows(rows))
    ensures var results := InsertBatch(t, rows, m).value.1;
            var first := FirstRows(rows);
            && |results| == |first|
            && forall i :: 0 <= i < |first| ==>
                 (results[i] <==> !Blocked(t.records, first[i]) && forall j :: 0 <= j < i ==> !Clash(first[j], first[i]))
  {
    InsertBatchIsExact(t, rows, m);
    var results := InsertBatch(t, rows, m).value.1;
    var first := FirstRows(rows);
    forall i | 0 <= i < |first|
      ensures results[i] <==> !Blocked(t.records, first[i]) && forall j :: 0 <= j < i ==> !Clash(first[j], first[i])
    {
      FlagWithoutClashes(t.records, first, results, i);
    }
  }

  lemma FlagWithoutClashes(before: Records, rows: seq<Record>, results: seq<bool>, i: nat)
    requires |results| == |rows| && ExactFlags(before, rows, results) && ContentAddressed(before, rows) && i < |rows|
    ensures results[i] <==> !Blocked(before, rows[i]) && forall j :: 0 <= j < i ==> !Clash(rows[j], rows[i])
  {
    assert ExactFlag(before, rows, results, i);
    forall j | 0 <= j < i && Clash(rows[j], rows[i])
      ensures !results[i]
    {
      EarlierClashRefuses(before, rows, results, j, i);
    }
  }

  lemma EarlierClashRefuses(before: Records, rows: seq<Record>, results: seq<bool>, j: nat, i: nat)
    requires |results| == |rows| && ExactFlags(before, rows, results) && ContentAddressed(before, rows)
    requires j < i < |rows| && Clash(rows[j], rows[i])
    ensures !results[i]
  {
    assert SameKey(rows[j], rows[i]);
    assert ExactFlag(before, rows, results, i) && ExactFlag(before, rows, results, j);
    if !results[j] {
      if Blocked(before, rows[j]) {
        BlockedByKey(before, rows[j], rows[i]);
      } else {
        var k :| 0 <= k < j && results[k] && Clash(rows[k], rows[j]);
        assert SameKey(rows[k], rows[i]);
      }
    }
  }

  lemma BlockedByKey(records: Records, a: Record, b: Record)
    requires Blocked(records, a) && SameKey(a, b)
    requires a.id in records ==> SameKey(records[a.id], a)
    ensures Blocked(records, b)
  {
    if a.id in records {
      assert records[a.id].origin == b.origin && records[a.id].sequence == b.sequence;
    }
  }

  /** Without content-addressed ids the simpler reading fails: a row is written although an earlier, refused
      row of the same batch carries the same id. */
  lemma RefusedRowDoesNotBlock(x: Record, id: RecordId, m: Machine)
    requires x.id != id && x.sequence < I64_MAX && x.fileSize <= I64_MAX
    requires m.room && m.refusedAt == None
    ensures var t := EMPTY.(records := map[x.id := x], highest := map[x.origin := x.sequence]);
            var rows := [x.(id := id), x.(id := id, sequence := x.sequence + 1)];
            Valid(t) && InsertBatch(t, rows, m).Ok? && InsertBatch(t, rows, m).value.1 == [false, true]
  {
    var t := EMPTY.(records := map[x.id := x], highest := map[x.origin := x.sequence]);
    var a := x.(id := id);
    var b := x.(id := id, sequence := x.sequence + 1);
    var rows := [a, b];
    SmallHasCapacity(t, rows, m);
    assert t.records[x.id].origin == a.origin && KeyTaken(t.records, a.origin, a.sequence);
    assert rows[..1] == [a] && [a][..0] == [];
    assert InsertOne(t, a) == Ok((t, false));
    var none: seq<bool> := [];
    assert none + [false] == [false];
    assert InsertRows(t, [], m) == Ok((t, none)) && [a][0] == a;
    assert InsertRows(t, [a], m) == Ok((t, none + [false]));
    assert InsertOne(t, b).Ok? && InsertOne(t, b).value.1;
    assert InsertRows(t, rows, m).Ok? && InsertRows(t, rows, m).value.1 == [false, true];
    assert rows[..Min(|rows|, INSERT_BATCH_CAP)] == rows;
    assert [false, true][1] in [false, true];
  }

  // ----- Every reachable table -----

  /** Both uniqueness constraints and the high marks hold after every write, the marks never fall, and the
      generation moves by one exactly when the record table changed. */
  lemma WriteKeepsValid(t: Tables, w: Write)
    requires Valid(t)
    ensures Valid(Apply(t, w))
    ensures Apply(t, w).generation
            == if Apply(t, w).records != t.records then SatAdd64(t.generation, 1) else t.generation
    ensures forall o :: o in t.highest ==> o in Apply(t, w).highest && t.highest[o] <= Apply(t, w).highest[o]
  {
    match w
    case Insert(rows, m) =>
      if InsertBatch(t, rows, m).Ok? {
        InsertBatchIsExact(t, rows, m);
        InsertBatchCounts(t, rows, m);
      }
    case Remove(hash, refused) =>
      if hash.Some? && !refused && exists id :: id in t.records && t.records[id].blake3 == hash.value {
        var id :| id in t.records && t.records[id].blake3 == hash.value;
        assert id !in Apply(t, w).records;
      }
    case Cleanup(now, failure) => CleanupStamps(t, now, failure);
  }

  lemma SweepStamps(t: Tables, now: int)
    ensures var t1 := Sweep(t, now);
            && t1.highest == t.highest && t1.daily == t.daily
            && t1.records == t.records - Expired(t.records, now)
            && |Expired(t.records, now)| == |t.records| - |t1.records|
            && t1.generation == if t1.records != t.records then SatAdd64(t.generation, 1) else t.generation
  {
    var expired := Expired(t.records, now);
    RemovalCounts(t.records, expired);
    if |expired| == 0 {
      assert expired == {} && t.records - expired == t.records;
    }
  }

  lemma RemovalCounts(records: Records, gone: set<RecordId>)
    requires gone <= records.Keys
    ensures |gone| == |records| - |records - gone|
  {
    assert (records - gone).Keys == records.Keys - gone;
    assert |records| == |records.Keys| && |records - gone| == |(records - gone).Keys|;
  }

  /** A cleanup deletes exactly the expired rows unless its transaction fails, and then nothing; it answers with
      their number unless something fails, also after the deletion is committed. */
  lemma CleanupStamps(t: Tables, now: int, failure: Failure)
    requires Valid(t)
    ensures var (t1, removed) := CleanupExpired(t, now, failure);
            && Valid(t1) && t1.highest == t.highest
            && (removed.Ok? <==> failure.Nowhere?)
            && (removed.Ok? ==> removed.value == |t.records| - |t1.records|)
            && (failure.InTransaction? ==> t1 == t)
            && (!failure.InTransaction? ==>
                  forall id :: id in t1.records <==> id in t.records && t.records[id].expiresAt > now)
            && t1.generation == if t1.records != t.records then SatAdd64(t.generation, 1) else t.generation
  {
    SweepStamps(t, now);
  }

  lemma {:induction false} RunKeepsValid(t: Tables, ws: seq<Write>)
    requires Valid(t)
    ensures Valid(Run(t, ws))
    ensures forall o :: o in t.highest ==> o in Run(t, ws).highest && t.highest[o] <= Run(t, ws).highest[o]
    decreases |ws|
  {
    if ws != [] {
      WriteKeepsValid(t, ws[0]);
      RunKeepsValid(Apply(t, ws[0]), ws[1..]);
    }
  }

  lemma {:induction false} RunSplits(t: Tables, ws: seq<Write>, k: nat)
    requires k <= |ws|
    ensures Run(t, ws) == Run(Run(t, ws[..k]), ws[k..])
    decreases k
  {
    if k == 0 {
      assert ws[..0] == [] && ws[0..] == ws;
    } else {
      assert ws[..k][1..] == ws[1..][..k - 1] && ws[1..][k - 1..] == ws[k..];
      RunSplits(Apply(t, ws[0]), ws[1..], k - 1);
    }
  }

  /** The high mark of an origin is at least every sequence ever stored for it, whatever was deleted since. */
  lemma HighestCoversHistory(ws: seq<Write>, k: nat, id: RecordId)
    requires k <= |ws| && id in Run(EMPTY, ws[..k]).records
    ensures var r := Run(EMPTY, ws[..k]).records[id];
            r.origin in Run(EMPTY, ws).highest && r.sequence <= Run(EMPTY, ws).highest[r.origin]
  {
    RunKeepsValid(EMPTY, ws[..k]);
    RunKeepsValid(Run(EMPTY, ws[..k]), ws[k..]);
    RunSplits(EMPTY, ws, k);
  }

  /** Some row of the origin has the sequence. */
  ghost predicate HasRow(records: Records, o: Origin, sequence: U64) {
    exists id :: id in records && records[id].origin == o && records[id].sequence == sequence
  }

  ghost predicate MarkStaysOrIsStored(t: Tables, t1: Tables, o: Origin) {
    o in t1.highest ==> (o in t.highest && t1.highest[o] == t.highest[o]) || HasRow(t1.records, o, t1.highest[o])
  }

  lemma OneRowMark(t: Tables, r: Record, o: Origin)
    requires InsertOne(t, r).Ok?
    ensures MarkStaysOrIsStored(t, InsertOne(t, r).value.0, o)
    ensures forall id :: id in t.records ==>
              id in InsertOne(t, r).value.0.records && InsertOne(t, r).value.0.records[id] == t.records[id]
  {
    var (t1, inserted) := InsertOne(t, r).value;
    if inserted && r.origin == o {
      assert t1.records[r.id].origin == o;
    }
  }

  lemma {:induction false} RowsMark(t: Tables, rows: seq<Record>, m: Machine, o: Origin)
    requires InsertRows(t, rows, m).Ok?
    ensures MarkStaysOrIsStored(t, InsertRows(t, rows, m).value.0, o)
  {
    if rows != [] {
      var last := |rows| - 1;
      RowsMark(t, rows[..last], m, o);
      var t0 := InsertRows(t, rows[..last], m).value.0;
      OneRowMark(t0, rows[last], o);
      RowStays(t0, InsertRows(t, rows, m).value.0, o);
    }
  }

  lemma RowStays(t: Tables, t1: Tables, o: Origin)
    requires forall id :: id in t.records ==> id in t1.records && t1.records[id] == t.records[id]
    ensures o in t.highest && HasRow(t.records, o, t.highest[o]) ==> HasRow(t1.records, o, t.highest[o])
  {
    if o in t.highest && HasRow(t.records, o, t.highest[o]) {
      var id :| id in t.records && t.records[id].origin == o && t.records[id].sequence == t.highest[o];
      assert t1.records[id].origin == o;
    }
  }

  lemma WriteMark(t: Tables, w: Write, o: Origin)
    ensures MarkStaysOrIsStored(t, Apply(t, w), o)
  {
    match w
    case Insert(rows, m) =>
      if InsertBatch(t, rows, m).Ok? {
        RowsMark(t, FirstRows(rows), m, o);
        BatchUnfolds(t, rows, m);
      }
    case Remove(_, _) =>
    case Cleanup(_, _) =>
  }

  /** The high mark of an origin is the sequence of a row that was once stored for it, and so, with
      HighestCoversHistory, the greatest ever stored. */
  lemma {:induction false} HighestWasStored(ws: seq<Write>, o: Origin) returns (k: nat)
    requires o in Run(EMPTY, ws).highest
    ensures k <= |ws| && HasRow(Run(EMPTY, ws[..k]).records, o, Run(EMPTY, ws).highest[o])
    decreases |ws|
  {
    k := |ws|;
    assert ws[..k] == ws;
    if ws != [] {
      var front := ws[..|ws| - 1];
      RunSplits(EMPTY, ws, |ws| - 1);
      assert ws[|ws| - 1..] == [ws[|ws| - 1]] && [ws[|ws| - 1]][1..] == [];
      WriteMark(Run(EMPTY, front), ws[|ws| - 1], o);
      if !HasRow(Run(EMPTY, ws).records, o, Run(EMPTY, ws).highest[o]) {
        k := HighestWasStored(front, o);
        assert front[..k] == ws[..k];
      }
    }
  }

  // ----- Removal and retention -----

  /** A removal takes exactly the rows with the hash, and says whether there was one; a malformed hash or a refused
      statement takes none. Marks and daily counts stay. */
  lemma RemovalIsExact(t: Tables, hash: Option<Hash>, refused: bool)
    ensures var t1 := Apply(t, Remove(hash, refused));
            && (forall id :: id in t1.records <==>
                  id in t.records && (refused || hash.None? || t.records[id].blake3 != hash.value))
            && (forall id :: id in t1.records ==> t1.records[id] == t.records[id])
            && t1.highest == t.highest && t1.daily == t.daily
    ensures var r := RemoveBlake3(t, hash, refused);
            && (r.Ok? <==> hash.Some? && !refused)
            && (r.Ok? ==> (r.value.1 <==> exists id :: id in t.records && t.records[id].blake3 == hash.value))
  {
  }

  /** A cleanup that succeeds keeps exactly the daily counts of its day, the 31 days before it, and any after. */
  lemma RetentionIsExact(t: Tables, now: int, day: int)
    ensures var t1 := Apply(t, Cleanup(now, Nowhere));
            && (day in t1.daily <==> day in t.daily && day + 31 >= now / 86_400_000)
            && (day in t1.daily ==> t1.daily[day] == t.daily[day])
  {
  }

  // ----- The generation as a version stamp -----

  /** The writes of a run that changed the record table. */
  function Changes(t: Tables, ws: seq<Write>): nat
    decreases |ws|
  {
    if ws == [] then 0
    else Change(t, Apply(t, ws[0])) + Changes(Apply(t, ws[0]), ws[1..])
  }

  function Change(t: Tables, t1: Tables): nat { if t1.records != t.records then 1 else 0 }

  /** Every write of the run stamps as it should. */
  ghost predicate Stamps(t: Tables, ws: seq<Write>)
    decreases |ws|
  {
    ws == [] || (Stamped(t, Apply(t, ws[0])) && Stamps(Apply(t, ws[0]), ws[1..]))
  }

  ghost predicate Stamped(t: Tables, t1: Tables) {
    t1.generation == if t1.records != t.records then SatAdd64(t.generation, 1) else t.generation
  }

  lemma {:induction false} ValidStamps(t: Tables, ws: seq<Write>)
    requires Valid(t)
    ensures Stamps(t, ws)
    decreases |ws|
  {
    if ws != [] {
      WriteKeepsValid(t, ws[0]);
      ValidStamps(Apply(t, ws[0]), ws[1..]);
    }
  }

  lemma {:induction false} StampsCount(t: Tables, ws: seq<Write>)
    requires Stamps(t, ws)
    ensures Run(t, ws).generation == Min(t.generation + Changes(t, ws), U64_MAX)
    decreases |ws|
  {
    if ws != [] {
      var t1 := Apply(t, ws[0]);
      StampsCount(t1, ws[1..]);
      StampedAdds(t, t1, Changes(t1, ws[1..]));
    }
  }

  lemma StampedAdds(t: Tables, t1: Tables, later: nat)
    requires Stamped(t, t1)
    ensures Min(t1.generation + later, U64_MAX) == Min(t.generation + Change(t, t1) + later, U64_MAX)
  {
  }

  lemma GenerationCountsChanges(t: Tables, ws: seq<Write>)
    requires Valid(t)
    ensures Run(t, ws).generation == Min(t.generation + Changes(t, ws), U64_MAX)
  {
    ValidStamps(t, ws);
    StampsCount(t, ws);
  }

  /** The record table is the same at every moment of the run. */
  ghost predicate SameThroughout(t: Tables, ws: seq<Write>) {
    forall k :: 0 <= k <= |ws| ==> Run(t, ws[..k]).records == t.records
  }

  lemma PrefixRun(t: Tables, ws: seq<Write>, k: nat)
    requires k < |ws|
    ensures Run(t, ws[..k + 1]) == Run(Apply(t, ws[0]), ws[1..][..k])
  {
    assert ws[..k + 1][1..] == ws[1..][..k];
  }

  lemma SameFromTheNext(t: Tables, ws: seq<Write>)
    requires ws != [] && Apply(t, ws[0]).records == t.records
    ensures SameThroughout(t, ws) <==> SameThroughout(Apply(t, ws[0]), ws[1..])
  {
    var t1 := Apply(t, ws[0]);
    if SameThroughout(t, ws) {
      forall k | 0 <= k <= |ws| - 1
        ensures Run(t1, ws[1..][..k]).records == t1.records
      {
        PrefixRun(t, ws, k);
        assert Run(t, ws[..k + 1]).records == t.records;
      }
    }
    if SameThroughout(t1, ws[1..]) {
      forall k | 0 <= k <= |ws|
        ensures Run(t, ws[..k]).records == t.records
      {
        if k > 0 {
          PrefixRun(t, ws, k - 1);
          assert Run(t1, ws[1..][..k - 1]).records == t1.records;
        } else {
          assert ws[..0] == [];
        }
      }
    }
  }

  lemma ChangedAtOnce(t: Tables, ws: seq<Write>)
    requires ws != [] && Apply(t, ws[0]).records != t.records
    ensures !SameThroughout(t, ws)
  {
    PrefixRun(t, ws, 0);
    assert ws[1..][..0] == [];
    assert Run(t, ws[..1]).records != t.records;
  }

  lemma {:induction false} NoChangeMeansUnchanged(t: Tables, ws: seq<Write>)
    ensures Changes(t, ws) == 0 <==> SameThroughout(t, ws)
    decreases |ws|
  {
    if ws == [] {
      assert forall k :: 0 <= k <= |ws| ==> ws[..k] == [];
    } else if Apply(t, ws[0]).records == t.records {
      NoChangeMeansUnchanged(Apply(t, ws[0]), ws[1..]);
      SameFromTheNext(t, ws);
    } else {
      ChangedAtOnce(t, ws);
    }
  }

  /** Below `u64::MAX`, the generation reads the same at two moments exactly when the record table was the
      same at every moment between them. */
  lemma GenerationIsAVersionStamp(t: Tables, ws: seq<Write>)
    requires Valid(t) && Run(t, ws).generation < U64_MAX
    ensures Run(t, ws).generation == t.generation <==> SameThroughout(t, ws)
  {
    GenerationCountsChanges(t, ws);
    NoChangeMeansUnchanged(t, ws);
  }

  lemma InsertSingle(t: Tables, r: Record, m: Machine)
    requires Storable(r) && r.id !in t.records && !KeyTaken(t.records, r.origin, r.sequence)
    requires m.refusedAt == None
    ensures InsertRows(t, [r], m) == Ok((InsertOne(t, r).value.0, [true]))
  {
    var none: seq<bool> := [];
    assert [r][..0] == [] && InsertRows(t, [], m) == Ok((t, none));
    assert none + [true] == [true];
  }

  /** At `u64::MAX` the stamp saturates and no longer tells tables apart. */
  lemma SaturatedGenerationRepeats(r: Record, m: Machine)
    requires r.sequence <= I64_MAX && r.fileSize <= I64_MAX && m.room && m.refusedAt == None
    ensures var t := EMPTY.(generation := U64_MAX);
            var t1 := Apply(t, Insert([r], m));
            Valid(t) && t1.generation == t.generation && t1.records != t.records
  {
    var t := EMPTY.(generation := U64_MAX);
    InsertSingle(t, r, m);
    SmallHasCapacity(t, [r], m);
    assert FirstRows([r]) == [r];
    InsertBatchSucceedsExactly(t, [r], m);
    BatchUnfolds(t, [r], m);
    assert [true][0] in [true];
    assert r.id in Apply(t, Insert([r], m)).records;
  }
}
