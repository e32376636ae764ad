/** The record store of src/storage/database.rs in its own form: an object over the tables, whose methods are
    proved against the values of Store and Queries. */
module Database {
  import opened Wrappers
  import opened Limits
  import opened Bytes
  import opened Store
  import opened Queries
  import InventoryScan
  import Writes

  datatype InventorySummary = InventorySummary(
    generation: U64,
    recordCount: nat,
    oldest: int,
    newest: int,
    buckets: seq<BucketDigest>)

  /** The meaning of an inventory reply. */
  function SummaryOf(h: Hash32, t: Tables, now: int): InventorySummary {
    Summarise(t.generation, Buckets(h, t.records, now))
  }

  function Summarise(generation: U64, buckets: seq<BucketDigest>): InventorySummary {
    InventorySummary(generation, Total(buckets),
                     if buckets == [] then 0 else buckets[0].start,
                     if buckets == [] then 0 else buckets[|buckets| - 1].end,
                     buckets)
  }

  /** The span of an inventory reaches from its first day to the end of its last: every bucket lies in it, and both
      ends belong to one. */
  lemma SummarySpans(h: Hash32, t: Tables, now: int)
    ensures var r := SummaryOf(h, t, now);
            && r.generation == t.generation && r.buckets == Buckets(h, t.records, now)
            && (r.buckets == [] ==> r.oldest == 0 == r.newest && r.recordCount == 0)
            && (forall b :: b in r.buckets ==> r.oldest <= b.start < b.end <= r.newest)
            && (r.buckets != [] ==> exists b :: b in r.buckets && b.start == r.oldest)
            && (r.buckets != [] ==> exists b :: b in r.buckets && b.end == r.newest)
  {
    var (buckets, days) := (Buckets(h, t.records, now), SortedDays(t.records, now));
    forall k | 0 <= k < |buckets|
      ensures buckets[0].start <= buckets[k].start < buckets[k].end <= buckets[|buckets| - 1].end
    {
      assert k > 0 ==> IntLess(days[0], days[k]);
      assert k < |buckets| - 1 ==> IntLess(days[k], days[|buckets| - 1]);
      assert buckets[k].start == days[k];
    }
    if buckets != [] {
      assert buckets[0] in buckets && buckets[|buckets| - 1] in buckets;
    }
  }

  lemma InItsDay(createdAt: int)
    requires createdAt >= 0
    ensures BucketOf(createdAt) <= createdAt < BucketOf(createdAt) + DAY_MS
  {
  }

  /** With at most 366 days, every active record created since 1970 lies in the span. */
  lemma SpanHoldsRecords(h: Hash32, t: Tables, now: int, id: RecordId)
    requires Active(t.records, id, now) && t.records[id].createdAt >= 0 && |Days(t.records, now)| <= MAX_BUCKETS
    ensures var r := SummaryOf(h, t, now); r.oldest <= t.records[id].createdAt < r.newest
  {
    var (buckets, days) := (Buckets(h, t.records, now), SortedDays(t.records, now));
    var day := BucketOf(t.records[id].createdAt);
    assert day in Days(t.records, now) && day in days;
    var k :| 0 <= k < |days| && days[k] == day;
    InItsDay(t.records[id].createdAt);
    SummarySpans(h, t, now);
    assert buckets[k].start == day && buckets[k].end == day + DAY_MS && buckets[k] in buckets;
  }

  class SignatureDatabase {
    /** The committed tables. */
    var tables: Tables

    ghost predicate Valid()
      reads this
    {
      Store.Valid(tables)
    }

    constructor ()
      ensures Valid() && tables == EMPTY
    {
      tables := EMPTY;
    }

    /** The rows of a batch, inside the transaction; nothing is committed here. */
    method WriteRows(rows: seq<Record>, m: Machine)
        returns (r: Result<(Tables, seq<bool>), Error>, changed: bool, insertedCount: nat)
      ensures r == InsertRows(tables, rows, m)
      ensures r.Ok? ==> (changed <==> true in r.value.1) && insertedCount == Count(r.value.1)
    {
      var tx := tables;
      var results: seq<bool> := [];
      changed, insertedCount := false, 0;
      for i := 0 to |rows|
        invariant InsertRows(tables, rows[..i], m) == Ok((tx, results))
        invariant changed <==> true in results
        invariant insertedCount == Count(results)
      {
        NextRow(tables, rows, i, m);
        RowsFail(tables, rows, i + 1, m);
        if Refuses(m, i) {
          return Err(Sqlite), false, 0;
        }
        var step := InsertOne(tx, rows[i]);
        if step.Err? {
          return Err(step.error), false, 0;
        }
        var (tx', inserted) := step.value;
        assert (results + [inserted])[..|results|] == results;
        tx := tx';
        changed := changed || inserted;
        insertedCount := insertedCount + if inserted then 1 else 0;
        results := results + [inserted];
      }
      assert rows[..|rows|] == rows;
      r := Ok((tx, results));
    }

    method InsertBatch(rows: seq<Record>, m: Machine) returns (r: Result<seq<bool>, Error>)
      requires Valid()
      modifies this
      ensures Valid()
      ensures r.Err? ==> tables == old(tables) && Store.InsertBatch(old(tables), rows, m) == Err(r.error)
      ensures r.Ok? ==> Store.InsertBatch(old(tables), rows, m) == Ok((tables, r.value))
    {
      if !HasCapacity(tables, rows, m) {
        return Err(StorageSafety);
      }
      Writes.WriteKeepsValid(tables, Insert(rows, m));
      var n := Min(|rows|, INSERT_BATCH_CAP);
      var written, changed, insertedCount := WriteRows(rows[..n], m);
      if written.Err? {
        return Err(written.error);
      }
      if m.refusedAt.Some? && m.refusedAt.value >= n {
        return Err(Sqlite);
      }
      var (tx, results) := written.value;
      if changed {
        tx := CountToday(Stamp(tx), DayOf(m.storedAt), insertedCount);
      }
      tables := tx;
      r := Ok(results);
    }

    method RemoveBlake3(hash: Option<Hash>, refused: bool) returns (r: Result<bool, Error>)
      requires Valid()
      modifies this
      ensures Valid()
      ensures r.Err? ==> tables == old(tables) && Store.RemoveBlake3(old(tables), hash, refused) == Err(r.error)
      ensures r.Ok? ==> Store.RemoveBlake3(old(tables), hash, refused) == Ok((tables, r.value))
    {
      Writes.WriteKeepsValid(tables, Remove(hash, refused));
      if hash == None {
        return Err(InvalidHash);
      }
      if refused {
        return Err(Sqlite);
      }
      var kept := map id | id in tables.records && tables.records[id].blake3 != hash.value :: tables.records[id];
      var changed := exists id :: id in tables.records && tables.records[id].blake3 == hash.value;
      if changed {
        tables := Stamp(tables.(records := kept));
      }
      r := Ok(changed);
    }

    /** The deletion is committed before the daily counts are pruned, so a late failure leaves it in place. */
    method CleanupExpired(now: int, failure: Failure) returns (removed: Result<nat, Error>)
      requires Valid()
      modifies this
      ensures Valid()
      ensures (tables, removed) == Store.CleanupExpired(old(tables), now, failure)
      ensures removed.Ok? ==> removed.value == |old(tables.records)| - |tables.records|
      ensures !failure.InTransaction? ==>
                forall id :: id in tables.records <==>
                  id in old(tables.records) && old(tables.records)[id].expiresAt > now
    {
      Writes.CleanupStamps(tables, now, failure);
      if failure.InTransaction? {
        return Err(Sqlite);
      }
      var expired := Expired(tables.records, now);
      if |expired| > 0 {
        tables := Stamp(tables.(records := tables.records - expired));
      }
      if failure.AfterCommit? {
        return Err(Sqlite);
      }
      var recent := map d | d in tables.daily && d >= DayOf(now) - 31 :: tables.daily[d];
      tables := tables.(daily := recent);
      return Ok(|expired|);
    }

    method Inventory(h: Hash32, now: int) returns (r: InventorySummary)
      ensures r == SummaryOf(h, tables, now)
    {
      var buckets := InventoryScan.GroupRows(h, SortedRows(tables.records, now));
      InventoryScan.ScanIsInventory(h, tables.records, now);
      r := InventorySummary(tables.generation, Total(buckets),
                            if buckets == [] then 0 else buckets[0].start,
                            if buckets == [] then 0 else buckets[|buckets| - 1].end,
                            buckets);
    }

    method RecordIds(start: int, cursor: Option<RecordId>, limit: nat, now: int) returns (r: Result<Page, Error>)
      ensures r == Queries.RecordIds(tables.records, start, cursor, limit, now)
    {
      var capped := Min(limit, MAX_IDS_PER_RESPONSE);
      if capped == 0 {
        return Err(ZeroLimit);
      }
      var selected := SortedIds(Beyond(RangeIds(tables.records, now, start), From(cursor)));
      var all := selected[..Min(|selected|, capped + 1)];
      var next: Option<RecordId> := None;
      if |all| > capped {
        assert all[..capped] == selected[..capped];
        all := all[..capped];
        next := Some(all[|all| - 1]);
      } else {
        assert all == selected;
      }
      assert Page(all, next) == PageOf(selected, capped);
      r := Ok(Page(all, next));
    }

    method RecordsByIds(ids: seq<RecordId>, now: int) returns (r: Result<seq<Record>, Error>)
      ensures r == Queries.RecordsByIds(tables.records, ids, now)
    {
      if |ids| > MAX_REQUESTED_RECORDS {
        return Err(TooManyRecords);
      }
      var result: seq<Record> := [];
      for i := 0 to Min(|ids|, MAX_RECORDS_PER_RESPONSE)
        invariant result == Present(tables.records, ids[..i], now)
      {
        assert ids[..i + 1][..i] == ids[..i];
        if Active(tables.records, ids[i], now) {
          result := result + [tables.records[ids[i]]];
        }
      }
      assert ids[..|ids|] == ids;
      r := Ok(result);
    }
  }

  /** One more row of a batch. */
  lemma NextRow(t: Tables, rows: seq<Record>, i: nat, m: Machine)
    requires i < |rows| && InsertRows(t, rows[..i], m).Ok?
    ensures InsertRows(t, rows[..i + 1], m) ==
            var (tx, results) := InsertRows(t, rows[..i], m).value;
            if Refuses(m, i) then Err(Sqlite)
            else match InsertOne(tx, rows[i])
              case Err(e) => Err(e)
              case Ok((tx', inserted)) => Ok((tx', results + [inserted]))
  {
    assert rows[..i + 1][..i] == rows[..i];
  }

  /** Once a row fails, so does every longer batch. */
  lemma {:induction false} RowsFail(t: Tables, rows: seq<Record>, k: nat, m: Machine)
    requires k <= |rows|
    ensures InsertRows(t, rows[..k], m).Err? ==> InsertRows(t, rows, m) == InsertRows(t, rows[..k], m)
    decreases |rows| - k
  {
    if k < |rows| {
      assert rows[..k + 1][..k] == rows[..k];
      RowsFail(t, rows, k + 1, m);
    } else {
      assert rows[..k] == rows;
    }
  }
}
