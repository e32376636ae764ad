/** The tables of src/storage/migrations.rs and the writes of src/storage/database.rs, on values. */
module Store {
  import opened Wrappers
  import opened Limits
  import opened Bytes

  /** The origin column: bytes that name a peer, or bytes that do not. */
  datatype Origin = Peer(peer: PeerId) | Malformed(raw: nat)

  type Hash = nat

  datatype Record = Record(
    id: RecordId,
    origin: Origin,
    sequence: U64,
    createdAt: int,
    expiresAt: int,
    blake3: Hash,
    fileSize: U64)

  type Records = map<RecordId, Record>

  datatype Tables = Tables(
    records: Records,
    highest: map<Origin, U64>,
    generation: U64,
    daily: map<int, nat>)

  datatype Error = StorageSafety | SequenceRange | FileSizeRange | TooManyRecords | ZeroLimit | InvalidHash | Sqlite

  const EMPTY: Tables := Tables(map[], map[], 0, map[])

  /** What the machine decides about one insertion: the three readings of its clock (counting the active records,
      checking the day, stamping the day), whether file sizes and the disk leave room, and the statement SQLite
      refuses (counting one per row, then the statements that close the transaction). */
  datatype Machine = Machine(countedAt: int, checkedAt: int, storedAt: int, room: bool, refusedAt: Option<nat>)

  // ----- Constraints -----

  predicate KeyTaken(records: Records, origin: Origin, sequence: U64) {
    exists id :: id in records && records[id].origin == origin && records[id].sequence == sequence
  }

  predicate SameKey(a: Record, b: Record) { a.origin == b.origin && a.sequence == b.sequence }

  /** The primary key, the unique index on (origin, sequence), and the range of an INTEGER column. */
  ghost predicate Constrained(records: Records) {
    && (forall id :: id in records ==> records[id].id == id && records[id].sequence <= I64_MAX)
    && (forall a, b :: a in records && b in records && SameKey(records[a], records[b]) ==> a == b)
  }

  /** `highest_sequence` bounds every stored sequence of its origin. */
  ghost predicate HighestCovers(t: Tables) {
    forall id :: id in t.records ==>
      t.records[id].origin in t.highest && t.records[id].sequence <= t.highest[t.records[id].origin]
  }

  ghost predicate Valid(t: Tables) {
    Constrained(t.records) && HighestCovers(t)
  }

  // ----- ensure_capacity -----

  predicate Active(records: Records, id: RecordId, now: int) {
    id in records && records[id].expiresAt > now
  }

  function ActiveIds(records: Records, now: int): set<RecordId> {
    set id | id in records && Active(records, id, now)
  }

  /** `i64::div_euclid` by the length of a day. */
  function DayOf(now: int): int { now / DAY_MS }

  function NewOn(t: Tables, day: int): nat { if day in t.daily then t.daily[day] else 0 }

  /** `ensure_capacity` on a database in a file: it counts a batch by its length, whatever will be written. */
  predicate HasCapacity(t: Tables, rows: seq<Record>, m: Machine) {
    var projected := Min(|rows|, INSERT_BATCH_CAP);
    && |ActiveIds(t.records, m.countedAt)| + projected <= MAX_ACTIVE_RECORDS
    && m.room
    && NewOn(t, DayOf(m.checkedAt)) + projected <= MAX_DAILY_NEW_RECORDS
  }

  // ----- insert_one and insert_batch -----

  function InsertOne(t: Tables, r: Record): Result<(Tables, bool), Error> {
    if r.sequence > I64_MAX then Err(SequenceRange)
    else if r.fileSize > I64_MAX then Err(FileSizeRange)
    else if r.id in t.records || KeyTaken(t.records, r.origin, r.sequence) then Ok((t, false))
    else
      var top: U64 := if r.origin in t.highest then Max(t.highest[r.origin], r.sequence) else r.sequence;
      Ok((t.(records := t.records[r.id := r], highest := t.highest[r.origin := top]), true))
  }

  function Refuses(m: Machine, statement: nat): bool { m.refusedAt == Some(statement) }

  /** The rows of a batch, one after the other, inside the transaction. */
  function InsertRows(t: Tables, rows: seq<Record>, m: Machine): (r: Result<(Tables, seq<bool>), Error>)
    ensures r.Ok? ==> |r.value.1| == |rows|
  {
    if rows == [] then Ok((t, []))
    else
      var last := |rows| - 1;
      match InsertRows(t, rows[..last], m)
      case Err(e) => Err(e)
      case Ok((t1, results)) =>
        if Refuses(m, last) then Err(Sqlite)
        else match InsertOne(t1, rows[last])
          case Err(e) => Err(e)
          case Ok((t2, inserted)) => Ok((t2, results + [inserted]))
  }

  function Count(flags: seq<bool>): nat {
    if flags == [] then 0 else Count(flags[..|flags| - 1]) + if flags[|flags| - 1] then 1 else 0
  }

  function Stamp(t: Tables): Tables { t.(generation := SatAdd64(t.generation, 1)) }

  function CountToday(t: Tables, day: int, inserted: nat): Tables {
    t.(daily := t.daily[day := NewOn(t, day) + inserted])
  }

  function InsertBatch(t: Tables, rows: seq<Record>, m: Machine): Result<(Tables, seq<bool>), Error> {
    if !HasCapacity(t, rows, m) then Err(StorageSafety)
    else
      var first := rows[..Min(|rows|, INSERT_BATCH_CAP)];
      match InsertRows(t, first, m)
      case Err(e) => Err(e)
      case Ok((t1, results)) =>
        if m.refusedAt.Some? && m.refusedAt.value >= |first| then Err(Sqlite)
        else if true in results then Ok((CountToday(Stamp(t1), DayOf(m.storedAt), Count(results)), results))
        else Ok((t1, results))
  }

  // ----- remove_blake3 and cleanup_expired -----

  /** `refused`: SQLite refuses a statement of the transaction. */
  function RemoveBlake3(t: Tables, hash: Option<Hash>, refused: bool): Result<(Tables, bool), Error> {
    match hash
    case None => Err(InvalidHash)
    case Some(h) =>
      if refused then Err(Sqlite)
      else if exists id :: id in t.records && t.records[id].blake3 == h then
        Ok((Stamp(t.(records := map id | id in t.records && t.records[id].blake3 != h :: t.records[id])), true))
      else Ok((t, false))
  }

  /** Where a cleanup fails: the transaction of its deletion, or what it does after committing that. */
  datatype Failure = Nowhere | InTransaction | AfterCommit

  function Expired(records: Records, now: int): set<RecordId> {
    set id | id in records && records[id].expiresAt <= now
  }

  function Sweep(t: Tables, now: int): Tables {
    if |Expired(t.records, now)| > 0 then Stamp(t.(records := t.records - Expired(t.records, now))) else t
  }

  /** A cleanup that fails after its commit keeps the deletion and answers with the error. */
  function CleanupExpired(t: Tables, now: int, failure: Failure): (Tables, Result<nat, Error>) {
    if failure.InTransaction? then (t, Err(Sqlite))
    else
      var swept := Sweep(t, now);
      if failure.AfterCommit? then (swept, Err(Sqlite))
      else (swept.(daily := map d | d in t.daily && d >= DayOf(now) - 31 :: t.daily[d]),
            Ok(|Expired(t.records, now)|))
  }

  // ----- Runs -----

  /** Every write the engine issues, with what the machine does to it. */
  datatype Write =
    | Insert(rows: seq<Record>, machine: Machine)
    | Remove(hash: Option<Hash>, refused: bool)
    | Cleanup(now: int, failure: Failure)

  function Apply(t: Tables, w: Write): Tables {
    match w
    case Insert(rows, m) => (match InsertBatch(t, rows, m) case Ok((t1, _)) => t1 case Err(_) => t)
    case Remove(hash, refused) => (match RemoveBlake3(t, hash, refused) case Ok((t1, _)) => t1 case Err(_) => t)
    case Cleanup(now, failure) => CleanupExpired(t, now, failure).0
  }

  function Run(t: Tables, ws: seq<Write>): Tables
    decreases |ws|
  {
    if ws == [] then t else Run(Apply(t, ws[0]), ws[1..])
  }

  // ----- What one row does -----

  lemma InsertOneIsExact(t: Tables, r: Record)
    requires Valid(t)
    ensures InsertOne(t, r).Err? <==> r.sequence > I64_MAX || r.fileSize > I64_MAX
    ensures InsertOne(t, r).Ok? ==>
              var (t1, inserted) := InsertOne(t, r).value;
              && Valid(t1)
              && (inserted <==> r.id !in t.records && !KeyTaken(t.records, r.origin, r.sequence))
              && t1.records == (if inserted then t.records[r.id := r] else t.records)
              && t1.generation == t.generation && t1.daily == t.daily
              && (forall o :: o in t.highest ==> o in t1.highest && t.highest[o] <= t1.highest[o])
  {
    if InsertOne(t, r).Ok? && InsertOne(t, r).value.1 {
      var t1 := InsertOne(t, r).value.0;
      forall a, b | a in t1.records && b in t1.records && SameKey(t1.records[a], t1.records[b])
        ensures a == b
      {
      }
    }
  }

  /** Two records that cannot both be rows. */
  predicate Clash(a: Record, b: Record) {
    a.id == b.id || SameKey(a, b)
  }

  predicate Blocked(records: Records, r: Record) {
    r.id in records || KeyTaken(records, r.origin, r.sequence)
  }

  /** The rows added by the prefix `rows[..n]` with these results. */
  ghost predicate Added(before: Records, after: Records, rows: seq<Record>, results: seq<bool>)
    requires |results| == |rows|
  {
    && (forall id :: id in before ==> id in after && after[id] == before[id])
    && (forall i :: 0 <= i < |rows| && results[i] ==> rows[i].id in after && after[rows[i].id] == rows[i])
    && (forall id :: id in after && id !in before ==> exists i :: 0 <= i < |rows| && results[i] && rows[i].id == id)
  }

  /** The flags a batch answers with: row `i` is written exactly when it clashes neither with a row already in
      the table nor with an earlier row of the batch that was written. */
  ghost predicate ExactFlags(before: Records, rows: seq<Record>, results: seq<bool>)
    requires |results| == |rows|
  {
    forall i :: 0 <= i < |rows| ==> ExactFlag(before, rows, results, i)
  }

  lemma BlockedAfter(before: Records, after: Records, rows: seq<Record>, results: seq<bool>, r: Record)
    requires |results| == |rows| && Added(before, after, rows, results)
    ensures Blocked(after, r) <==>
              Blocked(before, r) || ClashesWithWritten(rows, results, |rows|, r)
  {
    if KeyTaken(after, r.origin, r.sequence) {
      var id :| id in after && after[id].origin == r.origin && after[id].sequence == r.sequence;
      if id in before {
        assert KeyTaken(before, r.origin, r.sequence);
      } else {
        var i :| 0 <= i < |rows| && results[i] && rows[i].id == id;
        assert Clash(rows[i], r);
      }
    }
    if KeyTaken(before, r.origin, r.sequence) {
      var id :| id in before && before[id].origin == r.origin && before[id].sequence == r.sequence;
      assert after[id] == before[id];
    }
    if r.id in after && r.id !in before {
      var i :| 0 <= i < |rows| && results[i] && rows[i].id == r.id;
      assert Clash(rows[i], r);
    }
    if ClashesWithWritten(rows, results, |rows|, r) {
      var j :| 0 <= j < |rows| && results[j] && Clash(rows[j], r);
      assert rows[j].id in after && after[rows[j].id] == rows[j];
    }
  }

  lemma {:induction false} InsertRowsIsExact(t: Tables, rows: seq<Record>, m: Machine)
    requires Valid(t) && InsertRows(t, rows, m).Ok?
    ensures var (t1, results) := InsertRows(t, rows, m).value;
            && Valid(t1) && |results| == |rows|
            && Added(t.records, t1.records, rows, results)
            && ExactFlags(t.records, rows, results)
            && t1.generation == t.generation && t1.daily == t.daily
            && (forall o :: o in t.highest ==> o in t1.highest && t.highest[o] <= t1.highest[o])
  {
    if rows != [] {
      var last := |rows| - 1;
      var prefix := rows[..last];
      InsertRowsIsExact(t, prefix, m);
      var (t0, flags) := InsertRows(t, prefix, m).value;
      InsertOneIsExact(t0, rows[last]);
      BlockedAfter(t.records, t0.records, prefix, flags, rows[last]);
      var (t1, results) := InsertRows(t, rows, m).value;
      ExtendExact(t.records, t0.records, t1.records, rows, results);
    }
  }

  lemma ExtendExact(before: Records, mid: Records, after: Records, rows: seq<Record>, results: seq<bool>)
    requires |results| == |rows| > 0
    requires var last := |rows| - 1;
             && Added(before, mid, rows[..last], results[..last])
             && ExactFlags(before, rows[..last], results[..last])
             && (results[last] <==> !Blocked(mid, rows[last]))
             && after == (if results[last] then mid[rows[last].id := rows[last]] else mid)
    ensures Added(before, after, rows, results) && ExactFlags(before, rows, results)
  {
    ExtendAdded(before, mid, after, rows, results);
    ExtendFlags(before, mid, rows, results);
  }

  /** The exact answer of row `i`, given the answers of the rows before it. */
  ghost predicate ExactFlag(before: Records, rows: seq<Record>, results: seq<bool>, i: nat)
    requires |results| == |rows| && i < |rows|
  {
    results[i] <==> !Blocked(before, rows[i]) && !ClashesWithWritten(rows, results, i, rows[i])
  }

  ghost predicate ClashesWithWritten(rows: seq<Record>, results: seq<bool>, n: nat, r: Record)
    requires |results| == |rows| && n <= |rows|
  {
    exists j :: 0 <= j < n && results[j] && Clash(rows[j], r)
  }

  lemma ExtendFlags(before: Records, mid: Records, rows: seq<Record>, results: seq<bool>)
    requires |results| == |rows| > 0
    requires var last := |rows| - 1;
             && Added(before, mid, rows[..last], results[..last])
             && ExactFlags(before, rows[..last], results[..last])
             && (results[last] <==> !Blocked(mid, rows[last]))
    ensures ExactFlags(before, rows, results)
  {
    var last := |rows| - 1;
    BlockedAfter(before, mid, rows[..last], results[..last], rows[last]);
    PrefixClash(rows, results, last, last, rows[last]);
    forall i | 0 <= i < |rows|
      ensures ExactFlag(before, rows, results, i)
    {
      if i < last {
        assert ExactFlag(before, rows[..last], results[..last], i);
        PrefixClash(rows, results, last, i, rows[i]);
      }
    }
  }

  lemma PrefixClash(rows: seq<Record>, results: seq<bool>, k: nat, n: nat, r: Record)
    requires |results| == |rows| && n <= k <= |rows|
    ensures ClashesWithWritten(rows[..k], results[..k], n, r) <==> ClashesWithWritten(rows, results, n, r)
  {
    if ClashesWithWritten(rows, results, n, r) {
      var j :| 0 <= j < n && results[j] && Clash(rows[j], r);
      assert results[..k][j] && Clash(rows[..k][j], r);
    }
  }

  lemma ExtendAdded(before: Records, mid: Records, after: Records, rows: seq<Record>, results: seq<bool>)
    requires |results| == |rows| > 0
    requires var last := |rows| - 1;
             && Added(before, mid, rows[..last], results[..last])
             && (results[last] <==> !Blocked(mid, rows[last]))
             && after == (if results[last] then mid[rows[last].id := rows[last]] else mid)
    ensures Added(before, after, rows, results)
  {
    var last := |rows| - 1;
    forall id | id in after && id !in before
      ensures exists i :: 0 <= i < |rows| && results[i] && rows[i].id == id
    {
      if id in mid {
        var i :| 0 <= i < last && results[..last][i] && rows[..last][i].id == id;
        assert results[i] && rows[i].id == id;
      } else {
        assert results[last] && rows[last].id == id;
      }
    }
    forall i | 0 <= i < |rows| && results[i]
      ensures rows[i].id in after && after[rows[i].id] == rows[i]
    {
      if i < last {
        assert results[..last][i] && rows[..last][i].id in mid;
      }
    }
  }
}
