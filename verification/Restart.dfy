/** Restart safety: what the replay filter refuses once it has been seeded from the database. */
module Restart {
  import opened Wrappers
  import Sets
  import opened Limits
  import opened Bytes
  import Store
  import Writes
  import Capacity
  import Lru
  import Replay
  import ReplayEngine
  import ReplayRuns

  // ----- The three start-up queries -----

  /** The rows a query with a LIMIT and no ORDER BY answers with: some of the matching rows, each once, all
      of them when they fit. */
  ghost predicate Selects<T>(rows: seq<T>, matching: set<T>, limit: nat) {
    && (forall i, j :: 0 <= i < j < |rows| ==> rows[i] != rows[j])
    && (forall x :: x in rows ==> x in matching)
    && |rows| == Min(|matching|, limit)
  }

  /** `origin_highest_sequences`: rows whose origin does not name a peer are skipped. */
  function HighestOf(highest: map<Store.Origin, U64>, rows: seq<Store.Origin>): seq<(PeerId, U64)>
    requires forall o :: o in rows ==> o in highest
  {
    if rows == [] then []
    else
      var last := rows[|rows| - 1];
      HighestOf(highest, rows[..|rows| - 1]) + if last.Peer? then [(last.peer, highest[last])] else []
  }

  /** `recent_replay_seeds`, on the rows its query selects. */
  function SeedsOf(records: Store.Records, rows: seq<RecordId>): seq<(RecordId, PeerId, U64)>
    requires forall id :: id in rows ==> id in records
  {
    if rows == [] then []
    else
      var r := records[rows[|rows| - 1]];
      SeedsOf(records, rows[..|rows| - 1]) +
      if r.origin.Peer? then [(rows[|rows| - 1], r.origin.peer, r.sequence)] else []
  }

  method OriginHighestSequences(highest: map<Store.Origin, U64>, rows: seq<Store.Origin>)
      returns (values: seq<(PeerId, U64)>)
    requires forall o :: o in rows ==> o in highest
    ensures values == HighestOf(highest, rows)
  {
    values := [];
    for n := 0 to |rows|
      invariant values == HighestOf(highest, rows[..n])
    {
      assert rows[..n + 1][..n] == rows[..n];
      match rows[n]
      case Peer(peer) => values := values + [(peer, highest[rows[n]])];
      case Malformed(_) =>
    }
    assert rows[..|rows|] == rows;
  }

  method RecentReplaySeeds(records: Store.Records, rows: seq<RecordId>)
      returns (seeds: seq<(RecordId, PeerId, U64)>)
    requires forall id :: id in rows ==> id in records
    ensures seeds == SeedsOf(records, rows)
  {
    seeds := [];
    for n := 0 to |rows|
      invariant seeds == SeedsOf(records, rows[..n])
    {
      assert rows[..n + 1][..n] == rows[..n];
      var record := records[rows[n]];
      match record.origin
      case Peer(peer) => seeds := seeds + [(rows[n], peer, record.sequence)];
      case Malformed(_) =>
    }
    assert rows[..|rows|] == rows;
  }

  // ----- Seeding the filter -----

  /** What the three queries selected. */
  datatype Selection = Selection(origins: seq<Store.Origin>, active: seq<RecordId>, recent: seq<RecordId>)

  ghost predicate Answers(t: Store.Tables, sel: Selection, now: int) {
    && Selects(sel.origins, t.highest.Keys, MAX_ACTIVE_RECORDS)
    && Selects(sel.active, Store.ActiveIds(t.records, now), MAX_ACTIVE_RECORDS)
    && Selects(sel.recent, Store.ActiveIds(t.records, now), RECENT_RECORD_CAPACITY)
    && NewestFirst(t.records, sel.recent, Store.ActiveIds(t.records, now))
  }

  /** `ORDER BY created_at DESC`: later rows, and rows past the limit, are not newer. */
  ghost predicate NewestFirst(records: Store.Records, rows: seq<RecordId>, matching: set<RecordId>) {
    && (forall id :: id in rows || id in matching ==> id in records)
    && (forall i, j :: 0 <= i < j < |rows| ==> records[rows[i]].createdAt >= records[rows[j]].createdAt)
    && (forall x, r :: x in matching && x !in rows && r in rows ==> records[r].createdAt >= records[x].createdAt)
  }

  function Accepts(seeds: seq<(RecordId, PeerId, U64)>, now: Instant): seq<Replay.Op> {
    if seeds == [] then []
    else
      var (id, origin, sequence) := seeds[|seeds| - 1];
      Accepts(seeds[..|seeds| - 1], now) + [Replay.Accepted(id, origin, sequence, now)]
  }

  /** The rows come from the tables: all that seeding asks of its queries, failed ones included. */
  predicate Readable(t: Store.Tables, sel: Selection) {
    (forall o :: o in sel.origins ==> o in t.highest) && forall id :: id in sel.recent ==> id in t.records
  }

  /** The filter the engine starts with. */
  function Seeded(t: Store.Tables, sel: Selection, clock: Instant): Replay.State
    requires Readable(t, sel)
  {
    Replay.Default().Load(HighestOf(t.highest, sel.origins), sel.active)
      .Run(Accepts(SeedsOf(t.records, sel.recent), clock))
  }

  /** A query that fails counts as an empty answer. */
  function OrEmpty<T>(rows: Option<seq<T>>): seq<T> {
    match rows
    case Some(found) => found
    case None => []
  }

  method AcceptAll(replay: ReplayEngine.ReplayState, seeds: seq<(RecordId, PeerId, U64)>, clock: Instant)
    requires replay.Valid()
    modifies replay, replay.activeRecords.bits
    ensures replay.Valid() && replay.View() == old(replay.View()).Run(Accepts(seeds, clock))
  {
    ghost var first := replay.View();
    for n := 0 to |seeds|
      invariant replay.Valid()
      invariant replay.View() == first.Run(Accepts(seeds[..n], clock))
    {
      var (id, origin, sequence) := seeds[n];
      AcceptExtends(first, seeds, n, clock);
      replay.Accept(id, origin, sequence, clock);
    }
    assert seeds[..|seeds|] == seeds;
  }

  method SeedReplay(t: Store.Tables, origins: Option<seq<Store.Origin>>, active: Option<seq<RecordId>>,
                    recent: Option<seq<RecordId>>, clock: Instant) returns (replay: ReplayEngine.ReplayState)
    requires Readable(t, Selection(OrEmpty(origins), OrEmpty(active), OrEmpty(recent)))
    ensures replay.Valid()
    ensures replay.View() == Seeded(t, Selection(OrEmpty(origins), OrEmpty(active), OrEmpty(recent)), clock)
  {
    replay := new ReplayEngine.ReplayState.WithLimits(
      RECENT_RECORD_CAPACITY, RECENT_RECORD_TTL, MAX_TRACKED_ORIGINS, SEQUENCE_WINDOW);
    var highest := OriginHighestSequences(t.highest, OrEmpty(origins));
    replay.LoadPersistentState(highest, OrEmpty(active));
    var seeds := RecentReplaySeeds(t.records, OrEmpty(recent));
    AcceptAll(replay, seeds, clock);
  }

  lemma AcceptExtends(s: Replay.State, seeds: seq<(RecordId, PeerId, U64)>, n: nat, clock: Instant)
    requires s.modulus > 0 && n < |seeds|
    ensures var (id, origin, sequence) := seeds[n];
            s.Run(Accepts(seeds[..n], clock)).Accept(id, origin, sequence, clock)
            == s.Run(Accepts(seeds[..n + 1], clock))
  {
    var (id, origin, sequence) := seeds[n];
    assert seeds[..n + 1][..n] == seeds[..n];
    RunExtends(s, Accepts(seeds[..n], clock), Replay.Accepted(id, origin, sequence, clock));
  }

  lemma {:induction false} RunConcat(s: Replay.State, a: seq<Replay.Op>, b: seq<Replay.Op>)
    requires s.modulus > 0
    ensures s.Run(a + b) == s.Run(a).Run(b)
    decreases |a|
  {
    if a == [] {
      assert a + b == b;
    } else {
      assert (a + b)[0] == a[0] && (a + b)[1..] == a[1..] + b;
      RunConcat(s.Apply(a[0]), a[1..], b);
    }
  }

  lemma RunExtends(s: Replay.State, ops: seq<Replay.Op>, op: Replay.Op)
    requires s.modulus > 0
    ensures s.Run(ops + [op]) == s.Run(ops).Apply(op)
  {
    RunConcat(s, ops, [op]);
    assert [op][1..] == [];
    assert s.Run(ops).Run([op]) == s.Run(ops).Apply(op).Run([]);
  }

  // ----- Stored records -----

  /** A limited query answers with every matching row exactly when they fit the limit. */
  lemma SelectsAllExactly<T>(rows: seq<T>, matching: set<T>, limit: nat)
    requires Selects(rows, matching, limit)
    ensures (forall x :: x in matching ==> x in rows) <==> |matching| <= limit
  {
    Lru.DistinctCount(rows);
    var chosen := set x | x in rows;
    if |matching| <= limit {
      Sets.SameSizeSubset(chosen, matching);
    } else {
      assert matching * chosen == chosen;
      assert |matching - chosen| > 0;
      var x :| x in matching - chosen;
    }
  }

  /** While the active records fit the row limit, every stored, unexpired record is `Duplicate` after a restart
      and through every later run: under any origin and sequence, whatever is evicted, expired or reloaded. */
  lemma StoredIsDuplicateAfterRestart(t: Store.Tables, sel: Selection, now: int, clock: Instant, id: RecordId,
                                      ops: seq<Replay.Op>, origin: PeerId, sequence: U64, later: Instant)
    requires Answers(t, sel, now) && |Store.ActiveIds(t.records, now)| <= MAX_ACTIVE_RECORDS
    requires id in Store.ActiveIds(t.records, now)
    ensures Seeded(t, sel, clock).Run(ops).Decide(id, origin, sequence, later) == Replay.Duplicate
  {
    SelectsAllExactly(sel.active, Store.ActiveIds(t.records, now), MAX_ACTIVE_RECORDS);
    var highest := HighestOf(t.highest, sel.origins);
    var accepts := Accepts(SeedsOf(t.records, sel.recent), clock);
    RunConcat(Replay.Default().Load(highest, sel.active), accepts, ops);
    Replay.LoadedIsNeverNewAgain(Replay.Default(), highest, sel.active, id, accepts + ops, origin, sequence, later);
  }

  /** For a database the node itself has written, with a clock that does not go back, no limit is in the way: every
      record stored and unexpired at the restart is `Duplicate` through every later run. */
  lemma EveryStoredIsDuplicate(ws: seq<Store.Write>, from: int, sel: Selection, now: int, clock: Instant, id: RecordId,
                               ops: seq<Replay.Op>, origin: PeerId, sequence: U64, later: Instant)
    requires Capacity.AllInTime(ws, from) && Capacity.LastOf(ws, from) <= now
    requires Answers(Store.Run(Store.EMPTY, ws), sel, now)
    requires id in Store.ActiveIds(Store.Run(Store.EMPTY, ws).records, now)
    ensures Seeded(Store.Run(Store.EMPTY, ws), sel, clock).Run(ops).Decide(id, origin, sequence, later)
            == Replay.Duplicate
  {
    Capacity.ActiveNeverExceeds(Store.EMPTY, ws, from, now);
    StoredIsDuplicateAfterRestart(Store.Run(Store.EMPTY, ws), sel, now, clock, id, ops, origin, sequence, later);
  }

  // ----- Sequences below the persistent marks -----

  lemma {:induction false} MarksAreCollected(highest: map<Store.Origin, U64>, rows: seq<Store.Origin>, peer: PeerId)
    requires forall o :: o in rows ==> o in highest
    ensures peer in Replay.Collect(HighestOf(highest, rows)) <==> Store.Peer(peer) in rows
    ensures Store.Peer(peer) in rows ==> Replay.Collect(HighestOf(highest, rows))[peer] == highest[Store.Peer(peer)]
  {
    if rows != [] {
      var front := rows[..|rows| - 1];
      var last := rows[|rows| - 1];
      MarksAreCollected(highest, front, peer);
      assert rows == front + [last];
      if last.Peer? {
        CollectExtends(HighestOf(highest, front), last.peer, highest[last]);
      } else {
        assert HighestOf(highest, rows) == HighestOf(highest, front);
      }
    }
  }

  lemma CollectExtends(pairs: seq<(PeerId, U64)>, peer: PeerId, mark: U64)
    ensures Replay.Collect(pairs + [(peer, mark)]) == Replay.Collect(pairs)[peer := mark]
  {
    assert (pairs + [(peer, mark)])[..|pairs|] == pairs;
  }

  /** No call after start-up lowers or removes a persistent mark. */
  lemma {:induction false} MarksOnlyRise(s: Replay.State, ops: seq<Replay.Op>, peer: PeerId)
    requires s.modulus > 0 && (forall op :: op in ops ==> !op.Loaded?) && peer in s.persistent
    ensures peer in s.Run(ops).persistent && s.persistent[peer] <= s.Run(ops).persistent[peer]
    decreases |ops|
  {
    if ops != [] { MarksOnlyRise(s.Apply(ops[0]), ops[1..], peer); }
  }

  lemma {:induction false} AcceptsLoadNothing(seeds: seq<(RecordId, PeerId, U64)>, now: Instant)
    ensures forall op :: op in Accepts(seeds, now) ==> op.Accepted?
  {
    if seeds != [] { AcceptsLoadNothing(seeds[..|seeds| - 1], now); }
  }

  /** While the origins fit the row limit, an origin that has no window after a restart, or has lost it since,
      never has a sequence at or below its database mark less `W` judged `New`. */
  lemma OldSequenceIsNeverNew(t: Store.Tables, sel: Selection, now: int, clock: Instant, peer: PeerId,
                              ops: seq<Replay.Op>, id: RecordId, sequence: U64, later: Instant)
    requires Answers(t, sel, now) && |t.highest| <= MAX_ACTIVE_RECORDS && Store.Peer(peer) in t.highest
    requires forall op :: op in ops ==> !op.Loaded?
    requires peer !in Seeded(t, sel, clock).Run(ops).origins.table
    requires sequence + SEQUENCE_WINDOW <= t.highest[Store.Peer(peer)]
    ensures Seeded(t, sel, clock).Run(ops).Decide(id, peer, sequence, later) != Replay.New
  {
    assert |t.highest.Keys| == |t.highest|;
    SelectsAllExactly(sel.origins, t.highest.Keys, MAX_ACTIVE_RECORDS);
    var highest := HighestOf(t.highest, sel.origins);
    MarksAreCollected(t.highest, sel.origins, peer);
    var accepts := Accepts(SeedsOf(t.records, sel.recent), clock);
    AcceptsLoadNothing(SeedsOf(t.records, sel.recent), clock);
    var loaded := Replay.Default().Load(highest, sel.active);
    RunConcat(loaded, accepts, ops);
    MarksOnlyRise(loaded, accepts + ops, peer);
  }

  /** The same for any record the database ever held, even if it was deleted or cleaned up before the restart:
      its sequence, and every sequence at least as old, stays refused once `W` lie between it and the mark. */
  lemma DeletedStaysRefused(ws: seq<Store.Write>, k: nat, stored: RecordId, sel: Selection, now: int, clock: Instant,
                            ops: seq<Replay.Op>, id: RecordId, sequence: U64, later: Instant)
    requires k <= |ws| && stored in Store.Run(Store.EMPTY, ws[..k]).records
    requires var r := Store.Run(Store.EMPTY, ws[..k]).records[stored];
             r.origin.Peer? && sequence + SEQUENCE_WINDOW <= r.sequence
    requires var t := Store.Run(Store.EMPTY, ws);
             && Answers(t, sel, now) && |t.highest| <= MAX_ACTIVE_RECORDS
             && (forall op :: op in ops ==> !op.Loaded?)
             && Store.Run(Store.EMPTY, ws[..k]).records[stored].origin.peer
                !in Seeded(t, sel, clock).Run(ops).origins.table
    ensures var t := Store.Run(Store.EMPTY, ws);
            Seeded(t, sel, clock).Run(ops)
              .Decide(id, Store.Run(Store.EMPTY, ws[..k]).records[stored].origin.peer, sequence, later) != Replay.New
  {
    Writes.HighestCoversHistory(ws, k, stored);
    var r := Store.Run(Store.EMPTY, ws[..k]).records[stored];
    OldSequenceIsNeverNew(Store.Run(Store.EMPTY, ws), sel, now, clock, r.origin.peer, ops, id, sequence, later);
  }

  // ----- What seeding the windows buys -----

  /** The active records created no earlier than this one. */
  ghost function NotOlder(t: Store.Tables, now: int, id: RecordId): set<RecordId>
    requires id in Store.ActiveIds(t.records, now)
  {
    set x | x in Store.ActiveIds(t.records, now) && t.records[x].createdAt >= t.records[id].createdAt
  }

  /** Every record with no more than 250000 active ones as new as itself is seeded. */
  lemma NewestAreSeeded(t: Store.Tables, sel: Selection, now: int, id: RecordId)
    requires Answers(t, sel, now) && id in Store.ActiveIds(t.records, now)
    requires |NotOlder(t, now, id)| <= RECENT_RECORD_CAPACITY
    ensures id in sel.recent
  {
    var active := Store.ActiveIds(t.records, now);
    if id !in sel.recent {
      SelectsAllExactly(sel.recent, active, RECENT_RECORD_CAPACITY);
      Lru.DistinctCount(sel.recent);
      var chosen := set x | x in sel.recent;
      assert chosen <= NotOlder(t, now, id) && id in NotOlder(t, now, id);
      Sets.ProperSubsetSize(chosen, NotOlder(t, now, id), id);
    }
  }

  ghost function SeedOrigins(seeds: seq<(RecordId, PeerId, U64)>): set<PeerId> {
    set seed | seed in seeds :: seed.1
  }

  lemma {:induction false} SeedsHave(records: Store.Records, rows: seq<RecordId>, id: RecordId)
    requires (forall i :: i in rows ==> i in records) && id in rows && records[id].origin.Peer?
    ensures (id, records[id].origin.peer, records[id].sequence) in SeedsOf(records, rows)
  {
    if rows[|rows| - 1] != id {
      assert id in rows[..|rows| - 1];
      SeedsHave(records, rows[..|rows| - 1], id);
    }
  }

  lemma {:induction false} AcceptsHave(seeds: seq<(RecordId, PeerId, U64)>, clock: Instant,
                                       seed: (RecordId, PeerId, U64))
    requires seed in seeds
    ensures Replay.Accepted(seed.0, seed.1, seed.2, clock) in Accepts(seeds, clock)
  {
    if seeds[|seeds| - 1] != seed {
      assert seed in seeds[..|seeds| - 1];
      AcceptsHave(seeds[..|seeds| - 1], clock, seed);
    }
  }

  lemma {:induction false} AcceptsAreFrom(seeds: seq<(RecordId, PeerId, U64)>, clock: Instant, peers: set<PeerId>)
    requires forall seed :: seed in seeds ==> seed.1 in peers
    ensures ReplayRuns.AcceptsFrom(Accepts(seeds, clock), peers)
  {
    if seeds != [] { AcceptsAreFrom(seeds[..|seeds| - 1], clock, peers); }
  }

  /** The loaded filter accepting seeds of no more origins than it tracks: an origin with a seed has the window of
      all its seeds. */
  lemma SeededWindow(s: Replay.State, seeds: seq<(RecordId, PeerId, U64)>, clock: Instant,
                     seed: (RecordId, PeerId, U64))
    requires s.Valid() && s.origins.table == map[] && seed in seeds
    requires |SeedOrigins(seeds)| <= s.origins.capacity
    ensures var u := s.Run(Accepts(seeds, clock));
            var all := Replay.AcceptedFor(Accepts(seeds, clock), seed.1);
            && u.Valid() && seed.1 in u.origins.table && seed.2 in all
            && Replay.WindowOf(u.origins.table[seed.1], all, s.window)
  {
    var ops := Accepts(seeds, clock);
    AcceptsAreFrom(seeds, clock, SeedOrigins(seeds));
    AcceptsHave(seeds, clock, seed);
    ReplayRuns.AcceptedForHas(ops, Replay.Accepted(seed.0, seed.1, seed.2, clock), seed.1);
    ReplayRuns.NothingEvicted(s, ops, SeedOrigins(seeds), seed.1, {});
    ReplayRuns.WindowOverAnyRun(s, ops, seed.1, {});
    assert {} + Replay.AcceptedFor(ops, seed.1) == Replay.AcceptedFor(ops, seed.1);
  }

  /** The origin and sequence of a stored record cannot come again under another id after a restart: if the record
      is active and at most 250000 are as new, and the seeds name at most 10000 origins, its sequence is not `New`
      under any id, for as long as the origin stays tracked. */
  lemma SeededSequenceIsNotNew(t: Store.Tables, sel: Selection, now: int, clock: Instant, stored: RecordId,
                               ops: seq<Replay.Op>, id: RecordId, later: Instant)
    requires Answers(t, sel, now) && stored in Store.ActiveIds(t.records, now) && t.records[stored].origin.Peer?
    requires |NotOlder(t, now, stored)| <= RECENT_RECORD_CAPACITY
    requires |SeedOrigins(SeedsOf(t.records, sel.recent))| <= MAX_TRACKED_ORIGINS
    requires Replay.TrackedThroughout(Seeded(t, sel, clock), ops, t.records[stored].origin.peer)
    ensures Seeded(t, sel, clock).Run(ops)
              .Decide(id, t.records[stored].origin.peer, t.records[stored].sequence, later) != Replay.New
  {
    var r := t.records[stored];
    NewestAreSeeded(t, sel, now, stored);
    SeedsHave(t.records, sel.recent, stored);
    var loaded := Replay.Default().Load(HighestOf(t.highest, sel.origins), sel.active);
    var seeds := SeedsOf(t.records, sel.recent);
    SeededWindow(loaded, seeds, clock, (stored, r.origin.peer, r.sequence));
    NotNewWhileTracked(Seeded(t, sel, clock), r.origin.peer,
                       Replay.AcceptedFor(Accepts(seeds, clock), r.origin.peer), ops, r.sequence, id, later);
  }

  lemma NotNewWhileTracked(s: Replay.State, origin: PeerId, all: set<U64>, ops: seq<Replay.Op>, sequence: U64,
                           id: RecordId, later: Instant)
    requires s.Valid() && Replay.TrackedThroughout(s, ops, origin)
    requires Replay.WindowOf(s.origins.table[origin], all, s.window) && sequence in all
    ensures s.Run(ops).Decide(id, origin, sequence, later) != Replay.New
  {
    Replay.WindowOverRun(s, ops, origin, all);
    Replay.DecisionByWindow(s.Run(ops), id, origin, all + Replay.AcceptedFor(ops, origin), sequence, later);
  }
}
