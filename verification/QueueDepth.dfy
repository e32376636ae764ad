/** The persistence queue of src/storage/worker.rs and its atomic depth counter, under any interleaving of
    many producers and the one worker: each atomic operation is a step of its own. */
module QueueDepth {
  import opened Limits

  const WORD: nat := 0x1_0000_0000_0000_0000

  /** `fetch_add(1)` and `fetch_sub(1)` on a 64-bit word wrap. */
  function Up(a: U64): U64 { if a == U64_MAX then 0 else a + 1 }

  function Down(a: U64): U64 { if a == 0 then U64_MAX else a - 1 }

  /** The low 64 bits of a count. */
  function Low(n: nat): U64 { if n < WORD then n else Low(n - WORD) }

  lemma {:induction false} LowMoves(n: nat)
    ensures Low(n + 1) == Up(Low(n)) && Low(n) == Down(Low(n + 1))
  {
    if n >= WORD { LowMoves(n - WORD); }
  }

  type Producer = nat

  datatype State<T> = State(
    queue: seq<T>,
    open: bool,                // the worker still holds the receiving end
    depth: U64,
    saturations: U64,
    adding: map<Producer, T>,  // producers between their add and their send
    undoing: set<Producer>,    // refused producers that have yet to undo their add
    receiving: nat,            // requests taken off the queue and not yet subtracted
    lost: nat,                 // requests dropped with the receiving end
    sent: seq<T>,              // history: every request accepted, in order
    received: seq<T>)          // history: every request the worker took, in order

  function Initial<T>(): State<T> { State([], true, 0, 0, map[], {}, 0, 0, [], []) }

  datatype Event<T> =
    | Add(p: Producer, request: T)
    | TrySend(p: Producer)
    | Undo(p: Producer)
    | Receive
    | Subtract
    | Exit

  predicate Enabled<T>(s: State<T>, e: Event<T>) {
    match e
    case Add(p, _) => p !in s.adding && p !in s.undoing
    case TrySend(p) => p in s.adding
    case Undo(p) => p in s.undoing
    case Receive => s.open && s.queue != [] && s.receiving == 0
    case Subtract => s.receiving > 0
    case Exit => s.open && s.receiving == 0
  }

  /** Whether `try_send` accepts the request. */
  predicate Accepts<T>(s: State<T>) { s.open && |s.queue| < PERSISTENCE_QUEUE_CAPACITY }

  function Step<T>(s: State<T>, e: Event<T>): State<T>
    requires Enabled(s, e)
  {
    match e
    case Add(p, request) => s.(depth := Up(s.depth), adding := s.adding[p := request])
    case TrySend(p) =>
      if Accepts(s) then
        s.(queue := s.queue + [s.adding[p]], sent := s.sent + [s.adding[p]], adding := s.adding - {p})
      else s.(adding := s.adding - {p}, undoing := s.undoing + {p})
    case Undo(p) =>
      s.(depth := Down(s.depth), saturations := Up(s.saturations), undoing := s.undoing - {p})
    case Receive => s.(queue := s.queue[1..], receiving := 1, received := s.received + [s.queue[0]])
    case Subtract => s.(depth := Down(s.depth), receiving := s.receiving - 1)
    case Exit => s.(open := false, lost := s.lost + |s.queue|, queue := [])
  }

  ghost predicate CanRun<T>(s: State<T>, es: seq<Event<T>>)
    decreases |es|
  {
    es == [] || (Enabled(s, es[0]) && CanRun(Step(s, es[0]), es[1..]))
  }

  function Run<T>(s: State<T>, es: seq<Event<T>>): State<T>
    requires CanRun(s, es)
    decreases |es|
  {
    if es == [] then s else Run(Step(s, es[0]), es[1..])
  }

  /** What the counter stands for. */
  function Outstanding<T>(s: State<T>): nat {
    |s.queue| + |s.adding.Keys| + |s.undoing| + s.receiving + s.lost
  }

  ghost predicate Inv<T>(s: State<T>) {
    && s.depth == Low(Outstanding(s))
    && Ordered(s)
  }

  ghost predicate Ordered<T>(s: State<T>) {
    && s.adding.Keys !! s.undoing
    && |s.queue| <= PERSISTENCE_QUEUE_CAPACITY && s.receiving <= 1
    && (if s.open then s.sent == s.received + s.queue && s.lost == 0 else s.queue == [] && s.received <= s.sent)
    && |s.sent| == |s.received| + |s.queue| + s.lost
  }

  lemma StepKeepsOrder<T>(s: State<T>, e: Event<T>)
    requires Ordered(s) && Enabled(s, e)
    ensures Ordered(Step(s, e))
  {
    if e.Receive? { assert s.received + s.queue == Step(s, e).received + Step(s, e).queue; }
  }

  /** How the counted number moves with each step. */
  function Delta<T>(e: Event<T>): int {
    match e
    case Add(_, _) => 1
    case Undo(_) => -1
    case Subtract => -1
    case _ => 0
  }

  lemma StepCounts<T>(s: State<T>, e: Event<T>)
    requires Ordered(s) && Enabled(s, e)
    ensures Outstanding(Step(s, e)) == Outstanding(s) + Delta(e)
  {
    match e
    case Add(p, request) => AddCounts(s, p, request);
    case TrySend(p) => SendCounts(s, p);
    case Undo(p) => assert |s.undoing| == |s.undoing - {p}| + 1;
    case Receive => assert |s.queue[1..]| == |s.queue| - 1;
    case Subtract =>
    case Exit =>
  }

  lemma AddCounts<T>(s: State<T>, p: Producer, request: T)
    requires p !in s.adding
    ensures |s.adding[p := request].Keys| == |s.adding.Keys| + 1
  {
    assert s.adding[p := request].Keys == s.adding.Keys + {p};
  }

  lemma SendCounts<T>(s: State<T>, p: Producer)
    requires Ordered(s) && p in s.adding
    ensures Outstanding(Step(s, TrySend(p))) == Outstanding(s)
  {
    assert (s.adding - {p}).Keys == s.adding.Keys - {p};
    assert |s.adding.Keys - {p}| == |s.adding.Keys| - 1;
    assert |s.undoing + {p}| == |s.undoing| + 1;
  }

  lemma StepMovesWord<T>(s: State<T>, e: Event<T>)
    requires Enabled(s, e) && s.depth == Low(Outstanding(s)) && Outstanding(s) + Delta(e) >= 0
    ensures Step(s, e).depth == Low(Outstanding(s) + Delta(e))
  {
    match e
    case Add(_, _) => LowMoves(Outstanding(s));
    case Undo(_) => LowMoves(Outstanding(s) - 1);
    case Subtract => LowMoves(Outstanding(s) - 1);
    case _ =>
  }

  lemma StepKeepsInv<T>(s: State<T>, e: Event<T>)
    requires Inv(s) && Enabled(s, e)
    ensures Inv(Step(s, e))
  {
    StepKeepsOrder(s, e);
    StepCounts(s, e);
    StepMovesWord(s, e);
  }

  lemma {:induction false} RunKeepsInv<T>(s: State<T>, es: seq<Event<T>>)
    requires Inv(s) && CanRun(s, es)
    ensures Inv(Run(s, es))
    decreases |es|
  {
    if es != [] {
      StepKeepsInv(s, es[0]);
      RunKeepsInv(Step(s, es[0]), es[1..]);
    }
  }

  /** The threads at work in a run. */
  ghost predicate Producers<T>(s: State<T>, n: nat) {
    forall p :: p in s.adding || p in s.undoing ==> p < n
  }

  lemma {:induction false} Below(n: nat, ps: set<nat>)
    requires forall p :: p in ps ==> p < n
    ensures |ps| <= n
  {
    if n > 0 {
      Below(n - 1, ps - {n - 1});
      assert ps <= ps - {n - 1} + {n - 1};
    } else {
      assert ps == {};
    }
  }

  /** The word equals the number it counts exactly while that number fits the word, so with fewer threads than
      the word less the queue the counter is never off: it is the queue length, plus producers between their
      add and their send or undo, plus at most one request received and not yet subtracted. It never
      underflows, and while the worker runs it is at least the queue length and exceeds it by no more than the
      producers at work and one. */
  lemma DepthIsExact<T>(es: seq<Event<T>>, n: nat)
    requires CanRun(Initial(), es) && Producers(Run(Initial(), es), n)
    ensures var s := Run(Initial(), es);
            && (s.depth == Outstanding(s) <==> Outstanding(s) < WORD)
            && (s.open && n + PERSISTENCE_QUEUE_CAPACITY + 1 < WORD ==>
                  && s.depth == |s.queue| + |s.adding.Keys| + |s.undoing| + s.receiving
                  && |s.queue| <= s.depth <= |s.queue| + n + 1
                  && (s.undoing != {} || s.receiving > 0 ==> s.depth > 0))
  {
    RunKeepsInv(Initial(), es);
    var s := Run(Initial(), es);
    ProducersAtWork(s, n);
    LowIsExact(Outstanding(s));
  }

  lemma {:induction false} LowIsExact(n: nat)
    ensures Low(n) < WORD && (Low(n) == n <==> n < WORD)
  {
    if n >= WORD { LowIsExact(n - WORD); }
  }

  lemma ProducersAtWork<T>(s: State<T>, n: nat)
    requires s.adding.Keys !! s.undoing && Producers(s, n)
    ensures |s.adding.Keys| + |s.undoing| <= n && (s.undoing != {} ==> |s.undoing| > 0)
  {
    Below(n, s.adding.Keys + s.undoing);
    assert |s.adding.Keys + s.undoing| == |s.adding.Keys| + |s.undoing|;
  }

  /** The queue is first in, first out and loses nothing while the worker runs; once it has exited, exactly the
      requests that were queued then are lost. */
  lemma QueueKeepsOrder<T>(es: seq<Event<T>>)
    requires CanRun(Initial(), es)
    ensures var s := Run(Initial(), es);
            && (s.open ==> s.sent == s.received + s.queue)
            && s.received <= s.sent && |s.sent| == |s.received| + |s.queue| + s.lost
            && |s.queue| <= PERSISTENCE_QUEUE_CAPACITY
  {
    RunKeepsInv(Initial(), es);
  }

  // ----- Which requests are accepted -----

  lemma {:induction false} OpenUntilExit<T>(s: State<T>, es: seq<Event<T>>)
    requires CanRun(s, es)
    ensures Run(s, es).open <==> s.open && forall e :: e in es ==> !e.Exit?
    decreases |es|
  {
    if es != [] {
      OpenUntilExit(Step(s, es[0]), es[1..]);
      assert es == [es[0]] + es[1..];
    }
  }

  /** What the producer handed over last. */
  function LastAdded<T>(es: seq<Event<T>>, p: Producer): seq<T> {
    if es == [] then []
    else
      var last := es[|es| - 1];
      if last.Add? && last.p == p then [last.request] else LastAdded(es[..|es| - 1], p)
  }

  lemma {:induction false} RunExtends<T>(s: State<T>, es: seq<Event<T>>, n: nat)
    requires CanRun(s, es) && n < |es|
    ensures CanRun(s, es[..n]) && Enabled(Run(s, es[..n]), es[n])
    ensures CanRun(s, es[..n + 1]) && Run(s, es[..n + 1]) == Step(Run(s, es[..n]), es[n])
    decreases n
  {
    assert es[..n + 1][1..] == es[1..][..n];
    if n == 0 {
      assert es[..0] == [] && es[..1] == [es[0]] && [es[0]][1..] == [];
    } else {
      assert es[..n][1..] == es[1..][..n - 1] && es[1..][n - 1] == es[n];
      RunExtends(Step(s, es[0]), es[1..], n - 1);
    }
  }

  lemma {:induction false} HoldsLastAdded<T>(es: seq<Event<T>>, n: nat, p: Producer)
    requires CanRun(Initial(), es) && n <= |es| && CanRun(Initial(), es[..n])
    requires p in Run(Initial(), es[..n]).adding
    ensures LastAdded(es[..n], p) == [Run(Initial(), es[..n]).adding[p]]
    decreases n
  {
    if n > 0 {
      RunExtends(Initial(), es, n - 1);
      assert es[..n][..n - 1] == es[..n - 1] && es[..n][n - 1] == es[n - 1];
      if !(es[n - 1].Add? && es[n - 1].p == p) { HoldsLastAdded(es, n - 1, p); }
    }
  }

  /** In every reachable state a producer that sends has its own last request accepted, behind all others, exactly
      if the worker has not exited and fewer than 10,000 requests are accepted and not yet received; otherwise
      nothing is accepted, and it is the producer's turn to take its count back. */
  lemma SendIsAcceptedExactly<T>(es: seq<Event<T>>, p: Producer)
    requires CanRun(Initial(), es) && Enabled(Run(Initial(), es), TrySend(p))
    ensures var (s, t) := (Run(Initial(), es), Step(Run(Initial(), es), TrySend(p)));
            var taken := (forall e :: e in es ==> !e.Exit?) && |s.sent| - |s.received| < 10_000;
            && t.sent == (if taken then s.sent + LastAdded(es, p) else s.sent)
            && t.received == s.received && t.depth == s.depth
            && p !in t.adding && (p in t.undoing <==> !taken)
  {
    RunKeepsInv(Initial<T>(), es);
    OpenUntilExit(Initial<T>(), es);
    assert es[..|es|] == es;
    HoldsLastAdded(es, |es|, p);
  }

  function Undone<T>(es: seq<Event<T>>): nat {
    if es == [] then 0 else (if es[0].Undo? then 1 else 0) + Undone(es[1..])
  }

  lemma {:induction false} LowSum(n: nat)
    ensures Low(n + 1) == Up(Low(n))
  {
    LowMoves(n);
  }

  lemma {:induction false} SaturationsOver<T>(s: State<T>, es: seq<Event<T>>, before: nat)
    requires CanRun(s, es) && s.saturations == Low(before)
    ensures Run(s, es).saturations == Low(before + Undone(es))
    decreases |es|
  {
    if es != [] {
      LowSum(before);
      SaturationsOver(Step(s, es[0]), es[1..], before + if es[0].Undo? then 1 else 0);
    }
  }

  /** The saturation counter is the number of sends that were refused and taken back, modulo its 64 bits. */
  lemma SaturationsAreExact<T>(es: seq<Event<T>>)
    requires CanRun(Initial(), es)
    ensures Run(Initial(), es).saturations == Low(Undone(es))
    ensures Undone(es) < WORD ==> Run(Initial(), es).saturations == Undone(es)
  {
    SaturationsOver(Initial<T>(), es, 0);
    LowIsExact(Undone(es));
  }
}
