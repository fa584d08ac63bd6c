/**
 The parallel proof-of-work search of pkg/captcha/altcha/solver.go: striped
 workers, a compare-and-swap cell, a stop flag and a canceller, interleaved at
 the granularity of their atomic operations.
 */
module Altcha {

  const MAX_INT64 := 0x7FFF_FFFF_FFFF_FFFF
  const TWO_64 := 0x1_0000_0000_0000_0000

  function Wrap64(n: int): (r: int)
    ensures -MAX_INT64 - 1 <= r <= MAX_INT64
    ensures -MAX_INT64 - 1 <= n <= MAX_INT64 ==> r == n
  {
    (n + MAX_INT64 + 1) % TWO_64 - MAX_INT64 - 1
  }

  /** The worker count Solve settles on. The addition is an int64 one. */
  function ClampWorkers(workers: int, numCpu: int, maxNumber: int): int {
    var w := if workers <= 0 then numCpu else workers;
    var w' := if w > Wrap64(maxNumber + 1) then Wrap64(maxNumber + 1) else w;
    if w' < 1 then 1 else w'
  }

  /** There is a stripe for every worker and a worker for every stripe. */
  lemma ClampWorkersFits(workers: int, numCpu: int, maxNumber: int)
    requires 0 <= maxNumber <= MAX_INT64
    ensures 1 <= ClampWorkers(workers, numCpu, maxNumber) <= maxNumber + 1
    ensures ClampWorkers(workers, numCpu, maxNumber) > 1 ==> maxNumber < MAX_INT64
  {
  }

  /** As many workers as asked for, or one per processor, but no more than there are numbers. */
  lemma ClampWorkersIs(workers: int, numCpu: int, maxNumber: int)
    requires 0 <= maxNumber < MAX_INT64
    ensures workers > 0 ==>
              ClampWorkers(workers, numCpu, maxNumber) == if workers <= maxNumber + 1 then workers else maxNumber + 1
    ensures workers <= 0 && numCpu > 0 ==>
              ClampWorkers(workers, numCpu, maxNumber) == if numCpu <= maxNumber + 1 then numCpu else maxNumber + 1
  {
  }

  /** Where a worker stands in the body of its loop. */
  datatype Pc =
    | Top(n: int)        // about to test n against the bound and the stop flag
    | Hashing(n: int)    // about to compare the hash of n with the target
    | Swapping(n: int)   // n hits, about to compare-and-swap
    | Raising            // won the swap, about to set the stop flag
    | Gone

  datatype State = State(
    pcs: seq<Pc>,
    found: int,
    stop: bool,
    cancelled: bool,     // the caller's context
    watching: bool)      // the watcher goroutine has not acted yet

  datatype Search = Search(maxNumber: int, workers: int, hits: int -> bool) {
    predicate Valid() {
      0 <= maxNumber <= MAX_INT64 && 1 <= workers <= maxNumber + 1
    }

    /** The last increments stay inside int64. */
    predicate Roomy() {
      maxNumber + workers <= MAX_INT64
    }

    predicate Solution(n: int) {
      0 <= n <= maxNumber && hits(n)
    }
  }

  datatype Actor = Worker(w: nat) | Canceller | Watcher

  predicate Enabled(s: State, a: Actor) {
    match a
    case Worker(w) => w < |s.pcs| && s.pcs[w] != Gone
    case Canceller => !s.cancelled
    case Watcher => s.cancelled && s.watching
  }

  /** The next atomic operation of a worker. */
  function WorkerStep(p: Search, s: State, w: nat): State
    requires w < |s.pcs|
  {
    match s.pcs[w]
    case Top(n) =>
      s.(pcs := s.pcs[w := if n > p.maxNumber || s.stop then Gone else Hashing(n)])
    case Hashing(n) =>
      s.(pcs := s.pcs[w := if p.hits(n) then Swapping(n) else Top(Wrap64(n + p.workers))])
    case Swapping(n) =>
      if s.found == -1 then s.(found := n, pcs := s.pcs[w := Raising])
      else s.(pcs := s.pcs[w := Gone])
    case Raising => s.(stop := true, pcs := s.pcs[w := Gone])
    case Gone => s
  }

  function Next(p: Search, s: State, a: Actor): State
    requires Enabled(s, a)
  {
    match a
    case Worker(w) => WorkerStep(p, s, w)
    case Canceller => s.(cancelled := true)
    case Watcher => s.(stop := true, watching := false)
  }

  function Initial(p: Search): State
    requires p.Valid()
  {
    State(seq(p.workers, w => Top(w)), -1, false, false, true)
  }

  ghost predicate Run(p: Search, s: State, actors: seq<Actor>, last: State)
    decreases |actors|
  {
    if actors == [] then s == last
    else Enabled(s, actors[0]) && Run(p, Next(p, s, actors[0]), actors[1..], last)
  }

  predicate AllGone(s: State) {
    forall w :: 0 <= w < |s.pcs| ==> s.pcs[w] == Gone
  }

  datatype Answer = Cancelled | NoSolution | Found(n: int)

  /** What Solve returns once every worker is gone. */
  function AnswerOf(s: State): Answer {
    if s.cancelled then Cancelled else if s.found < 0 then NoSolution else Found(s.found)
  }

  // ---- composing runs ----

  lemma {:induction false} RunConcat(p: Search, s: State, a: seq<Actor>, mid: State, b: seq<Actor>, last: State)
    requires Run(p, s, a, mid) && Run(p, mid, b, last)
    ensures Run(p, s, a + b, last)
    decreases |a|
  {
    if a == [] {
      assert a + b == b;
    } else {
      assert (a + b)[0] == a[0] && (a + b)[1..] == a[1..] + b;
      RunConcat(p, Next(p, s, a[0]), a[1..], mid, b, last);
    }
  }

  lemma RunOne(p: Search, s: State, a: Actor)
    requires Enabled(s, a)
    ensures Run(p, s, [a], Next(p, s, a))
  {
    assert [a][1..] == [];
  }

  // ---- soundness, with or without room ----

  predicate SoundPc(p: Search, pc: Pc) {
    match pc
    case Hashing(n) => n <= p.maxNumber
    case Swapping(n) => n <= p.maxNumber && p.hits(n)
    case _ => true
  }

  /** Whatever has been swapped in, or is about to be, hits and is not above the range. */
  ghost predicate Sound(p: Search, s: State) {
    && (s.found != -1 ==> s.found <= p.maxNumber && p.hits(s.found))
    && forall w :: 0 <= w < |s.pcs| ==> SoundPc(p, s.pcs[w])
  }

  /** Every step keeps that, and nobody overwrites a number once it is there. */
  lemma StepIsSound(p: Search, s: State, a: Actor)
    requires Sound(p, s) && Enabled(s, a)
    ensures Sound(p, Next(p, s, a))
    ensures s.found != -1 ==> Next(p, s, a).found == s.found
  {
    if a.Worker? {
      assert SoundPc(p, s.pcs[a.w]);
    }
  }

  lemma {:induction false} RunIsSound(p: Search, s: State, actors: seq<Actor>, last: State)
    requires Sound(p, s) && Run(p, s, actors, last)
    ensures Sound(p, last)
    ensures s.found != -1 ==> last.found == s.found
    decreases |actors|
  {
    if actors == [] {
    } else {
      StepIsSound(p, s, actors[0]);
      RunIsSound(p, Next(p, s, actors[0]), actors[1..], last);
    }
  }

  /**
   In every search and under every schedule, overflow or not: a returned number
   is in range and hits, and `found` changes at most once.
   */
  lemma SolveIsSound(p: Search, actors: seq<Actor>, s: State, more: seq<Actor>, last: State)
    requires p.Valid() && Run(p, Initial(p), actors, s) && Run(p, s, more, last)
    ensures AnswerOf(s).Found? ==> p.Solution(AnswerOf(s).n)
    ensures s.found != -1 ==> last.found == s.found
  {
    RunIsSound(p, Initial(p), actors, s);
    RunIsSound(p, s, more, last);
  }

  // ---- stripes ----

  predicate OnStripe(p: Search, w: nat, n: int)
    requires p.workers >= 1
  {
    0 <= n && n % p.workers == w
  }

  lemma {:induction false} AtLeast(d: int, k: int)
    requires d >= 1 && k >= 1
    ensures d * k >= k
  {
    if d > 1 {
      AtLeast(d - 1, k);
      assert d * k == (d - 1) * k + k;
    }
  }

  lemma Product(a: int, b: int, k: int)
    requires k >= 1
    ensures a > b ==> a * k >= b * k + k
  {
    assert (a - b) * k == a * k - b * k;
    if a > b {
      AtLeast(a - b, k);
    }
  }

  lemma QuotientUnique(n: int, k: int, q: int, r: int)
    requires k >= 1 && n == q * k + r && 0 <= r < k
    ensures n / k == q && n % k == r
  {
    Product(q, n / k, k);
    Product(n / k, q, k);
  }

  lemma StripeShift(n: int, k: int)
    requires k >= 1
    ensures (n + k) % k == n % k
  {
    Product(n / k + 1, n / k, k);
    QuotientUnique(n + k, k, n / k + 1, n % k);
  }

  /** The i-th number the loop of worker w runs through. */
  function Visit(p: Search, w: nat, i: nat): int {
    w + i * p.workers
  }

  /** Stripe w holds the numbers that loop runs through, and nothing else. */
  lemma StripeMeans(p: Search, w: nat, n: int)
    requires p.workers >= 1 && w < p.workers
    ensures OnStripe(p, w, n) <==> exists i: nat :: n == Visit(p, w, i)
  {
    if OnStripe(p, w, n) {
      assert n == Visit(p, w, n / p.workers);
    }
    if i: nat :| n == Visit(p, w, i) {
      QuotientUnique(n, p.workers, i, w);
      Product(i, -1, p.workers);
    }
  }

  /** Every number of the range is visited by exactly one worker, and by that one exactly once. */
  lemma StripesPartition(p: Search, n: int)
    requires p.Valid() && 0 <= n <= p.maxNumber
    ensures exists w: nat, i: nat ::
              && w < p.workers && n == Visit(p, w, i)
              && forall v: nat, j: nat :: v < p.workers && n == Visit(p, v, j) ==> v == w && j == i
  {
    var w, i := n % p.workers, n / p.workers;
    assert n == Visit(p, w, i);
    forall v: nat, j: nat | v < p.workers && n == Visit(p, v, j)
      ensures v == w && j == i
    {
      QuotientUnique(n, p.workers, j, v);
    }
  }

  /** No hit on stripe w below n. */
  ghost predicate Clear(p: Search, w: nat, n: int)
    requires p.workers >= 1
  {
    forall m :: OnStripe(p, w, m) && m < n ==> !p.hits(m)
  }

  /** Between a number and its successor on the stripe there is no other. */
  lemma StripeGap(n: int, m: int, k: int)
    requires k >= 1 && n < m < n + k
    ensures n % k != m % k
  {
    Product(m / k, n / k, k);
    Product(n / k, m / k, k);
  }

  lemma NextOnStripe(p: Search, w: nat, n: int)
    requires p.workers >= 1 && OnStripe(p, w, n) && Clear(p, w, n) && !p.hits(n)
    ensures OnStripe(p, w, n + p.workers) && Clear(p, w, n + p.workers)
  {
    StripeShift(n, p.workers);
    forall m | OnStripe(p, w, m) && m < n + p.workers
      ensures !p.hits(m)
    {
      if n < m {
        StripeGap(n, m, p.workers);
      }
    }
  }

  // ---- the invariant ----

  ghost predicate WorkerInv(p: Search, s: State, w: nat)
    requires p.Valid() && w < |s.pcs|
  {
    match s.pcs[w]
    case Top(n) => OnStripe(p, w, n) && Clear(p, w, n) && n <= p.maxNumber + p.workers
    case Hashing(n) => OnStripe(p, w, n) && Clear(p, w, n) && n <= p.maxNumber
    case Swapping(n) => OnStripe(p, w, n) && Clear(p, w, n) && p.Solution(n)
    case Raising => s.found != -1
    case Gone => s.found != -1 || s.cancelled || Clear(p, w, p.maxNumber + 1)
  }

  /** `found` is a solution, and the least one of its stripe. */
  ghost predicate FoundInv(p: Search, s: State)
    requires p.Valid()
  {
    s.found != -1 ==> p.Solution(s.found) && Clear(p, s.found % p.workers, s.found)
  }

  ghost predicate Inv(p: Search, s: State) {
    && p.Valid()
    && |s.pcs| == p.workers
    && FoundInv(p, s)
    && (s.stop ==> s.found != -1 || s.cancelled)
    && forall w: nat :: w < |s.pcs| ==> WorkerInv(p, s, w)
  }

  lemma InitialInv(p: Search)
    requires p.Valid()
    ensures Inv(p, Initial(p))
  {
    var s := Initial(p);
    forall w: nat | w < |s.pcs|
      ensures WorkerInv(p, s, w)
    {
      QuotientUnique(w, p.workers, 0, w);
      assert Clear(p, w, w) by {
        forall m: nat | m < w
          ensures m % p.workers == m
        {
          QuotientUnique(m, p.workers, 0, m);
        }
      }
    }
  }

  /** The worker that moves keeps its own part, and what the shared cells say. */
  lemma MoverKeepsInv(p: Search, s: State, w: nat)
    requires Inv(p, s) && p.Roomy() && Enabled(s, Worker(w))
    ensures var s' := WorkerStep(p, s, w);
            && WorkerInv(p, s', w) && FoundInv(p, s')
            && (s'.stop ==> s'.found != -1 || s'.cancelled)
            && (s.found != -1 ==> s'.found == s.found)
  {
    assert WorkerInv(p, s, w);
    if s.pcs[w].Hashing? && !p.hits(s.pcs[w].n) {
      NextOnStripe(p, w, s.pcs[w].n);
    }
  }

  lemma WorkerKeepsInv(p: Search, s: State, w: nat)
    requires Inv(p, s) && p.Roomy() && Enabled(s, Worker(w))
    ensures Inv(p, WorkerStep(p, s, w))
    ensures s.found != -1 ==> WorkerStep(p, s, w).found == s.found
  {
    var s' := WorkerStep(p, s, w);
    MoverKeepsInv(p, s, w);
    forall v: nat | v < |s'.pcs|
      ensures WorkerInv(p, s', v)
    {
      assert WorkerInv(p, s, v);
    }
  }

  lemma StepKeepsInv(p: Search, s: State, a: Actor)
    requires Inv(p, s) && p.Roomy() && Enabled(s, a)
    ensures Inv(p, Next(p, s, a))
    ensures s.found != -1 ==> Next(p, s, a).found == s.found
  {
    if a.Worker? {
      WorkerKeepsInv(p, s, a.w);
    } else {
      var s' := Next(p, s, a);
      forall v: nat | v < |s'.pcs|
        ensures WorkerInv(p, s', v)
      {
        assert WorkerInv(p, s, v);
      }
    }
  }

  lemma {:induction false} RunKeepsInv(p: Search, s: State, actors: seq<Actor>, last: State)
    requires Inv(p, s) && p.Roomy() && Run(p, s, actors, last)
    ensures Inv(p, last)
    ensures s.found != -1 ==> last.found == s.found
    decreases |actors|
  {
    if actors == [] {
    } else {
      StepKeepsInv(p, s, actors[0]);
      RunKeepsInv(p, Next(p, s, actors[0]), actors[1..], last);
    }
  }

  /** In a run with room, worker w only ever hashes numbers of the range that its loop runs through. */
  lemma HashedIsVisited(p: Search, actors: seq<Actor>, s: State, w: nat)
    requires p.Valid() && p.Roomy() && Run(p, Initial(p), actors, s)
    requires w < |s.pcs| && s.pcs[w].Hashing?
    ensures s.pcs[w].n <= p.maxNumber && exists i: nat :: s.pcs[w].n == Visit(p, w, i)
  {
    InitialInv(p);
    RunKeepsInv(p, Initial(p), actors, s);
    assert WorkerInv(p, s, w);
    StripeMeans(p, w, s.pcs[w].n);
  }

  lemma ClearEverywhere(p: Search, s: State)
    requires Inv(p, s) && AllGone(s) && s.found == -1 && !s.cancelled
    ensures forall n :: !p.Solution(n)
  {
    forall n | 0 <= n <= p.maxNumber
      ensures !p.hits(n)
    {
      var w := n % p.workers;
      assert WorkerInv(p, s, w) && OnStripe(p, w, n);
    }
  }

  lemma AnswerIsRight(p: Search, s: State)
    requires Inv(p, s) && AllGone(s)
    ensures match AnswerOf(s)
            case Cancelled => s.cancelled
            case NoSolution => forall n :: !p.Solution(n)
            case Found(n) =>
              && p.Solution(n)
              && (forall m :: p.Solution(m) && m % p.workers == n % p.workers ==> n <= m)
              && (p.workers == 1 ==> forall m :: p.Solution(m) ==> n <= m)
  {
    if AnswerOf(s) == NoSolution {
      ClearEverywhere(p, s);
    } else if AnswerOf(s).Found? {
      var n := s.found;
      forall m | p.Solution(m) && m % p.workers == n % p.workers
        ensures n <= m
      {
        assert OnStripe(p, n % p.workers, m);
      }
      if p.workers == 1 {
        assert forall m :: m % p.workers == 0;
      }
    }
  }

  /**
   Soundness and completeness over every interleaving: a returned number is a
   solution, the least one of its stripe, and with one worker the least of all;
   ErrNoSolution is returned only when there is no solution.
   */
  lemma SolveIsCorrect(p: Search, actors: seq<Actor>, s: State)
    requires p.Valid() && p.Roomy() && Run(p, Initial(p), actors, s) && AllGone(s)
    ensures match AnswerOf(s)
            case Cancelled => s.cancelled
            case NoSolution => forall n :: !p.Solution(n)
            case Found(n) =>
              && p.Solution(n)
              && (forall m :: p.Solution(m) && m % p.workers == n % p.workers ==> n <= m)
              && (p.workers == 1 ==> forall m :: p.Solution(m) ==> n <= m)
  {
    InitialInv(p);
    RunKeepsInv(p, Initial(p), actors, s);
    AnswerIsRight(p, s);
  }

  // ---- termination ----

  /** The operations a worker has still in front of it, at most. */
  function WorkLeft(p: Search, pc: Pc): nat {
    match pc
    case Top(n) => if n > p.maxNumber then 1 else 2 * (p.maxNumber - n) + 5
    case Hashing(n) => if n > p.maxNumber then 4 else 2 * (p.maxNumber - n) + 4
    case Swapping(_) => 2
    case Raising => 1
    case Gone => 0
  }

  function TotalWork(p: Search, pcs: seq<Pc>): nat {
    if pcs == [] then 0 else WorkLeft(p, pcs[0]) + TotalWork(p, pcs[1..])
  }

  lemma {:induction false} TotalWorkUpdate(p: Search, pcs: seq<Pc>, w: nat, pc: Pc)
    requires w < |pcs|
    ensures TotalWork(p, pcs[w := pc]) == TotalWork(p, pcs) - WorkLeft(p, pcs[w]) + WorkLeft(p, pc)
  {
    if w == 0 {
      assert pcs[w := pc][1..] == pcs[1..];
    } else {
      assert pcs[w := pc][1..] == pcs[1..][w - 1 := pc];
      TotalWorkUpdate(p, pcs[1..], w - 1, pc);
    }
  }

  function Measure(p: Search, s: State): nat {
    TotalWork(p, s.pcs) + (if s.cancelled then 0 else 1) + (if s.watching then 1 else 0)
  }

  lemma StepDecreases(p: Search, s: State, a: Actor)
    requires Inv(p, s) && p.Roomy() && Enabled(s, a)
    ensures Measure(p, Next(p, s, a)) < Measure(p, s)
  {
    if a.Worker? {
      assert WorkerInv(p, s, a.w);
      TotalWorkUpdate(p, s.pcs, a.w, Next(p, s, a).pcs[a.w]);
    }
  }

  /** Every run is finite, and a run that cannot be continued by a worker has all workers gone. */
  lemma {:induction false} SolveTerminates(p: Search, s: State, actors: seq<Actor>, last: State)
    requires Inv(p, s) && p.Roomy() && Run(p, s, actors, last)
    ensures |actors| + Measure(p, last) <= Measure(p, s)
    ensures AllGone(last) || exists w: nat :: Enabled(last, Worker(w))
    decreases |actors|
  {
    if actors == [] {
      if !AllGone(last) {
        var w :| 0 <= w < |last.pcs| && last.pcs[w] != Gone;
        assert Enabled(last, Worker(w));
      }
    } else {
      StepKeepsInv(p, s, actors[0]);
      StepDecreases(p, s, actors[0]);
      SolveTerminates(p, Next(p, s, actors[0]), actors[1..], last);
    }
  }

  // ---- without that room ----

  /** ErrNoSolution can be trusted: whatever hits, and under every schedule, it means there is no solution. */
  ghost predicate Complete(maxNumber: int, workers: int)
    requires 0 <= maxNumber <= MAX_INT64 && 1 <= workers <= maxNumber + 1
  {
    forall hits: int -> bool, actors, s ::
      var p := Search(maxNumber, workers, hits);
      Run(p, Initial(p), actors, s) && AllGone(s) && AnswerOf(s) == NoSolution ==> forall n :: !p.Solution(n)
  }

  /** Worker w walks alone along its stripe, hitting nothing, until it is about to test `goal`. */
  lemma {:induction false} Walk(p: Search, s: State, w: nat, n: int, goal: int) returns (actors: seq<Actor>)
    requires p.Valid() && w < |s.pcs| && s.pcs[w] == Top(n) && !s.stop
    requires 0 <= n <= goal <= p.maxNumber && n % p.workers == goal % p.workers
    requires forall m :: 0 <= m <= p.maxNumber && m % p.workers == n % p.workers ==> !p.hits(m)
    ensures Run(p, s, actors, s.(pcs := s.pcs[w := Top(goal)]))
    decreases goal - n
  {
    if n == goal {
      assert s.pcs[w := Top(goal)] == s.pcs;
      actors := [];
    } else {
      if goal < n + p.workers {
        StripeGap(n, goal, p.workers);
      }
      StripeShift(n, p.workers);
      var s1 := Next(p, s, Worker(w));
      var s2 := Next(p, s1, Worker(w));
      assert s2 == s.(pcs := s.pcs[w := Top(n + p.workers)]);
      RunOne(p, s, Worker(w));
      RunOne(p, s1, Worker(w));
      RunConcat(p, s, [Worker(w)], s1, [Worker(w)], s2);
      var rest := Walk(p, s2, w, n + p.workers, goal);
      assert s2.pcs[w := Top(goal)] == s.pcs[w := Top(goal)];
      RunConcat(p, s, [Worker(w)] + [Worker(w)], s2, rest, s.(pcs := s.pcs[w := Top(goal)]));
      actors := [Worker(w)] + [Worker(w)] + rest;
    }
  }

  /** Once the stop flag is up, workers at the top of their loop leave one by one. */
  lemma {:induction false} Leave(p: Search, s: State, k: nat) returns (actors: seq<Actor>, last: State)
    requires s.stop && k <= |s.pcs|
    requires forall w :: 0 <= w < |s.pcs| ==> s.pcs[w] == Gone || s.pcs[w].Top?
    requires forall w :: k <= w < |s.pcs| ==> s.pcs[w] == Gone
    ensures Run(p, s, actors, last) && AllGone(last) && last.found == s.found && last.cancelled == s.cancelled
    decreases k
  {
    if k == 0 {
      actors, last := [], s;
    } else if s.pcs[k - 1] == Gone {
      actors, last := Leave(p, s, k - 1);
    } else {
      var s' := Next(p, s, Worker(k - 1));
      var rest;
      rest, last := Leave(p, s', k - 1);
      RunOne(p, s, Worker(k - 1));
      RunConcat(p, s, [Worker(k - 1)], s', rest, last);
      actors := [Worker(k - 1)] + rest;
    }
  }

  lemma Overflow(p: Search, s: State, w: nat, past: int) returns (actors: seq<Actor>, last: State)
    requires p.Valid() && w < |s.pcs| && s.pcs[w] == Top(p.maxNumber)
    requires !s.stop && !s.cancelled && s.found == -1
    requires forall v :: 0 <= v < |s.pcs| ==> s.pcs[v].Top?
    requires past == Wrap64(p.maxNumber + p.workers) < -1 && p.hits(past) && !p.hits(p.maxNumber)
    ensures Run(p, s, actors, last) && AllGone(last) && AnswerOf(last) == NoSolution
  {
    var a := Worker(w);
    var s1 := Next(p, s, a);
    var s2 := Next(p, s1, a);
    var s3 := Next(p, s2, a);
    var s4 := Next(p, s3, a);
    var s5 := Next(p, s4, a);
    var s6 := Next(p, s5, a);
    assert s2.pcs[w] == Top(past) && s4.pcs[w] == Swapping(past) && s6.found == past && s6.stop;
    var rest;
    rest, last := Leave(p, s6, |s6.pcs|);
    RunOne(p, s5, a);
    RunConcat(p, s5, [a], s6, rest, last);
    RunOne(p, s4, a);
    RunConcat(p, s4, [a], s5, [a] + rest, last);
    RunOne(p, s3, a);
    RunConcat(p, s3, [a], s4, [a] + ([a] + rest), last);
    RunOne(p, s2, a);
    RunConcat(p, s2, [a], s3, [a] + ([a] + ([a] + rest)), last);
    RunOne(p, s1, a);
    RunConcat(p, s1, [a], s2, [a] + ([a] + ([a] + ([a] + rest))), last);
    RunOne(p, s, a);
    actors := [a] + ([a] + ([a] + ([a] + ([a] + ([a] + rest)))));
    RunConcat(p, s, [a], s1, [a] + ([a] + ([a] + ([a] + ([a] + rest)))), last);
  }

  /** The overflow at work: a worker runs past MaxInt64, hits a negative number and stops the others. */
  lemma MissedSolution(maxNumber: int, workers: int) returns (p: Search, actors: seq<Actor>, s: State, n: int)
    requires 2 <= workers <= maxNumber + 1 <= MAX_INT64
    requires maxNumber + workers > MAX_INT64
    ensures p.maxNumber == maxNumber && p.workers == workers
    ensures Run(p, Initial(p), actors, s) && AllGone(s) && AnswerOf(s) == NoSolution && p.Solution(n)
  {
    var w := maxNumber % workers;
    n := if w == 0 then 1 else 0;
    var past := maxNumber + workers - TWO_64;
    p := Search(maxNumber, workers, m => m == past || m == n);
    var s0 := Initial(p);
    QuotientUnique(w, workers, 0, w);
    QuotientUnique(n, workers, 0, n);
    assert Wrap64(maxNumber + workers) == past;
    var walk := Walk(p, s0, w, w, maxNumber);
    var s1 := s0.(pcs := s0.pcs[w := Top(maxNumber)]);
    var tail;
    tail, s := Overflow(p, s1, w, past);
    RunConcat(p, s0, walk, s1, tail, s);
    actors := walk + tail;
  }

  // ---- one worker ----

  ghost predicate NothingHits(p: Search) {
    forall m :: 0 <= m <= p.maxNumber ==> !p.hits(m)
  }

  /** Everything in the range below n was tried in vain; past an overflow, the whole range was. */
  ghost predicate Tried(p: Search, n: int) {
    NothingHits(p) || (0 <= n && forall m :: 0 <= m < n ==> !p.hits(m))
  }

  ghost predicate LoneInv(p: Search, s: State) {
    && p.Valid() && p.workers == 1 && |s.pcs| == 1
    && (s.stop ==> s.found >= 0 || s.cancelled || NothingHits(p))
    && (s.found < -1 ==> NothingHits(p))
    && match s.pcs[0]
       case Top(n) => Tried(p, n)
       case Hashing(n) => Tried(p, n) && n <= p.maxNumber
       case Swapping(n) => n >= 0 || NothingHits(p)
       case Raising => s.found >= 0 || NothingHits(p)
       case Gone => s.found >= 0 || s.cancelled || NothingHits(p)
  }

  lemma LoneStep(p: Search, s: State, a: Actor)
    requires LoneInv(p, s) && Enabled(s, a)
    ensures LoneInv(p, Next(p, s, a))
  {
    match s.pcs[0]
    case Hashing(n) =>
      if a == Worker(0) && !p.hits(n) && !NothingHits(p) {
        assert n < p.maxNumber && Wrap64(n + 1) == n + 1;
      }
    case _ =>
  }

  lemma {:induction false} LoneRun(p: Search, s: State, actors: seq<Actor>, last: State)
    requires LoneInv(p, s) && Run(p, s, actors, last)
    ensures LoneInv(p, last)
    decreases |actors|
  {
    if actors == [] {
    } else {
      LoneStep(p, s, actors[0]);
      LoneRun(p, Next(p, s, actors[0]), actors[1..], last);
    }
  }

  /** A worker that is still searching, with nobody to stop it. */
  predicate Searching(s: State) {
    && |s.pcs| == 1 && !s.stop
    && match s.pcs[0]
       case Top(n) => n <= MAX_INT64
       case Hashing(n) => true
       case _ => false
  }

  /** The price of the overflow with one worker: over the whole of int64 a fruitless search never ends by itself. */
  lemma {:induction false} FruitlessSearchNeverEnds(p: Search, s: State, actors: seq<Actor>, last: State)
    requires p.workers == 1 && p.maxNumber == MAX_INT64 && forall n :: !p.hits(n)
    requires (s.cancelled || Searching(s)) && Run(p, s, actors, last)
    ensures last.cancelled || Searching(last)
    decreases |actors|
  {
    if actors == [] {
    } else {
      FruitlessSearchNeverEnds(p, Next(p, s, actors[0]), actors[1..], last);
    }
  }

  // ---- stopping a search ----

  /** The steps a worker still takes once the stop flag is up, at most three. */
  function StepsLeft(pc: Pc): nat {
    match pc
    case Top(_) => 1
    case Hashing(_) => 3
    case Swapping(_) => 2
    case Raising => 1
    case Gone => 0
  }

  function TurnsOf(w: nat, actors: seq<Actor>): nat {
    if actors == [] then 0 else (if actors[0] == Worker(w) then 1 else 0) + TurnsOf(w, actors[1..])
  }

  /** With the flag up a step brings its worker nearer to the end, starts no hash, and leaves the flag up. */
  lemma StoppedStep(p: Search, s: State, a: Actor, w: nat)
    requires s.stop && Enabled(s, a) && w < |s.pcs|
    ensures var s' := Next(p, s, a);
            && s'.stop && |s'.pcs| == |s.pcs| && (s.cancelled ==> s'.cancelled)
            && StepsLeft(s'.pcs[w]) + (if a == Worker(w) then 1 else 0) <= StepsLeft(s.pcs[w])
            && (s'.pcs[w].Hashing? ==> s'.pcs[w] == s.pcs[w])
  {
  }

  /**
   Once the stop flag is up, by a winner or by the watcher, in any search, overflow
   or not: no worker starts another hash, and each takes at most three more steps.
   */
  lemma {:induction false} StoppedRun(p: Search, s: State, actors: seq<Actor>, last: State, w: nat)
    requires s.stop && w < |s.pcs| && Run(p, s, actors, last)
    ensures last.stop && |last.pcs| == |s.pcs| && (s.cancelled ==> last.cancelled)
    ensures TurnsOf(w, actors) + StepsLeft(last.pcs[w]) <= StepsLeft(s.pcs[w]) <= 3
    ensures last.pcs[w].Hashing? ==> last.pcs[w] == s.pcs[w]
    decreases |actors|
  {
    if actors == [] {
    } else {
      StoppedStep(p, s, actors[0], w);
      StoppedRun(p, Next(p, s, actors[0]), actors[1..], last, w);
    }
  }

  /** The watcher has acted only if the context has ended, and then the flag is up. */
  ghost predicate Watched(s: State) {
    !s.watching ==> s.stop && s.cancelled
  }

  lemma {:induction false} RunIsWatched(p: Search, s: State, actors: seq<Actor>, last: State)
    requires Watched(s) && Run(p, s, actors, last)
    ensures Watched(last) && |last.pcs| == |s.pcs|
    decreases |actors|
  {
    if actors == [] {
    } else {
      RunIsWatched(p, Next(p, s, actors[0]), actors[1..], last);
    }
  }

  lemma {:induction false} StaysCancelled(p: Search, s: State, actors: seq<Actor>, last: State)
    requires s.cancelled && Run(p, s, actors, last)
    ensures last.cancelled
    decreases |actors|
  {
    if actors == [] {
    } else {
      StaysCancelled(p, Next(p, s, actors[0]), actors[1..], last);
    }
  }

  /**
   Cancellation: after the context has ended the watcher can act at once, and once
   it has, no worker starts another hash, each is gone after at most three more
   steps of its own, and the answer is that the search was cancelled.
   */
  lemma CancelStops(p: Search, before: seq<Actor>, s: State, more: seq<Actor>, last: State, w: nat)
    requires p.Valid() && w < p.workers && Run(p, Initial(p), before, s) && Run(p, s, more, last)
    requires s.cancelled
    ensures s.watching ==> Enabled(s, Watcher) && Next(p, s, Watcher).stop
    ensures |s.pcs| == |last.pcs| == p.workers && AnswerOf(last) == Cancelled
    ensures !s.watching ==>
              && TurnsOf(w, more) <= 3
              && (last.pcs[w].Hashing? ==> last.pcs[w] == s.pcs[w])
              && (TurnsOf(w, more) == 3 ==> last.pcs[w] == Gone)
  {
    RunIsWatched(p, Initial(p), before, s);
    RunIsWatched(p, s, more, last);
    StaysCancelled(p, s, more, last);
    if !s.watching {
      StoppedRun(p, s, more, last, w);
    }
  }

  // ---- at most one hit ----

  predicate Int64(n: int) {
    -MAX_INT64 - 1 <= n <= MAX_INT64
  }

  ghost predicate AtMostOneHit(p: Search) {
    forall m, n :: Int64(m) && Int64(n) && p.hits(m) && p.hits(n) ==> m == n
  }

  /** Where worker w stands when n is the only hit and lies on its stripe. */
  predicate TowardsHit(p: Search, n: int, s: State, w: nat)
    requires p.Valid() && w < |s.pcs|
  {
    match s.pcs[w]
    case Top(m) => Int64(m) && (OnStripe(p, w, n) ==> OnStripe(p, w, m) && m <= n)
    case Hashing(m) => Int64(m) && (OnStripe(p, w, n) ==> OnStripe(p, w, m) && m <= n)
    case Swapping(m) => m == n
    case Raising => s.found == n
    case Gone => OnStripe(p, w, n) ==> s.found == n || s.cancelled
  }

  ghost predicate HitInv(p: Search, n: int, s: State) {
    && p.Valid() && |s.pcs| == p.workers && p.Solution(n)
    && (s.found != -1 ==> s.found == n)
    && (s.stop ==> s.found == n || s.cancelled)
    && forall w: nat :: w < |s.pcs| ==> TowardsHit(p, n, s, w)
  }

  /** A worker that has not reached n yet can make its next stride without leaving int64. */
  lemma StrideTowards(p: Search, w: nat, m: int, n: int)
    requires p.Valid() && OnStripe(p, w, m) && OnStripe(p, w, n) && m < n <= p.maxNumber
    ensures OnStripe(p, w, Wrap64(m + p.workers)) && Wrap64(m + p.workers) <= n
  {
    if n < m + p.workers {
      StripeGap(m, n, p.workers);
    }
    StripeShift(m, p.workers);
  }

  lemma MoverTowardsHit(p: Search, n: int, s: State, w: nat)
    requires HitInv(p, n, s) && AtMostOneHit(p) && Enabled(s, Worker(w))
    ensures var s' := WorkerStep(p, s, w);
            && TowardsHit(p, n, s', w)
            && (s'.found != -1 ==> s'.found == n)
            && (s'.stop ==> s'.found == n || s'.cancelled)
  {
    assert TowardsHit(p, n, s, w);
    if s.pcs[w].Hashing? && !p.hits(s.pcs[w].n) && OnStripe(p, w, n) {
      StrideTowards(p, w, s.pcs[w].n, n);
    }
  }

  lemma HitStep(p: Search, n: int, s: State, a: Actor)
    requires HitInv(p, n, s) && AtMostOneHit(p) && Enabled(s, a)
    ensures HitInv(p, n, Next(p, s, a))
  {
    var s' := Next(p, s, a);
    if a.Worker? {
      MoverTowardsHit(p, n, s, a.w);
    }
    forall v: nat | v < |s'.pcs|
      ensures TowardsHit(p, n, s', v)
    {
      assert TowardsHit(p, n, s, v);
    }
  }

  lemma {:induction false} HitRun(p: Search, n: int, s: State, actors: seq<Actor>, last: State)
    requires HitInv(p, n, s) && AtMostOneHit(p) && Run(p, s, actors, last)
    ensures HitInv(p, n, last)
    decreases |actors|
  {
    if actors == [] {
    } else {
      HitStep(p, n, s, actors[0]);
      HitRun(p, n, Next(p, s, actors[0]), actors[1..], last);
    }
  }

  lemma HitStart(p: Search, n: int)
    requires p.Valid() && p.Solution(n)
    ensures HitInv(p, n, Initial(p))
  {
    var s := Initial(p);
    forall w: nat | w < |s.pcs|
      ensures TowardsHit(p, n, s, w)
    {
      QuotientUnique(w, p.workers, 0, w);
      if OnStripe(p, w, n) && n < w {
        QuotientUnique(n, p.workers, 0, n);
      }
    }
  }

  lemma HitIsReported(p: Search, n: int, s: State)
    requires HitInv(p, n, s) && AllGone(s)
    ensures s.found == n || s.cancelled
  {
    var w := n % p.workers;
    assert OnStripe(p, w, n) && TowardsHit(p, n, s, w);
  }

  /** If at most one int64 hits, ErrNoSolution can be trusted for every worker count, overflow or not. */
  lemma SingleHitIsTrusted(p: Search, actors: seq<Actor>, s: State)
    requires p.Valid() && AtMostOneHit(p)
    requires Run(p, Initial(p), actors, s) && AllGone(s) && AnswerOf(s) == NoSolution
    ensures forall n :: !p.Solution(n)
  {
    if n :| p.Solution(n) {
      HitStart(p, n);
      HitRun(p, n, Initial(p), actors, s);
      HitIsReported(p, n, s);
    }
  }

  // ---- when ErrNoSolution can be trusted ----

  lemma TrustedWhenAlone(maxNumber: int)
    requires 0 <= maxNumber <= MAX_INT64
    ensures Complete(maxNumber, 1)
  {
    forall hits: int -> bool, actors, s |
      var p := Search(maxNumber, 1, hits);
      Run(p, Initial(p), actors, s) && AllGone(s) && AnswerOf(s) == NoSolution
      ensures forall n :: !Search(maxNumber, 1, hits).Solution(n)
    {
      var p := Search(maxNumber, 1, hits);
      LoneRun(p, Initial(p), actors, s);
    }
  }

  lemma TrustedWhenRoomy(maxNumber: int, workers: int)
    requires 0 <= maxNumber && 1 <= workers <= maxNumber + 1 && maxNumber + workers <= MAX_INT64
    ensures Complete(maxNumber, workers)
  {
    forall hits: int -> bool, actors, s |
      var p := Search(maxNumber, workers, hits);
      Run(p, Initial(p), actors, s) && AllGone(s) && AnswerOf(s) == NoSolution
      ensures forall n :: !Search(maxNumber, workers, hits).Solution(n)
    {
      SolveIsCorrect(Search(maxNumber, workers, hits), actors, s);
    }
  }

  lemma TrustedAnswer(p: Search, actors: seq<Actor>, s: State)
    requires p.Valid() && Run(p, Initial(p), actors, s) && AllGone(s) && AnswerOf(s) == NoSolution
    ensures p.workers == 1 || p.Roomy() ==> forall n :: 0 <= n <= p.maxNumber ==> !p.hits(n)
  {
    if p.workers == 1 {
      LoneRun(p, Initial(p), actors, s);
    } else if p.Roomy() {
      SolveIsCorrect(p, actors, s);
      assert forall n :: 0 <= n <= p.maxNumber && p.hits(n) ==> p.Solution(n);
    }
  }

  /**
   For every worker count Solve can settle on, ErrNoSolution can be trusted
   exactly when there is one worker or the last increments fit in int64.
   */
  lemma CompleteIff(maxNumber: int, requested: int, numCpu: int)
    requires 0 <= maxNumber <= MAX_INT64
    ensures var workers := ClampWorkers(requested, numCpu, maxNumber);
            && 1 <= workers <= maxNumber + 1
            && (Complete(maxNumber, workers) <==> workers == 1 || maxNumber + workers <= MAX_INT64)
  {
    var workers := ClampWorkers(requested, numCpu, maxNumber);
    ClampWorkersFits(requested, numCpu, maxNumber);
    if workers == 1 {
      TrustedWhenAlone(maxNumber);
    } else if maxNumber + workers <= MAX_INT64 {
      TrustedWhenRoomy(maxNumber, workers);
    } else {
      var p, actors, s, n := MissedSolution(maxNumber, workers);
      assert p == Search(maxNumber, workers, p.hits);
    }
  }

  // ---- the program ----

  datatype Outcome = UnsupportedAlgorithm | InvalidMaxNumber | MalformedChallenge | Running | Searched(answer: Answer)

  /** One atomic operation of worker w on the shared cells. */
  method Advance(p: Search, ghost s: State, pcs: seq<Pc>, found: int, stop: bool, w: nat)
    returns (pcs': seq<Pc>, found': int, stop': bool)
    requires w < |pcs| && s.pcs == pcs && s.found == found && s.stop == stop
    requires pcs[w] != Gone
    ensures Next(p, s, Worker(w)) == s.(pcs := pcs', found := found', stop := stop')
  {
    pcs', found', stop' := pcs, found, stop;
    match pcs[w] {
      case Top(n) =>
        if n > p.maxNumber || stop {
          pcs' := pcs[w := Gone];
        } else {
          pcs' := pcs[w := Hashing(n)];
        }
      case Hashing(n) =>
        if p.hits(n) {
          pcs' := pcs[w := Swapping(n)];
        } else {
          pcs' := pcs[w := Top(Wrap64(n + p.workers))];
        }
      case Swapping(n) =>
        if found == -1 {
          found' := n;
          pcs' := pcs[w := Raising];
        } else {
          pcs' := pcs[w := Gone];
        }
      case Raising =>
        stop' := true;
        pcs' := pcs[w := Gone];
    }
  }

  /** The state after the turns of a schedule; a turn nobody can take is skipped. */
  function Play(p: Search, s: State, schedule: seq<Actor>): State
    decreases |schedule|
  {
    if schedule == [] then s
    else Play(p, if Enabled(s, schedule[0]) then Next(p, s, schedule[0]) else s, schedule[1..])
  }

  lemma {:induction false} PlayIsRun(p: Search, s: State, schedule: seq<Actor>) returns (taken: seq<Actor>)
    ensures Run(p, s, taken, Play(p, s, schedule))
    decreases |schedule|
  {
    if schedule == [] {
      taken := [];
    } else if Enabled(s, schedule[0]) {
      var s' := Next(p, s, schedule[0]);
      var rest := PlayIsRun(p, s', schedule[1..]);
      RunOne(p, s, schedule[0]);
      RunConcat(p, s, [schedule[0]], s', rest, Play(p, s, schedule));
      taken := [schedule[0]] + rest;
    } else {
      taken := PlayIsRun(p, s, schedule[1..]);
    }
  }

  lemma PlayStep(p: Search, s: State, schedule: seq<Actor>)
    requires schedule != []
    ensures Play(p, s, schedule)
         == Play(p, if Enabled(s, schedule[0]) then Next(p, s, schedule[0]) else s, schedule[1..])
  {
  }

  lemma {:induction false} StoppedPlay(p: Search, s: State, schedule: seq<Actor>, w: nat)
    requires s.stop && s.cancelled && w < |s.pcs|
    ensures var last := Play(p, s, schedule);
            && last.cancelled && |last.pcs| == |s.pcs|
            && (TurnsOf(w, schedule) >= StepsLeft(s.pcs[w]) ==> last.pcs[w] == Gone)
    decreases |schedule|
  {
    if schedule == [] {
    } else if Enabled(s, schedule[0]) {
      StoppedStep(p, s, schedule[0], w);
      StoppedPlay(p, Next(p, s, schedule[0]), schedule[1..], w);
    } else {
      StoppedPlay(p, s, schedule[1..], w);
    }
  }

  lemma {:induction false} PlayConcat(p: Search, s: State, a: seq<Actor>, b: seq<Actor>)
    ensures Play(p, s, a + b) == Play(p, Play(p, s, a), b)
    decreases |a|
  {
    if a == [] {
      assert a + b == b;
    } else {
      assert (a + b)[0] == a[0] && (a + b)[1..] == a[1..] + b;
      PlayConcat(p, if Enabled(s, a[0]) then Next(p, s, a[0]) else s, a[1..], b);
    }
  }

  lemma CancelledPlay(p: Search, before: seq<Actor>)
    requires p.Valid()
    ensures var s := Play(p, Initial(p), before + [Canceller, Watcher]);
            s.stop && s.cancelled && |s.pcs| == p.workers
  {
    var mid := Play(p, Initial(p), before);
    var taken := PlayIsRun(p, Initial(p), before);
    RunIsWatched(p, Initial(p), taken, mid);
    PlayConcat(p, Initial(p), before, [Canceller, Watcher]);
    PlayStep(p, mid, [Canceller, Watcher]);
    var s := if Enabled(mid, Canceller) then Next(p, mid, Canceller) else mid;
    assert [Canceller, Watcher][1..] == [Watcher];
    PlayStep(p, s, [Watcher]);
    assert [Watcher][1..] == [];
  }

  /**
   A cancelled Solve returns, however large the range: whatever happened before,
   once the context has ended, the watcher has run and every worker has had three
   turns, all are gone and the answer is that the search was cancelled.
   */
  lemma CancelledSolveReturns(p: Search, before: seq<Actor>, after: seq<Actor>)
    requires p.Valid() && forall w: nat :: w < p.workers ==> TurnsOf(w, after) >= 3
    ensures var s := Play(p, Initial(p), before + [Canceller, Watcher] + after);
            AllGone(s) && AnswerOf(s) == Cancelled
  {
    var s := Play(p, Initial(p), before + [Canceller, Watcher]);
    CancelledPlay(p, before);
    PlayConcat(p, Initial(p), before + [Canceller, Watcher], after);
    StoppedPlay(p, s, after, 0);
    forall w: nat | w < p.workers
      ensures Play(p, s, after).pcs[w] == Gone && Play(p, s, after).cancelled
    {
      StoppedPlay(p, s, after, w);
    }
  }

  /**
   Solve under a given schedule: the goroutines and the caller's context take the
   listed turns, and the schedule ends when the context is read after the last
   worker has finished, or cuts the search short. The turns taken are a run of the
   step machine, so what is proved of all runs holds here, for every challenge.
   */
  method Solve(algorithm: string, wellFormed: bool, maxNumber: int, workers: int, numCpu: int, hits: int -> bool,
               schedule: seq<Actor>)
    returns (res: Outcome)
    requires maxNumber <= MAX_INT64
    ensures var supported := algorithm == "" || algorithm == "SHA-256";
            && (res == UnsupportedAlgorithm <==> !supported)
            && (res == InvalidMaxNumber <==> supported && maxNumber < 0)
            && (res == MalformedChallenge <==> supported && maxNumber >= 0 && !wellFormed)
    ensures res.Searched? || res.Running? ==>
              var p := Search(maxNumber, ClampWorkers(workers, numCpu, maxNumber), hits);
              && p.Valid()
              && var s := Play(p, Initial(p), schedule);
                 res == if AllGone(s) then Searched(AnswerOf(s)) else Running
    ensures res.Searched? && res.answer.Found? ==> 0 <= res.answer.n <= maxNumber && hits(res.answer.n)
    ensures res == Searched(NoSolution) ==>
              var count := ClampWorkers(workers, numCpu, maxNumber);
              count == 1 || maxNumber + count <= MAX_INT64 ==> forall n :: 0 <= n <= maxNumber ==> !hits(n)
  {
    if algorithm != "" && algorithm != "SHA-256" {
      return UnsupportedAlgorithm;
    }
    if maxNumber < 0 {
      return InvalidMaxNumber;
    }
    if !wellFormed {
      return MalformedChallenge;
    }
    var count := ClampWorkers(workers, numCpu, maxNumber);
    ClampWorkersFits(workers, numCpu, maxNumber);
    var p := Search(maxNumber, count, hits);
    var pcs: seq<Pc> := seq(count, w => Top(w));
    var found, stop, cancelled, watching := -1, false, false, true;
    ghost var end := Play(p, Initial(p), schedule);
    assert schedule[0..] == schedule;
    for i := 0 to |schedule|
      invariant end == Play(p, State(pcs, found, stop, cancelled, watching), schedule[i..])
    {
      var a := schedule[i];
      ghost var s := State(pcs, found, stop, cancelled, watching);
      assert schedule[i..][0] == a && schedule[i..][1..] == schedule[i + 1..];
      match a {
        case Canceller => cancelled := true;
        case Watcher =>
          if cancelled && watching {
            stop, watching := true, false;
          }
        case Worker(w) =>
          if w < |pcs| && pcs[w] != Gone {
            pcs, found, stop := Advance(p, s, pcs, found, stop, w);
          }
      }
    }
    ghost var taken := PlayIsRun(p, Initial(p), schedule);
    RunIsSound(p, Initial(p), taken, end);
    if exists w :: 0 <= w < |pcs| && pcs[w] != Gone {
      return Running;
    }
    if cancelled {
      return Searched(Cancelled);
    }
    if found < 0 {
      TrustedAnswer(p, taken, end);
      return Searched(NoSolution);
    }
    return Searched(Found(found));
  }
}
