/**
 Concurrent quota checks as interleaved steps: a caller reads the clock first
 and takes the lock later (pkg/brainapi/client.go, checkBudget).
 */
module BudgetClock {
  import opened Budget

  datatype Ask = Ask(kind: Kind, n: int)

  datatype Caller =
    | Waiting
    | Dated(day: int)    // the clock is read, the lock not yet taken
    | Served

  /** `served` lists the requests in the order in which they took the lock. */
  datatype World = World(now: int, gate: Gate, callers: seq<Caller>, served: seq<Request>)

  datatype Turn =
    | Wait(seconds: nat)
    | ReadClock(i: nat)
    | Lock(i: nat)

  predicate Enabled(asks: seq<Ask>, w: World, t: Turn) {
    match t
    case Wait(_) => true
    case ReadClock(i) => i < |w.callers| && w.callers[i].Waiting?
    case Lock(i) => i < |w.callers| && i < |asks| && w.callers[i].Dated?
  }

  function Next(q: Quota, asks: seq<Ask>, w: World, t: Turn): World
    requires Enabled(asks, w, t)
  {
    match t
    case Wait(seconds) => w.(now := w.now + seconds)
    case ReadClock(i) => w.(callers := w.callers[i := Dated(ChallengeDay(w.now))])
    case Lock(i) =>
      var r := Request(asks[i].kind, asks[i].n, w.callers[i].day);
      World(w.now, Reserve(q, w.gate, r.kind, r.n, r.day).1, w.callers[i := Served], w.served + [r])
  }

  ghost predicate Run(q: Quota, asks: seq<Ask>, w: World, turns: seq<Turn>, last: World)
    decreases |turns|
  {
    if turns == [] then w == last
    else Enabled(asks, w, turns[0]) && Run(q, asks, Next(q, asks, w, turns[0]), turns[1..], last)
  }

  function Start(now: int, callers: nat): World {
    World(now, NEW_GATE, seq(callers, _ => Waiting), [])
  }

  // ---- the race ----

  lemma RunOne(q: Quota, asks: seq<Ask>, w: World, t: Turn, turns: seq<Turn>, last: World)
    requires Enabled(asks, w, t) && Run(q, asks, Next(q, asks, w, t), turns, last)
    ensures Run(q, asks, w, [t] + turns, last)
  {
    assert ([t] + turns)[1..] == turns;
  }

  /** Two callers have read the clock on day d, the third one on the day after, and then they take the lock. */
  lemma LateLocks(q: Quota, ask: Ask, now: int, d: int) returns (turns: seq<Turn>, last: World)
    ensures var asks, r := [ask, ask, ask], (day: int) => Request(ask.kind, ask.n, day);
            && Run(q, asks, World(now, NEW_GATE, [Dated(d), Dated(d), Dated(d + 1)], []), turns, last)
            && last.served == [r(d), r(d + 1), r(d)]
  {
    var asks, r := [ask, ask, ask], (day: int) => Request(ask.kind, ask.n, day);
    var w4 := World(now, NEW_GATE, [Dated(d), Dated(d), Dated(d + 1)], []);
    var w5 := Next(q, asks, w4, Lock(0));
    assert w5.callers == [Served, Dated(d), Dated(d + 1)] && w5.served == [r(d)];
    var w6 := Next(q, asks, w5, Lock(2));
    assert w6.callers == [Served, Dated(d), Served] && w6.served == [r(d), r(d + 1)];
    last := Next(q, asks, w6, Lock(1));
    turns := [];
    RunOne(q, asks, w6, Lock(1), turns, last);
    turns := [Lock(1)] + turns;
    RunOne(q, asks, w5, Lock(2), turns, last);
    turns := [Lock(2)] + turns;
    RunOne(q, asks, w4, Lock(0), turns, last);
    turns := [Lock(0)] + turns;
  }

  /** Three callers around a day boundary: the second one takes the lock after the day has moved on. */
  lemma StaleRun(q: Quota, now: int, ask: Ask) returns (turns: seq<Turn>, last: World)
    ensures Run(q, [ask, ask, ask], Start(now, 3), turns, last)
    ensures var d := ChallengeDay(now);
            var r := (day: int) => Request(ask.kind, ask.n, day);
            last.served == [r(d), r(d + 1), r(d)]
  {
    var asks, d := [ask, ask, ask], ChallengeDay(now);
    var w0 := Start(now, 3);
    var w1 := World(now, NEW_GATE, [Dated(d), Waiting, Waiting], []);
    var w2 := World(now, NEW_GATE, [Dated(d), Dated(d), Waiting], []);
    var w3 := World(now + DAY_SECONDS, NEW_GATE, [Dated(d), Dated(d), Waiting], []);
    var w4 := World(now + DAY_SECONDS, NEW_GATE, [Dated(d), Dated(d), Dated(d + 1)], []);
    assert Next(q, asks, w0, ReadClock(0)) == w1 && Next(q, asks, w1, ReadClock(1)) == w2;
    assert Next(q, asks, w2, Wait(DAY_SECONDS)) == w3 && Next(q, asks, w3, ReadClock(2)) == w4;
    turns, last := LateLocks(q, ask, now + DAY_SECONDS, d);
    RunOne(q, asks, w3, ReadClock(2), turns, last);
    turns := [ReadClock(2)] + turns;
    RunOne(q, asks, w2, Wait(DAY_SECONDS), turns, last);
    turns := [Wait(DAY_SECONDS)] + turns;
    RunOne(q, asks, w1, ReadClock(1), turns, last);
    turns := [ReadClock(1)] + turns;
    RunOne(q, asks, w0, ReadClock(0), turns, last);
    turns := [ReadClock(0)] + turns;
  }

  /** Every positive quota can be exceeded twofold, from every moment on. */
  lemma StaleReadsOverGrant(q: Quota, kind: Kind, now: int) returns (asks: seq<Ask>, turns: seq<Turn>, last: World)
    requires Limit(q, kind) > 0
    ensures Run(q, asks, Start(now, 3), turns, last)
    ensures Granted(q, NEW_GATE, last.served, kind, ChallengeDay(now)) >= 2 * Limit(q, kind)
  {
    var d, ask := ChallengeDay(now), Ask(kind, Limit(q, kind));
    asks := [ask, ask, ask];
    turns, last := StaleRun(q, now, ask);
    var days := [d, d + 1, d];
    assert last.served == AskAll(kind, Limit(q, kind), days);
    TwoBlocks(q, NEW_GATE, days, kind, 0, 2);
  }

  // ---- without the race ----

  /** No caller takes the lock on another day than the one it read. */
  ghost predicate Punctual(q: Quota, asks: seq<Ask>, w: World, turns: seq<Turn>)
    decreases |turns|
  {
    turns != [] && Enabled(asks, w, turns[0]) ==>
      && (turns[0].Lock? ==> w.callers[turns[0].i].day == ChallengeDay(w.now))
      && Punctual(q, asks, Next(q, asks, w, turns[0]), turns[1..])
  }

  /** The gate is the fold of the requests served, whose days ascend up to the present one. */
  ghost predicate InStep(q: Quota, w: World) {
    && w.gate == After(q, NEW_GATE, w.served)
    && Ascending(Days(w.served))
    && forall d :: d in Days(w.served) ==> d <= ChallengeDay(w.now)
  }

  lemma TurnKeepsInStep(q: Quota, asks: seq<Ask>, w: World, t: Turn)
    requires InStep(q, w) && Enabled(asks, w, t)
    requires t.Lock? ==> w.callers[t.i].day == ChallengeDay(w.now)
    ensures InStep(q, Next(q, asks, w, t))
  {
    var w' := Next(q, asks, w, t);
    match t
    case Wait(_) => DayStartsAtFourUtc(w.now, ChallengeDay(w.now));
    case ReadClock(_) =>
    case Lock(_) =>
      assert w'.served[..|w.served|] == w.served;
      var days := Days(w.served);
      assert forall i :: 0 <= i < |days| ==> days[i] in days;
      assert Days(w'.served) == days + [ChallengeDay(w.now)];
  }

  lemma {:induction false} RunKeepsInStep(q: Quota, asks: seq<Ask>, w: World, turns: seq<Turn>, last: World)
    requires InStep(q, w) && Run(q, asks, w, turns, last) && Punctual(q, asks, w, turns)
    ensures InStep(q, last)
    decreases |turns|
  {
    if turns == [] {
    } else {
      TurnKeepsInStep(q, asks, w, turns[0]);
      RunKeepsInStep(q, asks, Next(q, asks, w, turns[0]), turns[1..], last);
    }
  }

  /** The race is the only way: as long as every lock is taken on the day that was read, every quota holds. */
  lemma PunctualRunsKeepQuota(q: Quota, asks: seq<Ask>, now: int, callers: nat, turns: seq<Turn>, last: World,
                              kind: Kind, d: int)
    requires Limit(q, kind) > 0
    requires Run(q, asks, Start(now, callers), turns, last) && Punctual(q, asks, Start(now, callers), turns)
    ensures last.gate == After(q, NEW_GATE, last.served)
    ensures Granted(q, NEW_GATE, last.served, kind, d) <= Limit(q, kind)
  {
    RunKeepsInStep(q, asks, Start(now, callers), turns, last);
    QuotaHolds(q, last.served, kind, d);
  }
}
