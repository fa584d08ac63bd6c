/**
 The submission slots: concurrent CreateSimulation / CreateMultiSimulation
 calls as interleaved steps over one counting channel
 (pkg/brainapi/client.go, pkg/brainapi/simulations.go).
 */
module Slots {

  datatype Phase =
    | Start                    // validated, before the budget gate
    | Queued                   // waiting for a slot
    | Holding                  // inside do, slot held, before the context check of an attempt
    | Sending                  // past that check, the round trip not yet made
    | Leaving                  // do has returned, the deferred release is pending
    | Done

  /** One call: its context, and how often it took a slot, gave it back and reached the network. */
  datatype Call = Call(phase: Phase, cancelled: bool, acquired: nat, released: nat, posts: nat)

  /** `held` is the number of tokens in the channel. */
  datatype World = World(held: int, calls: seq<Call>)

  const NEW_CALL := Call(Start, false, 0, 0, 0)

  datatype Action =
    | Cancel        // the caller's context ends
    | Admit         // the budget gate lets the call through
    | Refuse        // the budget gate is exhausted
    | Acquire       // select: a slot was free
    | GiveUp        // select: the context was done
    | Check         // the loop of do finds the context alive
    | Send          // one round trip, whatever has become of the context since
    | Finish        // do returns, with a response or an error of any kind
    | Release

  predicate Enabled(cap: int, w: World, i: nat, a: Action) {
    && i < |w.calls|
    && var c := w.calls[i];
       match a
       case Cancel => !c.cancelled && c.phase != Done
       case Admit => c.phase == Start
       case Refuse => c.phase == Start
       case Acquire => c.phase == Queued && w.held < cap
       case GiveUp => c.phase == Queued && c.cancelled
       case Check => c.phase == Holding && !c.cancelled
       case Send => c.phase == Sending
       case Finish => c.phase == Holding
       case Release => c.phase == Leaving && w.held > 0
  }

  function Moved(c: Call, a: Action): Call {
    match a
    case Cancel => c.(cancelled := true)
    case Admit => c.(phase := Queued)
    case Refuse => c.(phase := Done)
    case Acquire => c.(phase := Holding, acquired := c.acquired + 1)
    case GiveUp => c.(phase := Done)
    case Check => c.(phase := Sending)
    case Send => c.(phase := Holding, posts := c.posts + 1)
    case Finish => c.(phase := Leaving)
    case Release => c.(phase := Done, released := c.released + 1)
  }

  function Next(w: World, i: nat, a: Action): World
    requires i < |w.calls|
  {
    World(
      w.held + (if a == Acquire then 1 else if a == Release then -1 else 0),
      w.calls[i := Moved(w.calls[i], a)])
  }

  datatype Step = Step(call: nat, action: Action)

  /** A run is a sequence of steps, each enabled where it is taken. */
  ghost predicate Run(cap: int, w: World, steps: seq<Step>, last: World)
    decreases |steps|
  {
    if steps == [] then w == last
    else
      && Enabled(cap, w, steps[0].call, steps[0].action)
      && Run(cap, Next(w, steps[0].call, steps[0].action), steps[1..], last)
  }

  predicate Holds(c: Call) {
    c.phase == Holding || c.phase == Sending || c.phase == Leaving
  }

  function Holders(calls: seq<Call>): nat {
    if calls == [] then 0 else (if Holds(calls[0]) then 1 else 0) + Holders(calls[1..])
  }

  lemma {:induction false} HoldersUpdate(calls: seq<Call>, i: nat, c: Call)
    requires i < |calls|
    ensures Holders(calls[i := c]) == Holders(calls) - (if Holds(calls[i]) then 1 else 0) + (if Holds(c) then 1 else 0)
  {
    if i == 0 {
      assert calls[i := c][1..] == calls[1..];
    } else {
      assert calls[i := c][1..] == calls[1..][i - 1 := c];
      HoldersUpdate(calls[1..], i - 1, c);
    }
  }

  lemma {:induction false} SomeHolder(calls: seq<Call>) returns (i: nat)
    requires Holders(calls) > 0
    ensures i < |calls| && Holds(calls[i])
  {
    if Holds(calls[0]) {
      i := 0;
    } else {
      var j := SomeHolder(calls[1..]);
      i := j + 1;
    }
  }

  /** The account of one call: a slot is held between acquire and release, taken and given back at most once. */
  predicate Accounted(c: Call) {
    && c.acquired - c.released == (if Holds(c) then 1 else 0)
    && c.acquired <= 1
    && (c.phase == Start || c.phase == Queued ==> c.acquired == 0)
    && (c.posts > 0 ==> c.acquired == 1)
  }

  ghost predicate Inv(cap: int, w: World) {
    && w.held == Holders(w.calls) <= cap
    && forall i :: 0 <= i < |w.calls| ==> Accounted(w.calls[i])
  }

  lemma StepKeepsInv(cap: int, w: World, i: nat, a: Action)
    requires Inv(cap, w) && Enabled(cap, w, i, a)
    ensures Inv(cap, Next(w, i, a))
  {
    HoldersUpdate(w.calls, i, Moved(w.calls[i], a));
  }

  lemma {:induction false} RunKeepsInv(cap: int, w: World, steps: seq<Step>, last: World)
    requires Inv(cap, w) && Run(cap, w, steps, last)
    ensures Inv(cap, last) && |last.calls| == |w.calls|
    decreases |steps|
  {
    if steps == [] {
    } else {
      StepKeepsInv(cap, w, steps[0].call, steps[0].action);
      RunKeepsInv(cap, Next(w, steps[0].call, steps[0].action), steps[1..], last);
    }
  }

  function Initial(n: nat): World {
    World(0, seq(n, _ => NEW_CALL))
  }

  lemma {:induction false} NobodyHolds(calls: seq<Call>)
    requires forall c :: c in calls ==> c == NEW_CALL
    ensures Holders(calls) == 0
  {
    if calls == [] {
    } else {
      assert calls[0] in calls && forall c :: c in calls[1..] ==> c in calls;
      NobodyHolds(calls[1..]);
    }
  }

  lemma ReachableInv(cap: int, n: nat, steps: seq<Step>, w: World)
    requires cap >= 0 && Run(cap, Initial(n), steps, w)
    ensures Inv(cap, w)
  {
    NobodyHolds(Initial(n).calls);
    RunKeepsInv(cap, Initial(n), steps, w);
  }

  /**
   In every reachable state of any number of concurrent calls the tokens in the
   channel are exactly the calls between acquire and release, never more than
   its capacity; a finished call gave back what it took, and only a call that
   took a slot ever posted.
   */
  lemma SlotsAreConserved(cap: int, n: nat, steps: seq<Step>, w: World)
    requires cap >= 0 && Run(cap, Initial(n), steps, w)
    ensures w.held == Holders(w.calls) <= cap
    ensures forall i :: 0 <= i < |w.calls| && w.calls[i].phase == Done ==>
              w.calls[i].released == w.calls[i].acquired <= 1
    ensures forall i :: 0 <= i < |w.calls| && w.calls[i].posts > 0 ==> w.calls[i].acquired == 1
  {
    ReachableInv(cap, n, steps, w);
  }

  lemma {:induction false} LeavingHolds(calls: seq<Call>, i: nat)
    requires i < |calls| && Holds(calls[i])
    ensures Holders(calls) > 0
  {
    if i == 0 {
    } else {
      LeavingHolds(calls[1..], i - 1);
    }
  }

  lemma SomeoneMoves(cap: int, w: World, i: nat) returns (k: nat, a: Action)
    requires cap > 0 && Inv(cap, w) && i < |w.calls| && w.calls[i].phase != Done
    ensures a != Cancel && Enabled(cap, w, k, a)
  {
    k := i;
    match w.calls[i].phase
    case Start => a := Admit;
    case Holding => a := Finish;
    case Sending => a := Send;
    case Leaving =>
      LeavingHolds(w.calls, i);
      a := Release;
    case Queued =>
      if w.held < cap {
        a := Acquire;
      } else {
        k := SomeHolder(w.calls);
        a := match w.calls[k].phase case Holding => Finish case Sending => Send case _ => Release;
      }
  }

  /** Nobody waits for ever: unless all calls are done, some call other than a cancellation can move. */
  lemma SlotsNeverDeadlock(cap: int, n: nat, steps: seq<Step>, w: World) returns (k: nat, a: Action)
    requires cap > 0 && Run(cap, Initial(n), steps, w)
    requires exists i :: 0 <= i < |w.calls| && w.calls[i].phase != Done
    ensures a != Cancel && Enabled(cap, w, k, a)
  {
    ReachableInv(cap, n, steps, w);
    var i :| 0 <= i < |w.calls| && w.calls[i].phase != Done;
    k, a := SomeoneMoves(cap, w, i);
  }

  /** The round trip a call has already checked its context for. */
  function Committed(c: Call): nat {
    if c.phase == Sending then 1 else 0
  }

  lemma {:induction false} CancelledStays(cap: int, w: World, steps: seq<Step>, last: World, i: nat)
    requires Inv(cap, w) && Run(cap, w, steps, last)
    requires i < |w.calls| && w.calls[i].cancelled
    ensures i < |last.calls| && last.calls[i].cancelled
    ensures w.calls[i].posts <= last.calls[i].posts
    ensures last.calls[i].posts + Committed(last.calls[i]) <= w.calls[i].posts + Committed(w.calls[i])
    decreases |steps|
  {
    if steps == [] {
    } else {
      StepKeepsInv(cap, w, steps[0].call, steps[0].action);
      CancelledStays(cap, Next(w, steps[0].call, steps[0].action), steps[1..], last, i);
    }
  }

  /**
   A cancelled call makes at most the one round trip it had already checked its
   context for. Cancelled while queued it makes none, whether or not it still
   takes a slot.
   */
  lemma CancelledSends(cap: int, n: nat, before: seq<Step>, w: World, after: seq<Step>, last: World, i: nat)
    requires cap >= 0 && Run(cap, Initial(n), before, w) && Run(cap, w, after, last)
    requires i < |w.calls| && w.calls[i].cancelled
    ensures i < |last.calls|
    ensures w.calls[i].posts <= last.calls[i].posts <= w.calls[i].posts + Committed(w.calls[i])
    ensures w.calls[i].phase == Queued ==> last.calls[i].posts == 0
  {
    ReachableInv(cap, n, before, w);
    CancelledStays(cap, w, after, last, i);
  }

  lemma RunOne(cap: int, w: World, i: nat, a: Action, steps: seq<Step>, last: World)
    requires Enabled(cap, w, i, a) && Run(cap, Next(w, i, a), steps, last)
    ensures Run(cap, w, [Step(i, a)] + steps, last)
  {
    assert ([Step(i, a)] + steps)[1..] == steps;
  }

  /** That one late round trip does happen. */
  lemma LateSend(cap: int) returns (before: seq<Step>, w: World, last: World)
    requires cap > 0
    ensures Run(cap, Initial(1), before, w) && |w.calls| == 1 && w.calls[0].cancelled && w.calls[0].posts == 0
    ensures Run(cap, w, [Step(0, Send)], last) && |last.calls| == 1 && last.calls[0].posts == 1
  {
    var w0 := Initial(1);
    var w1 := World(0, [Call(Queued, false, 0, 0, 0)]);
    var w2 := World(1, [Call(Holding, false, 1, 0, 0)]);
    var w3 := World(1, [Call(Sending, false, 1, 0, 0)]);
    w := World(1, [Call(Sending, true, 1, 0, 0)]);
    last := World(1, [Call(Holding, true, 1, 0, 1)]);
    assert Next(w0, 0, Admit) == w1 && Next(w1, 0, Acquire) == w2 && Next(w2, 0, Check) == w3;
    assert Next(w3, 0, Cancel) == w && Next(w, 0, Send) == last;
    RunOne(cap, w, 0, Send, [], last);
    assert [Step(0, Send)] + [] == [Step(0, Send)];
    before := [];
    RunOne(cap, w3, 0, Cancel, before, w);
    before := [Step(0, Cancel)] + before;
    RunOne(cap, w2, 0, Check, before, w);
    before := [Step(0, Check)] + before;
    RunOne(cap, w1, 0, Acquire, before, w);
    before := [Step(0, Acquire)] + before;
    RunOne(cap, w0, 0, Admit, before, w);
    before := [Step(0, Admit)] + before;
  }
}
