/** Long-poll ticks and error retries are budgeted apart: ticks can be erased from a trace. */
module LongPoll {
  import opened Wrappers
  import opened Retry
  import opened Transport

  function TicksIn(h: Hints, feed: seq<Reply>): nat {
    if feed == [] then 0
    else (if Classify(h, feed[0]) == Tick then 1 else 0) + TicksIn(h, feed[1..])
  }

  function WithoutTicks(h: Hints, feed: seq<Reply>): seq<Reply> {
    if feed == [] then []
    else (if Classify(h, feed[0]) == Tick then [] else [feed[0]]) + WithoutTicks(h, feed[1..])
  }

  predicate IsTick(e: Event) {
    Classify(e.hints, e.reply) == Tick
  }

  function TicksLogged(log: seq<Event>): nat {
    if log == [] then 0 else (if IsTick(log[0]) then 1 else 0) + TicksLogged(log[1..])
  }

  /** The error retries, logins and final answers of a log, with their sleeps. */
  function LogWithoutTicks(log: seq<Event>): seq<Event> {
    if log == [] then [] else (if IsTick(log[0]) then [] else [log[0]]) + LogWithoutTicks(log[1..])
  }

  lemma {:induction false} TicksLoggedConcat(a: seq<Event>, b: seq<Event>)
    ensures TicksLogged(a + b) == TicksLogged(a) + TicksLogged(b)
    ensures LogWithoutTicks(a + b) == LogWithoutTicks(a) + LogWithoutTicks(b)
  {
    if a == [] {
      assert a + b == b;
    } else {
      assert (a + b)[1..] == a[1..] + b;
      TicksLoggedConcat(a[1..], b);
    }
  }

  predicate NoTicks(log: seq<Event>) {
    forall e :: e in log ==> !IsTick(e)
  }

  lemma {:induction false} NoTicksUnchanged(log: seq<Event>)
    requires NoTicks(log)
    ensures TicksLogged(log) == 0 && LogWithoutTicks(log) == log
  {
    if log == [] {
    } else {
      assert forall e :: e in log[1..] ==> e in log;
      NoTicksUnchanged(log[1..]);
    }
  }

  /** A reply that cannot be a tick is none; only a login's log may follow it. */
  lemma PlainAttempt(cfg: Config, sh: Shared, st: Counters, r: Reply)
    ensures var j := Evaluate(cfg, LOGIN_HINTS, sh, st, r, []);
            && Classify(LOGIN_HINTS, r) != Tick && j.nested == []
            && (j.dec.Terminal? ==> j.dec.out.err != LongPollExceeded)
  {
  }

  lemma {:induction false} LoginLoopHasNoTicks(cfg: Config, sh: Shared, st: Counters, feed: seq<Reply>)
    ensures var r := Run(cfg, LOGIN_HINTS, sh, st, feed, []);
            NoTicks(r.log) && r.out.err != LongPollExceeded
    decreases |feed|
  {
    if feed == [] {
    } else {
      var j := Evaluate(cfg, LOGIN_HINTS, sh, st, feed[0], []);
      PlainAttempt(cfg, sh, st, feed[0]);
      if j.dec.RetryIn? {
        LoginLoopHasNoTicks(cfg, j.sh, j.st, feed[1..]);
      }
    }
  }

  lemma LoginHasNoTicks(cfg: Config, sh: Shared, email: string, password: string, feed: seq<Reply>)
    ensures var l := LoginRun(cfg, sh, email, password, feed);
            NoTicks(l.log) && l.err != LongPollExceeded
  {
    LoginUnfolded(cfg, sh, email, password, feed);
    LoginLoopHasNoTicks(cfg, sh, FRESH, feed);
  }

  /** Outside the tick class an attempt neither reads nor moves the tick counter. */
  lemma NonTickAttempt(cfg: Config, h: Hints, sh: Shared, st: Counters, r: Reply, seen: nat)
    requires Classify(h, r) != Tick
    ensures var a, b := Attempt(cfg, h, sh, st, r), Attempt(cfg, h, sh, st.(longPollSeen := seen), r);
            && b == a.(st := a.st.(longPollSeen := seen))
            && a.st.longPollSeen == st.longPollSeen
            && (a.dec.Terminal? ==> a.dec.out.err != LongPollExceeded)
            && (a.dec.Relogin? ==> a.sh == sh)
  {
  }

  /** Nor does the login it may nest. */
  lemma NonTick(cfg: Config, h: Hints, sh: Shared, st: Counters, r: Reply, login: seq<Reply>, seen: nat)
    requires Classify(h, r) != Tick
    ensures var j, k := Evaluate(cfg, h, sh, st, r, login), Evaluate(cfg, h, sh, st.(longPollSeen := seen), r, login);
            && k == j.(st := j.st.(longPollSeen := seen))
            && j.st.longPollSeen == st.longPollSeen
            && NoTicks(j.nested)
            && (j.dec.Terminal? ==> j.dec.out.err != LongPollExceeded)
  {
    NonTickAttempt(cfg, h, sh, st, r, seen);
    if Attempt(cfg, h, sh, st, r).dec.Relogin? {
      LoginHasNoTicks(cfg, sh, sh.email, sh.password, login);
    }
  }

  /** A call whose hints rule ticks out, whether or not it logs in again, never ticks and never hits the cap. */
  lemma {:induction false} PlainCallHasNoTicks(cfg: Config, h: Hints, sh: Shared, st: Counters, main: seq<Reply>,
                                               login: seq<Reply>)
    requires !CanTick(h)
    ensures var r := Run(cfg, h, sh, st, main, login);
            NoTicks(r.log) && r.out.err != LongPollExceeded
    decreases |main|
  {
    if main == [] {
    } else {
      var j := Evaluate(cfg, h, sh, st, main[0], login);
      NonTick(cfg, h, sh, st, main[0], login, 0);
      if j.dec.RetryIn? {
        PlainCallHasNoTicks(cfg, h, j.sh, j.st, main[1..], login);
      }
    }
  }

  /** A call fails with ErrLongPollExceeded exactly when its log holds more ticks than the cap allows. */
  lemma {:induction false} ExceededIffTooManyTicks(cfg: Config, h: Hints, sh: Shared, st: Counters, main: seq<Reply>,
                                                   login: seq<Reply>)
    requires st.longPollSeen <= Max0(Cap(cfg, h))
    ensures var r := Run(cfg, h, sh, st, main, login);
            && TicksLogged(r.log) <= TicksIn(h, main)
            && (r.out.err == LongPollExceeded <==> st.longPollSeen + TicksLogged(r.log) > Max0(Cap(cfg, h)))
    decreases |main|
  {
    if main == [] {
    } else {
      var j := Evaluate(cfg, h, sh, st, main[0], login);
      var here := [Event(h, main[0], j.dec)];
      if Classify(h, main[0]) != Tick {
        NonTick(cfg, h, sh, st, main[0], login, 0);
        NoTicksUnchanged(j.nested);
      } else {
        assert j.nested == [];
      }
      TicksLoggedConcat(here, j.nested);
      if j.dec.RetryIn? {
        ExceededIffTooManyTicks(cfg, h, j.sh, j.st, main[1..], login);
        TicksLoggedConcat(here + j.nested, Run(cfg, h, j.sh, j.st, main[1..], login).log);
      }
    }
  }

  lemma {:induction false} ErasedRun(cfg: Config, h: Hints, sh: Shared, st: Counters, main: seq<Reply>,
                                     login: seq<Reply>)
    requires Run(cfg, h, sh, st, main, login).out.err != LongPollExceeded
    ensures var r := Run(cfg, h, sh, st, main, login);
            Run(cfg, h, sh, st.(longPollSeen := 0), WithoutTicks(h, main), login)
              == Result(r.out, r.sh, LogWithoutTicks(r.log))
    decreases |main|
  {
    if main == [] {
    } else {
      var j := Evaluate(cfg, h, sh, st, main[0], login);
      var here := [Event(h, main[0], j.dec)];
      if Classify(h, main[0]) == Tick {
        assert j.nested == [] && j.sh == sh;
        ErasedRun(cfg, h, j.sh, j.st, main[1..], login);
        TicksLoggedConcat(here, Run(cfg, h, j.sh, j.st, main[1..], login).log);
        assert WithoutTicks(h, main) == WithoutTicks(h, main[1..]);
        assert LogWithoutTicks(here) == [];
      } else {
        NonTick(cfg, h, sh, st, main[0], login, 0);
        NoTicksUnchanged(j.nested);
        TicksLoggedConcat(here, j.nested);
        var rest := WithoutTicks(h, main[1..]);
        assert WithoutTicks(h, main) == [main[0]] + rest;
        assert ([main[0]] + rest)[1..] == rest;
        assert LogWithoutTicks(here + j.nested) == here + j.nested;
        if j.dec.RetryIn? {
          ErasedRun(cfg, h, j.sh, j.st, main[1..], login);
          TicksLoggedConcat(here + j.nested, Run(cfg, h, j.sh, j.st, main[1..], login).log);
        }
      }
    }
  }

  // ---- the same, read off the trace ----

  /**
   The first i replies hold more ticks than the cap still allows, and the others
   among them leave the call undecided.
   */
  predicate Overruns(cfg: Config, h: Hints, sh: Shared, st: Counters, main: seq<Reply>, login: seq<Reply>, i: nat)
    requires i <= |main|
  {
    && st.longPollSeen + TicksIn(h, main[..i]) > Max0(Cap(cfg, h))
    && Run(cfg, h, sh, st.(longPollSeen := 0), WithoutTicks(h, main[..i]), login).out == Outcome(None, Cancelled)
  }

  lemma PrefixStep(h: Hints, main: seq<Reply>, i: nat)
    requires 0 < i <= |main|
    ensures var rest := main[1..][..i - 1];
            && main[..i] == [main[0]] + rest
            && TicksIn(h, main[..i]) == (if Classify(h, main[0]) == Tick then 1 else 0) + TicksIn(h, rest)
            && WithoutTicks(h, main[..i])
               == (if Classify(h, main[0]) == Tick then [] else [main[0]]) + WithoutTicks(h, rest)
  {
    assert main[..i] == [main[0]] + main[1..][..i - 1];
    assert main[..i][1..] == main[1..][..i - 1];
  }

  lemma OverrunsPastTick(cfg: Config, h: Hints, sh: Shared, st: Counters, main: seq<Reply>, login: seq<Reply>, i: nat)
    requires 0 < i <= |main| && Classify(h, main[0]) == Tick
    ensures var st' := st.(longPollSeen := st.longPollSeen + 1);
            Overruns(cfg, h, sh, st, main, login, i) <==> Overruns(cfg, h, sh, st', main[1..], login, i - 1)
  {
    PrefixStep(h, main, i);
    assert [] + WithoutTicks(h, main[1..][..i - 1]) == WithoutTicks(h, main[1..][..i - 1]);
  }

  lemma FirstReplyDecides(cfg: Config, h: Hints, sh: Shared, st: Counters, r: Reply, rest: seq<Reply>,
                          login: seq<Reply>)
    ensures var j := Evaluate(cfg, h, sh, st, r, login);
            var out := Run(cfg, h, sh, st, [r] + rest, login).out;
            if j.dec.Terminal? then out == j.dec.out != Outcome(None, Cancelled)
            else out == Run(cfg, h, j.sh, j.st, rest, login).out
  {
    assert ([r] + rest)[1..] == rest;
  }

  lemma OverrunsPastOther(cfg: Config, h: Hints, sh: Shared, st: Counters, main: seq<Reply>, login: seq<Reply>, i: nat)
    requires 0 < i <= |main| && Classify(h, main[0]) != Tick
    ensures var j := Evaluate(cfg, h, sh, st, main[0], login);
            Overruns(cfg, h, sh, st, main, login, i) <==>
            j.dec.RetryIn? && Overruns(cfg, h, j.sh, j.st, main[1..], login, i - 1)
  {
    PrefixStep(h, main, i);
    NonTick(cfg, h, sh, st, main[0], login, 0);
    FirstReplyDecides(cfg, h, sh, st.(longPollSeen := 0), main[0], WithoutTicks(h, main[1..][..i - 1]), login);
  }

  lemma NoOverrunAtStart(cfg: Config, h: Hints, sh: Shared, st: Counters, main: seq<Reply>, login: seq<Reply>)
    requires st.longPollSeen <= Max0(Cap(cfg, h))
    ensures !Overruns(cfg, h, sh, st, main, login, 0)
  {
  }

  lemma OverrunAtOnce(cfg: Config, h: Hints, sh: Shared, st: Counters, main: seq<Reply>, login: seq<Reply>)
    requires main != [] && Classify(h, main[0]) == Tick && st.longPollSeen + 1 > Max0(Cap(cfg, h))
    ensures Overruns(cfg, h, sh, st, main, login, 1)
  {
    PrefixStep(h, main, 1);
    assert WithoutTicks(h, main[..1]) == [];
  }

  lemma StepOfTrace(cfg: Config, h: Hints, sh: Shared, st: Counters, main: seq<Reply>, login: seq<Reply>)
    requires main != [] && st.longPollSeen <= Max0(Cap(cfg, h))
    requires Classify(h, main[0]) == Tick ==> st.longPollSeen + 1 <= Max0(Cap(cfg, h))
    ensures var j := Evaluate(cfg, h, sh, st, main[0], login);
            var out := Run(cfg, h, sh, st, main, login).out;
            && (Classify(h, main[0]) == Tick ==>
                  j.dec.RetryIn? && j.sh == sh && j.st == st.(longPollSeen := st.longPollSeen + 1))
            && (if j.dec.RetryIn? then
                  j.st.longPollSeen <= Max0(Cap(cfg, h)) && out == Run(cfg, h, j.sh, j.st, main[1..], login).out
                else out.err != LongPollExceeded)
  {
    if Classify(h, main[0]) != Tick {
      NonTick(cfg, h, sh, st, main[0], login, 0);
    }
  }

  /** Overruns of a trace are those of its rest, one reply later. */
  lemma OverrunShifts(cfg: Config, h: Hints, sh: Shared, st: Counters, main: seq<Reply>, login: seq<Reply>)
    requires main != [] && st.longPollSeen <= Max0(Cap(cfg, h))
    requires Classify(h, main[0]) == Tick ==> st.longPollSeen + 1 <= Max0(Cap(cfg, h))
    ensures var j := Evaluate(cfg, h, sh, st, main[0], login);
            (exists i: nat :: i <= |main| && Overruns(cfg, h, sh, st, main, login, i)) <==>
            && j.dec.RetryIn?
            && exists i: nat :: i <= |main[1..]| && Overruns(cfg, h, j.sh, j.st, main[1..], login, i)
  {
    var j := Evaluate(cfg, h, sh, st, main[0], login);
    StepOfTrace(cfg, h, sh, st, main, login);
    NoOverrunAtStart(cfg, h, sh, st, main, login);
    forall i: nat | 0 < i <= |main|
      ensures Overruns(cfg, h, sh, st, main, login, i) <==>
              j.dec.RetryIn? && Overruns(cfg, h, j.sh, j.st, main[1..], login, i - 1)
    {
      if Classify(h, main[0]) == Tick {
        OverrunsPastTick(cfg, h, sh, st, main, login, i);
      } else {
        OverrunsPastOther(cfg, h, sh, st, main, login, i);
      }
    }
    if j.dec.RetryIn? {
      if i: nat :| i <= |main[1..]| && Overruns(cfg, h, j.sh, j.st, main[1..], login, i) {
        assert Overruns(cfg, h, sh, st, main, login, i + 1);
      }
    }
  }

  /**
   Which traces exceed the cap: those with a beginning that holds more ticks than
   the cap and whose other replies would leave the call undecided.
   */
  lemma {:induction false} ExceededIffOverrun(cfg: Config, h: Hints, sh: Shared, st: Counters, main: seq<Reply>,
                                              login: seq<Reply>)
    requires st.longPollSeen <= Max0(Cap(cfg, h))
    ensures (Run(cfg, h, sh, st, main, login).out.err == LongPollExceeded) <==>
            exists i: nat :: i <= |main| && Overruns(cfg, h, sh, st, main, login, i)
    decreases |main|
  {
    NoOverrunAtStart(cfg, h, sh, st, main, login);
    if main == [] {
    } else if Classify(h, main[0]) == Tick && st.longPollSeen + 1 > Max0(Cap(cfg, h)) {
      OverrunAtOnce(cfg, h, sh, st, main, login);
    } else {
      var j := Evaluate(cfg, h, sh, st, main[0], login);
      StepOfTrace(cfg, h, sh, st, main, login);
      if j.dec.RetryIn? {
        ExceededIffOverrun(cfg, h, j.sh, j.st, main[1..], login);
      }
      OverrunShifts(cfg, h, sh, st, main, login);
    }
  }

  lemma {:induction false} NoTicksLeft(h: Hints, main: seq<Reply>)
    ensures TicksIn(h, WithoutTicks(h, main)) == 0
  {
    if main == [] {
    } else {
      NoTicksLeft(h, main[1..]);
      var rest := WithoutTicks(h, main[1..]);
      if Classify(h, main[0]) != Tick {
        assert ([main[0]] + rest)[1..] == rest;
      } else {
        assert WithoutTicks(h, main) == rest;
      }
    }
  }

  /**
   Long-poll erasure, exactly: deleting the ticks of a trace leaves the answer,
   the other round trips with their sleeps, the 403 streak and the ban flag as
   they were if and only if the call does not end in ErrLongPollExceeded, that
   is, unless some beginning of the trace overruns the cap.
   */
  lemma ErasureIff(cfg: Config, h: Hints, sh: Shared, main: seq<Reply>, login: seq<Reply>)
    ensures var r := Do(cfg, h, sh, main, login);
            var e := Do(cfg, h, sh, WithoutTicks(h, main), login);
            e == Result(r.out, r.sh, LogWithoutTicks(r.log)) <==> r.out.err != LongPollExceeded
    ensures (Do(cfg, h, sh, main, login).out.err == LongPollExceeded) <==>
            !sh.banned && exists i: nat :: i <= |main| && Overruns(cfg, h, sh, FRESH, main, login, i)
  {
    if !sh.banned {
      ExceededIffOverrun(cfg, h, sh, FRESH, main, login);
      var r := Run(cfg, h, sh, FRESH, main, login);
      if r.out.err != LongPollExceeded {
        ErasedRun(cfg, h, sh, FRESH, main, login);
      } else {
        NoTicksLeft(h, main);
        ExceededIffTooManyTicks(cfg, h, sh, FRESH, WithoutTicks(h, main), login);
      }
    }
  }

  /** In particular a trace with at most cap ticks can be erased. */
  lemma ErasureWithinCap(cfg: Config, h: Hints, sh: Shared, main: seq<Reply>, login: seq<Reply>)
    requires TicksIn(h, main) <= Max0(Cap(cfg, h))
    ensures var r := Do(cfg, h, sh, main, login);
            Do(cfg, h, sh, WithoutTicks(h, main), login) == Result(r.out, r.sh, LogWithoutTicks(r.log))
  {
    ErasureIff(cfg, h, sh, main, login);
    ExceededIffTooManyTicks(cfg, h, sh, FRESH, main, login);
  }
}
