/** How long a call can last. */
module RunBounds {
  import opened Wrappers
  import opened Retry
  import opened Transport

  function SleepOf(log: seq<Event>): int {
    if log == [] then 0
    else (if log[0].dec.RetryIn? then log[0].dec.sleep else 0) + SleepOf(log[1..])
  }

  lemma {:induction false} SleepOfConcat(a: seq<Event>, b: seq<Event>)
    ensures SleepOf(a + b) == SleepOf(a) + SleepOf(b)
  {
    if a == [] {
      assert a + b == b;
    } else {
      assert (a + b)[1..] == a[1..] + b;
      SleepOfConcat(a[1..], b);
    }
  }

  /** The most round trips, and the longest total sleep, the counters still allow. */
  function TripsLeft(cfg: Config, h: Hints, st: Counters): nat {
    Budget(cfg, h, st) + 1 + if LoginsLeft(h, st) == 0 then 0 else Max0(cfg.maxRetries) + 1
  }

  function SleepLeft(cfg: Config, h: Hints, st: Counters): nat {
    RATE_LIMIT_CEILING * (ErrorsLeft(cfg, st) + if LoginsLeft(h, st) == 0 then 0 else Max0(cfg.maxRetries))
    + LONG_POLL_CEILING * PollsLeft(cfg, h, st)
  }

  lemma RetrySleep(cfg: Config, h: Hints, sh: Shared, st: Counters, r: Reply, login: seq<Reply>)
    ensures var j := Evaluate(cfg, h, sh, st, r, login);
            j.dec.RetryIn? ==>
              && (j.dec.kind == LongPollKind ==> LONG_POLL_FLOOR <= j.dec.sleep <= LONG_POLL_CEILING)
              && (j.dec.kind == UnauthorizedKind ==> j.dec.sleep == 0)
              && (j.dec.kind != LongPollKind && j.dec.kind != UnauthorizedKind ==>
                    RATE_LIMIT_FLOOR <= j.dec.sleep <= RATE_LIMIT_CEILING)
  {
  }

  lemma PlainCost(cfg: Config, h: Hints, sh: Shared, st: Counters, r: Reply, login: seq<Reply>)
    requires !Attempt(cfg, h, sh, st, r).dec.Relogin?
    ensures var j := Evaluate(cfg, h, sh, st, r, login);
            && j.nested == []
            && (j.dec.RetryIn? ==>
                  && 1 + TripsLeft(cfg, h, j.st) <= TripsLeft(cfg, h, st)
                  && j.dec.sleep + SleepLeft(cfg, h, j.st) <= SleepLeft(cfg, h, st))
  {
    RetrySpendsOne(cfg, h, sh, st, r, login);
    RetrySleep(cfg, h, sh, st, r, login);
  }

  lemma ReloginCost(cfg: Config, h: Hints, sh: Shared, st: Counters, r: Reply, login: seq<Reply>)
    requires Attempt(cfg, h, sh, st, r).dec.Relogin?
    ensures var j := Evaluate(cfg, h, sh, st, r, login);
            && LoginsLeft(h, st) == 1
            && j.nested == LoginRun(cfg, sh, sh.email, sh.password, login).log
            && (j.dec.RetryIn? ==> j.dec.sleep == 0 && j.st == st.(relogged := true))
  {
  }

  lemma {:induction false} RunWithinBudget(cfg: Config, h: Hints, sh: Shared, st: Counters, main: seq<Reply>,
                                           login: seq<Reply>)
    ensures var r := Run(cfg, h, sh, st, main, login);
            && |r.log| <= TripsLeft(cfg, h, st)
            && SleepOf(r.log) <= SleepLeft(cfg, h, st)
    decreases Rank(h), 1, |main|
  {
    if main == [] {
    } else {
      var j := Evaluate(cfg, h, sh, st, main[0], login);
      var here := [Event(h, main[0], j.dec)];
      EvaluateCost(cfg, h, sh, st, main[0], login);
      SleepOfConcat(here, j.nested);
      if j.dec.RetryIn? {
        RunWithinBudget(cfg, h, j.sh, j.st, main[1..], login);
        SleepOfConcat(here + j.nested, Run(cfg, h, j.sh, j.st, main[1..], login).log);
      }
    }
  }

  /** One attempt, its sleep and its nested login are paid for by what the counters lose. */
  lemma EvaluateCost(cfg: Config, h: Hints, sh: Shared, st: Counters, r: Reply, login: seq<Reply>)
    ensures var j := Evaluate(cfg, h, sh, st, r, login);
            if j.dec.RetryIn? then
              && 1 + |j.nested| + TripsLeft(cfg, h, j.st) <= TripsLeft(cfg, h, st)
              && j.dec.sleep + SleepOf(j.nested) + SleepLeft(cfg, h, j.st) <= SleepLeft(cfg, h, st)
            else
              1 + |j.nested| <= TripsLeft(cfg, h, st) && SleepOf(j.nested) <= SleepLeft(cfg, h, st)
    decreases Rank(h), 0, 0
  {
    if Attempt(cfg, h, sh, st, r).dec.Relogin? {
      LoginCost(cfg, sh, sh.email, sh.password, login);
      ReloginCost(cfg, h, sh, st, r, login);
    } else {
      PlainCost(cfg, h, sh, st, r, login);
    }
  }

  lemma LoginCost(cfg: Config, sh: Shared, email: string, password: string, feed: seq<Reply>)
    ensures var l := LoginRun(cfg, sh, email, password, feed);
            |l.log| <= Max0(cfg.maxRetries) + 1 && SleepOf(l.log) <= RATE_LIMIT_CEILING * Max0(cfg.maxRetries)
    decreases 0, 2, 0
  {
    LoginUnfolded(cfg, sh, email, password, feed);
    RunWithinBudget(cfg, LOGIN_HINTS, sh, FRESH, feed, []);
  }

  lemma {:induction false} LongFeedIsNotExhausted(cfg: Config, h: Hints, sh: Shared, st: Counters, main: seq<Reply>,
                                                  login: seq<Reply>)
    requires |main| >= Budget(cfg, h, st) + 1
    requires LoginsLeft(h, st) == 1 ==> |login| >= Max0(cfg.maxRetries) + 1
    ensures Run(cfg, h, sh, st, main, login).out.err != Cancelled
    decreases Rank(h), 1, |main|
  {
    var j := Evaluate(cfg, h, sh, st, main[0], login);
    AttemptIsNotCancelled(cfg, h, sh, st, main[0], login);
    if j.dec.RetryIn? {
      LongFeedIsNotExhausted(cfg, h, j.sh, j.st, main[1..], login);
    }
  }

  lemma AttemptIsNotCancelled(cfg: Config, h: Hints, sh: Shared, st: Counters, r: Reply, login: seq<Reply>)
    requires LoginsLeft(h, st) == 1 ==> |login| >= Max0(cfg.maxRetries) + 1
    ensures var j := Evaluate(cfg, h, sh, st, r, login);
            if j.dec.Terminal? then j.dec.out.err != Cancelled
            else Budget(cfg, h, j.st) + 1 == Budget(cfg, h, st) && LoginsLeft(h, j.st) <= LoginsLeft(h, st)
    decreases Rank(h), 0, 0
  {
    RetrySpendsOne(cfg, h, sh, st, r, login);
    if Attempt(cfg, h, sh, st, r).dec.Relogin? {
      LoginUnfolded(cfg, sh, sh.email, sh.password, login);
      LongFeedIsNotExhausted(cfg, LOGIN_HINTS, sh, FRESH, login, []);
    }
  }

  /**
   Every call, with the login it may nest, ends after at most
   2*maxRetries + cap + 3 round trips and 240*maxRetries + 30*cap seconds of
   sleep, whatever the server answers; fewer when its hints rule out ticks or a
   login. A feed that long is never exhausted, so
   the call ends by its own decision.
   */
  lemma CallIsBounded(cfg: Config, h: Hints, sh: Shared, main: seq<Reply>, login: seq<Reply>)
    ensures var r := Do(cfg, h, sh, main, login);
            var retries, cap := Max0(cfg.maxRetries), Max0(Cap(cfg, h));
            && |r.log| <= 2 * retries + cap + 3
            && SleepOf(r.log) <= 240_000 * retries + 30_000 * cap
            && |r.log| <= TripsLeft(cfg, h, FRESH)
            && SleepOf(r.log) <= SleepLeft(cfg, h, FRESH)
            && (|main| >= retries + cap + 2 && |login| >= retries + 1 ==> r.out.err != Cancelled)
  {
    if !sh.banned {
      RunWithinBudget(cfg, h, sh, FRESH, main, login);
      if |main| >= Budget(cfg, h, FRESH) + 1 && |login| >= Max0(cfg.maxRetries) + 1 {
        LongFeedIsNotExhausted(cfg, h, sh, FRESH, main, login);
      }
    }
  }

  // ---- the bounds are attained ----

  function Times(r: Reply, n: nat): seq<Reply> {
    seq(n, _ => r)
  }

  const EMPTY_BODY := Body("", false, false, None, false, false, MalformedSession, Unparseable)
  const SLOWEST_429 := Response(429, EMPTY_BODY, Some(RATE_LIMIT_CEILING))
  const SLOWEST_503 := Response(503, EMPTY_BODY, Some(LONG_POLL_CEILING))
  const SLOWEST_200 := Response(200, EMPTY_BODY, Some(LONG_POLL_CEILING))
  const REFUSAL := Response(401, EMPTY_BODY, None)
  const SUCCESS := Response(200, EMPTY_BODY, None)

  /** A tick for a call with these hints, with the longest pause. */
  function SlowestTick(h: Hints): Reply {
    if h.longPoll200Empty then SLOWEST_200 else SLOWEST_503
  }

  datatype Gist = Gist(out: Outcome, sh: Shared, trips: nat, slept: int)

  function GistOf(cfg: Config, h: Hints, sh: Shared, st: Counters, main: seq<Reply>, login: seq<Reply>): Gist {
    var r := Run(cfg, h, sh, st, main, login);
    Gist(r.out, r.sh, |r.log|, SleepOf(r.log))
  }

  function Later(g: Gist, trips: nat, slept: int): Gist {
    g.(trips := g.trips + trips, slept := g.slept + slept)
  }

  lemma SlowStep(cfg: Config, h: Hints, sh: Shared, st: Counters, r: Reply, rest: seq<Reply>, login: seq<Reply>,
                 j: Judged)
    requires j == Evaluate(cfg, h, sh, st, r, login) && j.dec.RetryIn? && j.nested == []
    ensures GistOf(cfg, h, sh, st, [r] + rest, login) == Later(GistOf(cfg, h, j.sh, j.st, rest, login), 1, j.dec.sleep)
  {
    assert ([r] + rest)[1..] == rest;
    var y := Run(cfg, h, j.sh, j.st, rest, login);
    assert ([Event(h, r, j.dec)] + [] + y.log)[1..] == y.log;
  }

  lemma LimitedStep(cfg: Config, h: Hints, sh: Shared, st: Counters, rest: seq<Reply>, login: seq<Reply>)
    requires st.errAttempt < cfg.maxRetries
    ensures GistOf(cfg, h, sh, st, [SLOWEST_429] + rest, login)
         == Later(GistOf(cfg, h, sh, st.(errAttempt := st.errAttempt + 1), rest, login), 1, RATE_LIMIT_CEILING)
  {
    var j := Judged(RetryIn(RateLimitKind, RATE_LIMIT_CEILING), sh, st.(errAttempt := st.errAttempt + 1), []);
    assert j == Evaluate(cfg, h, sh, st, SLOWEST_429, login);
    SlowStep(cfg, h, sh, st, SLOWEST_429, rest, login, j);
  }

  lemma PolledStep(cfg: Config, h: Hints, sh: Shared, st: Counters, rest: seq<Reply>, login: seq<Reply>)
    requires CanTick(h) && st.longPollSeen < Cap(cfg, h)
    ensures GistOf(cfg, h, sh, st, [SlowestTick(h)] + rest, login)
         == Later(GistOf(cfg, h, sh, st.(longPollSeen := st.longPollSeen + 1), rest, login), 1, LONG_POLL_CEILING)
  {
    var j := Judged(RetryIn(LongPollKind, LONG_POLL_CEILING), sh, st.(longPollSeen := st.longPollSeen + 1), []);
    assert j == Evaluate(cfg, h, sh, st, SlowestTick(h), login);
    SlowStep(cfg, h, sh, st, SlowestTick(h), rest, login, j);
  }

  /** What steps one at a time steps many at a time. */
  lemma {:induction false} Climb(f: (nat, seq<Reply>) -> Gist, r: Reply, sleep: int, limit: nat, k: nat, n: nat,
                                 rest: seq<Reply>)
    requires forall i: nat, tail: seq<Reply> | k <= i < limit :: f(i, [r] + tail) == Later(f(i + 1, tail), 1, sleep)
    requires k + n <= limit
    ensures f(k, Times(r, n) + rest) == Later(f(k + n, rest), n, sleep * n)
    decreases n
  {
    if n == 0 {
      assert Times(r, 0) + rest == rest;
    } else {
      assert Times(r, n) + rest == [r] + (Times(r, n - 1) + rest);
      Climb(f, r, sleep, limit, k + 1, n - 1, rest);
    }
  }

  lemma RateLimitedRun(cfg: Config, h: Hints, sh: Shared, st: Counters, n: nat, rest: seq<Reply>, login: seq<Reply>)
    requires n == 0 || st.errAttempt + n <= Max0(cfg.maxRetries)
    ensures GistOf(cfg, h, sh, st, Times(SLOWEST_429, n) + rest, login)
         == Later(GistOf(cfg, h, sh, st.(errAttempt := st.errAttempt + n), rest, login), n, RATE_LIMIT_CEILING * n)
  {
    var f := (i: nat, feed: seq<Reply>) => GistOf(cfg, h, sh, st.(errAttempt := i), feed, login);
    var limit := if n == 0 then st.errAttempt else Max0(cfg.maxRetries);
    forall i: nat, tail: seq<Reply> | st.errAttempt <= i < limit
      ensures f(i, [SLOWEST_429] + tail) == Later(f(i + 1, tail), 1, RATE_LIMIT_CEILING)
    {
      LimitedStep(cfg, h, sh, st.(errAttempt := i), tail, login);
    }
    Climb(f, SLOWEST_429, RATE_LIMIT_CEILING, limit, st.errAttempt, n, rest);
  }

  lemma PollingRun(cfg: Config, h: Hints, sh: Shared, st: Counters, n: nat, rest: seq<Reply>, login: seq<Reply>)
    requires n == 0 || (CanTick(h) && st.longPollSeen + n <= Max0(Cap(cfg, h)))
    ensures GistOf(cfg, h, sh, st, Times(SlowestTick(h), n) + rest, login)
         == Later(GistOf(cfg, h, sh, st.(longPollSeen := st.longPollSeen + n), rest, login), n, LONG_POLL_CEILING * n)
  {
    var f := (i: nat, feed: seq<Reply>) => GistOf(cfg, h, sh, st.(longPollSeen := i), feed, login);
    var limit := if n == 0 then st.longPollSeen else Max0(Cap(cfg, h));
    forall i: nat, tail: seq<Reply> | st.longPollSeen <= i < limit
      ensures f(i, [SlowestTick(h)] + tail) == Later(f(i + 1, tail), 1, LONG_POLL_CEILING)
    {
      PolledStep(cfg, h, sh, st.(longPollSeen := i), tail, login);
    }
    Climb(f, SlowestTick(h), LONG_POLL_CEILING, limit, st.longPollSeen, n, rest);
  }

  /** After the pauses: the login a refusal triggers, where there may be one, and the success. */
  function Ending(h: Hints): seq<Reply> {
    if h.noAutoRelogin then [SUCCESS] else [REFUSAL, SUCCESS]
  }

  function SlowestLoginFeed(cfg: Config): seq<Reply> {
    Times(SLOWEST_429, Max0(cfg.maxRetries)) + [SUCCESS]
  }

  function SlowestFeed(cfg: Config, h: Hints): seq<Reply> {
    Times(SlowestTick(h), PollsLeft(cfg, h, FRESH)) + (Times(SLOWEST_429, Max0(cfg.maxRetries)) + Ending(h))
  }

  lemma LastSuccess(cfg: Config, h: Hints, sh: Shared, st: Counters, login: seq<Reply>)
    ensures GistOf(cfg, h, sh, st, [SUCCESS], login) == Gist(Outcome(Some(SUCCESS), Ok), sh.(streak := 0), 1, 0)
  {
    var done := Terminal(Outcome(Some(SUCCESS), Ok));
    assert Evaluate(cfg, h, sh, st, SUCCESS, login) == Judged(done, sh.(streak := 0), st, []);
    assert SleepOf([Event(h, SUCCESS, done)] + []) == 0;
  }

  lemma LoginGist(cfg: Config, sh: Shared, feed: seq<Reply>)
    requires !sh.banned && sh.email != "" && sh.password != ""
    ensures var l := LoginRun(cfg, sh, sh.email, sh.password, feed);
            var g := GistOf(cfg, LOGIN_HINTS, sh, FRESH, feed, []);
            l.err == LoginError(g.out) && |l.log| == g.trips && SleepOf(l.log) == g.slept
  {
    LoginUnfolded(cfg, sh, sh.email, sh.password, feed);
  }

  lemma SlowestLogin(cfg: Config, sh: Shared)
    requires !sh.banned && sh.email != "" && sh.password != ""
    ensures var l := LoginRun(cfg, sh, sh.email, sh.password, SlowestLoginFeed(cfg));
            && l.err == Ok
            && |l.log| == Max0(cfg.maxRetries) + 1
            && SleepOf(l.log) == RATE_LIMIT_CEILING * Max0(cfg.maxRetries)
  {
    var m := Max0(cfg.maxRetries);
    LoginGist(cfg, sh, SlowestLoginFeed(cfg));
    RateLimitedRun(cfg, LOGIN_HINTS, sh, FRESH, m, [SUCCESS], []);
    LastSuccess(cfg, LOGIN_HINTS, sh, FRESH.(errAttempt := m), []);
  }

  lemma RefusedThenServed(cfg: Config, h: Hints, sh: Shared, st: Counters, login: seq<Reply>)
    requires LoginsLeft(h, st) == 1 && sh.email != "" && sh.password != ""
    requires LoginRun(cfg, sh, sh.email, sh.password, login).err == Ok
    ensures var l := LoginRun(cfg, sh, sh.email, sh.password, login);
            var g := GistOf(cfg, h, sh, st, [REFUSAL, SUCCESS], login);
            g.out == Outcome(Some(SUCCESS), Ok) && g.trips == 2 + |l.log| && g.slept == SleepOf(l.log)
  {
    var l := LoginRun(cfg, sh, sh.email, sh.password, login);
    assert [REFUSAL, SUCCESS][1..] == [SUCCESS];
    var j := Evaluate(cfg, h, sh, st, REFUSAL, login);
    assert Attempt(cfg, h, sh, st, REFUSAL).dec.Relogin?;
    assert j == Judged(RetryIn(UnauthorizedKind, 0), l.sh, st.(relogged := true), l.log);
    LastSuccess(cfg, h, j.sh, j.st, login);
    var here := [Event(h, REFUSAL, j.dec)];
    SleepOfConcat(here, j.nested);
    SleepOfConcat(here + j.nested, Run(cfg, h, j.sh, j.st, [SUCCESS], login).log);
  }

  lemma EndingCost(cfg: Config, h: Hints, sh: Shared, st: Counters)
    requires !sh.banned && !st.relogged && (h.noAutoRelogin || (sh.email != "" && sh.password != ""))
    ensures var m := Max0(cfg.maxRetries);
            var g := GistOf(cfg, h, sh, st, Ending(h), SlowestLoginFeed(cfg));
            && g.out == Outcome(Some(SUCCESS), Ok)
            && g.trips == (if h.noAutoRelogin then 1 else m + 3)
            && g.slept == (if h.noAutoRelogin then 0 else RATE_LIMIT_CEILING * m)
  {
    if h.noAutoRelogin {
      LastSuccess(cfg, h, sh, st, SlowestLoginFeed(cfg));
    } else {
      SlowestLogin(cfg, sh);
      RefusedThenServed(cfg, h, sh, st, SlowestLoginFeed(cfg));
    }
  }

  lemma SlowestRun(cfg: Config, h: Hints, sh: Shared)
    requires !sh.banned && (h.noAutoRelogin || (sh.email != "" && sh.password != ""))
    ensures var g := GistOf(cfg, h, sh, FRESH, SlowestFeed(cfg, h), SlowestLoginFeed(cfg));
            && g.out == Outcome(Some(SUCCESS), Ok)
            && g.trips == TripsLeft(cfg, h, FRESH)
            && g.slept == SleepLeft(cfg, h, FRESH)
  {
    var m, polls, login := Max0(cfg.maxRetries), PollsLeft(cfg, h, FRESH), SlowestLoginFeed(cfg);
    PollingRun(cfg, h, sh, FRESH, polls, Times(SLOWEST_429, m) + Ending(h), login);
    RateLimitedRun(cfg, h, sh, FRESH.(longPollSeen := polls), m, Ending(h), login);
    EndingCost(cfg, h, sh, Counters(false, polls, m));
  }

  /**
   No smaller bounds hold, whatever the hints and the limits: one server
   behaviour uses up all the trips and all the sleep at once and still ends in
   success. For a call that polls and may log in these are the bounds above.
   */
  lemma BoundsAreAttained(cfg: Config, h: Hints, sh: Shared)
    requires !sh.banned && (h.noAutoRelogin || (sh.email != "" && sh.password != ""))
    ensures exists main, login ::
              var r := Do(cfg, h, sh, main, login);
              && r.out == Outcome(Some(SUCCESS), Ok)
              && |r.log| == TripsLeft(cfg, h, FRESH)
              && SleepOf(r.log) == SleepLeft(cfg, h, FRESH)
    ensures CanTick(h) && !h.noAutoRelogin ==>
              var retries, cap := Max0(cfg.maxRetries), Max0(Cap(cfg, h));
              && TripsLeft(cfg, h, FRESH) == 2 * retries + cap + 3
              && SleepLeft(cfg, h, FRESH) == 240_000 * retries + 30_000 * cap
  {
    SlowestRun(cfg, h, sh);
    var r := Do(cfg, h, sh, SlowestFeed(cfg, h), SlowestLoginFeed(cfg));
    assert |r.log| == TripsLeft(cfg, h, FRESH);
  }
}
