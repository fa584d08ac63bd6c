/**
 What one attempt makes of a reply, said by status, body, hints and counters
 alone (the switch of evaluate in pkg/brainapi/transport.go), and what that
 means for a whole call.
 */
module Attempts {
  import opened Wrappers
  import opened Retry
  import opened Transport

  /** A reply other than a 401 never starts a login. */
  lemma NoLogin(cfg: Config, h: Hints, sh: Shared, st: Counters, r: Reply, login: seq<Reply>)
    requires r.Failed? || r.status != 401
    ensures var j := Evaluate(cfg, h, sh, st, r, login);
            j.nested == [] && j.sh.email == sh.email && j.sh.password == sh.password && j.st.relogged == st.relogged
  {
  }

  /** The two classes that logs are counted by. */
  lemma ClassesMean(h: Hints, r: Reply)
    ensures Classify(h, r) == Opaque <==>
            && r.Response? && r.status == 403
            && !r.body.hasChecks && !r.body.notVerified && r.body.detail.None?
    ensures Classify(h, r) == Tick <==>
            && r.Response?
            && (|| (200 <= r.status < 300 && h.longPoll200Empty && r.body.text == "" && r.retryAfter.Some?)
                || (r.status == 503 && h.longPoll503 && !h.accept503))
  {
  }

  // ---- 403 ----

  /** A permission denial is a 403 with a detail string and neither of the other two marks, whatever the hints. */
  lemma PermissionDeniedIff(cfg: Config, h: Hints, sh: Shared, st: Counters, r: Reply, login: seq<Reply>, d: string)
    requires r.Failed? || r.status != 401
    ensures var j := Evaluate(cfg, h, sh, st, r, login);
            && (j.dec == Terminal(Outcome(Some(r), PermissionDenied(d))) <==>
                  && r.Response? && r.status == 403
                  && !r.body.hasChecks && !r.body.notVerified && r.body.detail == Some(d))
            && (j.dec.Terminal? && j.dec.out.err.PermissionDenied? ==> j.sh == sh.(streak := 0) && j.st == st)
  {
  }

  lemma NotVerifiedIff(cfg: Config, h: Hints, sh: Shared, st: Counters, r: Reply, login: seq<Reply>)
    requires r.Failed? || r.status != 401
    ensures var j := Evaluate(cfg, h, sh, st, r, login);
            && (j.dec == Terminal(Outcome(Some(r), NotVerified)) <==>
                  r.Response? && r.status == 403 && !r.body.hasChecks && r.body.notVerified)
            && (j.dec.Terminal? && j.dec.out.err.NotVerified? ==> j.sh == sh && j.st == st)
  {
  }

  /**
   How the shared state moves: the streak rises by one on a 403 with none of the
   three marks, falls to zero on what resets it and stays otherwise; the flag
   goes up, with the streak and the beginning of the body, exactly when such a
   403 reaches a positive threshold, and that ends the call.
   */
  lemma SharedMoves(cfg: Config, h: Hints, sh: Shared, st: Counters, r: Reply, login: seq<Reply>)
    requires r.Failed? || r.status != 401
    ensures var j := Evaluate(cfg, h, sh, st, r, login);
            var opaque403 := && r.Response? && r.status == 403
                             && !r.body.hasChecks && !r.body.notVerified && r.body.detail.None?;
            var resets := && r.Response?
                          && (|| (&& 200 <= r.status < 300
                                  && !(h.longPoll200Empty && r.body.text == "" && r.retryAfter.Some?))
                              || (h.accept503 && (300 <= r.status < 400 || r.status == 503))
                              || (r.status == 403 && r.body.hasChecks)
                              || (r.status == 403 && !r.body.notVerified && r.body.detail.Some?));
            var bans := opaque403 && cfg.banThreshold > 0 && Wrap32(sh.streak + 1) >= cfg.banThreshold;
            && j.sh.streak == (if opaque403 then Wrap32(sh.streak + 1) else if resets then 0 else sh.streak)
            && j.sh.banned == (sh.banned || bans)
            && (!bans ==> j.sh.reason == sh.reason)
            && (bans ==> j.sh.reason == if |r.body.text| > 200 then r.body.text[..200] + "\U{2026}" else r.body.text)
            && (bans ==> j.dec == Terminal(Outcome(Some(r), Banned(j.sh.streak, j.sh.reason))))
            && (j.dec.Terminal? && j.dec.out.err.Banned? ==> bans)
  {
  }

  /** A 403 with none of the marks that does not ban is retried after five seconds, or delivered at the end. */
  lemma ForbiddenIff(cfg: Config, h: Hints, sh: Shared, st: Counters, r: Reply, login: seq<Reply>, s: int)
    requires r.Failed? || r.status != 401
    ensures var j := Evaluate(cfg, h, sh, st, r, login);
            && (j.dec == RetryIn(ForbiddenKind, s) <==>
                  && r.Response? && r.status == 403
                  && !r.body.hasChecks && !r.body.notVerified && r.body.detail.None?
                  && (cfg.banThreshold <= 0 || Wrap32(sh.streak + 1) < cfg.banThreshold)
                  && st.errAttempt < cfg.maxRetries && s == 5_000)
            && (j.dec == RetryIn(ForbiddenKind, s) ==> j.st == st.(errAttempt := st.errAttempt + 1))
  {
  }

  // ---- what is delivered ----

  lemma DeliveredIff(cfg: Config, h: Hints, sh: Shared, st: Counters, r: Reply, login: seq<Reply>)
    requires r.Failed? || r.status != 401
    ensures var j := Evaluate(cfg, h, sh, st, r, login);
            j.dec == Terminal(Outcome(Some(r), Ok)) <==>
            && r.Response?
            && (|| (&& 200 <= r.status < 300
                    && !(h.longPoll200Empty && r.body.text == "" && r.retryAfter.Some?))
                || (h.accept503 && (300 <= r.status < 400 || r.status == 503))
                || (r.status == 403 && r.body.hasChecks)
                || (&& r.status == 403 && !r.body.notVerified && r.body.detail.None?
                    && (cfg.banThreshold <= 0 || Wrap32(sh.streak + 1) < cfg.banThreshold)
                    && st.errAttempt >= cfg.maxRetries))
  {
  }

  // ---- ticks ----

  /**
   A tick is an empty 200 with a Retry-After, or a 503, to a call that polls by
   it. It pauses by the server's own hint, kept within half a second and half a
   minute, until there were more of them than the hint's or else the client's cap.
   */
  lemma TickIff(cfg: Config, h: Hints, sh: Shared, st: Counters, r: Reply, login: seq<Reply>, s: int)
    requires r.Failed? || r.status != 401
    ensures var j := Evaluate(cfg, h, sh, st, r, login);
            var tick := && r.Response?
                        && (|| (200 <= r.status < 300 && h.longPoll200Empty && r.body.text == "" && r.retryAfter.Some?)
                            || (r.status == 503 && h.longPoll503 && !h.accept503));
            var cap := if h.maxLongPolls > 0 then h.maxLongPolls else cfg.maxLongPolls;
            && (j.dec == RetryIn(LongPollKind, s) <==>
                  && tick && st.longPollSeen + 1 <= cap
                  && s == (match r.retryAfter
                           case None => 500
                           case Some(d) => if d <= 500 then 500 else if d >= 30_000 then 30_000 else d))
            && (j.dec == Terminal(Outcome(None, LongPollExceeded)) <==> tick && st.longPollSeen + 1 > cap)
            && j.st.longPollSeen == st.longPollSeen + (if tick then 1 else 0)
  {
  }

  // ---- errors that are retried ----

  /** Lost round trips are retried after 2, 4, 6, ... seconds, never more than 15, until the retries are spent. */
  lemma NetworkIff(cfg: Config, h: Hints, sh: Shared, st: Counters, r: Reply, login: seq<Reply>, s: int)
    requires r.Failed? || r.status != 401
    ensures var j := Evaluate(cfg, h, sh, st, r, login);
            && (j.dec == RetryIn(NetworkKind, s) <==>
                  && r.Failed? && st.errAttempt < cfg.maxRetries
                  && s == (if st.errAttempt <= 6 then 2_000 * (st.errAttempt + 1) else 15_000))
            && (j.dec == RetryIn(NetworkKind, s) ==> j.st == st.(errAttempt := st.errAttempt + 1))
            && (r.Failed? && st.errAttempt >= cfg.maxRetries ==> j.dec == Terminal(Outcome(None, Network(r.cause))))
  {
  }

  /** A 429 pauses by the server's own Retry-After, kept within one second and two minutes. */
  lemma RateLimitIff(cfg: Config, h: Hints, sh: Shared, st: Counters, r: Reply, login: seq<Reply>, s: int,
                     cooldown: bool)
    requires r.Failed? || r.status != 401
    ensures var j := Evaluate(cfg, h, sh, st, r, login);
            var limited := && r.Response? && r.status == 429 && r.body.cooldown == cooldown
                           && s == (match r.retryAfter
                                    case None => 1_000
                                    case Some(d) => if d <= 1_000 then 1_000 else if d >= 120_000 then 120_000 else d);
            && (j.dec == RetryIn(if cooldown then CooldownKind else RateLimitKind, s) <==>
                  limited && st.errAttempt < cfg.maxRetries)
            && (limited && st.errAttempt < cfg.maxRetries ==> j.st == st.(errAttempt := st.errAttempt + 1))
            && (j.dec == Terminal(Outcome(Some(r), RateLimited(s, cooldown))) <==>
                  limited && st.errAttempt >= cfg.maxRetries)
  {
  }

  /** A 5xx that is no poll signal is retried after 5, 10, 15, 15, ... seconds. */
  lemma ServerErrorIff(cfg: Config, h: Hints, sh: Shared, st: Counters, r: Reply, login: seq<Reply>, s: int)
    requires r.Failed? || r.status != 401
    ensures var j := Evaluate(cfg, h, sh, st, r, login);
            var broken := r.Response? && r.status >= 500 && !(r.status == 503 && (h.longPoll503 || h.accept503));
            && (j.dec == RetryIn(ServerKind, s) <==>
                  && broken && st.errAttempt < cfg.maxRetries
                  && s == (if st.errAttempt <= 1 then 5_000 * (st.errAttempt + 1) else 15_000))
            && (j.dec == RetryIn(ServerKind, s) ==> j.st == st.(errAttempt := st.errAttempt + 1))
            && (broken && st.errAttempt >= cfg.maxRetries ==> j.dec == Terminal(Outcome(Some(r), Api(r.status))))
  {
  }

  /** Every other status ends the call: as a field error if the body has them and the status is neither 404 nor 405. */
  lemma ClientErrorIff(cfg: Config, h: Hints, sh: Shared, st: Counters, r: Reply, login: seq<Reply>)
    requires r.Failed? || r.status != 401
    ensures var j := Evaluate(cfg, h, sh, st, r, login);
            var other := && r.Response? && !(200 <= r.status < 300) && r.status < 500
                         && r.status != 401 && r.status != 403 && r.status != 429
                         && !(h.accept503 && 300 <= r.status < 400);
            var fields := r.Response? && r.body.fieldErrors && r.status != 404 && r.status != 405;
            && (j.dec.Terminal? && j.dec.out.err.Drf? <==> other && fields)
            && (other ==> && j.dec == Terminal(Outcome(Some(r), if fields then Drf(r.status) else Api(r.status)))
                          && j.sh == sh && j.st == st)
  {
  }

  // ---- 401 ----

  /**
   A 401 is final for a login and after a login; without credentials it is an
   error of its own; else the call logs in once, with the session's credentials,
   and goes on at once if that succeeds, or ends with the login's error.
   */
  lemma UnauthorizedMeans(cfg: Config, h: Hints, sh: Shared, st: Counters, r: Reply, login: seq<Reply>)
    requires r.Response? && r.status == 401
    ensures var j := Evaluate(cfg, h, sh, st, r, login);
            var l := LoginRun(cfg, sh, sh.email, sh.password, login);
            if h.noAutoRelogin || st.relogged then
              j == Judged(Terminal(Outcome(Some(r), Api(401))), sh, st, [])
            else if sh.email == "" || sh.password == "" then
              j == Judged(Terminal(Outcome(Some(r), NotAuthenticated)), sh, st, [])
            else if l.err == Ok then
              j == Judged(RetryIn(UnauthorizedKind, 0), l.sh, st.(relogged := true), l.log)
            else
              j == Judged(Terminal(Outcome(Some(r), l.err)), l.sh, st, l.log)
  {
  }

  // ---- whole calls ----

  /** A banned client answers at once, with the recorded streak and reason. */
  lemma BannedCall(cfg: Config, h: Hints, sh: Shared, main: seq<Reply>, login: seq<Reply>)
    requires sh.banned
    ensures Do(cfg, h, sh, main, login) == Result(Outcome(None, Banned(sh.streak, sh.reason)), sh, [])
  {
  }

  /** Before every attempt a call looks at its context: when that has ended, it ends, and leaves everything as it is. */
  lemma CancelledCall(cfg: Config, h: Hints, sh: Shared, login: seq<Reply>)
    requires !sh.banned
    ensures Do(cfg, h, sh, [], login) == Result(Outcome(None, Cancelled), sh, [])
  {
  }

  /** Otherwise it attempts, and goes on with the rest exactly when the attempt asks for a retry. */
  lemma CallUnfolds(cfg: Config, h: Hints, sh: Shared, st: Counters, r: Reply, rest: seq<Reply>, login: seq<Reply>)
    ensures var j := Evaluate(cfg, h, sh, st, r, login);
            var c, d := Run(cfg, h, sh, st, [r] + rest, login), Run(cfg, h, j.sh, j.st, rest, login);
            var here := [Event(h, r, j.dec)] + j.nested;
            match j.dec
            case Terminal(out) => c == Result(out, j.sh, here)
            case RetryIn(_, _) => c == Result(d.out, d.sh, here + d.log)
            case Relogin => false
  {
    assert ([r] + rest)[1..] == rest;
  }

  /** A permission denial ends a call where it comes, and the streak with it. */
  lemma DeniedAtOnce(cfg: Config, h: Hints, sh: Shared, r: Reply, rest: seq<Reply>, login: seq<Reply>)
    requires !sh.banned && r.Response? && r.status == 403
    requires !r.body.hasChecks && !r.body.notVerified && r.body.detail.Some?
    ensures var c := Do(cfg, h, sh, [r] + rest, login);
            && c.out == Outcome(Some(r), PermissionDenied(r.body.detail.value))
            && c.sh == sh.(streak := 0) && |c.log| == 1
  {
    PermissionDeniedIff(cfg, h, sh, FRESH, r, login, r.body.detail.value);
    NoLogin(cfg, h, sh, FRESH, r, login);
  }

  /** Some reply of the feed is a 403 with none of the three marks. */
  predicate HasOpaque(feed: seq<Reply>) {
    exists r :: && r in feed && r.Response? && r.status == 403
                && !r.body.hasChecks && !r.body.notVerified && r.body.detail.None?
  }

  lemma OpaqueInTail(feed: seq<Reply>)
    requires feed != [] && HasOpaque(feed[1..])
    ensures HasOpaque(feed)
  {
    assert forall r :: r in feed[1..] ==> r in feed;
  }

  /** Of the first reply of a feed without opaque 403s, short of a login. */
  lemma FlagOfAttempt(cfg: Config, h: Hints, sh: Shared, st: Counters, feed: seq<Reply>, login: seq<Reply>)
    requires feed != [] && !sh.banned && !HasOpaque(feed)
    requires feed[0].Failed? || feed[0].status != 401 || h.noAutoRelogin
    ensures var j := Evaluate(cfg, h, sh, st, feed[0], login);
            && !j.sh.banned && (j.dec.Terminal? ==> !j.dec.out.err.Banned?)
            && !HasOpaque(feed[1..])
  {
    var r := feed[0];
    if HasOpaque(feed[1..]) {
      OpaqueInTail(feed);
    }
    if r.Response? && r.status == 401 {
      UnauthorizedMeans(cfg, h, sh, st, r, login);
    } else {
      SharedMoves(cfg, h, sh, st, r, login);
      assert r in feed;
    }
  }

  lemma {:induction false} LoginFlag(cfg: Config, sh: Shared, st: Counters, feed: seq<Reply>)
    requires !sh.banned && !HasOpaque(feed)
    ensures var c := Run(cfg, LOGIN_HINTS, sh, st, feed, []);
            !c.sh.banned && !c.out.err.Banned?
    decreases |feed|
  {
    if feed == [] {
    } else {
      var j := Evaluate(cfg, LOGIN_HINTS, sh, st, feed[0], []);
      FlagOfAttempt(cfg, LOGIN_HINTS, sh, st, feed, []);
      if j.dec.RetryIn? {
        LoginFlag(cfg, j.sh, j.st, feed[1..]);
      }
    }
  }

  lemma LoginKeepsFlag(cfg: Config, sh: Shared, feed: seq<Reply>)
    requires !sh.banned && !HasOpaque(feed)
    ensures var l := LoginRun(cfg, sh, sh.email, sh.password, feed);
            !l.sh.banned && !l.err.Banned?
  {
    LoginUnfolded(cfg, sh, sh.email, sh.password, feed);
    LoginFlag(cfg, sh, FRESH, feed);
  }

  /** Only a 403 with none of the three marks, met by the call or by its login, can raise the flag. */
  lemma {:induction false} FlagNeedsOpaque(cfg: Config, h: Hints, sh: Shared, st: Counters, main: seq<Reply>,
                                           login: seq<Reply>)
    requires !sh.banned && !HasOpaque(main) && !HasOpaque(login)
    ensures var c := Run(cfg, h, sh, st, main, login);
            !c.sh.banned && !c.out.err.Banned?
    decreases |main|
  {
    if main == [] {
    } else {
      var j := Evaluate(cfg, h, sh, st, main[0], login);
      if main[0].Response? && main[0].status == 401 && !h.noAutoRelogin {
        UnauthorizedMeans(cfg, h, sh, st, main[0], login);
        LoginKeepsFlag(cfg, sh, login);
        if HasOpaque(main[1..]) {
          OpaqueInTail(main);
        }
      } else {
        FlagOfAttempt(cfg, h, sh, st, main, login);
      }
      if j.dec.RetryIn? {
        FlagNeedsOpaque(cfg, h, j.sh, j.st, main[1..], login);
      }
    }
  }
}
