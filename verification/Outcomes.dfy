/** What the answer of a call means. */
module Outcomes {
  import opened Wrappers
  import opened Retry
  import opened Transport
  import opened RunBounds
  import opened Attempts

  // ---- the error budget is spent in full ----

  predicate OwnError(h: Hints, e: Event) {
    e.hints == h && ErrorClass(Classify(e.hints, e.reply))
  }

  /** The error-class replies to the call itself, not to a login it nests. */
  function OwnErrors(h: Hints, log: seq<Event>): nat {
    if log == [] then 0 else (if OwnError(h, log[0]) then 1 else 0) + OwnErrors(h, log[1..])
  }

  /** The call ended on an error-class reply that was not retried. */
  predicate GaveUp(h: Hints, log: seq<Event>) {
    log != [] && OwnError(h, log[|log| - 1]) && log[|log| - 1].dec.Terminal?
  }

  /** The last round trip was the call's own and met a reply of this class. */
  predicate LastIs(h: Hints, log: seq<Event>, c: Class) {
    log != [] && log[|log| - 1].hints == h && Classify(h, log[|log| - 1].reply) == c
  }

  lemma {:induction false} OwnErrorsConcat(h: Hints, a: seq<Event>, b: seq<Event>)
    ensures OwnErrors(h, a + b) == OwnErrors(h, a) + OwnErrors(h, b)
    ensures GaveUp(h, a + b) <==> if b == [] then GaveUp(h, a) else GaveUp(h, b)
    ensures forall c :: LastIs(h, a + b, c) <==> if b == [] then LastIs(h, a, c) else LastIs(h, b, c)
  {
    if a == [] {
      assert a + b == b;
    } else {
      assert (a + b)[1..] == a[1..] + b;
      OwnErrorsConcat(h, a[1..], b);
    }
    if b == [] {
      assert a + b == a;
    }
  }

  predicate Foreign(h: Hints, log: seq<Event>) {
    forall e :: e in log ==> e.hints != h
  }

  lemma {:induction false} ForeignCountsNothing(h: Hints, log: seq<Event>)
    requires Foreign(h, log)
    ensures OwnErrors(h, log) == 0 && !GaveUp(h, log) && forall c :: !LastIs(h, log, c)
  {
    if log == [] {
    } else {
      assert forall e :: e in log[1..] ==> e in log;
      ForeignCountsNothing(h, log[1..]);
      assert log[|log| - 1] in log;
    }
  }

  /** One attempt of a login: it nests nothing, moves no credentials, and a retry moves only the streak. */
  lemma LoginAttempt(cfg: Config, sh: Shared, st: Counters, r: Reply)
    ensures var j := Evaluate(cfg, LOGIN_HINTS, sh, st, r, []);
            && j.nested == []
            && j.sh.email == sh.email && j.sh.password == sh.password
            && (j.dec.RetryIn? ==> j.sh == sh.(streak := j.sh.streak))
            && (Classify(LOGIN_HINTS, r) == Success ==> j.dec.Terminal? && j.sh == sh.(streak := 0))
  {
  }

  lemma {:induction false} LoginEvents(cfg: Config, sh: Shared, st: Counters, feed: seq<Reply>)
    ensures forall e :: e in Run(cfg, LOGIN_HINTS, sh, st, feed, []).log ==> e.hints == LOGIN_HINTS
    decreases |feed|
  {
    if feed == [] {
    } else {
      var j := Evaluate(cfg, LOGIN_HINTS, sh, st, feed[0], []);
      LoginAttempt(cfg, sh, st, feed[0]);
      if j.dec.RetryIn? {
        LoginEvents(cfg, j.sh, j.st, feed[1..]);
      }
    }
  }

  lemma LoginIsForeign(cfg: Config, h: Hints, sh: Shared, login: seq<Reply>)
    requires !h.noAutoRelogin
    ensures Foreign(h, LoginRun(cfg, sh, sh.email, sh.password, login).log)
  {
    LoginUnfolded(cfg, sh, sh.email, sh.password, login);
    LoginEvents(cfg, sh, FRESH, login);
  }

  lemma NestedIsForeign(cfg: Config, h: Hints, sh: Shared, st: Counters, r: Reply, login: seq<Reply>)
    ensures Foreign(h, Evaluate(cfg, h, sh, st, r, login).nested)
  {
    if !h.noAutoRelogin {
      LoginIsForeign(cfg, h, sh, login);
    }
  }

  /** One attempt's part of the account. */
  lemma AttemptErrors(cfg: Config, h: Hints, sh: Shared, st: Counters, r: Reply, login: seq<Reply>)
    ensures var j := Evaluate(cfg, h, sh, st, r, login);
            var here := [Event(h, r, j.dec)] + j.nested;
            if j.dec.RetryIn? then
              !GaveUp(h, here) && OwnErrors(h, here) + ErrorsLeft(cfg, j.st) == ErrorsLeft(cfg, st)
            else
              && OwnErrors(h, here) <= ErrorsLeft(cfg, st) + 1
              && (!j.dec.out.err.Banned? ==> (GaveUp(h, here) <==> OwnErrors(h, here) > ErrorsLeft(cfg, st)))
  {
    var j := Evaluate(cfg, h, sh, st, r, login);
    RetrySpendsOne(cfg, h, sh, st, r, login);
    NestedIsForeign(cfg, h, sh, st, r, login);
    ForeignCountsNothing(h, j.nested);
    OwnErrorsConcat(h, [Event(h, r, j.dec)], j.nested);
    if ErrorClass(Classify(h, r)) {
      assert j.nested == [];
    }
  }

  /**
   Unless it is banned, a call gives up on a network failure, an opaque 403, a
   429 or a 5xx exactly when such replies outnumber the retries it had left;
   ticks, logins and whatever happened inside a login do not count.
   */
  lemma {:induction false} GivesUpIffSpent(cfg: Config, h: Hints, sh: Shared, st: Counters, main: seq<Reply>,
                                           login: seq<Reply>)
    ensures var r := Run(cfg, h, sh, st, main, login);
            && OwnErrors(h, r.log) <= ErrorsLeft(cfg, st) + 1
            && (!r.out.err.Banned? ==> (GaveUp(h, r.log) <==> OwnErrors(h, r.log) > ErrorsLeft(cfg, st)))
    decreases |main|
  {
    if main == [] {
    } else {
      var j := Evaluate(cfg, h, sh, st, main[0], login);
      var here := [Event(h, main[0], j.dec)] + j.nested;
      AttemptErrors(cfg, h, sh, st, main[0], login);
      if j.dec.RetryIn? {
        GivesUpIffSpent(cfg, h, j.sh, j.st, main[1..], login);
        OwnErrorsConcat(h, here, Run(cfg, h, j.sh, j.st, main[1..], login).log);
      }
    }
  }

  // ---- the meaning of a nil error ----

  /** The call's last round trip settled it: a success, an accepted poll signal, or a checks rejection. */
  predicate Settled(h: Hints, log: seq<Event>) {
    LastIs(h, log, Success) || LastIs(h, log, Accepted) || LastIs(h, log, ChecksRejected)
  }

  lemma PlainOutcome(cfg: Config, h: Hints, sh: Shared, st: Counters, r: Reply)
    requires !Attempt(cfg, h, sh, st, r).dec.Relogin?
    ensures var dec, c := Attempt(cfg, h, sh, st, r).dec, Classify(h, r);
            if dec.RetryIn? then !(c == Success || c == Accepted || c == ChecksRejected)
            else
              && (dec.out.err == Ok <==>
                    c == Success || c == Accepted || c == ChecksRejected || (c == Opaque && !dec.out.err.Banned?))
              && (dec.out.err == Ok ==> dec.out.resp == Some(r))
  {
  }

  lemma ReloginOutcome(cfg: Config, h: Hints, sh: Shared, st: Counters, r: Reply, login: seq<Reply>)
    requires Attempt(cfg, h, sh, st, r).dec.Relogin?
    ensures var j := Evaluate(cfg, h, sh, st, r, login);
            Classify(h, r) == Unauthorized && (j.dec.Terminal? ==> j.dec.out.err != Ok)
  {
  }

  lemma AttemptOutcome(cfg: Config, h: Hints, sh: Shared, st: Counters, r: Reply, login: seq<Reply>)
    ensures var j := Evaluate(cfg, h, sh, st, r, login);
            var here := [Event(h, r, j.dec)] + j.nested;
            if j.dec.RetryIn? then !Settled(h, here)
            else
              && (j.dec.out.err == Ok <==>
                    Settled(h, here) || (LastIs(h, here, Opaque) && GaveUp(h, here) && !j.dec.out.err.Banned?))
              && (j.dec.out.err == Ok ==> j.dec.out.resp == Some(r) && here == [Event(h, r, j.dec)])
  {
    var j := Evaluate(cfg, h, sh, st, r, login);
    var e := Event(h, r, j.dec);
    if Attempt(cfg, h, sh, st, r).dec.Relogin? {
      ReloginOutcome(cfg, h, sh, st, r, login);
      NestedIsForeign(cfg, h, sh, st, r, login);
      ForeignCountsNothing(h, j.nested);
      OwnErrorsConcat(h, [e], j.nested);
    } else {
      PlainOutcome(cfg, h, sh, st, r);
      assert j.nested == [] && [e] + j.nested == [e];
    }
  }

  /** How the answer of a call follows from its log. */
  predicate Tells(h: Hints, main: seq<Reply>, r: Result) {
    && (r.out.err == Ok <==>
          Settled(h, r.log) || (LastIs(h, r.log, Opaque) && GaveUp(h, r.log) && !r.out.err.Banned?))
    && (r.out.err == Ok ==>
          && r.log != [] && r.out.resp == Some(r.log[|r.log| - 1].reply)
          && r.log[|r.log| - 1].reply in main)
  }

  lemma {:induction false} OutcomeOfRun(cfg: Config, h: Hints, sh: Shared, st: Counters, main: seq<Reply>,
                                        login: seq<Reply>)
    ensures Tells(h, main, Run(cfg, h, sh, st, main, login))
    decreases |main|
  {
    if main == [] {
    } else {
      var j := Evaluate(cfg, h, sh, st, main[0], login);
      var here := [Event(h, main[0], j.dec)] + j.nested;
      AttemptOutcome(cfg, h, sh, st, main[0], login);
      if j.dec.RetryIn? {
        AttemptErrors(cfg, h, sh, st, main[0], login);
        OutcomeOfRun(cfg, h, j.sh, j.st, main[1..], login);
        OwnErrorsConcat(h, here, Run(cfg, h, j.sh, j.st, main[1..], login).log);
      }
    }
  }

  /**
   A nil error comes with the last reply received, and means exactly one of: the
   reply settled the call, or it is an opaque 403 that did not trip the ban and
   came when the retries were spent on other failures.
   */
  lemma NilErrorIff(cfg: Config, h: Hints, sh: Shared, st: Counters, main: seq<Reply>, login: seq<Reply>)
    ensures var r := Run(cfg, h, sh, st, main, login);
            && (r.out.err == Ok <==>
                  || Settled(h, r.log)
                  || (&& LastIs(h, r.log, Opaque) && !r.out.err.Banned?
                      && OwnErrors(h, r.log) == ErrorsLeft(cfg, st) + 1))
            && (r.out.err == Ok ==>
                  && r.log != [] && r.out.resp == Some(r.log[|r.log| - 1].reply)
                  && r.log[|r.log| - 1].reply in main)
  {
    OutcomeOfRun(cfg, h, sh, st, main, login);
    GivesUpIffSpent(cfg, h, sh, st, main, login);
  }

  /** The replies a call may hand back without an error. */
  predicate Deliverable(h: Hints, r: Reply) {
    && r.Response?
    && (|| Classify(h, r) == Success
        || Classify(h, r) == Accepted
        || Classify(h, r) == ChecksRejected
        || Classify(h, r) == Opaque)
  }

  /** What a caller of `do` may conclude from a nil error by looking at the reply. */
  lemma NilErrorMeans(cfg: Config, h: Hints, sh: Shared, st: Counters, main: seq<Reply>, login: seq<Reply>)
    ensures var r := Run(cfg, h, sh, st, main, login);
            r.out.err == Ok ==>
              && r.out.resp.Some? && r.out.resp.value in main
              && Deliverable(h, r.out.resp.value)
              && (Classify(h, r.out.resp.value) == Opaque ==> OwnErrors(h, r.log) == ErrorsLeft(cfg, st) + 1)
  {
    NilErrorIff(cfg, h, sh, st, main, login);
  }

  // ---- what a login guarantees ----

  lemma {:induction false} LoginLoopEnds(cfg: Config, sh: Shared, st: Counters, feed: seq<Reply>)
    requires !sh.banned
    ensures var r := Run(cfg, LOGIN_HINTS, sh, st, feed, []);
            && r.sh.email == sh.email && r.sh.password == sh.password
            && (LastIs(LOGIN_HINTS, r.log, Success) ==> r.sh == sh.(streak := 0))
    decreases |feed|
  {
    if feed == [] {
    } else {
      var j := Evaluate(cfg, LOGIN_HINTS, sh, st, feed[0], []);
      var here := [Event(LOGIN_HINTS, feed[0], j.dec)];
      LoginAttempt(cfg, sh, st, feed[0]);
      assert here + [] == here;
      if j.dec.RetryIn? {
        LoginLoopEnds(cfg, j.sh, j.st, feed[1..]);
        OwnErrorsConcat(LOGIN_HINTS, here, Run(cfg, LOGIN_HINTS, j.sh, j.st, feed[1..], []).log);
      }
    }
  }

  /** A reply that completes a login: a 2xx without a body, or with a session that asks for no persona inquiry. */
  predicate Welcomes(r: Reply) {
    && r.Response? && Is2xx(r.status)
    && (|| r.body.text == ""
        || (r.body.session.Session? && (r.body.session.inquiry == "" || r.body.session.hasUser)))
  }

  lemma WelcomeSucceeds(main: seq<Reply>, r: Result)
    requires Tells(LOGIN_HINTS, main, r) && forall e :: e in r.log ==> e.hints == LOGIN_HINTS
    ensures LoginError(r.out) == Ok <==> r.log != [] && Welcomes(r.log[|r.log| - 1].reply)
    ensures LoginError(r.out) == Ok ==> LastIs(LOGIN_HINTS, r.log, Success)
  {
    if r.log != [] {
      assert r.log[|r.log| - 1] in r.log;
    }
  }

  lemma LoginLoopSucceeds(cfg: Config, sh: Shared, feed: seq<Reply>)
    requires !sh.banned
    ensures var r := Run(cfg, LOGIN_HINTS, sh, FRESH, feed, []);
            && (LoginError(r.out) == Ok <==> r.log != [] && Welcomes(r.log[|r.log| - 1].reply))
            && (LoginError(r.out) == Ok ==> r.sh == sh.(streak := 0))
  {
    OutcomeOfRun(cfg, LOGIN_HINTS, sh, FRESH, feed, []);
    LoginLoopEnds(cfg, sh, FRESH, feed);
    LoginEvents(cfg, sh, FRESH, feed);
    WelcomeSucceeds(feed, Run(cfg, LOGIN_HINTS, sh, FRESH, feed, []));
  }

  /**
   A login succeeds exactly when the last reply it received welcomes it. It then
   leaves a clean streak, no ban and the new credentials; otherwise it leaves
   the stored credentials alone.
   */
  lemma LoginSucceedsIff(cfg: Config, sh: Shared, email: string, password: string, feed: seq<Reply>)
    ensures var l := LoginRun(cfg, sh, email, password, feed);
            && (l.err == Ok <==> l.log != [] && Welcomes(l.log[|l.log| - 1].reply))
            && (l.err == Ok ==> email != "" && password != "" && l.sh == Shared(0, false, sh.reason, email, password))
            && (l.err != Ok ==> l.sh.email == sh.email && l.sh.password == sh.password)
  {
    LoginUnfolded(cfg, sh, email, password, feed);
    if email != "" && password != "" && !sh.banned {
      LoginLoopSucceeds(cfg, sh, feed);
      LoginLoopEnds(cfg, sh, FRESH, feed);
    }
  }

  /** The last round trip of a login loop, and the state it was judged in. */
  lemma {:induction false} LastOfLogin(cfg: Config, sh: Shared, st: Counters, feed: seq<Reply>)
    returns (sh': Shared, st': Counters)
    requires feed != []
    ensures var r := Run(cfg, LOGIN_HINTS, sh, st, feed, []);
            && r.log != []
            && var last := r.log[|r.log| - 1];
               && last.dec == Evaluate(cfg, LOGIN_HINTS, sh', st', last.reply, []).dec
               && r.out == if last.dec.Terminal? then last.dec.out else Outcome(None, Cancelled)
    decreases |feed|
  {
    var j := Evaluate(cfg, LOGIN_HINTS, sh, st, feed[0], []);
    LoginAttempt(cfg, sh, st, feed[0]);
    if j.dec.RetryIn? && |feed| > 1 {
      sh', st' := LastOfLogin(cfg, j.sh, j.st, feed[1..]);
    } else {
      sh', st' := sh, st;
    }
  }

  /** What the last round trip of a login makes of its error. */
  lemma LoginErrorOf(cfg: Config, sh: Shared, st: Counters, r: Reply, id: string)
    ensures var j := Evaluate(cfg, LOGIN_HINTS, sh, st, r, []);
            var err := LoginError(if j.dec.Terminal? then j.dec.out else Outcome(None, Cancelled));
            && err != InvalidArgument
            && (err == Ok <==>
                  && r.Response? && 200 <= r.status < 300
                  && (|| r.body.text == ""
                      || (r.body.session.Session? && (r.body.session.inquiry == "" || r.body.session.hasUser))))
            && (err == PersonaInquiry(id) <==>
                  && r.Response? && 200 <= r.status < 300
                  && r.body.text != "" && r.body.session == Session(id, false) && id != "")
            && (err == Undecodable <==>
                  r.Response? && 200 <= r.status < 300 && r.body.text != "" && r.body.session.MalformedSession?)
            && (err == Api(401) <==> r.Response? && r.status == 401)
            && (err == Cancelled <==> j.dec.RetryIn?)
            && (r.Response? && r.status == 403 && r.body.hasChecks ==> err == Api(403))
  {
  }

  /** Why a login failed, read off the last reply it received. */
  lemma LoginFailsIff(cfg: Config, sh: Shared, email: string, password: string, feed: seq<Reply>, id: string)
    ensures var l := LoginRun(cfg, sh, email, password, feed);
            && (l.err == InvalidArgument <==> email == "" || password == "")
            && (email != "" && password != "" && !sh.banned && feed != [] ==>
                  && l.log != []
                  && var r := l.log[|l.log| - 1].reply;
                     && (l.err == Ok <==>
                           && r.Response? && 200 <= r.status < 300
                           && (|| r.body.text == ""
                               || (&& r.body.session.Session?
                                   && (r.body.session.inquiry == "" || r.body.session.hasUser))))
                     && (l.err == PersonaInquiry(id) <==>
                           && r.Response? && 200 <= r.status < 300
                           && r.body.text != "" && r.body.session == Session(id, false) && id != "")
                     && (l.err == Undecodable <==>
                           && r.Response? && 200 <= r.status < 300
                           && r.body.text != "" && r.body.session.MalformedSession?)
                     && (l.err == Api(401) <==> r.Response? && r.status == 401)
                     && (r.Response? && r.status == 403 && r.body.hasChecks ==> l.err == Api(403)))
  {
    LoginUnfolded(cfg, sh, email, password, feed);
    if email != "" && password != "" && !sh.banned && feed != [] {
      var sh', st' := LastOfLogin(cfg, sh, FRESH, feed);
      var r := Run(cfg, LOGIN_HINTS, sh, FRESH, feed, []);
      LoginErrorOf(cfg, sh', st', r.log[|r.log| - 1].reply, id);
    } else if email != "" && password != "" && !sh.banned {
      assert Run(cfg, LOGIN_HINTS, sh, FRESH, [], []).out == Outcome(None, Cancelled);
    }
  }

  // ---- when a nil error can be trusted to have settled the call ----

  const OPAQUE_403 := Response(403, EMPTY_BODY, None)
  const LOST := Failed("connection reset")

  /** Whether an opaque 403 met in this state raises the flag. */
  predicate Bans(cfg: Config, sh: Shared) {
    cfg.banThreshold > 0 && Wrap32(sh.streak + 1) >= cfg.banThreshold
  }

  lemma {:induction false} LostThenOpaque(cfg: Config, h: Hints, sh: Shared, st: Counters, login: seq<Reply>)
    requires !Bans(cfg, sh)
    ensures Run(cfg, h, sh, st, Times(LOST, ErrorsLeft(cfg, st)) + [OPAQUE_403], login).out
         == Outcome(Some(OPAQUE_403), Ok)
    decreases ErrorsLeft(cfg, st)
  {
    var n := ErrorsLeft(cfg, st);
    if n == 0 {
      assert Times(LOST, 0) + [OPAQUE_403] == [OPAQUE_403];
      assert Attempt(cfg, h, sh, st, OPAQUE_403).dec == Terminal(Outcome(Some(OPAQUE_403), Ok));
    } else {
      var st' := st.(errAttempt := st.errAttempt + 1);
      var feed := Times(LOST, n) + [OPAQUE_403];
      assert feed[0] == LOST && feed[1..] == Times(LOST, ErrorsLeft(cfg, st')) + [OPAQUE_403];
      LostThenOpaque(cfg, h, sh, st', login);
    }
  }

  /** With the default options, three lost connections and one opaque 403 end in a nil error. */
  lemma OpaqueAfterThreeLost(email: string, password: string)
    ensures var cfg, h := Config(3, 60, 3), Hints(false, false, false, false, 0);
            var sh := Shared(0, false, "", email, password);
            Do(cfg, h, sh, [LOST, LOST, LOST, OPAQUE_403], []).out == Outcome(Some(OPAQUE_403), Ok)
  {
    var cfg, h := Config(3, 60, 3), Hints(false, false, false, false, 0);
    var sh := Shared(0, false, "", email, password);
    assert [LOST, LOST, LOST, OPAQUE_403] == Times(LOST, 3) + [OPAQUE_403];
    LostThenOpaque(cfg, h, sh, FRESH, []);
  }

  predicate CanLogin(h: Hints, st: Counters, sh: Shared) {
    LoginsLeft(h, st) == 1 && sh.email != "" && sh.password != ""
  }

  /** Every opaque 403 bans at once, and no login can clear the streak enough to change that. */
  predicate Touchy(cfg: Config, h: Hints, sh: Shared, st: Counters) {
    Bans(cfg, sh) && (cfg.banThreshold == 1 || !CanLogin(h, st, sh))
  }

  lemma TouchyRelogin(cfg: Config, h: Hints, sh: Shared, st: Counters, r: Reply, login: seq<Reply>)
    requires Touchy(cfg, h, sh, st) && Attempt(cfg, h, sh, st, r).dec.Relogin?
    ensures var j := Evaluate(cfg, h, sh, st, r, login);
            if j.dec.RetryIn? then Touchy(cfg, h, j.sh, j.st) else j.dec.out.err != Ok
  {
    LoginSucceedsIff(cfg, sh, sh.email, sh.password, login);
  }

  lemma TouchyAttempt(cfg: Config, h: Hints, sh: Shared, st: Counters, r: Reply, login: seq<Reply>)
    requires Touchy(cfg, h, sh, st)
    ensures var j := Evaluate(cfg, h, sh, st, r, login);
            if j.dec.RetryIn? then Touchy(cfg, h, j.sh, j.st)
            else j.dec.out.err == Ok ==> j.nested == [] && Classify(h, r) != Opaque
  {
    if Attempt(cfg, h, sh, st, r).dec.Relogin? {
      TouchyRelogin(cfg, h, sh, st, r, login);
    }
  }

  lemma {:induction false} TouchyRun(cfg: Config, h: Hints, sh: Shared, st: Counters, main: seq<Reply>,
                                     login: seq<Reply>)
    requires Touchy(cfg, h, sh, st)
    ensures var r := Run(cfg, h, sh, st, main, login);
            r.out.err == Ok ==> !LastIs(h, r.log, Opaque)
    decreases |main|
  {
    if main == [] {
    } else {
      var j := Evaluate(cfg, h, sh, st, main[0], login);
      TouchyAttempt(cfg, h, sh, st, main[0], login);
      if j.dec.RetryIn? {
        TouchyRun(cfg, h, j.sh, j.st, main[1..], login);
        var rest := Run(cfg, h, j.sh, j.st, main[1..], login);
        OwnErrorsConcat(h, [Event(h, main[0], j.dec)] + j.nested, rest.log);
        assert rest.log == [] ==> main[1..] == [];
      }
    }
  }

  /** Whatever the server does, a nil error comes with a reply that settled the call. */
  ghost predicate NilErrorSettles(cfg: Config, h: Hints, sh: Shared) {
    forall main, login ::
      var r := Do(cfg, h, sh, main, login);
      r.out.err == Ok ==> Settled(h, r.log)
  }

  lemma RefusedThenOpaque(cfg: Config, h: Hints, sh: Shared) returns (main: seq<Reply>, login: seq<Reply>)
    requires !sh.banned && CanLogin(h, FRESH, sh) && cfg.banThreshold > 1
    ensures Run(cfg, h, sh, FRESH, main, login).out == Outcome(Some(OPAQUE_403), Ok)
  {
    var rest := Times(LOST, ErrorsLeft(cfg, FRESH)) + [OPAQUE_403];
    main, login := [REFUSAL] + rest, [SUCCESS];
    LoginUnfolded(cfg, sh, sh.email, sh.password, login);
    LastSuccess(cfg, LOGIN_HINTS, sh, FRESH, []);
    LoginSucceedsIff(cfg, sh, sh.email, sh.password, login);
    var l := LoginRun(cfg, sh, sh.email, sh.password, login);
    assert l.err == Ok;
    assert Attempt(cfg, h, sh, FRESH, REFUSAL) == Attempted(Relogin, sh, FRESH);
    var st := FRESH.(relogged := true);
    assert Evaluate(cfg, h, sh, FRESH, REFUSAL, login) == Judged(RetryIn(UnauthorizedKind, 0), l.sh, st, l.log);
    LostThenOpaque(cfg, h, l.sh, st, login);
    assert main[1..] == rest;
  }

  lemma OpaqueIsUnsettled(h: Hints, main: seq<Reply>, r: Result)
    requires Tells(h, main, r) && r.out == Outcome(Some(OPAQUE_403), Ok)
    ensures !Settled(h, r.log)
  {
  }

  lemma OpaqueUnsettles(cfg: Config, h: Hints, sh: Shared, main: seq<Reply>, login: seq<Reply>)
    requires !sh.banned && Run(cfg, h, sh, FRESH, main, login).out == Outcome(Some(OPAQUE_403), Ok)
    ensures !NilErrorSettles(cfg, h, sh)
  {
    var r := Do(cfg, h, sh, main, login);
    OutcomeOfRun(cfg, h, sh, FRESH, main, login);
    OpaqueIsUnsettled(h, main, r);
    assert r.out.err == Ok && !Settled(h, r.log);
  }

  lemma TouchySettles(cfg: Config, h: Hints, sh: Shared)
    requires Touchy(cfg, h, sh, FRESH)
    ensures NilErrorSettles(cfg, h, sh)
  {
    forall main, login
      ensures var r := Do(cfg, h, sh, main, login);
              r.out.err == Ok ==> Settled(h, r.log)
    {
      TouchyRun(cfg, h, sh, FRESH, main, login);
      OutcomeOfRun(cfg, h, sh, FRESH, main, login);
    }
  }

  /**
   The exact condition, in terms of what is known before the call: a nil error
   can be trusted when the client is banned already, or when the next opaque 403
   bans and no login may clear the streak below a threshold above one.
   */
  lemma NilErrorSettlesIff(cfg: Config, h: Hints, sh: Shared)
    ensures NilErrorSettles(cfg, h, sh) <==> sh.banned || Touchy(cfg, h, sh, FRESH)
  {
    if sh.banned {
    } else if Touchy(cfg, h, sh, FRESH) {
      TouchySettles(cfg, h, sh);
    } else if Bans(cfg, sh) {
      var main, login := RefusedThenOpaque(cfg, h, sh);
      OpaqueUnsettles(cfg, h, sh, main, login);
    } else {
      var main := Times(LOST, ErrorsLeft(cfg, FRESH)) + [OPAQUE_403];
      LostThenOpaque(cfg, h, sh, FRESH, []);
      OpaqueUnsettles(cfg, h, sh, main, []);
    }
  }
}
