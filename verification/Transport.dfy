/**
 The request engine of pkg/brainapi/transport.go as functions on values: the
 specification the methods of `Client` are proved against.

 A call is driven by two finite feeds, the replies of its own endpoint and the
 replies of the authentication endpoint. The end of a feed is the moment the
 caller's context is cancelled.
 */
module Transport {
  import opened Wrappers
  import opened Retry

  /** One round trip: the hints of the call that made it, the reply, the decision. */
  datatype Event = Event(hints: Hints, reply: Reply, dec: Decision)

  datatype Attempted = Attempted(dec: Decision, sh: Shared, st: Counters)

  datatype Judged = Judged(dec: Decision, sh: Shared, st: Counters, nested: seq<Event>)

  datatype Result = Result(out: Outcome, sh: Shared, log: seq<Event>) {
    /** The same result with earlier round trips put in front of its log. */
    function After(prefix: seq<Event>): Result {
      Result(out, sh, prefix + log)
    }
  }

  datatype LoginResult = LoginResult(err: Error, sh: Shared, log: seq<Event>)

  /** A retry charged to the error budget, or the end of the call once it is spent. */
  function Charge(cfg: Config, sh: Shared, st: Counters, r: Reply, c: Class): Attempted
    requires ErrorClass(c) && (r.Failed? <==> c == NetworkError)
  {
    if st.errAttempt >= cfg.maxRetries then Attempted(Terminal(Exhausted(r, c)), sh, st)
    else Attempted(RetryIn(KindOf(r, c), Backoff(r, c, st.errAttempt)), sh, st.(errAttempt := st.errAttempt + 1))
  }

  /** One attempt, up to the point where a 401 needs a login. */
  function Attempt(cfg: Config, h: Hints, sh: Shared, st: Counters, r: Reply): Attempted {
    var stop := (out: Outcome, sh': Shared) => Attempted(Terminal(out), sh', st);
    match Classify(h, r)
    case Success => stop(Outcome(Some(r), Ok), sh.(streak := 0))
    case Accepted => stop(Outcome(Some(r), Ok), sh.(streak := 0))
    case ChecksRejected => stop(Outcome(Some(r), Ok), sh.(streak := 0))
    case Denied => stop(Outcome(Some(r), PermissionDenied(r.body.detail.value)), sh.(streak := 0))
    case Unverified => stop(Outcome(Some(r), NotVerified), sh)
    case ClientError => stop(Outcome(Some(r), ClientErrorOf(r)), sh)
    case Unauthorized =>
      if h.noAutoRelogin || st.relogged then stop(Outcome(Some(r), Api(401)), sh)
      else if sh.email == "" || sh.password == "" then stop(Outcome(Some(r), NotAuthenticated), sh)
      else Attempted(Relogin, sh, st)
    case Tick =>
      var st' := st.(longPollSeen := st.longPollSeen + 1);
      if st'.longPollSeen > Cap(cfg, h) then Attempted(Terminal(Outcome(None, LongPollExceeded)), sh, st')
      else Attempted(RetryIn(LongPollKind, Clamp(r.retryAfter.GetOr(0), LONG_POLL_FLOOR, LONG_POLL_CEILING)), sh, st')
    case Opaque =>
      var sh' := sh.(streak := Wrap32(sh.streak + 1));
      if cfg.banThreshold > 0 && sh'.streak >= cfg.banThreshold then
        var reason := ShortBody(r.body.text);
        stop(Outcome(Some(r), Banned(sh'.streak, reason)), sh'.(banned := true, reason := reason))
      else Charge(cfg, sh', st, r, Opaque)
    case c => Charge(cfg, sh, st, r, c)
  }

  function Rank(h: Hints): nat {
    if h.noAutoRelogin then 0 else 1
  }

  /** One attempt with the login a 401 may need: `evaluate`. */
  function Evaluate(cfg: Config, h: Hints, sh: Shared, st: Counters, r: Reply, login: seq<Reply>): (j: Judged)
    ensures !j.dec.Relogin?
    decreases Rank(h), 0, 0
  {
    var a := Attempt(cfg, h, sh, st, r);
    if !a.dec.Relogin? then Judged(a.dec, a.sh, a.st, [])
    else
      var l := LoginRun(cfg, a.sh, a.sh.email, a.sh.password, login);
      if l.err != Ok then Judged(Terminal(Outcome(Some(r), l.err)), l.sh, a.st, l.log)
      else Judged(RetryIn(UnauthorizedKind, 0), l.sh, a.st.(relogged := true), l.log)
  }

  /** The loop of `do`. */
  function Run(cfg: Config, h: Hints, sh: Shared, st: Counters, main: seq<Reply>, login: seq<Reply>): Result
    decreases Rank(h), 1, |main|
  {
    if main == [] then Result(Outcome(None, Cancelled), sh, [])
    else
      var j := Evaluate(cfg, h, sh, st, main[0], login);
      var here := [Event(h, main[0], j.dec)] + j.nested;
      if j.dec.Terminal? then Result(j.dec.out, j.sh, here)
      else Run(cfg, h, j.sh, j.st, main[1..], login).After(here)
  }

  /** `do`: the ban gate, then the loop. */
  function Do(cfg: Config, h: Hints, sh: Shared, main: seq<Reply>, login: seq<Reply>): Result
    decreases Rank(h), 2, 0
  {
    if sh.banned then Result(Outcome(None, Banned(sh.streak, sh.reason)), sh, [])
    else Run(cfg, h, sh, FRESH, main, login)
  }

  /** What Login makes of the outcome of its own `do`. */
  function LoginError(out: Outcome): Error {
    if out.err != Ok then out.err
    else if out.resp.None? || out.resp.value.Failed? then Undecodable
    else if !Is2xx(out.resp.value.status) then Api(out.resp.value.status)
    else
      var body := out.resp.value.body;
      if body.text == "" then Ok
      else if body.session.MalformedSession? then Undecodable
      else if body.session.inquiry != "" && !body.session.hasUser then PersonaInquiry(body.session.inquiry)
      else Ok
  }

  function LoginRun(cfg: Config, sh: Shared, email: string, password: string, feed: seq<Reply>): LoginResult
    decreases 0, 3, 0
  {
    if email == "" || password == "" then LoginResult(InvalidArgument, sh, [])
    else
      var r := Do(cfg, LOGIN_HINTS, sh, feed, []);
      var err := LoginError(r.out);
      LoginResult(err, if err == Ok then r.sh.(email := email, password := password) else r.sh, r.log)
  }

  lemma LoginUnfolded(cfg: Config, sh: Shared, email: string, password: string, feed: seq<Reply>)
    ensures var l := LoginRun(cfg, sh, email, password, feed);
            if email == "" || password == "" then l == LoginResult(InvalidArgument, sh, [])
            else if sh.banned then l == LoginResult(Banned(sh.streak, sh.reason), sh, [])
            else
              var r := Run(cfg, LOGIN_HINTS, sh, FRESH, feed, []);
              l == LoginResult(LoginError(r.out),
                               if LoginError(r.out) == Ok then r.sh.(email := email, password := password) else r.sh,
                               r.log)
  {
    if email != "" && password != "" && !sh.banned {
      assert Do(cfg, LOGIN_HINTS, sh, feed, []) == Run(cfg, LOGIN_HINTS, sh, FRESH, feed, []);
    }
  }

  /** How many more error retries, and how many more ticks, the counters allow. */
  function ErrorsLeft(cfg: Config, st: Counters): nat {
    Max0(cfg.maxRetries - st.errAttempt)
  }

  function PollsLeft(cfg: Config, h: Hints, st: Counters): nat {
    if CanTick(h) then Max0(Cap(cfg, h) - st.longPollSeen) else 0
  }

  function LoginsLeft(h: Hints, st: Counters): nat {
    if h.noAutoRelogin || st.relogged then 0 else 1
  }

  function Budget(cfg: Config, h: Hints, st: Counters): nat {
    ErrorsLeft(cfg, st) + PollsLeft(cfg, h, st) + LoginsLeft(h, st)
  }

  /** An attempt that does not end the call spends one unit of one budget and leaves the other counters alone. */
  lemma RetrySpendsOne(cfg: Config, h: Hints, sh: Shared, st: Counters, r: Reply, login: seq<Reply>)
    ensures var j := Evaluate(cfg, h, sh, st, r, login);
            match j.dec
            case Terminal(_) => true
            case RetryIn(LongPollKind, _) =>
              && PollsLeft(cfg, h, j.st) + 1 == PollsLeft(cfg, h, st)
              && j.st == st.(longPollSeen := j.st.longPollSeen)
            case RetryIn(UnauthorizedKind, _) =>
              && LoginsLeft(h, j.st) + 1 == LoginsLeft(h, st)
              && j.st == st.(relogged := true)
            case _ =>
              && ErrorsLeft(cfg, j.st) + 1 == ErrorsLeft(cfg, st)
              && j.st == st.(errAttempt := j.st.errAttempt)
  {
  }

  lemma AfterAfter(r: Result, a: seq<Event>, b: seq<Event>)
    ensures r.After(a).After(b) == r.After(b + a)
  {
    assert b + (a + r.log) == b + a + r.log;
  }

  lemma RunStep(cfg: Config, h: Hints, sh: Shared, st: Counters, main: seq<Reply>, i: nat, login: seq<Reply>)
    requires i < |main|
    ensures var j := Evaluate(cfg, h, sh, st, main[i], login);
            var here := [Event(h, main[i], j.dec)] + j.nested;
            Run(cfg, h, sh, st, main[i..], login) ==
              if j.dec.Terminal? then Result(j.dec.out, j.sh, here)
              else Run(cfg, h, j.sh, j.st, main[i + 1..], login).After(here)
  {
    assert main[i..][0] == main[i] && main[i..][1..] == main[i + 1..];
  }
}
