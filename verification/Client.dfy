/**
 The client object of pkg/brainapi/client.go with the request loop of
 transport.go and the login of auth.go, in the form the program has them:
 fields updated by methods. Each method is proved against `Transport`.
 */
module Client {
  import opened Wrappers
  import opened Retry
  import opened Transport

  /** The counters of one running call (retryState). */
  class RetryState {
    var relogged: bool
    var longPollSeen: nat
    var errAttempt: nat

    constructor ()
      ensures Counters() == FRESH
    {
      relogged, longPollSeen, errAttempt := false, 0, 0;
    }

    ghost function Counters(): Counters
      reads this
    {
      Retry.Counters(relogged, longPollSeen, errAttempt)
    }
  }

  class Client {
    const cfg: Config
    var consecutive403: int
    var bannedFlag: bool
    var banReason: string
    var email: string
    var password: string

    /** NewClient: zero options take their defaults. */
    constructor (maxRetries: int, maxLongPolls: int, banThreshold: int, email: string, password: string)
      ensures cfg == Config(
        if maxRetries == 0 then 3 else maxRetries,
        if maxLongPolls == 0 then 60 else maxLongPolls,
        if banThreshold == 0 then 3 else banThreshold)
      ensures State() == Shared(0, false, "", email, password)
    {
      cfg := Config(
        if maxRetries == 0 then 3 else maxRetries,
        if maxLongPolls == 0 then 60 else maxLongPolls,
        if banThreshold == 0 then 3 else banThreshold);
      consecutive403, bannedFlag, banReason := 0, false, "";
      this.email, this.password := email, password;
    }

    ghost function State(): Shared
      reads this
    {
      Shared(consecutive403, bannedFlag, banReason, email, password)
    }

    method SetCredentials(email: string, password: string)
      modifies this`email, this`password
      ensures State() == old(State()).(email := email, password := password)
    {
      this.email, this.password := email, password;
    }

    method ClearCredentials()
      modifies this`email, this`password
      ensures State() == old(State()).(email := "", password := "")
    {
      email, password := "", "";
    }

    method Preflight() returns (err: Error)
      ensures err == if State().banned then Banned(State().streak, State().reason) else Ok
    {
      err := if bannedFlag then Banned(consecutive403, banReason) else Ok;
    }

    /** Classifies one attempt; on a 401 it logs in again before answering. */
    method Evaluate(h: Hints, reply: Reply, st: RetryState, login: seq<Reply>)
      returns (dec: Decision, nested: seq<Event>)
      modifies this, st
      ensures Judged(dec, State(), st.Counters(), nested) ==
              Transport.Evaluate(cfg, h, old(State()), old(st.Counters()), reply, login)
      decreases Rank(h), 0
    {
      nested := [];
      var cap := EffectiveMaxLongPolls(cfg.maxLongPolls, h.maxLongPolls);
      if reply.Failed? {
        if st.errAttempt >= cfg.maxRetries {
          return Terminal(Outcome(None, Network(reply.cause))), [];
        }
        var sleep := Clamp((st.errAttempt + 1) * NETWORK_ERR_FLOOR, NETWORK_ERR_FLOOR, NETWORK_ERR_CEILING);
        st.errAttempt := st.errAttempt + 1;
        return RetryIn(NetworkKind, sleep), [];
      }
      var status, body := reply.status, reply.body;
      if 200 <= status < 300 {
        if h.longPoll200Empty && body.text == "" && reply.retryAfter.Some? {
          st.longPollSeen := st.longPollSeen + 1;
          if st.longPollSeen > cap {
            return Terminal(Outcome(None, LongPollExceeded)), [];
          }
          return RetryIn(LongPollKind, Clamp(reply.retryAfter.value, LONG_POLL_FLOOR, LONG_POLL_CEILING)), [];
        }
        consecutive403 := 0;
        return Terminal(Outcome(Some(reply), Ok)), [];
      }
      if h.accept503 && 300 <= status < 400 {
        consecutive403 := 0;
        return Terminal(Outcome(Some(reply), Ok)), [];
      } else if h.accept503 && status == 503 {
        consecutive403 := 0;
        return Terminal(Outcome(Some(reply), Ok)), [];
      } else if status == 401 {
        if h.noAutoRelogin || st.relogged {
          return Terminal(Outcome(Some(reply), Api(401))), [];
        }
        if email == "" || password == "" {
          return Terminal(Outcome(Some(reply), NotAuthenticated)), [];
        }
        var err;
        err, nested := Login(email, password, login);
        if err != Ok {
          return Terminal(Outcome(Some(reply), err)), nested;
        }
        st.relogged := true;
        return RetryIn(UnauthorizedKind, 0), nested;
      } else if status == 403 {
        if body.hasChecks {
          consecutive403 := 0;
          return Terminal(Outcome(Some(reply), Ok)), [];
        }
        if body.notVerified {
          return Terminal(Outcome(Some(reply), NotVerified)), [];
        }
        if body.detail.Some? {
          consecutive403 := 0;
          return Terminal(Outcome(Some(reply), PermissionDenied(body.detail.value))), [];
        }
        consecutive403 := Wrap32(consecutive403 + 1);
        if cfg.banThreshold > 0 && consecutive403 >= cfg.banThreshold {
          var reason := ShortBody(body.text);
          bannedFlag := true;
          banReason := reason;
          return Terminal(Outcome(Some(reply), Banned(consecutive403, reason))), [];
        }
        if st.errAttempt >= cfg.maxRetries {
          return Terminal(Outcome(Some(reply), Ok)), [];
        }
        st.errAttempt := st.errAttempt + 1;
        return RetryIn(ForbiddenKind, SERVER_ERR_FLOOR), [];
      } else if status == 429 {
        var d := Clamp(reply.retryAfter.GetOr(0), RATE_LIMIT_FLOOR, RATE_LIMIT_CEILING);
        if st.errAttempt >= cfg.maxRetries {
          return Terminal(Outcome(Some(reply), RateLimited(d, body.cooldown))), [];
        }
        st.errAttempt := st.errAttempt + 1;
        return RetryIn(if body.cooldown then CooldownKind else RateLimitKind, d), [];
      } else if status == 503 && h.longPoll503 {
        st.longPollSeen := st.longPollSeen + 1;
        if st.longPollSeen > cap {
          return Terminal(Outcome(None, LongPollExceeded)), [];
        }
        return RetryIn(LongPollKind, Clamp(reply.retryAfter.GetOr(0), LONG_POLL_FLOOR, LONG_POLL_CEILING)), [];
      } else if status >= 500 {
        if st.errAttempt >= cfg.maxRetries {
          return Terminal(Outcome(Some(reply), Api(status))), [];
        }
        var d := Clamp((st.errAttempt + 1) * SERVER_ERR_FLOOR, SERVER_ERR_FLOOR, SERVER_ERR_CEILING);
        st.errAttempt := st.errAttempt + 1;
        return RetryIn(ServerKind, d), [];
      } else {
        return Terminal(Outcome(Some(reply), ClientErrorOf(reply))), [];
      }
    }

    /**
     The retry loop. Its measure is the engine's own termination argument, the
     three budgets held in the counters; the length of the feed plays no part in it.
     */
    method Do(h: Hints, main: seq<Reply>, login: seq<Reply>) returns (out: Outcome, log: seq<Event>)
      modifies this
      ensures Result(out, State(), log) == Transport.Do(cfg, h, old(State()), main, login)
      decreases Rank(h), 2
    {
      log := [];
      var err := Preflight();
      if err != Ok {
        return Outcome(None, err), log;
      }
      var st := new RetryState();
      var i := 0;
      ghost var whole := Run(cfg, h, State(), FRESH, main, login);
      assert whole.After([]) == whole && main[0..] == main;
      while true
        invariant fresh(st) && i <= |main|
        invariant whole == Run(cfg, h, State(), st.Counters(), main[i..], login).After(log)
        decreases Budget(cfg, h, st.Counters())
      {
        if i == |main| {
          assert log + [] == log;
          return Outcome(None, Cancelled), log;
        }
        RunStep(cfg, h, State(), st.Counters(), main, i, login);
        RetrySpendsOne(cfg, h, State(), st.Counters(), main[i], login);
        ghost var before := log;
        var dec, nested := Evaluate(h, main[i], st, login);
        ghost var here := [Event(h, main[i], dec)] + nested;
        log := log + ([Event(h, main[i], dec)] + nested);
        if dec.Terminal? {
          return dec.out, log;
        }
        i := i + 1;
        AfterAfter(Run(cfg, h, State(), st.Counters(), main[i..], login), here, before);
      }
    }

    method Login(email: string, password: string, feed: seq<Reply>) returns (err: Error, log: seq<Event>)
      modifies this
      ensures LoginResult(err, State(), log) == LoginRun(cfg, old(State()), email, password, feed)
      decreases 0, 3
    {
      if email == "" || password == "" {
        return InvalidArgument, [];
      }
      var out;
      out, log := Do(LOGIN_HINTS, feed, []);
      err := LoginError(out);
      if err == Ok {
        SetCredentials(email, password);
      }
    }
  }
}
