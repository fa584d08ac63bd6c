/** Ban detection over whole histories of calls on one client. */
module BanHistory {
  import opened Retry
  import opened Transport

  datatype BanMark = Reset | Strike | Neutral

  function MarkOf(e: Event): BanMark {
    match Classify(e.hints, e.reply)
    case Success => Reset
    case Accepted => Reset
    case ChecksRejected => Reset
    case Denied => Reset
    case Opaque => Strike
    case _ => Neutral
  }

  /** The opaque 403s after the last resetting reply of a history. */
  function Strikes(log: seq<Event>): nat {
    if log == [] then 0
    else
      var before := Strikes(log[..|log| - 1]);
      match MarkOf(log[|log| - 1])
      case Reset => 0
      case Strike => before + 1
      case Neutral => before
  }

  /** The threshold is positive and an int32 streak can reach it. */
  predicate Armed(cfg: Config) {
    0 < cfg.banThreshold <= MAX_INT32
  }

  /**
   The shared state is the fold of the history: the streak is the strike count
   (as an int32), and the flag is up exactly when the count stands at the threshold,
   which no earlier moment of the history reached.
   */
  ghost predicate Folds(cfg: Config, past: seq<Event>, sh: Shared) {
    && sh.streak == Wrap32(Strikes(past))
    && (sh.banned <==> Armed(cfg) && Strikes(past) == cfg.banThreshold)
    && (Armed(cfg) ==> forall i :: 0 <= i < |past| ==> Strikes(past[..i]) < cfg.banThreshold)
  }

  lemma WrapStep(n: nat)
    ensures Wrap32(Wrap32(n) + 1) == Wrap32(n + 1)
  {
  }

  lemma StrikesSnoc(past: seq<Event>, e: Event)
    ensures Strikes(past + [e]) == match MarkOf(e)
                                   case Reset => 0
                                   case Strike => Strikes(past) + 1
                                   case Neutral => Strikes(past)
  {
    assert (past + [e])[..|past|] == past;
  }

  lemma FoldsBelow(cfg: Config, past: seq<Event>, sh: Shared)
    requires Folds(cfg, past, sh) && !sh.banned && Armed(cfg)
    ensures Strikes(past) < cfg.banThreshold
  {
    if past != [] {
      assert past[..|past| - 1] + [past[|past| - 1]] == past;
      StrikesSnoc(past[..|past| - 1], past[|past| - 1]);
    }
  }

  lemma AttemptFolds(cfg: Config, h: Hints, sh: Shared, st: Counters, r: Reply, past: seq<Event>, e: Event)
    requires Folds(cfg, past, sh) && !sh.banned
    requires e.hints == h && e.reply == r
    ensures var a := Attempt(cfg, h, sh, st, r);
            Folds(cfg, past + [e], a.sh) && (a.sh.banned ==> a.dec.Terminal? && a.dec.out.err.Banned?)
  {
    var a := Attempt(cfg, h, sh, st, r);
    StrikesSnoc(past, e);
    WrapStep(Strikes(past));
    if Armed(cfg) {
      FoldsBelow(cfg, past, sh);
      forall i | 0 <= i < |past + [e]|
        ensures Strikes((past + [e])[..i]) < cfg.banThreshold
      {
        assert (past + [e])[..i] == past[..i];
        assert past[..|past|] == past;
      }
    }
  }

  lemma Regroup(a: seq<Event>, b: seq<Event>, c: seq<Event>)
    ensures a + (b + c) == a + b + c
  {
  }

  /** A call that raises the flag does not answer without an error. */
  lemma {:induction false} BannedRunFails(cfg: Config, h: Hints, sh: Shared, st: Counters, main: seq<Reply>,
                                          login: seq<Reply>)
    requires !sh.banned && h.noAutoRelogin
    ensures var r := Run(cfg, h, sh, st, main, login);
            r.sh.banned ==> r.out.err.Banned?
    decreases |main|
  {
    if main == [] {
    } else {
      var j := Evaluate(cfg, h, sh, st, main[0], login);
      if j.dec.RetryIn? {
        BannedRunFails(cfg, h, j.sh, j.st, main[1..], login);
      }
    }
  }

  lemma {:induction false} RunFolds(cfg: Config, h: Hints, sh: Shared, st: Counters, main: seq<Reply>,
                                    login: seq<Reply>, past: seq<Event>)
    requires Folds(cfg, past, sh) && !sh.banned
    ensures var r := Run(cfg, h, sh, st, main, login);
            Folds(cfg, past + r.log, r.sh)
    decreases Rank(h), 1, |main|
  {
    if main == [] {
      assert past + [] == past;
    } else {
      var j := Evaluate(cfg, h, sh, st, main[0], login);
      var here := [Event(h, main[0], j.dec)] + j.nested;
      EvaluateFolds(cfg, h, sh, st, main[0], login, past);
      if j.dec.RetryIn? {
        RunFolds(cfg, h, j.sh, j.st, main[1..], login, past + here);
        Regroup(past, here, Run(cfg, h, j.sh, j.st, main[1..], login).log);
      }
    }
  }

  lemma EvaluateFolds(cfg: Config, h: Hints, sh: Shared, st: Counters, r: Reply, login: seq<Reply>, past: seq<Event>)
    requires Folds(cfg, past, sh) && !sh.banned
    ensures var j := Evaluate(cfg, h, sh, st, r, login);
            && Folds(cfg, past + ([Event(h, r, j.dec)] + j.nested), j.sh)
            && (j.sh.banned ==> j.dec.Terminal?)
    decreases Rank(h), 0, 0
  {
    var a := Attempt(cfg, h, sh, st, r);
    var j := Evaluate(cfg, h, sh, st, r, login);
    var e := Event(h, r, j.dec);
    AttemptFolds(cfg, h, sh, st, r, past, e);
    assert past + ([e] + j.nested) == past + [e] + j.nested;
    if a.dec.Relogin? {
      LoginFolds(cfg, a.sh, a.sh.email, a.sh.password, login, past + [e]);
    } else {
      assert past + [e] + [] == past + [e];
    }
  }

  lemma LoginFolds(cfg: Config, sh: Shared, email: string, password: string, feed: seq<Reply>, past: seq<Event>)
    requires Folds(cfg, past, sh)
    ensures var l := LoginRun(cfg, sh, email, password, feed);
            Folds(cfg, past + l.log, l.sh) && (l.sh.banned ==> l.err != Ok)
    decreases 0, 2, 0
  {
    LoginUnfolded(cfg, sh, email, password, feed);
    assert past + [] == past;
    if email != "" && password != "" && !sh.banned {
      RunFolds(cfg, LOGIN_HINTS, sh, FRESH, feed, [], past);
      BannedRunFails(cfg, LOGIN_HINTS, sh, FRESH, feed, []);
    }
  }

  // ---- histories ----

  datatype Op =
    | Call(h: Hints, main: seq<Reply>, login: seq<Reply>)
    | SignIn(email: string, password: string, feed: seq<Reply>)
    | SetCredentials(email: string, password: string)
    | ClearCredentials

  datatype World = World(sh: Shared, log: seq<Event>)

  function Perform(cfg: Config, w: World, op: Op): World {
    match op
    case Call(h, main, login) =>
      var r := Do(cfg, h, w.sh, main, login);
      World(r.sh, w.log + r.log)
    case SignIn(email, password, feed) =>
      var l := LoginRun(cfg, w.sh, email, password, feed);
      World(l.sh, w.log + l.log)
    case SetCredentials(email, password) => w.(sh := w.sh.(email := email, password := password))
    case ClearCredentials => w.(sh := w.sh.(email := "", password := ""))
  }

  function History(cfg: Config, w: World, ops: seq<Op>): World
    decreases |ops|
  {
    if ops == [] then w else History(cfg, Perform(cfg, w, ops[0]), ops[1..])
  }

  lemma PerformFolds(cfg: Config, w: World, op: Op)
    requires Folds(cfg, w.log, w.sh)
    ensures var w' := Perform(cfg, w, op);
            && Folds(cfg, w'.log, w'.sh)
            && (w.sh.banned ==> w'.sh.banned && w'.log == w.log)
  {
    assert w.log + [] == w.log;
    match op
    case Call(h, main, login) =>
      if !w.sh.banned {
        RunFolds(cfg, h, w.sh, FRESH, main, login, w.log);
      }
    case SignIn(email, password, feed) =>
      LoginFolds(cfg, w.sh, email, password, feed, w.log);
      LoginUnfolded(cfg, w.sh, email, password, feed);
    case SetCredentials(_, _) =>
    case ClearCredentials =>
  }

  lemma {:induction false} HistoryFolds(cfg: Config, w: World, ops: seq<Op>)
    requires Folds(cfg, w.log, w.sh)
    ensures var w' := History(cfg, w, ops);
            && Folds(cfg, w'.log, w'.sh)
            && (w.sh.banned ==> w'.sh.banned && w'.log == w.log)
    decreases |ops|
  {
    if ops == [] {
    } else {
      PerformFolds(cfg, w, ops[0]);
      HistoryFolds(cfg, Perform(cfg, w, ops[0]), ops[1..]);
    }
  }

  /** The count stands at the threshold exactly when it has reached it at some point. */
  lemma FoldReaches(cfg: Config, past: seq<Event>, sh: Shared)
    requires Folds(cfg, past, sh) && Armed(cfg)
    ensures sh.banned <==> exists i :: 0 <= i <= |past| && Strikes(past[..i]) >= cfg.banThreshold
  {
    assert past[..|past|] == past;
    if sh.banned {
      assert Strikes(past[..|past|]) >= cfg.banThreshold;
    } else {
      FoldsBelow(cfg, past, sh);
    }
  }

  /**
   Ban detection is a fold over the round trips of any history on a new client:
   the streak counts the strikes since the last reset, the flag is up exactly
   when that count has reached an int32-reachable positive threshold, and that
   happens at the very last round trip: after it no operation makes another one
   and the flag stays up.
   */
  lemma BanIsAFold(cfg: Config, email: string, password: string, ops: seq<Op>, more: seq<Op>)
    ensures var w := History(cfg, World(Shared(0, false, "", email, password), []), ops);
            && w.sh.streak == Wrap32(Strikes(w.log))
            && (w.sh.banned <==> Armed(cfg) && exists i :: 0 <= i <= |w.log| && Strikes(w.log[..i]) >= cfg.banThreshold)
            && (Armed(cfg) ==> forall i :: 0 <= i < |w.log| ==> Strikes(w.log[..i]) < cfg.banThreshold)
            && (w.sh.banned ==> History(cfg, w, more).sh.banned && History(cfg, w, more).log == w.log)
  {
    var w0 := World(Shared(0, false, "", email, password), []);
    HistoryFolds(cfg, w0, ops);
    var w := History(cfg, w0, ops);
    HistoryFolds(cfg, w, more);
    if Armed(cfg) {
      FoldReaches(cfg, w.log, w.sh);
    }
  }
}
