/**
 Concurrent calls on one client as interleaved atomic steps, and why they do
 not disturb each other while the ban flag stays clear.
 */
module Isolation {
  import opened Wrappers
  import opened Retry
  import opened Transport

  datatype Phase =
    | Fresh                                                   // before the ban gate
    | Looping(st: Counters)
    | LoginGate(st: Counters, cause: Reply, email: string, password: string)
    | LoginLoop(st: Counters, cause: Reply, email: string, password: string, lst: Counters)
    | Tripping(out: Outcome, reason: string)                  // counted the fatal 403, flag not stored yet
    | Finished(out: Outcome)

  /** One call: the replies it has still to receive, and where it stands. */
  datatype Request = Request(h: Hints, main: seq<Reply>, login: seq<Reply>, phase: Phase)

  datatype World = World(sh: Shared, reqs: seq<Request>)

  /** Whether an attempt is the one that raises the flag; the flag itself is stored by a later step. */
  predicate Trips(a: Attempted) {
    a.dec.Terminal? && a.dec.out.err.Banned?
  }

  /** The shared state right after the attempt's own atomic update of the streak. */
  function Counted(sh: Shared, a: Attempted): Shared {
    if Trips(a) then sh.(streak := a.sh.streak) else a.sh
  }

  function AfterLogin(sh: Shared, r: Request, out: Outcome): (Shared, Request)
    requires r.phase.LoginLoop?
  {
    var p := r.phase;
    var err := LoginError(out);
    if err == Ok then (sh.(email := p.email, password := p.password), r.(phase := Looping(p.st.(relogged := true))))
    else (sh, r.(phase := Finished(Outcome(Some(p.cause), err))))
  }

  /** The next atomic step of one call. */
  function Step(cfg: Config, sh: Shared, r: Request): (Shared, Request) {
    match r.phase
    case Fresh =>
      if sh.banned then (sh, r.(phase := Finished(Outcome(None, Banned(sh.streak, sh.reason)))))
      else (sh, r.(phase := Looping(FRESH)))
    case Looping(st) =>
      if r.main == [] then (sh, r.(phase := Finished(Outcome(None, Cancelled))))
      else
        var a := Attempt(cfg, r.h, sh, st, r.main[0]);
        var r' := r.(main := r.main[1..]);
        if Trips(a) then (Counted(sh, a), r'.(phase := Tripping(a.dec.out, a.sh.reason)))
        else
          (match a.dec
           case Terminal(out) => (a.sh, r'.(phase := Finished(out)))
           case RetryIn(_, _) => (a.sh, r'.(phase := Looping(a.st)))
           case Relogin => (a.sh, r'.(phase := LoginGate(st, r.main[0], sh.email, sh.password))))
    case LoginGate(st, cause, email, password) =>
      if sh.banned then (sh, r.(phase := Finished(Outcome(Some(cause), Banned(sh.streak, sh.reason)))))
      else (sh, r.(phase := LoginLoop(st, cause, email, password, FRESH)))
    case LoginLoop(st, cause, email, password, lst) =>
      if r.login == [] then AfterLogin(sh, r, Outcome(None, Cancelled))
      else
        var a := Attempt(cfg, LOGIN_HINTS, sh, lst, r.login[0]);
        var r' := r.(login := r.login[1..]);
        if Trips(a) then (Counted(sh, a), r'.(phase := Tripping(Outcome(Some(cause), a.dec.out.err), a.sh.reason)))
        else
          (match a.dec
           case Terminal(out) => AfterLogin(a.sh, r', out)
           case RetryIn(_, _) => (a.sh, r'.(phase := LoginLoop(st, cause, email, password, a.st)))
           case Relogin => (sh, r'))
    case Tripping(out, reason) => (sh.(banned := true, reason := reason), r.(phase := Finished(out)))
    case Finished(_) => (sh, r)
  }

  function Next(cfg: Config, w: World, i: nat): World {
    if i >= |w.reqs| then w
    else
      var (sh, r) := Step(cfg, w.sh, w.reqs[i]);
      World(sh, w.reqs[i := r])
  }

  /** The schedule names, step by step, the call that moves. */
  function Execute(cfg: Config, w: World, schedule: seq<nat>): World
    decreases |schedule|
  {
    if schedule == [] then w else Execute(cfg, Next(cfg, w, schedule[0]), schedule[1..])
  }

  // ---- running alone ----

  function NoBan(cfg: Config): Config {
    cfg.(banThreshold := 0)
  }

  /** Two shared states that differ in the 403 streak only. */
  predicate SameSession(a: Shared, b: Shared) {
    a == b.(streak := a.streak, reason := a.reason) && !a.banned
  }

  lemma AttemptAlone(cfg: Config, h: Hints, a: Shared, b: Shared, st: Counters, r: Reply)
    requires SameSession(a, b) && cfg.banThreshold <= 0
    ensures var x, y := Attempt(cfg, h, a, st, r), Attempt(cfg, h, b, st, r);
            x.dec == y.dec && x.st == y.st && SameSession(x.sh, y.sh) && SameSession(x.sh, a)
            && (x.dec.Relogin? ==> x.st == st && x.sh == a && y.sh == b && LoginsLeft(h, st) == 1)
            && LoginsLeft(h, x.st) == LoginsLeft(h, st)
  {
  }

  /** Without ban detection neither the streak nor a used-up login feed matters to the answer. */
  lemma {:induction false} RunAlone(cfg: Config, h: Hints, a: Shared, b: Shared, st: Counters, main: seq<Reply>,
                                    l: seq<Reply>, k: seq<Reply>)
    requires SameSession(a, b) && cfg.banThreshold <= 0
    requires l == k || LoginsLeft(h, st) == 0
    ensures var x, y := Run(cfg, h, a, st, main, l), Run(cfg, h, b, st, main, k);
            x.out == y.out && SameSession(x.sh, y.sh) && SameSession(x.sh, a)
    decreases Rank(h), 1, |main|
  {
    if main == [] {
    } else {
      EvaluateAlone(cfg, h, a, b, st, main[0], l, k);
      var x, y := Evaluate(cfg, h, a, st, main[0], l), Evaluate(cfg, h, b, st, main[0], k);
      if x.dec.RetryIn? {
        RunAlone(cfg, h, x.sh, y.sh, x.st, main[1..], l, k);
      }
    }
  }

  lemma EvaluateAlone(cfg: Config, h: Hints, a: Shared, b: Shared, st: Counters, r: Reply, l: seq<Reply>, k: seq<Reply>)
    requires SameSession(a, b) && cfg.banThreshold <= 0
    requires l == k || LoginsLeft(h, st) == 0
    ensures var x, y := Evaluate(cfg, h, a, st, r, l), Evaluate(cfg, h, b, st, r, k);
            && x.dec == y.dec && x.st == y.st && SameSession(x.sh, y.sh) && SameSession(x.sh, a)
            && (x.dec.RetryIn? ==> l == k || LoginsLeft(h, x.st) == 0)
    decreases Rank(h), 0, 0
  {
    AttemptAlone(cfg, h, a, b, st, r);
    var x, y := Attempt(cfg, h, a, st, r), Attempt(cfg, h, b, st, r);
    if x.dec.Relogin? {
      LoginAlone(cfg, a, b, l);
    } else {
      assert Evaluate(cfg, h, a, st, r, l) == Judged(x.dec, x.sh, x.st, []);
      assert Evaluate(cfg, h, b, st, r, k) == Judged(y.dec, y.sh, y.st, []);
    }
  }

  lemma LoginAlone(cfg: Config, a: Shared, b: Shared, feed: seq<Reply>)
    requires SameSession(a, b) && cfg.banThreshold <= 0
    ensures var x, y := LoginRun(cfg, a, a.email, a.password, feed), LoginRun(cfg, b, b.email, b.password, feed);
            x.err == y.err && SameSession(x.sh, y.sh) && SameSession(x.sh, a)
    decreases 0, 2, 0
  {
    LoginUnfolded(cfg, a, a.email, a.password, feed);
    LoginUnfolded(cfg, b, b.email, b.password, feed);
    RunAlone(cfg, LOGIN_HINTS, a, b, FRESH, feed, [], []);
  }

  function LoginFuture(cfg: Config, sh: Shared, r: Request, st: Counters, cause: Reply, lst: Counters): Outcome {
    var err := LoginError(Run(NoBan(cfg), LOGIN_HINTS, sh, lst, r.login, []).out);
    if err == Ok then Run(NoBan(cfg), r.h, sh, st.(relogged := true), r.main, r.login).out
    else Outcome(Some(cause), err)
  }

  /** What the call would still answer if it ran alone from here, with ban detection off. */
  function Future(cfg: Config, sh: Shared, r: Request): Outcome {
    match r.phase
    case Fresh => Run(NoBan(cfg), r.h, sh, FRESH, r.main, r.login).out
    case Looping(st) => Run(NoBan(cfg), r.h, sh, st, r.main, r.login).out
    case LoginGate(st, cause, email, password) => LoginFuture(cfg, sh, r, st, cause, FRESH)
    case LoginLoop(st, cause, email, password, lst) => LoginFuture(cfg, sh, r, st, cause, lst)
    case Tripping(out, _) => out
    case Finished(out) => out
  }

  /** A call in the middle of a login holds the session's own credentials and its first login. */
  predicate Consistent(sh: Shared, r: Request) {
    match r.phase
    case LoginGate(st, _, email, password) =>
      email == sh.email != "" && password == sh.password != "" && LoginsLeft(r.h, st) == 1
    case LoginLoop(st, _, email, password, _) =>
      email == sh.email != "" && password == sh.password != "" && LoginsLeft(r.h, st) == 1
    case _ => true
  }

  lemma BanOffAttempt(cfg: Config, h: Hints, sh: Shared, st: Counters, r: Reply)
    requires !Trips(Attempt(cfg, h, sh, st, r))
    ensures Attempt(NoBan(cfg), h, sh, st, r) == Attempt(cfg, h, sh, st, r)
  {
  }

  lemma FutureIgnoresStreak(cfg: Config, a: Shared, b: Shared, r: Request)
    requires SameSession(a, b)
    ensures Future(cfg, a, r) == Future(cfg, b, r)
  {
    var off := NoBan(cfg);
    match r.phase
    case Fresh => RunAlone(off, r.h, a, b, FRESH, r.main, r.login, r.login);
    case Looping(st) => RunAlone(off, r.h, a, b, st, r.main, r.login, r.login);
    case LoginGate(st, _, _, _) =>
      RunAlone(off, LOGIN_HINTS, a, b, FRESH, r.login, [], []);
      RunAlone(off, r.h, a, b, st.(relogged := true), r.main, r.login, r.login);
    case LoginLoop(st, _, _, _, lst) =>
      RunAlone(off, LOGIN_HINTS, a, b, lst, r.login, [], []);
      RunAlone(off, r.h, a, b, st.(relogged := true), r.main, r.login, r.login);
    case _ =>
  }

  /** Entering the login does not change what the call will answer. */
  lemma ReloginStep(cfg: Config, sh: Shared, r: Request, st: Counters)
    requires !sh.banned && r.main != [] && Attempt(NoBan(cfg), r.h, sh, st, r.main[0]).dec.Relogin?
    ensures LoginFuture(cfg, sh, r.(main := r.main[1..]), st, r.main[0], FRESH)
         == Run(NoBan(cfg), r.h, sh, st, r.main, r.login).out
  {
    var off := NoBan(cfg);
    assert Attempt(off, r.h, sh, st, r.main[0]) == Attempted(Relogin, sh, st);
    LoginUnfolded(off, sh, sh.email, sh.password, r.login);
    LoginAlone(off, sh, sh, r.login);
    var l := LoginRun(off, sh, sh.email, sh.password, r.login);
    var j := Evaluate(off, r.h, sh, st, r.main[0], r.login);
    if l.err == Ok {
      assert j == Judged(RetryIn(UnauthorizedKind, 0), l.sh, st.(relogged := true), l.log);
      RunAlone(off, r.h, l.sh, sh, st.(relogged := true), r.main[1..], r.login, r.login);
    }
  }

  lemma LoopStep(cfg: Config, sh: Shared, r: Request)
    requires !sh.banned && r.phase.Looping? && r.main != []
    ensures var (sh', r') := Step(cfg, sh, r);
            && SameSession(sh', sh)
            && Consistent(sh', r')
            && (r'.phase.Tripping? || Future(cfg, sh', r') == Future(cfg, sh, r))
  {
    var st := r.phase.st;
    var a := Attempt(cfg, r.h, sh, st, r.main[0]);
    if !Trips(a) {
      BanOffAttempt(cfg, r.h, sh, st, r.main[0]);
      AttemptAlone(NoBan(cfg), r.h, sh, sh, st, r.main[0]);
      if a.dec.Relogin? {
        ReloginStep(cfg, sh, r, st);
      } else {
        assert Evaluate(NoBan(cfg), r.h, sh, st, r.main[0], r.login) == Judged(a.dec, a.sh, a.st, []);
      }
    }
  }

  lemma LoginStep(cfg: Config, sh: Shared, r: Request)
    requires !sh.banned && Consistent(sh, r) && r.phase.LoginLoop? && r.login != []
    ensures var (sh', r') := Step(cfg, sh, r);
            && SameSession(sh', sh)
            && Consistent(sh', r')
            && (r'.phase.Tripping? || Future(cfg, sh', r') == Future(cfg, sh, r))
  {
    var off, p := NoBan(cfg), r.phase;
    var a := Attempt(cfg, LOGIN_HINTS, sh, p.lst, r.login[0]);
    if !Trips(a) {
      BanOffAttempt(cfg, LOGIN_HINTS, sh, p.lst, r.login[0]);
      AttemptAlone(off, LOGIN_HINTS, sh, sh, p.lst, r.login[0]);
      assert Evaluate(off, LOGIN_HINTS, sh, p.lst, r.login[0], []) == Judged(a.dec, a.sh, a.st, []);
      var r' := Step(cfg, sh, r).1;
      RunAlone(off, r.h, Step(cfg, sh, r).0, sh, p.st.(relogged := true), r.main, r'.login, r.login);
      if a.dec.RetryIn? {
        RunAlone(off, LOGIN_HINTS, a.sh, sh, a.st, r'.login, [], []);
      }
    }
  }

  /** A step that does not trip keeps the moving call's future and the session. */
  lemma StepKeepsFuture(cfg: Config, sh: Shared, r: Request)
    requires !sh.banned && Consistent(sh, r) && !r.phase.Tripping?
    ensures var (sh', r') := Step(cfg, sh, r);
            && SameSession(sh', sh)
            && Consistent(sh', r')
            && (r'.phase.Tripping? || Future(cfg, sh', r') == Future(cfg, sh, r))
  {
    match r.phase
    case Looping(st) =>
      if r.main != [] {
        LoopStep(cfg, sh, r);
      }
    case LoginLoop(_, _, _, _, _) =>
      if r.login != [] {
        LoginStep(cfg, sh, r);
      }
    case _ =>
  }

  // ---- with or without a ban ----

  /** The shared state as it would be with the ban flag clear. */
  function Calm(sh: Shared): Shared {
    sh.(banned := false)
  }

  /** The call counted the fatal 403, or was turned away by the flag. */
  predicate Barred(banned: bool, r: Request) {
    match r.phase
    case Tripping(out, _) => out.err.Banned?
    case Finished(out) => banned && out.err.Banned?
    case _ => false
  }

  lemma AttemptIgnoresFlag(cfg: Config, h: Hints, sh: Shared, st: Counters, r: Reply)
    requires sh.banned
    ensures var x, y := Attempt(cfg, h, sh, st, r), Attempt(cfg, h, Calm(sh), st, r);
            && x.dec == y.dec && x.st == y.st && Trips(x) == Trips(y)
            && x.sh == y.sh.(banned := true)
            && Counted(sh, x) == Counted(Calm(sh), y).(banned := true)
  {
  }

  /** A raised flag stops a call at its gates only; elsewhere the step is the same. */
  lemma StepIgnoresFlag(cfg: Config, sh: Shared, r: Request)
    requires sh.banned && !r.phase.Fresh? && !r.phase.LoginGate?
    ensures var (x, r') := Step(cfg, sh, r);
            var (y, q') := Step(cfg, Calm(sh), r);
            r' == q' && x == y.(banned := true)
  {
    match r.phase
    case Looping(st) =>
      if r.main != [] {
        AttemptIgnoresFlag(cfg, r.h, sh, st, r.main[0]);
      }
    case LoginLoop(_, _, _, _, lst) =>
      if r.login != [] {
        AttemptIgnoresFlag(cfg, LOGIN_HINTS, sh, lst, r.login[0]);
      }
    case _ =>
  }

  lemma TrippingIsBanned(cfg: Config, sh: Shared, r: Request)
    requires Step(cfg, sh, r).1.phase.Tripping?
    ensures Barred(true, Step(cfg, sh, r).1)
  {
  }

  /** One step of any call in any state: it is barred, or it keeps what it will answer. */
  lemma MoverKeepsFuture(cfg: Config, sh: Shared, r: Request)
    requires Consistent(sh, r)
    ensures var (sh', r') := Step(cfg, sh, r);
            && SameSession(Calm(sh'), Calm(sh)) && (sh.banned ==> sh'.banned)
            && Consistent(sh', r')
            && (Barred(sh.banned, r) ==> Barred(sh'.banned, r'))
            && (Barred(sh'.banned, r') || Future(cfg, Calm(sh'), r') == Future(cfg, Calm(sh), r))
  {
    var (sh', r') := Step(cfg, sh, r);
    if r.phase.Tripping? || (sh.banned && (r.phase.Fresh? || r.phase.LoginGate?)) {
    } else {
      StepKeepsFuture(cfg, Calm(sh), r);
      if sh.banned {
        StepIgnoresFlag(cfg, sh, r);
      } else {
        assert Calm(sh) == sh;
      }
      if r'.phase.Tripping? {
        TrippingIsBanned(cfg, sh, r);
      }
    }
  }

  ghost predicate KeptAt(cfg: Config, w0: World, w: World, i: nat)
    requires i < |w.reqs| == |w0.reqs|
  {
    && Consistent(w.sh, w.reqs[i])
    && (|| Barred(w.sh.banned, w.reqs[i])
        || Future(cfg, Calm(w.sh), w.reqs[i]) == Future(cfg, Calm(w0.sh), w0.reqs[i]))
  }

  /** What every step keeps, whatever has become of the flag. */
  ghost predicate Inv(cfg: Config, w0: World, w: World) {
    && |w.reqs| == |w0.reqs|
    && SameSession(Calm(w.sh), Calm(w0.sh))
    && forall i :: 0 <= i < |w.reqs| ==> KeptAt(cfg, w0, w, i)
  }

  lemma NextKeepsInv(cfg: Config, w0: World, w: World, i: nat)
    requires Inv(cfg, w0, w)
    ensures Inv(cfg, w0, Next(cfg, w, i))
  {
    if i < |w.reqs| {
      var w' := Next(cfg, w, i);
      assert KeptAt(cfg, w0, w, i);
      MoverKeepsFuture(cfg, w.sh, w.reqs[i]);
      forall k | 0 <= k < |w.reqs|
        ensures KeptAt(cfg, w0, w', k)
      {
        assert KeptAt(cfg, w0, w, k);
        if k != i {
          FutureIgnoresStreak(cfg, Calm(w'.sh), Calm(w.sh), w.reqs[k]);
        }
      }
    }
  }

  lemma {:induction false} ExecuteKeepsInv(cfg: Config, w0: World, w: World, schedule: seq<nat>)
    requires Inv(cfg, w0, w)
    ensures Inv(cfg, w0, Execute(cfg, w, schedule))
    decreases |schedule|
  {
    if schedule == [] {
    } else {
      NextKeepsInv(cfg, w0, w, schedule[0]);
      ExecuteKeepsInv(cfg, w0, Next(cfg, w, schedule[0]), schedule[1..]);
    }
  }

  /**
   Isolation: in every interleaving each finished call answers what it answers
   running its own replies alone with ban detection off, unless the flag is up
   and it answers with the ban. A flag that stayed clear means no exception.
   */
  lemma CallsAreIsolated(cfg: Config, sh: Shared, reqs: seq<Request>, schedule: seq<nat>, i: nat)
    requires i < |reqs|
    requires forall k :: 0 <= k < |reqs| ==> reqs[k].phase.Fresh?
    ensures var w := Execute(cfg, World(sh, reqs), schedule);
            && |w.reqs| == |reqs|
            && (w.reqs[i].phase.Finished? ==>
                  || w.reqs[i].phase.out == Do(NoBan(cfg), reqs[i].h, Calm(sh), reqs[i].main, reqs[i].login).out
                  || (w.sh.banned && w.reqs[i].phase.out.err.Banned?))
  {
    var w0 := World(sh, reqs);
    ExecuteKeepsInv(cfg, w0, w0, schedule);
    assert KeptAt(cfg, w0, Execute(cfg, w0, schedule), i);
  }

  // ---- a call that nobody interrupts ----

  type Stepper = (Shared, Request) -> (Shared, Request)

  function StepOf(cfg: Config): Stepper {
    (sh: Shared, r: Request) => Step(cfg, sh, r)
  }

  ghost predicate Steps(f: Stepper, cfg: Config) {
    forall sh, r {:trigger Step(cfg, sh, r)} :: f(sh, r) == Step(cfg, sh, r)
  }

  /** n steps of one call with no other call around. */
  function Alone(f: Stepper, sh: Shared, r: Request, n: nat): (Shared, Request)
    decreases n
  {
    if n == 0 then (sh, r) else Alone(f, f(sh, r).0, f(sh, r).1, n - 1)
  }

  lemma AloneOnce(f: Stepper, sh: Shared, r: Request)
    ensures Alone(f, sh, r, 1) == f(sh, r)
  {
    assert Alone(f, f(sh, r).0, f(sh, r).1, 0) == f(sh, r);
  }

  lemma {:induction false} AloneAdds(f: Stepper, sh: Shared, r: Request, m: nat, n: nat)
    ensures Alone(f, sh, r, m + n) == Alone(f, Alone(f, sh, r, m).0, Alone(f, sh, r, m).1, n)
    decreases m
  {
    if m == 0 {
    } else {
      AloneAdds(f, f(sh, r).0, f(sh, r).1, m - 1, n);
    }
  }

  lemma {:induction false} SpentLoginFeed(cfg: Config, h: Hints, sh: Shared, st: Counters, main: seq<Reply>,
                                          l: seq<Reply>, k: seq<Reply>)
    requires LoginsLeft(h, st) == 0
    ensures Run(cfg, h, sh, st, main, l) == Run(cfg, h, sh, st, main, k)
    decreases |main|
  {
    if main == [] {
    } else {
      var j := Evaluate(cfg, h, sh, st, main[0], l);
      assert j == Evaluate(cfg, h, sh, st, main[0], k);
      RetrySpendsOne(cfg, h, sh, st, main[0], l);
      if j.dec.RetryIn? {
        SpentLoginFeed(cfg, h, j.sh, j.st, main[1..], l, k);
      }
    }
  }

  lemma LoginRunStep(cfg: Config, sh: Shared, st: Counters, feed: seq<Reply>)
    requires feed != []
    ensures var a := Attempt(cfg, LOGIN_HINTS, sh, st, feed[0]);
            var l := Run(cfg, LOGIN_HINTS, sh, st, feed, []);
            && !a.dec.Relogin?
            && (a.dec.Terminal? ==> l.out == a.dec.out && l.sh == a.sh)
            && (a.dec.RetryIn? ==>
                  var rest := Run(cfg, LOGIN_HINTS, a.sh, a.st, feed[1..], []);
                  !Trips(a) && l.out == rest.out && l.sh == rest.sh && a.sh.banned == sh.banned)
  {
    var a := Attempt(cfg, LOGIN_HINTS, sh, st, feed[0]);
    assert Evaluate(cfg, LOGIN_HINTS, sh, st, feed[0], []) == Judged(a.dec, a.sh, a.st, []);
  }

  /** A call in its login loop, uninterrupted, comes out of it as LoginRun says. */
  ghost predicate LeavesLogin(cfg: Config, sh: Shared, r: Request, sh': Shared, r': Request)
    requires r.phase.LoginLoop?
  {
    var p := r.phase;
    var l := Run(cfg, LOGIN_HINTS, sh, p.lst, r.login, []);
    var err := LoginError(l.out);
    && r'.h == r.h && r'.main == r.main
    && (err == Ok ==>
          && sh' == l.sh.(email := p.email, password := p.password) && !sh'.banned
          && r'.phase == Looping(p.st.(relogged := true)))
    && (err != Ok ==> sh' == l.sh && r'.phase == Finished(Outcome(Some(p.cause), err)))
  }

  lemma TrippedLogin(cfg: Config, sh: Shared, r: Request)
    requires r.phase.LoginLoop? && r.login != [] && Trips(Attempt(cfg, LOGIN_HINTS, sh, r.phase.lst, r.login[0]))
    ensures var (sh', r') := Step(cfg, sh, r);
            LeavesLogin(cfg, sh, r, Step(cfg, sh', r').0, Step(cfg, sh', r').1)
  {
    LoginRunStep(cfg, sh, r.phase.lst, r.login);
  }

  lemma EndedLogin(cfg: Config, sh: Shared, r: Request)
    requires r.phase.LoginLoop? && !sh.banned
    requires r.login != [] ==>
               var a := Attempt(cfg, LOGIN_HINTS, sh, r.phase.lst, r.login[0]);
               a.dec.Terminal? && !Trips(a)
    ensures var (sh', r') := Step(cfg, sh, r);
            LeavesLogin(cfg, sh, r, sh', r')
  {
    if r.login != [] {
      LoginRunStep(cfg, sh, r.phase.lst, r.login);
    }
  }

  lemma {:induction false} LoginAloneSteps(cfg: Config, f: Stepper, sh: Shared, r: Request) returns (n: nat)
    requires Steps(f, cfg) && r.phase.LoginLoop? && !sh.banned
    ensures var (sh', r') := Alone(f, sh, r, n);
            LeavesLogin(cfg, sh, r, sh', r')
    decreases |r.login|
  {
    var (sh', r') := Step(cfg, sh, r);
    AloneOnce(f, sh, r);
    n := 1;
    if r.login == [] {
      EndedLogin(cfg, sh, r);
    } else {
      LoginRunStep(cfg, sh, r.phase.lst, r.login);
      var a := Attempt(cfg, LOGIN_HINTS, sh, r.phase.lst, r.login[0]);
      if Trips(a) {
        n := 2;
        AloneOnce(f, sh', r');
        TrippedLogin(cfg, sh, r);
      } else if a.dec.RetryIn? {
        var m := LoginAloneSteps(cfg, f, sh', r');
        n := m + 1;
      } else {
        EndedLogin(cfg, sh, r);
      }
    }
  }

  lemma {:induction false} LoopAloneSteps(cfg: Config, f: Stepper, sh: Shared, r: Request) returns (n: nat)
    requires Steps(f, cfg) && r.phase.Looping? && !sh.banned
    ensures var d := Run(cfg, r.h, sh, r.phase.st, r.main, r.login);
            var (sh', r') := Alone(f, sh, r, n);
            sh' == d.sh && r'.phase == Finished(d.out)
    decreases |r.main|
  {
    var st := r.phase.st;
    var (sh', r') := Step(cfg, sh, r);
    AloneOnce(f, sh, r);
    n := 1;
    if r.main != [] {
      var a := Attempt(cfg, r.h, sh, st, r.main[0]);
      if Trips(a) {
        n := 2;
        AloneOnce(f, sh', r');
        assert f(sh', r') == Step(cfg, sh', r');
      } else if a.dec.RetryIn? {
        var m := LoopAloneSteps(cfg, f, sh', r');
        n := m + 1;
      } else if a.dec.Relogin? {
        n := ReloginAloneSteps(cfg, f, sh, r);
      }
    }
  }

  /** The 401, the gate and the login loop of a call that nobody interrupts. */
  lemma LoginPhaseAlone(cfg: Config, f: Stepper, sh: Shared, r: Request) returns (n: nat)
    requires Steps(f, cfg) && r.phase.Looping? && !sh.banned && r.main != []
    requires Attempt(cfg, r.h, sh, r.phase.st, r.main[0]).dec.Relogin?
    ensures var l := LoginRun(cfg, sh, sh.email, sh.password, r.login);
            var (sh', r') := Alone(f, sh, r, n);
            && sh' == l.sh && r'.h == r.h && r'.main == r.main[1..]
            && (l.err == Ok ==> !sh'.banned && r'.phase == Looping(r.phase.st.(relogged := true)))
            && (l.err != Ok ==> r'.phase == Finished(Outcome(Some(r.main[0]), l.err)))
  {
    var r1 := Step(cfg, sh, r).1;
    var r2 := Step(cfg, sh, r1).1;
    assert Step(cfg, sh, r).0 == sh && Step(cfg, sh, r1).0 == sh;
    assert Alone(f, sh, r, 2) == (sh, r2) by { assert Alone(f, sh, r1, 1) == Alone(f, sh, r2, 0); }
    var m := LoginAloneSteps(cfg, f, sh, r2);
    AloneAdds(f, sh, r, 2, m);
    n := 2 + m;
    LoginUnfolded(cfg, sh, sh.email, sh.password, r.login);
  }

  lemma RunAfterRelogin(cfg: Config, h: Hints, sh: Shared, st: Counters, main: seq<Reply>, login: seq<Reply>)
    requires main != [] && Attempt(cfg, h, sh, st, main[0]).dec.Relogin?
    ensures var l := LoginRun(cfg, sh, sh.email, sh.password, login);
            var d := Run(cfg, h, sh, st, main, login);
            if l.err != Ok then d.out == Outcome(Some(main[0]), l.err) && d.sh == l.sh
            else
              var t := Run(cfg, h, l.sh, st.(relogged := true), main[1..], login);
              d.out == t.out && d.sh == t.sh
  {
    var l := LoginRun(cfg, sh, sh.email, sh.password, login);
    assert Attempt(cfg, h, sh, st, main[0]) == Attempted(Relogin, sh, st);
    assert Evaluate(cfg, h, sh, st, main[0], login)
        == if l.err != Ok then Judged(Terminal(Outcome(Some(main[0]), l.err)), l.sh, st, l.log)
           else Judged(RetryIn(UnauthorizedKind, 0), l.sh, st.(relogged := true), l.log);
  }

  lemma {:induction false} ReloginAloneSteps(cfg: Config, f: Stepper, sh: Shared, r: Request) returns (n: nat)
    requires Steps(f, cfg) && r.phase.Looping? && !sh.banned && r.main != []
    requires Attempt(cfg, r.h, sh, r.phase.st, r.main[0]).dec.Relogin?
    ensures var d := Run(cfg, r.h, sh, r.phase.st, r.main, r.login);
            var (sh', r') := Alone(f, sh, r, n);
            sh' == d.sh && r'.phase == Finished(d.out)
    decreases |r.main|, 0
  {
    n := LoginPhaseAlone(cfg, f, sh, r);
    RunAfterRelogin(cfg, r.h, sh, r.phase.st, r.main, r.login);
    var (sh1, r1) := Alone(f, sh, r, n);
    if r1.phase.Looping? {
      var k := LoopAloneSteps(cfg, f, sh1, r1);
      AloneAdds(f, sh, r, n, k);
      n := n + k;
      SpentLoginFeed(cfg, r.h, sh1, r1.phase.st, r1.main, r.login, r1.login);
    }
  }

  /** The steps refine the sequential engine: a call that runs uninterrupted computes `Do`. */
  lemma UninterruptedIsDo(cfg: Config, sh: Shared, r: Request)
    requires r.phase.Fresh?
    ensures var f, d := StepOf(cfg), Do(cfg, r.h, sh, r.main, r.login);
            exists n: nat :: Alone(f, sh, r, n).0 == d.sh && Alone(f, sh, r, n).1.phase == Finished(d.out)
  {
    var f := StepOf(cfg);
    assert Steps(f, cfg);
    var (sh', r') := Step(cfg, sh, r);
    AloneOnce(f, sh, r);
    if !sh.banned {
      var n := LoopAloneSteps(cfg, f, sh', r');
      assert Alone(f, sh, r, n + 1) == Alone(f, sh', r', n);
    }
  }
}
