/** The submit verdict and its polling loop (pkg/brainapi/alphas.go). */
module Submit {
  import opened Wrappers
  import opened Retry
  import opened Transport
  import C = Client
  import B = Budget
  import Outcomes
  import R = RunBounds
  import Attempts

  const SELF_CORRELATION := "SELF_CORRELATION"
  const SUBMIT_HINTS := Hints(false, true, false, false, 0)

  datatype Status = Verified | CorrRejected | SubmitFailed | PendingCorr

  datatype Reason =
    | NoReason
    | HttpNoBody
    | UnparseableBody
    | HttpNoIs
    | CheckFail(names: seq<string>)
    | CorrValue(value: Option<real>)
    | HttpNoFailCheck
    | CapExceeded

  datatype Verdict = Verdict(status: Status, reason: Reason, checks: seq<Check>, http: int)

  const PENDING := Verdict(PendingCorr, CapExceeded, [], 0)

  /** The names of the failed checks other than the self-correlation, in order. */
  function OtherFails(checks: seq<Check>): seq<string> {
    if checks == [] then []
    else
      var last := checks[|checks| - 1];
      OtherFails(checks[..|checks| - 1]) +
      if last.name != SELF_CORRELATION && last.result == "FAIL" then [last.name] else []
  }

  /** The last self-correlation check. */
  function LastCorr(checks: seq<Check>): Option<Check> {
    if checks == [] then None
    else if checks[|checks| - 1].name == SELF_CORRELATION then Some(checks[|checks| - 1])
    else LastCorr(checks[..|checks| - 1])
  }

  /** The verdict a reply decides, if any. */
  function VerdictOf(r: Reply): Option<Verdict>
    requires r.Response?
  {
    var ok := Is2xx(r.status);
    if Is3xx(r.status) || r.status == 503 then None
    else if r.body.text == "" then
      if ok then None else Some(Verdict(SubmitFailed, HttpNoBody, [], r.status))
    else
      match r.body.submit
      case Unparseable => Some(Verdict(SubmitFailed, UnparseableBody, [], r.status))
      case NoIsBlock =>
        Some(if ok then Verdict(Verified, NoReason, [], r.status) else Verdict(SubmitFailed, HttpNoIs, [], r.status))
      case IsBlock(checks) =>
        var fails, corr := OtherFails(checks), LastCorr(checks);
        if fails != [] then Some(Verdict(SubmitFailed, CheckFail(fails), checks, r.status))
        else if corr.None? then None
        else if corr.value.result == "FAIL" then
          Some(Verdict(CorrRejected, CorrValue(corr.value.value), checks, r.status))
        else if corr.value.result != "PASS" then None
        else if ok then Some(Verdict(Verified, NoReason, checks, r.status))
        else Some(Verdict(SubmitFailed, HttpNoFailCheck, checks, r.status))
  }

  /** parseSubmitVerdict, with its scan of the checks. */
  method ParseSubmitVerdict(r: Reply) returns (v: Option<Verdict>)
    requires r.Response?
    ensures v == VerdictOf(r)
  {
    if 300 <= r.status < 400 {
      return None;
    }
    if r.status == 503 {
      return None;
    }
    var ok := 200 <= r.status < 300;
    if r.body.text == "" {
      if ok {
        return None;
      }
      return Some(Verdict(SubmitFailed, HttpNoBody, [], r.status));
    }
    if r.body.submit.Unparseable? {
      return Some(Verdict(SubmitFailed, UnparseableBody, [], r.status));
    }
    if r.body.submit.NoIsBlock? {
      if ok {
        return Some(Verdict(Verified, NoReason, [], r.status));
      }
      return Some(Verdict(SubmitFailed, HttpNoIs, [], r.status));
    }
    var checks := r.body.submit.checks;
    var nonCorrFail: seq<string> := [];
    var corr: Option<Check> := None;
    for i := 0 to |checks|
      invariant nonCorrFail == OtherFails(checks[..i])
      invariant corr == LastCorr(checks[..i])
    {
      assert checks[..i + 1][..i] == checks[..i];
      if checks[i].name == SELF_CORRELATION {
        corr := Some(checks[i]);
      } else if checks[i].result == "FAIL" {
        nonCorrFail := nonCorrFail + [checks[i].name];
      }
    }
    assert checks[..|checks|] == checks;
    if |nonCorrFail| > 0 {
      return Some(Verdict(SubmitFailed, CheckFail(nonCorrFail), checks, r.status));
    }
    if corr.Some? && corr.value.result == "FAIL" {
      return Some(Verdict(CorrRejected, CorrValue(corr.value.value), checks, r.status));
    }
    if corr.None? || corr.value.result != "PASS" {
      return None;
    }
    if ok {
      return Some(Verdict(Verified, NoReason, checks, r.status));
    }
    return Some(Verdict(SubmitFailed, HttpNoFailCheck, checks, r.status));
  }

  // ---- what a verdict means, in terms of the checks themselves ----

  predicate OtherCheckFails(checks: seq<Check>) {
    exists c :: c in checks && c.name != SELF_CORRELATION && c.result == "FAIL"
  }

  /** The last self-correlation check of the list has this result. */
  predicate CorrEndsWith(checks: seq<Check>, result: string) {
    exists i :: 0 <= i < |checks|
             && checks[i].name == SELF_CORRELATION && checks[i].result == result
             && forall j :: i < j < |checks| ==> checks[j].name != SELF_CORRELATION
  }

  lemma {:induction false} OtherFailsMeans(checks: seq<Check>)
    ensures OtherFails(checks) != [] <==> OtherCheckFails(checks)
  {
    if checks == [] {
    } else {
      var init, last := checks[..|checks| - 1], checks[|checks| - 1];
      OtherFailsMeans(init);
      assert checks == init + [last];
      assert forall c :: c in checks <==> c in init || c == last;
    }
  }

  lemma CorrEndsBefore(init: seq<Check>, last: Check, result: string)
    requires last.name != SELF_CORRELATION && CorrEndsWith(init + [last], result)
    ensures CorrEndsWith(init, result)
  {
    var checks := init + [last];
    var i :| && 0 <= i < |checks| && checks[i].name == SELF_CORRELATION && checks[i].result == result
             && forall j :: i < j < |checks| ==> checks[j].name != SELF_CORRELATION;
    assert init[i] == checks[i];
    assert forall j :: i < j < |init| ==> init[j] == checks[j];
  }

  /** One more check at the end: it decides if it is a self-correlation, else nothing changes. */
  lemma CorrEndsSnoc(init: seq<Check>, last: Check, result: string)
    ensures CorrEndsWith(init + [last], result) <==>
            if last.name == SELF_CORRELATION then last.result == result else CorrEndsWith(init, result)
  {
    var checks := init + [last];
    if last.name == SELF_CORRELATION {
      assert checks[|init|] == last;
    } else {
      if CorrEndsWith(init, result) {
        var i :| && 0 <= i < |init| && init[i].name == SELF_CORRELATION && init[i].result == result
                 && forall j :: i < j < |init| ==> init[j].name != SELF_CORRELATION;
        assert checks[i] == init[i];
      }
      if CorrEndsWith(checks, result) {
        CorrEndsBefore(init, last, result);
      }
    }
  }

  lemma {:induction false} LastCorrMeans(checks: seq<Check>, result: string)
    ensures LastCorr(checks).Some? && LastCorr(checks).value.result == result <==> CorrEndsWith(checks, result)
  {
    if checks == [] {
    } else {
      var n := |checks| - 1;
      assert checks == checks[..n] + [checks[n]];
      LastCorrMeans(checks[..n], result);
      CorrEndsSnoc(checks[..n], checks[n], result);
    }
  }

  lemma {:induction false} NoCorrIff(checks: seq<Check>)
    ensures LastCorr(checks).None? <==> forall c :: c in checks ==> c.name != SELF_CORRELATION
  {
    if checks == [] {
    } else {
      var init, last := checks[..|checks| - 1], checks[|checks| - 1];
      NoCorrIff(init);
      assert checks == init + [last];
      assert forall c :: c in checks <==> c in init || c == last;
    }
  }

  /**
   A reply verifies a submit exactly when it is a 2xx with a decodable body that
   either has no `is` block, or has one in which no other check failed and the
   last self-correlation check passed.
   */
  lemma VerifiedIff(r: Reply)
    requires r.Response?
    ensures VerdictOf(r).Some? && VerdictOf(r).value.status == Verified <==>
            && Is2xx(r.status) && r.body.text != ""
            && (|| r.body.submit.NoIsBlock?
                || (&& r.body.submit.IsBlock?
                    && !OtherCheckFails(r.body.submit.checks)
                    && CorrEndsWith(r.body.submit.checks, "PASS")))
  {
    if r.body.submit.IsBlock? {
      OtherFailsMeans(r.body.submit.checks);
      LastCorrMeans(r.body.submit.checks, "PASS");
    }
  }

  /** A correlation rejection is a failed last self-correlation with no other failure before it in rank. */
  lemma CorrRejectedIff(r: Reply)
    requires r.Response?
    ensures VerdictOf(r).Some? && VerdictOf(r).value.status == CorrRejected <==>
            && !Is3xx(r.status) && r.status != 503 && r.body.text != ""
            && r.body.submit.IsBlock?
            && !OtherCheckFails(r.body.submit.checks)
            && CorrEndsWith(r.body.submit.checks, "FAIL")
  {
    if r.body.submit.IsBlock? {
      OtherFailsMeans(r.body.submit.checks);
      LastCorrMeans(r.body.submit.checks, "FAIL");
    }
  }

  /** Polling goes on exactly on a poll signal, an empty 2xx, or checks that neither fail nor settle the correlation. */
  lemma UndecidedIff(r: Reply)
    requires r.Response?
    ensures VerdictOf(r).None? <==>
            || Is3xx(r.status) || r.status == 503
            || (Is2xx(r.status) && r.body.text == "")
            || (&& r.body.text != "" && r.body.submit.IsBlock?
                && !OtherCheckFails(r.body.submit.checks)
                && !CorrEndsWith(r.body.submit.checks, "FAIL")
                && !CorrEndsWith(r.body.submit.checks, "PASS"))
  {
    if r.body.submit.IsBlock? {
      OtherFailsMeans(r.body.submit.checks);
      LastCorrMeans(r.body.submit.checks, "FAIL");
      LastCorrMeans(r.body.submit.checks, "PASS");
    }
  }

  /** A verdict carries the status of its reply, and the checks of the block if there is one. */
  lemma VerdictFields(r: Reply)
    requires r.Response? && VerdictOf(r).Some?
    ensures var v := VerdictOf(r).value;
            && v.http == r.status
            && v.checks == (if r.body.text != "" && r.body.submit.IsBlock? then r.body.submit.checks else [])
            && (v.status == Verified ==> v.reason == NoReason)
            && v.status != PendingCorr
  {
  }

  /** Why a submit failed, each reason exactly when it applies. */
  lemma FailureIff(r: Reply)
    requires r.Response?
    ensures var reason := if VerdictOf(r).Some? then VerdictOf(r).value.reason else NoReason;
            var answered := !(300 <= r.status < 400) && r.status != 503;
            var ok := 200 <= r.status < 300;
            && (reason == HttpNoBody <==> answered && !ok && r.body.text == "")
            && (reason == UnparseableBody <==> answered && r.body.text != "" && r.body.submit.Unparseable?)
            && (reason == HttpNoIs <==> answered && !ok && r.body.text != "" && r.body.submit.NoIsBlock?)
            && (reason.CheckFail? <==>
                  && answered && r.body.text != "" && r.body.submit.IsBlock?
                  && exists c :: c in r.body.submit.checks && c.name != "SELF_CORRELATION" && c.result == "FAIL")
            && (reason == HttpNoFailCheck <==>
                  && answered && !ok && r.body.text != "" && r.body.submit.IsBlock?
                  && !OtherCheckFails(r.body.submit.checks) && CorrEndsWith(r.body.submit.checks, "PASS"))
            && (VerdictOf(r).Some? && VerdictOf(r).value.status == SubmitFailed <==>
                  || reason == HttpNoBody || reason == UnparseableBody || reason == HttpNoIs
                  || reason.CheckFail? || reason == HttpNoFailCheck)
  {
    if r.body.submit.IsBlock? {
      OtherFailsMeans(r.body.submit.checks);
      LastCorrMeans(r.body.submit.checks, "PASS");
    }
  }

  /** The names picked from a list at these positions, in order. */
  ghost predicate Picks(checks: seq<Check>, at: seq<nat>, names: seq<string>) {
    && |at| == |names|
    && (forall k, l :: 0 <= k < l < |at| ==> at[k] < at[l])
    && (forall i: nat :: i in at <==>
          i < |checks| && checks[i].name != "SELF_CORRELATION" && checks[i].result == "FAIL")
    && forall k :: 0 <= k < |at| ==> at[k] < |checks| && names[k] == checks[at[k]].name
  }

  lemma {:induction false} OtherFailsPicks(checks: seq<Check>) returns (at: seq<nat>)
    ensures Picks(checks, at, OtherFails(checks))
  {
    if checks == [] {
      at := [];
    } else {
      var n := |checks| - 1;
      var before := OtherFailsPicks(checks[..n]);
      at := before;
      assert forall k :: 0 <= k < |before| ==> before[k] in before;
      if checks[n].name != "SELF_CORRELATION" && checks[n].result == "FAIL" {
        at := before + [n];
      }
      forall i: nat
        ensures i in at <==> i < |checks| && checks[i].name != "SELF_CORRELATION" && checks[i].result == "FAIL"
      {
        if i < n {
          assert checks[..n][i] == checks[i];
        }
      }
    }
  }

  /** A check failure names every failed check but the self-correlation, in the order of the list. */
  lemma FailedNames(r: Reply) returns (at: seq<nat>)
    requires r.Response? && VerdictOf(r).Some? && VerdictOf(r).value.reason.CheckFail?
    ensures r.body.submit.IsBlock? && Picks(r.body.submit.checks, at, VerdictOf(r).value.reason.names)
  {
    at := OtherFailsPicks(r.body.submit.checks);
  }

  lemma {:induction false} LastCorrAt(checks: seq<Check>) returns (i: nat)
    requires LastCorr(checks).Some?
    ensures i < |checks| && checks[i] == LastCorr(checks).value && checks[i].name == "SELF_CORRELATION"
    ensures forall j :: i < j < |checks| ==> checks[j].name != "SELF_CORRELATION"
  {
    var n := |checks| - 1;
    if checks[n].name == "SELF_CORRELATION" {
      i := n;
    } else {
      i := LastCorrAt(checks[..n]);
    }
  }

  /** A correlation rejection reports the value of the last self-correlation check. */
  lemma RejectedValue(r: Reply) returns (i: nat)
    requires r.Response? && VerdictOf(r).Some? && VerdictOf(r).value.status == CorrRejected
    ensures r.body.submit.IsBlock?
    ensures var checks := r.body.submit.checks;
            && i < |checks| && checks[i].name == "SELF_CORRELATION" && checks[i].result == "FAIL"
            && (forall j :: i < j < |checks| ==> checks[j].name != "SELF_CORRELATION")
            && VerdictOf(r).value.reason == CorrValue(checks[i].value)
  {
    i := LastCorrAt(r.body.submit.checks);
  }

  // ---- the polling loop ----

  /** The replies one round of polling receives. Past the last feed the context is cancelled. */
  datatype Feed = Feed(main: seq<Reply>, login: seq<Reply>)

  datatype Answer = Decided(verdict: Verdict) | Refused(err: Error) | OverBudget

  function FeedAt(feeds: seq<Feed>, k: nat): Feed {
    if k < |feeds| then feeds[k] else Feed([], [])
  }

  /** The k-th call of the loop (the POST is number 0), all earlier ones having run. */
  function Round(cfg: Config, sh: Shared, feeds: seq<Feed>, k: nat): Result
    decreases k, 1
  {
    Transport.Do(cfg, SUBMIT_HINTS, Before(cfg, sh, feeds, k), FeedAt(feeds, k).main, FeedAt(feeds, k).login)
  }

  function Before(cfg: Config, sh: Shared, feeds: seq<Feed>, k: nat): Shared
    decreases k, 0
  {
    if k == 0 then sh else Round(cfg, sh, feeds, k - 1).sh
  }

  predicate Undecided(r: Result) {
    r.out.err == Ok && r.out.resp.Some? && r.out.resp.value.Response? && VerdictOf(r.out.resp.value).None?
  }

  predicate Decides(r: Result, v: Verdict) {
    r.out.err == Ok && r.out.resp.Some? && r.out.resp.value.Response? && VerdictOf(r.out.resp.value) == Some(v)
  }

  lemma {:induction false} RoundDelivers(cfg: Config, sh: Shared, feeds: seq<Feed>, k: nat)
    ensures var r := Round(cfg, sh, feeds, k);
            r.out.err == Ok ==>
              && r.out.resp.Some? && Outcomes.Deliverable(SUBMIT_HINTS, r.out.resp.value)
  {
    var feed := FeedAt(feeds, k);
    Outcomes.NilErrorMeans(cfg, SUBMIT_HINTS, Before(cfg, sh, feeds, k), FRESH, feed.main, feed.login);
  }

  /** A 3xx or 503 is handed to the loop at once, without a retry, and leaves the submit undecided. */
  lemma PollSignalGoesOn(cfg: Config, sh: Shared, r: Reply, rest: seq<Reply>, login: seq<Reply>)
    requires !sh.banned && r.Response? && (300 <= r.status < 400 || r.status == 503)
    ensures var c := Transport.Do(cfg, SUBMIT_HINTS, sh, [r] + rest, login);
            c.out == Outcome(Some(r), Ok) && |c.log| == 1 && Undecided(c)
  {
    Attempts.DeliveredIff(cfg, SUBMIT_HINTS, sh, FRESH, r, login);
    Attempts.NoLogin(cfg, SUBMIT_HINTS, sh, FRESH, r, login);
  }

  /** Round k is the first that settles the matter, one way or the other. */
  ghost predicate FirstSettled(cfg: Config, sh: Shared, feeds: seq<Feed>, k: nat) {
    && !Undecided(Round(cfg, sh, feeds, k))
    && forall i: nat :: i < k ==> Undecided(Round(cfg, sh, feeds, i))
  }

  /** The reference answer: what the first settled one of the POST and at most maxLongPolls GETs says. */
  ghost predicate IsAnswer(cfg: Config, sh: Shared, feeds: seq<Feed>, a: Answer) {
    var polls := Max0(cfg.maxLongPolls);
    match a
    case Decided(v) =>
      if v == PENDING then forall i: nat :: i <= polls ==> Undecided(Round(cfg, sh, feeds, i))
      else exists k: nat :: k <= polls && FirstSettled(cfg, sh, feeds, k) && Decides(Round(cfg, sh, feeds, k), v)
    case Refused(err) =>
      exists k: nat :: k <= polls && FirstSettled(cfg, sh, feeds, k) && Round(cfg, sh, feeds, k).out.err == err != Ok
    case OverBudget => false
  }

  lemma FirstSettledUnique(cfg: Config, sh: Shared, feeds: seq<Feed>, j: nat, k: nat)
    requires FirstSettled(cfg, sh, feeds, j) && FirstSettled(cfg, sh, feeds, k)
    ensures j == k
  {
  }

  /** An answer that is not pending names the round it comes from. */
  lemma SettledRound(cfg: Config, sh: Shared, feeds: seq<Feed>, a: Answer) returns (k: nat)
    requires IsAnswer(cfg, sh, feeds, a) && a != Decided(PENDING)
    ensures k <= Max0(cfg.maxLongPolls) && FirstSettled(cfg, sh, feeds, k)
    ensures a == if Round(cfg, sh, feeds, k).out.err != Ok then Refused(Round(cfg, sh, feeds, k).out.err)
                 else if Round(cfg, sh, feeds, k).out.resp.Some? && Round(cfg, sh, feeds, k).out.resp.value.Response?
                      && VerdictOf(Round(cfg, sh, feeds, k).out.resp.value).Some?
                 then Decided(VerdictOf(Round(cfg, sh, feeds, k).out.resp.value).value)
                 else OverBudget
  {
    if a.Decided? {
      k :| && k <= Max0(cfg.maxLongPolls) && FirstSettled(cfg, sh, feeds, k)
           && Decides(Round(cfg, sh, feeds, k), a.verdict);
    } else {
      k :| && k <= Max0(cfg.maxLongPolls) && FirstSettled(cfg, sh, feeds, k)
           && Round(cfg, sh, feeds, k).out.err == a.err != Ok;
    }
  }

  /** Exactly one answer fits: the loop's answer is determined, and pending means that no round settled it. */
  lemma AnswerIsUnique(cfg: Config, sh: Shared, feeds: seq<Feed>, a: Answer, b: Answer)
    requires IsAnswer(cfg, sh, feeds, a) && IsAnswer(cfg, sh, feeds, b)
    ensures a == b
  {
    if a != Decided(PENDING) && b != Decided(PENDING) {
      var j := SettledRound(cfg, sh, feeds, a);
      var k := SettledRound(cfg, sh, feeds, b);
      FirstSettledUnique(cfg, sh, feeds, j, k);
    } else if a != Decided(PENDING) {
      var j := SettledRound(cfg, sh, feeds, a);
    } else if b != Decided(PENDING) {
      var k := SettledRound(cfg, sh, feeds, b);
    }
  }

  lemma ReplyStatus(r: Result, v: Verdict)
    requires Decides(r, v) && Outcomes.Deliverable(SUBMIT_HINTS, r.out.resp.value)
    ensures Is2xx(v.http) || v.http == 403
    ensures v.status == Verified ==> Is2xx(v.http)
    ensures v.status != PendingCorr
  {
  }

  /** A decided verdict carries the status of its reply: 2xx or 403, and 2xx when verified. */
  lemma VerdictHttp(cfg: Config, sh: Shared, feeds: seq<Feed>, v: Verdict)
    requires IsAnswer(cfg, sh, feeds, Decided(v)) && v != PENDING
    ensures Is2xx(v.http) || v.http == 403
    ensures v.status == Verified ==> Is2xx(v.http)
    ensures v.status != PendingCorr
  {
    var polls := Max0(cfg.maxLongPolls);
    var k: nat :| k <= polls && Decides(Round(cfg, sh, feeds, k), v);
    RoundDelivers(cfg, sh, feeds, k);
    ReplyStatus(Round(cfg, sh, feeds, k), v);
  }

  // ---- how long a submit can last ----

  /** The pause the loop makes after an undecided round: the server's hint within 0.5 s and 30 s. */
  function NapAfter(r: Result): int {
    if r.out.resp.Some? && r.out.resp.value.Response?
    then Clamp(r.out.resp.value.retryAfter.GetOr(0), LONG_POLL_FLOOR, LONG_POLL_CEILING)
    else 0
  }

  /** The pause is the server's own hint where it is within bounds, and half a second without one. */
  lemma NapMeans(r: Result)
    requires Undecided(r)
    ensures NapAfter(r) == match r.out.resp.value.retryAfter
                           case None => 500
                           case Some(d) => if d <= 500 then 500 else if d >= 30_000 then 30_000 else d
  {
  }

  /** The round trips of rounds 0 to k, and the sleep between them. */
  function LogUpto(cfg: Config, sh: Shared, feeds: seq<Feed>, k: nat): seq<Event> {
    if k == 0 then Round(cfg, sh, feeds, 0).log
    else LogUpto(cfg, sh, feeds, k - 1) + Round(cfg, sh, feeds, k).log
  }

  function NapsBefore(cfg: Config, sh: Shared, feeds: seq<Feed>, k: nat): seq<int> {
    if k == 0 then [] else NapsBefore(cfg, sh, feeds, k - 1) + [NapAfter(Round(cfg, sh, feeds, k - 1))]
  }

  function Total(naps: seq<int>): int {
    if naps == [] then 0 else Total(naps[..|naps| - 1]) + naps[|naps| - 1]
  }

  lemma RoundIsBounded(cfg: Config, sh: Shared, feeds: seq<Feed>, k: nat)
    ensures |Round(cfg, sh, feeds, k).log| <= 2 * Max0(cfg.maxRetries) + 3
    ensures R.SleepOf(Round(cfg, sh, feeds, k).log) <= 240_000 * Max0(cfg.maxRetries)
  {
    R.CallIsBounded(cfg, SUBMIT_HINTS, Before(cfg, sh, feeds, k), FeedAt(feeds, k).main, FeedAt(feeds, k).login);
  }

  lemma {:induction false} RoundsAreBounded(cfg: Config, sh: Shared, feeds: seq<Feed>, k: nat, trips: nat, sleep: nat)
    requires trips == 2 * Max0(cfg.maxRetries) + 3 && sleep == 240_000 * Max0(cfg.maxRetries)
    ensures |LogUpto(cfg, sh, feeds, k)| <= (k + 1) * trips
    ensures R.SleepOf(LogUpto(cfg, sh, feeds, k)) <= (k + 1) * sleep
  {
    RoundIsBounded(cfg, sh, feeds, k);
    if k == 0 {
    } else {
      RoundsAreBounded(cfg, sh, feeds, k - 1, trips, sleep);
      R.SleepOfConcat(LogUpto(cfg, sh, feeds, k - 1), Round(cfg, sh, feeds, k).log);
      assert (k + 1) * trips == k * trips + trips && (k + 1) * sleep == k * sleep + sleep;
    }
  }

  lemma {:induction false} NapsAreBounded(cfg: Config, sh: Shared, feeds: seq<Feed>, k: nat)
    ensures |NapsBefore(cfg, sh, feeds, k)| == k
    ensures Total(NapsBefore(cfg, sh, feeds, k)) <= LONG_POLL_CEILING * k
  {
    if k == 0 {
    } else {
      NapsAreBounded(cfg, sh, feeds, k - 1);
      assert NapsBefore(cfg, sh, feeds, k)[..k - 1] == NapsBefore(cfg, sh, feeds, k - 1);
    }
  }

  lemma Grows(a: nat, b: nat, c: nat)
    requires a <= b
    ensures a * c <= b * c
  {
  }

  /** Whatever the server answers: what a submit that stops at round k spends on the network and asleep. */
  lemma SubmitIsBounded(cfg: Config, sh: Shared, feeds: seq<Feed>, k: nat)
    requires k <= Max0(cfg.maxLongPolls)
    ensures var retries, polls := Max0(cfg.maxRetries), Max0(cfg.maxLongPolls);
            && |LogUpto(cfg, sh, feeds, k)| <= (polls + 1) * (2 * retries + 3)
            && R.SleepOf(LogUpto(cfg, sh, feeds, k)) + Total(NapsBefore(cfg, sh, feeds, k))
               <= (polls + 1) * (240_000 * retries) + 30_000 * polls
  {
    var polls := Max0(cfg.maxLongPolls);
    var trips, sleep := 2 * Max0(cfg.maxRetries) + 3, 240_000 * Max0(cfg.maxRetries);
    RoundsAreBounded(cfg, sh, feeds, k, trips, sleep);
    NapsAreBounded(cfg, sh, feeds, k);
    Grows(k + 1, polls + 1, trips);
    Grows(k + 1, polls + 1, sleep);
  }

  // ---- the program ----

  lemma DecidedAnswer(cfg: Config, sh: Shared, feeds: seq<Feed>, k: nat, v: Verdict)
    requires k <= Max0(cfg.maxLongPolls) && Decides(Round(cfg, sh, feeds, k), v)
    requires forall i: nat :: i < k ==> Undecided(Round(cfg, sh, feeds, i))
    ensures IsAnswer(cfg, sh, feeds, Decided(v)) && FirstSettled(cfg, sh, feeds, k) && v != PENDING
  {
  }

  /** The last round an answer rests on: all of them when it is pending, else the first settled one. */
  ghost predicate StopsAt(cfg: Config, sh: Shared, feeds: seq<Feed>, a: Answer, k: nat) {
    if a == Decided(PENDING) then k == Max0(cfg.maxLongPolls)
    else k <= Max0(cfg.maxLongPolls) && FirstSettled(cfg, sh, feeds, k)
  }

  /** One round: the call on the client, and what its outcome settles, if anything. */
  method PerformRound(c: C.Client, ghost sh: Shared, feeds: seq<Feed>, k: nat)
    returns (settled: Option<Answer>, nap: int, log: seq<Event>)
    requires k <= Max0(c.cfg.maxLongPolls) && c.State() == Before(c.cfg, sh, feeds, k)
    requires forall i: nat :: i < k ==> Undecided(Round(c.cfg, sh, feeds, i))
    modifies c
    ensures c.State() == Round(c.cfg, sh, feeds, k).sh && log == Round(c.cfg, sh, feeds, k).log
    ensures match settled
            case None => Undecided(Round(c.cfg, sh, feeds, k)) && nap == NapAfter(Round(c.cfg, sh, feeds, k))
            case Some(a) =>
              a != Decided(PENDING) && IsAnswer(c.cfg, sh, feeds, a) && FirstSettled(c.cfg, sh, feeds, k)
  {
    RoundDelivers(c.cfg, sh, feeds, k);
    var out;
    out, log := c.Do(SUBMIT_HINTS, FeedAt(feeds, k).main, FeedAt(feeds, k).login);
    if out.err != Ok {
      assert FirstSettled(c.cfg, sh, feeds, k);
      return Some(Refused(out.err)), 0, log;
    }
    var v := ParseSubmitVerdict(out.resp.value);
    if v.Some? {
      DecidedAnswer(c.cfg, sh, feeds, k, v.value);
      return Some(Decided(v.value)), 0, log;
    }
    nap := if out.resp.value.retryAfter.Some? then
             Clamp(out.resp.value.retryAfter.value, LONG_POLL_FLOOR, LONG_POLL_CEILING)
           else LONG_POLL_FLOOR;
    return None, nap, log;
  }

  /** Where the loop stands after round i, all rounds so far being undecided. */
  ghost predicate Progress(cfg: Config, sh: Shared, feeds: seq<Feed>, i: nat, now: Shared, nap: int, naps: seq<int>,
                           log: seq<Event>) {
    && now == Before(cfg, sh, feeds, i + 1)
    && (forall k: nat :: k <= i ==> Undecided(Round(cfg, sh, feeds, k)))
    && nap == NapAfter(Round(cfg, sh, feeds, i))
    && |naps| == i && naps == NapsBefore(cfg, sh, feeds, i)
    && log == LogUpto(cfg, sh, feeds, i)
  }

  lemma ProgressMade(cfg: Config, sh: Shared, feeds: seq<Feed>, i: nat, now: Shared, nap: int, naps: seq<int>,
                     log: seq<Event>)
    requires Progress(cfg, sh, feeds, i, now, nap, naps, log)
    ensures naps + [nap] == NapsBefore(cfg, sh, feeds, i + 1)
    ensures var r := Round(cfg, sh, feeds, i + 1);
            && log + r.log == LogUpto(cfg, sh, feeds, i + 1)
            && (Undecided(r) ==> Progress(cfg, sh, feeds, i + 1, r.sh, NapAfter(r), naps + [nap], log + r.log))
  {
  }

  /** The POST and the polling loop. `naps` are the pauses between rounds. */
  method PostAndPoll(c: C.Client, feeds: seq<Feed>) returns (a: Answer, naps: seq<int>, log: seq<Event>)
    modifies c
    ensures IsAnswer(c.cfg, old(c.State()), feeds, a)
    ensures StopsAt(c.cfg, old(c.State()), feeds, a, |naps|)
    ensures naps == NapsBefore(c.cfg, old(c.State()), feeds, |naps|)
    ensures log == LogUpto(c.cfg, old(c.State()), feeds, |naps|)
  {
    naps := [];
    ghost var sh := c.State();
    var settled, nap;
    settled, nap, log := PerformRound(c, sh, feeds, 0);
    if settled.Some? {
      return settled.value, naps, log;
    }
    var i := 0;
    while i < c.cfg.maxLongPolls
      invariant 0 <= i <= Max0(c.cfg.maxLongPolls)
      invariant Progress(c.cfg, sh, feeds, i, c.State(), nap, naps, log)
    {
      ProgressMade(c.cfg, sh, feeds, i, c.State(), nap, naps, log);
      naps := naps + [nap];
      var more;
      settled, nap, more := PerformRound(c, sh, feeds, i + 1);
      log := log + more;
      if settled.Some? {
        return settled.value, naps, log;
      }
      i := i + 1;
    }
    return Decided(PENDING), naps, log;
  }

  /** SubmitAlpha: the id, then the budget gate; a refused call touches neither the client nor the network. */
  method SubmitAlpha(c: C.Client, gate: B.BudgetGate, id: string, day: int, feeds: seq<Feed>)
    returns (a: Answer, naps: seq<int>, log: seq<Event>)
    modifies c, gate
    ensures var (granted, gate') := B.Reserve(gate.quota, old(gate.Value()), B.Submit, 1, day);
            if id == "" then
              && a == Refused(InvalidArgument) && log == [] && naps == []
              && gate.Value() == old(gate.Value()) && c.State() == old(c.State())
            else if granted then
              && gate.Value() == gate'
              && IsAnswer(c.cfg, old(c.State()), feeds, a)
              && StopsAt(c.cfg, old(c.State()), feeds, a, |naps|)
            else
              && a == OverBudget && log == [] && naps == []
              && gate.Value() == gate' && c.State() == old(c.State())
    ensures gate.quota.submits <= 0 ==> a != OverBudget
    ensures a.Decided? && a.verdict.status == PendingCorr ==>
              a.verdict == Verdict(PendingCorr, CapExceeded, [], 0) && |naps| == Max0(c.cfg.maxLongPolls)
    ensures var retries, polls := Max0(c.cfg.maxRetries), Max0(c.cfg.maxLongPolls);
            && |log| <= (polls + 1) * (2 * retries + 3)
            && R.SleepOf(log) + Total(naps) <= (polls + 1) * (240_000 * retries) + 30_000 * polls
  {
    if id == "" {
      return Refused(InvalidArgument), [], [];
    }
    var ok := gate.CheckBudget(B.Submit, day);
    if !ok {
      return OverBudget, [], [];
    }
    ghost var sh := c.State();
    a, naps, log := PostAndPoll(c, feeds);
    if a.Decided? && a != Decided(PENDING) {
      VerdictHttp(c.cfg, sh, feeds, a.verdict);
    }
    SubmitIsBounded(c.cfg, sh, feeds, |naps|);
  }
}
