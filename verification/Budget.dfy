/** The daily quota gate of pkg/brainapi/client.go. */
module Budget {
  import opened Wrappers

  datatype Kind = Sim | Submit | Unknown

  /** DailyBudget: a non-positive entry switches its gate off. */
  datatype Quota = Quota(sims: int, submits: int)

  datatype Gate = Gate(day: Option<int>, sims: int, submits: int)

  const NEW_GATE := Gate(None, 0, 0)

  const DAY_SECONDS := 86_400
  const EDT_SHIFT := 14_400

  /** The challenge day of a UTC instant in seconds: its calendar day at the fixed offset -4 h. */
  function ChallengeDay(t: int): int {
    (t - EDT_SHIFT) / DAY_SECONDS
  }

  /** A day runs from 04:00 UTC to 04:00 UTC, and the days follow the clock. */
  lemma DayStartsAtFourUtc(t: int, d: int)
    ensures ChallengeDay(t) == d <==> d * 86_400 + 14_400 <= t < (d + 1) * 86_400 + 14_400
    ensures forall u :: t <= u ==> ChallengeDay(t) <= ChallengeDay(u)
  {
  }

  function Used(g: Gate, kind: Kind): int {
    match kind
    case Sim => g.sims
    case Submit => g.submits
    case Unknown => 0
  }

  function Limit(q: Quota, kind: Kind): int {
    match kind
    case Sim => q.sims
    case Submit => q.submits
    case Unknown => 0
  }

  /** The gate with its counters reset when the day has changed. */
  function Rolled(g: Gate, day: int): Gate {
    if g.day == Some(day) then g else Gate(Some(day), 0, 0)
  }

  function Charged(g: Gate, kind: Kind, n: int): Gate {
    match kind
    case Sim => g.(sims := g.sims + n)
    case Submit => g.(submits := g.submits + n)
    case Unknown => g
  }

  /** Whether n more units fit. */
  predicate Fits(q: Quota, g: Gate, kind: Kind, n: int) {
    Limit(q, kind) <= 0 || Used(g, kind) + n <= Limit(q, kind)
  }

  /** A batch of n charges n units, except that n <= 0 charges one. */
  function Units(n: int): nat {
    if n <= 1 then 1 else n
  }

  /** One reservation: whether it succeeds, and the gate afterwards. */
  function Reserve(q: Quota, g: Gate, kind: Kind, n: int, day: int): (bool, Gate) {
    var g' := Rolled(g, day);
    if Fits(q, g', kind, Units(n)) then (true, Charged(g', kind, Units(n))) else (false, g')
  }

  class BudgetGate {
    const quota: Quota
    var budgetDay: Option<int>
    var budgetSims: int
    var budgetSubs: int

    constructor (quota: Quota)
      ensures this.quota == quota && Value() == NEW_GATE
    {
      this.quota := quota;
      budgetDay, budgetSims, budgetSubs := None, 0, 0;
    }

    ghost function Value(): Gate
      reads this
    {
      Gate(budgetDay, budgetSims, budgetSubs)
    }

    method RollDay(day: int)
      modifies this
      ensures Value() == Rolled(old(Value()), day)
    {
      if budgetDay != Some(day) {
        budgetDay, budgetSims, budgetSubs := Some(day), 0, 0;
      }
    }

    method CheckBudget(kind: Kind, day: int) returns (ok: bool)
      modifies this
      ensures (ok, Value()) == Reserve(quota, old(Value()), kind, 1, day)
    {
      RollDay(day);
      match kind {
        case Sim =>
          if quota.sims > 0 && budgetSims >= quota.sims {
            return false;
          }
          budgetSims := budgetSims + 1;
        case Submit =>
          if quota.submits > 0 && budgetSubs >= quota.submits {
            return false;
          }
          budgetSubs := budgetSubs + 1;
        case Unknown =>
      }
      return true;
    }

    method CheckBudgetN(kind: Kind, n: int, day: int) returns (ok: bool)
      modifies this
      ensures (ok, Value()) == Reserve(quota, old(Value()), kind, n, day)
    {
      if n <= 1 {
        ok := CheckBudget(kind, day);
        return;
      }
      RollDay(day);
      match kind {
        case Sim =>
          if quota.sims > 0 && budgetSims + n > quota.sims {
            return false;
          }
          budgetSims := budgetSims + n;
        case Submit =>
          if quota.submits > 0 && budgetSubs + n > quota.submits {
            return false;
          }
          budgetSubs := budgetSubs + n;
        case Unknown =>
      }
      return true;
    }
  }

  /** k single reservations one after the other: whether all succeeded, and the final gate. */
  function Singles(q: Quota, g: Gate, kind: Kind, k: nat, day: int): (bool, Gate)
    decreases k
  {
    if k == 0 then (true, g)
    else
      var (ok, g') := Reserve(q, g, kind, 1, day);
      var (rest, g'') := Singles(q, g', kind, k - 1, day);
      (ok && rest, g'')
  }

  lemma {:induction false} SinglesAre(q: Quota, g: Gate, kind: Kind, k: nat, day: int)
    ensures k > 0 ==> Singles(q, g, kind, k, day).0 == Fits(q, Rolled(g, day), kind, k)
    ensures k > 0 && Fits(q, Rolled(g, day), kind, k) ==>
              Singles(q, g, kind, k, day).1 == Charged(Rolled(g, day), kind, k)
    decreases k
  {
    if k == 0 {
    } else {
      var g' := Reserve(q, g, kind, 1, day).1;
      assert Rolled(g', day) == g';
      SinglesAre(q, g', kind, k - 1, day);
    }
  }

  /**
   A batch succeeds exactly when that many single reservations would all
   succeed, and then leaves the same counters; refused, it changes nothing
   beyond the day reset.
   */
  lemma BatchEqualsSingles(q: Quota, g: Gate, kind: Kind, n: int, day: int)
    ensures var (ok, g') := Reserve(q, g, kind, n, day);
            var (all, g'') := Singles(q, g, kind, Units(n), day);
            && ok == all
            && (ok ==> g' == g'')
            && (!ok ==> g' == Rolled(g, day))
  {
    SinglesAre(q, g, kind, Units(n), day);
  }

  // ---- what is granted, request by request ----

  datatype Request = Request(kind: Kind, n: int, day: int)

  /** The gate after a sequence of requests. */
  function After(q: Quota, g: Gate, reqs: seq<Request>): Gate {
    if reqs == [] then g
    else
      var last := reqs[|reqs| - 1];
      Reserve(q, After(q, g, reqs[..|reqs| - 1]), last.kind, last.n, last.day).1
  }

  /** Which requests of a sequence succeed. */
  function Decisions(q: Quota, g: Gate, reqs: seq<Request>): seq<bool> {
    if reqs == [] then []
    else
      var last := |reqs| - 1;
      var g' := After(q, g, reqs[..last]);
      Decisions(q, g, reqs[..last]) + [Reserve(q, g', reqs[last].kind, reqs[last].n, reqs[last].day).0]
  }

  /** The units of one kind granted among the first i requests since the day became `day`. */
  function Spent(reqs: seq<Request>, outs: seq<bool>, kind: Kind, day: int, i: nat): nat
    requires i <= |reqs| == |outs|
  {
    if i == 0 || reqs[i - 1].day != day then 0
    else
      Spent(reqs, outs, kind, day, i - 1)
      + if outs[i - 1] && reqs[i - 1].kind == kind then (if reqs[i - 1].n <= 1 then 1 else reqs[i - 1].n) else 0
  }

  lemma {:induction false} SpentPrefix(reqs: seq<Request>, outs: seq<bool>, r: Request, ok: bool, kind: Kind, day: int,
                                       i: nat)
    requires i <= |reqs| == |outs|
    ensures Spent(reqs + [r], outs + [ok], kind, day, i) == Spent(reqs, outs, kind, day, i)
  {
    if i == 0 {
    } else {
      SpentPrefix(reqs, outs, r, ok, kind, day, i - 1);
    }
  }

  lemma {:induction false} DecisionsLength(q: Quota, g: Gate, reqs: seq<Request>)
    ensures |Decisions(q, g, reqs)| == |reqs|
  {
    if reqs == [] {
    } else {
      DecisionsLength(q, g, reqs[..|reqs| - 1]);
    }
  }

  /** The counters of the gate are what was spent on its day; on any other day nothing is. */
  ghost predicate Keeps(q: Quota, reqs: seq<Request>, outs: seq<bool>)
    requires |reqs| == |outs|
  {
    var g := After(q, NEW_GATE, reqs);
    forall kind: Kind, day: int :: kind != Unknown ==>
      Spent(reqs, outs, kind, day, |reqs|) == if g.day == Some(day) then Used(g, kind) else 0
  }

  /** The one decision on a request, given what was spent on its day. */
  predicate Decides(q: Quota, kind: Kind, n: int, spent: int, ok: bool) {
    match kind
    case Sim => ok <==> q.sims <= 0 || spent + (if n <= 1 then 1 else n) <= q.sims
    case Submit => ok <==> q.submits <= 0 || spent + (if n <= 1 then 1 else n) <= q.submits
    case Unknown => ok
  }

  lemma ReserveDecides(q: Quota, g: Gate, r: Request)
    ensures var (ok, g') := Reserve(q, g, r.kind, r.n, r.day);
            && Decides(q, r.kind, r.n, if g.day == Some(r.day) then Used(g, r.kind) else 0, ok)
            && g'.day == Some(r.day)
            && forall kind: Kind :: kind != Unknown ==>
                 Used(g', kind) == (if g.day == Some(r.day) then Used(g, kind) else 0)
                                 + (if ok && r.kind == kind then (if r.n <= 1 then 1 else r.n) else 0)
  {
  }

  lemma DecisionStep(q: Quota, reqs: seq<Request>, r: Request)
    requires |Decisions(q, NEW_GATE, reqs)| == |reqs| && Keeps(q, reqs, Decisions(q, NEW_GATE, reqs))
    ensures var outs := Decisions(q, NEW_GATE, reqs);
            var ok := Reserve(q, After(q, NEW_GATE, reqs), r.kind, r.n, r.day).0;
            && Decisions(q, NEW_GATE, reqs + [r]) == outs + [ok]
            && Decides(q, r.kind, r.n, Spent(reqs, outs, r.kind, r.day, |reqs|), ok)
            && Keeps(q, reqs + [r], outs + [ok])
  {
    var outs, g := Decisions(q, NEW_GATE, reqs), After(q, NEW_GATE, reqs);
    var ok := Reserve(q, g, r.kind, r.n, r.day).0;
    assert (reqs + [r])[..|reqs|] == reqs;
    ReserveDecides(q, g, r);
    forall kind: Kind, day: int | kind != Unknown
      ensures var g' := After(q, NEW_GATE, reqs + [r]);
              Spent(reqs + [r], outs + [ok], kind, day, |reqs| + 1) == if g'.day == Some(day) then Used(g', kind) else 0
    {
      SpentPrefix(reqs, outs, r, ok, kind, day, |reqs|);
    }
  }

  lemma {:induction false} DecisionsKeep(q: Quota, reqs: seq<Request>)
    ensures |Decisions(q, NEW_GATE, reqs)| == |reqs| && Keeps(q, reqs, Decisions(q, NEW_GATE, reqs))
  {
    DecisionsLength(q, NEW_GATE, reqs);
    if reqs == [] {
    } else {
      var init, last := reqs[..|reqs| - 1], reqs[|reqs| - 1];
      DecisionsKeep(q, init);
      DecisionStep(q, init, last);
      assert reqs == init + [last];
    }
  }

  /**
   The gate, request by request: whatever is asked in whatever order, a request
   succeeds exactly when its entry of the quota is not positive, or the units of
   its own kind granted since the day began and its own do not exceed that entry.
   The other kind plays no part, and a batch of n <= 1 is one unit.
   */
  lemma {:induction false} GrantedIff(q: Quota, reqs: seq<Request>, i: nat)
    requires i < |reqs|
    ensures var outs := Decisions(q, NEW_GATE, reqs);
            && |outs| == |reqs|
            && var r := reqs[i];
               var own := if r.n <= 1 then 1 else r.n;
               match r.kind
               case Sim => outs[i] <==> q.sims <= 0 || Spent(reqs, outs, Sim, r.day, i) + own <= q.sims
               case Submit => outs[i] <==> q.submits <= 0 || Spent(reqs, outs, Submit, r.day, i) + own <= q.submits
               case Unknown => outs[i]
    decreases |reqs|
  {
    var init, last := reqs[..|reqs| - 1], reqs[|reqs| - 1];
    var outs := Decisions(q, NEW_GATE, init);
    assert reqs == init + [last];
    DecisionsKeep(q, init);
    DecisionStep(q, init, last);
    var ok := Reserve(q, After(q, NEW_GATE, init), last.kind, last.n, last.day).0;
    SpentPrefix(init, outs, last, ok, reqs[i].kind, reqs[i].day, i);
    if i < |init| {
      GrantedIff(q, init, i);
    }
  }

  /** A non-positive entry switches the gate off, from whatever counters. */
  lemma SwitchedOff(q: Quota, g: Gate, n: int, day: int)
    ensures q.sims <= 0 ==> Reserve(q, g, Sim, n, day).0
    ensures q.submits <= 0 ==> Reserve(q, g, Submit, n, day).0
    ensures Reserve(q, g, Unknown, n, day).0
  {
  }

  // ---- quotas over whole call sequences ----

  /** The units of one kind that a sequence of requests is granted on day d. */
  function Granted(q: Quota, g: Gate, reqs: seq<Request>, kind: Kind, d: int): nat
    decreases |reqs|
  {
    if reqs == [] then 0
    else
      var r := reqs[0];
      var (ok, g') := Reserve(q, g, r.kind, r.n, r.day);
      (if ok && r.kind == kind && r.day == d then Units(r.n) else 0) + Granted(q, g', reqs[1..], kind, d)
  }

  function Days(reqs: seq<Request>): seq<int> {
    seq(|reqs|, i requires 0 <= i < |reqs| => reqs[i].day)
  }

  /** No day comes back once another day has been seen. */
  ghost predicate Contiguous(days: seq<int>) {
    forall i, j, k :: 0 <= i < j < k < |days| && days[i] == days[k] ==> days[j] == days[i]
  }

  ghost predicate Ascending(days: seq<int>) {
    forall i, j :: 0 <= i < j < |days| ==> days[i] <= days[j]
  }

  lemma ContiguousTail(a: int, days: seq<int>)
    requires Contiguous([a] + days) && days != []
    ensures Contiguous([days[0]] + days[1..])
    ensures days[0] != a ==> a !in days
  {
    var all := [a] + days;
    assert [days[0]] + days[1..] == days;
    assert forall i :: 0 <= i < |days| ==> all[i + 1] == days[i];
    assert all[0] == a && all[1] == days[0];
  }

  lemma {:induction false} OtherDaysGrantNothing(q: Quota, g: Gate, reqs: seq<Request>, kind: Kind, d: int)
    requires d !in Days(reqs)
    ensures Granted(q, g, reqs, kind, d) == 0
    decreases |reqs|
  {
    if reqs == [] {
    } else {
      var r := reqs[0];
      assert Days(reqs) == [r.day] + Days(reqs[1..]);
      OtherDaysGrantNothing(q, Reserve(q, g, r.kind, r.n, r.day).1, reqs[1..], kind, d);
    }
  }

  /** A reservation uses what it grants, on the counters of its own day. */
  lemma ReserveUses(q: Quota, g: Gate, r: Request, kind: Kind)
    requires Limit(q, kind) > 0 && 0 <= Used(g, kind) <= Limit(q, kind)
    ensures var (ok, g') := Reserve(q, g, r.kind, r.n, r.day);
            && g'.day == Some(r.day)
            && Used(g', kind) == (if g.day == Some(r.day) then Used(g, kind) else 0)
                               + (if ok && r.kind == kind then Units(r.n) else 0)
            && 0 <= Used(g', kind) <= Limit(q, kind)
  {
  }

  lemma {:induction false} GrantBound(q: Quota, g: Gate, reqs: seq<Request>, kind: Kind, d: int)
    requires Limit(q, kind) > 0 && 0 <= Used(g, kind) <= Limit(q, kind)
    requires g.day.Some? && Contiguous([g.day.value] + Days(reqs))
    ensures Granted(q, g, reqs, kind, d) <= if g.day == Some(d) then Limit(q, kind) - Used(g, kind) else Limit(q, kind)
    decreases |reqs|
  {
    if reqs == [] {
    } else {
      var r := reqs[0];
      assert Days(reqs) == [r.day] + Days(reqs[1..]);
      ContiguousTail(g.day.value, Days(reqs));
      ReserveUses(q, g, r, kind);
      assert Days(reqs)[1..] == Days(reqs[1..]);
      if g.day == Some(d) && r.day != d {
        OtherDaysGrantNothing(q, g, reqs, kind, d);
      } else {
        GrantBound(q, Reserve(q, g, r.kind, r.n, r.day).1, reqs[1..], kind, d);
      }
    }
  }

  /** As long as no day comes back, no day is granted more than its positive quota. */
  lemma QuotaHolds(q: Quota, reqs: seq<Request>, kind: Kind, d: int)
    requires Limit(q, kind) > 0 && Contiguous(Days(reqs))
    ensures Granted(q, NEW_GATE, reqs, kind, d) <= Limit(q, kind)
  {
    if reqs != [] {
      var r := reqs[0];
      assert Days(reqs) == [r.day] + Days(reqs[1..]);
      GrantBound(q, Reserve(q, NEW_GATE, r.kind, r.n, r.day).1, reqs[1..], kind, d);
    }
  }

  /** In particular when the clock readings reach the lock in order. */
  lemma QuotaHoldsInOrder(q: Quota, reqs: seq<Request>, times: seq<int>, kind: Kind, d: int)
    requires Limit(q, kind) > 0 && |times| == |reqs| && Ascending(times)
    requires forall i :: 0 <= i < |reqs| ==> reqs[i].day == ChallengeDay(times[i])
    ensures Granted(q, NEW_GATE, reqs, kind, d) <= Limit(q, kind)
  {
    var days := Days(reqs);
    forall i, j | 0 <= i < j < |days|
      ensures days[i] <= days[j]
    {
      DayStartsAtFourUtc(times[i], days[i]);
    }
    QuotaHolds(q, reqs, kind, d);
  }

  function AskAll(kind: Kind, n: int, days: seq<int>): seq<Request> {
    seq(|days|, i requires 0 <= i < |days| => Request(kind, n, days[i]))
  }

  /** Asking for the whole quota at once on a gate that stands elsewhere is granted. */
  lemma {:induction false} FirstOfADay(q: Quota, g: Gate, days: seq<int>, kind: Kind, i: nat)
    requires Limit(q, kind) > 0 && i < |days|
    requires if i == 0 then g.day != Some(days[0]) else days[i - 1] != days[i]
    ensures Granted(q, g, AskAll(kind, Limit(q, kind), days), kind, days[i]) >= Limit(q, kind)
    decreases i
  {
    var reqs := AskAll(kind, Limit(q, kind), days);
    if i > 0 {
      assert reqs[1..] == AskAll(kind, Limit(q, kind), days[1..]);
      var g' := Reserve(q, g, kind, Limit(q, kind), days[0]).1;
      assert g'.day == Some(days[0]);
      FirstOfADay(q, g', days[1..], kind, i - 1);
    }
  }

  lemma {:induction false} TwoBlocks(q: Quota, g: Gate, days: seq<int>, kind: Kind, i: nat, k: nat)
    requires Limit(q, kind) > 0 && i < k < |days| && days[i] == days[k]
    requires if i == 0 then g.day != Some(days[0]) else days[i - 1] != days[i]
    requires days[k - 1] != days[k]
    ensures Granted(q, g, AskAll(kind, Limit(q, kind), days), kind, days[i]) >= 2 * Limit(q, kind)
    decreases i
  {
    var reqs := AskAll(kind, Limit(q, kind), days);
    assert reqs[1..] == AskAll(kind, Limit(q, kind), days[1..]);
    var g' := Reserve(q, g, kind, Limit(q, kind), days[0]).1;
    assert g'.day == Some(days[0]);
    if i > 0 {
      TwoBlocks(q, g', days[1..], kind, i - 1, k - 1);
    } else {
      FirstOfADay(q, g', days[1..], kind, k - 1);
    }
  }

  lemma FirstIndex(days: seq<int>, d: int, lo: nat, hi: nat) returns (m: nat)
    requires lo <= hi < |days| && days[hi] == d
    ensures lo <= m <= hi && days[m] == d && forall x :: lo <= x < m ==> days[x] != d
    decreases hi - lo
  {
    if days[lo] == d {
      m := lo;
    } else {
      m := FirstIndex(days, d, lo + 1, hi);
    }
  }

  /**
   The exact condition on the days, which are read before the lock is taken: the
   quota holds for whatever is asked if and only if no day comes back after
   another one was seen. Stale reads that interleave two days over-grant.
   */
  lemma QuotaHoldsIff(q: Quota, days: seq<int>, kind: Kind)
    requires Limit(q, kind) > 0
    ensures Contiguous(days) <==>
            forall reqs, d | Days(reqs) == days :: Granted(q, NEW_GATE, reqs, kind, d) <= Limit(q, kind)
  {
    if Contiguous(days) {
      forall reqs, d | Days(reqs) == days
        ensures Granted(q, NEW_GATE, reqs, kind, d) <= Limit(q, kind)
      {
        QuotaHolds(q, reqs, kind, d);
      }
    } else {
      var i, j, k :| 0 <= i < j < k < |days| && days[i] == days[k] && days[j] != days[i];
      var first := FirstIndex(days, days[i], 0, i);
      var again := FirstIndex(days, days[i], j, k);
      TwoBlocks(q, NEW_GATE, days, kind, first, again);
      var reqs := AskAll(kind, Limit(q, kind), days);
      assert Days(reqs) == days;
      assert Granted(q, NEW_GATE, reqs, kind, days[i]) > Limit(q, kind);
    }
  }
}
