/** Scoring a candidate against its neighbours and ranking them (MaxSelfCorr of pkg/brainapi/selfcorr.go). */
module Ranking {
  import opened Series
  import opened Keyed
  import opened Align
  import P = Pearson

  const CORR_TOP_K := 5

  datatype Neighbour = Neighbour(id: string, series: seq<Return>)

  /** One scored neighbour; `corr` is the signed square of the correlation. */
  datatype Scored = Scored(id: string, corr: real, overlap: nat)

  datatype MaxResult = MaxResult(corrMax: real, neighbours: seq<Scored>, considered: nat, skipped: nat)

  function Magnitude(x: Scored): real {
    P.Abs(x.corr)
  }

  /** Descending magnitude is ascending rank. */
  function RankKey(x: Scored): real {
    -Magnitude(x)
  }

  // ---- sort.SliceStable by descending magnitude ----

  function Insert(s: seq<Scored>, x: Scored): (r: seq<Scored>)
    ensures |r| == |s| + 1
  {
    if s == [] || RankKey(s[|s| - 1]) <= RankKey(x) then s + [x]
    else Insert(s[..|s| - 1], x) + [s[|s| - 1]]
  }

  function StableSort(s: seq<Scored>): (r: seq<Scored>)
    ensures |r| == |s|
  {
    if s == [] then [] else Insert(StableSort(s[..|s| - 1]), s[|s| - 1])
  }

  /** Ordered by rank, with the elements of equal magnitude left in their order. */
  ghost predicate IsStableSort(s: seq<Scored>, t: seq<Scored>) {
    Ordered(RankKey, t) && forall k :: On(RankKey, t, k) == On(RankKey, s, k)
  }

  lemma {:induction false} InsertPermutes(s: seq<Scored>, x: Scored)
    ensures multiset(Insert(s, x)) == multiset(s) + multiset{x}
  {
    if s == [] || RankKey(s[|s| - 1]) <= RankKey(x) {
    } else {
      InsertPermutes(s[..|s| - 1], x);
      assert s == s[..|s| - 1] + [s[|s| - 1]];
    }
  }

  lemma AppendOrdered(s: seq<Scored>, x: Scored)
    requires Ordered(RankKey, s) && forall y :: y in s ==> RankKey(y) <= RankKey(x)
    ensures Ordered(RankKey, s + [x])
  {
    var r := s + [x];
    forall i, j | 0 <= i < j < |r|
      ensures RankKey(r[i]) <= RankKey(r[j])
    {
      assert r[i] == s[i] && r[i] in s;
    }
  }

  lemma InsertedMembers(s: seq<Scored>, x: Scored)
    ensures forall y :: y in Insert(s, x) ==> y in s || y == x
  {
    InsertPermutes(s, x);
    forall y | y in Insert(s, x)
      ensures y in s || y == x
    {
      assert y in multiset(s) + multiset{x};
    }
  }

  lemma {:induction false} InsertOrdered(s: seq<Scored>, x: Scored)
    requires Ordered(RankKey, s)
    ensures Ordered(RankKey, Insert(s, x))
  {
    if s == [] {
      AppendOrdered([], x);
    } else {
      var init, last := s[..|s| - 1], s[|s| - 1];
      if RankKey(last) <= RankKey(x) {
        AppendOrdered(s, x);
      } else {
        InsertOrdered(init, x);
        InsertedMembers(init, x);
        AppendOrdered(Insert(init, x), last);
      }
    }
  }

  lemma {:induction false} InsertStable(s: seq<Scored>, x: Scored, k: real)
    requires Ordered(RankKey, s)
    ensures On(RankKey, Insert(s, x), k) == On(RankKey, s + [x], k)
  {
    if s == [] || RankKey(s[|s| - 1]) <= RankKey(x) {
    } else {
      var init, last := s[..|s| - 1], s[|s| - 1];
      assert s == init + [last];
      InsertStable(init, x, k);
      OnConcat(RankKey, Insert(init, x), [last], k);
      OnConcat(RankKey, init, [x], k);
      OnConcat(RankKey, init, [last], k);
      OnConcat(RankKey, s, [x], k);
    }
  }

  lemma {:induction false} StableSortSorts(s: seq<Scored>)
    ensures Ordered(RankKey, StableSort(s)) && multiset(StableSort(s)) == multiset(s)
  {
    if s == [] {
    } else {
      var init, last := s[..|s| - 1], s[|s| - 1];
      assert s == init + [last];
      StableSortSorts(init);
      InsertOrdered(StableSort(init), last);
      InsertPermutes(StableSort(init), last);
    }
  }

  lemma {:induction false} StableSortStable(s: seq<Scored>, k: real)
    ensures On(RankKey, StableSort(s), k) == On(RankKey, s, k)
  {
    if s == [] {
    } else {
      var init, last := s[..|s| - 1], s[|s| - 1];
      assert s == init + [last];
      StableSortSorts(init);
      StableSortStable(init, k);
      InsertStable(StableSort(init), last, k);
      OnConcat(RankKey, StableSort(init), [last], k);
      OnConcat(RankKey, init, [last], k);
    }
  }

  /** There is exactly one stable ranking, so the library sort can only yield this one. */
  lemma StableSortIsTheOnlyOne(s: seq<Scored>, t: seq<Scored>)
    ensures IsStableSort(s, t) <==> t == StableSort(s)
  {
    StableSortSorts(s);
    forall k: real
      ensures On(RankKey, StableSort(s), k) == On(RankKey, s, k)
    {
      StableSortStable(s, k);
    }
    if IsStableSort(s, t) {
      OrderedUniquely(RankKey, t, StableSort(s));
    }
  }

  // ---- scoring ----

  ghost function ScoreOne(candidate: seq<Return>, nb: Neighbour): seq<Scored> {
    var ps := Join(candidate, nb.series);
    if |ps| < MIN_OVERLAP_DAYS then [] else [Scored(nb.id, P.Corr(Xs(ps), Ys(ps)), |ps|)]
  }

  /** The scored neighbours in input order; those with too little overlap are left out. */
  ghost function Score(candidate: seq<Return>, neighbours: seq<Neighbour>): seq<Scored> {
    if neighbours == [] then []
    else
      Score(candidate, neighbours[..|neighbours| - 1]) + ScoreOne(candidate, neighbours[|neighbours| - 1])
  }

  function TopK(topK: int): nat {
    if topK <= 0 then CORR_TOP_K else topK
  }

  function Take(s: seq<Scored>, k: nat): seq<Scored> {
    if |s| > k then s[..k] else s
  }

  /** The result for a list of scored neighbours out of n. */
  function Summary(all: seq<Scored>, n: nat, topK: int): MaxResult
    requires |all| <= n
  {
    var ranked := StableSort(all);
    MaxResult(if all == [] then 0.0 else ranked[0].corr, Take(ranked, TopK(topK)), n, n - |all|)
  }

  lemma {:induction false} ScoreLength(candidate: seq<Return>, neighbours: seq<Neighbour>)
    ensures |Score(candidate, neighbours)| <= |neighbours|
  {
    if neighbours == [] {
    } else {
      ScoreLength(candidate, neighbours[..|neighbours| - 1]);
    }
  }

  /** The result of scanning all neighbours, without the early guard. */
  ghost function Scan(candidate: seq<Return>, neighbours: seq<Neighbour>, topK: int): MaxResult {
    ScoreLength(candidate, neighbours);
    Summary(Score(candidate, neighbours), |neighbours|, topK)
  }

  ghost function MaxCorr(candidate: seq<Return>, neighbours: seq<Neighbour>, topK: int): MaxResult {
    if |candidate| < MIN_OVERLAP_DAYS || neighbours == [] then MaxResult(0.0, [], |neighbours|, 0)
    else Scan(candidate, neighbours, topK)
  }

  /** One turn of the loop: align, then correlate. */
  method ScoreNeighbour(candidate: seq<Return>, nb: Neighbour) returns (scored: seq<Scored>)
    ensures scored == ScoreOne(candidate, nb)
  {
    var av, bv, overlap, ok := AlignReturns(candidate, nb.series);
    if !ok {
      return [];
    }
    var corr := P.Pearson(av, bv);
    scored := [Scored(nb.id, corr, overlap)];
  }

  /** The loop over the neighbours. */
  method ScoreAll(candidate: seq<Return>, neighbours: seq<Neighbour>) returns (all: seq<Scored>, skipped: nat)
    ensures all == Score(candidate, neighbours) && skipped + |all| == |neighbours|
  {
    skipped, all := 0, [];
    for i := 0 to |neighbours|
      invariant all == Score(candidate, neighbours[..i])
      invariant skipped + |all| == i
    {
      assert neighbours[..i + 1][..i] == neighbours[..i];
      var scored := ScoreNeighbour(candidate, neighbours[i]);
      if |scored| == 0 {
        skipped := skipped + 1;
        continue;
      }
      all := all + scored;
    }
    assert neighbours[..|neighbours|] == neighbours;
  }

  /** Sort, cut to the first k, and report. */
  method Summarise(all: seq<Scored>, skipped: nat, k: nat) returns (r: MaxResult)
    requires k > 0
    ensures r == Summary(all, skipped + |all|, k)
  {
    var n := skipped + |all|;
    if |all| == 0 {
      return MaxResult(0.0, [], n, skipped);
    }
    var ranked := StableSort(all);
    var top := ranked;
    if |top| > k {
      top := top[..k];
    }
    return MaxResult(ranked[0].corr, top, n, skipped);
  }

  method MaxSelfCorr(candidate: seq<Return>, neighbours: seq<Neighbour>, topK: int) returns (r: MaxResult)
    ensures r == MaxCorr(candidate, neighbours, topK)
  {
    var k := if topK <= 0 then CORR_TOP_K else topK;
    if |candidate| < MIN_OVERLAP_DAYS || |neighbours| == 0 {
      return MaxResult(0.0, [], |neighbours|, 0);
    }
    var all, skipped := ScoreAll(candidate, neighbours);
    r := Summarise(all, skipped, k);
  }

  // ---- what the ranking means ----

  /** No scored neighbour has a larger magnitude. */
  ghost predicate Dominates(m: real, all: seq<Scored>) {
    forall x :: x in all ==> Magnitude(x) <= m
  }

  lemma HeadDominates(all: seq<Scored>)
    requires all != []
    ensures StableSort(all)[0] in all && Dominates(Magnitude(StableSort(all)[0]), all)
  {
    var ranked := StableSort(all);
    StableSortSorts(all);
    assert ranked[0] in multiset(all);
    forall x | x in all
      ensures Magnitude(x) <= Magnitude(ranked[0])
    {
      assert x in multiset(ranked);
      var i :| 0 <= i < |ranked| && ranked[i] == x;
      assert RankKey(ranked[0]) <= RankKey(ranked[i]);
    }
  }

  lemma SplitIsRanked(ranked: seq<Scored>, k: nat)
    requires Ordered(RankKey, ranked) && k <= |ranked|
    ensures forall x, y :: x in ranked[..k] && y in ranked[k..] ==> Magnitude(y) <= Magnitude(x)
  {
    forall x, y | x in ranked[..k] && y in ranked[k..]
      ensures Magnitude(y) <= Magnitude(x)
    {
      var i :| 0 <= i < k && ranked[i] == x;
      var j :| k <= j < |ranked| && ranked[j] == y;
      assert RankKey(ranked[i]) <= RankKey(ranked[j]);
    }
  }

  /**
   The list is the head of the stable ranking: min(topK, scored) entries in
   descending magnitude, none smaller than an unlisted one; corrMax is the
   correlation of a neighbour of largest magnitude.
   */
  lemma SummaryMeans(all: seq<Scored>, n: nat, topK: int) returns (rest: seq<Scored>)
    requires |all| <= n
    ensures var r := Summary(all, n, topK);
            && IsStableSort(all, r.neighbours + rest)
            && |r.neighbours| == (if TopK(topK) < |all| then TopK(topK) else |all|)
            && (forall x, y :: x in r.neighbours && y in rest ==> Magnitude(y) <= Magnitude(x))
            && Dominates(P.Abs(r.corrMax), all)
            && (all != [] ==> exists x :: x in all && x.corr == r.corrMax)
  {
    var ranked := StableSort(all);
    var k := if TopK(topK) < |all| then TopK(topK) else |all|;
    rest := ranked[k..];
    StableSortIsTheOnlyOne(all, ranked);
    assert Take(ranked, TopK(topK)) == ranked[..k] && ranked[..k] + rest == ranked;
    SplitIsRanked(ranked, k);
    if all != [] {
      HeadDominates(all);
    }
  }

  /** Past the guard, the result summarises the scored neighbours, and every neighbour is either scored or skipped. */
  lemma EveryNeighbourCounted(candidate: seq<Return>, neighbours: seq<Neighbour>, topK: int)
    requires |candidate| >= MIN_OVERLAP_DAYS
    ensures |Score(candidate, neighbours)| <= |neighbours|
    ensures var r := MaxCorr(candidate, neighbours, topK);
            && r == Summary(Score(candidate, neighbours), |neighbours|, topK)
            && r.considered == |neighbours| == r.skipped + |Score(candidate, neighbours)|
  {
    ScoreLength(candidate, neighbours);
  }

  lemma {:induction false} ShortCandidateScoresNothing(candidate: seq<Return>, neighbours: seq<Neighbour>)
    requires |candidate| < MIN_OVERLAP_DAYS
    ensures Score(candidate, neighbours) == []
  {
    if neighbours == [] {
    } else {
      ShortCandidateScoresNothing(candidate, neighbours[..|neighbours| - 1]);
      JoinIsShort(candidate, neighbours[|neighbours| - 1].series);
    }
  }

  /** The early guard agrees with the full scan on everything except the skipped count. */
  lemma GuardAgreesWithScan(candidate: seq<Return>, neighbours: seq<Neighbour>, topK: int)
    ensures var r, full := MaxCorr(candidate, neighbours, topK), Scan(candidate, neighbours, topK);
            && r == full.(skipped := r.skipped)
            && (r.skipped != full.skipped <==> |candidate| < MIN_OVERLAP_DAYS && neighbours != [])
  {
    if |candidate| < MIN_OVERLAP_DAYS {
      ShortCandidateScoresNothing(candidate, neighbours);
    }
  }

  lemma {:induction false} ScoreMembers(candidate: seq<Return>, neighbours: seq<Neighbour>, x: Scored)
    ensures x in Score(candidate, neighbours) <==> exists nb :: nb in neighbours && x in ScoreOne(candidate, nb)
  {
    if neighbours == [] {
    } else {
      var init, last := neighbours[..|neighbours| - 1], neighbours[|neighbours| - 1];
      assert neighbours == init + [last];
      ScoreMembers(candidate, init, x);
      assert forall nb :: nb in neighbours <==> nb in init || nb == last;
    }
  }

  /** More neighbours, wherever they are inserted, never lower |CorrMax|. */
  lemma MoreNeighboursNeverLower(candidate: seq<Return>, some: seq<Neighbour>, more: seq<Neighbour>, topK: int)
    requires forall nb :: nb in some ==> nb in more
    ensures P.Abs(MaxCorr(candidate, some, topK).corrMax) <= P.Abs(MaxCorr(candidate, more, topK).corrMax)
  {
    GuardAgreesWithScan(candidate, some, topK);
    GuardAgreesWithScan(candidate, more, topK);
    var a, b := Score(candidate, some), Score(candidate, more);
    if a != [] {
      HeadDominates(a);
      var x := StableSort(a)[0];
      ScoreMembers(candidate, some, x);
      ScoreMembers(candidate, more, x);
      assert x in b;
      HeadDominates(b);
    }
  }

  lemma {:induction false} ScoresInRange(candidate: seq<Return>, neighbours: seq<Neighbour>)
    ensures forall x :: x in Score(candidate, neighbours) ==> Magnitude(x) <= 1.0 && x.overlap >= MIN_OVERLAP_DAYS
  {
    if neighbours == [] {
    } else {
      ScoresInRange(candidate, neighbours[..|neighbours| - 1]);
      var ps := Join(candidate, neighbours[|neighbours| - 1].series);
      P.CorrInRange(Xs(ps), Ys(ps));
    }
  }

  lemma ReportedIsScored(candidate: seq<Return>, neighbours: seq<Neighbour>, topK: int, x: Scored)
    requires x in MaxCorr(candidate, neighbours, topK).neighbours
    ensures x in Score(candidate, neighbours)
  {
    var all := Score(candidate, neighbours);
    GuardAgreesWithScan(candidate, neighbours, topK);
    StableSortSorts(all);
    assert x in StableSort(all);
    assert x in multiset(StableSort(all));
  }

  /** Every reported correlation lies in [-1, 1] and rests on at least 30 common days. */
  lemma ResultInRange(candidate: seq<Return>, neighbours: seq<Neighbour>, topK: int)
    ensures var r := MaxCorr(candidate, neighbours, topK);
            && -1.0 <= r.corrMax <= 1.0
            && forall x :: x in r.neighbours ==> -1.0 <= x.corr <= 1.0 && x.overlap >= MIN_OVERLAP_DAYS
  {
    var all := Score(candidate, neighbours);
    ScoresInRange(candidate, neighbours);
    if all != [] {
      HeadDominates(all);
    }
    forall x | x in MaxCorr(candidate, neighbours, topK).neighbours
      ensures x in all
    {
      ReportedIsScored(candidate, neighbours, topK, x);
    }
  }

  // ---- nobody is left out ----

  ghost predicate AllOrdered(neighbours: seq<Neighbour>) {
    forall nb :: nb in neighbours ==> Ordered(ReturnDate, nb.series)
  }

  /** x is the score of nb: the size of the date intersection, and the correlation over the join. */
  ghost predicate ScoredBy(candidate: seq<Return>, nb: Neighbour, x: Scored) {
    && x.id == nb.id && x.overlap == Common(candidate, nb.series)
    && exists ps :: IsJoin(candidate, nb.series, ps) && x.corr == P.Corr(Xs(ps), Ys(ps))
  }

  /**
   `out` holds what `rel` makes of exactly the elements of `s` with the property
   `keep`, in their order; `at` says where they are.
   */
  ghost predicate Selects<T(!new), U(!new)>(s: seq<T>, keep: T -> bool, rel: (T, U) -> bool, out: seq<U>,
                                            at: seq<nat>) {
    && |at| == |out|
    && (forall k, l :: 0 <= k < l < |at| ==> at[k] < at[l])
    && (forall i: nat :: i in at <==> i < |s| && keep(s[i]))
    && forall k :: 0 <= k < |at| ==> at[k] < |s| && rel(s[at[k]], out[k])
  }

  /** The scores of exactly the neighbours that share at least thirty dates with the candidate, in input order. */
  ghost predicate Lists(candidate: seq<Return>, neighbours: seq<Neighbour>, scored: seq<Scored>, at: seq<nat>) {
    Selects(neighbours, (nb: Neighbour) => Common(candidate, nb.series) >= 30,
            (nb: Neighbour, x: Scored) => ScoredBy(candidate, nb, x), scored, at)
  }

  /** How many neighbours share fewer. */
  function TooFew(candidate: seq<Return>, neighbours: seq<Neighbour>): nat {
    if neighbours == [] then 0
    else
      TooFew(candidate, neighbours[..|neighbours| - 1])
      + if Common(candidate, neighbours[|neighbours| - 1].series) < 30 then 1 else 0
  }

  lemma ScoreOneIs(candidate: seq<Return>, nb: Neighbour)
    requires Ordered(ReturnDate, candidate) && Ordered(ReturnDate, nb.series)
    ensures var s := ScoreOne(candidate, nb);
            if Common(candidate, nb.series) < 30 then s == [] else |s| == 1 && ScoredBy(candidate, nb, s[0])
  {
    AlignedIff(candidate, nb.series);
    JoinIsTheJoin(candidate, nb.series, Join(candidate, nb.series));
  }

  lemma SelectsSnoc<T(!new), U(!new)>(s: seq<T>, keep: T -> bool, rel: (T, U) -> bool, out: seq<U>, at: seq<nat>,
                                      x: T, one: seq<U>)
    requires Selects(s, keep, rel, out, at)
    requires if keep(x) then |one| == 1 && rel(x, one[0]) else one == []
    ensures Selects(s + [x], keep, rel, out + one, if keep(x) then at + [|s|] else at)
  {
    var s', at' := s + [x], if keep(x) then at + [|s|] else at;
    assert forall k :: 0 <= k < |at| ==> at[k] in at;
    assert forall i: nat :: i < |s| ==> s'[i] == s[i];
    forall k | 0 <= k < |at'|
      ensures at'[k] < |s'| && rel(s'[at'[k]], (out + one)[k])
    {
      if k < |at| {
        assert at'[k] == at[k] && (out + one)[k] == out[k];
      } else {
        assert (out + one)[k] == one[0];
      }
    }
  }

  lemma {:induction false} ScoreIsComplete(candidate: seq<Return>, neighbours: seq<Neighbour>) returns (at: seq<nat>)
    requires Ordered(ReturnDate, candidate) && AllOrdered(neighbours)
    ensures Lists(candidate, neighbours, Score(candidate, neighbours), at)
    ensures |Score(candidate, neighbours)| + TooFew(candidate, neighbours) == |neighbours|
  {
    if neighbours == [] {
      at := [];
    } else {
      var init, last := neighbours[..|neighbours| - 1], neighbours[|neighbours| - 1];
      assert neighbours == init + [last];
      var before := ScoreIsComplete(candidate, init);
      ScoreOneIs(candidate, last);
      var one := ScoreOne(candidate, last);
      var keep := (nb: Neighbour) => Common(candidate, nb.series) >= 30;
      SelectsSnoc(init, keep, (nb: Neighbour, x: Scored) => ScoredBy(candidate, nb, x),
                  Score(candidate, init), before, last, one);
      at := if keep(last) then before + [|init|] else before;
    }
  }

  lemma DescendingMagnitudes(all: seq<Scored>, list: seq<Scored>, rest: seq<Scored>)
    requires IsStableSort(all, list + rest)
    ensures forall i, j :: 0 <= i < j < |list| ==> P.Abs(list[j].corr) <= P.Abs(list[i].corr)
    ensures forall i, j :: 0 <= i < |list| && 0 <= j < |rest| ==> P.Abs(rest[j].corr) <= P.Abs(list[i].corr)
  {
    var ranked := list + rest;
    assert Ordered(RankKey, ranked);
    forall i, j | 0 <= i < j < |list|
      ensures P.Abs(list[j].corr) <= P.Abs(list[i].corr)
    {
      assert ranked[i] == list[i] && ranked[j] == list[j];
      assert RankKey(ranked[i]) <= RankKey(ranked[j]);
    }
    forall i, j | 0 <= i < |list| && 0 <= j < |rest|
      ensures P.Abs(rest[j].corr) <= P.Abs(list[i].corr)
    {
      assert ranked[i] == list[i] && ranked[|list| + j] == rest[j];
      assert RankKey(ranked[i]) <= RankKey(ranked[|list| + j]);
    }
  }

  lemma SkippedAre(candidate: seq<Return>, neighbours: seq<Neighbour>, topK: int)
    requires Ordered(ReturnDate, candidate) && AllOrdered(neighbours)
    ensures MaxCorr(candidate, neighbours, topK).skipped
         == if |candidate| < 30 then 0 else TooFew(candidate, neighbours)
  {
    if |candidate| >= 30 {
      var at := ScoreIsComplete(candidate, neighbours);
      EveryNeighbourCounted(candidate, neighbours, topK);
    }
  }

  /**
   The whole result for date-sorted series, without reference to how it is
   computed: the neighbours sharing at least thirty dates, and only those, are
   scored over their joins in input order; the list is the head of their stable
   ranking by magnitude, five or topK long if there are as many; CorrMax is the
   first one's; past the guard the others are counted as skipped.
   */
  lemma ResultMeans(candidate: seq<Return>, neighbours: seq<Neighbour>, topK: int)
    returns (scored: seq<Scored>, at: seq<nat>, rest: seq<Scored>)
    requires Ordered(ReturnDate, candidate) && AllOrdered(neighbours)
    ensures Lists(candidate, neighbours, scored, at)
    ensures var r := MaxCorr(candidate, neighbours, topK);
            var limit := if topK <= 0 then 5 else topK;
            && IsStableSort(scored, r.neighbours + rest)
            && |r.neighbours| == (if limit < |scored| then limit else |scored|)
            && (forall i, j :: 0 <= i < j < |r.neighbours| ==>
                  P.Abs(r.neighbours[j].corr) <= P.Abs(r.neighbours[i].corr))
            && (forall i, j :: 0 <= i < |r.neighbours| && 0 <= j < |rest| ==>
                  P.Abs(rest[j].corr) <= P.Abs(r.neighbours[i].corr))
            && r.corrMax == (if r.neighbours == [] then 0.0 else r.neighbours[0].corr)
            && r.considered == |neighbours|
            && r.skipped == (if |candidate| < 30 then 0 else TooFew(candidate, neighbours))
  {
    at := ScoreIsComplete(candidate, neighbours);
    scored := Score(candidate, neighbours);
    GuardAgreesWithScan(candidate, neighbours, topK);
    rest := SummaryMeans(scored, |neighbours|, topK);
    DescendingMagnitudes(scored, Summary(scored, |neighbours|, topK).neighbours, rest);
    SkippedAre(candidate, neighbours, topK);
  }

  /** In particular CorrMax is at least as large as the correlation with any neighbour sharing thirty dates. */
  lemma NobodyIsLarger(candidate: seq<Return>, neighbours: seq<Neighbour>, topK: int, nb: Neighbour, ps: seq<Pair>)
    requires Ordered(ReturnDate, candidate) && AllOrdered(neighbours)
    requires nb in neighbours && Common(candidate, nb.series) >= 30 && IsJoin(candidate, nb.series, ps)
    ensures P.Abs(P.Corr(Xs(ps), Ys(ps))) <= P.Abs(MaxCorr(candidate, neighbours, topK).corrMax)
  {
    JoinIsTheJoin(candidate, nb.series, ps);
    AlignedIff(candidate, nb.series);
    GuardAgreesWithScan(candidate, neighbours, topK);
    var all := Score(candidate, neighbours);
    var x := Scored(nb.id, P.Corr(Xs(ps), Ys(ps)), |ps|);
    assert x in ScoreOne(candidate, nb);
    ScoreMembers(candidate, neighbours, x);
    HeadDominates(all);
    assert Magnitude(x) <= Magnitude(StableSort(all)[0]);
  }

  // ---- scaling the candidate ----

  function Flip(k: real, x: Scored): Scored {
    x.(corr := P.Prod(P.Sgn(k), x.corr))
  }

  function FlipAll(k: real, s: seq<Scored>): seq<Scored> {
    seq(|s|, i requires 0 <= i < |s| => Flip(k, s[i]))
  }

  lemma FlipKeepsRank(k: real, x: Scored)
    ensures RankKey(Flip(k, x)) == RankKey(x)
  {
  }

  lemma {:induction false} InsertFlips(k: real, s: seq<Scored>, x: Scored)
    ensures Insert(FlipAll(k, s), Flip(k, x)) == FlipAll(k, Insert(s, x))
  {
    FlipKeepsRank(k, x);
    if s != [] {
      var init, last := s[..|s| - 1], s[|s| - 1];
      FlipKeepsRank(k, last);
      assert FlipAll(k, s)[..|s| - 1] == FlipAll(k, init);
      InsertFlips(k, init, x);
    }
  }

  lemma {:induction false} SortFlips(k: real, s: seq<Scored>)
    ensures StableSort(FlipAll(k, s)) == FlipAll(k, StableSort(s))
  {
    if s == [] {
    } else {
      var init, last := s[..|s| - 1], s[|s| - 1];
      assert FlipAll(k, s)[..|s| - 1] == FlipAll(k, init);
      SortFlips(k, init);
      InsertFlips(k, StableSort(init), last);
    }
  }

  lemma ScoreOneFlips(k: real, candidate: seq<Return>, nb: Neighbour)
    requires k != 0.0
    ensures ScoreOne(Scale(k, candidate), nb) == FlipAll(k, ScoreOne(candidate, nb))
  {
    var ps := Join(candidate, nb.series);
    JoinScales(k, candidate, nb.series);
    P.CorrAffine(k, 0.0, Xs(ps), Ys(ps));
  }

  lemma {:induction false} ScoreFlips(k: real, candidate: seq<Return>, neighbours: seq<Neighbour>)
    requires k != 0.0
    ensures Score(Scale(k, candidate), neighbours) == FlipAll(k, Score(candidate, neighbours))
  {
    if neighbours == [] {
    } else {
      ScoreFlips(k, candidate, neighbours[..|neighbours| - 1]);
      ScoreOneFlips(k, candidate, neighbours[|neighbours| - 1]);
    }
  }

  lemma TakeFlips(k: real, s: seq<Scored>, n: nat)
    ensures Take(FlipAll(k, s), n) == FlipAll(k, Take(s, n))
    ensures s != [] ==> FlipAll(k, s)[0].corr == P.Prod(P.Sgn(k), s[0].corr)
  {
  }

  lemma SummaryFlips(k: real, all: seq<Scored>, n: nat, topK: int)
    requires |all| <= n
    ensures var r := Summary(all, n, topK);
            Summary(FlipAll(k, all), n, topK) ==
              r.(corrMax := P.Prod(P.Sgn(k), r.corrMax), neighbours := FlipAll(k, r.neighbours))
  {
    SortFlips(k, all);
    TakeFlips(k, StableSort(all), TopK(topK));
  }

  /** Scaling the candidate's returns multiplies every correlation by the sign of k and changes nothing else. */
  lemma MaxCorrFlips(k: real, candidate: seq<Return>, neighbours: seq<Neighbour>, topK: int)
    requires k != 0.0
    ensures var r := MaxCorr(candidate, neighbours, topK);
            MaxCorr(Scale(k, candidate), neighbours, topK) ==
              r.(corrMax := P.Prod(P.Sgn(k), r.corrMax), neighbours := FlipAll(k, r.neighbours))
  {
    ScoreLength(candidate, neighbours);
    ScoreFlips(k, candidate, neighbours);
    SummaryFlips(k, Score(candidate, neighbours), |neighbours|, topK);
    assert FlipAll(k, []) == [];
  }
}
