/** The entry point SelfCorrLocal of pkg/brainapi/selfcorr.go, end to end. */
module SelfCorr {
  import opened Wrappers
  import opened Sorting
  import opened Series
  import opened Keyed
  import opened Align
  import opened Ranking
  import P = Pearson

  datatype Alpha = Alpha(id: string, records: seq<Point>)

  datatype Input = Input(candidate: Alpha, neighbours: seq<Alpha>)

  /** Whether a neighbour carries the candidate's own non-empty id. */
  predicate Excluded(candidate: Alpha, nb: Alpha) {
    candidate.id != "" && nb.id == candidate.id
  }

  /** Turns a PnL series into returns. */
  type Preparation = seq<Point> -> seq<Return>

  function TrimmedReturns(sorter: Sorter, cutoff: int -> Option<int>): Preparation
    requires ValidSorter(sorter)
  {
    (records: seq<Point>) => Pipeline(sorter, cutoff, records)
  }

  function Eligible(prepare: Preparation, candidate: Alpha, neighbours: seq<Alpha>): seq<Neighbour> {
    if neighbours == [] then []
    else
      var nb := neighbours[|neighbours| - 1];
      Eligible(prepare, candidate, neighbours[..|neighbours| - 1]) +
      if Excluded(candidate, nb) then [] else [Neighbour(nb.id, prepare(nb.records))]
  }

  ghost function Local(prepare: Preparation, input: Input): MaxResult {
    MaxCorr(prepare(input.candidate.records), Eligible(prepare, input.candidate, input.neighbours), CORR_TOP_K)
  }

  /** Trim, then difference. */
  method Prepare(sorter: Sorter, cutoff: int -> Option<int>, records: seq<Point>) returns (series: seq<Return>)
    requires ValidSorter(sorter)
    ensures series == Pipeline(sorter, cutoff, records)
  {
    var trimmed := TrimPnLToYears(sorter, cutoff, records);
    series := PnLToReturns(sorter, trimmed);
  }

  method SelectEligible(sorter: Sorter, cutoff: int -> Option<int>, candidate: Alpha, neighbours: seq<Alpha>)
    returns (eligible: seq<Neighbour>)
    requires ValidSorter(sorter)
    ensures eligible == Eligible(TrimmedReturns(sorter, cutoff), candidate, neighbours)
  {
    eligible := [];
    ghost var prepare := TrimmedReturns(sorter, cutoff);
    for i := 0 to |neighbours|
      invariant eligible == Eligible(prepare, candidate, neighbours[..i])
    {
      assert neighbours[..i + 1][..i] == neighbours[..i];
      var nb := neighbours[i];
      if candidate.id != "" && nb.id == candidate.id {
        continue;
      }
      var series := Prepare(sorter, cutoff, nb.records);
      eligible := eligible + [Neighbour(nb.id, series)];
    }
    assert neighbours[..|neighbours|] == neighbours;
  }

  method SelfCorrLocal(sorter: Sorter, cutoff: int -> Option<int>, input: Input) returns (r: MaxResult)
    requires ValidSorter(sorter)
    ensures r == Local(TrimmedReturns(sorter, cutoff), input)
  {
    var candidate := Prepare(sorter, cutoff, input.candidate.records);
    var eligible := SelectEligible(sorter, cutoff, input.candidate, input.neighbours);
    r := MaxSelfCorr(candidate, eligible, CORR_TOP_K);
  }

  /** Every correlation reported by the entry point lies in [-1, 1]. */
  lemma LocalInRange(prepare: Preparation, input: Input)
    ensures var r := Local(prepare, input);
            && -1.0 <= r.corrMax <= 1.0
            && forall x :: x in r.neighbours ==> -1.0 <= x.corr <= 1.0 && x.overlap >= MIN_OVERLAP_DAYS
  {
    ResultInRange(prepare(input.candidate.records),
                  Eligible(prepare, input.candidate, input.neighbours), CORR_TOP_K);
  }

  // ---- what the reported numbers are ----

  /** The join is fed what it needs: trimmed returns are in date order, duplicate dates or not. */
  lemma PipelineIsOrdered(sorter: Sorter, cutoff: int -> Option<int>, records: seq<Point>)
    requires ValidSorter(sorter)
    ensures Ordered(ReturnDate, Pipeline(sorter, cutoff, records))
  {
    var trimmed := Trim(sorter, cutoff, records);
    var f, rs := Clean(SortByDate(sorter, trimmed)), Returns(sorter, trimmed);
    ReturnsTelescope(sorter, trimmed);
    forall i, j | 0 <= i < j < |rs|
      ensures ReturnDate(rs[i]) <= ReturnDate(rs[j])
    {
      assert rs[i].date == f[i + 1].date && rs[j].date == f[j + 1].date;
    }
  }

  lemma {:induction false} EligibleMembers(prepare: Preparation, candidate: Alpha, neighbours: seq<Alpha>,
                                           x: Neighbour)
    ensures x in Eligible(prepare, candidate, neighbours) <==>
            exists nb :: nb in neighbours && !Excluded(candidate, nb) && x == Neighbour(nb.id, prepare(nb.records))
  {
    if neighbours == [] {
    } else {
      var init, last := neighbours[..|neighbours| - 1], neighbours[|neighbours| - 1];
      assert neighbours == init + [last];
      EligibleMembers(prepare, candidate, init, x);
      assert forall nb :: nb in neighbours <==> nb in init || nb == last;
    }
  }

  /** An entry scored from this neighbour: its overlap counts the common dates, its correlation is over their join. */
  ghost predicate ScoredFrom(prepare: Preparation, candidate: Alpha, nb: Alpha, x: Scored) {
    var a, b := prepare(candidate.records), prepare(nb.records);
    && x.id == nb.id && !Excluded(candidate, nb)
    && x.overlap == |multiset(DatesOf(a)) * multiset(DatesOf(b))|
    && exists ps :: IsJoin(a, b, ps) && x.corr == P.Corr(Xs(ps), Ys(ps))
  }

  lemma ScoreOneIsScoredFrom(prepare: Preparation, candidate: Alpha, nb: Alpha, x: Scored)
    requires Ordered(ReturnDate, prepare(candidate.records)) && Ordered(ReturnDate, prepare(nb.records))
    requires !Excluded(candidate, nb)
    requires x in ScoreOne(prepare(candidate.records), Neighbour(nb.id, prepare(nb.records)))
    ensures ScoredFrom(prepare, candidate, nb, x)
  {
    var a, b := prepare(candidate.records), prepare(nb.records);
    OverlapIsTheIntersection(a, b);
    JoinIsTheJoin(a, b, Join(a, b));
  }

  lemma LocalMembers(prepare: Preparation, input: Input, x: Scored) returns (nb: Alpha)
    requires forall records :: Ordered(ReturnDate, prepare(records))
    requires x in Local(prepare, input).neighbours
    ensures nb in input.neighbours && ScoredFrom(prepare, input.candidate, nb, x)
  {
    var candidate := prepare(input.candidate.records);
    var eligible := Eligible(prepare, input.candidate, input.neighbours);
    ReportedIsScored(candidate, eligible, CORR_TOP_K, x);
    ScoreMembers(candidate, eligible, x);
    var y :| y in eligible && x in ScoreOne(candidate, y);
    EligibleMembers(prepare, input.candidate, input.neighbours, y);
    nb :| nb in input.neighbours && !Excluded(input.candidate, nb) && y == Neighbour(nb.id, prepare(nb.records));
    ScoreOneIsScoredFrom(prepare, input.candidate, nb, x);
  }

  /**
   Every reported entry comes from an eligible neighbour, its overlap is the size
   of the date intersection of the two trimmed series, and its correlation is
   taken over their join, whatever the dates.
   */
  lemma LocalReportsJoins(sorter: Sorter, cutoff: int -> Option<int>, input: Input)
    requires ValidSorter(sorter)
    ensures var p := TrimmedReturns(sorter, cutoff);
            forall x :: x in Local(p, input).neighbours ==>
              exists nb :: nb in input.neighbours && ScoredFrom(p, input.candidate, nb, x)
  {
    var p := TrimmedReturns(sorter, cutoff);
    forall records
      ensures Ordered(ReturnDate, p(records))
    {
      PipelineIsOrdered(sorter, cutoff, records);
    }
    forall x | x in Local(p, input).neighbours
      ensures exists nb :: nb in input.neighbours && ScoredFrom(p, input.candidate, nb, x)
    {
      var nb := LocalMembers(p, input, x);
    }
  }

  // ---- nobody is left out ----

  /** The eligible neighbours are those without the candidate's own id, in input order, each with its returns. */
  ghost predicate EligibleAt(p: Preparation, id: string, neighbours: seq<Alpha>, eligible: seq<Neighbour>,
                             at: seq<nat>) {
    Selects(neighbours, (nb: Alpha) => id == "" || nb.id != id,
            (nb: Alpha, x: Neighbour) => x == Neighbour(nb.id, p(nb.records)), eligible, at)
  }

  lemma {:induction false} EligibleIsComplete(p: Preparation, candidate: Alpha, neighbours: seq<Alpha>)
    returns (at: seq<nat>)
    ensures EligibleAt(p, candidate.id, neighbours, Eligible(p, candidate, neighbours), at)
    ensures candidate.id == "" ==> |Eligible(p, candidate, neighbours)| == |neighbours|
  {
    if neighbours == [] {
      at := [];
    } else {
      var init, last := neighbours[..|neighbours| - 1], neighbours[|neighbours| - 1];
      assert neighbours == init + [last];
      var before := EligibleIsComplete(p, candidate, init);
      var keep := (nb: Alpha) => candidate.id == "" || nb.id != candidate.id;
      var one := if keep(last) then [Neighbour(last.id, p(last.records))] else [];
      SelectsSnoc(init, keep, (nb: Alpha, x: Neighbour) => x == Neighbour(nb.id, p(nb.records)),
                  Eligible(p, candidate, init), before, last, one);
      at := if keep(last) then before + [|init|] else before;
    }
  }

  lemma EligibleAreOrdered(sorter: Sorter, cutoff: int -> Option<int>, candidate: Alpha, neighbours: seq<Alpha>)
    requires ValidSorter(sorter)
    ensures AllOrdered(Eligible(TrimmedReturns(sorter, cutoff), candidate, neighbours))
  {
    var p := TrimmedReturns(sorter, cutoff);
    forall x | x in Eligible(p, candidate, neighbours)
      ensures Ordered(ReturnDate, x.series)
    {
      EligibleMembers(p, candidate, neighbours, x);
      var nb :| nb in neighbours && !Excluded(candidate, nb) && x == Neighbour(nb.id, p(nb.records));
      PipelineIsOrdered(sorter, cutoff, nb.records);
    }
  }

  /**
   The whole result of the entry point without reference to how it is computed:
   exactly the neighbours without the candidate's own id are eligible; of those,
   exactly the ones sharing thirty dates with the candidate are scored; the list
   is the head of their stable ranking, five long if there are as many; CorrMax is
   the first one's, and the others are counted as skipped.
   */
  lemma LocalMeans(sorter: Sorter, cutoff: int -> Option<int>, input: Input)
    returns (eligible: seq<Neighbour>, which: seq<nat>, scored: seq<Scored>, at: seq<nat>, rest: seq<Scored>)
    requires ValidSorter(sorter)
    ensures var p := TrimmedReturns(sorter, cutoff);
            && EligibleAt(p, input.candidate.id, input.neighbours, eligible, which)
            && Lists(p(input.candidate.records), eligible, scored, at)
    ensures var c := TrimmedReturns(sorter, cutoff)(input.candidate.records);
            var r := Local(TrimmedReturns(sorter, cutoff), input);
            && IsStableSort(scored, r.neighbours + rest)
            && |r.neighbours| == (if 5 < |scored| then 5 else |scored|)
            && r.corrMax == (if r.neighbours == [] then 0.0 else r.neighbours[0].corr)
            && r.considered == |eligible|
            && r.skipped == (if |c| < 30 then 0 else TooFew(c, eligible))
    ensures input.candidate.id == "" ==> |eligible| == |input.neighbours|
  {
    var p := TrimmedReturns(sorter, cutoff);
    var c := p(input.candidate.records);
    eligible := Eligible(p, input.candidate, input.neighbours);
    which := EligibleIsComplete(p, input.candidate, input.neighbours);
    PipelineIsOrdered(sorter, cutoff, input.candidate.records);
    EligibleAreOrdered(sorter, cutoff, input.candidate, input.neighbours);
    scored, at, rest := ResultMeans(c, eligible, 5);
  }

  /** A candidate is never reported among its own neighbours. */
  lemma OwnIdIsExcluded(sorter: Sorter, cutoff: int -> Option<int>, input: Input, x: Scored)
    requires ValidSorter(sorter) && input.candidate.id != ""
    requires x in Local(TrimmedReturns(sorter, cutoff), input).neighbours
    ensures x.id != input.candidate.id
  {
    LocalReportsJoins(sorter, cutoff, input);
  }

  lemma NobodyIsLargerAmong(p: Preparation, input: Input, nb: Alpha, ps: seq<Pair>)
    requires Ordered(ReturnDate, p(input.candidate.records))
    requires AllOrdered(Eligible(p, input.candidate, input.neighbours))
    requires nb in input.neighbours && (input.candidate.id == "" || nb.id != input.candidate.id)
    requires Common(p(input.candidate.records), p(nb.records)) >= 30
    requires IsJoin(p(input.candidate.records), p(nb.records), ps)
    ensures P.Abs(P.Corr(Xs(ps), Ys(ps))) <= P.Abs(Local(p, input).corrMax)
  {
    var x := Neighbour(nb.id, p(nb.records));
    EligibleMembers(p, input.candidate, input.neighbours, x);
    NobodyIsLarger(p(input.candidate.records), Eligible(p, input.candidate, input.neighbours), CORR_TOP_K, x, ps);
  }

  /** CorrMax is at least as large as the correlation with any other neighbour sharing thirty dates. */
  lemma NobodyIsLargerLocally(sorter: Sorter, cutoff: int -> Option<int>, input: Input, nb: Alpha, ps: seq<Pair>)
    requires ValidSorter(sorter)
    requires nb in input.neighbours && (input.candidate.id == "" || nb.id != input.candidate.id)
    requires Common(Pipeline(sorter, cutoff, input.candidate.records), Pipeline(sorter, cutoff, nb.records)) >= 30
    requires IsJoin(Pipeline(sorter, cutoff, input.candidate.records), Pipeline(sorter, cutoff, nb.records), ps)
    ensures P.Abs(P.Corr(Xs(ps), Ys(ps))) <= P.Abs(Local(TrimmedReturns(sorter, cutoff), input).corrMax)
  {
    PipelineIsOrdered(sorter, cutoff, input.candidate.records);
    EligibleAreOrdered(sorter, cutoff, input.candidate, input.neighbours);
    NobodyIsLargerAmong(TrimmedReturns(sorter, cutoff), input, nb, ps);
  }

  /** The input with the candidate's PnL v replaced by k * v + c. */
  function Rescaled(input: Input, k: real, c: real): Input {
    input.(candidate := Alpha(input.candidate.id, Affine(k, c, input.candidate.records)))
  }

  lemma {:induction false} EligibleById(f: Preparation, g: Preparation, a: Alpha, b: Alpha, x: seq<Alpha>,
                                        y: seq<Alpha>)
    requires a.id == b.id && |x| == |y|
    requires forall i :: 0 <= i < |x| ==> x[i].id == y[i].id && f(x[i].records) == g(y[i].records)
    ensures Eligible(f, a, x) == Eligible(g, b, y)
    decreases |x|
  {
    if x == [] {
    } else {
      EligibleById(f, g, a, b, x[..|x| - 1], y[..|y| - 1]);
    }
  }

  lemma LocalScales(prepare: Preparation, input: Input, k: real, c: real)
    requires k != 0.0
    requires prepare(Affine(k, c, input.candidate.records)) == Scale(k, prepare(input.candidate.records))
    ensures var r := Local(prepare, input);
            Local(prepare, Rescaled(input, k, c)) ==
              r.(corrMax := P.Prod(P.Sgn(k), r.corrMax), neighbours := FlipAll(k, r.neighbours))
  {
    var changed := Rescaled(input, k, c);
    EligibleById(prepare, prepare, input.candidate, changed.candidate, input.neighbours, input.neighbours);
    var eligible := Eligible(prepare, input.candidate, input.neighbours);
    MaxCorrFlips(k, prepare(input.candidate.records), eligible, CORR_TOP_K);
  }

  lemma RescaledReturns(sorter: Sorter, cutoff: int -> Option<int>, records: seq<Point>, k: real, c: real)
    requires ValidSorter(sorter)
    ensures var p := TrimmedReturns(sorter, cutoff);
            p(Affine(k, c, records)) == Scale(k, p(records))
  {
    AffinePipeline(sorter, cutoff, k, c, records);
  }

  /**
   End-to-end invariance: replacing the candidate's PnL v by k * v + c, k != 0,
   multiplies every reported correlation by the sign of k and leaves ranking,
   ids, overlaps and counts as they are. Duplicate dates are allowed.
   */
  lemma LocalAffine(sorter: Sorter, cutoff: int -> Option<int>, input: Input, k: real, c: real)
    requires ValidSorter(sorter) && k != 0.0
    ensures var r := Local(TrimmedReturns(sorter, cutoff), input);
            Local(TrimmedReturns(sorter, cutoff), Rescaled(input, k, c)) ==
              r.(corrMax := P.Prod(P.Sgn(k), r.corrMax), neighbours := FlipAll(k, r.neighbours))
  {
    RescaledReturns(sorter, cutoff, input.candidate.records, k, c);
    LocalScales(TrimmedReturns(sorter, cutoff), input, k, c);
  }

  /** The same series up to the order of its records, with distinct dates among the finite ones. */
  ghost predicate Rearranged(a: Alpha, b: Alpha) {
    a.id == b.id && multiset(a.records) == multiset(b.records) && Distinct(Clean(a.records))
  }

  lemma LocalById(f: Preparation, g: Preparation, input: Input, other: Input)
    requires input.candidate.id == other.candidate.id && |input.neighbours| == |other.neighbours|
    requires f(input.candidate.records) == g(other.candidate.records)
    requires forall i :: 0 <= i < |input.neighbours| ==>
               && input.neighbours[i].id == other.neighbours[i].id
               && f(input.neighbours[i].records) == g(other.neighbours[i].records)
    ensures Local(f, input) == Local(g, other)
  {
    EligibleById(f, g, input.candidate, other.candidate, input.neighbours, other.neighbours);
  }

  lemma RearrangedReturns(f: Sorter, g: Sorter, cutoff: int -> Option<int>, a: Alpha, b: Alpha)
    requires ValidSorter(f) && ValidSorter(g) && Rearranged(a, b)
    ensures TrimmedReturns(f, cutoff)(a.records) == TrimmedReturns(g, cutoff)(b.records)
  {
    PipelineIgnoresOrder(f, g, cutoff, a.records, b.records);
  }

  /** With distinct dates, neither the order of any series' records nor the sort used changes anything. */
  lemma LocalIgnoresOrder(f: Sorter, g: Sorter, cutoff: int -> Option<int>, input: Input, other: Input)
    requires ValidSorter(f) && ValidSorter(g)
    requires Rearranged(input.candidate, other.candidate) && |input.neighbours| == |other.neighbours|
    requires forall i :: 0 <= i < |input.neighbours| ==> Rearranged(input.neighbours[i], other.neighbours[i])
    ensures Local(TrimmedReturns(f, cutoff), input) == Local(TrimmedReturns(g, cutoff), other)
  {
    var p, q := TrimmedReturns(f, cutoff), TrimmedReturns(g, cutoff);
    RearrangedReturns(f, g, cutoff, input.candidate, other.candidate);
    forall i | 0 <= i < |input.neighbours|
      ensures p(input.neighbours[i].records) == q(other.neighbours[i].records)
    {
      RearrangedReturns(f, g, cutoff, input.neighbours[i], other.neighbours[i]);
    }
    LocalById(p, q, input, other);
  }
}
