/** The two-pointer date join of pkg/brainapi/selfcorr.go (alignReturns). */
module Align {
  import opened Series
  import opened Keyed
  import P = Pearson

  const MIN_OVERLAP_DAYS := 30

  datatype Pair = Pair(date: int, x: real, y: real)

  function ReturnDate(r: Return): real { r.date as real }

  function PairDate(p: Pair): real { p.date as real }

  /** The join as the two indices compute it. */
  function Join(a: seq<Return>, b: seq<Return>): seq<Pair>
    decreases |a| + |b|
  {
    if a == [] || b == [] then []
    else if a[0].date == b[0].date then [Pair(a[0].date, a[0].ret, b[0].ret)] + Join(a[1..], b[1..])
    else if a[0].date < b[0].date then Join(a[1..], b)
    else Join(a, b[1..])
  }

  function Xs(ps: seq<Pair>): seq<real> {
    seq(|ps|, i requires 0 <= i < |ps| => ps[i].x)
  }

  function Ys(ps: seq<Pair>): seq<real> {
    seq(|ps|, i requires 0 <= i < |ps| => ps[i].y)
  }

  method AlignReturns(a: seq<Return>, b: seq<Return>) returns (av: seq<real>, bv: seq<real>, overlap: nat, ok: bool)
    ensures ok <==> |Join(a, b)| >= MIN_OVERLAP_DAYS
    ensures ok ==> av == Xs(Join(a, b)) && bv == Ys(Join(a, b)) && overlap == |Join(a, b)|
    ensures !ok ==> av == [] && bv == [] && overlap == 0
  {
    var i, j := 0, 0;
    av, bv := [], [];
    ghost var joined: seq<Pair> := [];
    assert a[0..] == a && b[0..] == b;
    while i < |a| && j < |b|
      invariant i <= |a| && j <= |b|
      invariant Join(a, b) == joined + Join(a[i..], b[j..])
      invariant av == Xs(joined) && bv == Ys(joined)
      decreases |a| - i + |b| - j
    {
      assert a[i..][1..] == a[i + 1..] && b[j..][1..] == b[j + 1..];
      if a[i].date == b[j].date {
        av := av + [a[i].ret];
        bv := bv + [b[j].ret];
        joined := joined + [Pair(a[i].date, a[i].ret, b[j].ret)];
        i, j := i + 1, j + 1;
      } else if a[i].date < b[j].date {
        i := i + 1;
      } else {
        j := j + 1;
      }
    }
    assert joined + [] == joined;
    if |av| < MIN_OVERLAP_DAYS {
      return [], [], 0, false;
    }
    return av, bv, |av|, true;
  }

  // ---- the join, independently of the algorithm ----

  /** Pair off two lists position by position, as far as both reach. */
  function Zip(a: seq<Return>, b: seq<Return>): seq<Pair> {
    if a == [] || b == [] then [] else [Pair(a[0].date, a[0].ret, b[0].ret)] + Zip(a[1..], b[1..])
  }

  /** Ascending dates, and on every date the entries of both sides paired off in order. */
  ghost predicate IsJoin(a: seq<Return>, b: seq<Return>, ps: seq<Pair>) {
    && Ordered(PairDate, ps)
    && forall d :: On(PairDate, ps, d) == Zip(On(ReturnDate, a, d), On(ReturnDate, b, d))
  }

  lemma {:induction false} JoinStartsLate(a: seq<Return>, b: seq<Return>, d: int)
    requires Ordered(ReturnDate, a) && Ordered(ReturnDate, b)
    requires (a != [] ==> a[0].date >= d) || (b != [] ==> b[0].date >= d)
    ensures forall i :: 0 <= i < |Join(a, b)| ==> Join(a, b)[i].date >= d
    decreases |a| + |b|
  {
    if a == [] || b == [] {
    } else {
      if a[0].date == b[0].date {
        JoinStartsLate(a[1..], b[1..], a[0].date);
      } else if a[0].date < b[0].date {
        JoinStartsLate(a[1..], b, b[0].date);
        JoinStartsLate(a[1..], b, d);
      } else {
        JoinStartsLate(a, b[1..], a[0].date);
        JoinStartsLate(a, b[1..], d);
      }
    }
  }

  lemma {:induction false} JoinIsOrdered(a: seq<Return>, b: seq<Return>)
    requires Ordered(ReturnDate, a) && Ordered(ReturnDate, b)
    ensures Ordered(PairDate, Join(a, b))
    decreases |a| + |b|
  {
    if a == [] || b == [] {
    } else {
      if a[0].date == b[0].date {
        JoinIsOrdered(a[1..], b[1..]);
        JoinStartsLate(a[1..], b[1..], a[0].date);
      } else if a[0].date < b[0].date {
        JoinIsOrdered(a[1..], b);
      } else {
        JoinIsOrdered(a, b[1..]);
      }
    }
  }

  lemma {:induction false} JoinOnDate(a: seq<Return>, b: seq<Return>, d: real)
    requires Ordered(ReturnDate, a) && Ordered(ReturnDate, b)
    ensures On(PairDate, Join(a, b), d) == Zip(On(ReturnDate, a, d), On(ReturnDate, b, d))
    decreases |a| + |b|
  {
    if a == [] || b == [] {
    } else {
      if a[0].date == b[0].date {
        JoinOnDate(a[1..], b[1..], d);
        assert Join(a, b)[0].date == a[0].date && Join(a, b)[1..] == Join(a[1..], b[1..]);
        if ReturnDate(a[0]) == d {
          assert On(ReturnDate, a, d)[1..] == On(ReturnDate, a[1..], d);
          assert On(ReturnDate, b, d)[1..] == On(ReturnDate, b[1..], d);
        }
      } else if a[0].date < b[0].date {
        JoinOnDate(a[1..], b, d);
        if ReturnDate(a[0]) == d {
          OnMissing(ReturnDate, b, d);
        }
      } else {
        JoinOnDate(a, b[1..], d);
        if ReturnDate(b[0]) == d {
          OnMissing(ReturnDate, a, d);
        }
      }
    }
  }

  /** On date-sorted series the result is the join, and the only one there is. */
  lemma JoinIsTheJoin(a: seq<Return>, b: seq<Return>, ps: seq<Pair>)
    requires Ordered(ReturnDate, a) && Ordered(ReturnDate, b)
    ensures IsJoin(a, b, ps) <==> ps == Join(a, b)
  {
    JoinIsOrdered(a, b);
    forall d: real
      ensures On(PairDate, Join(a, b), d) == Zip(On(ReturnDate, a, d), On(ReturnDate, b, d))
    {
      JoinOnDate(a, b, d);
    }
    if IsJoin(a, b, ps) {
      OrderedUniquely(PairDate, ps, Join(a, b));
    }
  }

  // ---- overlap ----

  function DatesOf(a: seq<Return>): seq<int> {
    seq(|a|, i requires 0 <= i < |a| => a[i].date)
  }

  function PairDates(ps: seq<Pair>): seq<int> {
    seq(|ps|, i requires 0 <= i < |ps| => ps[i].date)
  }

  lemma {:induction false} CountOn(a: seq<Return>, d: int)
    ensures |On(ReturnDate, a, d as real)| == multiset(DatesOf(a))[d]
  {
    if a == [] {
    } else {
      CountOn(a[1..], d);
      assert DatesOf(a) == [a[0].date] + DatesOf(a[1..]);
    }
  }

  lemma {:induction false} CountPairsOn(ps: seq<Pair>, d: int)
    ensures |On(PairDate, ps, d as real)| == multiset(PairDates(ps))[d]
  {
    if ps == [] {
    } else {
      CountPairsOn(ps[1..], d);
      assert PairDates(ps) == [ps[0].date] + PairDates(ps[1..]);
    }
  }

  lemma {:induction false} ZipLength(a: seq<Return>, b: seq<Return>)
    ensures |Zip(a, b)| == if |a| <= |b| then |a| else |b|
  {
    if a == [] || b == [] {
    } else {
      ZipLength(a[1..], b[1..]);
    }
  }

  /** Every date is paired as often as the rarer side has it; the overlap is the sum of these minima. */
  lemma OverlapIsTheIntersection(a: seq<Return>, b: seq<Return>)
    requires Ordered(ReturnDate, a) && Ordered(ReturnDate, b)
    ensures multiset(PairDates(Join(a, b))) == multiset(DatesOf(a)) * multiset(DatesOf(b))
    ensures |Join(a, b)| == |multiset(DatesOf(a)) * multiset(DatesOf(b))|
  {
    var ps := Join(a, b);
    forall d: int
      ensures multiset(PairDates(ps))[d] == (multiset(DatesOf(a)) * multiset(DatesOf(b)))[d]
    {
      JoinOnDate(a, b, d as real);
      ZipLength(On(ReturnDate, a, d as real), On(ReturnDate, b, d as real));
      CountOn(a, d);
      CountOn(b, d);
      CountPairsOn(ps, d);
    }
    assert multiset(PairDates(ps)) == multiset(DatesOf(a)) * multiset(DatesOf(b));
    assert |multiset(PairDates(ps))| == |PairDates(ps)| == |ps|;
  }

  /** The dates two series share, a date counting as often as the rarer side has it. */
  function Common(a: seq<Return>, b: seq<Return>): nat {
    |multiset(DatesOf(a)) * multiset(DatesOf(b))|
  }

  /** Sorted series are aligned exactly when they share at least thirty dates. */
  lemma AlignedIff(a: seq<Return>, b: seq<Return>)
    requires Ordered(ReturnDate, a) && Ordered(ReturnDate, b)
    ensures |Join(a, b)| == Common(a, b)
    ensures |Join(a, b)| >= MIN_OVERLAP_DAYS <==> Common(a, b) >= 30
  {
    OverlapIsTheIntersection(a, b);
  }

  function Swap(ps: seq<Pair>): seq<Pair> {
    seq(|ps|, i requires 0 <= i < |ps| => Pair(ps[i].date, ps[i].y, ps[i].x))
  }

  lemma SwapCons(p: Pair, ps: seq<Pair>)
    ensures Swap([p] + ps) == [Pair(p.date, p.y, p.x)] + Swap(ps)
  {
  }

  /** Swapping the inputs swaps the outputs, sorted or not. */
  lemma {:induction false} JoinSwaps(a: seq<Return>, b: seq<Return>)
    ensures Join(b, a) == Swap(Join(a, b))
    decreases |a| + |b|
  {
    if a == [] || b == [] {
    } else if a[0].date == b[0].date {
      JoinSwaps(a[1..], b[1..]);
      SwapCons(Pair(a[0].date, a[0].ret, b[0].ret), Join(a[1..], b[1..]));
    } else if a[0].date < b[0].date {
      JoinSwaps(a[1..], b);
    } else {
      JoinSwaps(a, b[1..]);
    }
  }

  lemma {:induction false} JoinIsShort(a: seq<Return>, b: seq<Return>)
    ensures |Join(a, b)| <= |a| && |Join(a, b)| <= |b|
    decreases |a| + |b|
  {
    if a == [] || b == [] {
    } else {
      if a[0].date == b[0].date {
        JoinIsShort(a[1..], b[1..]);
      } else if a[0].date < b[0].date {
        JoinIsShort(a[1..], b);
      } else {
        JoinIsShort(a, b[1..]);
      }
    }
  }

  function MapReturns(f: real -> real, a: seq<Return>): seq<Return> {
    seq(|a|, i requires 0 <= i < |a| => Return(a[i].date, f(a[i].ret)))
  }

  function MapX(f: real -> real, ps: seq<Pair>): seq<Pair> {
    seq(|ps|, i requires 0 <= i < |ps| => Pair(ps[i].date, f(ps[i].x), ps[i].y))
  }

  lemma {:induction false} JoinMaps(f: real -> real, a: seq<Return>, b: seq<Return>)
    ensures Join(MapReturns(f, a), b) == MapX(f, Join(a, b))
    decreases |a| + |b|
  {
    if a == [] || b == [] {
    } else {
      var fa := MapReturns(f, a);
      assert fa[1..] == MapReturns(f, a[1..]);
      if a[0].date == b[0].date {
        JoinMaps(f, a[1..], b[1..]);
      } else if a[0].date < b[0].date {
        JoinMaps(f, a[1..], b);
      } else {
        JoinMaps(f, a, b[1..]);
      }
    }
  }

  lemma TimesIsLine(k: real, x: real)
    ensures Times(k, x) == P.Line(k, x, 0.0)
  {
  }

  /** Scaling one side scales its column and nothing else. */
  lemma JoinScales(k: real, a: seq<Return>, b: seq<Return>)
    ensures |Join(Scale(k, a), b)| == |Join(a, b)|
    ensures Xs(Join(Scale(k, a), b)) == P.AffineSeq(k, 0.0, Xs(Join(a, b)))
    ensures Ys(Join(Scale(k, a), b)) == Ys(Join(a, b))
  {
    var f := (x: real) => Times(k, x);
    JoinMaps(f, a, b);
    assert MapReturns(f, a) == Scale(k, a);
    forall i | 0 <= i < |Join(a, b)|
      ensures Times(k, Join(a, b)[i].x) == P.Line(k, Join(a, b)[i].x, 0.0)
    {
      TimesIsLine(k, Join(a, b)[i].x);
    }
  }
}
