/**
 PnL series: trimming to a trailing window and differencing
 (TrimPnLToYears and PnLToReturns of pkg/brainapi/selfcorr.go).
 A value is an exact real or NonFinite; a date is its rank in the date order.
 */
module Series {
  import opened Wrappers
  import opened Sorting

  datatype Value = Finite(r: real) | NonFinite

  datatype Point = Point(date: int, value: Value)

  datatype Return = Return(date: int, ret: real)

  function Dates(s: seq<Point>): seq<int> {
    seq(|s|, i requires 0 <= i < |s| => s[i].date)
  }

  function Pick(s: seq<Point>, order: seq<nat>): seq<Point>
    requires forall i :: 0 <= i < |order| ==> order[i] < |s|
  {
    seq(|order|, i requires 0 <= i < |order| => s[order[i]])
  }

  function SortByDate(sorter: Sorter, s: seq<Point>): seq<Point>
    requires ValidSorter(sorter)
  {
    assert Sorts(Dates(s), sorter(Dates(s)));
    Pick(s, sorter(Dates(s)))
  }

  ghost predicate Sorted(s: seq<Point>) {
    forall i, j :: 0 <= i < j < |s| ==> s[i].date <= s[j].date
  }

  ghost predicate Distinct(s: seq<Point>) {
    forall d :: multiset(Dates(s))[d] <= 1
  }

  /** The finite points, in their order. */
  function Clean(s: seq<Point>): seq<Point> {
    if s == [] then []
    else Clean(s[..|s| - 1]) + if s[|s| - 1].value.Finite? then [s[|s| - 1]] else []
  }

  /** The points dated c or later, in their order. */
  function Since(s: seq<Point>, c: int): seq<Point> {
    if s == [] then []
    else Since(s[..|s| - 1], c) + if s[|s| - 1].date >= c then [s[|s| - 1]] else []
  }

  function Amount(p: Point): real {
    if p.value.Finite? then p.value.r else 0.0
  }

  /** The differences of consecutive points, dated by the later one. */
  function Diffs(s: seq<Point>): seq<Return> {
    if |s| < 2 then []
    else Diffs(s[..|s| - 1]) + [Return(s[|s| - 1].date, Amount(s[|s| - 1]) - Amount(s[|s| - 2]))]
  }

  function Window(cutoff: int -> Option<int>, sorted: seq<Point>): seq<Point> {
    if sorted == [] then []
    else
      match cutoff(sorted[|sorted| - 1].date)
      case None => sorted
      case Some(c) => Since(sorted, c)
  }

  /** The trailing window: `cutoff` maps the last date to the first one kept, or to None when it cannot be parsed. */
  function Trim(sorter: Sorter, cutoff: int -> Option<int>, records: seq<Point>): seq<Point>
    requires ValidSorter(sorter)
  {
    Window(cutoff, SortByDate(sorter, Clean(records)))
  }

  function Returns(sorter: Sorter, records: seq<Point>): seq<Return>
    requires ValidSorter(sorter)
  {
    Diffs(Clean(SortByDate(sorter, records)))
  }

  lemma CleanSnoc(s: seq<Point>, p: Point)
    ensures Clean(s + [p]) == if p.value.Finite? then Clean(s) + [p] else Clean(s)
  {
    assert (s + [p])[..|s|] == s;
  }

  lemma CleanPrefix(s: seq<Point>, i: nat)
    requires i < |s|
    ensures Clean(s[..i + 1]) == if s[i].value.Finite? then Clean(s[..i]) + [s[i]] else Clean(s[..i])
  {
    assert s[..i + 1] == s[..i] + [s[i]];
    CleanSnoc(s[..i], s[i]);
  }

  lemma DiffsSnoc(s: seq<Point>, p: Point)
    requires s != []
    ensures Diffs(s + [p]) == Diffs(s) + [Return(p.date, Amount(p) - Amount(s[|s| - 1]))]
  {
    assert (s + [p])[..|s|] == s;
  }

  // ---- sorting ----

  function MapSeq<T, U>(f: T -> U, s: seq<T>): seq<U> {
    seq(|s|, i requires 0 <= i < |s| => f(s[i]))
  }

  function Without<T>(s: seq<T>, j: nat): seq<T>
    requires j < |s|
  {
    s[..j] + s[j + 1..]
  }

  lemma RemoveAt<T>(s: seq<T>, j: nat)
    requires j < |s|
    ensures multiset(Without(s, j)) == multiset(s) - multiset{s[j]}
    ensures j == 0 ==> Without(s, j) == s[1..]
  {
    assert s == s[..j] + ([s[j]] + s[j + 1..]);
  }

  lemma MapRemoveAt<T, U>(f: T -> U, s: seq<T>, j: nat)
    requires j < |s|
    ensures MapSeq(f, Without(s, j)) == Without(MapSeq(f, s), j)
  {
  }

  lemma SameElements<T>(a: seq<T>, b: seq<T>) returns (j: nat)
    requires multiset(a) == multiset(b) && a != []
    ensures j < |b| && b[j] == a[0]
  {
    assert a[0] in multiset(b);
    j :| 0 <= j < |b| && b[j] == a[0];
  }

  lemma SameLength<T>(a: seq<T>, b: seq<T>)
    requires multiset(a) == multiset(b)
    ensures |a| == |b|
  {
    assert |multiset(a)| == |a| && |multiset(b)| == |b|;
  }

  lemma PutBack<T>(a: seq<T>, i: nat, b: seq<T>, j: nat)
    requires i < |a| && j < |b| && a[i] == b[j]
    requires multiset(a) - multiset{a[i]} == multiset(b) - multiset{b[j]}
    ensures multiset(a) == multiset(b)
  {
    assert a[i] in multiset(a) && b[j] in multiset(b);
    assert multiset(a) == multiset(a) - multiset{a[i]} + multiset{a[i]};
    assert multiset(b) == multiset(b) - multiset{b[j]} + multiset{b[j]};
  }

  /** Mapping permuted sequences gives permuted sequences. */
  lemma {:induction false} MapPermutes<T, U>(f: T -> U, a: seq<T>, b: seq<T>)
    requires multiset(a) == multiset(b)
    ensures multiset(MapSeq(f, a)) == multiset(MapSeq(f, b))
    decreases |a|
  {
    SameLength(a, b);
    if a == [] {
    } else {
      var j := SameElements(a, b);
      RemoveAt(a, 0);
      RemoveAt(b, j);
      MapPermutes(f, Without(a, 0), Without(b, j));
      MapRemoveAt(f, a, 0);
      MapRemoveAt(f, b, j);
      RemoveAt(MapSeq(f, a), 0);
      RemoveAt(MapSeq(f, b), j);
      PutBack(MapSeq(f, a), 0, MapSeq(f, b), j);
    }
  }

  lemma SortedByDate(sorter: Sorter, s: seq<Point>)
    requires ValidSorter(sorter)
    ensures Sorted(SortByDate(sorter, s)) && multiset(SortByDate(sorter, s)) == multiset(s)
    ensures |SortByDate(sorter, s)| == |s|
  {
    var order := sorter(Dates(s));
    assert Sorts(Dates(s), order);
    if s != [] {
      var at := (i: nat) => if i < |s| then s[i] else s[0];
      MapPermutes(at, order, Indices(|s|));
      assert MapSeq(at, Indices(|s|)) == s && MapSeq(at, order) == Pick(s, order);
    }
  }

  lemma SortIsSorted(sorter: Sorter, s: seq<Point>)
    requires ValidSorter(sorter)
    ensures Sorted(SortByDate(sorter, s))
  {
    SortedByDate(sorter, s);
  }

  lemma DatesPermute(a: seq<Point>, b: seq<Point>)
    requires multiset(a) == multiset(b)
    ensures multiset(Dates(a)) == multiset(Dates(b))
  {
    var date := (p: Point) => p.date;
    MapPermutes(date, a, b);
    assert MapSeq(date, a) == Dates(a) && MapSeq(date, b) == Dates(b);
  }

  lemma Twice(d: seq<int>, i: nat, j: nat)
    requires i < j < |d| && d[i] == d[j]
    ensures multiset(d)[d[i]] >= 2
  {
    assert d == d[..i] + ([d[i]] + (d[i + 1..j] + ([d[j]] + d[j + 1..])));
  }

  ghost predicate Ascending(s: seq<Point>) {
    forall i, j :: 0 <= i < j < |s| ==> s[i].date < s[j].date
  }

  lemma StrictlySorted(s: seq<Point>)
    requires Sorted(s) && Distinct(s)
    ensures Ascending(s)
  {
    var d := Dates(s);
    forall i, j | 0 <= i < j < |s|
      ensures s[i].date < s[j].date
    {
      if d[i] == d[j] {
        Twice(d, i, j);
      }
    }
  }

  lemma SameHead(a: seq<Point>, b: seq<Point>)
    requires multiset(a) == multiset(b) && Ascending(a) && Ascending(b) && a != [] && b != []
    ensures a[0] == b[0]
  {
    var i := SameElements(a, b);
    var j := SameElements(b, a);
  }

  lemma AscendingTail(s: seq<Point>)
    requires Ascending(s) && s != []
    ensures Ascending(s[1..]) && multiset(s[1..]) == multiset(s) - multiset{s[0]}
  {
    RemoveAt(s, 0);
  }

  lemma {:induction false} SortedUniquely(a: seq<Point>, b: seq<Point>)
    requires multiset(a) == multiset(b) && Ascending(a) && Ascending(b)
    ensures a == b
    decreases |a|
  {
    SameLength(a, b);
    if a == [] {
    } else {
      SameHead(a, b);
      AscendingTail(a);
      AscendingTail(b);
      SortedUniquely(a[1..], b[1..]);
      assert a == [a[0]] + a[1..] && b == [b[0]] + b[1..];
    }
  }

  /** With distinct dates every sort yields the same sequence, from any arrangement of the points. */
  lemma SortIsCanonical(f: Sorter, g: Sorter, a: seq<Point>, b: seq<Point>)
    requires ValidSorter(f) && ValidSorter(g) && multiset(a) == multiset(b) && Distinct(a)
    ensures SortByDate(f, a) == SortByDate(g, b)
  {
    var x, y := SortByDate(f, a), SortByDate(g, b);
    SortedByDate(f, a);
    SortedByDate(g, b);
    DatesPermute(a, x);
    DatesPermute(a, y);
    StrictlySorted(x);
    StrictlySorted(y);
    SortedUniquely(x, y);
  }

  // ---- cleaning and trimming ----

  lemma {:induction false} CleanLength(s: seq<Point>)
    ensures |Clean(s)| <= |s|
  {
    if s == [] {
    } else {
      CleanLength(s[..|s| - 1]);
    }
  }

  lemma {:induction false} CleanConcat(a: seq<Point>, b: seq<Point>)
    ensures Clean(a + b) == Clean(a) + Clean(b)
    decreases |b|
  {
    if b == [] {
      assert a + b == a;
    } else {
      var n := |b| - 1;
      assert (a + b)[..|a + b| - 1] == a + b[..n];
      CleanConcat(a, b[..n]);
    }
  }

  /** Cleaning keeps exactly the finite points. */
  lemma {:induction false} CleanCounts(s: seq<Point>, p: Point)
    ensures multiset(Clean(s))[p] == if p.value.Finite? then multiset(s)[p] else 0
  {
    if s == [] {
    } else {
      var n := |s| - 1;
      assert s == s[..n] + [s[n]];
      CleanCounts(s[..n], p);
    }
  }

  lemma CleanMembers(s: seq<Point>)
    ensures forall p :: p in Clean(s) <==> p in s && p.value.Finite?
  {
    forall p: Point
      ensures p in Clean(s) <==> p in s && p.value.Finite?
    {
      CleanCounts(s, p);
      assert p in Clean(s) <==> p in multiset(Clean(s));
      assert p in s <==> p in multiset(s);
    }
  }

  lemma CleanPermutes(a: seq<Point>, b: seq<Point>)
    requires multiset(a) == multiset(b)
    ensures multiset(Clean(a)) == multiset(Clean(b))
  {
    forall p: Point
      ensures multiset(Clean(a))[p] == multiset(Clean(b))[p]
    {
      CleanCounts(a, p);
      CleanCounts(b, p);
    }
  }

  predicate AllFinite(s: seq<Point>) {
    forall i :: 0 <= i < |s| ==> s[i].value.Finite?
  }

  lemma {:induction false} CleanIsFinite(s: seq<Point>)
    ensures AllFinite(Clean(s))
    ensures forall p :: p in Clean(s) ==> p in s
  {
    if s == [] {
    } else {
      CleanIsFinite(s[..|s| - 1]);
    }
  }

  lemma {:induction false} CleanOfFinite(s: seq<Point>)
    requires AllFinite(s)
    ensures Clean(s) == s
  {
    if s == [] {
    } else {
      CleanOfFinite(s[..|s| - 1]);
      assert s == s[..|s| - 1] + [s[|s| - 1]];
    }
  }

  lemma {:induction false} CleanSorted(s: seq<Point>)
    requires Sorted(s)
    ensures Sorted(Clean(s))
  {
    if s == [] {
    } else {
      var init := s[..|s| - 1];
      CleanSorted(init);
      CleanIsFinite(init);
      forall i | 0 <= i < |Clean(init)|
        ensures Clean(init)[i].date <= s[|s| - 1].date
      {
        assert Clean(init)[i] in init;
      }
    }
  }

  lemma {:induction false} SinceAll(s: seq<Point>, c: int)
    requires forall k :: 0 <= k < |s| ==> s[k].date >= c
    ensures Since(s, c) == s
  {
    if s == [] {
    } else {
      SinceAll(s[..|s| - 1], c);
    }
  }

  lemma {:induction false} SinceNone(s: seq<Point>, c: int)
    requires forall k :: 0 <= k < |s| ==> s[k].date < c
    ensures Since(s, c) == []
  {
    if s == [] {
    } else {
      SinceNone(s[..|s| - 1], c);
    }
  }

  lemma {:induction false} SinceConcat(a: seq<Point>, b: seq<Point>, c: int)
    ensures Since(a + b, c) == Since(a, c) + Since(b, c)
    decreases |b|
  {
    if b == [] {
      assert a + b == a;
    } else {
      var n := |b| - 1;
      assert (a + b)[..|a + b| - 1] == a + b[..n];
      SinceConcat(a, b[..n], c);
    }
  }

  lemma SinceSplit(early: seq<Point>, late: seq<Point>, c: int)
    requires forall k :: 0 <= k < |early| ==> early[k].date < c
    requires forall k :: 0 <= k < |late| ==> late[k].date >= c
    ensures Since(early + late, c) == late
  {
    SinceConcat(early, late, c);
    SinceNone(early, c);
    SinceAll(late, c);
  }

  /** In a sorted series the loop that skips the early dates finds the window. */
  lemma SinceIsSuffix(s: seq<Point>, c: int, i: nat)
    requires Sorted(s) && i <= |s|
    requires (forall k :: 0 <= k < i ==> s[k].date < c) && (i < |s| ==> s[i].date >= c)
    ensures Since(s, c) == s[i..]
  {
    var early, late := s[..i], s[i..];
    assert s == early + late;
    forall k | 0 <= k < |late|
      ensures late[k].date >= c
    {
      assert late[k] == s[i + k];
    }
    SinceSplit(early, late, c);
  }

  lemma {:induction false} SinceMeans(s: seq<Point>, c: int, p: Point)
    ensures multiset(Since(s, c))[p] == if p.date >= c then multiset(s)[p] else 0
    ensures p in Since(s, c) ==> p in s
  {
    if s == [] {
    } else {
      var n := |s| - 1;
      assert s == s[..n] + [s[n]];
      SinceMeans(s[..n], c, p);
    }
  }

  lemma {:induction false} SinceSorted(s: seq<Point>, c: int)
    requires Sorted(s)
    ensures Sorted(Since(s, c))
  {
    if s == [] {
    } else {
      var n := |s| - 1;
      SinceSorted(s[..n], c);
      forall p | p in Since(s[..n], c)
        ensures p.date <= s[n].date
      {
        SinceMeans(s[..n], c, p);
      }
    }
  }

  lemma SortedMember(sorter: Sorter, s: seq<Point>, p: Point)
    requires ValidSorter(sorter)
    ensures p in SortByDate(sorter, s) <==> p in s
  {
    SortedByDate(sorter, s);
    assert p in multiset(s) <==> p in s;
    assert p in multiset(SortByDate(sorter, s)) <==> p in SortByDate(sorter, s);
  }

  lemma LastIsLatest(sorted: seq<Point>, p: Point)
    requires Sorted(sorted) && p in sorted
    ensures sorted != [] && p.date <= sorted[|sorted| - 1].date
  {
    var k :| 0 <= k < |sorted| && sorted[k] == p;
  }

  lemma LastDate(sorter: Sorter, records: seq<Point>, last: int)
    requires ValidSorter(sorter)
    requires exists p :: p in Clean(records) && p.date == last
    requires forall p :: p in Clean(records) ==> p.date <= last
    ensures var sorted := SortByDate(sorter, Clean(records));
            sorted != [] && sorted[|sorted| - 1].date == last
  {
    var clean := Clean(records);
    var p :| p in clean && p.date == last;
    SortedMember(sorter, clean, p);
    SortIsSorted(sorter, clean);
    LastIsLatest(SortByDate(sorter, clean), p);
    SortedMember(sorter, clean, SortByDate(sorter, clean)[|SortByDate(sorter, clean)| - 1]);
  }

  lemma WindowCounts(cutoff: int -> Option<int>, sorted: seq<Point>, p: Point)
    requires Sorted(sorted) && sorted != []
    ensures var c := cutoff(sorted[|sorted| - 1].date);
            && Sorted(Window(cutoff, sorted))
            && multiset(Window(cutoff, sorted))[p] == if c.None? || p.date >= c.value then multiset(sorted)[p] else 0
  {
    var c := cutoff(sorted[|sorted| - 1].date);
    if c.Some? {
      SinceSorted(sorted, c.value);
      SinceMeans(sorted, c.value, p);
    }
  }

  /**
   The trimmed series is sorted and holds exactly the finite records of the
   window that ends at the latest finite date.
   */
  lemma TrimMeans(sorter: Sorter, cutoff: int -> Option<int>, records: seq<Point>, last: int)
    requires ValidSorter(sorter)
    requires exists p :: p in records && p.value.Finite? && p.date == last
    requires forall p :: p in records && p.value.Finite? ==> p.date <= last
    ensures var t := Trim(sorter, cutoff, records);
            && Sorted(t)
            && forall p :: multiset(t)[p] ==
                 if p.value.Finite? && (cutoff(last).None? || p.date >= cutoff(last).value) then multiset(records)[p]
                 else 0
  {
    var sorted := SortByDate(sorter, Clean(records));
    CleanMembers(records);
    LastDate(sorter, records, last);
    SortedByDate(sorter, Clean(records));
    forall p: Point
      ensures Sorted(Window(cutoff, sorted))
      ensures multiset(Window(cutoff, sorted))[p] ==
              if p.value.Finite? && (cutoff(last).None? || p.date >= cutoff(last).value) then multiset(records)[p]
              else 0
    {
      CleanCounts(records, p);
      WindowCounts(cutoff, sorted, p);
    }
  }

  // ---- the program ----

  /** Skip what is too early. */
  method SkipBefore(sorted: seq<Point>, c: int) returns (r: seq<Point>)
    requires Sorted(sorted)
    ensures r == Since(sorted, c)
  {
    var i := 0;
    while i < |sorted| && sorted[i].date < c
      invariant i <= |sorted|
      invariant forall k :: 0 <= k < i ==> sorted[k].date < c
    {
      i := i + 1;
    }
    SinceIsSuffix(sorted, c, i);
    return sorted[i..];
  }

  /** The filter at the start. */
  method DropNonFinite(records: seq<Point>) returns (clean: seq<Point>)
    ensures clean == Clean(records)
  {
    clean := [];
    for i := 0 to |records|
      invariant clean == Clean(records[..i])
    {
      CleanPrefix(records, i);
      if records[i].value.NonFinite? {
        continue;
      }
      clean := clean + [records[i]];
    }
    assert records[..|records|] == records;
  }

  method TrimPnLToYears(sorter: Sorter, cutoff: int -> Option<int>, records: seq<Point>) returns (r: seq<Point>)
    requires ValidSorter(sorter)
    ensures r == Trim(sorter, cutoff, records)
  {
    var clean := DropNonFinite(records);
    SortIsSorted(sorter, clean);
    clean := SortByDate(sorter, clean);
    if |clean| == 0 {
      return clean;
    }
    var last := cutoff(clean[|clean| - 1].date);
    if last.None? {
      return clean;
    }
    r := SkipBefore(clean, last.value);
  }

  /** The first loop: the position after the first finite value, and that value. */
  method FirstFinite(sorted: seq<Point>) returns (start: int, prev: real)
    ensures start == -1 ==> Clean(sorted) == []
    ensures start != -1 ==>
              && 0 < start <= |sorted|
              && Clean(sorted[..start]) == [sorted[start - 1]] && prev == Amount(sorted[start - 1])
  {
    for i := 0 to |sorted|
      invariant Clean(sorted[..i]) == []
    {
      CleanPrefix(sorted, i);
      if sorted[i].value.Finite? {
        return i + 1, sorted[i].value.r;
      }
    }
    assert sorted[..|sorted|] == sorted;
    return -1, 0.0;
  }

  lemma DifferenceStep(sorted: seq<Point>, i: nat)
    requires i < |sorted| && Clean(sorted[..i]) != []
    ensures var seen, seen' := Clean(sorted[..i]), Clean(sorted[..i + 1]);
            if sorted[i].value.NonFinite? then seen' == seen
            else
              && seen' != [] && seen'[|seen'| - 1] == sorted[i]
              && Diffs(seen') == Diffs(seen)
                                 + [Return(sorted[i].date, sorted[i].value.r - Amount(seen[|seen| - 1]))]
  {
    CleanPrefix(sorted, i);
    DiffsSnoc(Clean(sorted[..i]), sorted[i]);
  }

  /** The second loop: difference without advancing over gaps. */
  method Differences(sorted: seq<Point>) returns (out: seq<Return>)
    ensures out == Diffs(Clean(sorted))
  {
    out := [];
    var start, prev := FirstFinite(sorted);
    if start == -1 {
      return;
    }
    ghost var seen := Clean(sorted[..start]);
    for i := start to |sorted|
      invariant seen == Clean(sorted[..i]) && seen != []
      invariant out == Diffs(seen) && prev == Amount(seen[|seen| - 1])
    {
      DifferenceStep(sorted, i);
      seen := Clean(sorted[..i + 1]);
      var cur := sorted[i];
      if cur.value.NonFinite? {
        continue;
      }
      out := out + [Return(cur.date, cur.value.r - prev)];
      prev := cur.value.r;
    }
    assert sorted[..|sorted|] == sorted;
  }

  method PnLToReturns(sorter: Sorter, records: seq<Point>) returns (out: seq<Return>)
    requires ValidSorter(sorter)
    ensures out == Returns(sorter, records)
  {
    var sorted := SortByDate(sorter, records);
    if |records| < 2 {
      assert |sorted| == |records| by { assert Sorts(Dates(records), sorter(Dates(records))); }
      CleanLength(sorted);
      return [];
    }
    out := Differences(sorted);
  }

  // ---- telescoping ----

  function Total(rs: seq<Return>): real {
    if rs == [] then 0.0 else Total(rs[..|rs| - 1]) + rs[|rs| - 1].ret
  }

  lemma {:induction false} DiffsAt(s: seq<Point>, k: nat)
    requires k + 1 < |s|
    ensures |Diffs(s)| == |s| - 1
    ensures Diffs(s)[k] == Return(s[k + 1].date, Amount(s[k + 1]) - Amount(s[k]))
    decreases |s|
  {
    var n := |s| - 1;
    if k + 1 < n {
      DiffsAt(s[..n], k);
    } else if n > 1 {
      DiffsAt(s[..n], 0);
    }
  }

  lemma {:induction false} DiffsTelescope(s: seq<Point>, k: nat)
    requires k < |s|
    ensures k <= |Diffs(s)|
    ensures Amount(s[0]) + Total(Diffs(s)[..k]) == Amount(s[k])
  {
    if k == 0 {
    } else {
      DiffsAt(s, k - 1);
      DiffsTelescope(s, k - 1);
      assert Diffs(s)[..k][..k - 1] == Diffs(s)[..k - 1];
    }
  }

  /**
   Differencing is inverted by cumulation: the returns are one fewer than the
   finite points, and added up from the first finite value they give back every
   later finite value, in date order.
   */
  lemma ReturnsTelescope(sorter: Sorter, records: seq<Point>)
    requires ValidSorter(sorter)
    ensures var f, rs := Clean(SortByDate(sorter, records)), Returns(sorter, records);
            && Sorted(f) && multiset(f) == multiset(Clean(records))
            && |rs| == Max0(|f| - 1)
            && forall k :: 0 < k < |f| ==>
                 rs[k - 1].date == f[k].date && Amount(f[0]) + Total(rs[..k]) == Amount(f[k])
  {
    var sorted := SortByDate(sorter, records);
    var f := Clean(sorted);
    SortedByDate(sorter, records);
    CleanSorted(sorted);
    CleanPermutes(sorted, records);
    if |f| > 1 {
      DiffsAt(f, 0);
    }
    forall k | 0 < k < |f|
      ensures Diffs(f)[k - 1].date == f[k].date && Amount(f[0]) + Total(Diffs(f)[..k]) == Amount(f[k])
    {
      DiffsAt(f, k - 1);
      DiffsTelescope(f, k);
    }
  }

  /** With distinct dates, dropping the non-finite points beforehand and rearranging the records change no return. */
  lemma ReturnsIgnoreGaps(f: Sorter, g: Sorter, a: seq<Point>, b: seq<Point>)
    requires ValidSorter(f) && ValidSorter(g)
    requires Distinct(Clean(a)) && multiset(Clean(a)) == multiset(Clean(b))
    ensures Returns(f, a) == Returns(g, b)
  {
    var x, y := SortByDate(f, a), SortByDate(g, b);
    SortedByDate(f, a);
    SortedByDate(g, b);
    CleanSorted(x);
    CleanSorted(y);
    CleanPermutes(x, a);
    CleanPermutes(y, b);
    DatesPermute(Clean(a), Clean(x));
    DatesPermute(Clean(a), Clean(y));
    StrictlySorted(Clean(x));
    StrictlySorted(Clean(y));
    SortedUniquely(Clean(x), Clean(y));
  }

  /** The case the differencing was written for: the gaps may be dropped first. */
  lemma GapsMayBeDropped(f: Sorter, g: Sorter, records: seq<Point>)
    requires ValidSorter(f) && ValidSorter(g) && Distinct(Clean(records))
    ensures Returns(f, records) == Returns(g, Clean(records))
  {
    CleanIsFinite(records);
    CleanOfFinite(Clean(records));
    ReturnsIgnoreGaps(f, g, records, Clean(records));
  }

  // ---- the whole pipeline of one series ----

  function Pipeline(sorter: Sorter, cutoff: int -> Option<int>, records: seq<Point>): seq<Return>
    requires ValidSorter(sorter)
  {
    Returns(sorter, Trim(sorter, cutoff, records))
  }

  lemma {:induction false} SubsequenceDistinct(s: seq<Point>, c: int, d: int)
    ensures multiset(Dates(Since(s, c)))[d] <= multiset(Dates(s))[d]
  {
    if s == [] {
    } else {
      var n := |s| - 1;
      var before := Since(s[..n], c);
      SubsequenceDistinct(s[..n], c, d);
      assert Dates(s) == Dates(s[..n]) + [s[n].date];
      assert Dates(before + [s[n]]) == Dates(before) + [s[n].date];
      assert before + [] == before;
    }
  }

  lemma TrimDistinct(f: Sorter, cutoff: int -> Option<int>, a: seq<Point>)
    requires ValidSorter(f) && Distinct(Clean(a))
    ensures Distinct(Trim(f, cutoff, a))
  {
    var sorted := SortByDate(f, Clean(a));
    SortedByDate(f, Clean(a));
    DatesPermute(Clean(a), sorted);
    if sorted != [] && cutoff(sorted[|sorted| - 1].date).Some? {
      forall d: int
        ensures multiset(Dates(Trim(f, cutoff, a)))[d] <= 1
      {
        SubsequenceDistinct(sorted, cutoff(sorted[|sorted| - 1].date).value, d);
      }
    }
  }

  lemma {:induction false} SinceFinite(s: seq<Point>, c: int)
    requires AllFinite(s)
    ensures AllFinite(Since(s, c))
  {
    if s == [] {
    } else {
      SinceFinite(s[..|s| - 1], c);
    }
  }

  lemma TrimIsFinite(sorter: Sorter, cutoff: int -> Option<int>, records: seq<Point>)
    requires ValidSorter(sorter)
    ensures AllFinite(Trim(sorter, cutoff, records))
  {
    var clean := Clean(records);
    var sorted := SortByDate(sorter, clean);
    SortedByDate(sorter, clean);
    CleanIsFinite(records);
    forall i | 0 <= i < |sorted|
      ensures sorted[i].value.Finite?
    {
      assert sorted[i] in multiset(clean);
      var j :| 0 <= j < |clean| && clean[j] == sorted[i];
    }
    if sorted != [] && cutoff(sorted[|sorted| - 1].date).Some? {
      SinceFinite(sorted, cutoff(sorted[|sorted| - 1].date).value);
    }
  }

  lemma TrimIgnoresOrder(f: Sorter, g: Sorter, cutoff: int -> Option<int>, a: seq<Point>, b: seq<Point>)
    requires ValidSorter(f) && ValidSorter(g) && multiset(a) == multiset(b) && Distinct(Clean(a))
    ensures Trim(f, cutoff, a) == Trim(g, cutoff, b)
  {
    CleanPermutes(a, b);
    SortIsCanonical(f, g, Clean(a), Clean(b));
  }

  /** With distinct dates the order of the records, and the sort used, do not matter. */
  lemma PipelineIgnoresOrder(f: Sorter, g: Sorter, cutoff: int -> Option<int>, a: seq<Point>, b: seq<Point>)
    requires ValidSorter(f) && ValidSorter(g) && multiset(a) == multiset(b) && Distinct(Clean(a))
    ensures Pipeline(f, cutoff, a) == Pipeline(g, cutoff, b)
  {
    var t := Trim(f, cutoff, a);
    TrimIgnoresOrder(f, g, cutoff, a, b);
    TrimDistinct(f, cutoff, a);
    TrimIsFinite(f, cutoff, a);
    CleanOfFinite(t);
    ReturnsIgnoreGaps(f, g, t, t);
  }

  // ---- what the returns are, in terms of the records ----

  /** The differences of consecutive points, each dated by the later one. */
  ghost predicate DifferencesOf(f: seq<Point>, rs: seq<Return>) {
    && |rs| == (if f == [] then 0 else |f| - 1)
    && (forall k :: 0 <= k < |f| ==> f[k].value.Finite?)
    && forall k :: 0 <= k < |rs| ==> rs[k] == Return(f[k + 1].date, f[k + 1].value.r - f[k].value.r)
  }

  lemma FiniteCounts(sorter: Sorter, records: seq<Point>)
    requires ValidSorter(sorter)
    ensures forall p :: multiset(Clean(SortByDate(sorter, records)))[p]
                     == if p.value.Finite? then multiset(records)[p] else 0
  {
    SortedByDate(sorter, records);
    forall p: Point
      ensures multiset(Clean(SortByDate(sorter, records)))[p] == if p.value.Finite? then multiset(records)[p] else 0
    {
      CleanCounts(SortByDate(sorter, records), p);
    }
  }

  lemma DiffsAreDifferences(f: seq<Point>)
    requires AllFinite(f)
    ensures DifferencesOf(f, Diffs(f))
  {
    if |f| > 1 {
      DiffsAt(f, 0);
    }
    forall k | 0 <= k < |f| - 1
      ensures Diffs(f)[k] == Return(f[k + 1].date, f[k + 1].value.r - f[k].value.r)
    {
      DiffsAt(f, k);
    }
  }

  /** The returns are the differences of the finite records, all of them, in date order. */
  lemma ReturnsMean(sorter: Sorter, records: seq<Point>) returns (f: seq<Point>)
    requires ValidSorter(sorter)
    ensures Sorted(f) && DifferencesOf(f, Returns(sorter, records))
    ensures forall p :: multiset(f)[p] == if p.value.Finite? then multiset(records)[p] else 0
  {
    var sorted := SortByDate(sorter, records);
    f := Clean(sorted);
    SortIsSorted(sorter, records);
    CleanSorted(sorted);
    CleanIsFinite(sorted);
    FiniteCounts(sorter, records);
    DiffsAreDifferences(f);
  }

  /** Trimmed first: the differences of the finite records of the window that ends at the latest finite date. */
  lemma PipelineMeans(sorter: Sorter, cutoff: int -> Option<int>, records: seq<Point>, last: int)
    returns (f: seq<Point>)
    requires ValidSorter(sorter)
    requires exists p :: p in records && p.value.Finite? && p.date == last
    requires forall p :: p in records && p.value.Finite? ==> p.date <= last
    ensures Sorted(f) && DifferencesOf(f, Pipeline(sorter, cutoff, records))
    ensures forall p :: multiset(f)[p] ==
              if p.value.Finite? && (cutoff(last).None? || p.date >= cutoff(last).value) then multiset(records)[p]
              else 0
  {
    TrimMeans(sorter, cutoff, records, last);
    f := ReturnsMean(sorter, Trim(sorter, cutoff, records));
  }

  /** Without a finite record there are no returns. */
  lemma PipelineOfNothing(sorter: Sorter, cutoff: int -> Option<int>, records: seq<Point>)
    requires ValidSorter(sorter) && forall p :: p in records ==> p.value.NonFinite?
    ensures Pipeline(sorter, cutoff, records) == []
  {
    CleanMembers(records);
    if Clean(records) != [] {
      assert Clean(records)[0] in Clean(records);
    }
    SortedByDate(sorter, Clean(records));
    SortedByDate(sorter, []);
  }

  // ---- affine changes of the values ----

  function AffinePoint(k: real, c: real, p: Point): Point {
    Point(p.date, if p.value.Finite? then Finite(k * p.value.r + c) else NonFinite)
  }

  function Affine(k: real, c: real, s: seq<Point>): seq<Point> {
    seq(|s|, i requires 0 <= i < |s| => AffinePoint(k, c, s[i]))
  }

  function Times(k: real, x: real): real {
    k * x
  }

  function ScaleReturn(k: real, r: Return): Return {
    Return(r.date, Times(k, r.ret))
  }

  function Scale(k: real, rs: seq<Return>): seq<Return> {
    seq(|rs|, i requires 0 <= i < |rs| => ScaleReturn(k, rs[i]))
  }

  lemma {:induction false} AffineClean(k: real, c: real, s: seq<Point>)
    ensures Clean(Affine(k, c, s)) == Affine(k, c, Clean(s))
  {
    if s == [] {
    } else {
      var n := |s| - 1;
      assert Affine(k, c, s)[..n] == Affine(k, c, s[..n]);
      AffineClean(k, c, s[..n]);
    }
  }

  lemma {:induction false} AffineSince(k: real, c: real, s: seq<Point>, d: int)
    ensures Since(Affine(k, c, s), d) == Affine(k, c, Since(s, d))
  {
    if s == [] {
    } else {
      var n := |s| - 1;
      assert Affine(k, c, s)[..n] == Affine(k, c, s[..n]);
      AffineSince(k, c, s[..n], d);
    }
  }

  lemma AffineSort(sorter: Sorter, k: real, c: real, s: seq<Point>)
    requires ValidSorter(sorter)
    ensures SortByDate(sorter, Affine(k, c, s)) == Affine(k, c, SortByDate(sorter, s))
  {
    assert Dates(Affine(k, c, s)) == Dates(s);
    assert Sorts(Dates(s), sorter(Dates(s)));
  }

  lemma AffineDifference(k: real, c: real, x: real, y: real)
    ensures (k * x + c) - (k * y + c) == Times(k, x - y)
  {
  }

  lemma AffineDiffsAt(k: real, c: real, s: seq<Point>, i: nat)
    requires AllFinite(s) && i + 1 < |s|
    ensures |Diffs(s)| == |Diffs(Affine(k, c, s))| == |s| - 1
    ensures Diffs(Affine(k, c, s))[i] == ScaleReturn(k, Diffs(s)[i])
  {
    DiffsAt(s, i);
    DiffsAt(Affine(k, c, s), i);
    AffineDifference(k, c, s[i + 1].value.r, s[i].value.r);
  }

  lemma AffineDiffs(k: real, c: real, s: seq<Point>)
    requires AllFinite(s)
    ensures Diffs(Affine(k, c, s)) == Scale(k, Diffs(s))
  {
    if |s| >= 2 {
      AffineDiffsAt(k, c, s, 0);
      forall i | 0 <= i < |s| - 1
        ensures Diffs(Affine(k, c, s))[i] == ScaleReturn(k, Diffs(s)[i])
      {
        AffineDiffsAt(k, c, s, i);
      }
    }
  }

  lemma AffineTrim(sorter: Sorter, cutoff: int -> Option<int>, k: real, c: real, records: seq<Point>)
    requires ValidSorter(sorter)
    ensures Trim(sorter, cutoff, Affine(k, c, records)) == Affine(k, c, Trim(sorter, cutoff, records))
  {
    AffineClean(k, c, records);
    AffineSort(sorter, k, c, Clean(records));
    var sorted := SortByDate(sorter, Clean(records));
    if sorted != [] && cutoff(sorted[|sorted| - 1].date).Some? {
      AffineSince(k, c, sorted, cutoff(sorted[|sorted| - 1].date).value);
    }
  }

  /** Scaling and shifting the PnL scales the returns, whatever the dates. */
  lemma AffinePipeline(sorter: Sorter, cutoff: int -> Option<int>, k: real, c: real, records: seq<Point>)
    requires ValidSorter(sorter)
    ensures Pipeline(sorter, cutoff, Affine(k, c, records)) == Scale(k, Pipeline(sorter, cutoff, records))
  {
    AffineTrim(sorter, cutoff, k, c, records);
    var t := Trim(sorter, cutoff, records);
    AffineSort(sorter, k, c, t);
    AffineClean(k, c, SortByDate(sorter, t));
    CleanIsFinite(SortByDate(sorter, t));
    AffineDiffs(k, c, Clean(SortByDate(sorter, t)));
  }
}
