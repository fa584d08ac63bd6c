/** What is assumed of the library sort, and that it can be had. */
module Sorting {

  /**
   The library sort: from the keys alone it computes the order in which the
   elements are laid out. It need not be stable.
   */
  type Sorter = seq<int> -> seq<nat>

  function Indices(n: nat): seq<nat> {
    seq(n, i => i)
  }

  ghost predicate Sorts(keys: seq<int>, order: seq<nat>) {
    && |order| == |keys|
    && multiset(order) == multiset(Indices(|keys|))
    && (forall i :: 0 <= i < |order| ==> order[i] < |keys|)
    && forall i, j :: 0 <= i < j < |order| ==> keys[order[i]] <= keys[order[j]]
  }

  ghost predicate ValidSorter(sorter: Sorter) {
    forall keys :: Sorts(keys, sorter(keys))
  }

  // ---- insertion sort is one ----

  function Key(keys: seq<int>, k: nat): int {
    if k < |keys| then keys[k] else 0
  }

  predicate InOrder(keys: seq<int>, order: seq<nat>) {
    forall i, j :: 0 <= i < j < |order| ==> Key(keys, order[i]) <= Key(keys, order[j])
  }

  function Insert(keys: seq<int>, order: seq<nat>, k: nat): seq<nat> {
    if order == [] || Key(keys, order[|order| - 1]) <= Key(keys, k) then order + [k]
    else Insert(keys, order[..|order| - 1], k) + [order[|order| - 1]]
  }

  lemma {:induction false} InsertAdds(keys: seq<int>, order: seq<nat>, k: nat)
    ensures multiset(Insert(keys, order, k)) == multiset(order) + multiset{k}
  {
    if order == [] || Key(keys, order[|order| - 1]) <= Key(keys, k) {
    } else {
      var init, last := order[..|order| - 1], order[|order| - 1];
      InsertAdds(keys, init, k);
      assert order == init + [last];
    }
  }

  lemma Append(keys: seq<int>, order: seq<nat>, k: nat)
    requires InOrder(keys, order) && forall x :: x in order ==> Key(keys, x) <= Key(keys, k)
    ensures InOrder(keys, order + [k])
  {
    var r := order + [k];
    forall i, j | 0 <= i < j < |r|
      ensures Key(keys, r[i]) <= Key(keys, r[j])
    {
      assert r[i] == order[i] && r[i] in order;
    }
  }

  lemma InsertedMembers(keys: seq<int>, order: seq<nat>, k: nat)
    ensures forall x :: x in Insert(keys, order, k) ==> x in order || x == k
  {
    InsertAdds(keys, order, k);
    forall x | x in Insert(keys, order, k)
      ensures x in order || x == k
    {
      assert x in multiset(order) + multiset{k};
    }
  }

  lemma {:induction false} InsertKeepsOrder(keys: seq<int>, order: seq<nat>, k: nat)
    requires InOrder(keys, order)
    ensures InOrder(keys, Insert(keys, order, k))
  {
    if order == [] {
      Append(keys, [], k);
    } else {
      var init, last := order[..|order| - 1], order[|order| - 1];
      if Key(keys, last) <= Key(keys, k) {
        Append(keys, order, k);
      } else {
        InsertKeepsOrder(keys, init, k);
        InsertedMembers(keys, init, k);
        Append(keys, Insert(keys, init, k), last);
      }
    }
  }

  /** What n insertions build. */
  function Build(insert: (seq<nat>, nat) -> seq<nat>, n: nat): seq<nat> {
    if n == 0 then [] else insert(Build(insert, n - 1), n - 1)
  }

  lemma {:induction false} BuildKeeps(insert: (seq<nat>, nat) -> seq<nat>, good: (seq<nat>, nat) -> bool, n: nat)
    requires good([], 0)
    requires forall order, k: nat | good(order, k) :: good(insert(order, k), k + 1)
    ensures good(Build(insert, n), n)
  {
    if n == 0 {
    } else {
      BuildKeeps(insert, good, n - 1);
    }
  }

  /** In order so far, and made of the first n indices. */
  predicate Arranges(keys: seq<int>, order: seq<nat>, n: nat) {
    InOrder(keys, order) && multiset(order) == multiset(Indices(n))
  }

  lemma InsertArranges(keys: seq<int>, order: seq<nat>, n: nat)
    requires Arranges(keys, order, n)
    ensures Arranges(keys, Insert(keys, order, n), n + 1)
  {
    InsertKeepsOrder(keys, order, n);
    InsertAdds(keys, order, n);
    assert Indices(n + 1) == Indices(n) + [n];
  }

  lemma ArrangedIsSorted(keys: seq<int>, order: seq<nat>)
    requires Arranges(keys, order, |keys|)
    ensures Sorts(keys, order)
  {
    assert |multiset(order)| == |order| && |multiset(Indices(|keys|))| == |keys|;
    forall i | 0 <= i < |order|
      ensures order[i] < |keys|
    {
      assert order[i] in multiset(Indices(|keys|));
    }
    forall i, j | 0 <= i < j < |order|
      ensures keys[order[i]] <= keys[order[j]]
    {
      assert Key(keys, order[i]) <= Key(keys, order[j]);
    }
  }

  function InsertionOrder(keys: seq<int>): seq<nat> {
    Build((order: seq<nat>, k: nat) => Insert(keys, order, k), |keys|)
  }

  lemma InsertionOrderSorts(keys: seq<int>)
    ensures Sorts(keys, InsertionOrder(keys))
  {
    var insert := (order: seq<nat>, k: nat) => Insert(keys, order, k);
    var good := (order: seq<nat>, k: nat) => Arranges(keys, order, k);
    assert Indices(0) == [];
    forall order, k: nat | good(order, k)
      ensures good(insert(order, k), k + 1)
    {
      InsertArranges(keys, order, k);
    }
    BuildKeeps(insert, good, |keys|);
    ArrangedIsSorted(keys, InsertionOrder(keys));
  }

  /** So the results about every valid sorter are about something. */
  lemma ValidSorterExists()
    ensures exists sorter :: ValidSorter(sorter)
  {
    var sorter: Sorter := (keys: seq<int>) => InsertionOrder(keys);
    forall keys: seq<int>
      ensures Sorts(keys, sorter(keys))
    {
      InsertionOrderSorts(keys);
    }
    assert ValidSorter(sorter);
  }
}
