/** Sequences ordered by a key, and what determines them. */
module Keyed {

  /** The elements with key k, in their order. */
  function On<T>(key: T -> real, s: seq<T>, k: real): seq<T> {
    if s == [] then []
    else if key(s[0]) == k then [s[0]] + On(key, s[1..], k)
    else On(key, s[1..], k)
  }

  ghost predicate Ordered<T>(key: T -> real, s: seq<T>) {
    forall i, j :: 0 <= i < j < |s| ==> key(s[i]) <= key(s[j])
  }

  lemma {:induction false} OnConcat<T>(key: T -> real, a: seq<T>, b: seq<T>, k: real)
    ensures On(key, a + b, k) == On(key, a, k) + On(key, b, k)
  {
    if a == [] {
      assert a + b == b;
    } else {
      assert (a + b)[1..] == a[1..] + b;
      OnConcat(key, a[1..], b, k);
    }
  }

  lemma {:induction false} OnMissing<T>(key: T -> real, s: seq<T>, k: real)
    requires forall i :: 0 <= i < |s| ==> key(s[i]) != k
    ensures On(key, s, k) == []
  {
    if s == [] {
    } else {
      OnMissing(key, s[1..], k);
    }
  }

  lemma {:induction false} OnPresent<T>(key: T -> real, s: seq<T>, k: real)
    requires On(key, s, k) != []
    ensures exists i :: 0 <= i < |s| && key(s[i]) == k
  {
    if key(s[0]) != k {
      OnPresent(key, s[1..], k);
      var i :| 0 <= i < |s[1..]| && key(s[1..][i]) == k;
      assert key(s[i + 1]) == k;
    }
  }

  lemma FirstKey<T>(key: T -> real, a: seq<T>, b: seq<T>)
    requires Ordered(key, a) && Ordered(key, b) && a != []
    requires forall k :: On(key, a, k) == On(key, b, k)
    ensures b != [] && key(b[0]) <= key(a[0])
  {
    assert On(key, a, key(a[0])) != [];
    OnPresent(key, b, key(a[0]));
  }

  /** An ordered sequence is determined by its elements of each key. */
  lemma {:induction false} OrderedUniquely<T>(key: T -> real, a: seq<T>, b: seq<T>)
    requires Ordered(key, a) && Ordered(key, b)
    requires forall k :: On(key, a, k) == On(key, b, k)
    ensures a == b
    decreases |a|
  {
    if a == [] {
      if b != [] {
        FirstKey(key, b, a);
      }
    } else {
      FirstKey(key, a, b);
      FirstKey(key, b, a);
      var k0 := key(a[0]);
      assert On(key, a, k0)[0] == a[0] && On(key, b, k0)[0] == b[0];
      forall k: real
        ensures On(key, a[1..], k) == On(key, b[1..], k)
      {
        assert On(key, a, k) == On(key, b, k);
        if k == k0 {
          assert On(key, a[1..], k) == On(key, a, k)[1..] && On(key, b[1..], k) == On(key, b, k)[1..];
        }
      }
      OrderedUniquely(key, a[1..], b[1..]);
      assert a == [a[0]] + a[1..] && b == [b[0]] + b[1..];
    }
  }
}
