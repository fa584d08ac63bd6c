/** The rune-boundary cut of pkg/feedback/feedback.go over UTF-8 byte strings. */
module Truncate {

  type byte = b: int | 0 <= b < 256

  predicate In(b: byte, lo: int, hi: int) {
    lo <= b <= hi
  }

  predicate Tail(b: byte) {
    In(b, 0x80, 0xBF)
  }

  /** utf8.RuneStart: anything but a continuation byte. */
  predicate RuneStart(b: byte) {
    !Tail(b)
  }

  /** The UTF8-char rule of section 4 of RFC 3629: r is the encoding of one character. */
  predicate Char(r: seq<byte>) {
    || (|r| == 1 && r[0] <= 0x7F)
    || (|r| == 2 && In(r[0], 0xC2, 0xDF) && Tail(r[1]))
    || (|r| == 3 && r[0] == 0xE0 && In(r[1], 0xA0, 0xBF) && Tail(r[2]))
    || (|r| == 3 && In(r[0], 0xE1, 0xEC) && Tail(r[1]) && Tail(r[2]))
    || (|r| == 3 && r[0] == 0xED && In(r[1], 0x80, 0x9F) && Tail(r[2]))
    || (|r| == 3 && In(r[0], 0xEE, 0xEF) && Tail(r[1]) && Tail(r[2]))
    || (|r| == 4 && r[0] == 0xF0 && In(r[1], 0x90, 0xBF) && Tail(r[2]) && Tail(r[3]))
    || (|r| == 4 && In(r[0], 0xF1, 0xF3) && Tail(r[1]) && Tail(r[2]) && Tail(r[3]))
    || (|r| == 4 && r[0] == 0xF4 && In(r[1], 0x80, 0x8F) && Tail(r[2]) && Tail(r[3]))
  }

  /** UTF8-octets: a concatenation of characters. */
  ghost predicate WellFormed(s: seq<byte>) {
    s == [] || exists k :: 1 <= k <= |s| && Char(s[..k]) && WellFormed(s[k..])
  }

  /** The longest prefix of s[..max] that ends where a character may start. */
  function CutAt(s: seq<byte>, max: nat): (n: nat)
    requires max < |s|
    ensures n <= max
  {
    if max > 0 && !RuneStart(s[max]) then CutAt(s, max - 1) else max
  }

  /** truncate, with its backward loop. */
  method Truncate(s: seq<byte>, max: nat) returns (r: seq<byte>)
    ensures r == if |s| <= max then s else s[..CutAt(s, max)]
  {
    if |s| <= max {
      return s;
    }
    var m := max;
    while m > 0 && !RuneStart(s[m])
      invariant 0 <= m <= max && CutAt(s, m) == CutAt(s, max)
    {
      m := m - 1;
    }
    return s[..m];
  }

  /** The first character of a string is unique, so it can be split off. */
  lemma FirstChar(s: seq<byte>, k: nat)
    requires 1 <= k <= |s| && Char(s[..k])
    ensures WellFormed(s) <==> WellFormed(s[k..])
  {
    if WellFormed(s) {
      var j :| 1 <= j <= |s| && Char(s[..j]) && WellFormed(s[j..]);
      assert s[..j][0] == s[0] && s[..k][0] == s[0];
    }
  }

  /** No proper prefix of a character is well formed. */
  lemma CharsArePrefixFree(s: seq<byte>, i: nat, k: nat)
    requires 0 < i < k <= |s| && Char(s[..k])
    ensures !WellFormed(s[..i])
  {
  }

  lemma InsideChar(s: seq<byte>, i: nat, k: nat)
    requires 0 < i < k <= |s| && Char(s[..k])
    ensures !RuneStart(s[i]) && !WellFormed(s[..i])
  {
    assert s[..k][i] == s[i];
    CharsArePrefixFree(s, i, k);
  }

  lemma FirstStarts(s: seq<byte>, k: nat)
    requires 1 <= k <= |s| && Char(s[..k])
    ensures RuneStart(s[0])
  {
    assert s[..k][0] == s[0];
  }

  /** Past its first character a string is as well formed as the rest. */
  lemma PastFirstChar(s: seq<byte>, i: nat, k: nat)
    requires 1 <= k <= i <= |s| && Char(s[..k])
    ensures WellFormed(s[..i]) <==> WellFormed(s[k..][..i - k])
  {
    assert s[k..][..i - k] == s[..i][k..];
    assert s[..i][..k] == s[..k];
    FirstChar(s[..i], k);
  }

  /** A position of a well-formed string is a character boundary exactly when the byte there, if any, starts a rune. */
  lemma {:induction false} BoundaryIff(s: seq<byte>, i: nat)
    requires WellFormed(s) && i <= |s|
    ensures WellFormed(s[..i]) <==> i == |s| || RuneStart(s[i])
    decreases |s|
  {
    if s == [] {
      assert s[..i] == [];
    } else {
      var k :| 1 <= k <= |s| && Char(s[..k]) && WellFormed(s[k..]);
      if i == 0 {
        FirstStarts(s, k);
      } else if i < k {
        InsideChar(s, i, k);
      } else {
        BoundaryIff(s[k..], i - k);
        PastFirstChar(s, i, k);
        assert i < |s| ==> s[k..][i - k] == s[i];
      }
    }
  }

  lemma {:induction false} CutIsNearest(s: seq<byte>, max: nat)
    requires max < |s|
    ensures CutAt(s, max) <= max
    ensures forall i :: CutAt(s, max) < i <= max ==> !RuneStart(s[i])
    ensures CutAt(s, max) == 0 || RuneStart(s[CutAt(s, max)])
    decreases max
  {
    if max > 0 && !RuneStart(s[max]) {
      CutIsNearest(s, max - 1);
    }
  }

  lemma {:induction false} NearestStart(s: seq<byte>, max: nat)
    requires WellFormed(s) && max < |s|
    ensures RuneStart(s[0])
    ensures exists i :: 0 <= i <= max <= i + 3 && RuneStart(s[i])
    decreases |s|
  {
    var k :| 1 <= k <= |s| && Char(s[..k]) && WellFormed(s[k..]);
    assert s[..k][0] == s[0];
    if max >= k {
      NearestStart(s[k..], max - k);
      var i :| 0 <= i <= max - k <= i + 3 && RuneStart(s[k..][i]);
      assert RuneStart(s[k + i]);
    }
  }

  /** A character has at most three continuation bytes, so the cut is at most three bytes back. */
  lemma CutIsNear(s: seq<byte>, max: nat)
    requires WellFormed(s) && max < |s|
    ensures CutAt(s, max) <= max <= CutAt(s, max) + 3
    ensures RuneStart(s[CutAt(s, max)])
    ensures forall i :: CutAt(s, max) < i <= max ==> !RuneStart(s[i])
  {
    NearestStart(s, max);
    CutIsNearest(s, max);
  }

  /**
   On well-formed UTF-8 the cut is the longest well-formed prefix of at most
   max bytes, and at most three bytes shorter than a plain byte cut.
   */
  lemma TruncateIsLongest(s: seq<byte>, max: nat)
    requires WellFormed(s)
    ensures var n := if |s| <= max then |s| else CutAt(s, max);
            && n <= max
            && WellFormed(s[..n])
            && (forall i :: 0 <= i <= |s| && i <= max && WellFormed(s[..i]) ==> i <= n)
            && (max < |s| ==> max <= n + 3)
  {
    if |s| <= max {
      assert s[..|s|] == s;
    } else {
      CutIsNear(s, max);
      BoundaryIff(s, CutAt(s, max));
      forall i | CutAt(s, max) < i <= max
        ensures !WellFormed(s[..i])
      {
        BoundaryIff(s, i);
      }
    }
  }

  /** Off well-formed input the loop may run down to zero: the bound comes from the encoding, not from the code. */
  lemma {:induction false} ContinuationsOnly(s: seq<byte>, max: nat)
    requires max < |s| && forall b :: b in s ==> Tail(b)
    ensures CutAt(s, max) == 0
    decreases max
  {
    if max == 0 {
    } else {
      ContinuationsOnly(s, max - 1);
    }
  }
}
