/**
 The Pearson correlation of pkg/brainapi/selfcorr.go over exact reals. In
 place of r = num / sqrt(varA * varB) the model returns the signed square
 r * |r| = num * |num| / (varA * varB), which needs no square root and orders
 series the same way.

 Products are named (Prod, Line, Form) wherever one lemma hands them to
 another, so that only the lemmas about arithmetic have to look inside.
 */
module Pearson {

  // ---- real arithmetic ----

  function Prod(u: real, v: real): real {
    u * v
  }

  function Abs(x: real): real {
    if x < 0.0 then -x else x
  }

  function Sgn(k: real): real {
    if k < 0.0 then -1.0 else 1.0
  }

  function Line(k: real, x: real, c: real): real {
    k * x + c
  }

  lemma PositiveProduct(a: real, b: real) returns (p: real)
    requires a > 0.0 && b > 0.0
    ensures p == a * b && p > 0.0
  {
    p := a * b;
  }

  lemma NonZeroProduct(a: real, b: real) returns (p: real)
    requires a != 0.0 && b != 0.0
    ensures p == a * b && p != 0.0
  {
    var u := if a < 0.0 then -a else a;
    var v := if b < 0.0 then -b else b;
    var q := PositiveProduct(u, v);
    p := if (a < 0.0) == (b < 0.0) then q else -q;
  }

  lemma NonZero(a: real, b: real)
    requires a != 0.0 && b != 0.0
    ensures Prod(a, b) != 0.0
  {
    var p := NonZeroProduct(a, b);
  }

  lemma Square(x: real) returns (s: real)
    ensures s == x * x && s >= 0.0 && (x != 0.0 ==> s > 0.0)
  {
    if x > 0.0 {
      s := PositiveProduct(x, x);
    } else if x < 0.0 {
      s := PositiveProduct(-x, -x);
    } else {
      s := 0.0;
    }
  }

  lemma Distribute(k: real, u: real, v: real)
    ensures k * (u + v) == k * u + k * v
  {
  }

  lemma Factor(b: real, x: real, p: real)
    requires b > 0.0 && p == b * x && p >= 0.0
    ensures x >= 0.0
  {
  }

  lemma StrictFactor(b: real, x: real, p: real)
    requires b > 0.0 && p == b * x && p > 0.0
    ensures x > 0.0
  {
  }

  lemma ProdCommutes(u: real, v: real)
    ensures Prod(u, v) == Prod(v, u)
  {
  }

  lemma AbsProduct(a: real, b: real)
    ensures Abs(a * b) == Abs(a) * Abs(b)
  {
    if a == 0.0 || b == 0.0 {
      assert a * b == 0.0;
    } else {
      var u := if a < 0.0 then -a else a;
      var v := if b < 0.0 then -b else b;
      var p := PositiveProduct(u, v);
      assert a * b == if (a < 0.0) == (b < 0.0) then p else -p;
    }
  }

  predicate Solves(q: real, m: real, n: real) {
    q * n == m
  }

  /** The quotient, known by what it solves. */
  ghost function Quot(m: real, n: real): (q: real)
    requires n != 0.0
    ensures Solves(q, m, n)
  {
    assert Solves(m / n, m, n);
    var q: real :| Solves(q, m, n);
    q
  }

  lemma SameQuotient(m: real, n: real, q: real)
    requires n != 0.0 && Solves(q, m, n)
    ensures Quot(m, n) == q
  {
    var r := Quot(m, n) - q;
    assert r * n == Quot(m, n) * n - q * n;
    if r != 0.0 {
      var p := NonZeroProduct(r, n);
    }
  }

  /** Division solves it. */
  lemma Divides(m: real, n: real)
    requires n != 0.0
    ensures m / n == Quot(m, n)
  {
    var q := m / n;
    assert q * n == m;
    SameQuotient(m, n, q);
  }

  // ---- the coefficient of three numbers ----

  /** num * |num| / (va * vb), and 0 when a variance vanishes. */
  ghost function Coefficient(num: real, va: real, vb: real): real {
    if va == 0.0 || vb == 0.0 then 0.0
    else
      NonZero(va, vb);
      Quot(Prod(num, Abs(num)), Prod(va, vb))
  }

  predicate Bounded(num: real, va: real, vb: real) {
    num * num <= va * vb
  }

  predicate Tight(num: real, va: real, vb: real) {
    num * num == va * vb
  }

  /** A quotient of 0 <= m <= d lies in [0, 1], and at the upper end only if m does. */
  lemma Quotient(m: real, d: real) returns (q: real)
    requires d > 0.0 && 0.0 <= m <= d
    ensures q == Quot(m, d) && Quot(-m, d) == -q && 0.0 <= q <= 1.0
    ensures q == 1.0 <==> m == d
  {
    q := Quot(m, d);
    assert -q * d == -(q * d);
    SameQuotient(-m, d, -q);
    assert d * q == q * d && d * (1.0 - q) == d - q * d;
    Factor(d, q, m);
    Factor(d, 1.0 - q, d - m);
    if m < d {
      StrictFactor(d, 1.0 - q, d - m);
    } else {
      SameQuotient(d, d, 1.0);
    }
  }

  lemma SignedSquare(s: real) returns (m: real)
    ensures m == s * s && m >= 0.0 && Prod(s, Abs(s)) == if s < 0.0 then -m else m
  {
    m := Square(s);
    if s < 0.0 {
      assert s * -s == -(s * s);
    }
  }

  /** With the bound in force the coefficient lies in [-1, 1], and at an end exactly when the bound is tight. */
  lemma CoefficientRange(num: real, va: real, vb: real)
    requires va >= 0.0 && vb >= 0.0 && Bounded(num, va, vb)
    ensures -1.0 <= Coefficient(num, va, vb) <= 1.0
    ensures Abs(Coefficient(num, va, vb)) == 1.0 <==> va != 0.0 && vb != 0.0 && Tight(num, va, vb)
  {
    if va != 0.0 && vb != 0.0 {
      var d := PositiveProduct(va, vb);
      var m := SignedSquare(num);
      var q := Quotient(m, d);
    }
  }

  method CoefficientOf(num: real, va: real, vb: real) returns (r: real)
    ensures r == Coefficient(num, va, vb)
  {
    if va == 0.0 || vb == 0.0 {
      return 0.0;
    }
    NonZero(va, vb);
    Divides(Prod(num, Abs(num)), Prod(va, vb));
    r := Prod(num, Abs(num)) / Prod(va, vb);
  }

  // ---- sums over series ----

  function Sum(a: seq<real>): real {
    if a == [] then 0.0 else Sum(a[..|a| - 1]) + a[|a| - 1]
  }

  function Dot(x: seq<real>, y: seq<real>): real
    requires |x| == |y|
  {
    if x == [] then 0.0 else Dot(x[..|x| - 1], y[..|y| - 1]) + Prod(x[|x| - 1], y[|y| - 1])
  }

  ghost function Mean(a: seq<real>): real
    requires a != []
  {
    Quot(Sum(a), |a| as real)
  }

  function Shifted(a: seq<real>, m: real): seq<real> {
    seq(|a|, i requires 0 <= i < |a| => a[i] - m)
  }

  ghost function Centered(a: seq<real>): seq<real>
    requires a != []
  {
    Shifted(a, Mean(a))
  }

  ghost function Variance(a: seq<real>): real
    requires a != []
  {
    Dot(Centered(a), Centered(a))
  }

  ghost function Covariance(a: seq<real>, b: seq<real>): real
    requires a != [] && |a| == |b|
  {
    Dot(Centered(a), Centered(b))
  }

  ghost function Corr(a: seq<real>, b: seq<real>): real {
    if |a| == 0 || |a| != |b| then 0.0 else Coefficient(Covariance(a, b), Variance(a), Variance(b))
  }

  /** The second loop of pearson. */
  method Sums(a: seq<real>, b: seq<real>, meanA: real, meanB: real) returns (num: real, varA: real, varB: real)
    requires |a| == |b|
    ensures num == Dot(Shifted(a, meanA), Shifted(b, meanB))
    ensures varA == Dot(Shifted(a, meanA), Shifted(a, meanA))
    ensures varB == Dot(Shifted(b, meanB), Shifted(b, meanB))
  {
    num, varA, varB := 0.0, 0.0, 0.0;
    ghost var x, y := Shifted(a, meanA), Shifted(b, meanB);
    for i := 0 to |a|
      invariant num == Dot(x[..i], y[..i])
      invariant varA == Dot(x[..i], x[..i]) && varB == Dot(y[..i], y[..i])
    {
      assert x[..i + 1][..i] == x[..i] && y[..i + 1][..i] == y[..i];
      var da := a[i] - meanA;
      var db := b[i] - meanB;
      num := num + Prod(da, db);
      varA := varA + Prod(da, da);
      varB := varB + Prod(db, db);
    }
    assert x[..|a|] == x && y[..|a|] == y;
  }

  /** The two loops: means first, then the three sums at once. */
  method Pearson(a: seq<real>, b: seq<real>) returns (r: real)
    ensures r == Corr(a, b)
  {
    var n := |a|;
    if n == 0 || n != |b| {
      return 0.0;
    }
    var sumA, sumB := 0.0, 0.0;
    for i := 0 to n
      invariant sumA == Sum(a[..i]) && sumB == Sum(b[..i])
    {
      assert a[..i + 1][..i] == a[..i] && b[..i + 1][..i] == b[..i];
      sumA := sumA + a[i];
      sumB := sumB + b[i];
    }
    assert a[..n] == a && b[..n] == b;
    Divides(sumA, n as real);
    Divides(sumB, n as real);
    var meanA := sumA / (n as real);
    var meanB := sumB / (n as real);
    var num, varA, varB := Sums(a, b, meanA, meanB);
    r := CoefficientOf(num, varA, varB);
  }

  // ---- Cauchy-Schwarz ----

  lemma {:induction false} NonNegative(x: seq<real>)
    ensures Dot(x, x) >= 0.0
  {
    if x == [] {
    } else {
      NonNegative(x[..|x| - 1]);
      var s := Square(x[|x| - 1]);
    }
  }

  lemma {:induction false} PositiveNorm(x: seq<real>, i: nat)
    requires i < |x| && x[i] != 0.0
    ensures Dot(x, x) > 0.0
  {
    var n := |x| - 1;
    var s := Square(x[n]);
    if i == n {
      NonNegative(x[..n]);
    } else {
      PositiveNorm(x[..n], i);
    }
  }

  /** A vanishing norm means a vanishing vector. */
  lemma ZeroNorm(x: seq<real>)
    requires Dot(x, x) == 0.0
    ensures forall i :: 0 <= i < |x| ==> x[i] == 0.0
  {
    forall i | 0 <= i < |x|
      ensures x[i] == 0.0
    {
      if x[i] != 0.0 {
        PositiveNorm(x, i);
      }
    }
  }

  lemma {:induction false} DotZero(x: seq<real>, y: seq<real>)
    requires |x| == |y| && forall i :: 0 <= i < |y| ==> y[i] == 0.0
    ensures Dot(x, y) == 0.0
  {
    if x == [] {
    } else {
      DotZero(x[..|x| - 1], y[..|y| - 1]);
    }
  }

  lemma {:induction false} DotSymmetric(x: seq<real>, y: seq<real>)
    requires |x| == |y|
    ensures Dot(x, y) == Dot(y, x)
  {
    if x == [] {
    } else {
      DotSymmetric(x[..|x| - 1], y[..|y| - 1]);
      ProdCommutes(x[|x| - 1], y[|y| - 1]);
    }
  }

  function Blend(p: real, u: real, q: real, v: real): real {
    p * u + q * v
  }

  function Combine(p: real, x: seq<real>, q: real, y: seq<real>): seq<real>
    requires |x| == |y|
  {
    seq(|x|, i requires 0 <= i < |x| => Blend(p, x[i], q, y[i]))
  }

  /** The norm of p * x + q * y, given the three products of x and y. */
  function Form(p: real, q: real, A: real, S: real, B: real): real {
    p * p * A + 2.0 * (p * q) * S + q * q * B
  }

  lemma FormOfPoint(p: real, q: real, u: real, v: real)
    ensures Prod(Blend(p, u, q, v), Blend(p, u, q, v)) == Form(p, q, Prod(u, u), Prod(u, v), Prod(v, v))
  {
  }

  lemma FormAdds(p: real, q: real, A: real, S: real, B: real, a: real, s: real, b: real)
    ensures Form(p, q, A + a, S + s, B + b) == Form(p, q, A, S, B) + Form(p, q, a, s, b)
  {
    Distribute(p * p, A, a);
    Distribute(2.0 * (p * q), S, s);
    Distribute(q * q, B, b);
  }

  lemma {:induction false} NormOfCombination(p: real, x: seq<real>, q: real, y: seq<real>)
    requires |x| == |y|
    ensures Dot(Combine(p, x, q, y), Combine(p, x, q, y)) == Form(p, q, Dot(x, x), Dot(x, y), Dot(y, y))
  {
    var z := Combine(p, x, q, y);
    if x == [] {
      assert z == [];
    } else {
      var n := |x| - 1;
      assert z[..n] == Combine(p, x[..n], q, y[..n]) && z[n] == Blend(p, x[n], q, y[n]);
      NormOfCombination(p, x[..n], q, y[..n]);
      FormOfPoint(p, q, x[n], y[n]);
      FormAdds(p, q, Dot(x[..n], x[..n]), Dot(x[..n], y[..n]), Dot(y[..n], y[..n]),
               Prod(x[n], x[n]), Prod(x[n], y[n]), Prod(y[n], y[n]));
    }
  }

  lemma Discriminant(A: real, S: real, B: real)
    ensures Form(B, -S, A, S, B) == B * (A * B - S * S)
  {
    assert B * B * A == B * (A * B);
    assert 2.0 * (B * -S) * S == -2.0 * (B * (S * S));
    assert -S * -S * B == B * (S * S);
    Distribute(B, A * B, -(S * S));
  }

  /** The discriminant of a form that is never negative. */
  lemma FormBound(A: real, S: real, B: real)
    requires B > 0.0 && Form(B, -S, A, S, B) >= 0.0
    ensures Bounded(S, A, B)
  {
    Discriminant(A, S, B);
    Factor(B, A * B - S * S, Form(B, -S, A, S, B));
  }

  lemma ZeroBound(A: real)
    ensures Bounded(0.0, A, 0.0)
  {
  }

  lemma CauchySchwarz(x: seq<real>, y: seq<real>)
    requires |x| == |y|
    ensures Bounded(Dot(x, y), Dot(x, x), Dot(y, y))
  {
    NonNegative(y);
    if Dot(y, y) == 0.0 {
      ZeroNorm(y);
      DotZero(x, y);
      ZeroBound(Dot(x, x));
    } else {
      NormOfCombination(Dot(y, y), x, -Dot(x, y), y);
      NonNegative(Combine(Dot(y, y), x, -Dot(x, y), y));
      FormBound(Dot(x, x), Dot(x, y), Dot(y, y));
    }
  }

  /** The three sums of pearson satisfy the Cauchy-Schwarz inequality. */
  lemma SumsBounded(a: seq<real>, b: seq<real>)
    requires a != [] && |a| == |b|
    ensures Bounded(Covariance(a, b), Variance(a), Variance(b))
    ensures Variance(a) >= 0.0 && Variance(b) >= 0.0
  {
    NonNegative(Centered(a));
    NonNegative(Centered(b));
    CauchySchwarz(Centered(a), Centered(b));
  }

  /** Every correlation lies in [-1, 1]. */
  lemma CorrInRange(a: seq<real>, b: seq<real>)
    ensures -1.0 <= Corr(a, b) <= 1.0
  {
    if |a| != 0 && |a| == |b| {
      SumsBounded(a, b);
      CoefficientRange(Covariance(a, b), Variance(a), Variance(b));
    }
  }

  // ---- affine images ----

  function AffineSeq(k: real, c: real, a: seq<real>): seq<real> {
    seq(|a|, i requires 0 <= i < |a| => Line(k, a[i], c))
  }

  lemma SumAffineStep(k: real, c: real, s: real, x: real, n: real)
    ensures Line(k, s, c * n) + Line(k, x, c) == Line(k, s + x, c * (n + 1.0))
  {
    Distribute(k, s, x);
    Distribute(c, n, 1.0);
  }

  lemma {:induction false} SumAffine(k: real, c: real, a: seq<real>)
    ensures Sum(AffineSeq(k, c, a)) == Line(k, Sum(a), c * (|a| as real))
  {
    if a == [] {
    } else {
      var n := |a| - 1;
      assert AffineSeq(k, c, a)[..n] == AffineSeq(k, c, a[..n]);
      SumAffine(k, c, a[..n]);
      SumAffineStep(k, c, Sum(a[..n]), a[n], n as real);
    }
  }

  lemma LineSolves(k: real, c: real, m: real, s: real, n: real)
    requires Solves(m, s, n)
    ensures Solves(Line(k, m, c), Line(k, s, c * n), n)
  {
    assert (k * m + c) * n == k * (m * n) + c * n;
  }

  lemma MeanAffine(k: real, c: real, a: seq<real>)
    requires a != []
    ensures Mean(AffineSeq(k, c, a)) == Line(k, Mean(a), c)
  {
    var n := |a| as real;
    SumAffine(k, c, a);
    LineSolves(k, c, Mean(a), Sum(a), n);
    SameQuotient(Line(k, Sum(a), c * n), n, Line(k, Mean(a), c));
  }

  lemma LineDifference(k: real, c: real, x: real, m: real)
    ensures Line(k, x, c) - Line(k, m, c) == Line(k, x - m, 0.0)
  {
  }

  /** Centering an affine image scales the centered series. */
  lemma CenteredAffine(k: real, c: real, a: seq<real>)
    requires a != []
    ensures Centered(AffineSeq(k, c, a)) == AffineSeq(k, 0.0, Centered(a))
  {
    MeanAffine(k, c, a);
    forall i | 0 <= i < |a|
      ensures Line(k, a[i], c) - Line(k, Mean(a), c) == Line(k, a[i] - Mean(a), 0.0)
    {
      LineDifference(k, c, a[i], Mean(a));
    }
  }

  lemma ScaledPoint(k: real, d: real, u: real, v: real)
    ensures Prod(k, d) + Prod(Line(k, u, 0.0), v) == Prod(k, d + Prod(u, v))
  {
    assert k * u * v == k * (u * v);
  }

  lemma {:induction false} DotScaled(k: real, x: seq<real>, y: seq<real>)
    requires |x| == |y|
    ensures Dot(AffineSeq(k, 0.0, x), y) == Prod(k, Dot(x, y))
  {
    if x == [] {
    } else {
      var n := |x| - 1;
      assert AffineSeq(k, 0.0, x)[..n] == AffineSeq(k, 0.0, x[..n]);
      DotScaled(k, x[..n], y[..n]);
      ScaledPoint(k, Dot(x[..n], y[..n]), x[n], y[n]);
    }
  }

  lemma NormScaled(k: real, x: seq<real>)
    ensures Dot(AffineSeq(k, 0.0, x), AffineSeq(k, 0.0, x)) == Prod(k, Prod(k, Dot(x, x)))
  {
    var z := AffineSeq(k, 0.0, x);
    DotScaled(k, x, z);
    DotSymmetric(x, z);
    DotScaled(k, x, x);
  }

  /** The three sums of an affine image. */
  lemma SumsAffine(k: real, c: real, a: seq<real>, b: seq<real>)
    requires a != [] && |a| == |b|
    ensures Covariance(AffineSeq(k, c, a), b) == Prod(k, Covariance(a, b))
    ensures Variance(AffineSeq(k, c, a)) == Prod(k, Prod(k, Variance(a)))
  {
    CenteredAffine(k, c, a);
    DotScaled(k, Centered(a), Centered(b));
    NormScaled(k, Centered(a));
  }

  lemma SignedSquareScaled(k: real, num: real)
    ensures Prod(k * num, Abs(k * num)) == (k * k) * (Sgn(k) * Prod(num, Abs(num)))
  {
    AbsProduct(k, num);
    assert k * Abs(k) == (k * k) * Sgn(k);
    assert (k * num) * (Abs(k) * Abs(num)) == (k * Abs(k)) * (num * Abs(num));
  }

  lemma ScaledSolves(f: real, g: real, q: real, n: real, d: real)
    requires Solves(q, n, d)
    ensures Solves(g * q, f * (g * n), f * d)
  {
    assert (g * q) * (f * d) == f * (g * (q * d));
  }

  lemma CoefficientScaled(k: real, num: real, va: real, vb: real)
    requires k != 0.0
    ensures Coefficient(Prod(k, num), Prod(k, Prod(k, va)), vb) == Prod(Sgn(k), Coefficient(num, va, vb))
  {
    if va == 0.0 || vb == 0.0 {
    } else {
      NonZero(k, va);
      NonZero(k, Prod(k, va));
      NonZero(va, vb);
      NonZero(Prod(k, Prod(k, va)), vb);
      var n, d, q := Prod(num, Abs(num)), Prod(va, vb), Coefficient(num, va, vb);
      SignedSquareScaled(k, num);
      ScaledSolves(k * k, Sgn(k), q, n, d);
      assert Prod(Prod(k, Prod(k, va)), vb) == (k * k) * d;
      SameQuotient(Prod(k * num, Abs(k * num)), Prod(Prod(k, Prod(k, va)), vb), Sgn(k) * q);
    }
  }

  /** Replacing one series by k * a + c, k != 0, multiplies the correlation by the sign of k. */
  lemma CorrAffine(k: real, c: real, a: seq<real>, b: seq<real>)
    requires k != 0.0
    ensures Corr(AffineSeq(k, c, a), b) == Prod(Sgn(k), Corr(a, b))
  {
    if |a| != 0 && |a| == |b| {
      SumsAffine(k, c, a, b);
      CoefficientScaled(k, Covariance(a, b), Variance(a), Variance(b));
    }
  }

  lemma CoefficientSymmetric(num: real, va: real, vb: real)
    ensures Coefficient(num, va, vb) == Coefficient(num, vb, va)
  {
    ProdCommutes(va, vb);
  }

  /** The correlation is symmetric. */
  lemma CorrSymmetric(a: seq<real>, b: seq<real>)
    ensures Corr(a, b) == Corr(b, a)
  {
    if |a| != 0 && |a| == |b| {
      DotSymmetric(Centered(a), Centered(b));
      CoefficientSymmetric(Covariance(a, b), Variance(a), Variance(b));
    }
  }

  // ---- the extreme values ----

  ghost predicate Constant(a: seq<real>) {
    forall i, j :: 0 <= i < |a| && 0 <= j < |a| ==> a[i] == a[j]
  }

  ghost predicate AffineImage(a: seq<real>, b: seq<real>, k: real, c: real) {
    k != 0.0 && b == AffineSeq(k, c, a)
  }

  lemma OneMore(v: real, n: real)
    ensures Prod(v, n) + v == Prod(v, n + 1.0)
  {
  }

  lemma {:induction false} SumConstant(a: seq<real>, v: real)
    requires forall i :: 0 <= i < |a| ==> a[i] == v
    ensures Sum(a) == Prod(v, |a| as real)
  {
    if a == [] {
    } else {
      SumConstant(a[..|a| - 1], v);
      OneMore(v, (|a| - 1) as real);
    }
  }

  lemma MeanConstant(a: seq<real>)
    requires a != [] && Constant(a)
    ensures Mean(a) == a[0]
  {
    SumConstant(a, a[0]);
    SameQuotient(Sum(a), |a| as real, a[0]);
  }

  /** The zero-variance guard fires exactly on constant series. */
  lemma VarianceZeroIffConstant(a: seq<real>)
    requires a != []
    ensures Variance(a) == 0.0 <==> Constant(a)
  {
    if Constant(a) {
      MeanConstant(a);
      DotZero(Centered(a), Centered(a));
    } else if Variance(a) == 0.0 {
      ZeroNorm(Centered(a));
      forall i | 0 <= i < |a|
        ensures a[i] == Mean(a)
      {
        assert Centered(a)[i] == 0.0;
      }
    }
  }

  lemma CoefficientOfItself(v: real)
    requires v > 0.0
    ensures Coefficient(v, v, v) == 1.0
  {
    var d := PositiveProduct(v, v);
    SameQuotient(d, d, 1.0);
  }

  lemma ExtremeOfImage(a: seq<real>, b: seq<real>, k: real, c: real)
    requires a != [] && !Constant(a) && AffineImage(a, b, k, c)
    ensures Corr(a, b) == Sgn(k)
  {
    VarianceZeroIffConstant(a);
    NonNegative(Centered(a));
    CoefficientOfItself(Variance(a));
    CorrAffine(k, c, a, a);
    CorrSymmetric(a, b);
  }

  lemma TightFactor(A: real, S: real, B: real) returns (k: real)
    requires A > 0.0 && B > 0.0 && Tight(S, A, B)
    ensures S != 0.0 && k != 0.0 && Solves(k, B, S) && Form(B, -S, A, S, B) == 0.0
  {
    var AB := PositiveProduct(A, B);
    k := Quot(B, S);
    Discriminant(A, S, B);
  }

  lemma Cancel(B: real, S: real, k: real, u: real, v: real)
    requires S != 0.0 && Solves(k, B, S) && Blend(B, u, -S, v) == 0.0
    ensures v == Line(k, u, 0.0)
  {
    assert S * (v - k * u) == 0.0;
    if v - k * u != 0.0 {
      var p := NonZeroProduct(S, v - k * u);
    }
  }

  /** Equality in Cauchy-Schwarz means proportional series. */
  lemma ProportionalWhenTight(x: seq<real>, y: seq<real>) returns (k: real)
    requires |x| == |y| && Dot(x, x) > 0.0 && Dot(y, y) > 0.0
    requires Tight(Dot(x, y), Dot(x, x), Dot(y, y))
    ensures k != 0.0 && y == AffineSeq(k, 0.0, x)
  {
    var S, B := Dot(x, y), Dot(y, y);
    k := TightFactor(Dot(x, x), S, B);
    var z := Combine(B, x, -S, y);
    NormOfCombination(B, x, -S, y);
    ZeroNorm(z);
    forall i | 0 <= i < |x|
      ensures y[i] == Line(k, x[i], 0.0)
    {
      assert z[i] == Blend(B, x[i], -S, y[i]);
      Cancel(B, S, k, x[i], y[i]);
    }
  }

  function Offset(k: real, m: real, l: real): real {
    l - k * m
  }

  lemma Uncenter(k: real, x: real, y: real, m: real, l: real)
    requires y - l == Line(k, x - m, 0.0)
    ensures y == Line(k, x, Offset(k, m, l))
  {
  }

  lemma UncenteredImage(a: seq<real>, b: seq<real>, k: real, m: real, l: real)
    requires |a| == |b| && Shifted(b, l) == AffineSeq(k, 0.0, Shifted(a, m))
    ensures b == AffineSeq(k, Offset(k, m, l), a)
  {
    forall i | 0 <= i < |a|
      ensures b[i] == Line(k, a[i], Offset(k, m, l))
    {
      assert Shifted(b, l)[i] == Line(k, Shifted(a, m)[i], 0.0);
      Uncenter(k, a[i], b[i], m, l);
    }
  }

  lemma ImageWhenTight(a: seq<real>, b: seq<real>) returns (k: real, c: real)
    requires a != [] && |a| == |b| && Variance(a) > 0.0 && Variance(b) > 0.0
    requires Tight(Covariance(a, b), Variance(a), Variance(b))
    ensures AffineImage(a, b, k, c)
  {
    k := ProportionalWhenTight(Centered(a), Centered(b));
    c := Offset(k, Mean(a), Mean(b));
    UncenteredImage(a, b, k, Mean(a), Mean(b));
  }

  /** The correlation is extreme exactly when one series is a non-constant affine image of the other. */
  lemma ExtremeIff(a: seq<real>, b: seq<real>)
    requires a != [] && |a| == |b|
    ensures Abs(Corr(a, b)) == 1.0 <==> !Constant(a) && exists k, c :: AffineImage(a, b, k, c)
  {
    if !Constant(a) && exists k, c :: AffineImage(a, b, k, c) {
      var k, c :| AffineImage(a, b, k, c);
      ExtremeOfImage(a, b, k, c);
    } else if Abs(Corr(a, b)) == 1.0 {
      VarianceZeroIffConstant(a);
      SumsBounded(a, b);
      CoefficientRange(Covariance(a, b), Variance(a), Variance(b));
      var k, c := ImageWhenTight(a, b);
    }
  }

  // ---- the usual form ----

  lemma SquareOrder(x: real, y: real)
    requires x >= 0.0 && y >= 0.0
    ensures x > y ==> x * x > y * y
    ensures x == y ==> x * x == y * y
  {
    if x > y {
      var p := PositiveProduct(x - y, x + y);
      assert p == x * x - y * y;
    }
  }

  /** Ranking by |r| and ranking by |r * |r|| are the same ranking. */
  lemma SignedSquareOrder(r: real, q: real)
    ensures Abs(r) > Abs(q) <==> Abs(r * Abs(r)) > Abs(q * Abs(q))
  {
    AbsProduct(r, Abs(r));
    AbsProduct(q, Abs(q));
    SquareOrder(Abs(r), Abs(q));
    SquareOrder(Abs(q), Abs(r));
  }

  /** The signed square determines its root. */
  lemma SignedSquareDetermines(r: real, q: real)
    requires r * Abs(r) == q * Abs(q)
    ensures r == q
  {
    SignedSquareOrder(r, q);
    SignedSquareOrder(q, r);
    var m := SignedSquare(r);
    var n := SignedSquare(q);
    if r != q {
      assert r == -q;
      var p := NonZeroProduct(q, q);
    }
  }

  lemma UnitSquare(r: real)
    requires -1.0 <= r * Abs(r) <= 1.0
    ensures -1.0 <= r <= 1.0
  {
    SignedSquareOrder(r, 1.0);
  }

  lemma RootSolves(r: real, num: real, s: real, d: real)
    requires r * s == num && s > 0.0 && s * s == d
    ensures Solves(r * Abs(r), Prod(num, Abs(num)), d)
  {
    AbsProduct(r, s);
    assert (r * Abs(r)) * (s * s) == (r * s) * (Abs(r) * s);
  }

  lemma RootQuotient(num: real, s: real, va: real, vb: real)
    requires s > 0.0 && s * s == va * vb && va != 0.0 && vb != 0.0
    ensures (num / s) * Abs(num / s) == Coefficient(num, va, vb)
  {
    var r := num / s;
    assert r * s == num;
    RootSolves(r, num, s, va * vb);
    NonZero(va, vb);
    SameQuotient(Prod(num, Abs(num)), Prod(va, vb), r * Abs(r));
  }

  /**
   With a square root s of varA * varB the program's r = num / s lies in [-1, 1],
   and it is the one number whose signed square is the value computed here.
   */
  lemma RootForm(a: seq<real>, b: seq<real>, s: real, q: real)
    requires a != [] && |a| == |b| && Variance(a) != 0.0 && Variance(b) != 0.0
    requires s > 0.0 && s * s == Variance(a) * Variance(b)
    ensures -1.0 <= Covariance(a, b) / s <= 1.0
    ensures q == Covariance(a, b) / s <==> q * Abs(q) == Corr(a, b)
  {
    var r := Covariance(a, b) / s;
    RootQuotient(Covariance(a, b), s, Variance(a), Variance(b));
    CorrInRange(a, b);
    UnitSquare(r);
    if q * Abs(q) == Corr(a, b) {
      SignedSquareDetermines(q, r);
    }
  }

  // ---- the same numbers without means ----

  /** Sum and Dot are what they are on single values, and add up over the parts of a series. */
  lemma {:induction false} SumAdds(a: seq<real>, b: seq<real>, x: real)
    ensures Sum([]) == 0.0 && Sum([x]) == x
    ensures Sum(a + b) == Sum(a) + Sum(b)
    decreases |b|
  {
    assert [x][..0] == [];
    if b == [] {
      assert a + b == a;
    } else {
      var n := |b| - 1;
      assert (a + b)[..|a + b| - 1] == a + b[..n];
      SumAdds(a, b[..n], x);
    }
  }

  lemma {:induction false} DotAdds(a: seq<real>, b: seq<real>, c: seq<real>, d: seq<real>, u: real, v: real)
    requires |a| == |c| && |b| == |d|
    ensures Dot([], []) == 0.0 && Dot([u], [v]) == u * v
    ensures Dot(a + b, c + d) == Dot(a, c) + Dot(b, d)
    decreases |b|
  {
    assert [u][..0] == [] && [v][..0] == [];
    if b == [] {
      assert a + b == a && c + d == c;
    } else {
      var n := |b| - 1;
      assert (a + b)[..|a + b| - 1] == a + b[..n] && (c + d)[..|c + d| - 1] == c + d[..n];
      DotAdds(a, b[..n], c, d[..n], u, v);
    }
  }

  lemma {:induction false} SumShifted(a: seq<real>, m: real)
    ensures Sum(Shifted(a, m)) == Sum(a) - Prod(m, |a| as real)
  {
    if a == [] {
    } else {
      var n := |a| - 1;
      assert Shifted(a, m)[..n] == Shifted(a[..n], m);
      SumShifted(a[..n], m);
      OneMore(m, n as real);
    }
  }

  /** Sum over i of (a_i - m) * (b_i - l), multiplied out. */
  function Expanded(d: real, m: real, sb: real, l: real, sa: real, n: real): real {
    d - m * sb - l * sa + n * (m * l)
  }

  lemma ExpandedStep(d: real, m: real, sb: real, l: real, sa: real, n: real, u: real, v: real)
    ensures Expanded(d, m, sb, l, sa, n) + Prod(u - m, v - l)
         == Expanded(d + Prod(u, v), m, sb + v, l, sa + u, n + 1.0)
  {
    Distribute(m, sb, v);
    Distribute(l, sa, u);
    Distribute(m * l, n, 1.0);
  }

  lemma {:induction false} DotShifted(a: seq<real>, m: real, b: seq<real>, l: real)
    requires |a| == |b|
    ensures Dot(Shifted(a, m), Shifted(b, l)) == Expanded(Dot(a, b), m, Sum(b), l, Sum(a), |a| as real)
  {
    if a == [] {
    } else {
      var n := |a| - 1;
      assert Shifted(a, m)[..n] == Shifted(a[..n], m) && Shifted(b, l)[..n] == Shifted(b[..n], l);
      DotShifted(a[..n], m, b[..n], l);
      ExpandedStep(Dot(a[..n], b[..n]), m, Sum(b[..n]), l, Sum(a[..n]), n as real, a[n], b[n]);
    }
  }

  /** n times the sum of products about the means, from the plain sums. */
  function Moment(n: real, d: real, sa: real, sb: real): real {
    n * d - sa * sb
  }

  lemma MeansCancel(d: real, m: real, sb: real, l: real, sa: real, n: real)
    requires Solves(m, sa, n) && Solves(l, sb, n)
    ensures Prod(n, Expanded(d, m, sb, l, sa, n)) == Moment(n, d, sa, sb)
  {
    assert n * (m * sb) == sa * sb;
    assert n * (l * sa) == sb * sa;
    assert n * (n * (m * l)) == sa * sb;
  }

  lemma MomentOfShifted(a: seq<real>, m: real, b: seq<real>, l: real, n: real)
    requires |a| == |b| && n == |a| as real && Solves(m, Sum(a), n) && Solves(l, Sum(b), n)
    ensures Prod(n, Dot(Shifted(a, m), Shifted(b, l))) == Moment(n, Dot(a, b), Sum(a), Sum(b))
  {
    DotShifted(a, m, b, l);
    MeansCancel(Dot(a, b), m, Sum(b), l, Sum(a), n);
  }

  /** The covariance sum of pearson without its means: n * cov = n * sum(a b) - sum(a) * sum(b). */
  lemma CovarianceFormula(a: seq<real>, b: seq<real>)
    requires a != [] && |a| == |b|
    ensures Prod(|a| as real, Covariance(a, b)) == Moment(|a| as real, Dot(a, b), Sum(a), Sum(b))
  {
    MomentOfShifted(a, Mean(a), b, Mean(b), |a| as real);
  }

  /** A variance sum is the covariance sum of a series with itself. */
  lemma VarianceFormula(a: seq<real>)
    requires a != []
    ensures Prod(|a| as real, Variance(a)) == Moment(|a| as real, Dot(a, a), Sum(a), Sum(a))
  {
    MomentOfShifted(a, Mean(a), a, Mean(a), |a| as real);
  }

  lemma CenteredSumsToZero(a: seq<real>)
    requires a != []
    ensures Sum(Centered(a)) == 0.0
  {
    SumShifted(a, Mean(a));
  }

  lemma BoundedByZero(num: real, va: real, vb: real)
    requires Bounded(num, va, vb) && (va == 0.0 || vb == 0.0)
    ensures num == 0.0
  {
    var s := Square(num);
  }

  /** corr * (va * vb) = num * |num|. */
  predicate SignedSquareOf(corr: real, num: real, va: real, vb: real) {
    corr * (va * vb) == num * Abs(num)
  }

  lemma CoefficientSolves(num: real, va: real, vb: real)
    requires Bounded(num, va, vb)
    ensures SignedSquareOf(Coefficient(num, va, vb), num, va, vb)
  {
    if va == 0.0 || vb == 0.0 {
      BoundedByZero(num, va, vb);
    } else {
      NonZero(va, vb);
    }
  }

  lemma ScaleUp(c: real, n: real, num: real, va: real, vb: real)
    requires n > 0.0 && SignedSquareOf(c, num, va, vb)
    ensures SignedSquareOf(c, Prod(n, num), Prod(n, va), Prod(n, vb))
  {
    AbsProduct(n, num);
    assert (n * va) * (n * vb) == (n * n) * (va * vb);
    assert c * ((n * n) * (va * vb)) == (n * n) * (c * (va * vb));
    assert (n * num) * (n * Abs(num)) == (n * n) * (num * Abs(num));
  }

  /**
   The correlation from plain sums alone: with N = n sum(ab) - sum(a) sum(b),
   A = n sum(aa) - sum(a)^2 and B likewise, corr * A * B = N * |N|.
   */
  lemma CorrFormula(a: seq<real>, b: seq<real>)
    requires a != [] && |a| == |b|
    ensures var n := |a| as real;
            SignedSquareOf(Corr(a, b), Moment(n, Dot(a, b), Sum(a), Sum(b)),
                           Moment(n, Dot(a, a), Sum(a), Sum(a)), Moment(n, Dot(b, b), Sum(b), Sum(b)))
  {
    CovarianceFormula(a, b);
    VarianceFormula(a);
    VarianceFormula(b);
    SumsBounded(a, b);
    CoefficientSolves(Covariance(a, b), Variance(a), Variance(b));
    ScaleUp(Corr(a, b), |a| as real, Covariance(a, b), Variance(a), Variance(b));
  }

  /** Unusable or constant input has correlation 0. */
  lemma CorrDefaults(a: seq<real>, b: seq<real>)
    requires a == [] || |a| != |b| || Constant(a) || Constant(b)
    ensures Corr(a, b) == 0.0
  {
    if a != [] && |a| == |b| {
      VarianceZeroIffConstant(a);
      VarianceZeroIffConstant(b);
    }
  }

  /** Three points by hand: N = 3, A = B = 6, so the signed square of 1/2. */
  lemma CorrOfThree()
    ensures Corr([1.0, 2.0, 3.0], [1.0, 3.0, 2.0]) == 0.25
  {
    var a, b := [1.0, 2.0, 3.0], [1.0, 3.0, 2.0];
    assert a[..2] == [1.0, 2.0] && [1.0, 2.0][..1] == [1.0] && [1.0][..0] == [];
    assert b[..2] == [1.0, 3.0] && [1.0, 3.0][..1] == [1.0];
    assert Sum(a) == 6.0 && Sum(b) == 6.0;
    assert Dot(a, b) == 13.0 && Dot(a, a) == 14.0 && Dot(b, b) == 14.0;
    CorrFormula(a, b);
  }
}
