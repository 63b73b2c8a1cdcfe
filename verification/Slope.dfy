// Least-squares slope of a sensor window over exact reals.
module Slope {
  import opened LinearLayer
  import opened Stats

  // Seconds since the first time stamp, by unsigned 64-bit difference.
  function Seconds(ts: seq<nat>, n: nat, hz: real): seq<real>
    requires n <= |ts| && hz > 0.0
  {
    seq(n, i requires 0 <= i < n => ((ts[i] as int - ts[0] as int) % U64) as real / hz)
  }

  function Reals(y: seq<int>, n: nat): seq<real>
    requires n <= |y|
  {
    seq(n, i requires 0 <= i < n => y[i] as real)
  }

  function Times(a: seq<real>, b: seq<real>): seq<real>
    requires |a| == |b|
  {
    seq(|a|, i requires 0 <= i < |a| => a[i] * b[i])
  }

  // n times a sum of products, less the product of the sums.
  function Cross(n: real, xy: real, x: real, y: real): real { n * xy - x * y }

  function Denominator(t: seq<real>, n: nat): real
    requires n <= |t|
  {
    Cross(n as real, Sum(Times(t, t), n), Sum(t, n), Sum(t, n))
  }

  function Numerator(t: seq<real>, y: seq<real>, n: nat): real
    requires n <= |t| == |y|
  {
    Cross(n as real, Sum(Times(t, y), n), Sum(t, n), Sum(y, n))
  }

  function SlopeOf(t: seq<real>, y: seq<real>): real
    requires |t| == |y|
  {
    if Denominator(t, |t|) == 0.0 then 0.0 else Numerator(t, y, |t|) / Denominator(t, |t|)
  }

  method ComputeSums(ts: seq<nat>, y: seq<int>, n: nat, hz: real)
    returns (sumt: real, sumy: real, sumty: real, sumt2: real)
    requires n <= |ts| && n <= |y| && hz > 0.0
    ensures var t, r := Seconds(ts, n, hz), Reals(y, n);
            sumt == Sum(t, n) && sumy == Sum(r, n) && sumty == Sum(Times(t, r), n) && sumt2 == Sum(Times(t, t), n)
  {
    sumt, sumy, sumty, sumt2 := 0.0, 0.0, 0.0, 0.0;
    ghost var t, r := Seconds(ts, n, hz), Reals(y, n);
    for i := 0 to n
      invariant sumt == Sum(t, i) && sumy == Sum(r, i)
      invariant sumty == Sum(Times(t, r), i) && sumt2 == Sum(Times(t, t), i)
    {
      var ti := ((ts[i] as int - ts[0] as int) % U64) as real / hz;
      var yi := y[i] as real;
      assert ti == t[i] && yi == r[i];
      assert Times(t, r)[i] == ti * yi && Times(t, t)[i] == ti * ti;
      sumt := sumt + ti;
      sumy := sumy + yi;
      sumty := sumty + ti * yi;
      sumt2 := sumt2 + ti * ti;
    }
  }

  method ComputeSlope(ts: seq<nat>, y: seq<int>, n: nat, hz: real) returns (slope: real)
    requires n <= |ts| && n <= |y| && hz > 0.0
    ensures slope == SlopeOf(Seconds(ts, n, hz), Reals(y, n))
  {
    var sumt, sumy, sumty, sumt2 := ComputeSums(ts, y, n, hz);
    var denom := Cross(n as real, sumt2, sumt, sumt);
    if denom == 0.0 { return 0.0; }
    slope := Cross(n as real, sumty, sumt, sumy) / denom;
  }

  // --- the denominator -----------------------------------------------------

  function SquaredGap(x: real, y: real): real { (x - y) * (x - y) }

  // Sum of squared distances from x to the first n samples.
  function Spread(t: seq<real>, x: real, n: nat): real
    requires n <= |t|
  {
    if n == 0 then 0.0 else Spread(t, x, n - 1) + SquaredGap(x, t[n - 1])
  }

  function Expanded(n: real, x: real, s: real, q: real): real { n * (x * x) - 2.0 * x * s + q }

  lemma {:induction false} ExpandedStep(n: real, x: real, s: real, q: real, y: real, n': real, s': real, q': real)
    requires n' == n + 1.0 && s' == s + y && q' == q + y * y
    ensures Expanded(n', x, s', q') == Expanded(n, x, s, q) + SquaredGap(x, y)
  {
    assert (x - y) * (x - y) == x * x - 2.0 * x * y + y * y;
    assert 2.0 * x * (s + y) == 2.0 * x * s + 2.0 * x * y;
    assert (n + 1.0) * (x * x) == n * (x * x) + x * x;
  }

  lemma {:induction false} SpreadExpands(t: seq<real>, x: real, n: nat)
    requires n <= |t|
    ensures Spread(t, x, n) == Expanded(n as real, x, Sum(t, n), Sum(Times(t, t), n))
  {
    if n > 0 {
      var m := n - 1;
      SpreadExpands(t, x, m);
      ExpandedStep(m as real, x, Sum(t, m), Sum(Times(t, t), m), t[m], n as real, Sum(t, n), Sum(Times(t, t), n));
    } else {
    }
  }

  ghost predicate AllEqual(t: seq<real>, x: real, n: nat)
    requires n <= |t|
  {
    forall i :: 0 <= i < n ==> t[i] == x
  }

  lemma {:induction false} SpreadSign(t: seq<real>, x: real, n: nat)
    requires n <= |t|
    ensures Spread(t, x, n) >= 0.0
    ensures Spread(t, x, n) == 0.0 <==> AllEqual(t, x, n)
  {
    if n > 0 {
      SpreadSign(t, x, n - 1);
      var d := x - t[n - 1];
      assert SquaredGap(x, t[n - 1]) == d * d;
      SumZero(Spread(t, x, n - 1), d, SquaredGap(x, t[n - 1]));
      assert AllEqual(t, x, n) <==> AllEqual(t, x, n - 1) && t[n - 1] == x;
    }
  }

  lemma {:induction false} SumZero(s: real, d: real, q: real)
    requires s >= 0.0 && q == d * d
    ensures s + q >= 0.0
    ensures s + q == 0.0 ==> s == 0.0 && d == 0.0
    ensures s == 0.0 && d == 0.0 ==> s + q == 0.0
  {
    Square(d, q);
  }

  lemma {:induction false} Square(d: real, q: real)
    requires q == d * d
    ensures q >= 0.0
    ensures d == 0.0 ==> q == 0.0
    ensures d != 0.0 ==> q > 0.0
  {
    if d < 0.0 {
      Product(-d, -d, q);
    } else if d > 0.0 {
      Product(d, d, q);
    } else {
      assert d == 0.0;
    }
  }

  lemma {:induction false} Product(a: real, b: real, q: real)
    requires a > 0.0 && b > 0.0 && q == a * b
    ensures q > 0.0
  {}

  lemma {:induction false} ProductsGrow(a: seq<real>, b: seq<real>, n: nat)
    requires n < |a| == |b|
    ensures Sum(Times(a, b), n + 1) == Sum(Times(a, b), n) + Prod(a[n], b[n])
  {}

  // Each further sample adds its squared distance to all earlier ones.
  lemma {:induction false} DenominatorStep(t: seq<real>, n: nat)
    requires n < |t|
    ensures Denominator(t, n + 1) == Denominator(t, n) + Spread(t, t[n], n)
  {
    SpreadExpands(t, t[n], n);
    ProductsGrow(t, t, n);
    StepAlgebra(n as real, t[n], Sum(t, n), Sum(Times(t, t), n),
                (n + 1) as real, Sum(t, n + 1), Sum(Times(t, t), n + 1));
  }

  lemma {:induction false} StepAlgebra(n: real, x: real, s: real, q: real, n': real, s': real, q': real)
    requires n' == n + 1.0 && s' == s + x && q' == q + Prod(x, x)
    ensures Cross(n', q', s', s') == Cross(n, q, s, s) + Expanded(n, x, s, q)
  {
    assert (n + 1.0) * (q + x * x) == n * q + n * (x * x) + q + x * x;
    assert (s + x) * (s + x) == s * s + 2.0 * x * s + x * x;
  }

  ghost predicate AllSame(t: seq<real>, n: nat)
    requires n <= |t|
  {
    forall i :: 0 <= i < n ==> t[i] == t[0]
  }

  lemma {:induction false} DenominatorSign(t: seq<real>, n: nat)
    requires n <= |t|
    ensures Denominator(t, n) >= 0.0
    ensures Denominator(t, n) == 0.0 <==> AllSame(t, n)
  {
    if n > 0 {
      DenominatorSign(t, n - 1);
      DenominatorStep(t, n - 1);
      SpreadSign(t, t[n - 1], n - 1);
      assert AllSame(t, n) <==> AllSame(t, n - 1) && AllEqual(t, t[n - 1], n - 1);
    } else {
      assert Denominator(t, 0) == 0.0;
    }
  }

  lemma {:induction false} SecondsSame(ts: seq<nat>, hz: real)
    requires hz > 0.0 && |ts| >= 1 && forall i :: 0 <= i < |ts| ==> ts[i] < U64
    ensures AllSame(Seconds(ts, |ts|, hz), |ts|) <==> forall i :: 0 <= i < |ts| ==> ts[i] == ts[0]
  {
    var t := Seconds(ts, |ts|, hz);
    forall i | 0 <= i < |ts| ensures t[i] == t[0] <==> ts[i] == ts[0] {
      QuotientZero(((ts[i] as int - ts[0] as int) % U64) as real, hz);
      QuotientZero(((ts[0] as int - ts[0] as int) % U64) as real, hz);
    }
  }

  // Never negative, and zero exactly when all time stamps are the same.
  lemma {:induction false} DenominatorZeroIff(ts: seq<nat>, hz: real)
    requires hz > 0.0 && |ts| >= 1 && forall i :: 0 <= i < |ts| ==> ts[i] < U64
    ensures var t := Seconds(ts, |ts|, hz);
            && Denominator(t, |t|) >= 0.0
            && (Denominator(t, |t|) == 0.0 <==> forall i :: 0 <= i < |ts| ==> ts[i] == ts[0])
  {
    var t := Seconds(ts, |ts|, hz);
    DenominatorSign(t, |t|);
    SecondsSame(ts, hz);
  }

  lemma {:induction false} QuotientZero(a: real, hz: real)
    requires hz > 0.0
    ensures a / hz == 0.0 <==> a == 0.0
  {
    assert a / hz * hz == a;
  }

  // --- what the slope is -----------------------------------------------------

  // w is the combination cu * u + cv * v, element by element.
  ghost predicate Combines(w: seq<real>, cu: real, u: seq<real>, cv: real, v: seq<real>) {
    |w| == |u| == |v| && forall i :: 0 <= i < |w| ==> w[i] == cu * u[i] + cv * v[i]
  }

  // The sum of a linear combination is the combination of the sums.
  lemma {:induction false} SumComb(w: seq<real>, cu: real, u: seq<real>, cv: real, v: seq<real>, n: nat,
      sw: real, su: real, sv: real)
    requires Combines(w, cu, u, cv, v) && n <= |w|
    requires sw == Sum(w, n) && su == Sum(u, n) && sv == Sum(v, n)
    ensures sw == cu * su + cv * sv
  {
    if n > 0 {
      var pw, pu, pv := Sum(w, n - 1), Sum(u, n - 1), Sum(v, n - 1);
      SumComb(w, cu, u, cv, v, n - 1, pw, pu, pv);
    }
  }

  function Line(t: seq<real>, a: real, b: real): seq<real> {
    seq(|t|, i requires 0 <= i < |t| => a + b * t[i])
  }

  function Minus(y: seq<real>, z: seq<real>): seq<real>
    requires |y| == |z|
  {
    seq(|y|, i requires 0 <= i < |y| => y[i] - z[i])
  }

  // Squared error of the line a + b t.
  function Error(t: seq<real>, y: seq<real>, a: real, b: real): real
    requires |t| == |y|
  {
    var r := Minus(y, Line(t, a, b));
    Sum(Times(r, r), |t|)
  }

  lemma {:induction false} SumOnes(ones: seq<real>, n: nat)
    requires n <= |ones| && forall i :: 0 <= i < |ones| ==> ones[i] == 1.0
    ensures Sum(ones, n) == n as real
  {
    if n > 0 { SumOnes(ones, n - 1); }
  }

  lemma {:induction false} LineCombines(t: seq<real>, a: real, b: real, ones: seq<real>)
    requires |ones| == |t| && forall i :: 0 <= i < |ones| ==> ones[i] == 1.0
    ensures Combines(Line(t, a, b), a, ones, b, t)
  {}

  lemma {:induction false} TimesLineCombines(t: seq<real>, a: real, b: real)
    ensures Combines(Times(t, Line(t, a, b)), a, t, b, Times(t, t))
  {
    forall i | 0 <= i < |t| ensures Times(t, Line(t, a, b))[i] == a * t[i] + b * Times(t, t)[i] {
    }
  }

  lemma {:induction false} LineSum(t: seq<real>, y: seq<real>, a: real, b: real, n: real, st: real, sy: real)
    requires y == Line(t, a, b) && n == |t| as real && st == Sum(t, |t|) && sy == Sum(y, |t|)
    ensures sy == a * n + b * st
  {
    var ones := seq(|t|, _ => 1.0);
    SumOnes(ones, |t|);
    LineCombines(t, a, b, ones);
    SumComb(y, a, ones, b, t, |t|, sy, n, st);
  }

  lemma {:induction false} LineTimeSum(t: seq<real>, y: seq<real>, a: real, b: real, st: real, stt: real, sty: real)
    requires y == Line(t, a, b) && st == Sum(t, |t|)
    requires stt == Sum(Times(t, t), |t|) && sty == Sum(Times(t, y), |t|)
    ensures sty == a * st + b * stt
  {
    TimesLineCombines(t, a, b);
    SumComb(Times(t, y), a, t, b, Times(t, t), |t|, sty, st, stt);
  }

  lemma {:induction false} MinusSum(y: seq<real>, z: seq<real>)
    requires |y| == |z|
    ensures Sum(Minus(y, z), |y|) == Sum(y, |y|) - Sum(z, |y|)
  {
    MinusPrefix(y, z, |y|);
  }

  lemma {:induction false} MinusPrefix(y: seq<real>, z: seq<real>, n: nat)
    requires n <= |y| == |z|
    ensures Sum(Minus(y, z), n) == Sum(y, n) - Sum(z, n)
  {
    if n > 0 { MinusPrefix(y, z, n - 1); }
  }

  lemma {:induction false} MinusTimeSum(t: seq<real>, y: seq<real>, z: seq<real>)
    requires |t| == |y| == |z|
    ensures Sum(Times(t, Minus(y, z)), |t|) == Sum(Times(t, y), |t|) - Sum(Times(t, z), |t|)
  {
    TimesMinus(t, y, z);
    MinusSum(Times(t, y), Times(t, z));
  }

  lemma {:induction false} TimesMinus(t: seq<real>, y: seq<real>, z: seq<real>)
    requires |t| == |y| == |z|
    ensures Times(t, Minus(y, z)) == Minus(Times(t, y), Times(t, z))
  {
    forall i | 0 <= i < |t| ensures Times(t, Minus(y, z))[i] == Minus(Times(t, y), Times(t, z))[i] {
    }
  }

  // The normal equations: residuals are orthogonal to constants and to t.
  ghost predicate IsFit(t: seq<real>, y: seq<real>, a: real, b: real)
    requires |t| == |y|
  {
    var r := Minus(y, Line(t, a, b));
    Sum(r, |t|) == 0.0 && Sum(Times(t, r), |t|) == 0.0
  }

  ghost predicate Solves(a: real, b: real, n: real, st: real, sy: real, sty: real, stt: real) {
    a * n + b * st == sy && a * st + b * stt == sty
  }

  // The computed slope solves the normal equations with some intercept.
  lemma {:induction false} SlopeIsNormal(t: seq<real>, y: seq<real>) returns (a: real)
    requires |t| == |y| && |t| >= 1 && Denominator(t, |t|) != 0.0
    ensures IsFit(t, y, a, SlopeOf(t, y))
  {
    var n := |t|;
    var d, m, b := Denominator(t, n), Numerator(t, y, n), SlopeOf(t, y);
    a := NormalAlgebra(n as real, Sum(t, n), Sum(y, n), Sum(Times(t, y), n), Sum(Times(t, t), n), d, m, b);
    FitFromSums(t, y, a, b, n as real, Sum(t, n), Sum(y, n), Sum(Times(t, y), n), Sum(Times(t, t), n));
  }

  lemma {:induction false} FitFromSums(t: seq<real>, y: seq<real>, a: real, b: real, n: real, st: real, sy: real,
      sty: real, stt: real)
    requires |t| == |y| && n == |t| as real && st == Sum(t, |t|) && sy == Sum(y, |t|)
    requires sty == Sum(Times(t, y), |t|) && stt == Sum(Times(t, t), |t|)
    requires Solves(a, b, n, st, sy, sty, stt)
    ensures IsFit(t, y, a, b)
  {
    var z := Line(t, a, b);
    LineSum(t, z, a, b, n, st, Sum(z, |t|));
    LineTimeSum(t, z, a, b, st, stt, Sum(Times(t, z), |t|));
    MinusSum(y, z);
    MinusTimeSum(t, y, z);
  }

  lemma {:induction false} NormalAlgebra(n: real, st: real, sy: real, sty: real, stt: real, d: real, m: real, b: real)
    returns (a: real)
    requires n > 0.0 && d == Cross(n, stt, st, st) && d != 0.0 && m == Cross(n, sty, st, sy) && b == m / d
    ensures Solves(a, b, n, st, sy, sty, stt)
  {
    a := (sy - b * st) / n;
    assert n * a == sy - b * st;
    assert b * d == m;
    assert b * d == n * (b * stt) - st * (b * st);
    assert n * (a * st + b * stt) == (n * a) * st + n * (b * stt);
    assert (n * a) * st == sy * st - b * st * st;
    assert n * (a * st + b * stt) == n * sty;
    CancelEq(a * st + b * stt, sty, n);
  }

  lemma {:induction false} CancelEq(x: real, y: real, n: real)
    requires n > 0.0 && n * x == n * y
    ensures x == y
  {
    assert n * (x - y) == 0.0;
  }

  lemma {:induction false} SquaresNonneg(r: seq<real>, n: nat)
    requires n <= |r|
    ensures Sum(Times(r, r), n) >= 0.0
  {
    if n > 0 {
      SquaresNonneg(r, n - 1);
      Square(r[n - 1], r[n - 1] * r[n - 1]);
      assert Times(r, r)[n - 1] == r[n - 1] * r[n - 1];
    }
  }

  // |r - d|^2 = |r|^2 - 2 r.d + |d|^2
  lemma {:induction false} SquareOfDifference(r: seq<real>, d: seq<real>, v: seq<real>, n: nat)
    requires n <= |r| == |d| == |v| && forall i :: 0 <= i < |r| ==> v[i] == r[i] - d[i]
    ensures Sum(Times(v, v), n) == Sum(Times(r, r), n) - 2.0 * Sum(Times(r, d), n) + Sum(Times(d, d), n)
  {
    if n > 0 {
      var m := n - 1;
      SquareOfDifference(r, d, v, m);
      ProductsGrow(v, v, m);
      ProductsGrow(r, r, m);
      ProductsGrow(r, d, m);
      ProductsGrow(d, d, m);
      ProdDifference(r[m], d[m], v[m]);
    }
  }

  lemma {:induction false} ProdDifference(r: real, d: real, v: real)
    requires v == r - d
    ensures Prod(v, v) == Prod(r, r) - 2.0 * Prod(r, d) + Prod(d, d)
  {
    assert (r - d) * (r - d) == r * r - 2.0 * (r * d) + d * d;
  }

  // A fit's residuals are orthogonal to every line.
  lemma {:induction false} FitOrthogonal(t: seq<real>, r: seq<real>, da: real, db: real)
    requires |t| == |r| && Sum(r, |t|) == 0.0 && Sum(Times(t, r), |t|) == 0.0
    ensures Sum(Times(r, Line(t, da, db)), |t|) == 0.0
  {
    CrossCombines(t, r, da, db);
    SumComb(Times(r, Line(t, da, db)), da, r, db, Times(t, r), |t|, Sum(Times(r, Line(t, da, db)), |t|), 0.0, 0.0);
  }

  lemma {:induction false} CrossCombines(t: seq<real>, r: seq<real>, da: real, db: real)
    requires |t| == |r|
    ensures Combines(Times(r, Line(t, da, db)), da, r, db, Times(t, r))
  {
    forall i | 0 <= i < |t| ensures Times(r, Line(t, da, db))[i] == da * r[i] + db * Times(t, r)[i] {
    }
  }

  lemma {:induction false} FitIsBest(t: seq<real>, y: seq<real>, a0: real, b0: real, a: real, b: real)
    requires |t| == |y| && IsFit(t, y, a0, b0)
    ensures Error(t, y, a0, b0) <= Error(t, y, a, b)
  {
    var r, d, v := Minus(y, Line(t, a0, b0)), Line(t, a - a0, b - b0), Minus(y, Line(t, a, b));
    forall i | 0 <= i < |t| ensures v[i] == r[i] - d[i] {
    }
    SquareOfDifference(r, d, v, |t|);
    FitOrthogonal(t, r, a - a0, b - b0);
    SquaresNonneg(d, |t|);
  }

  // Unless all time stamps coincide, some line with the computed slope has the
  // smallest squared error of all lines.
  lemma {:induction false} SlopeIsLeastSquares(t: seq<real>, y: seq<real>) returns (a0: real)
    requires |t| == |y| && |t| >= 1 && Denominator(t, |t|) != 0.0
    ensures forall a, b :: Error(t, y, a0, SlopeOf(t, y)) <= Error(t, y, a, b)
  {
    a0 := SlopeIsNormal(t, y);
    forall a, b ensures Error(t, y, a0, SlopeOf(t, y)) <= Error(t, y, a, b) {
      FitIsBest(t, y, a0, SlopeOf(t, y), a, b);
    }
  }

  // On readings that lie on a line the slope is that line's.
  lemma {:induction false} AffineSlope(t: seq<real>, a: real, b: real)
    requires |t| >= 1 && Denominator(t, |t|) != 0.0
    ensures SlopeOf(t, Line(t, a, b)) == b
  {
    var n, y := |t|, Line(t, a, b);
    var st, sy, sty, stt := Sum(t, n), Sum(y, n), Sum(Times(t, y), n), Sum(Times(t, t), n);
    LineSum(t, y, a, b, n as real, st, sy);
    LineTimeSum(t, y, a, b, st, stt, sty);
    AffineAlgebra(n as real, st, sy, sty, stt, a, b, Denominator(t, n), Numerator(t, y, n));
  }

  lemma {:induction false} AffineAlgebra(n: real, st: real, sy: real, sty: real, stt: real, a: real, b: real, d: real,
      m: real)
    requires sy == a * n + b * st && sty == a * st + b * stt
    requires d == Cross(n, stt, st, st) && d != 0.0 && m == Cross(n, sty, st, sy)
    ensures m / d == b
  {
    assert n * (a * st + b * stt) == n * a * st + b * (n * stt);
    assert st * (a * n + b * st) == n * a * st + b * (st * st);
    assert m == b * (n * stt) - b * (st * st);
    assert m == b * d;
  }
}
