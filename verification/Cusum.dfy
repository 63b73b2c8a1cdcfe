// The ICS profile's running statistics of one sensor: two-sided CUSUM, EWMA,
// trend and the mean pooled over all windows, over exact reals.
module Cusum {
  import opened LinearLayer
  import opened Arithmetic
  import opened Slope

  const ALPHA := 0.3
  const ALLOWANCE := 0.5
  const THRESHOLD := 2.0

  function Max(a: real, b: real): real { if a >= b then a else b }

  function Min(a: real, b: real): real { if a <= b then a else b }

  // --- CUSUM -----------------------------------------------------------------

  function CusumUp(r: seq<int>, mean: real, start: real, n: nat): real
    requires n <= |r|
  {
    if n == 0 then start
    else Max(0.0, CusumUp(r, mean, start, n - 1) + (r[n - 1] as real - mean) - ALLOWANCE)
  }

  function CusumDown(r: seq<int>, mean: real, start: real, n: nat): real
    requires n <= |r|
  {
    if n == 0 then start
    else Min(0.0, CusumDown(r, mean, start, n - 1) + (r[n - 1] as real - mean) + ALLOWANCE)
  }

  method Accumulate(a: array<int>, n: nat, mean: real, up0: real, down0: real) returns (up: real, down: real)
    requires n <= a.Length
    ensures up == CusumUp(a[..], mean, up0, n) && down == CusumDown(a[..], mean, down0, n)
  {
    up, down := up0, down0;
    for i := 0 to n
      invariant up == CusumUp(a[..], mean, up0, i) && down == CusumDown(a[..], mean, down0, i)
    {
      var d := a[i] as real - mean;
      up := Max(0.0, up + d - ALLOWANCE);
      down := Min(0.0, down + d + ALLOWANCE);
    }
  }

  // How far each reading is above the mean, less the allowance.
  function Excess(r: seq<int>, mean: real): seq<real> {
    seq(|r|, i requires 0 <= i < |r| => r[i] as real - mean - ALLOWANCE)
  }

  // The sum of the terms from j up to n.
  function Rise(v: seq<real>, j: nat, n: nat): real
    requires j <= n <= |v|
  {
    Sum(v, n) - Sum(v, j)
  }

  // c is the largest of all sums of a suffix (the empty one is zero) and of
  // the carried value plus everything.
  ghost predicate IsPeak(c: real, v: seq<real>, start: real, n: nat)
    requires n <= |v|
  {
    && c >= start + Sum(v, n)
    && (forall j: nat :: j <= n ==> c >= Rise(v, j, n))
    && (c == start + Sum(v, n) || exists j: nat :: j <= n && c == Rise(v, j, n))
  }

  lemma {:induction false} PeakStep(c: real, v: seq<real>, start: real, n: nat)
    requires n < |v| && IsPeak(c, v, start, n) && c >= 0.0
    ensures IsPeak(Max(0.0, c + v[n]), v, start, n + 1)
  {
    var c' := Max(0.0, c + v[n]);
    assert Rise(v, n + 1, n + 1) == 0.0;
    var m := n + 1;
    forall j: nat | j <= m ensures c' >= Rise(v, j, m) {
      if j <= n { assert Rise(v, j, m) == Rise(v, j, n) + v[n]; }
    }
    if c' != 0.0 && c' != start + Sum(v, n + 1) {
      var j: nat :| j <= n && c == Rise(v, j, n);
      assert c' == Rise(v, j, n + 1);
    }
  }

  // The recursion of the code, in closed form.
  lemma {:induction false} CusumIsPeak(r: seq<int>, mean: real, start: real, n: nat)
    requires n <= |r| && start >= 0.0
    ensures CusumUp(r, mean, start, n) >= 0.0
    ensures IsPeak(CusumUp(r, mean, start, n), Excess(r, mean), start, n)
  {
    var v := Excess(r, mean);
    if n == 0 {
      assert Rise(v, 0, 0) == 0.0;
    } else {
      CusumIsPeak(r, mean, start, n - 1);
      PeakStep(CusumUp(r, mean, start, n - 1), v, start, n - 1);
    }
  }

  function Negated(r: seq<int>): seq<int> {
    seq(|r|, i requires 0 <= i < |r| => -r[i])
  }

  // The lower sum is the upper one of the mirrored readings.
  lemma {:induction false} CusumMirror(r: seq<int>, mean: real, start: real, n: nat)
    requires n <= |r|
    ensures CusumDown(r, mean, start, n) == -CusumUp(Negated(r), -mean, -start, n)
  {
    if n > 0 {
      CusumMirror(r, mean, start, n - 1);
      assert Negated(r)[n - 1] as real == -(r[n - 1] as real);
    }
  }

  // Some stretch of readings up to the last one rises above the threshold,
  // alone or on top of what was carried in.
  ghost predicate Drifts(r: seq<int>, mean: real, start: real) {
    var v := Excess(r, mean);
    start + Sum(v, |r|) > THRESHOLD || exists j: nat :: j <= |r| && Rise(v, j, |r|) > THRESHOLD
  }

  lemma {:induction false} UpDrifts(r: seq<int>, mean: real, start: real)
    requires start >= 0.0
    ensures CusumUp(r, mean, start, |r|) > THRESHOLD <==> Drifts(r, mean, start)
  {
    CusumIsPeak(r, mean, start, |r|);
  }

  lemma {:induction false} DownDrifts(r: seq<int>, mean: real, start: real)
    requires start <= 0.0
    ensures CusumDown(r, mean, start, |r|) <= 0.0
    ensures Abs(CusumDown(r, mean, start, |r|)) > THRESHOLD <==> Drifts(Negated(r), -mean, -start)
  {
    CusumMirror(r, mean, start, |r|);
    CusumIsPeak(Negated(r), -mean, -start, |r|);
    UpDrifts(Negated(r), -mean, -start);
  }

  // --- EWMA --------------------------------------------------------------------

  function Ewma(r: seq<int>, n: nat): real
    requires 1 <= n <= |r|
  {
    if n == 1 then r[0] as real else ALPHA * r[n - 1] as real + (1.0 - ALPHA) * Ewma(r, n - 1)
  }

  method Smooth(a: array<int>, n: nat) returns (e: real)
    requires 1 <= n <= a.Length
    ensures e == Ewma(a[..], n)
  {
    e := a[0] as real;
    for i := 1 to n
      invariant e == Ewma(a[..], i)
    {
      e := ALPHA * a[i] as real + (1.0 - ALPHA) * e;
    }
  }

  lemma {:induction false} EwmaWithin(r: seq<int>, n: nat, lo: real, hi: real)
    requires 1 <= n <= |r| && forall i :: 0 <= i < n ==> lo <= r[i] as real <= hi
    ensures lo <= Ewma(r, n) <= hi
  {
    if n > 1 { EwmaWithin(r, n - 1, lo, hi); }
  }

  // x after k further readings.
  function Faded(x: real, k: nat): real {
    if k == 0 then x else (1.0 - ALPHA) * Faded(x, k - 1)
  }

  // The first reading and the weighted later ones, each faded by its age.
  function Shares(r: seq<int>, n: nat): seq<real>
    requires 1 <= n <= |r|
  {
    seq(n, i requires 0 <= i < n => Faded(if i == 0 then r[0] as real else ALPHA * r[i] as real, n - 1 - i))
  }

  lemma {:induction false} SumFades(a: seq<real>, b: seq<real>, n: nat)
    requires n <= |a| && n <= |b| && forall i :: 0 <= i < n ==> a[i] == (1.0 - ALPHA) * b[i]
    ensures Sum(a, n) == (1.0 - ALPHA) * Sum(b, n)
  {
    if n > 0 { SumFades(a, b, n - 1); }
  }

  // The recursion is the sum of all readings, weighted by age.
  lemma {:induction false} EwmaIsWeighted(r: seq<int>, n: nat)
    requires 1 <= n <= |r|
    ensures Ewma(r, n) == Sum(Shares(r, n), n)
  {
    var s := Shares(r, n);
    if n == 1 {
      assert Sum(s, 1) == Sum(s, 0) + s[0];
    } else {
      EwmaIsWeighted(r, n - 1);
      SumFades(s, Shares(r, n - 1), n - 1);
      assert s[n - 1] == ALPHA * r[n - 1] as real;
    }
  }

  // --- trend ---------------------------------------------------------------------

  function Rising(r: seq<int>, n: nat): nat
    requires n <= |r|
  {
    if n <= 1 then 0 else Rising(r, n - 1) + if r[n - 1] > r[n - 2] then 1 else 0
  }

  function Falling(r: seq<int>, n: nat): nat
    requires n <= |r|
  {
    if n <= 1 then 0 else Falling(r, n - 1) + if r[n - 1] < r[n - 2] then 1 else 0
  }

  method CountTrend(a: array<int>, n: nat) returns (rising: nat, falling: nat)
    requires 1 <= n <= a.Length
    ensures rising == Rising(a[..], n) && falling == Falling(a[..], n)
  {
    rising, falling := 0, 0;
    for i := 1 to n
      invariant rising == Rising(a[..], i) && falling == Falling(a[..], i)
    {
      if a[i] > a[i - 1] { rising := rising + 1; }
      else if a[i] < a[i - 1] { falling := falling + 1; }
    }
  }

  function Trend(r: seq<int>): real
    requires |r| >= 2
  {
    Abs((Rising(r, |r|) - Falling(r, |r|)) as real / (|r| - 1) as real)
  }

  lemma {:induction false} TrendCounts(r: seq<int>, n: nat)
    requires 1 <= n <= |r|
    ensures Rising(r, n) + Falling(r, n) <= n - 1
    ensures Rising(r, n) == n - 1 <==> forall i :: 1 <= i < n ==> r[i] > r[i - 1]
    ensures Falling(r, n) == n - 1 <==> forall i :: 1 <= i < n ==> r[i] < r[i - 1]
  {
    if n > 1 { TrendCounts(r, n - 1); }
  }

  lemma {:induction false} Ratio(d: int, n: int)
    requires n >= 1 && -n <= d <= n
    ensures 0.0 <= Abs(d as real / n as real) <= 1.0
    ensures Abs(d as real / n as real) == 1.0 <==> d == n || d == -n
  {
    var q := d as real / n as real;
    RatioBounds(q, d as real, n as real);
  }

  lemma {:induction false} RatioBounds(q: real, d: real, n: real)
    requires n > 0.0 && -n <= d <= n && q == d / n
    ensures -1.0 <= q <= 1.0
    ensures q == 1.0 <==> d == n
    ensures q == -1.0 <==> d == -n
  {
    CancelLe(-1.0, q, n);
    CancelLe(q, 1.0, n);
    if d == n { CancelEq(q, 1.0, n); }
    if d == -n { CancelEq(q, -1.0, n); }
  }

  // Consistency is one exactly for strictly monotone readings.
  lemma {:induction false} TrendIsConsistency(r: seq<int>)
    requires |r| >= 2
    ensures 0.0 <= Trend(r) <= 1.0
    ensures Trend(r) == 1.0 <==>
            (forall i :: 1 <= i < |r| ==> r[i] > r[i - 1]) || (forall i :: 1 <= i < |r| ==> r[i] < r[i - 1])
  {
    TrendCounts(r, |r|);
    Ratio(Rising(r, |r|) - Falling(r, |r|), |r| - 1);
  }
}
