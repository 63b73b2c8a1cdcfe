// What the sixteen features of a sensor's window say about its readings and
// time stamps, and about the windows before it.
module SensorMeaning {
  import opened LinearLayer
  import opened Arithmetic
  import opened Stats
  import opened Slope
  import opened Cusum
  import opened Sensor
  import opened Ics
  import opened IcsProfile
  import Iot

  // s is the sum of r, added up one after another.
  ghost predicate AddsTo(s: int, r: seq<int>) {
    exists p: seq<int> :: IsRunning(p, r) && s == p[|r|]
  }

  ghost predicate IsRunning(p: seq<int>, r: seq<int>) {
    |p| == |r| + 1 && p[0] == 0 && forall i :: 0 <= i < |r| ==> p[i + 1] == p[i] + r[i]
  }

  lemma {:induction false} SumAddsTo(r: seq<int>)
    ensures AddsTo(SumAll(r, |r|), r)
  {
    var p := seq(|r| + 1, i requires 0 <= i < |r| + 1 => SumAll(r, i));
    assert IsRunning(p, r);
  }

  // --- the window alone ---------------------------------------------------------

  // Time from each stamp to the next, none when the clock runs backwards.
  ghost predicate AreGaps(g: seq<nat>, t: seq<nat>) {
    |g| + 1 == |t| && forall i :: 0 <= i < |g| ==> g[i] == if t[i + 1] >= t[i] then t[i + 1] - t[i] else 0
  }

  ghost predicate InTicks(micros: real, hz: real, ticks: real) { micros * hz == ticks * 1000000.0 }

  // Least, greatest and mean gap, in microseconds.
  ghost predicate GapsMean(f: seq<real>, t: seq<nat>, hz: real)
    requires |f| == 16
  {
    exists g: seq<nat>, lo: nat, hi: nat, s: int ::
      AreGaps(g, t) && IsMin(lo, g) && IsMax(hi, g) && AddsTo(s, g)
      && InTicks(f[3], hz, lo as real) && InTicks(f[4], hz, hi as real) && InTicks(f[5] * |g| as real, hz, s as real)
  }

  // Minimum, maximum, mean and range of the readings.
  ghost predicate ExtentMeans(f: seq<real>, r: seq<int>)
    requires |f| == 16
  {
    exists lo: int, hi: int, s: int ::
      IsLeast(lo, r) && IsGreatest(hi, r) && AddsTo(s, r)
      && f[0] == lo as real && f[1] == hi as real && f[2] * |r| as real == s as real && f[6] == (hi - lo) as real
  }

  // Seconds since the first stamp on the 64-bit clock, and the readings.
  ghost predicate ArePoints(x: seq<real>, y: seq<real>, r: seq<int>, t: seq<nat>, hz: real)
    requires hz > 0.0
  {
    && |x| == |y| == |r| == |t|
    && forall i :: 0 <= i < |r| ==> y[i] == r[i] as real && x[i] == ((t[i] as int - t[0] as int) % U64) as real / hz
  }

  // b is the slope of a line with the least squared error through the points,
  // or zero when all stamps are equal.
  ghost predicate IsBestSlope(b: real, r: seq<int>, t: seq<nat>, hz: real)
    requires hz > 0.0
  {
    if forall i :: 0 <= i < |t| ==> t[i] == t[0] then b == 0.0
    else exists x, y, a :: ArePoints(x, y, r, t, hz) && NoBetterLine(x, y, a, b)
  }

  ghost predicate NoBetterLine(x: seq<real>, y: seq<real>, a: real, b: real) {
    |x| == |y| && forall a', b' :: Error(x, y, a, b) <= Error(x, y, a', b')
  }

  // --- what is carried in ---------------------------------------------------------

  // Powers of 0.7: what a reading keeps of its weight after k later ones.
  ghost predicate AreFades(d: seq<real>, n: nat) {
    |d| == n && (n > 0 ==> d[0] == 1.0) && forall k :: 0 <= k < n - 1 ==> d[k + 1] == 0.7 * d[k]
  }

  // Sums of the readings weighted by age: 0.3 each, the first one in full.
  ghost predicate AreWeighted(p: seq<real>, d: seq<real>, r: seq<int>) {
    && |p| == |d| == |r| >= 1 && p[0] == d[|r| - 1] * r[0] as real
    && forall i :: 1 <= i < |r| ==> p[i] == p[i - 1] + 0.3 * d[|r| - 1 - i] * r[i] as real
  }

  ghost predicate IsSmoothed(e: real, r: seq<int>)
    requires |r| >= 1
  {
    exists d, p :: AreFades(d, |r|) && AreWeighted(p, d, r) && e == p[|r| - 1]
  }

  // v is how far each reading lies above the mean, less the allowance, or with
  // a negative sign how far below.
  ghost predicate AreExcesses(v: seq<real>, r: seq<int>, mean: real, sign: real) {
    |v| == |r| && forall i :: 0 <= i < |r| ==> v[i] == sign * (r[i] as real - mean) - 0.5
  }

  ghost predicate IsPeakOver(c: real, r: seq<int>, mean: real, sign: real, start: real) {
    exists v :: AreExcesses(v, r, mean, sign) && IsPeak(c, v, start, |r|)
  }

  ghost predicate RisesAt(r: seq<int>, i: nat) { 1 <= i < |r| && r[i] > r[i - 1] }

  ghost predicate FallsAt(r: seq<int>, i: nat) { 1 <= i < |r| && r[i] < r[i - 1] }

  ghost function Rises(r: seq<int>): set<nat> { set i: nat | i < |r| && RisesAt(r, i) }

  ghost function Falls(r: seq<int>): set<nat> { set i: nat | i < |r| && FallsAt(r, i) }

  // The share of steps that rise, less those that fall, without its sign.
  ghost predicate IsConsistency(x: real, r: seq<int>)
    requires |r| >= 2
  {
    var net, n := |Rises(r)| - |Falls(r)|, (|r| - 1) as real;
    x * n == if net >= 0 then net as real else -(net as real)
  }

  // The features that depend on earlier windows: the average, its change from
  // ewma and the change relative to it; the greatest rise above the mean on top
  // of up and fall below it on top of low, the greater of the two, and whether
  // it passes two; and the consistency of the trend.
  ghost predicate Drifted(f: seq<real>, r: seq<int>, mean: real, ewma: real, up: real, low: real) {
    && |f| == 16 && |r| >= 2
    && IsSmoothed(f[8], r) && f[9] == f[8] - ewma
    && f[10] * ((if f[8] >= 0.0 then f[8] else -f[8]) + 0.00000001) == (if f[9] >= 0.0 then f[9] else -f[9])
    && IsPeakOver(f[11], r, mean, 1.0, up) && IsPeakOver(f[12], r, mean, -1.0, low)
    && f[13] >= f[11] && f[13] >= f[12] && (f[13] == f[11] || f[13] == f[12])
    && f[14] == (if f[13] > 2.0 then 1.0 else 0.0)
    && IsConsistency(f[15], r)
  }

  // The mean over everything counted so far and this window, on the 32-bit count.
  ghost predicate IsPooled(m: real, c: Carry, r: seq<int>) {
    exists s: int :: AddsTo(s, r) &&
      var n := (c.total + |r|) % U32;
      if c.total == 0 then m * |r| as real == s as real
      else if n == 0 then m == 0.0
      else m * n as real == c.mean * c.total as real + s as real
  }

  // --- proofs -------------------------------------------------------------------

  lemma {:induction false} FadedIs(d: seq<real>, n: nat, x: real, k: nat)
    requires AreFades(d, n) && k < n
    ensures Faded(x, k) == d[k] * x
  {
    if k > 0 { FadedIs(d, n, x, k - 1); }
  }

  function Fades(n: nat): seq<real> {
    if n == 0 then [] else Fades(n - 1) + [Faded(1.0, n - 1)]
  }

  lemma {:induction false} FadesAre(n: nat)
    ensures |Fades(n)| == n && forall k :: 0 <= k < n ==> Fades(n)[k] == Faded(1.0, k)
  {
    if n > 0 { FadesAre(n - 1); }
  }

  lemma {:induction false} SharesFade(r: seq<int>, d: seq<real>, i: nat)
    requires i < |r| && AreFades(d, |r|)
    ensures Shares(r, |r|)[i] == if i == 0 then d[|r| - 1] * r[0] as real else 0.3 * d[|r| - 1 - i] * r[i] as real
  {
    FadedIs(d, |r|, if i == 0 then r[0] as real else ALPHA * r[i] as real, |r| - 1 - i);
  }

  lemma {:induction false} FadesStep(n: nat)
    ensures AreFades(Fades(n), n)
  {
    FadesAre(n);
  }

  lemma {:induction false} SumsWeighted(r: seq<int>, d: seq<real>, p: seq<real>)
    requires |r| >= 1 && AreFades(d, |r|) && |p| == |r|
    requires forall i :: 0 <= i < |r| ==> p[i] == Sum(Shares(r, |r|), i + 1)
    ensures AreWeighted(p, d, r)
  {
    var s := Shares(r, |r|);
    SharesFade(r, d, 0);
    assert Sum(s, 1) == Sum(s, 0) + s[0];
    forall i | 1 <= i < |r| ensures p[i] == p[i - 1] + 0.3 * d[|r| - 1 - i] * r[i] as real {
      SharesFade(r, d, i);
      assert Sum(s, i + 1) == Sum(s, i) + s[i];
    }
  }

  lemma {:induction false} Smoothed(r: seq<int>)
    requires |r| >= 1
    ensures IsSmoothed(Ewma(r, |r|), r)
  {
    var n, d, s := |r|, Fades(|r|), Shares(r, |r|);
    var p := seq(n, i requires 0 <= i < n => Sum(s, i + 1));
    FadesStep(n);
    EwmaIsWeighted(r, n);
    SumsWeighted(r, d, p);
  }

  lemma {:induction false} UpPeaks(r: seq<int>, mean: real, start: real)
    requires start >= 0.0
    ensures IsPeakOver(CusumUp(r, mean, start, |r|), r, mean, 1.0, start)
  {
    CusumIsPeak(r, mean, start, |r|);
    assert AreExcesses(Excess(r, mean), r, mean, 1.0);
  }

  lemma {:induction false} DownPeaks(r: seq<int>, mean: real, start: real)
    requires start <= 0.0
    ensures CusumDown(r, mean, start, |r|) <= 0.0
    ensures IsPeakOver(-CusumDown(r, mean, start, |r|), r, mean, -1.0, -start)
  {
    CusumMirror(r, mean, start, |r|);
    CusumIsPeak(Negated(r), -mean, -start, |r|);
    var v := Excess(Negated(r), -mean);
    forall i | 0 <= i < |r| ensures v[i] == -1.0 * (r[i] as real - mean) - 0.5 {
      assert Negated(r)[i] as real == -(r[i] as real);
    }
    assert AreExcesses(v, r, mean, -1.0);
  }

  lemma {:induction false} RisesNext(r: seq<int>, n: nat)
    requires n < |r|
    ensures n !in Rises(r[..n]) && Rises(r[..n + 1]) == Rises(r[..n]) + if RisesAt(r, n) then {n} else {}
  {
    forall i: nat | i < n ensures RisesAt(r[..n + 1], i) <==> RisesAt(r[..n], i) {}
    assert RisesAt(r[..n + 1], n) <==> RisesAt(r, n);
  }

  lemma {:induction false} FallsNext(r: seq<int>, n: nat)
    requires n < |r|
    ensures n !in Falls(r[..n]) && Falls(r[..n + 1]) == Falls(r[..n]) + if FallsAt(r, n) then {n} else {}
  {
    forall i: nat | i < n ensures FallsAt(r[..n + 1], i) <==> FallsAt(r[..n], i) {}
    assert FallsAt(r[..n + 1], n) <==> FallsAt(r, n);
  }

  lemma {:induction false} RisesCounted(r: seq<int>, n: nat)
    requires n <= |r|
    ensures Rising(r, n) == |Rises(r[..n])|
  {
    if n == 0 {
      assert Rises(r[..0]) == {};
    } else {
      RisesCounted(r, n - 1);
      RisesNext(r, n - 1);
    }
  }

  lemma {:induction false} FallsCounted(r: seq<int>, n: nat)
    requires n <= |r|
    ensures Falling(r, n) == |Falls(r[..n])|
  {
    if n == 0 {
      assert Falls(r[..0]) == {};
    } else {
      FallsCounted(r, n - 1);
      FallsNext(r, n - 1);
    }
  }

  lemma {:induction false} ConsistentIs(x: real, r: seq<int>, net: int)
    requires |r| >= 2 && net == |Rises(r)| - |Falls(r)| && x == Abs(net as real / (|r| - 1) as real)
    ensures IsConsistency(x, r)
  {
    AbsQuotient(net as real, (|r| - 1) as real);
  }

  lemma {:induction false} Consistent(r: seq<int>)
    requires |r| >= 2
    ensures IsConsistency(Trend(r), r)
  {
    RisesCounted(r, |r|);
    FallsCounted(r, |r|);
    assert r[..|r|] == r;
    ConsistentIs(Trend(r), r, Rising(r, |r|) - Falling(r, |r|));
  }

  lemma {:induction false} AbsQuotient(a: real, n: real)
    requires n > 0.0
    ensures Abs(a / n) * n == if a >= 0.0 then a else -a
  {
    var q := a / n;
    assert q * n == a;
    if a >= 0.0 { CancelLe(0.0, q, n); } else { CancelLe(q, 0.0, n); }
  }

  lemma {:induction false} Pooled(c: Carry, r: seq<int>)
    requires |r| >= 1
    ensures IsPooled(PooledMean(c, r), c, r)
  {
    var s := SumAll(r, |r|);
    SumAddsTo(r);
    MeanTimes(s, |r|);
    var n := (c.total + |r|) % U32;
    if c.total != 0 { PoolIs(c.mean, c.total, MeanOf(r), |r|, n); }
  }

  lemma {:induction false} PoolIs(before: real, total: nat, mean: real, k: nat, n: nat)
    requires total != 0 && n == (total + k) % U32
    ensures if n == 0 then Pool(before, total, mean, k) == 0.0
            else Pool(before, total, mean, k) * n as real == before * total as real + mean * k as real
  {
    if n != 0 { QuotientTimes(before * total as real + mean * k as real, n as real); }
  }

  lemma {:induction false} QuotientTimes(x: real, d: real)
    requires d != 0.0
    ensures Quotient(x, d) * d == x
  {}

  lemma {:induction false} MeanTimes(s: int, n: nat)
    requires n >= 1
    ensures s as real / n as real * n as real == s as real
  {}

  lemma {:induction false} Relative(e: real, d: real)
    ensures Abs(d) / (Abs(e) + 0.00000001) * ((if e >= 0.0 then e else -e) + 0.00000001) == if d >= 0.0 then d else -d
  {
    QuotientTimes(Abs(d), Abs(e) + 0.00000001);
  }

  lemma {:induction false} DriftFeatures(c: Carry, r: seq<int>, t: seq<nat>, hz: real)
    requires |r| == |t| >= 2 && hz > 0.0
    ensures var f, c' := Vector(c, r, t, hz), Next(c, r);
            && f[8] == c'.ewma && f[9] == f[8] - c.ewma && f[10] == Abs(f[9]) / (Abs(f[8]) + 0.00000001)
            && f[11] == c'.up && f[12] == Abs(c'.down) && f[13] == Max(f[11], f[12])
            && f[14] == Alarm(c'.up, c'.down) && f[15] == Trend(r)
  {
    var base := Base(r, t, hz);
    var f := Vector(c, r, t, hz);
    assert forall i :: 8 <= i < 16 ==> f[i] == f[8..][i - 8];
  }

  lemma {:induction false} DriftedIf(f: seq<real>, r: seq<int>, m: real, e: real, up: real, low: real)
    requires |f| == 16 && |r| >= 2 && IsSmoothed(f[8], r) && IsConsistency(f[15], r)
    requires f[9] == f[8] - e && f[10] == Abs(f[9]) / (Abs(f[8]) + 0.00000001)
    requires IsPeakOver(f[11], r, m, 1.0, up) && IsPeakOver(f[12], r, m, -1.0, low) && f[12] >= 0.0
    requires f[13] == Max(f[11], f[12]) && f[14] == Alarm(f[11], -f[12])
    ensures Drifted(f, r, m, e, up, low)
  {
    Relative(f[8], f[9]);
  }

  lemma {:induction false} NextMeans(c: Carry, r: seq<int>, c': Carry)
    requires |r| >= 2 && c.up >= 0.0 && c.down <= 0.0 && c' == Next(c, r)
    ensures IsSmoothed(c'.ewma, r) && c'.up >= 0.0 && c'.down <= 0.0
    ensures IsPeakOver(c'.up, r, PooledMean(c, r), 1.0, c.up)
    ensures IsPeakOver(-c'.down, r, PooledMean(c, r), -1.0, -c.down)
  {
    var m := PooledMean(c, r);
    Smoothed(r);
    CusumIsPeak(r, m, c.up, |r|);
    UpPeaks(r, m, c.up);
    DownPeaks(r, m, c.down);
  }

  lemma {:induction false} DriftMeans(c: Carry, r: seq<int>, t: seq<nat>, hz: real)
    requires |r| == |t| >= 2 && hz > 0.0 && c.up >= 0.0 && c.down <= 0.0
    ensures Drifted(Vector(c, r, t, hz), r, PooledMean(c, r), c.ewma, c.up, -c.down)
  {
    DriftFeatures(c, r, t, hz);
    NextMeans(c, r, Next(c, r));
    Consistent(r);
    DriftedIf(Vector(c, r, t, hz), r, PooledMean(c, r), c.ewma, c.up, -c.down);
  }

  lemma {:induction false} TicksOf(ticks: real, hz: real)
    requires hz > 0.0
    ensures InTicks(Iot.Micros(ticks, hz), hz, ticks)
  {}

  lemma {:induction false} TicksTimes(ticks: real, hz: real, n: real)
    requires hz > 0.0 && n > 0.0
    ensures InTicks(Iot.Micros(ticks / n, hz) * n, hz, ticks)
  {
    TicksOf(ticks / n, hz);
    var q := ticks / n;
    assert q * n == ticks;
    assert Iot.Micros(q, hz) * hz == q * 1000000.0;
    assert Iot.Micros(q, hz) * n * hz == Iot.Micros(q, hz) * hz * n;
  }

  lemma {:induction false} BaseFeatures(c: Carry, r: seq<int>, t: seq<nat>, hz: real, i: nat)
    requires |r| == |t| >= 2 && hz > 0.0 && i < 8
    ensures Vector(c, r, t, hz)[i] == Base(r, t, hz)[i]
  {}

  lemma {:induction false} LeastGap(t: seq<nat>) returns (lo: nat, hi: nat)
    requires |t| >= 2 && forall i :: 0 <= i < |t| ==> t[i] < U64
    ensures lo == Lowest(Gaps(t), |t| - 1, U64 - 1) && hi == Highest(Gaps(t), |t| - 1, 0)
    ensures IsMin(lo, Gaps(t)) && IsMax(hi, Gaps(t)) && AreGaps(Gaps(t), t)
  {
    var g, m := Gaps(t), |t| - 1;
    LowestIs(g, m, U64 - 1);
    HighestIs(g, m, 0);
    lo, hi := Lowest(g, m, U64 - 1), Highest(g, m, 0);
  }

  lemma {:induction false} GapFeatures(c: Carry, r: seq<int>, t: seq<nat>, hz: real)
    requires |r| == |t| >= 2 && hz > 0.0
    ensures var f, g, m := Vector(c, r, t, hz), Gaps(t), |t| - 1;
            && f[3] == Iot.Micros(Lowest(g, m, U64 - 1) as real, hz) && f[4] == Iot.Micros(Highest(g, m, 0) as real, hz)
            && f[5] == Iot.Micros(SumAll(g, m) as real / m as real, hz)
  {
    BaseFeatures(c, r, t, hz, 3);
    BaseFeatures(c, r, t, hz, 4);
    BaseFeatures(c, r, t, hz, 5);
  }

  lemma {:induction false} GapsMeanIf(f: seq<real>, t: seq<nat>, hz: real, g: seq<nat>, lo: nat, hi: nat, s: int)
    requires |f| == 16 && hz > 0.0 && g != [] && AreGaps(g, t) && IsMin(lo, g) && IsMax(hi, g) && AddsTo(s, g)
    requires f[3] == Iot.Micros(lo as real, hz) && f[4] == Iot.Micros(hi as real, hz)
    requires f[5] == Iot.Micros(s as real / |g| as real, hz)
    ensures GapsMean(f, t, hz)
  {
    TicksOf(lo as real, hz);
    TicksOf(hi as real, hz);
    TicksTimes(s as real, hz, |g| as real);
  }

  lemma {:induction false} GapsDescribed(c: Carry, r: seq<int>, t: seq<nat>, hz: real)
    requires |r| == |t| >= 2 && hz > 0.0 && forall i :: 0 <= i < |t| ==> t[i] < U64
    ensures GapsMean(Vector(c, r, t, hz), t, hz)
  {
    var lo, hi := LeastGap(t);
    SumAddsTo(Gaps(t));
    GapFeatures(c, r, t, hz);
    GapsMeanIf(Vector(c, r, t, hz), t, hz, Gaps(t), lo, hi, SumAll(Gaps(t), |t| - 1));
  }

  lemma {:induction false} ExtentFeatures(c: Carry, r: seq<int>, t: seq<nat>, hz: real)
    requires |r| == |t| >= 2 && hz > 0.0
    ensures var f, n := Vector(c, r, t, hz), |r|;
            var lo, hi := Lowest(r, n, I32_MAX), Highest(r, n, I32_MIN);
            f[0] == lo as real && f[1] == hi as real && f[2] == MeanOf(r) && f[6] == (hi - lo) as real
  {
    BaseFeatures(c, r, t, hz, 0);
    BaseFeatures(c, r, t, hz, 1);
    BaseFeatures(c, r, t, hz, 2);
    BaseFeatures(c, r, t, hz, 6);
  }

  lemma {:induction false} ExtentIf(f: seq<real>, r: seq<int>, lo: int, hi: int, s: int)
    requires |f| == 16 && r != [] && IsLeast(lo, r) && IsGreatest(hi, r) && AddsTo(s, r)
    requires f[0] == lo as real && f[1] == hi as real && f[2] == s as real / |r| as real && f[6] == (hi - lo) as real
    ensures ExtentMeans(f, r)
  {
    MeanTimes(s, |r|);
  }

  lemma {:induction false} ExtentDescribed(c: Carry, r: seq<int>, t: seq<nat>, hz: real)
    requires |r| == |t| >= 2 && hz > 0.0 && forall i :: 0 <= i < |r| ==> I32_MIN <= r[i] <= I32_MAX
    ensures ExtentMeans(Vector(c, r, t, hz), r)
  {
    LowestIs(r, |r|, I32_MAX);
    HighestIs(r, |r|, I32_MIN);
    SumAddsTo(r);
    ExtentFeatures(c, r, t, hz);
    ExtentIf(Vector(c, r, t, hz), r, Lowest(r, |r|, I32_MAX), Highest(r, |r|, I32_MIN), SumAll(r, |r|));
  }

  lemma {:induction false} SlopeDescribed(c: Carry, r: seq<int>, t: seq<nat>, hz: real)
    requires |r| == |t| >= 2 && hz > 0.0 && forall i :: 0 <= i < |t| ==> t[i] < U64
    ensures IsBestSlope(Vector(c, r, t, hz)[7], r, t, hz)
  {
    var x, y := Seconds(t, |t|, hz), Reals(r, |r|);
    BaseFeatures(c, r, t, hz, 7);
    DenominatorZeroIff(t, hz);
    if !(forall i :: 0 <= i < |t| ==> t[i] == t[0]) {
      var a := SlopeIsLeastSquares(x, y);
      assert ArePoints(x, y, r, t, hz) && NoBetterLine(x, y, a, SlopeOf(x, y));
    }
  }

  // Every feature of a window by its readings and stamps, for anything carried in.
  lemma {:induction false} VectorMeans(c: Carry, r: seq<int>, t: seq<nat>, hz: real)
    requires |r| == |t| >= 2 && hz > 0.0 && c.up >= 0.0 && c.down <= 0.0
    requires forall i :: 0 <= i < |t| ==> t[i] < U64 && I32_MIN <= r[i] <= I32_MAX
    ensures var f := Vector(c, r, t, hz);
            && ExtentMeans(f, r) && GapsMean(f, t, hz) && IsBestSlope(f[7], r, t, hz)
            && exists m :: IsPooled(m, c, r) && Drifted(f, r, m, c.ewma, c.up, -c.down)
  {
    ExtentDescribed(c, r, t, hz);
    GapsDescribed(c, r, t, hz);
    SlopeDescribed(c, r, t, hz);
    DriftMeans(c, r, t, hz);
    Pooled(c, r);
  }

  // --- over a sensor's windows ------------------------------------------------------

  lemma {:induction false} CarriedSigns(chunks: seq<seq<Sample>>, first: int)
    requires AllFull(chunks)
    ensures CarryAfter(ReadingsOf(chunks), first).up >= 0.0 && CarryAfter(ReadingsOf(chunks), first).down <= 0.0
  {
    if chunks != [] {
      var before, c := chunks[..|chunks| - 1], chunks[|chunks| - 1];
      CarriedSigns(before, first);
      assert chunks == before + [c];
      CarrySnoc(before, c, first);
      var k := CarryAfter(ReadingsOf(before), first);
      CusumIsPeak(Readings(c), PooledMean(k, Readings(c)), k.up, |c|);
      DownPeaks(Readings(c), PooledMean(k, Readings(c)), k.down);
    }
  }

  // What a window carries on is in its vector.
  lemma {:induction false} CarriedOn(chunks: seq<seq<Sample>>, first: int, hz: real, i: nat)
    requires AllFull(chunks) && hz > 0.0 && i < |chunks|
    ensures var f, k := VectorAt(chunks, first, hz, i), CarryAfter(ReadingsOf(chunks[..i + 1]), first);
            |f| == 16 && k.ewma == f[8] && k.up == f[11] && k.down == -f[12]
  {
    var c, before := chunks[i], CarryAfter(ReadingsOf(chunks[..i]), first);
    assert chunks[..i + 1] == chunks[..i] + [c];
    CarrySnoc(chunks[..i], c, first);
    CarriedSigns(chunks[..i + 1], first);
    DriftFeatures(before, Readings(c), Stamps(c), hz);
  }

  // The mean of all the readings, while their number fits 32 bits.
  ghost predicate IsHistorical(m: real, all: seq<seq<int>>) {
    Count(all) < U32 ==> Averages(m, Count(all), GrandTotal(all))
  }

  lemma {:induction false} Historical(chunks: seq<seq<Sample>>, first: int, i: nat)
    requires AllFull(chunks) && i < |chunks|
    ensures IsHistorical(PooledMean(CarryAfter(ReadingsOf(chunks[..i]), first), Readings(chunks[i])),
                         ReadingsOf(chunks[..i + 1]))
  {
    assert chunks[..i + 1] == chunks[..i] + [chunks[i]];
    CarrySnoc(chunks[..i], chunks[i], first);
    if Count(ReadingsOf(chunks[..i + 1])) < U32 { HistoricalMeanExact(ReadingsOf(chunks[..i + 1]), first); }
  }

  // The carry before window i, read off the vector before it.
  lemma {:induction false} CarriedIn(chunks: seq<seq<Sample>>, first: int, hz: real, i: nat, k: Carry)
    requires AllFull(chunks) && hz > 0.0 && i < |chunks| && k == CarryAfter(ReadingsOf(chunks[..i]), first)
    ensures k.up >= 0.0 && k.down <= 0.0
    ensures if i == 0 then k.ewma == first as real && k.up == 0.0 && k.down == 0.0
            else var f := VectorAt(chunks, first, hz, i - 1);
                 |f| == 16 && k.ewma == f[8] && k.up == f[11] && -k.down == f[12]
  {
    CarriedSigns(chunks[..i], first);
    if i > 0 { CarriedOn(chunks, first, hz, i - 1); }
  }

  // The i-th vector of a sensor: what it compares with is in the vector before,
  // or the first reading for a new sensor, and its mean is that of all readings
  // so far while their number fits 32 bits.
  lemma {:induction false} SensorMeans(chunks: seq<seq<Sample>>, first: int, hz: real, i: nat)
    requires AllFull(chunks) && hz > 0.0 && i < |chunks|
    ensures exists m :: IsHistorical(m, ReadingsOf(chunks[..i + 1])) && DriftedAt(chunks, first, hz, i, m)
  {
    var c, k := chunks[i], CarryAfter(ReadingsOf(chunks[..i]), first);
    CarriedIn(chunks, first, hz, i, k);
    DriftMeans(k, Readings(c), Stamps(c), hz);
    Historical(chunks, first, i);
    assert DriftedAt(chunks, first, hz, i, PooledMean(k, Readings(c)));
  }

  ghost predicate DriftedAt(chunks: seq<seq<Sample>>, first: int, hz: real, i: nat, m: real)
    requires AllFull(chunks) && hz > 0.0 && i < |chunks|
  {
    var f, r := VectorAt(chunks, first, hz, i), Readings(chunks[i]);
    if i == 0 then Drifted(f, r, m, first as real, 0.0, 0.0)
    else var g := VectorAt(chunks, first, hz, i - 1); |g| == 16 && Drifted(f, r, m, g[8], g[11], g[12])
  }
}
