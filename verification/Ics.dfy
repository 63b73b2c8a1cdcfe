// The industrial control profile: what a sensor's vectors mean, their
// contract, and how a Modbus response is split into readings.
module Ics {
  import opened Arithmetic
  import opened Stats
  import opened Slope
  import opened Cusum
  import opened Sensor
  import Iot

  // ics_init_worker: zero means 32, and the window is clamped to [2, 256].
  function EffectiveWindow(configured: nat): nat {
    var w := if configured != 0 then configured else 32;
    if w > MAX_WINDOW then MAX_WINDOW else if w < 2 then 2 else w
  }

  // --- base features as batch statistics -----------------------------------------

  ghost predicate IsLeast(m: int, v: seq<int>) { m in v && forall i :: 0 <= i < |v| ==> m <= v[i] }

  ghost predicate IsGreatest(m: int, v: seq<int>) { m in v && forall i :: 0 <= i < |v| ==> v[i] <= m }

  lemma {:induction false} LowestIs(v: seq<int>, n: nat, top: int)
    requires n <= |v| && forall i :: 0 <= i < n ==> v[i] <= top
    ensures forall i :: 0 <= i < n ==> Lowest(v, n, top) <= v[i]
    ensures Lowest(v, n, top) <= top && (n > 0 ==> Lowest(v, n, top) in v)
  {
    if n > 0 { LowestIs(v, n - 1, top); }
  }

  lemma {:induction false} HighestIs(v: seq<int>, n: nat, bottom: int)
    requires n <= |v| && forall i :: 0 <= i < n ==> bottom <= v[i]
    ensures forall i :: 0 <= i < n ==> v[i] <= Highest(v, n, bottom)
    ensures bottom <= Highest(v, n, bottom) && (n > 0 ==> Highest(v, n, bottom) in v)
  {
    if n > 0 { HighestIs(v, n - 1, bottom); }
  }

  lemma {:induction false} SumBetween(v: seq<int>, n: nat, lo: int, hi: int)
    requires n <= |v| && forall i :: 0 <= i < n ==> lo <= v[i] <= hi
    ensures lo * n <= SumAll(v, n) <= hi * n
  {
    if n > 0 { SumBetween(v, n - 1, lo, hi); }
  }

  lemma {:induction false} MeanWithin(v: seq<int>, n: nat, lo: int, hi: int)
    requires 1 <= n <= |v| && forall i :: 0 <= i < n ==> lo <= v[i] <= hi
    ensures lo as real <= SumAll(v, n) as real / n as real <= hi as real
  {
    SumBetween(v, n, lo, hi);
    QuotientWithin(SumAll(v, n), n, lo, hi);
  }

  lemma {:induction false} QuotientWithin(s: int, n: nat, lo: int, hi: int)
    requires n >= 1 && lo * n <= s <= hi * n
    ensures lo as real <= s as real / n as real <= hi as real
  {
    var q := s as real / n as real;
    CastMul(lo, n);
    CastMul(hi, n);
    CancelLe(lo as real, q, n as real);
    CancelLe(q, hi as real, n as real);
  }

  lemma {:induction false} SumAllIsTotal(g: seq<nat>, n: nat)
    requires n <= |g|
    ensures SumAll(g, n) == Total(g[..n])
  {
    if n > 0 {
      SumAllIsTotal(g, n - 1);
      assert g[..n] == g[..n - 1] + [g[n - 1]];
      TotalSnoc(g[..n - 1], g[n - 1]);
    }
  }

  // A reading fits the two register encodings, so no difference of two
  // readings leaves 32 bits.
  predicate InRange(x: Sample) { -0x8000 <= x.reading < 0x1_0000 && x.at < U64 }

  ghost predicate Sound(s: seq<Sample>) {
    |s| >= 2 && forall i :: 0 <= i < |s| ==> InRange(s[i])
  }

  lemma {:induction false} Extremes(s: seq<Sample>)
    requires Sound(s)
    ensures var r := Readings(s);
            var low, high := Lowest(r, |r|, I32_MAX), Highest(r, |r|, I32_MIN);
            IsLeast(low, r) && IsGreatest(high, r) && 0 <= high - low <= I32_MAX
  {
    var r := Readings(s);
    LowestIs(r, |r|, I32_MAX);
    HighestIs(r, |r|, I32_MIN);
    assert r[0] == s[0].reading;
  }

  // Minimum, maximum, mean and range of the window's readings.
  ghost predicate IsExtent(f: seq<real>, r: seq<int>, low: int, high: int)
    requires |f| == 8
  {
    && IsLeast(low, r) && IsGreatest(high, r) && 0 <= high - low <= I32_MAX
    && f[0] == low as real && f[1] == high as real && f[6] == f[1] - f[0]
    && Averages(f[2], |r|, SumAll(r, |r|)) && f[0] <= f[2] <= f[1]
  }

  lemma {:induction false} BaseIsBatch(s: seq<Sample>, hz: real)
    requires Sound(s) && hz > 0.0
    ensures exists low, high :: IsExtent(Base(Readings(s), Stamps(s), hz), Readings(s), low, high)
  {
    var r := Readings(s);
    var low, high := Lowest(r, |r|, I32_MAX), Highest(r, |r|, I32_MIN);
    Extremes(s);
    MeanWithin(r, |r|, low, high);
    QuotientAverages(SumAll(r, |r|), |r|);
    assert IsExtent(Base(r, Stamps(s), hz), r, low, high);
  }

  // Least, greatest and mean time between neighbouring readings.
  lemma {:induction false} GapsAreBatch(s: seq<Sample>, hz: real)
    requires Sound(s) && hz > 0.0
    ensures var f := Base(Readings(s), Stamps(s), hz);
            Iot.GapBatch(f[3], f[4], f[5], hz, Gaps(Stamps(s))) && 0.0 <= f[3] <= f[5] <= f[4]
  {
    var t := Stamps(s);
    var g, m := Gaps(t), |t| - 1;
    assert forall i :: 0 <= i < |t| ==> t[i] == s[i].at;
    LowestIs(g, m, U64 - 1);
    HighestIs(g, m, 0);
    SumAllIsTotal(g, m);
    assert g[..m] == g;
    var low: nat, high: nat, mean := Lowest(g, m, U64 - 1), Highest(g, m, 0), SumAll(g, m) as real / m as real;
    MeanIs(SumAll(g, m), g);
    var f := Base(Readings(s), t, hz);
    assert IsMin(low, g) && IsMax(high, g) && MeanOrZero(mean, g)
           && Iot.InMicros(f[3], hz, low as real) && Iot.InMicros(f[4], hz, high as real)
               && Iot.InMicros(f[5], hz, mean);
    Iot.GapOrder(f[3], f[4], f[5], hz, g);
  }

  // --- the contract ------------------------------------------------------------

  // feature_contract.c, over exact reals: same checks in the same order.
  predicate ValidateIcs(f: seq<real>)
    requires |f| == 16
  {
    if f[0] > f[2] || f[2] > f[1] then false
    else if f[3] < 0.0 || f[4] < 0.0 || f[5] < 0.0 then false
    else if f[3] > f[5] || f[5] > f[4] then false
    else if f[6] < 0.0 then false
    else if Abs(f[6] - (f[1] - f[0])) > 0.001 * Max(1.0, Abs(f[1] - f[0])) then false
    else if f[14] != 0.0 && f[14] != 1.0 then false
    else true
  }

  // It accepts exactly the vectors whose mean and mean gap lie between their
  // extremes, no gap negative, whose range is that of the extremes to one part
  // in a thousand, or 0.001 for a range below one, and whose alarm is 0 or 1.
  lemma {:induction false} AcceptsIff(f: seq<real>)
    requires |f| == 16
    ensures var range := f[1] - f[0];
            ValidateIcs(f)
            <==> && f[0] <= f[2] <= f[1] && 0.0 <= f[3] <= f[5] <= f[4] && f[6] >= 0.0 && (f[14] == 0.0 || f[14] == 1.0)
                 && var slack := if range > 1.0 then 0.001 * range else 0.001;
                    range - slack <= f[6] <= range + slack
  {}

  // Every vector of a full window passes, whatever is carried into it.
  lemma {:induction false} EmittedValid(c: Carry, s: seq<Sample>, hz: real)
    requires Sound(s) && hz > 0.0
    ensures ValidateIcs(Vector(c, Readings(s), Stamps(s), hz))
  {
    BaseIsBatch(s, hz);
    var low, high :| IsExtent(Base(Readings(s), Stamps(s), hz), Readings(s), low, high);
    GapsAreBatch(s, hz);
    var base, f := Base(Readings(s), Stamps(s), hz), Vector(c, Readings(s), Stamps(s), hz);
    assert f[..8] == base;
    assert forall i :: 0 <= i < 8 ==> f[i] == base[i];
  }

  // The alarm is raised exactly when some stretch of readings up to the end of
  // the window drifts up or down by more than the threshold.
  lemma {:induction false} AlarmIff(c: Carry, s: seq<Sample>, hz: real)
    requires Sound(s) && hz > 0.0 && c.up >= 0.0 && c.down <= 0.0
    ensures var r, f := Readings(s), Vector(c, Readings(s), Stamps(s), hz);
            var mean := PooledMean(c, r);
            f[14] == 1.0 <==> Drifts(r, mean, c.up) || Drifts(Negated(r), -mean, -c.down)
    ensures Next(c, Readings(s)).up >= 0.0 && Next(c, Readings(s)).down <= 0.0
  {
    var r := Readings(s);
    UpDrifts(r, PooledMean(c, r), c.up);
    DownDrifts(r, PooledMean(c, r), c.down);
    CusumIsPeak(r, PooledMean(c, r), c.up, |r|);
  }

  // --- the historical mean -------------------------------------------------------

  ghost predicate Windows(chunks: seq<seq<int>>, k: nat, n: nat) {
    |chunks| == k && forall i :: 0 <= i < k ==> |chunks[i]| == n
  }

  // What is carried after the windows, from a first reading.
  function CarryAfter(chunks: seq<seq<int>>, first: int): Carry
    requires forall i :: 0 <= i < |chunks| ==> |chunks[i]| >= 1
  {
    if chunks == [] then Fresh(first).carry
    else Next(CarryAfter(chunks[..|chunks| - 1], first), chunks[|chunks| - 1])
  }

  // The sum of all readings of all windows.
  function GrandTotal(chunks: seq<seq<int>>): int {
    if chunks == [] then 0
    else var r := chunks[|chunks| - 1]; GrandTotal(chunks[..|chunks| - 1]) + SumAll(r, |r|)
  }

  function Count(chunks: seq<seq<int>>): nat {
    if chunks == [] then 0 else Count(chunks[..|chunks| - 1]) + |chunks[|chunks| - 1]|
  }

  lemma {:induction false} CountIs(chunks: seq<seq<int>>, k: nat, n: nat)
    requires Windows(chunks, k, n)
    ensures Count(chunks) == k * n
  {
    if k > 0 {
      CountIs(chunks[..k - 1], k - 1, n);
      assert (k - 1) * n + n == k * n;
    }
  }

  // The mean of all readings of all windows.
  ghost predicate MeanExact(c: Carry, chunks: seq<seq<int>>) {
    Averages(c.mean, Count(chunks), GrandTotal(chunks))
  }

  lemma {:induction false} PoolStep(before: real, total: nat, mean: real, n: nat, s: int, w: int)
    requires n >= 1 && total + n < U32 && Averages(mean, n, w)
    requires total > 0 ==> Averages(before, total, s)
    requires total == 0 ==> s == 0
    ensures Averages(Pool(before, total, mean, n), total + n, s + w)
  {
    if total > 0 {
      var x := before * total as real + mean * n as real;
      var d := (total + n) as real;
      assert Pool(before, total, mean, n) == x / d;
      assert x / d * d == x;
    }
  }

  lemma {:induction false} NextMean(c: Carry, r: seq<int>, s: int)
    requires |r| >= 1 && c.total + |r| < U32
    requires if c.total > 0 then Averages(c.mean, c.total, s) else s == 0
    ensures Next(c, r).total == c.total + |r| && Averages(Next(c, r).mean, c.total + |r|, s + SumAll(r, |r|))
  {
    QuotientAverages(SumAll(r, |r|), |r|);
    PoolStep(c.mean, c.total, MeanOf(r), |r|, s, SumAll(r, |r|));
  }

  ghost predicate NoneEmpty(chunks: seq<seq<int>>) {
    forall i :: 0 <= i < |chunks| ==> |chunks[i]| >= 1
  }

  // The running mean is the mean of every reading so far while their number
  // fits the 32-bit counter.
  lemma {:induction false} HistoricalMeanExact(chunks: seq<seq<int>>, first: int)
    requires NoneEmpty(chunks) && Count(chunks) < U32
    ensures CarryAfter(chunks, first).total == Count(chunks)
    ensures chunks != [] ==> MeanExact(CarryAfter(chunks, first), chunks)
  {
    if chunks != [] {
      var before, r := chunks[..|chunks| - 1], chunks[|chunks| - 1];
      HistoricalMeanExact(before, first);
      NextMean(CarryAfter(before, first), r, GrandTotal(before));
    }
  }

  function Ones(k: nat, n: nat): seq<seq<int>> { seq(k, _ => seq(n, _ => 1)) }

  lemma {:induction false} SumOfOnes(r: seq<int>, n: nat)
    requires n <= |r| && forall i :: 0 <= i < |r| ==> r[i] == 1
    ensures SumAll(r, n) == n
  {
    if n > 0 { SumOfOnes(r, n - 1); }
  }

  lemma {:induction false} OnesTotal(k: nat, n: nat)
    ensures GrandTotal(Ones(k, n)) == k * n
  {
    if k > 0 {
      OnesTotal(k - 1, n);
      assert Ones(k, n)[..k - 1] == Ones(k - 1, n);
      SumOfOnes(Ones(k, n)[k - 1], n);
      assert (k - 1) * n + n == k * n;
    }
  }

  lemma {:induction false} UnitMean(mean: real, t: nat)
    requires t > 0 && Averages(mean, t, t)
    ensures mean == 1.0
  {
    CancelEq(mean, 1.0, t as real);
  }

  lemma {:induction false} WrapBreaks(total: nat, n: nat)
    requires 1 <= n <= total < U32 <= total + n
    ensures Pool(1.0, total, 1.0, n) != 1.0
  {
    var rest := total + n - U32;
    assert (total + n) % U32 == rest;
    if rest != 0 { UnequalRatio(total + n, rest); }
  }

  lemma {:induction false} UnequalRatio(a: nat, b: nat)
    requires a != b && b > 0
    ensures a as real / b as real != 1.0
  {
    QuotientAverages(a, b);
  }

  lemma {:induction false} OnesMean(r: seq<int>)
    requires |r| >= 1 && forall i :: 0 <= i < |r| ==> r[i] == 1
    ensures MeanOf(r) == 1.0
  {
    SumOfOnes(r, |r|);
    QuotientAverages(|r|, |r|);
    CancelEq(MeanOf(r), 1.0, |r| as real);
  }

  lemma {:induction false} OnesPrefix(k: nat, n: nat)
    requires k >= 1
    ensures Ones(k, n)[..k - 1] == Ones(k - 1, n)
  {}

  lemma {:induction false} OnesWindow(k: nat, n: nat)
    requires k >= 1 && n >= 1
    ensures Ones(k, n)[..k - 1] == Ones(k - 1, n) && NoneEmpty(Ones(k, n))
    ensures MeanOf(Ones(k, n)[k - 1]) == 1.0
  {
    OnesPrefix(k, n);
    OnesMean(Ones(k, n)[k - 1]);
  }

  // The window that wraps the counter spoils the mean even of constant readings.
  lemma {:induction false} HistoricalMeanWraps(k: nat, n: nat, first: int)
    requires k >= 2 && n >= 1 && (k - 1) * n < U32 <= k * n
    ensures NoneEmpty(Ones(k, n)) && !MeanExact(CarryAfter(Ones(k, n), first), Ones(k, n))
  {
    var chunks, before := Ones(k, n), Ones(k - 1, n);
    OnesWindow(k, n);
    CountIs(before, k - 1, n);
    CountIs(chunks, k, n);
    MulMono(1, k - 1, n);
    assert Count(chunks) == Count(before) + n;
    OnesTotal(k - 1, n);
    OnesTotal(k, n);
    HistoricalMeanExact(before, first);
    var c := CarryAfter(before, first);
    UnitMean(c.mean, Count(before));
    WrapBreaks(Count(before), n);
    assert CarryAfter(chunks, first).mean == Pool(c.mean, c.total, MeanOf(chunks[k - 1]), n);
    NotUnit(CarryAfter(chunks, first).mean, Count(chunks));
  }

  lemma {:induction false} NotUnit(mean: real, t: nat)
    requires t > 0 && mean != 1.0
    ensures !Averages(mean, t, t)
  {
    if Averages(mean, t, t) { UnitMean(mean, t); }
  }

  ghost predicate MeanExactFor(chunks: seq<seq<int>>, first: int) {
    NoneEmpty(chunks) && MeanExact(CarryAfter(chunks, first), chunks)
  }

  // For windows of n readings: the historical mean is right after each of the
  // first k windows, for all readings, exactly when k n is below 2^32.
  lemma {:induction false} HistoricalMeanIff(k: nat, n: nat, first: int)
    requires k >= 1 && 1 <= n <= MAX_WINDOW
    ensures (forall j: nat, chunks :: 1 <= j <= k && Windows(chunks, j, n) ==> MeanExactFor(chunks, first))
         <==> k * n < U32
  {
    if k * n < U32 {
      forall j: nat, chunks | 1 <= j <= k && Windows(chunks, j, n) ensures MeanExactFor(chunks, first) {
        MulMono(j, k, n);
        CountIs(chunks, j, n);
        HistoricalMeanExact(chunks, first);
      }
    } else {
      var j := FirstWrap(k, n);
      HistoricalMeanWraps(j, n, first);
      assert Windows(Ones(j, n), j, n);
    }
  }

  lemma {:induction false} FirstWrap(k: nat, n: nat) returns (j: nat)
    requires 1 <= n <= MAX_WINDOW && k * n >= U32
    ensures 2 <= j <= k && (j - 1) * n < U32 <= j * n
  {
    j := k;
    while (j - 1) * n >= U32
      invariant 2 <= j <= k && j * n >= U32
    {
      j := j - 1;
    }
  }
}
