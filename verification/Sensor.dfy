// One sensor of the ICS profile: readings gathered in place, the sixteen
// features of a full window, and what is carried from window to window.
module Sensor {
  import opened Arithmetic
  import opened Stats
  import opened Slope
  import opened Cusum
  import Iot

  const MAX_WINDOW: nat := 256
  const I32_MAX: int := 0x7FFF_FFFF
  const I32_MIN: int := -0x8000_0000

  // Kept across windows; all but the sample count are exact reals.
  datatype Carry = Carry(ewma: real, up: real, down: real, mean: real, total: nat)

  function Lowest(v: seq<int>, n: nat, top: int): int
    requires n <= |v|
  {
    if n == 0 then top else if v[n - 1] < Lowest(v, n - 1, top) then v[n - 1] else Lowest(v, n - 1, top)
  }

  function Highest(v: seq<int>, n: nat, bottom: int): int
    requires n <= |v|
  {
    if n == 0 then bottom else if v[n - 1] > Highest(v, n - 1, bottom) then v[n - 1] else Highest(v, n - 1, bottom)
  }

  function SumAll(v: seq<int>, n: nat): int
    requires n <= |v|
  {
    if n == 0 then 0 else SumAll(v, n - 1) + v[n - 1]
  }

  function MeanOf(r: seq<int>): real
    requires |r| >= 1
  {
    SumAll(r, |r|) as real / |r| as real
  }

  // Time between neighbours; a clock that runs backwards counts as zero.
  function Gap(t: seq<nat>, i: nat): nat
    requires 1 <= i < |t|
  {
    if t[i] >= t[i - 1] then t[i] - t[i - 1] else 0
  }

  function Gaps(t: seq<nat>): seq<nat>
    requires |t| >= 1
  {
    seq(|t| - 1, i requires 0 <= i < |t| - 1 => Gap(t, i + 1))
  }

  // Division, with zero where the float result would not be finite.
  function Quotient(a: real, b: real): real {
    if b == 0.0 then 0.0 else a / b
  }

  // The historical mean after a window of n readings.
  function Pool(before: real, total: nat, mean: real, n: nat): real {
    if total == 0 then mean else Quotient(before * total as real + mean * n as real, ((total + n) % U32) as real)
  }

  function PooledMean(c: Carry, r: seq<int>): real
    requires |r| >= 1
  {
    Pool(c.mean, c.total, MeanOf(r), |r|)
  }

  function Next(c: Carry, r: seq<int>): Carry
    requires |r| >= 1
  {
    var mean := PooledMean(c, r);
    Carry(Ewma(r, |r|), CusumUp(r, mean, c.up, |r|), CusumDown(r, mean, c.down, |r|), mean, (c.total + |r|) % U32)
  }

  function Alarm(up: real, down: real): real {
    if up > THRESHOLD || Abs(down) > THRESHOLD then 1.0 else 0.0
  }

  // The eight features of the window alone.
  function Base(r: seq<int>, t: seq<nat>, hz: real): (f: seq<real>)
    requires |r| == |t| >= 2 && hz > 0.0
    ensures |f| == 8
  {
    var n, g := |r|, Gaps(t);
    var low, high := Lowest(r, n, I32_MAX), Highest(r, n, I32_MIN);
    [ low as real,
      high as real,
      MeanOf(r),
      Iot.Micros(Lowest(g, n - 1, U64 - 1) as real, hz),
      Iot.Micros(Highest(g, n - 1, 0) as real, hz),
      Iot.Micros(SumAll(g, n - 1) as real / (n - 1) as real, hz),
      (high - low) as real,
      SlopeOf(Seconds(t, n, hz), Reals(r, n)) ]
  }

  // The eight features that depend on what is carried.
  function Drift(ewma: real, deviation: real, up: real, down: real, trend: real): (f: seq<real>)
    ensures |f| == 8
  {
    [ ewma,
      deviation,
      Abs(deviation) / (Abs(ewma) + 0.00000001),
      up,
      Abs(down),
      Max(up, Abs(down)),
      Alarm(up, down),
      trend ]
  }

  function Vector(c: Carry, r: seq<int>, t: seq<nat>, hz: real): (f: seq<real>)
    requires |r| == |t| >= 2 && hz > 0.0
    ensures |f| == 16
  {
    var c' := Next(c, r);
    Base(r, t, hz) + Drift(c'.ewma, c'.ewma - c.ewma, c'.up, c'.down, Trend(r))
  }

  // --- the loops -----------------------------------------------------------------

  method ScanReadings(a: array<int>, n: nat) returns (low: int, high: int, sum: int)
    requires n <= a.Length
    ensures low == Lowest(a[..], n, I32_MAX) && high == Highest(a[..], n, I32_MIN) && sum == SumAll(a[..], n)
  {
    low, high, sum := I32_MAX, I32_MIN, 0;
    for i := 0 to n
      invariant low == Lowest(a[..], i, I32_MAX) && high == Highest(a[..], i, I32_MIN) && sum == SumAll(a[..], i)
    {
      if a[i] < low { low := a[i]; }
      if a[i] > high { high := a[i]; }
      sum := sum + a[i];
    }
  }

  method ScanGaps(a: array<nat>, n: nat) returns (low: nat, high: nat, sum: nat)
    requires 1 <= n <= a.Length
    ensures var g := Gaps(a[..n]);
            low == Lowest(g, n - 1, U64 - 1) && high == Highest(g, n - 1, 0) && sum == SumAll(g, n - 1)
  {
    low, high, sum := U64 - 1, 0, 0;
    ghost var g := Gaps(a[..n]);
    for i := 1 to n
      invariant low == Lowest(g, i - 1, U64 - 1) && high == Highest(g, i - 1, 0) && sum == SumAll(g, i - 1)
    {
      var dt := if a[i] >= a[i - 1] then a[i] - a[i - 1] else 0;
      assert dt == g[i - 1];
      if dt < low { low := dt; }
      if dt > high { high := dt; }
      sum := sum + dt;
    }
  }

  // Only the first n elements of a buffer matter.
  lemma {:induction false} PrefixScan(v: seq<int>, m: nat, n: nat, top: int, bottom: int)
    requires n <= m <= |v|
    ensures Lowest(v[..m], n, top) == Lowest(v, n, top) && Highest(v[..m], n, bottom) == Highest(v, n, bottom)
    ensures SumAll(v[..m], n) == SumAll(v, n)
  {
    if n > 0 { PrefixScan(v, m, n - 1, top, bottom); }
  }

  lemma {:induction false} PrefixDrift(v: seq<int>, m: nat, n: nat, mean: real, up: real, down: real)
    requires n <= m <= |v|
    ensures CusumUp(v[..m], mean, up, n) == CusumUp(v, mean, up, n)
    ensures CusumDown(v[..m], mean, down, n) == CusumDown(v, mean, down, n)
  {
    if n > 0 { PrefixDrift(v, m, n - 1, mean, up, down); }
  }

  lemma {:induction false} PrefixEwma(v: seq<int>, m: nat, n: nat)
    requires 1 <= n <= m <= |v|
    ensures Ewma(v[..m], n) == Ewma(v, n)
  {
    if n > 1 { PrefixEwma(v, m, n - 1); }
  }

  lemma {:induction false} PrefixTrend(v: seq<int>, m: nat, n: nat)
    requires n <= m <= |v|
    ensures Rising(v[..m], n) == Rising(v, n) && Falling(v[..m], n) == Falling(v, n)
  {
    if n > 0 { PrefixTrend(v, m, n - 1); }
  }

  lemma {:induction false} PrefixSlope(t: seq<nat>, r: seq<int>, n: nat, hz: real)
    requires n <= |t| && n <= |r| && hz > 0.0
    ensures Seconds(t, n, hz) == Seconds(t[..n], n, hz) && Reals(r, n) == Reals(r[..n], n)
  {}

  // --- the entry, in place -----------------------------------------------------------

  datatype Sample = Sample(reading: int, at: nat)

  function Readings(s: seq<Sample>): seq<int> { seq(|s|, i requires 0 <= i < |s| => s[i].reading) }

  function Stamps(s: seq<Sample>): seq<nat> { seq(|s|, i requires 0 <= i < |s| => s[i].at) }

  // Samples of the open window, and the carried statistics.
  datatype SensorState = SensorState(open: seq<Sample>, carry: Carry)

  function Fresh(reading: int): SensorState {
    SensorState([], Carry(reading as real, 0.0, 0.0, reading as real, 0))
  }

  function StepSensor(s: SensorState, x: Sample, window: nat): SensorState {
    var chunk := s.open + [x];
    if |chunk| >= window then SensorState([], Next(s.carry, Readings(chunk))) else SensorState(chunk, s.carry)
  }

  class Entry {
    const readings: array<int>
    const timestamps: array<nat>
    var sampleCount: nat
    var writeIndex: nat
    var ewmaValue: real
    var cusumPositive: real
    var cusumNegative: real
    var historicalMean: real
    var totalSamples: nat
    ghost var open: seq<Sample>

    ghost predicate Valid(window: nat)
      reads this, readings, timestamps
    {
      && 2 <= window <= MAX_WINDOW == readings.Length == timestamps.Length
      && sampleCount == writeIndex == |open| < window
      && Gathered()
    }

    ghost predicate Gathered()
      reads this, readings, timestamps
      requires |open| <= readings.Length && |open| <= timestamps.Length
    {
      readings[..|open|] == Readings(open) && timestamps[..|open|] == Stamps(open)
    }

    ghost function CarryNow(): Carry
      reads this
    {
      Carry(ewmaValue, cusumPositive, cusumNegative, historicalMean, totalSamples)
    }

    constructor (reading: int, window: nat)
      requires 2 <= window <= MAX_WINDOW
      ensures Valid(window) && SensorState(open, CarryNow()) == Fresh(reading)
      ensures fresh(readings) && fresh(timestamps)
    {
      readings := new int[MAX_WINDOW](_ => 0);
      timestamps := new nat[MAX_WINDOW](_ => 0);
      sampleCount, writeIndex := 0, 0;
      ewmaValue, historicalMean, totalSamples := reading as real, reading as real, 0;
      cusumPositive, cusumNegative := 0.0, 0.0;
      open := [];
    }

    // The pooled mean and both CUSUM sums move on to the next window.
    method UpdateDrift(n: nat, mean: real)
      requires 1 <= n <= readings.Length && mean == MeanOf(readings[..n])
      modifies this`cusumPositive, this`cusumNegative, this`historicalMean, this`totalSamples
      ensures CarryNow() == Next(old(CarryNow()), readings[..n]).(ewma := ewmaValue)
    {
      historicalMean := Pool(historicalMean, totalSamples, mean, n);
      totalSamples := (totalSamples + n) % U32;
      PrefixDrift(readings[..], n, n, historicalMean, cusumPositive, cusumNegative);
      cusumPositive, cusumNegative := Accumulate(readings, n, historicalMean, cusumPositive, cusumNegative);
    }

    method ComputeBase(n: nat, hz: real) returns (f: seq<real>)
      requires 2 <= n <= readings.Length == timestamps.Length && hz > 0.0
      ensures f == Base(readings[..n], timestamps[..n], hz)
    {
      var low, high, sum := ScanReadings(readings, n);
      PrefixScan(readings[..], n, n, I32_MAX, I32_MIN);
      var gapLow, gapHigh, gapSum := ScanGaps(timestamps, n);
      PrefixSlope(timestamps[..], readings[..], n, hz);
      var slope := ComputeSlope(timestamps[..], readings[..], n, hz);
      f := [ low as real, high as real, sum as real / n as real,
             Iot.Micros(gapLow as real, hz), Iot.Micros(gapHigh as real, hz),
             Iot.Micros(gapSum as real / (n - 1) as real, hz),
             (high - low) as real, slope ];
    }

    method ComputeTrend(n: nat) returns (trend: real)
      requires 2 <= n <= readings.Length
      ensures trend == Trend(readings[..n])
    {
      PrefixTrend(readings[..], n, n);
      var rising, falling := CountTrend(readings, n);
      var net := rising as int - falling as int;
      trend := Abs(net as real / (n - 1) as real);
    }

    method ComputeEwma(n: nat) returns (ewma: real)
      requires 1 <= n <= readings.Length
      ensures ewma == Ewma(readings[..n], n)
    {
      PrefixEwma(readings[..], n, n);
      ewma := Smooth(readings, n);
    }

    method ComputeFeatures(n: nat, hz: real) returns (f: seq<real>)
      requires 2 <= n <= readings.Length == timestamps.Length && hz > 0.0
      modifies this`ewmaValue, this`cusumPositive, this`cusumNegative, this`historicalMean, this`totalSamples
      ensures f == Vector(old(CarryNow()), readings[..n], timestamps[..n], hz)
      ensures CarryNow() == Next(old(CarryNow()), readings[..n])
    {
      var base := ComputeBase(n, hz);
      var ewma := ComputeEwma(n);
      var deviation := ewma - ewmaValue;
      UpdateDrift(n, base[2]);
      ewmaValue := ewma;
      var trend := ComputeTrend(n);
      f := base + Drift(ewma, deviation, cusumPositive, cusumNegative, trend);
    }

    // Store one reading; a full window yields its vector and starts over.
    method AddReading(x: Sample, window: nat, hz: real) returns (full: bool, f: seq<real>)
      requires Valid(window) && hz > 0.0
      modifies this, readings, timestamps
      ensures Valid(window)
      ensures SensorState(open, CarryNow()) == StepSensor(SensorState(old(open), old(CarryNow())), x, window)
      ensures full == (|old(open)| + 1 == window)
      ensures full ==> f == Vector(old(CarryNow()), Readings(old(open) + [x]), Stamps(old(open) + [x]), hz)
    {
      full, f := false, [];
      Store(x);
      if sampleCount >= window {
        f := ComputeFeatures(window, hz);
        full := true;
        sampleCount, writeIndex := 0, 0;
        open := [];
      }
    }

    method Store(x: Sample)
      requires sampleCount == writeIndex == |open| < readings.Length == timestamps.Length && Gathered()
      modifies this`sampleCount, this`writeIndex, this`open, readings, timestamps
      ensures sampleCount == writeIndex == |open| && open == old(open) + [x] && Gathered()
    {
      readings[writeIndex] := x.reading;
      timestamps[writeIndex] := x.at;
      writeIndex := writeIndex + 1;
      sampleCount := sampleCount + 1;
      open := open + [x];
      assert readings[..|open|] == old(readings[..|open|]) + [x.reading];
      assert timestamps[..|open|] == old(timestamps[..|open|]) + [x.at];
    }
  }
}
