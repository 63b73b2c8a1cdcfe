// IoT profile: incremental length and inter-arrival statistics of TCP packets.
module Iot {
  import opened Arithmetic
  import opened LinearLayer
  import opened KeyedWindows
  import opened Rss
  import opened FeatureQueue
  import opened WindowTracker
  import opened Traffic
  import opened Stats
  import Words

  // Packet length, arrival time stamp and number of TCP flags set.
  datatype Rec = Rec(len: nat, now: nat, flags: nat)

  datatype Entry = Entry(first: nat, last: nat, count: nat, lenMin: nat, lenMax: nat, lenSum: nat,
                         iatMin: nat, iatMax: nat, iatSum: nat, bytes: nat, flagSum: nat)

  const RESET := Entry(0, 0, 0, U32 - 1, 0, 0, U64 - 1, 0, 0, 0, 0)

  // Unsigned 64-bit difference.
  function Minus64(a: nat, b: nat): nat { (a as int - b as int) % U64 }

  function Update(e: Entry, r: Rec): Entry {
    if e.count == 0 then
      Entry(r.now, r.now, (e.count + 1) % U16, r.len, r.len, r.len, U64 - 1, 0, 0, r.len, r.flags)
    else
      var iat := Minus64(r.now, e.last);
      Entry(e.first, r.now, (e.count + 1) % U16,
            if r.len < e.lenMin then r.len else e.lenMin,
            if r.len > e.lenMax then r.len else e.lenMax,
            (e.lenSum + r.len) % U64,
            if iat < e.iatMin then iat else e.iatMin,
            if iat > e.iatMax then iat else e.iatMax,
            (e.iatSum + iat) % U64,
            (e.bytes + r.len) % U64,
            (e.flagSum + r.flags) % U32)
  }

  function EntryOf(s: seq<Rec>): Entry {
    Fold(Update, RESET, s)
  }

  function Count(e: Entry): nat { e.count }

  // --- batch statistics ------------------------------------------------------

  function Lens(s: seq<Rec>): seq<nat> { seq(|s|, i requires 0 <= i < |s| => s[i].len) }

  function Flags(s: seq<Rec>): seq<nat> { seq(|s|, i requires 0 <= i < |s| => s[i].flags) }

  // Gaps between consecutive packets, as the 64-bit clock difference.
  function Gaps(s: seq<Rec>): seq<nat> {
    if |s| < 2 then [] else Gaps(s[..|s| - 1]) + [Minus64(s[|s| - 1].now, s[|s| - 2].now)]
  }

  ghost predicate Valid(s: seq<Rec>) {
    |s| < U16 && forall i :: 0 <= i < |s| ==> s[i].len < U16 && s[i].now < U64 && s[i].flags <= 8
  }

  ghost predicate LensAgree(e: Entry, v: seq<nat>) {
    IsMin(e.lenMin, v) && IsMax(e.lenMax, v) && e.lenSum == e.bytes == Total(v)
  }

  ghost predicate Agrees(e: Entry, s: seq<Rec>)
    requires s != []
  {
    && e.first == s[0].now && e.last == s[|s| - 1].now && e.count == |s|
    && LensAgree(e, Lens(s)) && e.flagSum == Total(Flags(s)) && GapsAgree(e, Gaps(s))
  }

  ghost predicate GapsAgree(e: Entry, g: seq<nat>) {
    && e.iatSum == Total(g) % U64
    && if g == [] then e.iatMin == U64 - 1 && e.iatMax == 0 else IsMin(e.iatMin, g) && IsMax(e.iatMax, g)
  }

  lemma {:induction false} GapFacts(s: seq<Rec>)
    ensures |Gaps(s)| == if s == [] then 0 else |s| - 1
    ensures forall i :: 0 <= i < |Gaps(s)| ==> Gaps(s)[i] < U64
  {
    if |s| >= 2 { GapFacts(s[..|s| - 1]); }
  }

  lemma {:induction false} GapStep(e: Entry, g: seq<nat>, iat: nat, e': Entry)
    requires GapsAgree(e, g) && iat < U64 && (forall i :: 0 <= i < |g| ==> g[i] < U64)
    requires e'.iatSum == (e.iatSum + iat) % U64
    requires e'.iatMin == (if iat < e.iatMin then iat else e.iatMin)
    requires e'.iatMax == (if iat > e.iatMax then iat else e.iatMax)
    ensures GapsAgree(e', g + [iat])
  {
    TotalSnoc(g, iat);
    AddTurns(Total(g), iat);
    if g == [] { assert g + [iat] == [iat]; } else { LenStep(e.iatMin, e.iatMax, g, iat); }
  }

  lemma {:induction false} AddTurns(a: nat, b: nat)
    ensures (a % U64 + b) % U64 == (a + b) % U64
  {}

  lemma {:induction false} LenStep(min: nat, max: nat, v: seq<nat>, len: nat)
    requires IsMin(min, v) && IsMax(max, v)
    ensures IsMin(if len < min then len else min, v + [len]) && IsMax(if len > max then len else max, v + [len])
    ensures Total(v + [len]) == Total(v) + len
  {
    TotalSnoc(v, len);
    assert len in v + [len];
    assert forall x :: x in v ==> x in v + [len];
  }

  lemma {:induction false} Snoc(s: seq<Rec>, r: Rec)
    ensures Lens(s + [r]) == Lens(s) + [r.len] && Flags(s + [r]) == Flags(s) + [r.flags]
  {}

  lemma {:induction false} GapsSnoc(s: seq<Rec>, r: Rec)
    requires s != []
    ensures Gaps(s + [r]) == Gaps(s) + [Minus64(r.now, s[|s| - 1].now)]
  {
    var t, n := s + [r], |s|;
    assert t[..n] == s && t[n] == r && t[n - 1] == s[n - 1];
  }

  lemma {:induction false} SumsFit(s: seq<Rec>)
    requires Valid(s)
    ensures Total(Lens(s)) <= |s| * U16 && Total(Flags(s)) <= 8 * |s|
  {
    TotalBound(Lens(s));
    TotalBetween(Flags(s), 0, 8);
  }

  lemma {:induction false} NoWrap(s: seq<Rec>, r: Rec)
    requires Valid(s) && |s| + 1 < U16 && r.len < U16 && r.flags <= 8
    ensures (Total(Lens(s)) + r.len) % U64 == Total(Lens(s + [r]))
    ensures (Total(Flags(s)) + r.flags) % U32 == Total(Flags(s + [r]))
  {
    Snoc(s, r);
    SumsFit(s);
    TotalSnoc(Lens(s), r.len);
    TotalSnoc(Flags(s), r.flags);
  }

  lemma {:induction false} LensAgreeAfter(e: Entry, v: seq<nat>, r: Rec)
    requires e.count != 0 && LensAgree(e, v) && (Total(v) + r.len) % U64 == Total(v + [r.len])
    ensures LensAgree(Update(e, r), v + [r.len])
  {
    LenStep(e.lenMin, e.lenMax, v, r.len);
  }

  lemma {:induction false} GapsAgreeAfter(e: Entry, s: seq<Rec>, r: Rec)
    requires s != [] && e.count != 0 && e.last == s[|s| - 1].now && GapsAgree(e, Gaps(s))
    ensures GapsAgree(Update(e, r), Gaps(s + [r]))
  {
    GapsSnoc(s, r);
    GapFacts(s);
    GapStep(e, Gaps(s), Minus64(r.now, e.last), Update(e, r));
  }

  lemma {:induction false} UpdateAgrees(e: Entry, s: seq<Rec>, r: Rec)
    requires s != [] && Valid(s) && Agrees(e, s) && |s| + 1 < U16 && r.len < U16 && r.flags <= 8
    ensures Agrees(Update(e, r), s + [r])
  {
    EndsAgree(e, s, r);
    SumsAgree(e, s, r);
    GapsAgreeAfter(e, s, r);
  }

  lemma {:induction false} EndsAgree(e: Entry, s: seq<Rec>, r: Rec)
    requires s != [] && e.first == s[0].now && e.count == |s| && |s| + 1 < U16
    ensures var (e', t) := (Update(e, r), s + [r]);
            e'.first == t[0].now && e'.last == t[|t| - 1].now && e'.count == |t|
  {}

  lemma {:induction false} SumsAgree(e: Entry, s: seq<Rec>, r: Rec)
    requires s != [] && Valid(s) && e.count != 0 && LensAgree(e, Lens(s)) && e.flagSum == Total(Flags(s))
    requires |s| + 1 < U16 && r.len < U16 && r.flags <= 8
    ensures LensAgree(Update(e, r), Lens(s + [r])) && Update(e, r).flagSum == Total(Flags(s + [r]))
  {
    NoWrap(s, r);
    Snoc(s, r);
    LensAgreeAfter(e, Lens(s), r);
  }

  lemma {:induction false} FirstAgrees(r: Rec)
    ensures Agrees(Update(RESET, r), [r])
  {
    assert Lens([r]) == [r.len] && Flags([r]) == [r.flags];
    TotalSnoc([], r.len);
    TotalSnoc([], r.flags);
    assert [] + [r.len] == [r.len] && [] + [r.flags] == [r.flags];
  }

  // The incremental entry is the batch statistics of its window.
  lemma {:induction false} EntryAgrees(s: seq<Rec>)
    requires Valid(s)
    ensures Count(EntryOf(s)) == |s| && (s != [] ==> Agrees(EntryOf(s), s))
  {
    if s != [] {
      var before, r := s[..|s| - 1], s[|s| - 1];
      EntryAgrees(before);
      assert s == before + [r];
      if before == [] { FirstAgrees(r); } else { UpdateAgrees(EntryOf(before), before, r); }
    }
  }

  // --- the clock ---------------------------------------------------------------

  ghost predicate Monotone(s: seq<Rec>) {
    forall i, j :: 0 <= i <= j < |s| ==> s[i].now <= s[j].now
  }

  // How often the clock is behind the previous packet.
  function Backward(s: seq<Rec>): nat {
    if |s| < 2 then 0
    else Backward(s[..|s| - 1]) + if s[|s| - 1].now < s[|s| - 2].now then 1 else 0
  }

  // Every step back adds a full turn of the 64-bit clock to the gaps.
  lemma {:induction false} GapsTelescope(s: seq<Rec>)
    requires Valid(s) && s != []
    ensures Total(Gaps(s)) == s[|s| - 1].now - s[0].now + U64 * Backward(s)
  {
    if |s| >= 2 {
      var t, a, b := s[..|s| - 1], s[|s| - 2].now, s[|s| - 1].now;
      GapsTelescope(t);
      TotalSnoc(Gaps(t), Minus64(b, a));
      GapTurns(a, b);
    }
  }

  lemma {:induction false} GapTurns(a: nat, b: nat)
    requires a < U64 && b < U64
    ensures Minus64(b, a) == b - a + U64 * if b < a then 1 else 0
  {}

  // The window spans less than one turn of the clock.
  predicate WithinTurn(s: seq<Rec>)
    requires s != []
  {
    Backward(s) == 0 || (Backward(s) == 1 && s[|s| - 1].now < s[0].now)
  }

  lemma {:induction false} SumFitsIff(s: seq<Rec>)
    requires Valid(s) && s != []
    ensures Total(Gaps(s)) < U64 <==> WithinTurn(s)
  {
    GapsTelescope(s);
  }

  lemma {:induction false} MonotoneForward(s: seq<Rec>)
    requires Monotone(s)
    ensures Backward(s) == 0
  {
    if |s| >= 2 { MonotoneForward(s[..|s| - 1]); }
  }

  // --- features ------------------------------------------------------------------

  function Micros(ticks: real, hz: real): real
    requires hz > 0.0
  {
    ticks * 1000000.0 / hz
  }

  function Features(e: Entry, hz: real): (f: seq<real>)
    requires hz > 0.0
    ensures |f| == 8
  {
    [ e.lenMin as real,
      e.lenMax as real,
      if e.count != 0 then Mean(e.lenSum, e.count) else 0.0,
      if e.iatMin == U64 - 1 then 0.0 else Micros(e.iatMin as real, hz),
      Micros(e.iatMax as real, hz),
      if e.count > 1 then Micros(Mean(e.iatSum, e.count - 1), hz) else 0.0,
      e.bytes as real,
      e.flagSum as real ]
  }

  // A tick value, before conversion to microseconds.
  ghost predicate InMicros(x: real, hz: real, ticks: real)
    requires hz > 0.0
  {
    x == Micros(ticks, hz)
  }

  ghost predicate GapBatch(min: real, max: real, mean: real, hz: real, g: seq<nat>)
    requires hz > 0.0
  {
    if g == [] then min == 0.0 && max == 0.0 && mean == 0.0
    else exists lo: nat, hi: nat, m: real ::
           IsMin(lo, g) && IsMax(hi, g) && MeanOrZero(m, g)
           && InMicros(min, hz, lo as real) && InMicros(max, hz, hi as real) && InMicros(mean, hz, m)
  }

  ghost predicate IsBatch(f: seq<real>, s: seq<Rec>, hz: real)
    requires hz > 0.0
  {
    && |f| == 8
    && MinOrZero(f[0], Lens(s)) && MaxOrZero(f[1], Lens(s)) && MeanOrZero(f[2], Lens(s))
    && GapBatch(f[3], f[4], f[5], hz, Gaps(s))
    && f[6] == Total(Lens(s)) as real && f[7] == Total(Flags(s)) as real
  }

  // The gap features are right exactly when the sum did not wrap, unless the
  // window's one gap is the value that stands for none.
  lemma {:induction false} GapFeatures(e: Entry, g: seq<nat>, hz: real)
    requires hz > 0.0 && GapsAgree(e, g) && e.count == |g| + 1 && forall i :: 0 <= i < |g| ==> g[i] < U64
    ensures var f := Features(e, hz); GapBatch(f[3], f[4], f[5], hz, g) <==> Total(g) < U64 && g != [U64 - 1]
  {
    if g == [] {
      GapFeaturesOf(e, hz);
      MicrosZero(hz);
    } else if Total(g) < U64 && g != [U64 - 1] {
      LeastGap(g, e.iatMin);
      GapSome(e, g, hz);
    } else {
      GapWrong(e, g, hz);
    }
  }

  lemma {:induction false} LeastGap(g: seq<nat>, lo: nat)
    requires g != [] && IsMin(lo, g) && Total(g) < U64 && g != [U64 - 1] && forall i :: 0 <= i < |g| ==> g[i] < U64
    ensures lo < U64 - 1
  {
    if lo >= U64 - 1 {
      TotalBetween(g, U64 - 1, U64 - 1);
    }
  }

  lemma {:induction false} GapWrong(e: Entry, g: seq<nat>, hz: real)
    requires hz > 0.0 && g != [] && e.count == |g| + 1 && e.iatSum == Total(g) % U64 && IsMin(e.iatMin, g)
    requires Total(g) >= U64 || g == [U64 - 1]
    ensures var f := Features(e, hz); !GapBatch(f[3], f[4], f[5], hz, g)
  {
    var f := Features(e, hz);
    GapFeaturesOf(e, hz);
    if GapBatch(f[3], f[4], f[5], hz, g) {
      var lo, m := GapTicks(f[3], f[4], f[5], hz, g);
      if g == [U64 - 1] { NoGapNotLeast(lo, hz); } else { SumFits(m, e.iatSum, g, hz); }
    }
  }

  lemma {:induction false} GapTicks(min: real, max: real, mean: real, hz: real, g: seq<nat>) returns (lo: nat, m: real)
    requires hz > 0.0 && g != [] && GapBatch(min, max, mean, hz, g)
    ensures IsMin(lo, g) && MeanOrZero(m, g) && min == Micros(lo as real, hz) && mean == Micros(m, hz)
  {
    var x: nat, hi: nat, y: real :|
      IsMin(x, g) && IsMax(hi, g) && MeanOrZero(y, g)
      && InMicros(min, hz, x as real) && InMicros(max, hz, hi as real) && InMicros(mean, hz, y);
    lo, m := x, y;
  }

  lemma {:induction false} NoGapNotLeast(lo: nat, hz: real)
    requires hz > 0.0 && lo > 0
    ensures Micros(lo as real, hz) != 0.0
  {
    MicrosZero(hz);
    if Micros(lo as real, hz) == 0.0 { MicrosInjective(0.0, lo as real, hz); }
  }

  lemma {:induction false} SumFits(m: real, sum: nat, g: seq<nat>, hz: real)
    requires hz > 0.0 && g != [] && MeanOrZero(m, g) && Micros(m, hz) == Micros(Mean(sum, |g|), hz)
    ensures Total(g) == sum
  {
    MicrosInjective(m, Mean(sum, |g|), hz);
    QuotientAverages(sum, |g|);
    assert Total(g) as real == sum as real;
  }

  lemma {:induction false} MicrosInjective(a: real, b: real, hz: real)
    requires hz > 0.0 && Micros(a, hz) == Micros(b, hz)
    ensures a == b
  {
    var k := 1000000.0 / hz;
    assert k > 0.0 && Micros(a, hz) == a * k && Micros(b, hz) == b * k;
    CancelLe(a, b, k);
    CancelLe(b, a, k);
  }

  lemma {:induction false} GapSome(e: Entry, g: seq<nat>, hz: real)
    requires hz > 0.0 && g != [] && e.count == |g| + 1 && e.iatSum == Total(g)
    requires IsMin(e.iatMin, g) && IsMax(e.iatMax, g) && e.iatMin < U64 - 1
    ensures var f := Features(e, hz); GapBatch(f[3], f[4], f[5], hz, g)
  {
    var f := Features(e, hz);
    GapFeaturesOf(e, hz);
    MeanIs(e.iatSum, g);
    GapBatchOf(f[3], f[4], f[5], hz, g, e.iatMin, e.iatMax, Mean(e.iatSum, |g|));
  }

  lemma {:induction false} GapFeaturesOf(e: Entry, hz: real)
    requires hz > 0.0
    ensures var f := Features(e, hz);
            && f[3] == (if e.iatMin == U64 - 1 then 0.0 else Micros(e.iatMin as real, hz))
            && f[4] == Micros(e.iatMax as real, hz)
            && f[5] == if e.count > 1 then Micros(Mean(e.iatSum, e.count - 1), hz) else 0.0
  {}

  lemma {:induction false} MicrosZero(hz: real)
    requires hz > 0.0
    ensures Micros(0.0, hz) == 0.0
  {}

  lemma {:induction false} GapBatchOf(min: real, max: real, mean: real, hz: real, g: seq<nat>, lo: nat, hi: nat,
      m: real)
    requires hz > 0.0 && g != [] && IsMin(lo, g) && IsMax(hi, g) && MeanOrZero(m, g)
    requires InMicros(min, hz, lo as real) && InMicros(max, hz, hi as real) && InMicros(mean, hz, m)
    ensures GapBatch(min, max, mean, hz, g)
  {}

  lemma {:induction false} LenFeatures(e: Entry, s: seq<Rec>, hz: real)
    requires hz > 0.0 && s != [] && e.count == |s| && LensAgree(e, Lens(s)) && e.flagSum == Total(Flags(s))
    ensures var f := Features(e, hz);
            && MinOrZero(f[0], Lens(s)) && MaxOrZero(f[1], Lens(s)) && MeanOrZero(f[2], Lens(s))
            && f[6] == Total(Lens(s)) as real && f[7] == Total(Flags(s)) as real
  {
    MeanIs(e.lenSum, Lens(s));
    assert RealMin(e.lenMin as real, Lens(s), e.lenMin) && RealMax(e.lenMax as real, Lens(s), e.lenMax);
  }

  // The vector is the batch vector of its window exactly when the window spans
  // less than one turn of the clock, and its only gap is not 2^64 - 1.
  lemma {:induction false} FeaturesExactIff(s: seq<Rec>, hz: real)
    requires hz > 0.0 && Valid(s) && s != []
    ensures IsBatch(Features(EntryOf(s), hz), s, hz) <==> WithinTurn(s) && Gaps(s) != [U64 - 1]
  {
    var e := EntryOf(s);
    EntryAgrees(s);
    SumFitsIff(s);
    GapFacts(s);
    GapFeatures(e, Gaps(s), hz);
    LenFeatures(e, s, hz);
  }

  // A clock that does not run backwards stays within a turn.
  lemma {:induction false} ForwardWithinTurn(s: seq<Rec>)
    requires s != [] && Monotone(s) && forall i :: 0 <= i < |s| ==> s[i].now < U64 - 1
    ensures WithinTurn(s) && Gaps(s) != [U64 - 1]
  {
    MonotoneForward(s);
    if |s| == 2 { assert Gaps(s)[0] == s[1].now - s[0].now; }
    GapFacts(s);
  }

  // --- the contract ----------------------------------------------------------------

  predicate ValidateIot(f: seq<real>)
    requires |f| == 8
  {
    if f[0] < 0.0 || f[1] < 0.0 || f[2] < 0.0 then false
    else if f[0] > f[2] || f[2] > f[1] then false
    else if f[3] < 0.0 || f[4] < 0.0 || f[5] < 0.0 then false
    else if f[3] > f[5] || f[5] > f[4] then false
    else if f[6] < 0.0 || f[7] < 0.0 then false
    else true
  }

  // It accepts exactly the vectors with nothing negative and both means between
  // their extremes.
  lemma {:induction false} AcceptsIff(f: seq<real>)
    requires |f| == 8
    ensures ValidateIot(f) <==> 0.0 <= f[0] <= f[2] <= f[1] && 0.0 <= f[3] <= f[5] <= f[4] && f[6] >= 0.0 && f[7] >= 0.0
  {}

  lemma {:induction false} MicrosOrder(a: real, b: real, hz: real)
    requires hz > 0.0
    ensures a <= b <==> Micros(a, hz) <= Micros(b, hz)
  {
    var k := 1000000.0 / hz;
    assert k > 0.0 && Micros(a, hz) == a * k && Micros(b, hz) == b * k;
    if Micros(a, hz) <= Micros(b, hz) { CancelLe(a, b, k); }
  }

  lemma {:induction false} BatchValidates(f: seq<real>, s: seq<Rec>, hz: real)
    requires hz > 0.0 && s != [] && IsBatch(f, s, hz)
    ensures ValidateIot(f)
  {
    LensOrdered(f, s);
    if Gaps(s) != [] { GapOrder(f[3], f[4], f[5], hz, Gaps(s)); }
  }

  lemma {:induction false} GapOrder(min: real, max: real, mean: real, hz: real, g: seq<nat>)
    requires hz > 0.0 && g != [] && GapBatch(min, max, mean, hz, g)
    ensures 0.0 <= min <= mean <= max
  {
    var lo: nat, hi: nat, m: real :|
      IsMin(lo, g) && IsMax(hi, g) && MeanOrZero(m, g)
      && InMicros(min, hz, lo as real) && InMicros(max, hz, hi as real) && InMicros(mean, hz, m);
    MeanBetween(m, g, lo, hi);
    MicrosOrder(0.0, lo as real, hz);
    MicrosOrder(lo as real, m, hz);
    MicrosOrder(m, hi as real, hz);
  }

  // A least gap of 2^64 - 1 is written as zero.
  function Shown(lo: nat): nat { if lo == U64 - 1 then 0 else lo }

  lemma {:induction false} MeanOrder(x: nat, sum: nat, n: nat)
    requires n > 0
    ensures x as real <= Mean(sum, n) <==> x * n <= sum
    ensures Mean(sum, n) <= x as real <==> sum <= x * n
  {
    CastMul(x, n);
    QuotientAverages(sum, n);
    if x * n <= sum { CancelLe(x as real, Mean(sum, n), n as real); }
    if sum <= x * n { CancelLe(Mean(sum, n), x as real, n as real); }
  }

  lemma {:induction false} GapsOrderedIff(e: Entry, g: seq<nat>, hz: real)
    requires hz > 0.0 && g != [] && GapsAgree(e, g) && e.count == |g| + 1
    ensures var f := Features(e, hz);
            0.0 <= f[3] <= f[5] <= f[4] <==> Shown(e.iatMin) * |g| <= Total(g) % U64
  {
    GapFeaturesOf(e, hz);
    MicrosZero(hz);
    var lo, hi, mean := Shown(e.iatMin), e.iatMax, Mean(e.iatSum, |g|);
    TotalBetween(g, 0, hi);
    MeanOrder(lo, e.iatSum, |g|);
    MeanOrder(hi, e.iatSum, |g|);
    MicrosOrder(0.0, lo as real, hz);
    MicrosOrder(lo as real, mean, hz);
    MicrosOrder(mean, hi as real, hz);
  }

  lemma {:induction false} LensOrdered(f: seq<real>, s: seq<Rec>)
    requires |f| == 8 && s != []
    requires MinOrZero(f[0], Lens(s)) && MaxOrZero(f[1], Lens(s)) && MeanOrZero(f[2], Lens(s))
    ensures 0.0 <= f[0] <= f[2] <= f[1]
  {
    var v := Lens(s);
    var lo: nat :| RealMin(f[0], v, lo);
    var hi: nat :| RealMax(f[1], v, hi);
    MeanBetween(f[2], v, lo, hi);
  }

  // The vector of any window passes the contract exactly when the gap sum, as
  // far as it is kept, is not below the least gap times their number.
  lemma {:induction false} ValidIff(s: seq<Rec>, hz: real)
    requires hz > 0.0 && Valid(s) && s != []
    ensures var g := Gaps(s);
            ValidateIot(Features(EntryOf(s), hz))
            <==> forall lo: nat :: IsMin(lo, g) ==> Shown(lo) * |g| <= Total(g) % U64
  {
    var e := EntryOf(s);
    EntryAgrees(s);
    GapFacts(s);
    LenFeatures(e, s, hz);
    LensOrdered(Features(e, hz), s);
    AcceptsIff(Features(e, hz));
    GapsValidIff(e, Gaps(s), hz);
  }

  lemma {:induction false} GapsValidIff(e: Entry, g: seq<nat>, hz: real)
    requires hz > 0.0 && GapsAgree(e, g) && e.count == |g| + 1
    ensures var f := Features(e, hz);
            0.0 <= f[3] <= f[5] <= f[4] <==> forall lo: nat :: IsMin(lo, g) ==> Shown(lo) * |g| <= Total(g) % U64
  {
    if g == [] {
      GapFeaturesOf(e, hz);
      MicrosZero(hz);
    } else {
      GapsOrderedIff(e, g, hz);
    }
  }

  // So with every gap kept in full the vector passes.
  lemma {:induction false} WithinTurnValidates(s: seq<Rec>, hz: real)
    requires hz > 0.0 && Valid(s) && s != [] && WithinTurn(s)
    ensures ValidateIot(Features(EntryOf(s), hz))
  {
    SumFitsIff(s);
    ValidIff(s, hz);
    GapFacts(s);
    forall lo: nat | IsMin(lo, Gaps(s)) ensures Shown(lo) * |Gaps(s)| <= Total(Gaps(s)) % U64 {
      LeastTimes(Gaps(s), lo);
    }
  }

  lemma {:induction false} LeastTimes(g: seq<nat>, lo: nat)
    requires IsMin(lo, g) && Total(g) < U64 && forall i :: 0 <= i < |g| ==> g[i] < U64
    ensures Shown(lo) * |g| <= Total(g) % U64
  {
    TotalBetween(g, Shown(lo), U64);
  }

  // --- the profile -------------------------------------------------------------------

  // iot_init_worker: a configured window of zero means eight packets.
  function EffectiveWindow(configured: nat): nat {
    if configured != 0 then configured else 8
  }

  // A parsed TCP packet: the IP total length, or the frame length when the
  // header carries none, and the flag byte.
  datatype Packet = Packet(key: Key5, ipTotal: nat, frameLen: nat, tcpFlags: nat)

  function PopCount8(x: nat): (n: nat)
    ensures n <= 8
  {
    Words.CountBound(x, 8);
    Words.Count(x, 8)
  }

  function Decode(p: Packet, now: nat): Rec {
    Rec(if p.ipTotal != 0 then p.ipTotal % U16 else p.frameLen % U16, now, PopCount8(p.tcpFlags))
  }

  ghost function FlagBits(tcpFlags: nat): set<nat> { set i: nat | i < 8 && Words.Bit(tcpFlags, i) }

  // The IP total length, or the frame's where the header has none, both of 16
  // bits; and how many of the eight flag bits are set.
  lemma {:induction false} DecodeMeans(p: Packet, now: nat)
    ensures var r := Decode(p, now);
            && (p.ipTotal != 0 ==> r.len == p.ipTotal % 0x1_0000) && (p.ipTotal == 0 ==> r.len == p.frameLen % 0x1_0000)
            && r.now == now && r.flags == |FlagBits(p.tcpFlags)|
  {
    Words.CountIs(p.tcpFlags, 8);
    assert Words.BitsBelow(p.tcpFlags, 8) == FlagBits(p.tcpFlags);
  }

  // A TCP packet adds exactly that record to its connection's window.
  lemma {:induction false} PacketAddsRecord(w: Win<Key5, Rec>, p: Packet, now: nat, insertOk: bool,
      window: nat, capacity: nat)
    ensures var len := if p.ipTotal != 0 then p.ipTotal % 0x1_0000 else p.frameLen % 0x1_0000;
            Take(w, ArrivalOf(p, now, insertOk), window, capacity)
            == Feed(w, Event(Canonicalize(p.key), Rec(len, now, |FlagBits(p.tcpFlags)|), insertOk), window, capacity)
  {
    DecodeMeans(p, now);
  }

  ghost predicate RecordsFit(open: map<Key5, seq<Rec>>) {
    forall k :: k in open ==> forall i :: 0 <= i < |open[k]| ==> InRange(open[k][i])
  }

  predicate InRange(r: Rec) { r.len < U16 && r.now < U64 && r.flags <= 8 }

  function Emitter(hz: real): Entry -> seq<real>
    requires hz > 0.0
  {
    e => Features(e, hz)
  }

  ghost predicate IsIot(t: Tracker<Rec, Entry>, hz: real)
    requires hz > 0.0
    reads t
  {
    && t.update == Update && t.reset == RESET && t.emit == Emitter(hz) && t.count == Count
    && t.window < U16 && RecordsFit(t.win.open)
  }

  lemma {:induction false} FeedFits(w: Win<Key5, Rec>, e: Event<Key5, Rec>, window: nat, capacity: nat)
    requires RecordsFit(w.open) && InRange(e.rec)
    ensures RecordsFit(Feed(w, e, window, capacity).open)
    ensures forall i :: 0 <= i < |Chunk(w, e)| ==> InRange(Chunk(w, e)[i])
  {}

  method Init(configured: nat, capacity: nat, hz: real) returns (t: Tracker<Rec, Entry>)
    requires configured < U16 && hz > 0.0
    ensures t.Valid() && IsIot(t, hz) && t.window == (if configured == 0 then 8 else configured)
    ensures t.win == Win(map[], []) && t.q.contents == [] && t.q.dropped == 0 && t.flows.entries.Length == capacity
    ensures fresh(t) && fresh(t.flows) && fresh(t.flows.entries) && fresh(t.q) && fresh(t.q.items)
  {
    t := new Tracker<Rec, Entry>(Update, RESET, Emitter(hz), Count, EffectiveWindow(configured), capacity);
  }

  function ArrivalOf(p: Packet, now: nat, insertOk: bool): Arrival<Rec>
  {
    Arrival(p.key, Some(Decode(p, now)), insertOk)
  }

  function VectorOf(hz: real): seq<Rec> -> seq<real>
    requires hz > 0.0
  {
    s => Features(EntryOf(s), hz)
  }

  // Every packet is one step of its connection's window.
  method ProcessPacket(t: Tracker<Rec, Entry>, p: Packet, now: nat, hz: real, insertOk: bool)
    requires hz > 0.0 && t.Valid() && IsIot(t, hz) && now < U64
    modifies t, t.flows, t.flows.entries, t.q, t.q.items
    ensures t.Valid() && IsIot(t, hz)
    ensures t.win == Take(old(t.win), ArrivalOf(p, now, insertOk), t.window, t.flows.entries.Length)
    ensures var offered := Offered(old(t.win), ArrivalOf(p, now, insertOk), VectorOf(hz), t.window,
             t.flows.entries.Length);
            && t.q.contents == Kept(old(t.q.contents), offered)
            && t.q.dropped == old(t.q.dropped) + Lost(old(t.q.contents), offered)
  {
    AddRecord(t, Canonicalize(p.key), Decode(p, now), hz, insertOk);
  }

  // The packet, and what the worker then takes from the queue.
  method ServePacket(t: Tracker<Rec, Entry>, p: Packet, now: nat, hz: real, insertOk: bool)
    returns (popped: seq<Vector>)
    requires hz > 0.0 && t.Valid() && IsIot(t, hz) && t.q.contents == [] && now < U64
    modifies t, t.flows, t.flows.entries, t.q, t.q.items
    ensures t.Valid() && IsIot(t, hz) && t.q.contents == []
    ensures t.win == Take(old(t.win), ArrivalOf(p, now, insertOk), t.window, t.flows.entries.Length)
    ensures var offered := Offered(old(t.win), ArrivalOf(p, now, insertOk), VectorOf(hz), t.window,
             t.flows.entries.Length);
            popped == Kept([], offered) && t.q.dropped == old(t.q.dropped) + Lost([], offered)
  {
    ProcessPacket(t, p, now, hz, insertOk);
    popped := t.Drain();
  }

  method AddRecord(t: Tracker<Rec, Entry>, key: Key5, rec: Rec, hz: real, insertOk: bool)
    requires hz > 0.0 && t.Valid() && IsIot(t, hz) && InRange(rec)
    modifies t, t.flows, t.flows.entries, t.q, t.q.items
    ensures t.Valid() && IsIot(t, hz)
    ensures t.win == Feed(old(t.win), Event(key, rec, insertOk), t.window, t.flows.entries.Length)
    ensures var e := Event(key, rec, insertOk);
            var burst := if Completes(old(t.win), e, t.window, t.flows.entries.Length)
                         then [(VectorOf(hz)(Chunk(old(t.win), e)), key)] else [];
            && t.q.contents == Kept(old(t.q.contents), burst)
            && t.q.dropped == old(t.q.dropped) + Lost(old(t.q.contents), burst)
  {
    ghost var e := Event(key, rec, insertOk);
    FeedFits(t.win, e, t.window, t.flows.entries.Length);
    EntryAgrees(Chunk(t.win, e));
    OfferIsKept(t.q.contents, Completes(t.win, e, t.window, t.flows.entries.Length), t.VectorOf(key, Chunk(t.win, e)));
    t.Process(key, rec, insertOk);
  }

  method ServeNext(t: Tracker<Rec, Entry>, x: Turn, hz: real, ghost before: seq<Arrival<Rec>>, popped: seq<Vector>)
    returns (all: seq<Vector>)
    requires hz > 0.0 && t.Valid() && IsIot(t, hz) && x.now < U64 && Served(t, before, VectorOf(hz), popped)
    modifies t, t.flows, t.flows.entries, t.q, t.q.items
    ensures t.Valid() && IsIot(t, hz) && Served(t, before + [ArrivalOf(x.p, x.now, x.insertOk)], VectorOf(hz), all)
    ensures t.q.dropped == old(t.q.dropped)
  {
    ServedNext(before, ArrivalOf(x.p, x.now, x.insertOk), t.win, VectorOf(hz), t.window, t.flows.entries.Length);
    var more := ServePacket(t, x.p, x.now, hz, x.insertOk);
    all := popped + more;
  }

  // A TCP packet, when it arrives, and whether the hash would accept its flow.
  datatype Turn = Turn(p: Packet, now: nat, insertOk: bool)

  function ArrivalsOf(xs: seq<Turn>): seq<Arrival<Rec>> {
    seq(|xs|, i requires 0 <= i < |xs| => ArrivalOf(xs[i].p, xs[i].now, xs[i].insertOk))
  }

  // Packet by packet, with the queue drained in between.
  method ServeAll(t: Tracker<Rec, Entry>, xs: seq<Turn>, hz: real) returns (popped: seq<Vector>)
    requires hz > 0.0 && t.Valid() && IsIot(t, hz) && t.q.contents == [] && t.win == Win(map[], [])
    requires forall i :: 0 <= i < |xs| ==> xs[i].now < U64
    modifies t, t.flows, t.flows.entries, t.q, t.q.items
    ensures t.Valid() && IsIot(t, hz) && Served(t, ArrivalsOf(xs), VectorOf(hz), popped)
    ensures t.q.dropped == old(t.q.dropped)
  {
    popped := [];
    ghost var all := ArrivalsOf(xs);
    for i := 0 to |xs|
      invariant t.Valid() && IsIot(t, hz) && Served(t, all[..i], VectorOf(hz), popped)
          && t.q.dropped == old(t.q.dropped)
    {
      PrefixNext(all, i);
      popped := ServeNext(t, xs[i], hz, all[..i], popped);
    }
    assert all[..|xs|] == all;
  }

  lemma {:induction false} RecordsInRange(events: seq<Event<Key5, Rec>>, key: Key5)
    requires forall e :: e in events ==> InRange(e.rec)
    ensures forall i :: 0 <= i < |Records(events, key)| ==> InRange(Records(events, key)[i])
  {
    if events != [] { RecordsInRange(events[..|events| - 1], key); }
  }

  // A clock that never runs backwards over all traffic does not for any key.
  lemma {:induction false} RecordsOrdered(events: seq<Event<Key5, Rec>>, key: Key5)
    requires forall a, b :: 0 <= a <= b < |events| ==> events[a].rec.now <= events[b].rec.now
    ensures var r := Records(events, key);
            Monotone(r) && (r != [] ==> events != [] && r[|r| - 1].now <= events[|events| - 1].rec.now)
  {
    if events != [] {
      RecordsOrdered(events[..|events| - 1], key);
    }
  }
}
