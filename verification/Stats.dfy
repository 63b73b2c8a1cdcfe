// Totals, extremes and means of a batch of naturals.
module Stats {
  import opened Arithmetic

  const U16: nat := 0x1_0000
  const U32: nat := 0x1_0000_0000
  const U64: nat := 0x1_0000_0000_0000_0000

  function Total(v: seq<nat>): nat {
    if v == [] then 0 else Total(v[..|v| - 1]) + v[|v| - 1]
  }

  ghost predicate IsMin(m: nat, v: seq<nat>) { m in v && forall i :: 0 <= i < |v| ==> m <= v[i] }

  ghost predicate IsMax(m: nat, v: seq<nat>) { m in v && forall i :: 0 <= i < |v| ==> v[i] <= m }

  lemma {:induction false} TotalBound(v: seq<nat>)
    requires forall i :: 0 <= i < |v| ==> v[i] < U16
    ensures Total(v) <= |v| * U16
  {
    if v != [] { TotalBound(v[..|v| - 1]); }
  }

  function Mean(sum: nat, n: nat): real
    requires n > 0
  {
    sum as real / n as real
  }

  ghost predicate RealMin(x: real, v: seq<nat>, m: nat) { IsMin(m, v) && x == m as real }

  ghost predicate RealMax(x: real, v: seq<nat>, m: nat) { IsMax(m, v) && x == m as real }

  ghost predicate MinOrZero(x: real, v: seq<nat>) {
    if v == [] then x == 0.0 else exists m: nat :: RealMin(x, v, m)
  }

  ghost predicate MaxOrZero(x: real, v: seq<nat>) {
    if v == [] then x == 0.0 else exists m: nat :: RealMax(x, v, m)
  }

  // x is the mean of n numbers that add up to s.
  ghost predicate Averages(x: real, n: int, s: int) { x * n as real == s as real }

  ghost predicate MeanOrZero(x: real, v: seq<nat>) {
    if v == [] then x == 0.0 else Averages(x, |v|, Total(v))
  }

  lemma {:induction false} TotalSnoc(v: seq<nat>, x: nat)
    ensures Total(v + [x]) == Total(v) + x
  {
    assert (v + [x])[..|v|] == v;
  }

  lemma {:induction false} MeanIs(sum: nat, v: seq<nat>)
    requires v != [] && sum == Total(v)
    ensures MeanOrZero(Mean(sum, |v|), v)
  {
    QuotientAverages(sum, |v|);
  }

  lemma {:induction false} QuotientAverages(s: int, n: nat)
    requires n >= 1
    ensures Averages(s as real / n as real, n, s)
  {}

  lemma {:induction false} TotalBetween(v: seq<nat>, lo: nat, hi: nat)
    requires forall i :: 0 <= i < |v| ==> lo <= v[i] <= hi
    ensures lo * |v| <= Total(v) <= hi * |v|
  {
    if v != [] {
      var m := |v| - 1;
      TotalBetween(v[..m], lo, hi);
      MulOneMore(lo, m);
      MulOneMore(hi, m);
    }
  }

  lemma {:induction false} MeanBetween(x: real, v: seq<nat>, lo: nat, hi: nat)
    requires v != [] && IsMin(lo, v) && IsMax(hi, v) && MeanOrZero(x, v)
    ensures lo as real <= x <= hi as real
  {
    TotalBetween(v, lo, hi);
    RatioBetween(x, Total(v), lo, hi, |v|);
  }

  lemma {:induction false} RatioBetween(x: real, total: nat, lo: nat, hi: nat, n: nat)
    requires n > 0 && lo * n <= total <= hi * n && Averages(x, n, total)
    ensures lo as real <= x <= hi as real
  {
    CastMul(lo, n);
    CastMul(hi, n);
    CancelLe(lo as real, x, n as real);
    CancelLe(x, hi as real, n as real);
  }
}
