// Steps of nonlinear arithmetic, each named once.
module Arithmetic {

  function Abs(a: real): real { if a < 0.0 then -a else a }

  lemma {:induction false} MulMono(a: nat, b: nat, n: nat)
    requires a <= b
    ensures n * a <= n * b
  {}

  lemma {:induction false} MulStep(a: nat, b: nat, n: nat)
    requires a < b
    ensures a * n + n <= b * n
  {
    assert b * n == (a + 1) * n + (b - (a + 1)) * n;
  }

  lemma {:induction false} MulAdd(a: nat, b: nat, n: nat)
    ensures n * (a + b) == n * a + n * b
  {}

  lemma {:induction false} MulOneMore(a: nat, m: nat)
    ensures a * (m + 1) == a * m + a
  {}

  lemma {:induction false} CancelLe(x: real, y: real, n: real)
    requires n > 0.0 && x * n <= y * n
    ensures x <= y
  {}

  lemma {:induction false} CastMul(a: int, b: nat)
    ensures (a * b) as real == a as real * b as real
  {}

  lemma {:induction false} FloorOf(n: nat, q: nat, r: nat, w: nat)
    requires w >= 1 && n == q * w + r && r < w
    ensures q == n / w
  {
    var d := n / w;
    assert n == d * w + n % w;
    if q < d { MulStep(q, d, w); }
    if d < q { MulStep(d, q, w); }
  }
}
