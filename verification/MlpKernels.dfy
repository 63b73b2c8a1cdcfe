// The hand-written MLP kernels: scalar and four-wide layers over scratch
// buffers, and the prediction loop that swaps the buffers.
module MlpKernels {
  import opened LinearLayer
  import opened Arithmetic
  import opened PredictProgram

  method NeuronScalar(W: seq<real>, B: seq<real>, inp: array<real>, K: nat, N: nat, relu: bool, j: nat, ghost M: Matrix)
    returns (v: real)
    requires Shaped(M, K, N) && W == Flat(M, K, N) && |B| == N && K <= inp.Length && j < N
    ensures v == Neuron(M, B, inp[..], K, N, relu, j)
  {
    var acc := B[j];
    ghost var t := Terms(M, inp[..], K, N, j);
    for k := 0 to K
      invariant acc == B[j] + Sum(t, k)
    {
      TileRowsAt(M, N, 0, N, K, k, j);
      acc := acc + Prod(W[k * N + j], inp[k]);
    }
    v := if relu && acc < 0.0 then 0.0 else acc;
  }

  method LayerScalar(W: seq<real>, B: seq<real>, inp: array<real>, out: array<real>, K: nat, N: nat, relu: bool,
      ghost M: Matrix)
    requires Shaped(M, K, N) && W == Flat(M, K, N) && |B| == N && inp != out
    requires K <= inp.Length && N <= out.Length
    modifies out
    ensures out[..] == Layer(M, B, old(inp[..]), K, N, relu) + old(out[N..])
    ensures IsDense(out[..], M, B, old(inp[..]), K, N, relu)
  {
    ghost var l := Layer(M, B, inp[..], K, N, relu);
    for j := 0 to N
      invariant inp[..] == old(inp[..])
      invariant out[..j] == l[..j] && out[N..] == old(out[N..])
    {
      var v := NeuronScalar(W, B, inp, K, N, relu, j, M);
      out[j] := v;
      assert out[..j + 1] == out[..j] + [v];
    }
    assert out[..] == out[..N] + out[N..];
    LayerIsDense(M, B, inp[..], K, N, relu, out[..]);
  }

  // Four accumulators in lockstep, then a scalar tail for the last N % 4 outputs.
  method LayerNeon(W: seq<real>, B: seq<real>, inp: array<real>, out: array<real>, K: nat, N: nat, relu: bool,
      ghost M: Matrix)
    requires Shaped(M, K, N) && W == Flat(M, K, N) && |B| == N && inp != out
    requires K <= inp.Length && N <= out.Length
    modifies out
    ensures out[..] == Layer(M, B, old(inp[..]), K, N, relu) + old(out[N..])
    ensures IsDense(out[..], M, B, old(inp[..]), K, N, relu)
  {
    ghost var l := Layer(M, B, inp[..], K, N, relu);
    var j := 0;
    while j + 4 <= N
      invariant 0 <= j <= N
      invariant inp[..] == old(inp[..])
      invariant out[..j] == l[..j] && out[N..] == old(out[N..])
    {
      var v := FourNeurons(W, B, inp, K, N, relu, j, M);
      StoreFour(out, j, v);
      assert out[N..] == old(out[N..]);
      assert l[..j + 4] == l[..j] + l[j..j + 4];
      j := j + 4;
    }
    while j < N
      invariant 0 <= j <= N
      invariant inp[..] == old(inp[..])
      invariant out[..j] == l[..j] && out[N..] == old(out[N..])
    {
      var v := NeuronScalar(W, B, inp, K, N, relu, j, M);
      out[j] := v;
      assert out[..j + 1] == out[..j] + [v];
      j := j + 1;
    }
    assert out[..] == out[..N] + out[N..];
    LayerIsDense(M, B, inp[..], K, N, relu, out[..]);
  }

  method StoreFour(out: array<real>, j: nat, v: seq<real>)
    requires |v| == 4 && j + 4 <= out.Length
    modifies out
    ensures out[..j + 4] == old(out[..j]) + v && out[j + 4..] == old(out[j + 4..])
    ensures forall i :: j + 4 <= i < out.Length ==> out[i] == old(out[i])
  {
    out[j], out[j + 1], out[j + 2], out[j + 3] := v[0], v[1], v[2], v[3];
    assert out[..j] == old(out[..j]);
  }

  method FourNeurons(W: seq<real>, B: seq<real>, inp: array<real>, K: nat, N: nat, relu: bool, j: nat, ghost M: Matrix)
    returns (v: seq<real>)
    requires Shaped(M, K, N) && W == Flat(M, K, N) && |B| == N && K <= inp.Length && j + 4 <= N
    ensures v == Layer(M, B, inp[..], K, N, relu)[j..j + 4]
  {
    var a0, a1, a2, a3 := B[j], B[j + 1], B[j + 2], B[j + 3];
    ghost var x := inp[..];
    for k := 0 to K
      invariant a0 == B[j] + Sum(Terms(M, x, K, N, j), k)
      invariant a1 == B[j + 1] + Sum(Terms(M, x, K, N, j + 1), k)
      invariant a2 == B[j + 2] + Sum(Terms(M, x, K, N, j + 2), k)
      invariant a3 == B[j + 3] + Sum(Terms(M, x, K, N, j + 3), k)
    {
      var w := WeightRow(W, K, N, k, j, M);
      a0 := a0 + Prod(w[0], inp[k]);
      a1 := a1 + Prod(w[1], inp[k]);
      a2 := a2 + Prod(w[2], inp[k]);
      a3 := a3 + Prod(w[3], inp[k]);
    }
    v := if relu then [Relu(a0), Relu(a1), Relu(a2), Relu(a3)] else [a0, a1, a2, a3];
    ghost var l := Layer(M, B, x, K, N, relu);
    assert l[j..j + 4] == [l[j], l[j + 1], l[j + 2], l[j + 3]];
  }

  method WeightRow(W: seq<real>, K: nat, N: nat, k: nat, j: nat, ghost M: Matrix) returns (w: seq<real>)
    requires Shaped(M, K, N) && W == Flat(M, K, N) && k < K && j + 4 <= N
    ensures w == M[k][j..j + 4]
  {
    TileRowsAt(M, N, 0, N, K, k, j);
    TileRowsAt(M, N, 0, N, K, k, j + 1);
    TileRowsAt(M, N, 0, N, K, k, j + 2);
    TileRowsAt(M, N, 0, N, K, k, j + 3);
    w := [W[k * N + j], W[k * N + j + 1], W[k * N + j + 2], W[k * N + j + 3]];
  }

  function FastSigmoid(x: real): real {
    0.5 * (x / (1.0 + Abs(x))) + 0.5
  }

  lemma {:induction false} CrossPositive(x: real, y: real)
    requires x < y
    ensures x * (1.0 + Abs(y)) < y * (1.0 + Abs(x))
  {
    var p := x * y;
    assert x * Abs(y) == if y < 0.0 then -p else p;
    assert y * Abs(x) == if x < 0.0 then -p else p;
    if x < 0.0 && y >= 0.0 { assert p <= 0.0; }
  }

  lemma {:induction false} QuotientLess(x: real, y: real, a: real, b: real)
    requires a > 0.0 && b > 0.0 && x * b < y * a
    ensures x / a < y / b
  {
    var q, r := x / a, y / b;
    assert q * a == x && r * b == y;
    assert q * (a * b) == x * b && r * (a * b) == y * a;
    CancelLess(q, r, a * b);
  }

  // The approximation keeps the order of its arguments and crosses 0.5 at 0,
  // so thresholding it is thresholding the logit.
  lemma {:induction false} FastSigmoidMonotone(x: real, y: real)
    requires x < y
    ensures FastSigmoid(x) < FastSigmoid(y)
  {
    CrossPositive(x, y);
    QuotientLess(x, y, 1.0 + Abs(x), 1.0 + Abs(y));
  }

  lemma {:induction false} FastSigmoidThreshold(x: real)
    ensures FastSigmoid(x) >= 0.5 <==> x >= 0.0
  {
    if x > 0.0 { FastSigmoidMonotone(0.0, x); }
    if x < 0.0 { FastSigmoidMonotone(x, 0.0); }
  }

  lemma {:induction false} CancelLess(x: real, y: real, n: real)
    requires n > 0.0 && x * n < y * n
    ensures x < y
  {
    if x >= y { CancelLe(x, y, n); }
  }

  // It lies strictly between zero and one, and twice its distance from one half
  // is x over one more than its size.
  lemma {:induction false} FastSigmoidShape(x: real)
    ensures 0.0 < FastSigmoid(x) < 1.0
    ensures (2.0 * FastSigmoid(x) - 1.0) * (if x >= 0.0 then 1.0 + x else 1.0 - x) == x
  {
    var d := 1.0 + Abs(x);
    var q := x / d;
    assert q * d == x;
    CancelLess(q, 1.0, d);
    CancelLess(-1.0, q, d);
  }

  method RunStage(s: Stage, neon: bool, inp: array<real>, out: array<real>, ghost a: seq<real>)
    requires s.Ok() && inp != out && s.K <= inp.Length && s.N <= out.Length
    requires |a| == s.K && a <= inp[..]
    modifies out
    ensures Layer(s.W, s.B, a, s.K, s.N, s.relu) <= out[..]
  {
    assert inp[..][..s.K] == a[..s.K];
    LayerReadsPrefix(s.W, s.B, a, inp[..], s.K, s.N, s.relu);
    var flat := Flat(s.W, s.K, s.N);
    if neon {
      LayerNeon(flat, s.B, inp, out, s.K, s.N, s.relu, s.W);
    } else {
      LayerScalar(flat, s.B, inp, out, s.K, s.N, s.relu, s.W);
    }
  }

  // Width of the two scratch buffers.
  ghost predicate FitsScratch(net: seq<Stage>, maxn: nat) {
    forall i :: 0 <= i < |net| ==> net[i].K <= maxn && net[i].N <= maxn
  }

  method Predict(net: seq<Stage>, x: seq<real>, neon: bool, maxn: nat) returns (c: nat)
    requires Chained(net) && |x| == net[0].K && FitsScratch(net, maxn)
    requires net[|net| - 1].N >= 1
    ensures exists logits :: Yields(net, x, logits)
              && if |logits| == 1 then c == (if logits[0] >= 0.0 then 1 else 0) else IsArgmax(logits, c)
  {
    ForwardYields(net, x);
    var bufA := new real[maxn](_ => 0.0);
    var bufB := new real[maxn](_ => 0.0);
    forall i | 0 <= i < |x| { bufA[i] := x[i]; }
    var inp, out := bufA, bufB;
    assert inp[..|x|] == x;
    for l := 0 to |net|
      invariant inp != out && fresh(inp) && fresh(out) && inp.Length == maxn && out.Length == maxn
      invariant Forward(net, x, l) <= inp[..]
    {
      RunStage(net[l], neon, inp, out, Forward(net, x, l));
      inp, out := out, inp;
    }
    var n := net[|net| - 1].N;
    if n == 1 {
      FastSigmoidThreshold(inp[0]);
      c := if FastSigmoid(inp[0]) >= 0.5 then 1 else 0;
    } else {
      c := Argmax(inp[..n]);
    }
  }
}
