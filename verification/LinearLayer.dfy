// The reference meaning of one dense layer over exact reals, shared by the
// generated kernels and by the hand-written ones.
module LinearLayer {
  import opened Arithmetic

  datatype Option<+T> = None | Some(value: T)

  // Weights are stored [in][out]: row k holds the weights leaving input k.
  type Matrix = seq<seq<real>>

  ghost predicate Shaped(W: Matrix, K: nat, N: nat) {
    |W| == K && forall k :: 0 <= k < K ==> |W[k]| == N
  }

  // Sum of the first n terms of t.
  function Sum(t: seq<real>, n: nat): real
    requires n <= |t|
  {
    if n == 0 then 0.0 else Sum(t, n - 1) + t[n - 1]
  }

  function Prod(a: real, b: real): real { a * b }

  lemma {:induction false} ProdSwap(a: real, b: real)
    ensures Prod(a, b) == Prod(b, a)
  {}

  // The products that output j accumulates, in input order.
  function Terms(W: Matrix, x: seq<real>, K: nat, N: nat, j: nat): seq<real>
    requires Shaped(W, K, N) && K <= |x| && j < N
  {
    seq(K, k requires 0 <= k < K => Prod(W[k][j], x[k]))
  }

  function Relu(v: real): real {
    if v > 0.0 then v else 0.0
  }

  function Activate(v: real, relu: bool): real {
    if relu then Relu(v) else v
  }

  function Neuron(W: Matrix, B: seq<real>, x: seq<real>, K: nat, N: nat, relu: bool, j: nat): real
    requires Shaped(W, K, N) && |B| == N && K <= |x| && j < N
  {
    Activate(B[j] + Sum(Terms(W, x, K, N, j), K), relu)
  }

  // out[j] = activation(B[j] + sum over k of W[k][j] * x[k]).
  function Layer(W: Matrix, B: seq<real>, x: seq<real>, K: nat, N: nat, relu: bool): (out: seq<real>)
    requires Shaped(W, K, N) && |B| == N && K <= |x|
    ensures |out| == N
  {
    seq(N, j requires 0 <= j < N => Neuron(W, B, x, K, N, relu, j))
  }

  // --- what a layer computes, term by term -----------------------------------

  // z is b plus the products W[k][j] * x[k], added one after another.
  ghost predicate IsAffine(z: real, W: Matrix, b: real, x: seq<real>, K: nat, N: nat, j: nat)
    requires Shaped(W, K, N) && K <= |x| && j < N
  {
    exists s: seq<real> :: SumsOf(s, W, x, K, N, j) && z == b + s[K]
  }

  ghost predicate SumsOf(s: seq<real>, W: Matrix, x: seq<real>, K: nat, N: nat, j: nat)
    requires Shaped(W, K, N) && K <= |x| && j < N
  {
    |s| == K + 1 && s[0] == 0.0 && forall k :: 0 <= k < K ==> s[k + 1] == s[k] + W[k][j] * x[k]
  }

  // y is z, or with activation the larger of z and zero.
  ghost predicate IsActivated(y: real, z: real, relu: bool) {
    if relu then y >= 0.0 && y >= z && (y == 0.0 || y == z) else y == z
  }

  // The first N outputs are those of the layer.
  ghost predicate IsDense(out: seq<real>, W: Matrix, B: seq<real>, x: seq<real>, K: nat, N: nat, relu: bool) {
    && Shaped(W, K, N) && |B| == N <= |out| && K <= |x|
    && forall j :: 0 <= j < N ==> IsOutput(out[j], W, B[j], x, K, N, relu, j)
  }

  ghost predicate IsOutput(y: real, W: Matrix, b: real, x: seq<real>, K: nat, N: nat, relu: bool, j: nat)
    requires Shaped(W, K, N) && K <= |x| && j < N
  {
    exists z :: IsAffine(z, W, b, x, K, N, j) && IsActivated(y, z, relu)
  }

  lemma {:induction false} NeuronIsOutput(W: Matrix, B: seq<real>, x: seq<real>, K: nat, N: nat, relu: bool, j: nat)
    requires Shaped(W, K, N) && |B| == N && K <= |x| && j < N
    ensures IsOutput(Neuron(W, B, x, K, N, relu, j), W, B[j], x, K, N, relu, j)
  {
    var t := Terms(W, x, K, N, j);
    var s := seq(K + 1, k requires 0 <= k < K + 1 => Sum(t, k));
    forall k | 0 <= k < K ensures s[k + 1] == s[k] + W[k][j] * x[k] {
      assert t[k] == Prod(W[k][j], x[k]) == W[k][j] * x[k];
    }
    assert SumsOf(s, W, x, K, N, j);
    assert IsAffine(B[j] + s[K], W, B[j], x, K, N, j);
  }

  // Every output of the reference layer, by its products and its activation.
  lemma {:induction false} LayerIsDense(W: Matrix, B: seq<real>, x: seq<real>, K: nat, N: nat, relu: bool,
      out: seq<real>)
    requires Shaped(W, K, N) && |B| == N && K <= |x| && Layer(W, B, x, K, N, relu) <= out
    ensures IsDense(out, W, B, x, K, N, relu)
  {
    forall j | 0 <= j < N ensures IsOutput(out[j], W, B[j], x, K, N, relu, j) {
      assert out[j] == Layer(W, B, x, K, N, relu)[j] == Neuron(W, B, x, K, N, relu, j);
      NeuronIsOutput(W, B, x, K, N, relu, j);
    }
  }

  // Only the first K inputs of a longer buffer are read.
  lemma {:induction false} LayerReadsPrefix(W: Matrix, B: seq<real>, x: seq<real>, y: seq<real>, K: nat, N: nat,
      relu: bool)
    requires Shaped(W, K, N) && |B| == N && K <= |x| && K <= |y| && x[..K] == y[..K]
    ensures Layer(W, B, x, K, N, relu) == Layer(W, B, y, K, N, relu)
  {
    forall j | 0 <= j < N
      ensures Neuron(W, B, x, K, N, relu, j) == Neuron(W, B, y, K, N, relu, j)
    {
      forall k | 0 <= k < K ensures x[k] == y[k] {
        assert x[..K][k] == y[..K][k];
      }
      var tx, ty := Terms(W, x, K, N, j), Terms(W, y, K, N, j);
      assert forall k :: 0 <= k < K ==> tx[k] == ty[k];
      assert tx == ty;
    }
  }

  // --- a matrix in one array ---------------------------------------------

  // Rows 0..k of columns j0..j0+nr, one after another ([K][NR] order).
  function TileRows(W: Matrix, N: nat, j0: nat, nr: nat, k: nat): seq<real>
    requires k <= |W| && j0 + nr <= N && forall i :: 0 <= i < |W| ==> |W[i]| == N
  {
    if k == 0 then [] else TileRows(W, N, j0, nr, k - 1) + W[k - 1][j0..j0 + nr]
  }

  // reshape(-1) of the whole matrix is one tile as wide as the matrix.
  function Flat(W: Matrix, K: nat, N: nat): seq<real>
    requires Shaped(W, K, N)
  {
    TileRows(W, N, 0, N, K)
  }

  lemma {:induction false} TileRowsLength(W: Matrix, N: nat, j0: nat, nr: nat, k: nat)
    requires k <= |W| && j0 + nr <= N && forall i :: 0 <= i < |W| ==> |W[i]| == N
    ensures |TileRows(W, N, j0, nr, k)| == k * nr
  {
    if k > 0 { TileRowsLength(W, N, j0, nr, k - 1); }
  }

  lemma {:induction false} TileRowsAt(W: Matrix, N: nat, j0: nat, nr: nat, k: nat, i: nat, c: nat)
    requires k <= |W| && j0 + nr <= N && forall i :: 0 <= i < |W| ==> |W[i]| == N
    requires i < k && c < nr
    ensures |TileRows(W, N, j0, nr, k)| == k * nr && i * nr + c < k * nr
    ensures TileRows(W, N, j0, nr, k)[i * nr + c] == W[i][j0 + c]
  {
    TileRowsLength(W, N, j0, nr, k);
    TileRowsLength(W, N, j0, nr, k - 1);
    MulStep(i, k, nr);
    if i < k - 1 {
      TileRowsAt(W, N, j0, nr, k - 1, i, c);
    }
  }

  // Lowest index holding the largest value: the loops that end every predictor.
  ghost predicate IsArgmax(v: seq<real>, best: int) {
    && 0 <= best < |v|
    && (forall i :: 0 <= i < |v| ==> v[i] <= v[best])
    && (forall i :: 0 <= i < best ==> v[i] < v[best])
  }

  method Argmax(v: seq<real>) returns (best: nat)
    requires |v| >= 1
    ensures IsArgmax(v, best)
  {
    best := 0;
    var bv := v[0];
    var i := 1;
    while i < |v|
      invariant 1 <= i <= |v| && 0 <= best < i && bv == v[best]
      invariant forall k :: 0 <= k < i ==> v[k] <= v[best]
      invariant forall k :: 0 <= k < best ==> v[k] < v[best]
    {
      if v[i] > bv {
        bv := v[i];
        best := i;
      }
      i := i + 1;
    }
  }
}
