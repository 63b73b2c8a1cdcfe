// Whole-layer correctness of the emitted code: remainder columns, the tile
// plan, and the exact condition under which the looped form is safe.
module KernelLayer {
  import opened LinearLayer
  import opened Arithmetic
  import opened TileMachine
  import opened KernelCompiler
  import opened KernelProof

  datatype Shape = Shape(env: Env, W: Matrix, K: nat, N: nat) {
    ghost predicate Ok() {
      && Shaped(W, K, N) && |env.bias| == N && K <= |env.inp|
    }

    // The unpacked weights are laid out row by row.
    ghost predicate RefPlaced()
      requires Ok()
    {
      forall k: nat, j: nat {:trigger At(k, j)} :: k < K && j < N ==>
        At(k, j) < |env.wref| && env.wref[At(k, j)] == W[k][j]
    }

    function At(k: nat, j: nat): nat { k * N + j }

    function T(j: nat): seq<real>
      requires Ok() && j < N
    {
      Terms(W, env.inp, K, N, j)
    }

    function Out(relu: bool, j: nat): real
      requires Ok() && j < N
    {
      Neuron(W, env.bias, env.inp, K, N, relu, j)
    }
  }

  type Dense = x: Shape | x.Ok() && x.RefPlaced() ghost witness Shape(Env([], [], [], []), [], 0, 0)

  // --- remainder columns ---------------------------------------------------

  function Lanes(a: seq<real>, b: seq<real>): real
    requires |a| == 4 && |b| == 4
  {
    (a[0] + b[0]) + (a[1] + b[1]) + (a[2] + b[2]) + (a[3] + b[3])
  }

  // The eight partial sums together hold the first c products of column j.
  ghost predicate DotsAt(x: Dense, s: State, j: nat, c: nat)
    requires j < x.N && c <= x.K
  {
    && Has(s, Dot(0)) && Has(s, Dot(1))
    && Lanes(s.regs[Dot(0)], s.regs[Dot(1)]) == Sum(x.T(j), c)
  }

  lemma {:induction false} Sum4(t: seq<real>, c: nat)
    requires c + 4 <= |t|
    ensures Sum(t, c + 4) == Sum(t, c) + t[c] + t[c + 1] + t[c + 2] + t[c + 3]
  {
    assert Sum(t, c + 2) == Sum(t, c + 1) + t[c + 1];
    assert Sum(t, c + 3) == Sum(t, c + 2) + t[c + 2];
  }

  function Gathered(x: Dense, j: nat, c: nat): seq<real>
    requires j < x.N && c + 4 <= x.K
  {
    [x.W[c][j], x.W[c + 1][j], x.W[c + 2][j], x.W[c + 3][j]]
  }

  lemma {:induction false} GatherRuns(x: Dense, s: State, i: nat, j: nat, k: nat)
    requires j < x.N && k + 4 * i + 4 <= x.K
    ensures Exec(Gather(Column(i), Pos(4 * i, true), x.N, j), k, x.env, s)
         == Some(Put(s, Column(i), Gathered(x, j, k + 4 * i)))
  {
    var c := k + 4 * i;
    assert x.At(c, j) < |x.env.wref| && x.At(c + 1, j) < |x.env.wref|;
    assert x.At(c + 2, j) < |x.env.wref| && x.At(c + 3, j) < |x.env.wref|;
  }

  function HalfDone(x: Dense, s: State, i: nat, j: nat, c: nat): State
    requires j < x.N && c + 4 <= x.K && Has(s, Dot(i))
  {
    var v := x.env.inp[c..c + 4];
    Put(Put(Put(s, In(i), v), Column(i), Gathered(x, j, c)), Dot(i), Fma4(s.regs[Dot(i)], v, Gathered(x, j, c)))
  }

  lemma {:induction false} DotHalfExec(x: Dense, s: State, i: nat, j: nat, k: nat)
    requires j < x.N && k + 4 * i + 4 <= x.K && Has(s, Dot(i))
    ensures Run(DotHalf(i, x.N, j), k, x.env, s) == Some(HalfDone(x, s, i, j, k + 4 * i))
  {
    var c := k + 4 * i;
    var s1 := Put(s, In(i), x.env.inp[c..c + 4]);
    assert Run(Do(LoadInput(In(i), Pos(4 * i, true))), k, x.env, s) == Some(s1);
    GatherRuns(x, s1, i, j, k);
    var s2 := Put(s1, Column(i), Gathered(x, j, c));
    var load := Then(Do(LoadInput(In(i), Pos(4 * i, true))), Do(Gather(Column(i), Pos(4 * i, true), x.N, j)));
    assert Run(load, k, x.env, s) == Some(s2);
    assert Run(Do(FmaReg(Dot(i), In(i), Column(i))), k, x.env, s2) == Some(HalfDone(x, s, i, j, c));
  }

  lemma {:induction false} DotHalfRuns(x: Dense, s: State, i: nat, j: nat, k: nat) returns (s': State)
    requires i < 2 && j < x.N && k + 4 * i + 4 <= x.K && Has(s, Dot(i))
    ensures Run(DotHalf(i, x.N, j), k, x.env, s) == Some(s') && s'.out == s.out && Has(s', Dot(i))
    ensures Has(s, Dot(1 - i)) ==> Has(s', Dot(1 - i)) && s'.regs[Dot(1 - i)] == s.regs[Dot(1 - i)]
    ensures forall l: nat :: l < 4 ==> s'.regs[Dot(i)][l] == s.regs[Dot(i)][l] + x.T(j)[k + 4 * i + l]
  {
    var c := k + 4 * i;
    DotHalfExec(x, s, i, j, k);
    s' := HalfDone(x, s, i, j, c);
    HalfLanes(x, s.regs[Dot(i)], j, c);
  }

  lemma {:induction false} ProductAt(x: Dense, j: nat, c: nat, a: real, b: real)
    requires j < x.N && c < x.K && a == x.W[c][j] && b == x.env.inp[c]
    ensures x.T(j)[c] == Prod(a, b)
  {}

  lemma {:induction false} HalfLanes(x: Dense, acc: seq<real>, j: nat, c: nat)
    requires j < x.N && c + 4 <= x.K && |acc| == 4
    ensures forall l: nat :: l < 4 ==>
              Fma4(acc, x.env.inp[c..c + 4], Gathered(x, j, c))[l] == acc[l] + x.T(j)[c + l]
  {
    var v, g := x.env.inp[c..c + 4], Gathered(x, j, c);
    forall l: nat | l < 4 ensures Fma4(acc, v, g)[l] == acc[l] + x.T(j)[c + l] {
      ProductAt(x, j, c + l, g[l], v[l]);
      ProdSwap(g[l], v[l]);
    }
  }

  lemma {:induction false} DotBodyRuns(x: Dense, s: State, j: nat, k: nat) returns (s': State)
    requires j < x.N && k + 8 <= x.K && DotsAt(x, s, j, k)
    ensures Run(Then(DotHalf(0, x.N, j), DotHalf(1, x.N, j)), k, x.env, s) == Some(s')
    ensures DotsAt(x, s', j, k + 8) && s'.out == s.out
  {
    var s1 := DotHalfRuns(x, s, 0, j, k);
    s' := DotHalfRuns(x, s1, 1, j, k);
    Sum4(x.T(j), k);
    Sum4(x.T(j), k + 4);
  }

  lemma {:induction false} DotLoopRuns(x: Dense, s: State, j: nat, k: nat, bound: nat) returns (s': State)
    requires j < x.N && k <= bound <= x.K && (bound - k) % 8 == 0 && DotsAt(x, s, j, k)
    ensures RunFor(Then(DotHalf(0, x.N, j), DotHalf(1, x.N, j)), k, bound, 8, x.env, s) == Some(s')
    ensures DotsAt(x, s', j, bound) && s'.out == s.out
    decreases bound - k
  {
    if k == bound {
      s' := s;
    } else {
      var s1 := DotBodyRuns(x, s, j, k);
      s' := DotLoopRuns(x, s1, j, k + 8, bound);
    }
  }

  lemma {:induction false} DotVectorRuns(x: Dense, s: State, j: nat, K8: nat) returns (s': State)
    requires j < x.N && K8 <= x.K && K8 % 8 == 0
    ensures Run(DotVector(K8, x.N, j), 0, x.env, s) == Some(s')
    ensures DotsAt(x, s', j, K8) && s'.out == s.out
  {
    var zeros := Then(Do(Zero(Dot(0))), Do(Zero(Dot(1))));
    var s1 := Put(Put(s, Dot(0), Splat(0.0)), Dot(1), Splat(0.0));
    assert Run(Do(Zero(Dot(0))), 0, x.env, s) == Some(Put(s, Dot(0), Splat(0.0)));
    assert Run(zeros, 0, x.env, s) == Some(s1);
    s' := DotLoopRuns(x, s1, j, 0, K8);
    assert K8 > 0 ==> Run(For(K8, 8, Then(DotHalf(0, x.N, j), DotHalf(1, x.N, j))), 0, x.env, s1) == Some(s');
  }

  lemma {:induction false} ScalarRuns(x: Dense, s: State, k: nat, j: nat)
    requires j < x.N && k < x.K
    ensures Run(Do(ScalarFma(Cell(Pos(k, false), x.N, j), k)), 0, x.env, s) == Some(s.(acc := s.acc + x.T(j)[k]))
  {
    var cell := Cell(Pos(k, false), x.N, j);
    CellIs(x, k, j);
    ProductAt(x, j, k, x.env.wref[cell.At(0)], x.env.inp[k]);
  }

  lemma {:induction false} CellIs(x: Dense, k: nat, j: nat)
    requires j < x.N && k < x.K
    ensures var p := Cell(Pos(k, false), x.N, j).At(0); p < |x.env.wref| && x.env.wref[p] == x.W[k][j]
  {
    assert Cell(Pos(k, false), x.N, j).At(0) == x.At(k, j);
  }

  lemma {:induction false} DotTailNext(x: Dense, s: State, s1: State, lo: nat, k: nat, j: nat) returns (s': State)
    requires j < x.N && lo <= k < x.K && s1.acc == x.env.bias[j] + Sum(x.T(j), k)
    requires Run(DotTail(lo, k, x.N, j), 0, x.env, s) == Some(s1)
    ensures Run(DotTail(lo, k + 1, x.N, j), 0, x.env, s) == Some(s')
    ensures s'.acc == x.env.bias[j] + Sum(x.T(j), k + 1) && s'.out == s1.out
  {
    ScalarRuns(x, s1, k, j);
    s' := s1.(acc := s1.acc + x.T(j)[k]);
    RunLine(DotTail(lo, k, x.N, j), ScalarFma(Cell(Pos(k, false), x.N, j), k), 0, x.env, s, s1, s');
  }

  lemma {:induction false} DotTailRuns(x: Dense, s: State, lo: nat, hi: nat, j: nat) returns (s': State)
    requires j < x.N && lo <= hi <= x.K && s.acc == x.env.bias[j] + Sum(x.T(j), lo)
    ensures Run(DotTail(lo, hi, x.N, j), 0, x.env, s) == Some(s')
    ensures s'.acc == x.env.bias[j] + Sum(x.T(j), hi) && s'.out == s.out
    decreases hi
  {
    s' := s;
    if hi > lo {
      var s1 := DotTailRuns(x, s, lo, hi - 1, j);
      s' := DotTailNext(x, s, s1, lo, hi - 1, j);
    }
  }

  lemma {:induction false} StartRuns(x: Dense, s: State, j: nat) returns (s': State)
    requires j < x.N
    ensures Run(Then(DotVector(Eights(x.K), x.N, j), Do(StartScalar(j))), 0, x.env, s) == Some(s')
    ensures s'.acc == x.env.bias[j] + Sum(x.T(j), Eights(x.K)) && s'.out == s.out
  {
    var s1 := DotVectorRuns(x, s, j, Eights(x.K));
    s' := s1.(acc := x.env.bias[j] + Lanes(s1.regs[Dot(0)], s1.regs[Dot(1)]));
    assert Run(Do(StartScalar(j)), 0, x.env, s1) == Some(s');
  }

  lemma {:induction false} DotOutputRuns(x: Dense, s: State, j: nat, relu: bool) returns (s': State)
    requires j < x.N && j < |s.out|
    ensures Run(DotOutput(x.K, x.N, j, relu), 0, x.env, s) == Some(s')
    ensures s'.out == s.out[j := x.Out(relu, j)]
  {
    var s1 := StartRuns(x, s, j);
    var s2 := DotTailRuns(x, s1, Eights(x.K), x.K, j);
    s' := s2.(out := s2.out[j := Activate(s2.acc, relu)]);
    var a := Then(DotVector(Eights(x.K), x.N, j), Do(StartScalar(j)));
    var b := Then(a, DotTail(Eights(x.K), x.K, x.N, j));
    assert Run(Do(StoreScalar(j, relu)), 0, x.env, s2) == Some(s');
  }

  // Outputs lo .. hi of the layer are in place, everything else is as before.
  ghost predicate Filled(x: Dense, relu: bool, before: seq<real>, out: seq<real>, lo: nat, hi: nat) {
    && |out| == |before|
    && forall i: nat :: i < |out| ==> out[i] == if lo <= i < hi && i < x.N then x.Out(relu, i) else before[i]
  }

  lemma {:induction false} DotOutputsRun(x: Dense, s: State, lo: nat, hi: nat, relu: bool) returns (s': State)
    requires lo <= hi <= x.N && x.N <= |s.out|
    ensures Run(DotOutputs(x.K, x.N, lo, hi, relu), 0, x.env, s) == Some(s')
    ensures Filled(x, relu, s.out, s'.out, lo, hi)
    decreases hi
  {
    s' := s;
    if hi > lo {
      var s1 := DotOutputsRun(x, s, lo, hi - 1, relu);
      s' := DotOutputRuns(x, s1, hi - 1, relu);
    }
  }

  // --- all tiles of a plan ---------------------------------------------------

  // Tile t of the plan as a block of the tile machine.
  ghost predicate TileOk(x: Dense, t: Tile) {
    && t.nr in {4, 8, 16} && t.j0 + t.nr <= x.N
    && forall k: nat, c: nat {:trigger Slot(x.K, t, k, c)} :: k < x.K && c < t.nr ==>
         Slot(x.K, t, k, c) < |x.env.pack| && x.env.pack[Slot(x.K, t, k, c)] == x.W[k][t.j0 + c]
  }

  lemma {:induction false} AsBlock(x: Dense, t: Tile) returns (b: Block)
    requires TileOk(x, t)
    ensures b == Ctx(x.env, x.W, x.K, x.N, t.j0, t.nr, x.K * t.j0)
  {
    var c := Ctx(x.env, x.W, x.K, x.N, t.j0, t.nr, x.K * t.j0);
    assert c.Ok();
    forall k: nat, i: nat {:trigger c.At(k, i)} | k < c.K && i < c.nr
      ensures c.At(k, i) < |c.env.pack| && c.env.pack[c.At(k, i)] == c.W[k][c.j0 + i]
    {
      assert c.At(k, i) == Slot(x.K, t, k, i);
    }
    b := c;
  }

  lemma {:induction false} OffsetIs(K: nat, plan: seq<Tile>, n: nat)
    requires Tiling(plan, n)
    ensures Offset(K, plan) == K * n
  {
    if plan != [] {
      var t := plan[|plan| - 1];
      OffsetIs(K, plan[..|plan| - 1], t.j0);
      MulAdd(t.j0, t.nr, K);
    }
  }

  lemma {:induction false} TileRuns(x: Dense, s: State, t: Tile, relu: bool) returns (s': State)
    requires TileOk(x, t) && LoopFits(x.K) && x.N <= |s.out|
    ensures Run(WideBlock(x.K, t.nr, t.j0, x.K * t.j0, relu), 0, x.env, s) == Some(s')
    ensures Filled(x, relu, s.out, s'.out, t.j0, t.j0 + t.nr)
  {
    var b := AsBlock(x, t);
    s' := WideBlockRuns(b, s, relu);
    assert 4 * b.Regs() == t.nr;
  }

  lemma {:induction false} WideBlocksRun(x: Dense, s: State, plan: seq<Tile>, n: nat, relu: bool) returns (s': State)
    requires Tiling(plan, n) && (forall t :: t in plan ==> TileOk(x, t))
    requires LoopFits(x.K) || plan == []
    requires x.N <= |s.out|
    ensures Run(WideBlocks(x.K, plan, relu), 0, x.env, s) == Some(s')
    ensures Filled(x, relu, s.out, s'.out, 0, n)
  {
    s' := s;
    if plan != [] {
      var rest, t := plan[..|plan| - 1], plan[|plan| - 1];
      var s1 := WideBlocksRun(x, s, rest, t.j0, relu);
      OffsetIs(x.K, rest, t.j0);
      s' := TileRuns(x, s1, t, relu);
    }
  }

  // --- the layer -------------------------------------------------------------

  // What the generator hands the emitted code: packed tiles, the unpacked
  // copy, the biases, and an input buffer of at least K values.
  ghost predicate Generated(env: Env, W: Matrix, B: seq<real>, K: nat, N: nat) {
    && Shaped(W, K, N) && |B| == N && K <= |env.inp|
    && (forall t :: t in Plan(N) ==> t.j0 + t.nr <= N)
    && env.pack == Packed(W, K, N, Plan(N)) && env.wref == Flat(W, K, N) && env.bias == B
  }

  lemma {:induction false} AsDense(env: Env, W: Matrix, B: seq<real>, K: nat, N: nat) returns (x: Dense)
    requires Generated(env, W, B, K, N)
    ensures x == Shape(env, W, K, N)
  {
    var y := Shape(env, W, K, N);
    assert y.Ok();
    forall k: nat, j: nat {:trigger y.At(k, j)} | k < K && j < N
      ensures y.At(k, j) < |y.env.wref| && y.env.wref[y.At(k, j)] == W[k][j]
    {
      TileRowsAt(W, N, 0, N, K, k, j);
    }
    x := y;
  }

  lemma {:induction false} PlanTileOk(x: Dense, t: Tile)
    requires Generated(x.env, x.W, x.env.bias, x.K, x.N) && t in Plan(x.N)
    ensures TileOk(x, t)
  {
    PlanTiles(x.N);
    TilingInside(Plan(x.N), x.N - x.N % 4, x.N);
    forall k: nat, c: nat {:trigger Slot(x.K, t, k, c)} | k < x.K && c < t.nr
      ensures Slot(x.K, t, k, c) < |x.env.pack| && x.env.pack[Slot(x.K, t, k, c)] == x.W[k][t.j0 + c]
    {
      PackedAt(x.W, x.K, x.N, Plan(x.N), x.N - x.N % 4, t, k, c);
    }
  }

  // Running the layer's code leaves the reference layer in out[..N] and the
  // rest of the output buffer alone; in particular no access faults.
  ghost predicate Computes(env: Env, W: Matrix, B: seq<real>, K: nat, N: nat, relu: bool, s: State)
    requires Shaped(W, K, N) && |B| == N && K <= |env.inp|
  {
    match Run(LayerCode(K, N, relu), 0, env, s)
    case None => false
    case Some(s') => N <= |s.out| == |s'.out| && s'.out == Layer(W, B, env.inp, K, N, relu) + s.out[N..]
  }

  lemma {:induction false} LayerRuns(env: Env, W: Matrix, B: seq<real>, K: nat, N: nat, relu: bool, s: State)
    requires Generated(env, W, B, K, N) && N <= |s.out|
    requires N < 4 || LoopFits(K)
    ensures Computes(env, W, B, K, N, relu, s)
  {
    var x := AsDense(env, W, B, K, N);
    PlanTiles(N);
    forall t | t in Plan(N) ensures TileOk(x, t) { PlanTileOk(x, t); }
    var n := N - N % 4;
    var s1 := WideBlocksRun(x, s, Plan(N), n, relu);
    var s' := s1;
    if N % 4 != 0 {
      s' := DotOutputsRun(x, s1, n, N, relu);
    }
    assert Run(LayerCode(K, N, relu), 0, env, s) == Some(s');
    FilledLayer(x, relu, s.out, s'.out);
  }

  lemma {:induction false} FilledLayer(x: Dense, relu: bool, before: seq<real>, out: seq<real>)
    requires Filled(x, relu, before, out, 0, x.N) && x.N <= |before|
    ensures out == Layer(x.W, x.env.bias, x.env.inp, x.K, x.N, relu) + before[x.N..]
  {
    var l := Layer(x.W, x.env.bias, x.env.inp, x.K, x.N, relu);
    assert forall i: nat :: i < |out| ==> out[i] == (l + before[x.N..])[i];
  }

  // What the emitted layer leaves in its output buffer, output by output.
  lemma {:induction false} EmittedIsDense(env: Env, W: Matrix, B: seq<real>, K: nat, N: nat, relu: bool, s: State)
    requires Generated(env, W, B, K, N) && N <= |s.out|
    requires N < 4 || LoopFits(K)
    ensures Run(LayerCode(K, N, relu), 0, env, s).Some?
    ensures IsDense(Run(LayerCode(K, N, relu), 0, env, s).value.out, W, B, env.inp, K, N, relu)
  {
    LayerRuns(env, W, B, K, N, relu, s);
    LayerIsDense(W, B, env.inp, K, N, relu, Run(LayerCode(K, N, relu), 0, env, s).value.out);
  }
}
