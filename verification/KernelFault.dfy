// Where the looped form goes wrong: when the rows handled four at a time are
// not a multiple of eight, the last iteration runs past the packed weights.
module KernelFault {
  import opened LinearLayer
  import opened Arithmetic
  import opened TileMachine
  import opened KernelCompiler
  import opened KernelProof
  import opened KernelLayer

  predicate KeepsPointer(c: Code) {
    match c
    case Skip => true
    case Do(i) => !i.PointWeights?
    case Then(a, b) => KeepsPointer(a) && KeepsPointer(b)
    case For(_, _, body) => KeepsPointer(body)
  }

  lemma {:induction false} PointerKept(c: Code, k: nat, env: Env, s: State)
    requires KeepsPointer(c)
    ensures var r := Run(c, k, env, s); r.Some? ==> r.value.w == s.w
    decreases c, 0, 0
  {
    match c
    case Skip =>
    case Do(i) =>
    case Then(a, b) =>
      PointerKept(a, k, env, s);
      if Run(a, k, env, s).Some? { PointerKept(b, k, env, Run(a, k, env, s).value); }
    case For(bound, step, body) =>
      PointerKeptFor(body, 0, bound, step, env, s);
  }

  lemma {:induction false} PointerKeptFor(body: Code, k: nat, bound: nat, step: nat, env: Env, s: State)
    requires KeepsPointer(body)
    ensures var r := RunFor(body, k, bound, step, env, s); r.Some? ==> r.value.w == s.w
    decreases body, 1, bound - k
  {
    if k < bound && step > 0 {
      PointerKept(body, k, env, s);
      if Run(body, k, env, s).Some? {
        PointerKeptFor(body, k + step, bound, step, env, Run(body, k, env, s).value);
      }
    }
  }

  lemma {:induction false} RowKeepsPointer(koff: nat, looped: bool, nr: nat, src: Source, n: nat)
    ensures KeepsPointer(Row(koff, looped, nr, src, n))
  {
    if n > 0 { RowKeepsPointer(koff, looped, nr, src, n - 1); }
  }

  lemma {:induction false} QuadKeepsPointer(koff: nat, u: nat, looped: bool, nr: nat, lanes: nat)
    ensures KeepsPointer(Quad(koff, u, looped, nr, lanes))
  {
    if lanes > 0 {
      QuadKeepsPointer(koff, u, looped, nr, lanes - 1);
      RowKeepsPointer(koff + lanes - 1, looped, nr, Lane(In(u), lanes - 1), nr / 4);
    }
  }

  // A row at or past row K of the last tile reads past the packed weights.
  lemma {:induction false} RowFaults(koff: nat, kv: nat, nr: nat, src: Source, n: nat, env: Env, s: State, K: nat)
    requires n > 0 && kv + koff >= K && s.w + K * nr == |env.pack|
    ensures Run(Row(koff, true, nr, src, n), kv, env, s) == None
  {
    if n > 1 {
      RowFaults(koff, kv, nr, src, n - 1, env, s, K);
    } else {
      MulMono(K, kv + koff, nr);
      assert Cell(Pos(koff, true), nr, 0).At(kv) == (kv + koff) * nr;
      assert Run(Do(FmaInstr(koff, true, nr, src, 0)), kv, env, s) == None;
    }
  }

  // In the last iteration the second quad reaches row kv + 7.
  lemma {:induction false} LastBodyFaults(kv: nat, nr: nat, env: Env, s: State, K: nat)
    requires nr >= 4 && kv + 7 >= K && s.w + K * nr == |env.pack|
    ensures Run(LoopBody(nr), kv, env, s) == None
  {
    var q0 := Quad(0, 0, true, nr, 4);
    QuadKeepsPointer(0, 0, true, nr, 4);
    PointerKept(q0, kv, env, s);
    if Run(q0, kv, env, s).Some? {
      var s1 := Run(q0, kv, env, s).value;
      var q := Quad(4, 4, true, nr, 3);
      QuadKeepsPointer(4, 4, true, nr, 3);
      PointerKept(q, kv, env, s1);
      if Run(q, kv, env, s1).Some? {
        RowFaults(7, kv, nr, Lane(In(4), 3), nr / 4, env, Run(q, kv, env, s1).value, K);
      }
      assert Run(Quad(4, 4, true, nr, 4), kv, env, s1) == None;
    }
  }

  lemma {:induction false} LoopFaults(k: nat, nr: nat, env: Env, s: State, K: nat)
    requires nr >= 4 && k % 8 == 0 && (K - K % 4) % 8 == 4 && k < K - K % 4
    requires s.w + K * nr == |env.pack|
    ensures RunFor(LoopBody(nr), k, K - K % 4, 8, env, s) == None
    decreases K - k
  {
    if k + 8 > K - K % 4 {
      LastBodyFaults(k, nr, env, s, K);
    } else {
      QuadKeepsPointer(0, 0, true, nr, 4);
      QuadKeepsPointer(4, 4, true, nr, 4);
      PointerKept(LoopBody(nr), k, env, s);
      if Run(LoopBody(nr), k, env, s).Some? {
        LoopFaults(k + 8, nr, env, Run(LoopBody(nr), k, env, s).value, K);
      }
    }
  }

  lemma {:induction false} ThenFaults(a: Code, b: Code, env: Env, s: State)
    requires Run(a, 0, env, s).Some? ==> Run(b, 0, env, Run(a, 0, env, s).value) == None
    ensures Run(Then(a, b), 0, env, s) == None
  {}

  lemma {:induction false} HeadPoints(j0: nat, off: nat, n: nat, env: Env, s: State)
    ensures var r := Run(Head(j0, off, n), 0, env, s); r.Some? ==> r.value.w == off
  {}

  lemma {:induction false} MiddleLoops(K: nat, nr: nat, env: Env, s: State)
    requires K > FULL_UNROLL_K
    ensures Run(Middle(K, nr), 0, env, s) == RunFor(LoopBody(nr), 0, K - K % 4, 8, env, s)
  {}

  lemma {:induction false} MiddleFaults(K: nat, nr: nat, env: Env, s: State)
    requires nr >= 4 && !LoopFits(K) && s.w + K * nr == |env.pack|
    ensures Run(Middle(K, nr), 0, env, s) == None
  {
    HalfStep(K);
    MiddleLoops(K, nr, env, s);
    LoopFaults(0, nr, env, s, K);
  }

  // Rows handled four at a time leave half a step over or none.
  lemma {:induction false} HalfStep(K: nat)
    requires !LoopFits(K)
    ensures (K - K % 4) % 8 == 4 && 0 < K - K % 4
  {
    var q := K / 4;
    assert K - K % 4 == 4 * q;
    assert (4 * q) % 8 == 4 * (q % 2) by { assert 4 * q == 8 * (q / 2) + 4 * (q % 2); }
  }

  lemma {:induction false} BlockFaults(K: nat, nr: nat, j0: nat, off: nat, relu: bool, env: Env, s: State)
    requires nr >= 4 && !LoopFits(K) && off + K * nr == |env.pack|
    ensures Run(WideBlock(K, nr, j0, off, relu), 0, env, s) == None
  {
    var head, middle := Head(j0, off, nr / 4), Middle(K, nr);
    HeadPoints(j0, off, nr / 4, env, s);
    if Run(head, 0, env, s).Some? {
      MiddleFaults(K, nr, env, Run(head, 0, env, s).value);
    }
    ThenFaults(head, middle, env, s);
    var tail := Tail(K - K % 4, K, nr);
    ThenFaults(Then(head, middle), tail, env, s);
    ThenFaults(Then(Then(head, middle), tail), Finish(j0, relu, nr / 4), env, s);
  }

  lemma {:induction false} PlanNonEmpty(N: nat)
    requires N >= 4
    ensures Plan(N) != []
  {
    if N >= 16 { assert Wide(N / 16) != []; }
  }

  lemma {:induction false} LayerFaults(env: Env, W: Matrix, B: seq<real>, K: nat, N: nat, relu: bool, s: State)
    requires Generated(env, W, B, K, N) && N >= 4 && !LoopFits(K)
    ensures Run(LayerCode(K, N, relu), 0, env, s) == None
  {
    var plan, n := Plan(N), N - N % 4;
    PlanTiles(N);
    PlanNonEmpty(N);
    TilingInside(plan, n, N);
    PackedLength(W, K, N, plan, n);
    OffsetIs(K, plan, n);
    WideFaults(K, N, plan, relu, env, s);
  }

  lemma {:induction false} WideFaults(K: nat, N: nat, plan: seq<Tile>, relu: bool, env: Env, s: State)
    requires plan == Plan(N) != [] && !LoopFits(K) && plan[|plan| - 1].nr >= 4
    requires Offset(K, plan) == |env.pack|
    ensures Run(LayerCode(K, N, relu), 0, env, s) == None
  {
    LastTileFaults(K, plan, relu, env, s);
  }

  lemma {:induction false} LastTileFaults(K: nat, plan: seq<Tile>, relu: bool, env: Env, s: State)
    requires plan != [] && !LoopFits(K) && plan[|plan| - 1].nr >= 4
    requires Offset(K, plan) == |env.pack|
    ensures Run(WideBlocks(K, plan, relu), 0, env, s) == None
  {
    var rest, t := plan[..|plan| - 1], plan[|plan| - 1];
    var first := Run(WideBlocks(K, rest, relu), 0, env, s);
    if first.Some? {
      BlockFaults(K, t.nr, t.j0, Offset(K, rest), relu, env, first.value);
    }
  }

  // The emitted layer is correct exactly when it needs no wide block, is fully
  // unrolled, or its loop count divides evenly.
  lemma {:induction false} LayerCorrectIff(env: Env, W: Matrix, B: seq<real>, K: nat, N: nat, relu: bool, s: State)
    requires Generated(env, W, B, K, N) && N <= |s.out|
    ensures Computes(env, W, B, K, N, relu, s) <==> (N < 4 || LoopFits(K))
    ensures !Computes(env, W, B, K, N, relu, s) <==> Run(LayerCode(K, N, relu), 0, env, s) == None
  {
    if N < 4 || LoopFits(K) {
      LayerRuns(env, W, B, K, N, relu, s);
    } else {
      LayerFaults(env, W, B, K, N, relu, s);
    }
  }

  // Every shape below 132 inputs fits; 132 inputs and four outputs fault.
  lemma {:induction false} SmallestOverrun()
    ensures !LoopFits(132) && forall K: nat :: K < 132 ==> LoopFits(K)
  {}

  lemma {:induction false} OverrunExample()
    ensures forall K: nat :: K < 132 ==> LoopFits(K)
    ensures var W := seq(132, _ => seq(4, _ => 1.0));
            var env := Env(seq(132, _ => 1.0), Packed(W, 132, 4, Plan(4)), Flat(W, 132, 4), [0.0, 0.0, 0.0, 0.0]);
            Run(LayerCode(132, 4, true), 0, env, State(map[], 0, 0.0, [0.0, 0.0, 0.0, 0.0])) == None
  {
    var W := seq(132, _ => seq(4, _ => 1.0));
    var B := [0.0, 0.0, 0.0, 0.0];
    var env := Env(seq(132, _ => 1.0), Packed(W, 132, 4, Plan(4)), Flat(W, 132, 4), B);
    PlanTiles(4);
    TilingInside(Plan(4), 4, 4);
    SmallestOverrun();
    LayerFaults(env, W, B, 132, 4, true, State(map[], 0, 0.0, B));
  }
}
