// The generated predictor: a chain of layer calls through two buffers, and
// feature normalisation folded into the first layer.
module PredictProgram {
  import opened LinearLayer
  import opened TileMachine
  import opened KernelCompiler
  import opened KernelProof
  import opened KernelLayer
  import opened KernelFault

  datatype Stage = Stage(W: Matrix, B: seq<real>, K: nat, N: nat, relu: bool) {
    ghost predicate Ok() { Shaped(W, K, N) && |B| == N }
  }

  // Layers fit together, and the generated code of each is correct.
  ghost predicate Chained(net: seq<Stage>) {
    && |net| >= 1
    && (forall i :: 0 <= i < |net| ==> net[i].Ok())
    && (forall i {:trigger net[i].K} :: 0 < i < |net| ==> net[i].K == net[i - 1].N)
  }

  // Activations after the first n layers.
  function Forward(net: seq<Stage>, x: seq<real>, n: nat): (a: seq<real>)
    requires Chained(net) && n <= |net| && |x| == net[0].K
    ensures |a| == if n == 0 then net[0].K else net[n - 1].N
  {
    if n == 0 then x
    else var s := net[n - 1]; Layer(s.W, s.B, Forward(net, x, n - 1), s.K, s.N, s.relu)
  }

  // The network computes these logits from x: each layer's outputs, by their
  // products and activations, feed the next layer.
  ghost predicate Yields(net: seq<Stage>, x: seq<real>, logits: seq<real>) {
    exists acts: seq<seq<real>> :: IsTrace(net, x, acts) && logits == acts[|net|]
  }

  ghost predicate IsTrace(net: seq<Stage>, x: seq<real>, acts: seq<seq<real>>) {
    && |acts| == |net| + 1 && acts[0] == x
    && forall i :: 0 <= i < |net| ==> IsStep(net[i], acts[i], acts[i + 1])
  }

  ghost predicate IsStep(s: Stage, a: seq<real>, b: seq<real>) {
    |a| == s.K && |b| == s.N && IsDense(b, s.W, s.B, a, s.K, s.N, s.relu)
  }

  lemma {:induction false} ForwardYields(net: seq<Stage>, x: seq<real>)
    requires Chained(net) && |x| == net[0].K
    ensures Yields(net, x, Forward(net, x, |net|))
  {
    var acts := seq(|net| + 1, n requires 0 <= n < |net| + 1 => Forward(net, x, n));
    forall i | 0 <= i < |net| ensures IsStep(net[i], acts[i], acts[i + 1]) {
      var s, n := net[i], i + 1;
      assert acts[n] == Layer(s.W, s.B, acts[i], s.K, s.N, s.relu);
      LayerIsDense(s.W, s.B, acts[i], s.K, s.N, s.relu, acts[n]);
    }
    assert IsTrace(net, x, acts);
  }

  // --- folding (x - mean) / std into layer 0 --------------------------------

  ghost predicate Scales(mean: seq<real>, std: seq<real>, K: nat) {
    |mean| == K && |std| == K && forall k :: 0 <= k < K ==> std[k] != 0.0
  }

  function Normalize(x: seq<real>, mean: seq<real>, std: seq<real>, K: nat): seq<real>
    requires Scales(mean, std, K) && |x| == K
  {
    seq(K, k requires 0 <= k < K => (x[k] - mean[k]) / std[k])
  }

  function FoldRow(w: seq<real>, std: real): seq<real>
    requires std != 0.0
  {
    seq(|w|, j requires 0 <= j < |w| => w[j] / std)
  }

  function FoldedW(W: Matrix, std: seq<real>, K: nat, N: nat): Matrix
    requires Shaped(W, K, N) && |std| == K && forall k :: 0 <= k < K ==> std[k] != 0.0
  {
    seq(K, k requires 0 <= k < K => FoldRow(W[k], std[k]))
  }

  // The products that the folded bias subtracts.
  function Shift(mean: seq<real>, std: seq<real>, K: nat): seq<real>
    requires Scales(mean, std, K)
  {
    seq(K, k requires 0 <= k < K => mean[k] / std[k])
  }

  function FoldedB(W: Matrix, B: seq<real>, mean: seq<real>, std: seq<real>, K: nat, N: nat): seq<real>
    requires Shaped(W, K, N) && |B| == N && Scales(mean, std, K)
  {
    seq(N, j requires 0 <= j < N => B[j] - Sum(Terms(W, Shift(mean, std, K), K, N, j), K))
  }

  function FoldStage(s: Stage, mean: seq<real>, std: seq<real>): Stage
    requires s.Ok() && Scales(mean, std, s.K)
  {
    s.(W := FoldedW(s.W, std, s.K, s.N), B := FoldedB(s.W, s.B, mean, std, s.K, s.N))
  }

  lemma {:induction false} FoldTerm(w: real, x: real, m: real, sd: real)
    requires sd != 0.0
    ensures (w / sd) * x == w * ((x - m) / sd) + w * (m / sd)
  {
    assert (x - m) / sd == x / sd - m / sd;
  }

  lemma {:induction false} SumSplit(a: seq<real>, b: seq<real>, c: seq<real>, n: nat)
    requires n <= |a| && |a| == |b| == |c| && forall k :: 0 <= k < |a| ==> a[k] == b[k] + c[k]
    ensures Sum(a, n) == Sum(b, n) + Sum(c, n)
  {
    if n > 0 { SumSplit(a, b, c, n - 1); }
  }

  lemma {:induction false} FoldNeuron(s: Stage, x: seq<real>, mean: seq<real>, std: seq<real>, j: nat)
    requires s.Ok() && Scales(mean, std, s.K) && |x| == s.K && j < s.N
    ensures var f := FoldStage(s, mean, std);
            f.Ok() && Neuron(f.W, f.B, x, s.K, s.N, s.relu, j)
                   == Neuron(s.W, s.B, Normalize(x, mean, std, s.K), s.K, s.N, s.relu, j)
  {
    var f := FoldStage(s, mean, std);
    var a := Terms(f.W, x, s.K, s.N, j);
    var b := Terms(s.W, Normalize(x, mean, std, s.K), s.K, s.N, j);
    var c := Terms(s.W, Shift(mean, std, s.K), s.K, s.N, j);
    forall k | 0 <= k < s.K ensures a[k] == b[k] + c[k] {
      FoldTerm(s.W[k][j], x[k], mean[k], std[k]);
    }
    SumSplit(a, b, c, s.K);
  }

  // The folded first layer on raw features is the plain one on normalised features.
  lemma {:induction false} FoldLayer(s: Stage, x: seq<real>, mean: seq<real>, std: seq<real>)
    requires s.Ok() && Scales(mean, std, s.K) && |x| == s.K
    ensures var f := FoldStage(s, mean, std);
            f.Ok() && Layer(f.W, f.B, x, s.K, s.N, s.relu)
                   == Layer(s.W, s.B, Normalize(x, mean, std, s.K), s.K, s.N, s.relu)
  {
    var f := FoldStage(s, mean, std);
    assert f.Ok();
    var l, r := Layer(f.W, f.B, x, s.K, s.N, s.relu), Layer(s.W, s.B, Normalize(x, mean, std, s.K), s.K, s.N, s.relu);
    forall j: nat | j < s.N ensures l[j] == r[j] {
      FoldNeuron(s, x, mean, std, j);
    }
  }

  function FoldNet(net: seq<Stage>, mean: seq<real>, std: seq<real>): seq<Stage>
    requires Chained(net) && Scales(mean, std, net[0].K)
  {
    [FoldStage(net[0], mean, std)] + net[1..]
  }

  lemma {:induction false} FoldForward(net: seq<Stage>, x: seq<real>, mean: seq<real>, std: seq<real>, n: nat)
    requires Chained(net) && Scales(mean, std, net[0].K) && |x| == net[0].K && 1 <= n <= |net|
    ensures Chained(FoldNet(net, mean, std))
    ensures Forward(FoldNet(net, mean, std), x, n) == Forward(net, Normalize(x, mean, std, net[0].K), n)
  {
    var f := FoldNet(net, mean, std);
    FoldLayer(net[0], x, mean, std);
    assert f[0].Ok() && forall i :: 0 < i < |f| ==> f[i] == net[i];
    assert Chained(f);
    if n > 1 {
      FoldForward(net, x, mean, std, n - 1);
    } else {
      assert Forward(f, x, 0) == x;
    }
  }

  // --- the call chain ---------------------------------------------------------

  datatype Buf = Features | B0 | B1

  datatype Call = Call(layer: nat, src: Buf, dst: Buf)

  datatype Mem = Mem(features: seq<real>, b0: seq<real>, b1: seq<real>) {
    function Get(b: Buf): seq<real> {
      match b case Features => features case B0 => b0 case B1 => b1
    }

    function Set(b: Buf, v: seq<real>): Mem {
      match b case Features => this.(features := v) case B0 => this.(b0 := v) case B1 => this.(b1 := v)
    }
  }

  function EnvOf(s: Stage, inp: seq<real>): Env
    requires s.Ok() && forall t :: t in Plan(s.N) ==> t.j0 + t.nr <= s.N
  {
    Env(inp, Packed(s.W, s.K, s.N, Plan(s.N)), Flat(s.W, s.K, s.N), s.B)
  }

  // Layer functions take restrict pointers: a call whose input and output are
  // the same buffer, that writes the caller's features, or whose input buffer
  // is too short, is a fault.
  function RunCall(net: seq<Stage>, c: Call, m: Mem): Option<Mem>
    requires Chained(net)
  {
    if c.layer >= |net| || c.src == c.dst || c.dst == Features || |m.Get(c.src)| < net[c.layer].K then None
    else var s := net[c.layer];
         assert forall t :: t in Plan(s.N) ==> t.j0 + t.nr <= s.N by {
           PlanTiles(s.N);
           TilingInside(Plan(s.N), s.N - s.N % 4, s.N);
         }
         match Run(LayerCode(s.K, s.N, s.relu), 0, EnvOf(s, m.Get(c.src)), State(map[], 0, 0.0, m.Get(c.dst)))
         case None => None
         case Some(s') => Some(m.Set(c.dst, s'.out))
  }

  function RunCalls(net: seq<Stage>, calls: seq<Call>, m: Mem): Option<Mem>
    requires Chained(net)
  {
    if calls == [] then Some(m)
    else match RunCalls(net, calls[..|calls| - 1], m)
         case None => None
         case Some(m') => RunCall(net, calls[|calls| - 1], m')
  }

  // Buffer holding the activations after n layers.
  function Holder(n: nat): Buf {
    if n == 0 then Features else if n % 2 == 1 then B0 else B1
  }

  function Calls(n: nat): seq<Call> {
    seq(n, i requires 0 <= i < n => Call(i, Holder(i), Holder(i + 1)))
  }

  method EmitPredict(nlayers: nat) returns (calls: seq<Call>, result: Buf)
    requires nlayers >= 1
    ensures calls == Calls(nlayers) && result == Holder(nlayers)
  {
    calls := [Call(0, Features, B0)];
    var curIn, curOut := B0, B1;
    for L := 1 to nlayers
      invariant calls == Calls(L)
      invariant curIn == Holder(L) && curOut == Holder(L + 1)
    {
      calls := calls + [Call(L, curIn, curOut)];
      curIn, curOut := curOut, if curOut == B0 then B1 else B0;
    }
    result := curIn;
  }

  // No call of the emitted chain reads the buffer it writes, or writes the features.
  lemma {:induction false} NeverAliases(n: nat, c: Call)
    requires c in Calls(n)
    ensures c.src != c.dst && c.dst != Features
    ensures c.src == if c.layer == 0 then Features else Holder(c.layer)
  {
    var i :| 0 <= i < n && Calls(n)[i] == c;
  }

  ghost predicate BuffersFit(net: seq<Stage>, m: Mem) {
    forall i :: 0 <= i < |net| ==> net[i].N <= |m.b0| && net[i].N <= |m.b1|
  }

  ghost predicate AllFit(net: seq<Stage>) {
    forall i :: 0 <= i < |net| ==> net[i].N < 4 || LoopFits(net[i].K)
  }

  lemma {:induction false} CallRuns(net: seq<Stage>, c: Call, m: Mem, a: seq<real>) returns (m': Mem)
    requires Chained(net) && BuffersFit(net, m) && AllFit(net)
    requires c.layer < |net| && c.src != c.dst && c.dst != Features
    requires |a| == net[c.layer].K && a <= m.Get(c.src)
    ensures RunCall(net, c, m) == Some(m') && BuffersFit(net, m') && m'.features == m.features
    ensures var s := net[c.layer]; Layer(s.W, s.B, a, s.K, s.N, s.relu) <= m'.Get(c.dst)
  {
    var s := net[c.layer];
    PlanTiles(s.N);
    TilingInside(Plan(s.N), s.N - s.N % 4, s.N);
    var inp := m.Get(c.src);
    var env := EnvOf(s, inp);
    var st := State(map[], 0, 0.0, m.Get(c.dst));
    LayerRuns(env, s.W, s.B, s.K, s.N, s.relu, st);
    var out := Run(LayerCode(s.K, s.N, s.relu), 0, env, st).value.out;
    m' := m.Set(c.dst, out);
    assert inp[..s.K] == a[..s.K];
    LayerReadsPrefix(s.W, s.B, a, inp, s.K, s.N, s.relu);
  }

  lemma {:induction false} CallsRun(net: seq<Stage>, n: nat, m: Mem) returns (m': Mem)
    requires Chained(net) && BuffersFit(net, m) && AllFit(net) && n <= |net|
    requires |m.features| == net[0].K
    ensures RunCalls(net, Calls(n), m) == Some(m') && BuffersFit(net, m') && m'.features == m.features
    ensures Forward(net, m.features, n) <= m'.Get(Holder(n))
  {
    if n == 0 {
      m' := m;
    } else {
      var m1 := CallsRun(net, n - 1, m);
      CallsSnoc(n);
      m' := CallRuns(net, Call(n - 1, Holder(n - 1), Holder(n)), m1, Forward(net, m.features, n - 1));
      RunCallsSnoc(net, Calls(n - 1), Call(n - 1, Holder(n - 1), Holder(n)), m, m1, m');
    }
  }

  lemma {:induction false} CallsSnoc(n: nat)
    requires n >= 1
    ensures Calls(n) == Calls(n - 1) + [Call(n - 1, Holder(n - 1), Holder(n))]
    ensures Holder(n - 1) != Holder(n) && Holder(n) != Features
  {}

  lemma {:induction false} RunCallsSnoc(net: seq<Stage>, calls: seq<Call>, c: Call, m: Mem, m1: Mem, m2: Mem)
    requires Chained(net) && RunCalls(net, calls, m) == Some(m1) && RunCall(net, c, m1) == Some(m2)
    ensures RunCalls(net, calls + [c], m) == Some(m2)
  {
    assert (calls + [c])[..|calls|] == calls;
  }

  // The generated normalised-input predictor computes the network's logits.
  lemma {:induction false} PredictLogits(net: seq<Stage>, x: seq<real>, b0: seq<real>, b1: seq<real>)
    requires Chained(net) && AllFit(net) && |x| == net[0].K
    requires BuffersFit(net, Mem(x, b0, b1))
    ensures var end := RunCalls(net, Calls(|net|), Mem(x, b0, b1));
            end.Some? && Forward(net, x, |net|) <= end.value.Get(Holder(|net|))
  {
    var m' := CallsRun(net, |net|, Mem(x, b0, b1));
  }

  lemma {:induction false} CallFaults(net: seq<Stage>, c: Call, m: Mem)
    requires Chained(net) && c.layer < |net| && net[c.layer].N >= 4 && !LoopFits(net[c.layer].K)
    ensures RunCall(net, c, m) == None
  {
    var s := net[c.layer];
    if s.K <= |m.Get(c.src)| {
      PlanTiles(s.N);
      TilingInside(Plan(s.N), s.N - s.N % 4, s.N);
      LayerFaults(EnvOf(s, m.Get(c.src)), s.W, s.B, s.K, s.N, s.relu, State(map[], 0, 0.0, m.Get(c.dst)));
    }
  }

  lemma {:induction false} FaultStays(net: seq<Stage>, calls: seq<Call>, c: Call, m: Mem)
    requires Chained(net)
    requires RunCalls(net, calls, m).Some? ==> RunCall(net, c, RunCalls(net, calls, m).value) == None
    ensures RunCalls(net, calls + [c], m) == None
  {
    assert (calls + [c])[..|calls|] == calls;
  }

  lemma {:induction false} ChainFaults(net: seq<Stage>, n: nat, i: nat, m: Mem)
    requires Chained(net) && i < n <= |net| && net[i].N >= 4 && !LoopFits(net[i].K)
    ensures RunCalls(net, Calls(n), m) == None
  {
    var before, c := RunCalls(net, Calls(n - 1), m), Call(n - 1, Holder(n - 1), Holder(n));
    if i < n - 1 {
      ChainFaults(net, n - 1, i, m);
    } else if before.Some? {
      CallFaults(net, c, before.value);
    }
    CallsSnoc(n);
    FaultStays(net, Calls(n - 1), c, m);
  }

  // The generated predictor runs without a fault exactly when every layer's
  // shape is one the emitter handles.
  lemma {:induction false} PredictSafeIff(net: seq<Stage>, x: seq<real>, b0: seq<real>, b1: seq<real>)
    requires Chained(net) && |x| == net[0].K && BuffersFit(net, Mem(x, b0, b1))
    ensures RunCalls(net, Calls(|net|), Mem(x, b0, b1)).Some? <==> AllFit(net)
  {
    if AllFit(net) {
      PredictLogits(net, x, b0, b1);
    } else {
      var i :| 0 <= i < |net| && !(net[i].N < 4 || LoopFits(net[i].K));
      ChainFaults(net, |net|, i, Mem(x, b0, b1));
    }
  }

  // The raw-feature predictor, built from the folded first layer, computes the
  // logits of the original network on normalised features.
  lemma {:induction false} PredictRawLogits(net: seq<Stage>, raw: seq<real>, mean: seq<real>, std: seq<real>,
      b0: seq<real>, b1: seq<real>)
    requires Chained(net) && AllFit(net) && |raw| == net[0].K && Scales(mean, std, net[0].K)
    requires BuffersFit(net, Mem(raw, b0, b1))
    ensures Chained(FoldNet(net, mean, std))
    ensures var end := RunCalls(FoldNet(net, mean, std), Calls(|net|), Mem(raw, b0, b1));
            end.Some? && Forward(net, Normalize(raw, mean, std, net[0].K), |net|) <= end.value.Get(Holder(|net|))
  {
    FoldForward(net, raw, mean, std, |net|);
    FoldKeepsShape(net, mean, std, Mem(raw, b0, b1));
    PredictLogits(FoldNet(net, mean, std), raw, b0, b1);
  }

  lemma {:induction false} FoldKeepsShape(net: seq<Stage>, mean: seq<real>, std: seq<real>, m: Mem)
    requires Chained(net) && Scales(mean, std, net[0].K) && AllFit(net) && BuffersFit(net, m)
    ensures var f := FoldNet(net, mean, std); |f| == |net| && f[0].K == net[0].K && AllFit(f) && BuffersFit(f, m)
  {
    var f := FoldNet(net, mean, std);
    forall i | 0 <= i < |f|
      ensures (f[i].N < 4 || LoopFits(f[i].K)) && f[i].N <= |m.b0| && f[i].N <= |m.b1|
    {
      assert f[i].N == net[i].N && f[i].K == net[i].K;
    }
  }

  // x is (raw - mean) / std, feature by feature.
  ghost predicate IsNormal(x: seq<real>, raw: seq<real>, mean: seq<real>, std: seq<real>) {
    && |x| == |raw| == |mean| == |std|
    && forall k :: 0 <= k < |x| ==> std[k] != 0.0 && x[k] == (raw[k] - mean[k]) / std[k]
  }

  // The class is the lowest index of the largest logit the network computes.
  ghost predicate IsClass(net: seq<Stage>, x: seq<real>, best: nat) {
    exists logits :: Yields(net, x, logits) && IsArgmax(logits, best)
  }

  // The class: the chain runs, the logits are copied out, and the first index
  // of the largest one is returned.
  method PredictClass(net: seq<Stage>, x: seq<real>, b0: seq<real>, b1: seq<real>) returns (best: nat)
    requires Chained(net) && AllFit(net) && |x| == net[0].K && net[|net| - 1].N >= 1
    requires BuffersFit(net, Mem(x, b0, b1))
    ensures IsArgmax(Forward(net, x, |net|), best) && IsClass(net, x, best)
  {
    ForwardYields(net, x);
    var calls, result := EmitPredict(|net|);
    PredictLogits(net, x, b0, b1);
    var end := RunCalls(net, calls, Mem(x, b0, b1));
    var logits := end.value.Get(result)[..net[|net| - 1].N];
    assert logits == Forward(net, x, |net|);
    best := Argmax(logits);
  }

  // The raw entry point returns the class of the original network on
  // normalised features.
  method PredictRawClass(net: seq<Stage>, raw: seq<real>, mean: seq<real>, std: seq<real>, b0: seq<real>, b1: seq<real>)
    returns (best: nat)
    requires Chained(net) && AllFit(net) && |raw| == net[0].K && net[|net| - 1].N >= 1
    requires Scales(mean, std, net[0].K) && BuffersFit(net, Mem(raw, b0, b1))
    ensures exists x :: IsNormal(x, raw, mean, std) && IsClass(net, x, best)
  {
    var x := Normalize(raw, mean, std, net[0].K);
    ForwardYields(net, x);
    assert IsNormal(x, raw, mean, std);
    FoldForward(net, raw, mean, std, |net|);
    FoldKeepsShape(net, mean, std, Mem(raw, b0, b1));
    best := PredictClass(FoldNet(net, mean, std), raw, b0, b1);
    assert IsArgmax(Forward(net, x, |net|), best);
  }
}
