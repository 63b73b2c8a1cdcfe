// The emitted code computes the dense layer: forward simulation of the tile
// machine, register bank by register bank.
module KernelProof {
  import opened LinearLayer
  import opened TileMachine
  import opened KernelCompiler

  // Everything one wide block depends on, with its packed tile in place.
  datatype Ctx = Ctx(env: Env, W: Matrix, K: nat, N: nat, j0: nat, nr: nat, off: nat) {
    ghost predicate Ok() {
      && Shaped(W, K, N) && |env.bias| == N && K <= |env.inp|
      && nr % 4 == 0 && j0 + nr <= N
    }

    // The block's weights sit at off in the packed array, row by row.
    ghost predicate Placed()
      requires Ok()
    {
      forall k: nat, c: nat {:trigger At(k, c)} :: k < K && c < nr ==>
        At(k, c) < |env.pack| && env.pack[At(k, c)] == W[k][j0 + c]
    }

    function At(k: nat, c: nat): nat { off + (k * nr + c) }

    function Regs(): nat { nr / 4 }

    function Col(r: nat, l: nat): nat { j0 + 4 * r + l }

    function T(j: nat): seq<real>
      requires Ok() && j < N
    {
      Terms(W, env.inp, K, N, j)
    }
  }

  type Block = x: Ctx | x.Ok() && x.Placed() ghost witness Ctx(Env([], [], [], []), [], 0, 0, 0, 0, 0)

  // Contribution of the first c rows to one bank: rows of the bank's parity.
  function BankSum(t: seq<real>, c: nat, bank: nat): real
    requires c <= |t|
  {
    if c == 0 then 0.0
    else BankSum(t, c - 1, bank) + (if (c - 1) % 2 == bank then t[c - 1] else 0.0)
  }

  lemma {:induction false} BanksAddUp(t: seq<real>, c: nat)
    requires c <= |t|
    ensures BankSum(t, c, 0) + BankSum(t, c, 1) == Sum(t, c)
  {
    if c > 0 { BanksAddUp(t, c - 1); }
  }

  lemma {:induction false} BankStep(t: seq<real>, c: nat, bank: nat)
    requires c < |t|
    ensures BankSum(t, c + 1, bank) == BankSum(t, c, bank) + if c % 2 == bank then t[c] else 0.0
  {}

  // Lane l of register r in both banks holds its column's sums over the first c rows.
  ghost predicate LaneAt(x: Block, even: seq<real>, odd: seq<real>, r: nat, l: nat, c: nat)
    requires r < x.Regs() && l < 4 && c <= x.K && |even| == 4 && |odd| == 4
  {
    var t := x.T(x.Col(r, l));
    even[l] == x.env.bias[x.Col(r, l)] + BankSum(t, c, 0) && odd[l] == BankSum(t, c, 1)
  }

  ghost predicate AccAt(x: Block, s: State, r: nat, c: nat)
    requires r < x.Regs() && c <= x.K
  {
    && Has(s, Acc(0, r)) && Has(s, Acc(1, r))
    && var even, odd := s.regs[Acc(0, r)], s.regs[Acc(1, r)];
       LaneAt(x, even, odd, r, 0, c) && LaneAt(x, even, odd, r, 1, c)
       && LaneAt(x, even, odd, r, 2, c) && LaneAt(x, even, odd, r, 3, c)
  }

  ghost predicate RegsAt(x: Block, s: State, lo: nat, hi: nat, c: nat)
    requires hi <= x.Regs() && c <= x.K
  {
    forall r: nat :: lo <= r < hi ==> AccAt(x, s, r, c)
  }

  // Registers below r0 have taken row c, the others have not.
  ghost predicate MidRow(x: Block, s: State, r0: nat, c: nat)
    requires c < x.K && r0 <= x.Regs()
  {
    s.w == x.off && RegsAt(x, s, 0, r0, c + 1) && RegsAt(x, s, r0, x.Regs(), c)
  }

  ghost predicate Accs(x: Block, s: State, c: nat)
    requires c <= x.K
  {
    s.w == x.off && RegsAt(x, s, 0, x.Regs(), c)
  }

  // Nothing but accumulators changed.
  ghost predicate OnlyAccs(s: State, s': State) {
    && s'.out == s.out && s'.w == s.w
    && forall q :: q in s.regs && !q.Acc? ==> q in s'.regs && s'.regs[q] == s.regs[q]
  }

  ghost predicate Feeds(x: Block, s: State, src: Source, c: nat)
    requires c < x.K
  {
    match src
    case Lane(q, lane) => q.In? && Has(s, q) && lane < 4 && s.regs[q][lane] == x.env.inp[c]
    case Whole => Has(s, Broadcast) && s.regs[Broadcast] == Splat(x.env.inp[c])
  }

  // The four weights of register r in row c are a contiguous slice of the tile.
  lemma {:induction false} TileSlice(x: Block, r: nat, c: nat)
    requires r < x.Regs() && c < x.K
    ensures x.At(c, 4 * r) + 4 <= |x.env.pack|
    ensures forall l: nat :: l < 4 ==> x.env.pack[x.At(c, 4 * r) + l] == x.W[c][x.Col(r, l)]
  {
    assert 4 * r + 3 < x.nr;
    forall l: nat | l < 4
      ensures x.At(c, 4 * r) + l < |x.env.pack| && x.env.pack[x.At(c, 4 * r) + l] == x.W[c][x.Col(r, l)]
    {
      assert x.At(c, 4 * r + l) == x.At(c, 4 * r) + l;
    }
    assert x.At(c, 4 * r + 3) < |x.env.pack|;
  }

  function Updated(x: Block, s: State, b: nat, r: nat, c: nat): State
    requires Has(s, Acc(b, r)) && x.At(c, 4 * r) + 4 <= |x.env.pack| && c < |x.env.inp|
  {
    Put(s, Acc(b, r), Fma4(s.regs[Acc(b, r)], x.env.pack[x.At(c, 4 * r)..x.At(c, 4 * r) + 4], Splat(x.env.inp[c])))
  }

  lemma {:induction false} ExecFma(x: Block, s: State, koff: nat, looped: bool, kv: nat, src: Source, r: nat, c: nat)
    requires c < x.K && c == (if looped then kv + koff else koff)
    requires s.w == x.off && Has(s, Acc(koff % 2, r)) && Feeds(x, s, src, c)
    requires x.At(c, 4 * r) + 4 <= |x.env.pack|
    ensures Exec(FmaInstr(koff, looped, x.nr, src, r), kv, x.env, s) == Some(Updated(x, s, koff % 2, r, c))
  {
    assert Cell(Pos(koff, looped), x.nr, 4 * r).At(kv) == c * x.nr + 4 * r;
  }

  lemma {:induction false} FmaLaneAt(x: Block, even: seq<real>, odd: seq<real>, w: seq<real>, r: nat, l: nat, c: nat)
    requires r < x.Regs() && l < 4 && c < x.K && |even| == 4 && |odd| == 4 && |w| == 4
    requires LaneAt(x, even, odd, r, l, c) && w[l] == x.W[c][x.Col(r, l)]
    ensures c % 2 == 0 ==> LaneAt(x, Fma4(even, w, Splat(x.env.inp[c])), odd, r, l, c + 1)
    ensures c % 2 == 1 ==> LaneAt(x, even, Fma4(odd, w, Splat(x.env.inp[c])), r, l, c + 1)
  {
    var t := x.T(x.Col(r, l));
    BankStep(t, c, 0);
    BankStep(t, c, 1);
    FmaAt(even, w, x.env.inp[c], l);
    FmaAt(odd, w, x.env.inp[c], l);
    BlockTerm(x, r, l, c, w[l], x.env.inp[c]);
  }

  lemma {:induction false} FmaAt(a: seq<real>, w: seq<real>, v: real, l: nat)
    requires |a| == |w| == 4 && l < 4
    ensures Fma4(a, w, Splat(v))[l] == a[l] + Prod(w[l], v)
  {}

  lemma {:induction false} BlockTerm(x: Block, r: nat, l: nat, c: nat, w: real, v: real)
    requires r < x.Regs() && l < 4 && c < x.K && w == x.W[c][x.Col(r, l)] && v == x.env.inp[c]
    ensures x.T(x.Col(r, l))[c] == Prod(w, v)
  {}

  // A multiply-add of row c into its bank advances register r to c + 1.
  lemma {:induction false} UpdatedAt(x: Block, s: State, r: nat, c: nat)
    requires r < x.Regs() && c < x.K && AccAt(x, s, r, c)
    ensures x.At(c, 4 * r) + 4 <= |x.env.pack|
    ensures AccAt(x, Updated(x, s, c % 2, r, c), r, c + 1)
  {
    TileSlice(x, r, c);
    var w := x.env.pack[x.At(c, 4 * r)..x.At(c, 4 * r) + 4];
    var even, odd := s.regs[Acc(0, r)], s.regs[Acc(1, r)];
    assert forall l: nat :: l < 4 ==> w[l] == x.env.pack[x.At(c, 4 * r) + l];
    FmaLaneAt(x, even, odd, w, r, 0, c);
    FmaLaneAt(x, even, odd, w, r, 1, c);
    FmaLaneAt(x, even, odd, w, r, 2, c);
    FmaLaneAt(x, even, odd, w, r, 3, c);
  }

  lemma {:induction false} UpdatedElsewhere(x: Block, s: State, b: nat, r: nat, c: nat, q: nat, d: nat)
    requires Has(s, Acc(b, r)) && x.At(c, 4 * r) + 4 <= |x.env.pack| && c < |x.env.inp|
    requires q != r && q < x.Regs() && d <= x.K && AccAt(x, s, q, d)
    ensures AccAt(x, Updated(x, s, b, r, c), q, d)
  {
    var s' := Updated(x, s, b, r, c);
    assert s'.regs[Acc(0, q)] == s.regs[Acc(0, q)] && s'.regs[Acc(1, q)] == s.regs[Acc(1, q)];
  }

  lemma {:induction false} UpdatedOthers(x: Block, s: State, b: nat, r: nat, c: nat, lo: nat, hi: nat, d: nat)
    requires Has(s, Acc(b, r)) && x.At(c, 4 * r) + 4 <= |x.env.pack| && c < |x.env.inp|
    requires hi <= x.Regs() && d <= x.K && RegsAt(x, s, lo, hi, d) && (r < lo || hi <= r)
    ensures RegsAt(x, Updated(x, s, b, r, c), lo, hi, d)
  {
    forall q: nat | lo <= q < hi ensures AccAt(x, Updated(x, s, b, r, c), q, d) {
      UpdatedElsewhere(x, s, b, r, c, q, d);
    }
  }

  lemma {:induction false} MidRowStep(x: Block, s: State, r: nat, c: nat)
    requires r < x.Regs() && c < x.K && MidRow(x, s, r, c)
    ensures Has(s, Acc(c % 2, r)) && x.At(c, 4 * r) + 4 <= |x.env.pack|
    ensures MidRow(x, Updated(x, s, c % 2, r, c), r + 1, c)
  {
    assert AccAt(x, s, r, c);
    UpdatedAt(x, s, r, c);
    var s' := Updated(x, s, c % 2, r, c);
    UpdatedOthers(x, s, c % 2, r, c, 0, r, c + 1);
    assert RegsAt(x, s, r + 1, x.Regs(), c);
    UpdatedOthers(x, s, c % 2, r, c, r + 1, x.Regs(), c);
  }

  // Row c is being applied and registers below r0 have taken it.
  ghost predicate Stage(x: Block, s: State, src: Source, r0: nat, c: nat) {
    c < x.K && r0 <= x.Regs() && MidRow(x, s, r0, c) && Feeds(x, s, src, c)
  }

  // Weight row koff, relative to the loop variable kv when looped, is row c.
  predicate RowIs(koff: nat, looped: bool, kv: nat, c: nat) {
    koff % 2 == c % 2 && c == if looped then kv + koff else koff
  }

  // Executing one multiply-add of the row.
  lemma {:induction false} RowStep(x: Block, s: State, koff: nat, looped: bool, kv: nat, src: Source, r: nat, c: nat)
    returns (s': State)
    requires Stage(x, s, src, r, c) && r < x.Regs() && RowIs(koff, looped, kv, c)
    ensures Exec(FmaInstr(koff, looped, x.nr, src, r), kv, x.env, s) == Some(s')
    ensures Stage(x, s', src, r + 1, c) && OnlyAccs(s, s')
  {
    MidRowStep(x, s, r, c);
    ExecFma(x, s, koff, looped, kv, src, r, c);
    s' := Updated(x, s, c % 2, r, c);
  }

  lemma {:induction false} RunLine(code: Code, line: Instr, kv: nat, env: Env, s: State, s1: State, s2: State)
    requires Run(code, kv, env, s) == Some(s1) && Exec(line, kv, env, s1) == Some(s2)
    ensures Run(Then(code, Do(line)), kv, env, s) == Some(s2)
  {}

  lemma {:induction false} RowNext(x: Block, s: State, s1: State, koff: nat, looped: bool, kv: nat, src: Source, n: nat,
      c: nat)
    returns (s': State)
    requires Stage(x, s1, src, n, c) && OnlyAccs(s, s1) && n < x.Regs() && RowIs(koff, looped, kv, c)
    requires Run(Row(koff, looped, x.nr, src, n), kv, x.env, s) == Some(s1)
    ensures Run(Row(koff, looped, x.nr, src, n + 1), kv, x.env, s) == Some(s')
    ensures Stage(x, s', src, n + 1, c) && OnlyAccs(s, s')
  {
    s' := RowStep(x, s1, koff, looped, kv, src, n, c);
    RunLine(Row(koff, looped, x.nr, src, n), FmaInstr(koff, looped, x.nr, src, n), kv, x.env, s, s1, s');
  }

  lemma {:induction false} RowRuns(x: Block, s: State, koff: nat, looped: bool, kv: nat, src: Source, n: nat, c: nat)
    returns (s': State)
    requires Stage(x, s, src, 0, c) && n <= x.Regs() && RowIs(koff, looped, kv, c)
    ensures Run(Row(koff, looped, x.nr, src, n), kv, x.env, s) == Some(s')
    ensures Stage(x, s', src, n, c) && OnlyAccs(s, s')
  {
    if n == 0 {
      s' := s;
    } else {
      var s1 := RowRuns(x, s, koff, looped, kv, src, n - 1, c);
      s' := RowNext(x, s, s1, koff, looped, kv, src, n - 1, c);
    }
  }

  // A full row takes every accumulator from c to c + 1.
  lemma {:induction false} RowDone(x: Block, s: State, koff: nat, looped: bool, kv: nat, src: Source, c: nat)
    returns (s': State)
    requires c < x.K && Accs(x, s, c) && Feeds(x, s, src, c) && RowIs(koff, looped, kv, c)
    ensures Run(Row(koff, looped, x.nr, src, x.Regs()), kv, x.env, s) == Some(s')
    ensures Accs(x, s', c + 1) && OnlyAccs(s, s')
  {
    s' := RowRuns(x, s, koff, looped, kv, src, x.Regs(), c);
  }

  // Register In(u) holds inputs c .. c+3.
  ghost predicate Loaded(x: Block, s: State, u: nat, c: nat) {
    c + 4 <= |x.env.inp| && In(u) in s.regs && s.regs[In(u)] == x.env.inp[c..c + 4]
  }

  lemma {:induction false} QuadRuns(x: Block, s: State, koff: nat, u: nat, looped: bool, kv: nat, lanes: nat, c: nat)
    returns (s': State)
    requires lanes <= 4 && c + 4 <= x.K && Accs(x, s, c) && RowIs(koff, looped, kv, c)
    ensures Run(Quad(koff, u, looped, x.nr, lanes), kv, x.env, s) == Some(s')
    ensures Accs(x, s', c + lanes) && Loaded(x, s', u, c) && s'.out == s.out
  {
    if lanes == 0 {
      s' := Put(s, In(u), x.env.inp[c..c + 4]);
      PutKeepsAccs(x, s, In(u), x.env.inp[c..c + 4], c);
    } else {
      var l := lanes - 1;
      var s1 := QuadRuns(x, s, koff, u, looped, kv, l, c);
      LaneFeeds(x, s1, u, l, c);
      NextRow(koff, l, looped, kv, c);
      s' := RowDone(x, s1, koff + l, looped, kv, Lane(In(u), l), c + l);
      StillLoaded(x, s1, s', u, c);
    }
  }

  lemma {:induction false} LaneFeeds(x: Block, s: State, u: nat, l: nat, c: nat)
    requires l < 4 && c + 4 <= x.K && Loaded(x, s, u, c)
    ensures Feeds(x, s, Lane(In(u), l), c + l)
  {}

  lemma {:induction false} NextRow(koff: nat, l: nat, looped: bool, kv: nat, c: nat)
    requires RowIs(koff, looped, kv, c)
    ensures RowIs(koff + l, looped, kv, c + l)
  {}

  lemma {:induction false} StillLoaded(x: Block, s: State, s': State, u: nat, c: nat)
    requires Loaded(x, s, u, c) && OnlyAccs(s, s')
    ensures Loaded(x, s', u, c)
  {}

  lemma {:induction false} PutKeepsAccs(x: Block, s: State, q: Reg, v: seq<real>, c: nat)
    requires !q.Acc? && c <= x.K && Accs(x, s, c)
    ensures Accs(x, Put(s, q, v), c)
  {
    forall r: nat | r < x.Regs() ensures AccAt(x, Put(s, q, v), r, c) {
      assert AccAt(x, s, r, c);
    }
  }

  lemma {:induction false} UnrolledRuns(x: Block, s: State, quads: nat) returns (s': State)
    requires 4 * quads <= x.K && Accs(x, s, 0)
    ensures Run(Unrolled(quads, x.nr), 0, x.env, s) == Some(s')
    ensures Accs(x, s', 4 * quads) && s'.out == s.out
  {
    if quads == 0 {
      s' := s;
    } else {
      var s1 := UnrolledRuns(x, s, quads - 1);
      s' := QuadRuns(x, s1, 4 * (quads - 1), 0, false, 0, 4, 4 * (quads - 1));
    }
  }

  lemma {:induction false} LoopBodyRuns(x: Block, s: State, k: nat) returns (s': State)
    requires k % 8 == 0 && k + 8 <= x.K && Accs(x, s, k)
    ensures Run(LoopBody(x.nr), k, x.env, s) == Some(s')
    ensures Accs(x, s', k + 8) && s'.out == s.out
  {
    EightRows(k);
    var s1 := QuadRuns(x, s, 0, 0, true, k, 4, k);
    s' := QuadRuns(x, s1, 4, 4, true, k, 4, k + 4);
  }

  lemma {:induction false} EightRows(k: nat)
    requires k % 8 == 0
    ensures RowIs(0, true, k, k) && RowIs(4, true, k, k + 4)
  {
    var q := k / 8;
    assert k == 2 * (4 * q) && k + 4 == 2 * (4 * q + 2);
  }

  lemma {:induction false} LoopRuns(x: Block, s: State, k: nat, bound: nat) returns (s': State)
    requires k % 8 == 0 && bound % 8 == 0 && k <= bound <= x.K && Accs(x, s, k)
    ensures RunFor(LoopBody(x.nr), k, bound, 8, x.env, s) == Some(s')
    ensures Accs(x, s', bound) && s'.out == s.out
    decreases bound - k
  {
    if k == bound {
      s' := s;
    } else {
      var s1 := LoopBodyRuns(x, s, k);
      s' := LoopRuns(x, s1, k + 8, bound);
    }
  }

  // The looped form steps by eight rows, so it needs the rows handled four at
  // a time to be a multiple of eight.
  predicate LoopFits(K: nat) {
    K <= FULL_UNROLL_K || (K - K % 4) % 8 == 0
  }

  lemma {:induction false} MiddleRuns(x: Block, s: State) returns (s': State)
    requires LoopFits(x.K) && Accs(x, s, 0)
    ensures Run(Middle(x.K, x.nr), 0, x.env, s) == Some(s')
    ensures Accs(x, s', x.K - x.K % 4) && s'.out == s.out
  {
    if x.K <= FULL_UNROLL_K {
      s' := UnrolledRuns(x, s, x.K / 4);
    } else {
      s' := LoopRuns(x, s, 0, x.K - x.K % 4);
    }
  }

  lemma {:induction false} TailRowRuns(x: Block, s: State, c: nat) returns (s': State)
    requires c < x.K && Accs(x, s, c)
    ensures Run(TailRow(c, x.nr), 0, x.env, s) == Some(s')
    ensures Accs(x, s', c + 1) && s'.out == s.out
  {
    var s1 := Put(s, Broadcast, Splat(x.env.inp[c]));
    PutKeepsAccs(x, s, Broadcast, Splat(x.env.inp[c]), c);
    assert Run(Do(SplatInput(Broadcast, c)), 0, x.env, s) == Some(s1);
    s' := RowDone(x, s1, c, false, 0, Whole, c);
  }

  lemma {:induction false} TailRuns(x: Block, s: State, lo: nat, hi: nat) returns (s': State)
    requires lo <= hi <= x.K && Accs(x, s, lo)
    ensures Run(Tail(lo, hi, x.nr), 0, x.env, s) == Some(s')
    ensures Accs(x, s', hi) && s'.out == s.out
    decreases hi
  {
    if hi == lo {
      s' := s;
    } else {
      var s1 := TailRuns(x, s, lo, hi - 1);
      s' := TailRowRuns(x, s1, hi - 1);
    }
  }

  // --- entering and leaving a block --------------------------------------

  // Registers loaded with biases, respectively zeroed, before any row.
  ghost predicate Biased(x: Block, s: State, n: nat)
    requires n <= x.Regs()
  {
    forall r: nat :: r < n ==>
      Acc(0, r) in s.regs && s.regs[Acc(0, r)] == x.env.bias[x.Col(r, 0)..x.Col(r, 0) + 4]
  }

  ghost predicate OddZero(s: State, n: nat) {
    forall r: nat :: r < n ==> Acc(1, r) in s.regs && s.regs[Acc(1, r)] == Splat(0.0)
  }

  lemma {:induction false} BiasesRun(x: Block, s: State, n: nat) returns (s': State)
    requires n <= x.Regs()
    ensures Run(LoadBiases(x.j0, n), 0, x.env, s) == Some(s')
    ensures Biased(x, s', n) && s'.out == s.out
  {
    s' := s;
    if n > 0 {
      var s1 := BiasesRun(x, s, n - 1);
      var at := x.j0 + 4 * (n - 1);
      s' := Put(s1, Acc(0, n - 1), x.env.bias[at..at + 4]);
      RunLine(LoadBiases(x.j0, n - 1), LoadBias(Acc(0, n - 1), at), 0, x.env, s, s1, s');
    }
  }

  lemma {:induction false} ZerosRun(x: Block, s: State, n: nat) returns (s': State)
    requires n <= x.Regs() && Biased(x, s, x.Regs())
    ensures Run(ZeroOdd(n), 0, x.env, s) == Some(s')
    ensures Biased(x, s', x.Regs()) && OddZero(s', n) && s'.out == s.out
  {
    s' := s;
    if n > 0 {
      var s1 := ZerosRun(x, s, n - 1);
      s' := Put(s1, Acc(1, n - 1), Splat(0.0));
    }
  }

  lemma {:induction false} HeadRuns(x: Block, s: State) returns (s': State)
    ensures Run(Head(x.j0, x.off, x.Regs()), 0, x.env, s) == Some(s')
    ensures Accs(x, s', 0) && s'.out == s.out
  {
    var s1 := BiasesRun(x, s, x.Regs());
    var s2 := ZerosRun(x, s1, x.Regs());
    s' := s2.(w := x.off);
    forall r: nat | r < x.Regs() ensures AccAt(x, s', r, 0) {
      assert s'.regs[Acc(0, r)] == x.env.bias[x.Col(r, 0)..x.Col(r, 0) + 4];
    }
  }

  // Columns j0 .. j0+4n of out hold the layer's outputs, the rest is untouched.
  ghost predicate Written(x: Block, relu: bool, before: seq<real>, out: seq<real>, n: nat)
    requires n <= x.Regs()
  {
    && |out| == |before|
    && forall i: nat :: i < |out| ==>
         out[i] == if x.j0 <= i < x.j0 + 4 * n && i < x.N
                   then Neuron(x.W, x.env.bias, x.env.inp, x.K, x.N, relu, i) else before[i]
  }

  // Adding the banks gives the biased sum over all K rows; then the activation.
  lemma {:induction false} LaneFinal(x: Block, even: seq<real>, odd: seq<real>, relu: bool, r: nat, l: nat)
    requires r < x.Regs() && l < 4 && |even| == 4 && |odd| == 4
    requires LaneAt(x, even, odd, r, l, x.K)
    ensures Activate(even[l] + odd[l], relu) == Neuron(x.W, x.env.bias, x.env.inp, x.K, x.N, relu, x.Col(r, l))
  {
    BanksAddUp(x.T(x.Col(r, l)), x.K);
  }

  lemma {:induction false} AddBanksRun(x: Block, s: State, relu: bool, r: nat) returns (s': State, v: seq<real>)
    requires r < x.Regs() && AccAt(x, s, r, x.K)
    ensures Run(AddBanks(relu, r), 0, x.env, s) == Some(s')
    ensures s' == s.(regs := s'.regs) && Acc(0, r) in s'.regs && s'.regs[Acc(0, r)] == v && |v| == 4
    ensures forall q: Reg :: q != Acc(0, r) && q in s.regs ==> q in s'.regs && s'.regs[q] == s.regs[q]
    ensures forall l: nat :: l < 4 ==> v[l] == Neuron(x.W, x.env.bias, x.env.inp, x.K, x.N, relu, x.Col(r, l))
  {
    var even, odd := s.regs[Acc(0, r)], s.regs[Acc(1, r)];
    v := [Activate(even[0] + odd[0], relu), Activate(even[1] + odd[1], relu),
          Activate(even[2] + odd[2], relu), Activate(even[3] + odd[3], relu)];
    LaneFinal(x, even, odd, relu, r, 0);
    LaneFinal(x, even, odd, relu, r, 1);
    LaneFinal(x, even, odd, relu, r, 2);
    LaneFinal(x, even, odd, relu, r, 3);
    var s1 := Put(s, Acc(0, r), Add4(even, odd));
    s' := Put(s, Acc(0, r), v);
    assert Run(Do(AddInto(Acc(0, r), Acc(1, r))), 0, x.env, s) == Some(s1);
    if relu {
      assert Run(Do(MaxZero(Acc(0, r))), 0, x.env, s1) == Some(Put(s1, Acc(0, r), v));
      assert s1.regs[Acc(0, r) := v] == s'.regs;
    } else {
      assert v == Add4(even, odd);
    }
  }

  lemma {:induction false} StoreWrites(x: Block, relu: bool, before: seq<real>, out: seq<real>, r: nat, v: seq<real>)
    requires r < x.Regs() && Written(x, relu, before, out, r) && x.N <= |out| && |v| == 4
    requires forall l: nat :: l < 4 ==> v[l] == Neuron(x.W, x.env.bias, x.env.inp, x.K, x.N, relu, x.Col(r, l))
    ensures x.j0 + 4 * r + 4 <= |out|
    ensures Written(x, relu, before, out[..x.j0 + 4 * r] + v + out[x.j0 + 4 * r + 4..], r + 1)
  {
    var at := x.j0 + 4 * r;
    var out' := out[..at] + v + out[at + 4..];
    forall i: nat | i < |out'|
      ensures out'[i] == if x.j0 <= i < x.j0 + 4 * (r + 1) && i < x.N
                         then Neuron(x.W, x.env.bias, x.env.inp, x.K, x.N, relu, i) else before[i]
    {
      if at <= i < at + 4 {
        assert v[i - at] == Neuron(x.W, x.env.bias, x.env.inp, x.K, x.N, relu, x.Col(r, i - at));
      }
    }
  }

  lemma {:induction false} FinishStep(x: Block, s: State, relu: bool, before: seq<real>, r: nat) returns (s': State)
    requires r < x.Regs() && RegsAt(x, s, r, x.Regs(), x.K) && Written(x, relu, before, s.out, r) && x.N <= |s.out|
    ensures Run(Then(AddBanks(relu, r), Do(Store(x.j0 + 4 * r, Acc(0, r)))), 0, x.env, s) == Some(s')
    ensures Written(x, relu, before, s'.out, r + 1) && RegsAt(x, s', r + 1, x.Regs(), x.K)
  {
    assert AccAt(x, s, r, x.K);
    var s1, v := AddBanksRun(x, s, relu, r);
    StoreWrites(x, relu, before, s.out, r, v);
    var at := x.j0 + 4 * r;
    s' := s1.(out := s1.out[..at] + v + s1.out[at + 4..]);
    RunLine(AddBanks(relu, r), Store(at, Acc(0, r)), 0, x.env, s, s1, s');
    LaterRegs(x, s, s', r);
  }

  lemma {:induction false} LaterRegs(x: Block, s: State, s': State, r: nat)
    requires r < x.Regs() && RegsAt(x, s, r, x.Regs(), x.K)
    requires forall b: nat, q: nat ::
               q != r && Acc(b, q) in s.regs ==> Acc(b, q) in s'.regs && s'.regs[Acc(b, q)] == s.regs[Acc(b, q)]
    ensures RegsAt(x, s', r + 1, x.Regs(), x.K)
  {
    forall q: nat | r + 1 <= q < x.Regs() ensures AccAt(x, s', q, x.K) {
      assert AccAt(x, s, q, x.K);
    }
  }

  lemma {:induction false} FinishRuns(x: Block, s: State, relu: bool, n: nat) returns (s': State)
    requires n <= x.Regs() && RegsAt(x, s, 0, x.Regs(), x.K) && x.N <= |s.out|
    ensures Run(Finish(x.j0, relu, n), 0, x.env, s) == Some(s')
    ensures Written(x, relu, s.out, s'.out, n) && RegsAt(x, s', n, x.Regs(), x.K)
  {
    s' := s;
    if n > 0 {
      var s1 := FinishRuns(x, s, relu, n - 1);
      s' := FinishStep(x, s1, relu, s.out, n - 1);
    }
  }

  // One wide block writes its columns of the layer and nothing else.
  lemma {:induction false} WideBlockRuns(x: Block, s: State, relu: bool) returns (s': State)
    requires LoopFits(x.K) && x.N <= |s.out|
    ensures Run(WideBlock(x.K, x.nr, x.j0, x.off, relu), 0, x.env, s) == Some(s')
    ensures Written(x, relu, s.out, s'.out, x.Regs())
  {
    var s1 := HeadRuns(x, s);
    var s2 := MiddleRuns(x, s1);
    var s3 := TailRuns(x, s2, x.K - x.K % 4, x.K);
    s' := FinishRuns(x, s3, relu, x.Regs());
    var a := Then(Head(x.j0, x.off, x.Regs()), Middle(x.K, x.nr));
    assert Run(a, 0, x.env, s) == Some(s2);
    assert Run(Then(a, Tail(x.K - x.K % 4, x.K, x.nr)), 0, x.env, s) == Some(s3);
  }
}
