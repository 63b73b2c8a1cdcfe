// The shape-specialised kernel generator: tile plan, weight packing, and the
// straight-line or looped code emitted for one layer.
module KernelCompiler {
  import opened LinearLayer
  import opened Arithmetic
  import opened TileMachine

  const FULL_UNROLL_K: nat := 128
  const K_LOOP_UNROLL: nat := 8

  datatype Tile = Tile(j0: nat, nr: nat)

  // Tiles of width 4, 8 or 16 laid side by side from column 0 up to column n.
  ghost predicate Tiling(plan: seq<Tile>, n: nat) {
    if plan == [] then n == 0
    else var t := plan[|plan| - 1];
         t.nr in {4, 8, 16} && t.j0 + t.nr == n && Tiling(plan[..|plan| - 1], t.j0)
  }

  function Wide(n: nat): seq<Tile> {
    if n == 0 then [] else Wide(n - 1) + [Tile(16 * (n - 1), 16)]
  }

  // As many 16-wide tiles as fit, then at most one 8 and at most one 4.
  function Plan(N: nat): seq<Tile> {
    Wide(N / 16)
    + (if N % 16 >= 8 then [Tile(N - N % 16, 8)] else [])
    + (if N % 8 >= 4 then [Tile(N - N % 8, 4)] else [])
  }

  lemma {:induction false} WideTiles(n: nat)
    ensures Tiling(Wide(n), 16 * n)
  {
    if n > 0 {
      WideTiles(n - 1);
      AddTile(Wide(n - 1), 16 * (n - 1), 16, true);
    }
  }

  lemma {:induction false} TilingSnoc(plan: seq<Tile>, t: Tile)
    requires Tiling(plan, t.j0) && t.nr in {4, 8, 16}
    ensures Tiling(plan + [t], t.j0 + t.nr)
  {
    assert (plan + [t])[..|plan|] == plan;
  }

  lemma {:induction false} AddTile(plan: seq<Tile>, n: nat, nr: nat, more: bool)
    requires Tiling(plan, n) && nr in {4, 8, 16}
    ensures more ==> Tiling(plan + [Tile(n, nr)], n + nr)
    ensures !more ==> Tiling(plan + [], n)
  {
    TilingSnoc(plan, Tile(n, nr));
    assert plan + [] == plan;
  }

  lemma {:induction false} Remainders(N: nat)
    ensures N - N % 16 == 16 * (N / 16)
    ensures N - N % 8 == N - N % 16 + (if N % 16 >= 8 then 8 else 0)
    ensures N - N % 4 == N - N % 8 + (if N % 8 >= 4 then 4 else 0)
  {
    var q, r := N / 16, N % 16;
    var q', r' := if r >= 8 then 2 * q + 1 else 2 * q, if r >= 8 then r - 8 else r;
    RemainderIs(N, 8, q', r');
    RemainderIs(N, 4, if r' >= 4 then 2 * q' + 1 else 2 * q', if r' >= 4 then r' - 4 else r');
  }

  lemma {:induction false} RemainderIs(n: nat, m: nat, q: nat, r: nat)
    requires m in {4, 8} && n == m * q + r && r < m
    ensures n % m == r
  {}

  // The plan covers exactly the columns below the last multiple of four.
  lemma {:induction false} PlanTiles(N: nat)
    ensures Tiling(Plan(N), N - N % 4)
  {
    Remainders(N);
    PlanTilesFrom(N / 16, N - N % 16, N % 16 >= 8, N - N % 8, N % 8 >= 4);
  }

  lemma {:induction false} PlanTilesFrom(q: nat, n16: nat, eight: bool, n8: nat, four: bool)
    requires n16 == 16 * q && n8 == n16 + if eight then 8 else 0
    ensures Tiling(Wide(q) + (if eight then [Tile(n16, 8)] else []) + (if four then [Tile(n8, 4)] else []),
                   n8 + if four then 4 else 0)
  {
    WideTiles(q);
    AddTile(Wide(q), n16, 8, eight);
    AddTile(Wide(q) + (if eight then [Tile(n16, 8)] else []), n8, 4, four);
  }

  method BlockPlan(N: nat) returns (plan: seq<Tile>)
    ensures plan == Plan(N)
  {
    Remainders(N);
    plan := [];
    var j := 0;
    ghost var q := 0;
    while N - j >= 16
      invariant j == 16 * q && j <= N
      invariant plan == Wide(q)
    {
      plan := plan + [Tile(j, 16)];
      j := j + 16;
      q := q + 1;
    }
    assert j == N - N % 16 && q == N / 16;
    ghost var p, j16 := plan, j;
    while N - j >= 8
      invariant j <= N && ((j == j16 && plan == p) || (j == j16 + 8 && plan == p + [Tile(j16, 8)]))
    {
      plan := plan + [Tile(j, 8)];
      j := j + 8;
    }
    assert j == N - N % 8;
    ghost var p', j8 := plan, j;
    while N - j >= 4
      invariant j <= N && ((j == j8 && plan == p') || (j == j8 + 4 && plan == p' + [Tile(j8, 4)]))
    {
      plan := plan + [Tile(j, 4)];
      j := j + 4;
    }
  }

  // --- weight packing ---------------------------------------------------

  function Packed(W: Matrix, K: nat, N: nat, plan: seq<Tile>): seq<real>
    requires Shaped(W, K, N) && forall t :: t in plan ==> t.j0 + t.nr <= N
  {
    if plan == [] then []
    else var t := plan[|plan| - 1];
         Packed(W, K, N, plan[..|plan| - 1]) + TileRows(W, N, t.j0, t.nr, K)
  }

  lemma {:induction false} TilingInside(plan: seq<Tile>, n: nat, N: nat)
    requires Tiling(plan, n) && n <= N
    ensures forall t :: t in plan ==> t.nr in {4, 8, 16} && t.j0 + t.nr <= n
  {
    if plan != [] {
      var m := |plan| - 1;
      TilingInside(plan[..m], plan[m].j0, N);
      assert forall t :: t in plan ==> t in plan[..m] || t == plan[m];
    }
  }

  lemma {:induction false} PackedLength(W: Matrix, K: nat, N: nat, plan: seq<Tile>, n: nat)
    requires Shaped(W, K, N) && Tiling(plan, n) && n <= N
    requires forall t :: t in plan ==> t.j0 + t.nr <= N
    ensures |Packed(W, K, N, plan)| == K * n
  {
    if plan == [] {
      assert n == 0;
    } else {
      var rest, t := plan[..|plan| - 1], plan[|plan| - 1];
      PackedLength(W, K, N, rest, t.j0);
      TileRowsLength(W, N, t.j0, t.nr, K);
      LengthsAdd(Packed(W, K, N, rest), TileRows(W, N, t.j0, t.nr, K), K, t.j0, t.nr);
    }
  }

  lemma {:induction false} LengthsAdd(a: seq<real>, b: seq<real>, K: nat, j0: nat, nr: nat)
    requires |a| == K * j0 && |b| == K * nr
    ensures |a + b| == K * (j0 + nr)
  {
    MulAdd(j0, nr, K);
  }

  // Position of weight (k, j0 + c) of tile t in the packed array.
  function Slot(K: nat, t: Tile, k: nat, c: nat): nat {
    K * t.j0 + (k * t.nr + c)
  }

  lemma {:induction false} SlotInTile(K: nat, t: Tile, k: nat, c: nat)
    requires k < K && c < t.nr
    ensures K * t.j0 <= Slot(K, t, k, c) < K * t.j0 + K * t.nr == K * (t.j0 + t.nr)
  {
    MulStep(k, K, t.nr);
    MulAdd(t.j0, t.nr, K);
  }

  lemma {:induction false} PackedAt(W: Matrix, K: nat, N: nat, plan: seq<Tile>, n: nat, t: Tile, k: nat, c: nat)
    requires Shaped(W, K, N) && Tiling(plan, n) && n <= N
    requires forall u :: u in plan ==> u.j0 + u.nr <= N
    requires t in plan && k < K && c < t.nr
    ensures Slot(K, t, k, c) < |Packed(W, K, N, plan)|
    ensures Packed(W, K, N, plan)[Slot(K, t, k, c)] == W[k][t.j0 + c]
  {
    var m := |plan| - 1;
    var u := plan[m];
    var rest := plan[..m];
    PackedLength(W, K, N, rest, u.j0);
    assert plan == rest + [u];
    var before, last := Packed(W, K, N, rest), TileRows(W, N, u.j0, u.nr, K);
    if t in rest {
      PackedAt(W, K, N, rest, u.j0, t, k, c);
      PrefixAt(before, last, Slot(K, t, k, c));
    } else {
      LastTileAt(W, K, N, before, u, k, c);
    }
  }

  lemma {:induction false} PrefixAt(a: seq<real>, b: seq<real>, p: nat)
    requires p < |a|
    ensures p < |a + b| && (a + b)[p] == a[p]
  {}

  lemma {:induction false} LastTileAt(W: Matrix, K: nat, N: nat, before: seq<real>, t: Tile, k: nat, c: nat)
    requires Shaped(W, K, N) && t.j0 + t.nr <= N && k < K && c < t.nr
    requires |before| == K * t.j0
    ensures Slot(K, t, k, c) < |before + TileRows(W, N, t.j0, t.nr, K)|
    ensures (before + TileRows(W, N, t.j0, t.nr, K))[Slot(K, t, k, c)] == W[k][t.j0 + c]
  {
    TileRowsAt(W, N, t.j0, t.nr, K, k, c);
  }

  // Every weight of a covered column is in the packed array exactly once:
  // the slots of different weights differ, and every slot belongs to one.
  lemma {:induction false} SlotsDistinct(K: nat, plan: seq<Tile>, n: nat, t: Tile, k: nat, c: nat, t': Tile, k': nat,
      c': nat)
    requires Tiling(plan, n) && t in plan && t' in plan
    requires k < K && c < t.nr && k' < K && c' < t'.nr
    requires Slot(K, t, k, c) == Slot(K, t', k', c')
    ensures t == t' && k == k' && c == c'
  {
    SlotInTile(K, t, k, c);
    SlotInTile(K, t', k', c');
    if t == t' {
      if k < k' { MulStep(k, k', t.nr); }
      if k' < k { MulStep(k', k, t.nr); }
    } else {
      TilesApart(plan, n, t, t');
      if t.j0 + t.nr <= t'.j0 { MulMono(t.j0 + t.nr, t'.j0, K); } else { MulMono(t'.j0 + t'.nr, t.j0, K); }
    }
  }

  lemma {:induction false} TilesApart(plan: seq<Tile>, n: nat, t: Tile, t': Tile)
    requires Tiling(plan, n) && t in plan && t' in plan && t != t'
    ensures t.j0 + t.nr <= t'.j0 || t'.j0 + t'.nr <= t.j0
  {
    var m := |plan| - 1;
    var u := plan[m];
    var rest := plan[..m];
    assert plan == rest + [u];
    TilingInside(rest, u.j0, u.j0);
    if t in rest && t' in rest {
      TilesApart(rest, u.j0, t, t');
    }
  }

  lemma {:induction false} SlotsCover(K: nat, plan: seq<Tile>, n: nat, p: nat) returns (t: Tile, k: nat, c: nat)
    requires Tiling(plan, n) && p < K * n
    ensures t in plan && k < K && c < t.nr && Slot(K, t, k, c) == p
  {
    var m := |plan| - 1;
    var u := plan[m];
    var rest := plan[..m];
    MulAdd(u.j0, u.nr, K);
    if p < K * u.j0 {
      t, k, c := SlotsCover(K, rest, u.j0, p);
    } else {
      t := u;
      k, c := DivSplit(p - K * u.j0, K, u.nr);
    }
  }

  lemma {:induction false} DivSplit(q: nat, K: nat, nr: nat) returns (k: nat, c: nat)
    requires nr > 0 && q < K * nr
    ensures k < K && c < nr && q == k * nr + c
  {
    k, c := q / nr, q % nr;
    if k >= K { MulMono(K, k, nr); }
  }

  // Every weight of a planned column sits in its slot.
  ghost predicate AllPlaced(tiles: seq<real>, W: Matrix, K: nat, N: nat, plan: seq<Tile>)
    requires Shaped(W, K, N) && forall t :: t in plan ==> t.j0 + t.nr <= N
  {
    forall t, k: nat, c: nat {:trigger Slot(K, t, k, c)} :: t in plan && k < K && c < t.nr ==>
      Slot(K, t, k, c) < |tiles| && tiles[Slot(K, t, k, c)] == W[k][t.j0 + c]
  }

  lemma {:induction false} PackedNext(W: Matrix, K: nat, N: nat, plan: seq<Tile>, i: nat)
    requires Shaped(W, K, N) && i < |plan| && forall t :: t in plan ==> t.j0 + t.nr <= N
    ensures forall t :: t in plan[..i + 1] ==> t in plan
    ensures Packed(W, K, N, plan[..i + 1]) == Packed(W, K, N, plan[..i]) + TileRows(W, N, plan[i].j0, plan[i].nr, K)
  {
    assert plan[..i + 1][..i] == plan[..i];
  }

  method PackTiles(W: Matrix, K: nat, N: nat, plan: seq<Tile>) returns (tiles: seq<real>)
    requires Shaped(W, K, N) && forall t :: t in plan ==> t.j0 + t.nr <= N
    ensures tiles == Packed(W, K, N, plan)
  {
    tiles := [];
    for i := 0 to |plan|
      invariant tiles == Packed(W, K, N, plan[..i])
    {
      PackedNext(W, K, N, plan, i);
      tiles := tiles + TileRows(W, N, plan[i].j0, plan[i].nr, K);
    }
    assert plan[..|plan|] == plan;
  }

  method PackWeights(W: Matrix, K: nat, N: nat) returns (tiles: seq<real>)
    requires Shaped(W, K, N)
    ensures |tiles| == K * (N - N % 4)
    ensures forall t :: t in Plan(N) ==> t.j0 + t.nr <= N
    ensures AllPlaced(tiles, W, K, N, Plan(N)) && tiles == Packed(W, K, N, Plan(N))
  {
    var plan := BlockPlan(N);
    PlanTiles(N);
    TilingInside(plan, N - N % 4, N);
    tiles := PackTiles(W, K, N, plan);
    PackedAll(W, K, N, plan, N - N % 4);
  }

  lemma {:induction false} PackedAll(W: Matrix, K: nat, N: nat, plan: seq<Tile>, n: nat)
    requires Shaped(W, K, N) && Tiling(plan, n) && n <= N
    requires forall u :: u in plan ==> u.j0 + u.nr <= N
    ensures |Packed(W, K, N, plan)| == K * n && AllPlaced(Packed(W, K, N, plan), W, K, N, plan)
  {
    PackedLength(W, K, N, plan, n);
    forall t, k: nat, c: nat {:trigger Slot(K, t, k, c)} | t in plan && k < K && c < t.nr
      ensures Slot(K, t, k, c) < |Packed(W, K, N, plan)| && Packed(W, K, N, plan)[Slot(K, t, k, c)] == W[k][t.j0 + c]
    {
      PackedAt(W, K, N, plan, n, t, k, c);
    }
  }

  // --- emitted code -----------------------------------------------------

  // Where a multiply-add takes its input from: one lane of a loaded vector,
  // or a register holding one input in every lane.
  datatype Source = Lane(x: Reg, lane: nat) | Whole

  function FmaInstr(koff: nat, looped: bool, nr: nat, src: Source, r: nat): Instr {
    var at := Cell(Pos(koff, looped), nr, 4 * r);
    match src
    case Lane(x, lane) => FmaLane(Acc(koff % 2, r), at, x, lane)
    case Whole => FmaTile(Acc(koff % 2, r), at, Broadcast)
  }

  // The multiply-adds of weight row koff (plus the loop variable) into the
  // first n accumulators of the bank given by the row's parity.
  function Row(koff: nat, looped: bool, nr: nat, src: Source, n: nat): Code {
    if n == 0 then Skip
    else Then(Row(koff, looped, nr, src, n - 1), Do(FmaInstr(koff, looped, nr, src, n - 1)))
  }

  // Load four inputs and apply rows koff .. koff+lanes.
  function Quad(koff: nat, u: nat, looped: bool, nr: nat, lanes: nat): Code {
    if lanes == 0 then Do(LoadInput(In(u), Pos(koff, looped)))
    else Then(Quad(koff, u, looped, nr, lanes - 1),
              Row(koff + lanes - 1, looped, nr, Lane(In(u), lanes - 1), nr / 4))
  }

  function Unrolled(quads: nat, nr: nat): Code {
    if quads == 0 then Skip else Then(Unrolled(quads - 1, nr), Quad(4 * (quads - 1), 0, false, nr, 4))
  }

  function LoopBody(nr: nat): Code {
    Then(Quad(0, 0, true, nr, 4), Quad(4, 4, true, nr, 4))
  }

  function TailRow(k: nat, nr: nat): Code {
    Then(Do(SplatInput(Broadcast, k)), Row(k, false, nr, Whole, nr / 4))
  }

  // Rows lo, lo + 1, .., hi - 1 with a broadcast input each.
  function Tail(lo: nat, hi: nat, nr: nat): Code
    decreases hi
  {
    if hi <= lo then Skip else Then(Tail(lo, hi - 1, nr), TailRow(hi - 1, nr))
  }

  function LoadBiases(j0: nat, n: nat): Code {
    if n == 0 then Skip else Then(LoadBiases(j0, n - 1), Do(LoadBias(Acc(0, n - 1), j0 + 4 * (n - 1))))
  }

  function ZeroOdd(n: nat): Code {
    if n == 0 then Skip else Then(ZeroOdd(n - 1), Do(Zero(Acc(1, n - 1))))
  }

  function Head(j0: nat, off: nat, n: nat): Code {
    Then(Then(LoadBiases(j0, n), ZeroOdd(n)), Do(PointWeights(off)))
  }

  function AddBanks(relu: bool, r: nat): Code {
    var add := Do(AddInto(Acc(0, r), Acc(1, r)));
    if relu then Then(add, Do(MaxZero(Acc(0, r)))) else add
  }

  function Finish(j0: nat, relu: bool, n: nat): Code {
    if n == 0 then Skip
    else Then(Finish(j0, relu, n - 1), Then(AddBanks(relu, n - 1), Do(Store(j0 + 4 * (n - 1), Acc(0, n - 1)))))
  }

  function Middle(K: nat, nr: nat): Code {
    if K <= FULL_UNROLL_K then Unrolled(K / 4, nr)
    else For(K - K % 4, K_LOOP_UNROLL, LoopBody(nr))
  }

  function WideBlock(K: nat, nr: nat, j0: nat, off: nat, relu: bool): Code {
    Then(Then(Then(Head(j0, off, nr / 4), Middle(K, nr)), Tail(K - K % 4, K, nr)), Finish(j0, relu, nr / 4))
  }

  function DotHalf(i: nat, N: nat, j: nat): Code {
    Then(Then(Do(LoadInput(In(i), Pos(4 * i, true))), Do(Gather(Column(i), Pos(4 * i, true), N, j))),
         Do(FmaReg(Dot(i), In(i), Column(i))))
  }

  function DotTail(lo: nat, hi: nat, N: nat, j: nat): Code
    decreases hi
  {
    if hi <= lo then Skip
    else Then(DotTail(lo, hi - 1, N, j), Do(ScalarFma(Cell(Pos(hi - 1, false), N, j), hi - 1)))
  }

  function DotVector(K8: nat, N: nat, j: nat): Code {
    var zeros := Then(Do(Zero(Dot(0))), Do(Zero(Dot(1))));
    if K8 > 0 then Then(zeros, For(K8, 8, Then(DotHalf(0, N, j), DotHalf(1, N, j)))) else zeros
  }

  // Inputs handled eight at a time in a remainder column.
  function Eights(K: nat): nat {
    if K >= 8 then K - K % 8 else 0
  }

  function DotOutput(K: nat, N: nat, j: nat, relu: bool): Code {
    Then(Then(Then(DotVector(Eights(K), N, j), Do(StartScalar(j))), DotTail(Eights(K), K, N, j)),
         Do(StoreScalar(j, relu)))
  }

  function DotOutputs(K: nat, N: nat, lo: nat, hi: nat, relu: bool): Code
    decreases hi
  {
    if hi <= lo then Skip else Then(DotOutputs(K, N, lo, hi - 1, relu), DotOutput(K, N, hi - 1, relu))
  }

  // The running offset into the packed weights after the tiles of a plan.
  function Offset(K: nat, plan: seq<Tile>): nat {
    if plan == [] then 0 else Offset(K, plan[..|plan| - 1]) + K * plan[|plan| - 1].nr
  }

  function WideBlocks(K: nat, plan: seq<Tile>, relu: bool): Code {
    if plan == [] then Skip
    else var t := plan[|plan| - 1];
         Then(WideBlocks(K, plan[..|plan| - 1], relu),
              WideBlock(K, t.nr, t.j0, Offset(K, plan[..|plan| - 1]), relu))
  }

  function LayerCode(K: nat, N: nat, relu: bool): Code {
    var wide := WideBlocks(K, Plan(N), relu);
    if N % 4 == 0 then wide else Then(wide, DotOutputs(K, N, N - N % 4, N, relu))
  }

  // --- the emitters -----------------------------------------------------

  method EmitRow(koff: nat, looped: bool, nr: nat, src: Source) returns (code: Code)
    ensures code == Row(koff, looped, nr, src, nr / 4)
  {
    code := Skip;
    for r := 0 to nr / 4
      invariant code == Row(koff, looped, nr, src, r)
    {
      code := Then(code, Do(FmaInstr(koff, looped, nr, src, r)));
    }
  }

  method EmitQuad(koff: nat, u: nat, looped: bool, nr: nat) returns (code: Code)
    ensures code == Quad(koff, u, looped, nr, 4)
  {
    code := Do(LoadInput(In(u), Pos(koff, looped)));
    for lane := 0 to 4
      invariant code == Quad(koff, u, looped, nr, lane)
    {
      var row := EmitRow(koff + lane, looped, nr, Lane(In(u), lane));
      code := Then(code, row);
    }
  }

  method EmitHead(j0: nat, off: nat, nregs: nat) returns (head: Code)
    ensures head == Head(j0, off, nregs)
  {
    var loads, zeros := Skip, Skip;
    for r := 0 to nregs
      invariant loads == LoadBiases(j0, r)
    {
      loads := Then(loads, Do(LoadBias(Acc(0, r), j0 + 4 * r)));
    }
    for r := 0 to nregs
      invariant zeros == ZeroOdd(r)
    {
      zeros := Then(zeros, Do(Zero(Acc(1, r))));
    }
    head := Then(Then(loads, zeros), Do(PointWeights(off)));
  }

  method EmitMiddle(K: nat, nr: nat) returns (middle: Code)
    ensures middle == Middle(K, nr)
  {
    if K <= FULL_UNROLL_K {
      middle := Skip;
      var k := 0;
      ghost var quads := 0;
      while k < K - K % 4
        invariant k == 4 * quads && k <= K - K % 4
        invariant middle == Unrolled(quads, nr)
      {
        var quad := EmitQuad(k, 0, false, nr);
        middle := Then(middle, quad);
        k := k + 4;
        quads := quads + 1;
      }
    } else {
      var q0 := EmitQuad(0, 0, true, nr);
      var q4 := EmitQuad(4, 4, true, nr);
      middle := For(K - K % 4, K_LOOP_UNROLL, Then(q0, q4));
    }
  }

  method EmitTail(K4: nat, K: nat, nr: nat) returns (tail: Code)
    requires K4 <= K
    ensures tail == Tail(K4, K, nr)
  {
    tail := Skip;
    for k := K4 to K
      invariant tail == Tail(K4, k, nr)
    {
      var row := EmitRow(k, false, nr, Whole);
      tail := Then(tail, Then(Do(SplatInput(Broadcast, k)), row));
    }
  }

  method EmitFinish(j0: nat, relu: bool, nregs: nat) returns (fin: Code)
    ensures fin == Finish(j0, relu, nregs)
  {
    fin := Skip;
    for r := 0 to nregs
      invariant fin == Finish(j0, relu, r)
    {
      var body := Do(AddInto(Acc(0, r), Acc(1, r)));
      if relu {
        body := Then(body, Do(MaxZero(Acc(0, r))));
      }
      fin := Then(fin, Then(body, Do(Store(j0 + 4 * r, Acc(0, r)))));
    }
  }

  method EmitWideBlock(K: nat, nr: nat, j0: nat, off: nat, relu: bool) returns (lines: Code)
    ensures lines == WideBlock(K, nr, j0, off, relu)
  {
    var head := EmitHead(j0, off, nr / 4);
    var middle := EmitMiddle(K, nr);
    var tail := EmitTail(K - K % 4, K, nr);
    var fin := EmitFinish(j0, relu, nr / 4);
    lines := Then(Then(Then(head, middle), tail), fin);
  }

  method EmitDotOutputs(K: nat, N: nat, jStart: nat, relu: bool) returns (lines: Code)
    requires jStart <= N
    ensures lines == DotOutputs(K, N, jStart, N, relu)
  {
    lines := Skip;
    var K8 := Eights(K);
    for j := jStart to N
      invariant lines == DotOutputs(K, N, jStart, j, relu)
    {
      var out := Then(Do(Zero(Dot(0))), Do(Zero(Dot(1))));
      if K8 != 0 {
        out := Then(out, For(K8, 8, Then(DotHalf(0, N, j), DotHalf(1, N, j))));
      }
      var rest := Skip;
      for k := K8 to K
        invariant rest == DotTail(K8, k, N, j)
      {
        rest := Then(rest, Do(ScalarFma(Cell(Pos(k, false), N, j), k)));
      }
      lines := Then(lines, Then(Then(Then(out, Do(StartScalar(j))), rest), Do(StoreScalar(j, relu))));
    }
  }

  method EmitLayer(K: nat, N: nat, relu: bool) returns (lines: Code)
    ensures lines == LayerCode(K, N, relu)
  {
    var plan := BlockPlan(N);
    PlanStarts(N);
    var covered;
    lines, covered := EmitWideBlocks(K, plan, relu, N - N % 4);
    if covered < N {
      var dots := EmitDotOutputs(K, N, covered, relu);
      lines := Then(lines, dots);
    }
  }

  method EmitWideBlocks(K: nat, plan: seq<Tile>, relu: bool, ghost n: nat) returns (lines: Code, covered: nat)
    requires Contiguous(plan, n)
    ensures lines == WideBlocks(K, plan, relu) && covered == n
  {
    lines := Skip;
    var off := 0;
    covered := 0;
    for i := 0 to |plan|
      invariant lines == WideBlocks(K, plan[..i], relu)
      invariant covered == Start(plan, i) && off == Offset(K, plan[..i])
    {
      assert plan[..i + 1][..i] == plan[..i];
      var block := EmitWideBlock(K, plan[i].nr, plan[i].j0, off, relu);
      lines := Then(lines, block);
      off := off + K * plan[i].nr;
      covered := covered + plan[i].nr;
    }
    assert plan[..|plan|] == plan;
  }

  // Column at which tile i of a plan starts, counted by widths.
  ghost function Start(plan: seq<Tile>, i: nat): nat
    requires i <= |plan|
  {
    if i == 0 then 0 else Start(plan, i - 1) + plan[i - 1].nr
  }

  ghost predicate Contiguous(plan: seq<Tile>, n: nat) {
    forall i {:trigger Start(plan, i)} :: 0 <= i <= |plan| ==> Start(plan, i) == if i < |plan| then plan[i].j0 else n
  }

  lemma {:induction false} PlanStarts(N: nat)
    ensures Contiguous(Plan(N), N - N % 4)
  {
    PlanTiles(N);
    forall i | 0 <= i <= |Plan(N)|
      ensures Start(Plan(N), i) == if i < |Plan(N)| then Plan(N)[i].j0 else N - N % 4
    {
      TilingStarts(Plan(N), N - N % 4, i);
    }
  }

  lemma {:induction false} TilingStarts(plan: seq<Tile>, n: nat, i: nat)
    requires Tiling(plan, n) && i <= |plan|
    ensures Start(plan, i) == if i < |plan| then plan[i].j0 else n
  {
    if i == |plan| {
      if i > 0 {
        TilingStarts(plan, n, i - 1);
      }
    } else if i > 0 {
      TilingStarts(plan, n, i - 1);
      TilingAdjacent(plan, n, i - 1);
    } else {
      TilingAdjacent(plan, n, 0);
    }
  }

  lemma {:induction false} TilingAdjacent(plan: seq<Tile>, n: nat, i: nat)
    requires Tiling(plan, n) && i < |plan|
    ensures plan[0].j0 == 0
    ensures i + 1 < |plan| ==> plan[i + 1].j0 == plan[i].j0 + plan[i].nr
    ensures i + 1 == |plan| ==> n == plan[i].j0 + plan[i].nr
  {
    var m := |plan| - 1;
    if m > 0 {
      TilingAdjacent(plan[..m], plan[m].j0, if i < m then i else m - 1);
    }
  }
}
