// The instruction set that the kernel generator emits, and its interpreter.
// A read outside a buffer or of a register never written is a fault (None).
module TileMachine {
  import opened LinearLayer

  // An input position, and a cell (row, col) of a row-major block of the given
  // width, as the emitted text spells them: the row may be relative to the
  // loop variable k.
  datatype Pos = Pos(row: nat, looped: bool) {
    function At(k: nat): nat { if looped then k + row else row }
  }

  datatype Cell = Cell(row: Pos, width: nat, col: nat) {
    function At(k: nat): nat { row.At(k) * width + col }
  }

  datatype Reg =
    | Acc(bank: nat, r: nat)  // acc{e,o}_r: bank 0 is "e", bank 1 is "o"
    | In(u: nat)              // xv, xv0, xv4, x0, x1: four consecutive inputs
    | Broadcast               // xb: one input copied to all lanes
    | Dot(i: nat)             // s0, s1
    | Column(i: nat)          // w0, w1: four gathered weights of one column

  datatype Instr =
    | LoadBias(dst: Reg, at: nat)                              // vld1q(&B[at])
    | Zero(dst: Reg)                                           // vdupq_n(0)
    | PointWeights(off: nat)                                   // w = pack + off
    | LoadInput(dst: Reg, pos: Pos)                              // vld1q(in + pos)
    | SplatInput(dst: Reg, k: nat)                             // vdupq_n(in[k])
    | FmaLane(dst: Reg, tile: Cell, x: Reg, lane: nat)           // vfmaq_laneq
    | FmaTile(dst: Reg, tile: Cell, x: Reg)                       // vfmaq with a tile load
    | AddInto(dst: Reg, src: Reg)                              // vaddq
    | MaxZero(dst: Reg)                                        // vmaxq with zero
    | Store(at: nat, src: Reg)                                 // vst1q(out + at)
    | Gather(dst: Reg, row: Pos, width: nat, col: nat)           // rows row .. row+3 of one column
    | FmaReg(dst: Reg, x: Reg, y: Reg)                           // vfmaq
    | StartScalar(j: nat)                                      // acc = B[j] + addv(s0 + s1)
    | ScalarFma(cell: Cell, k: nat)                              // acc += wref[w] * in[k]
    | StoreScalar(j: nat, relu: bool)                          // out[j] = acc or relu(acc)

  // Emitted text: appending a line to a list of lines is Then.
  datatype Code =
    | Skip
    | Do(i: Instr)
    | Then(before: Code, line: Code)
    | For(bound: nat, step: nat, body: Code)                   // for k = 0; k < bound; k += step

  datatype Env = Env(inp: seq<real>, pack: seq<real>, wref: seq<real>, bias: seq<real>)

  datatype State = State(regs: map<Reg, seq<real>>, w: nat, acc: real, out: seq<real>)

  predicate Has(s: State, r: Reg) {
    r in s.regs && |s.regs[r]| == 4
  }

  function Put(s: State, r: Reg, v: seq<real>): State {
    s.(regs := s.regs[r := v])
  }

  function Fma4(a: seq<real>, b: seq<real>, c: seq<real>): seq<real>
    requires |a| == |b| == |c| == 4
  {
    [a[0] + Prod(b[0], c[0]), a[1] + Prod(b[1], c[1]), a[2] + Prod(b[2], c[2]), a[3] + Prod(b[3], c[3])]
  }

  function Add4(a: seq<real>, b: seq<real>): seq<real>
    requires |a| == |b| == 4
  {
    [a[0] + b[0], a[1] + b[1], a[2] + b[2], a[3] + b[3]]
  }

  function Splat(x: real): seq<real> { [x, x, x, x] }

  function Exec(i: Instr, k: nat, env: Env, s: State): Option<State> {
    match i
    case LoadBias(d, at) =>
      if at + 4 <= |env.bias| then Some(Put(s, d, env.bias[at..at + 4])) else None
    case Zero(d) => Some(Put(s, d, Splat(0.0)))
    case PointWeights(off) => Some(s.(w := off))
    case LoadInput(d, ix) =>
      var at := ix.At(k);
      if at + 4 <= |env.inp| then Some(Put(s, d, env.inp[at..at + 4])) else None
    case SplatInput(d, at) =>
      if at < |env.inp| then Some(Put(s, d, Splat(env.inp[at]))) else None
    case FmaLane(d, ix, x, lane) =>
      var at := s.w + ix.At(k);
      if at + 4 <= |env.pack| && Has(s, d) && Has(s, x) && lane < 4
      then Some(Put(s, d, Fma4(s.regs[d], env.pack[at..at + 4], Splat(s.regs[x][lane]))))
      else None
    case FmaTile(d, ix, x) =>
      var at := s.w + ix.At(k);
      if at + 4 <= |env.pack| && Has(s, d) && Has(s, x)
      then Some(Put(s, d, Fma4(s.regs[d], env.pack[at..at + 4], s.regs[x])))
      else None
    case AddInto(d, x) =>
      if Has(s, d) && Has(s, x)
      then Some(Put(s, d, Add4(s.regs[d], s.regs[x])))
      else None
    case MaxZero(d) =>
      if Has(s, d)
      then var v := s.regs[d]; Some(Put(s, d, [Relu(v[0]), Relu(v[1]), Relu(v[2]), Relu(v[3])]))
      else None
    case Store(at, x) =>
      if at + 4 <= |s.out| && Has(s, x)
      then Some(s.(out := s.out[..at] + s.regs[x] + s.out[at + 4..]))
      else None
    case Gather(d, row, width, col) =>
      var at := row.At(k);
      if (at + 3) * width + col < |env.wref|
      then Some(Put(s, d, [env.wref[at * width + col], env.wref[(at + 1) * width + col],
                           env.wref[(at + 2) * width + col], env.wref[(at + 3) * width + col]]))
      else None
    case FmaReg(d, x, y) =>
      if Has(s, d) && Has(s, x) && Has(s, y)
      then Some(Put(s, d, Fma4(s.regs[d], s.regs[x], s.regs[y])))
      else None
    case StartScalar(j) =>
      if j < |env.bias| && Has(s, Dot(0)) && Has(s, Dot(1))
      then var a, b := s.regs[Dot(0)], s.regs[Dot(1)];
           Some(s.(acc := env.bias[j] + ((a[0] + b[0]) + (a[1] + b[1]) + (a[2] + b[2]) + (a[3] + b[3]))))
      else None
    case ScalarFma(cell, at) =>
      if cell.At(k) < |env.wref| && at < |env.inp|
      then Some(s.(acc := s.acc + Prod(env.wref[cell.At(k)], env.inp[at])))
      else None
    case StoreScalar(j, relu) =>
      if j < |s.out|
      then Some(s.(out := s.out[j := Activate(s.acc, relu)]))
      else None
  }

  function Run(c: Code, k: nat, env: Env, s: State): Option<State>
    decreases c, 0, 0
  {
    match c
    case Skip => Some(s)
    case Do(i) => Exec(i, k, env, s)
    case Then(a, b) =>
      (match Run(a, k, env, s)
       case None => None
       case Some(s') => Run(b, k, env, s'))
    case For(bound, step, body) => RunFor(body, 0, bound, step, env, s)
  }

  function RunFor(body: Code, k: nat, bound: nat, step: nat, env: Env, s: State): Option<State>
    decreases body, 1, bound - k
  {
    if k >= bound || step == 0 then Some(s)
    else match Run(body, k, env, s)
         case None => None
         case Some(s') => RunFor(body, k + step, bound, step, env, s')
  }
}
