// The receive path of the DPA thread: the NIC produces completion entries and
// packets, the thread consumes them. The two sides share only the entries'
// owner bits, wrapping indices, and the returned receive credits.
module ReceiveRing {
  import opened CompletionQueue

  type Packet = seq<bv8>

  datatype Cqe = Cqe(owner: nat, wqe: nat, bytes: nat)

  // --- the whole receive path ------------------------------------------------

  // Where the thread is between two memory accesses.
  datatype Pc = Polling | Seen | HasWqe(wqe: nat, bytes: nat) | Copied | Credited

  datatype Sys = Sys(
    produced: seq<Packet>,   // every packet the NIC has accepted
    cq: seq<Cqe>,
    rx: seq<Packet>,         // receive buffers
    pi: nat,                 // 16-bit receive doorbell
    ctx: Cq,
    pc: Pc,
    done: nat,               // completions stepped over
    sent: seq<Packet>)       // packets copied to the transmit ring

  function Initial(): Sys {
    Sys([], seq(DEPTH, _ => Cqe(1, 0, 0)), seq(DEPTH, _ => []), DEPTH % CTR_WRAP, CQ_START, Polling, 0, [])
  }

  // Rings and slot have the sizes set up by the host.
  predicate Shaped(s: Sys) {
    |s.cq| == DEPTH && |s.rx| == DEPTH && s.ctx.slot < DEPTH
  }

  // The NIC compares 16-bit counters.
  predicate HasCredit(s: Sys) {
    (s.pi - |s.produced|) % CTR_WRAP != 0
  }

  function Overwrite(buf: Packet, p: Packet): Packet {
    p + if |p| < |buf| then buf[|p|..] else []
  }

  function CqeFor(n: nat, p: Packet): Cqe {
    Cqe((n / DEPTH) % 2, n % CTR_WRAP, |p|)
  }

  datatype Move = NicReceives(p: Packet) | DpaRuns

  // Without a credit the NIC drops the packet.
  function Nic(s: Sys, p: Packet): Sys
    requires Shaped(s)
  {
    var n := |s.produced|;
    if !HasCredit(s) then s
    else s.(rx := s.rx[n % DEPTH := Overwrite(s.rx[n % DEPTH], p)],
            cq := s.cq[n % DEPTH := CqeFor(n, p)],
            produced := s.produced + [p])
  }

  function Dpa(s: Sys): Sys
    requires Shaped(s)
  {
    var e := s.cq[s.ctx.slot];
    match s.pc
    case Polling => if e.owner != s.ctx.hw then s.(pc := Seen) else s
    case Seen => s.(pc := HasWqe(e.wqe, e.bytes))
    case HasWqe(w, b) =>
      var buf := s.rx[w % DEPTH];
      s.(sent := s.sent + [if b <= |buf| then buf[..b] else buf], pc := Copied)
    case Copied => s.(pi := (s.pi + 1) % CTR_WRAP, pc := Credited)
    case Credited => s.(ctx := CqStep(s.ctx), done := s.done + 1, pc := Polling)
  }

  function Moved(s: Sys, t: Move): (r: Sys)
    requires Shaped(s)
    ensures Shaped(r)
  {
    match t
    case NicReceives(p) => Nic(s, p)
    case DpaRuns => Dpa(s)
  }

  // Credits returned, and packets copied, including the one in progress.
  function Returned(s: Sys): nat { s.done + if s.pc == Credited then 1 else 0 }

  function CopiedOut(s: Sys): nat { s.done + if s.pc == Credited || s.pc == Copied then 1 else 0 }

  // The last DEPTH packets are in their slots; slots not reached yet still
  // carry the initial owner bit.
  ghost predicate RingHolds(s: Sys) {
    && |s.cq| == |s.rx| == DEPTH
    && (forall i: nat {:trigger s.produced[i]} :: i < |s.produced| <= i + DEPTH ==>
          s.cq[i % DEPTH] == CqeFor(i, s.produced[i]) && s.produced[i] <= s.rx[i % DEPTH])
    && (forall j: nat {:trigger s.cq[j]} :: |s.produced| <= j < DEPTH ==> s.cq[j].owner == 1)
  }

  ghost predicate Inv(s: Sys) {
    && RingHolds(s)
    && s.ctx == CqAt(s.done)
    && s.pi == (DEPTH + Returned(s)) % CTR_WRAP
    && s.done <= |s.produced| <= DEPTH + Returned(s)
    && (s.pc != Polling ==> s.done < |s.produced|)
    && s.sent == s.produced[..CopiedOut(s)]
    && (s.pc.HasWqe? ==> s.pc == HasWqe(s.done % CTR_WRAP, |s.produced[s.done]|))
  }

  // The NIC's 16-bit comparison sees a credit exactly while fewer than DEPTH
  // uncredited packets are outstanding.
  lemma {:induction false} CreditExact(s: Sys)
    requires Inv(s)
    ensures HasCredit(s) <==> |s.produced| < DEPTH + Returned(s)
  {
    WrapExact(DEPTH + Returned(s), |s.produced|);
  }

  lemma {:induction false} WrapExact(a: nat, b: nat)
    requires b <= a < b + CTR_WRAP
    ensures (a % CTR_WRAP - b) % CTR_WRAP != 0 <==> b < a
  {
    WrapMinus(a, b, a / CTR_WRAP);
  }

  lemma {:induction false} WrapMinus(a: nat, b: nat, q: nat)
    requires b <= a < b + CTR_WRAP && q == a / CTR_WRAP
    ensures (a % CTR_WRAP - b) % CTR_WRAP == a - b
  {
    assert a % CTR_WRAP - b == (a - b) - CTR_WRAP * q;
  }

  // The entry the thread polls looks valid exactly when a packet is waiting.
  lemma {:induction false} LooksValid(s: Sys)
    requires Inv(s) && s.pc == Polling
    ensures s.ctx.slot < DEPTH
    ensures s.cq[s.ctx.slot].owner != s.ctx.hw <==> s.done < |s.produced|
  {
    var n := s.done;
    if n < |s.produced| {
      assert s.cq[n % DEPTH] == CqeFor(n, s.produced[n]);
    } else if n < DEPTH {
      assert s.cq[n].owner == 1;
      assert n % DEPTH == n && n / DEPTH == 0;
    } else {
      var i := n - DEPTH;
      assert s.cq[i % DEPTH] == CqeFor(i, s.produced[i]);
      assert i % DEPTH == n % DEPTH && n / DEPTH == i / DEPTH + 1;
    }
  }

  lemma {:induction false} OtherSlot(i: nat, n: nat)
    requires i < n < i + DEPTH
    ensures i % DEPTH != n % DEPTH
  {}

  lemma {:induction false} NicKeeps(s: Sys, p: Packet)
    requires Inv(s)
    ensures Inv(Nic(s, p))
  {
    CreditExact(s);
    var s' := Nic(s, p);
    var n := |s.produced|;
    if HasCredit(s) {
      forall i: nat {:trigger s'.produced[i]} | i < |s'.produced| <= i + DEPTH
        ensures s'.cq[i % DEPTH] == CqeFor(i, s'.produced[i]) && s'.produced[i] <= s'.rx[i % DEPTH]
      {
        if i < n {
          OtherSlot(i, n);
          assert s.produced[i] == s'.produced[i];
        }
      }
      forall j: nat {:trigger s'.cq[j]} | n + 1 <= j < DEPTH ensures s'.cq[j].owner == 1 {
        assert s.cq[j].owner == 1 && n % DEPTH == n;
      }
    }
  }

  lemma {:induction false} PollKeeps(s: Sys)
    requires Inv(s) && s.pc == Polling && s.ctx.slot < DEPTH
    ensures Inv(Dpa(s))
  {
    LooksValid(s);
  }

  lemma {:induction false} ReadKeeps(s: Sys)
    requires Inv(s) && s.pc == Seen && s.ctx.slot < DEPTH
    ensures Inv(Dpa(s))
  {
    assert s.cq[s.done % DEPTH] == CqeFor(s.done, s.produced[s.done]);
  }

  lemma {:induction false} CopyKeeps(s: Sys)
    requires Inv(s) && s.pc.HasWqe? && s.ctx.slot < DEPTH
    ensures Inv(Dpa(s))
  {
    var n := s.done;
    CounterKeepsSlot(n);
    assert s.produced[n] <= s.rx[n % DEPTH];
    assert s.rx[n % DEPTH][..|s.produced[n]|] == s.produced[n];
    assert Dpa(s).sent == s.produced[..n] + [s.produced[n]] == s.produced[..n + 1];
  }

  lemma {:induction false} PiStep(n: nat)
    ensures (n % CTR_WRAP + 1) % CTR_WRAP == (n + 1) % CTR_WRAP
  {}

  lemma {:induction false} RingSame(s: Sys, s': Sys)
    requires RingHolds(s) && s'.produced == s.produced && s'.cq == s.cq && s'.rx == s.rx
    ensures RingHolds(s')
  {}

  lemma {:induction false} CreditKeeps(s: Sys)
    requires Inv(s) && s.pc == Copied && s.ctx.slot < DEPTH
    ensures Inv(Dpa(s))
  {
    PiStep(DEPTH + s.done);
    RingSame(s, Dpa(s));
  }

  lemma {:induction false} CqKeeps(s: Sys)
    requires Inv(s) && s.pc == Credited && s.ctx.slot < DEPTH
    ensures Inv(Dpa(s))
  {
    CqAtStep(s.done);
  }

  lemma {:induction false} DpaKeeps(s: Sys)
    requires Inv(s) && s.ctx.slot < DEPTH
    ensures Inv(Dpa(s))
  {
    match s.pc
    case Polling => PollKeeps(s);
    case Seen => ReadKeeps(s);
    case HasWqe(w, b) => CopyKeeps(s);
    case Copied => CreditKeeps(s);
    case Credited => CqKeeps(s);
  }

  // --- runs --------------------------------------------------------------------

  // The state after any interleaving of steps.
  function Outcome(steps: seq<Move>): (s: Sys)
    ensures Shaped(s)
    decreases |steps|
  {
    if steps == [] then Initial() else Moved(Outcome(steps[..|steps| - 1]), steps[|steps| - 1])
  }

  lemma {:induction false} StartOk()
    ensures Inv(Initial())
  {}

  // Every step of either side keeps the protocol invariant.
  lemma {:induction false} StepKeeps(s: Sys, t: Move)
    requires Inv(s)
    ensures Shaped(s) && Inv(Moved(s, t))
  {
    match t
    case NicReceives(p) => NicKeeps(s, p);
    case DpaRuns => DpaKeeps(s);
  }

  lemma {:induction false} Reachable(steps: seq<Move>)
    ensures Inv(Outcome(steps))
    decreases |steps|
  {
    if steps == [] {
      StartOk();
    } else {
      Reachable(steps[..|steps| - 1]);
      StepKeeps(Outcome(steps[..|steps| - 1]), steps[|steps| - 1]);
    }
  }

  // In every interleaving the thread has copied out a prefix of the accepted
  // packets, each once and in order, and never lags more than the ring; while
  // it polls, the entry looks valid exactly when a packet is waiting.
  lemma {:induction false} RunSafe(steps: seq<Move>)
    ensures var s := Outcome(steps);
            && CopiedOut(s) <= |s.produced| <= CopiedOut(s) + 128
            && s.sent == s.produced[..CopiedOut(s)]
            && (s.pc == Polling ==> (s.cq[s.ctx.slot].owner != s.ctx.hw <==> |s.sent| < |s.produced|))
  {
    Reachable(steps);
    var s := Outcome(steps);
    if s.pc == Polling { LooksValid(s); }
  }

  // What the thread is about to read is still the packet it was told about:
  // the NIC has overwritten neither the entry nor the buffer.
  lemma {:induction false} NotOverwritten(steps: seq<Move>)
    ensures var s := Outcome(steps);
            s.pc == Seen || s.pc.HasWqe? ==>
              && s.done < |s.produced|
              && s.cq[s.ctx.slot] == CqeFor(s.done, s.produced[s.done])
              && s.produced[s.done] <= s.rx[s.done % DEPTH]
              && (s.pc.HasWqe? ==> s.pc.wqe % DEPTH == s.done % DEPTH && s.pc.bytes == |s.produced[s.done]|)
  {
    Reachable(steps);
    var s := Outcome(steps);
    var n := s.done;
    if s.pc == Seen || s.pc.HasWqe? {
      assert s.cq[n % DEPTH] == CqeFor(n, s.produced[n]) && s.produced[n] <= s.rx[n % DEPTH];
      CounterKeepsSlot(n);
    }
  }

  function Advance(s: Sys): Sys {
    if Shaped(s) then Dpa(s) else s
  }

  // The thread running n steps on its own.
  function DpaTimes(s: Sys, n: nat): Sys
    decreases n
  {
    if n == 0 then s else DpaTimes(Advance(s), n - 1)
  }

  function Phase(pc: Pc): nat {
    match pc
    case Polling => 0
    case Seen => 1
    case HasWqe(_, _) => 2
    case Copied => 3
    case Credited => 4
  }

  // Steps the thread still owes: five per waiting packet, less those already
  // spent on the current one.
  function Owed(s: Sys): int {
    5 * (|s.produced| - s.done) - Phase(s.pc)
  }

  lemma {:induction false} AdvanceOwes(s: Sys)
    requires Inv(s) && s.done < |s.produced|
    ensures Inv(Advance(s)) && Advance(s).produced == s.produced && Owed(Advance(s)) == Owed(s) - 1
  {
    StepKeeps(s, DpaRuns);
    if s.pc == Polling { LooksValid(s); }
  }

  // From every reachable state the thread alone, in exactly the steps it owes,
  // copies out every packet the NIC has accepted and goes back to polling.
  lemma {:induction false} Drains(s: Sys, n: nat)
    requires Inv(s) && n == Owed(s)
    ensures var r := DpaTimes(s, n); r.sent == r.produced == s.produced && r.pc == Polling
    decreases n
  {
    if s.done < |s.produced| {
      AdvanceOwes(s);
      Drains(Advance(s), n - 1);
    }
  }

  lemma {:induction false} DrainKeeps(s: Sys, n: nat)
    requires Inv(s) && n == Owed(s)
    ensures var r := DpaTimes(s, n); Inv(r) && r.produced == r.sent == s.produced && r.pc == Polling
    decreases n
  {
    Drains(s, n);
    if s.done < |s.produced| {
      AdvanceOwes(s);
      DrainKeeps(Advance(s), n - 1);
    }
  }

  // The receive path never stalls: from every reachable state, once the thread
  // has done the steps it owes, the NIC accepts the next packet, and five more
  // steps copy it out behind all the others.
  lemma {:induction false} NeverStalls(steps: seq<Move>, p: Packet, n: nat)
    requires n == Owed(Outcome(steps))
    ensures var s := Outcome(steps);
            var drained := DpaTimes(s, n);
            && Shaped(drained) && Nic(drained, p).produced == s.produced + [p]
            && DpaTimes(Nic(drained, p), 5).sent == s.produced + [p]
  {
    Reachable(steps);
    var s := Outcome(steps);
    DrainKeeps(s, n);
    var drained := DpaTimes(s, n);
    CreditExact(drained);
    NicKeeps(drained, p);
    Drains(Nic(drained, p), 5);
  }
}
