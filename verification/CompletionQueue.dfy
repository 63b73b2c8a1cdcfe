// Contexts of the DPA thread's rings: completion queue, data ring, send ring.
module CompletionQueue {
  import opened Arithmetic

  const DEPTH: nat := 128         // CQ, RQ and data rings
  const IDX_WRAP: nat := 0x1_0000_0000
  const CTR_WRAP: nat := 0x1_0000

  // cq_idx, the slot cqe points to, and cq_hw_owner_bit.
  datatype Cq = Cq(idx: nat, slot: nat, hw: nat)

  const CQ_START := Cq(0, 0, 1)

  function CqStep(c: Cq): Cq {
    var idx := (c.idx + 1) % IDX_WRAP;
    Cq(idx, idx % DEPTH, if idx % DEPTH == 0 then 1 - c.hw % 2 else c.hw)
  }

  // The context after n completions, for any n: the 32-bit index wraps, and
  // the owner bit counts passes over the ring.
  function CqAt(n: nat): Cq {
    Cq(n % IDX_WRAP, n % DEPTH, 1 - (n / DEPTH) % 2)
  }

  lemma {:induction false} SkipTurns(n: nat, m: nat, d: nat, k: nat)
    requires d >= 1 && n == m + d * k
    ensures n % d == m % d
  {
    var q, r := m / d, m % d;
    assert m == d * q + r;
    assert (k + q) * d == d * k + d * q;
    FloorOf(n, k + q, r, d);
    assert n == d * (n / d) + n % d;
    assert d * (n / d) == (k + q) * d;
  }

  lemma {:induction false} IndexKeeps(n: nat, d: nat)
    requires d in {DEPTH, 4 * DEPTH}
    ensures (n % IDX_WRAP) % d == n % d
  {
    var q := n / IDX_WRAP;
    SkipTurns(n, n % IDX_WRAP, d, if d == DEPTH then 0x200_0000 * q else 0x80_0000 * q);
  }

  lemma {:induction false} NextIndex(n: nat)
    ensures (n % IDX_WRAP + 1) % IDX_WRAP == (n + 1) % IDX_WRAP
  {}

  lemma {:induction false} CounterKeepsSlot(n: nat)
    ensures (n % CTR_WRAP) % DEPTH == n % DEPTH
  {
    SkipTurns(n, n % CTR_WRAP, DEPTH, 0x200 * (n / CTR_WRAP));
  }

  lemma {:induction false} NextPass(n: nat)
    ensures (n + 1) / DEPTH == n / DEPTH + if (n + 1) % DEPTH == 0 then 1 else 0
  {}

  lemma {:induction false} CqAtStep(n: nat)
    ensures CqStep(CqAt(n)) == CqAt(n + 1)
  {
    IndexKeeps(n + 1, DEPTH);
    NextIndex(n);
    NextPass(n);
  }

  lemma {:induction false} CqAfter(n: nat)
    ensures CqAt(n) == CqIter(n)
  {
    if n > 0 {
      CqAfter(n - 1);
      CqAtStep(n - 1);
    }
  }

  function CqIter(n: nat): Cq {
    if n == 0 then CQ_START else CqStep(CqIter(n - 1))
  }

  // com_cq_ctx_init, com_step_cq and the data ring cursor of com_dev.c.
  class CqContext {
    var cqIdx: nat
    var cqe: nat
    var hwOwnerBit: nat
    var dbr: nat

    ghost function Value(): Cq
      reads this
    {
      Cq(cqIdx, cqe, hwOwnerBit)
    }

    constructor ()
      ensures Value() == CQ_START && dbr == 0
    {
      cqe := 0;
      cqIdx := 0;
      hwOwnerBit := 1;
      dbr := 0;
    }

    method StepCq()
      requires hwOwnerBit <= 1
      modifies this
      ensures Value() == CqStep(old(Value())) && dbr == cqIdx && hwOwnerBit <= 1
    {
      cqIdx := (cqIdx + 1) % IDX_WRAP;
      cqe := cqIdx % DEPTH;
      if cqIdx % DEPTH == 0 {
        hwOwnerBit := 1 - hwOwnerBit;
      }
      dbr := cqIdx;
    }
  }

  class RingCursor {
    var idx: nat
    ghost var taken: nat

    ghost predicate Valid()
      reads this
    {
      idx == taken % IDX_WRAP
    }

    constructor ()
      ensures Valid() && taken == 0
    {
      idx := 0;
      taken := 0;
    }

    // get_next_dte and get_next_sqe: the n-th call hands out slot n % size,
    // also after the 32-bit cursor has wrapped.
    method GetNext(mask: nat) returns (slot: nat)
      requires Valid() && mask in {DEPTH - 1, 4 * DEPTH - 1}
      modifies this
      ensures Valid() && taken == old(taken) + 1
      ensures slot == old(taken) % (mask + 1)
    {
      slot := idx % (mask + 1);
      CursorWraps(taken);
      idx := (idx + 1) % IDX_WRAP;
      taken := taken + 1;
    }
  }

  lemma {:induction false} CursorWraps(n: nat)
    ensures (n % IDX_WRAP) % DEPTH == n % DEPTH && (n % IDX_WRAP) % (4 * DEPTH) == n % (4 * DEPTH)
    ensures (n % IDX_WRAP + 1) % IDX_WRAP == (n + 1) % IDX_WRAP
  {
    IndexKeeps(n, DEPTH);
    IndexKeeps(n, 4 * DEPTH);
    NextIndex(n);
  }
}
