// 64-bit words as naturals, with the bitwise operators given by their bits.
module Words {
  import opened Arithmetic

  const BITS: nat := 64

  function Pow2(n: nat): (p: nat)
    ensures p >= 1
  {
    if n == 0 then 1 else 2 * Pow2(n - 1)
  }

  predicate Bit(w: nat, i: nat) {
    if i == 0 then w % 2 == 1 else Bit(w / 2, i - 1)
  }

  // The word whose bit i is b[i].
  function FromBits(b: seq<bool>): (w: nat)
    ensures w < Pow2(|b|)
  {
    if b == [] then 0 else (if b[0] then 1 else 0) + 2 * FromBits(b[1..])
  }

  function Xnor(a: nat, b: nat): nat {
    FromBits(seq(BITS, i requires 0 <= i < BITS => Bit(a, i) == Bit(b, i)))
  }

  function And(a: nat, b: nat): nat {
    FromBits(seq(BITS, i requires 0 <= i < BITS => Bit(a, i) && Bit(b, i)))
  }

  function Or(a: nat, b: nat): nat {
    FromBits(seq(BITS, i requires 0 <= i < BITS => Bit(a, i) || Bit(b, i)))
  }

  // Number of set bits below m; the population count is Count(w, 64).
  function Count(w: nat, m: nat): nat {
    if m == 0 then 0 else Count(w, m - 1) + if Bit(w, m - 1) then 1 else 0
  }

  lemma {:induction false} CountBound(w: nat, m: nat)
    ensures Count(w, m) <= m
  {
    if m > 0 { CountBound(w, m - 1); }
  }

  ghost function BitsBelow(w: nat, m: nat): set<nat> { set i: nat | i < m && Bit(w, i) }

  // It is the number of places below m that hold a one.
  lemma {:induction false} CountIs(w: nat, m: nat)
    ensures Count(w, m) == |BitsBelow(w, m)|
  {
    if m > 0 {
      CountIs(w, m - 1);
      assert m - 1 !in BitsBelow(w, m - 1);
      assert BitsBelow(w, m) == BitsBelow(w, m - 1) + if Bit(w, m - 1) then {m - 1} else {};
    }
  }

  lemma {:induction false} BitIs(w: nat, i: nat)
    ensures Bit(w, i) <==> w / Pow2(i) % 2 == 1
  {
    if i > 0 {
      BitIs(w / 2, i - 1);
      HalveTwice(w, Pow2(i - 1));
    }
  }

  lemma {:induction false} HalveTwice(w: nat, p: nat)
    requires p >= 1
    ensures w / 2 / p == w / (2 * p)
  {
    var q, r := w / (2 * p), w % (2 * p);
    assert w == 2 * p * q + r == 2 * (p * q) + r;
    assert w / 2 == p * q + r / 2 && r / 2 < p;
    FloorOf(p * q + r / 2, q, r / 2, p);
  }

  lemma {:induction false} FromBitsAt(b: seq<bool>, i: nat)
    requires i < |b|
    ensures Bit(FromBits(b), i) == b[i]
  {
    if i > 0 { FromBitsAt(b[1..], i - 1); }
  }

  lemma {:induction false} XnorAt(a: nat, b: nat, i: nat)
    requires i < BITS
    ensures Bit(Xnor(a, b), i) == (Bit(a, i) == Bit(b, i))
  {
    FromBitsAt(seq(BITS, j requires 0 <= j < BITS => Bit(a, j) == Bit(b, j)), i);
  }

  lemma {:induction false} AndAt(a: nat, b: nat, i: nat)
    requires i < BITS
    ensures Bit(And(a, b), i) == (Bit(a, i) && Bit(b, i))
  {
    FromBitsAt(seq(BITS, j requires 0 <= j < BITS => Bit(a, j) && Bit(b, j)), i);
  }

  lemma {:induction false} OrAt(a: nat, b: nat, i: nat)
    requires i < BITS
    ensures Bit(Or(a, b), i) == (Bit(a, i) || Bit(b, i))
  {
    FromBitsAt(seq(BITS, j requires 0 <= j < BITS => Bit(a, j) || Bit(b, j)), i);
  }

  lemma {:induction false} ZeroAt(i: nat)
    ensures !Bit(0, i)
  {
    if i > 0 { ZeroAt(i - 1); }
  }

  // 1 << j has bit j set and no other.
  lemma {:induction false} Pow2At(j: nat, i: nat)
    ensures Bit(Pow2(j), i) <==> i == j
  {
    if j == 0 {
      if i > 0 { ZeroAt(i - 1); }
    } else if i > 0 {
      Pow2At(j - 1, i - 1);
    }
  }

  // (1 << r) - 1 has exactly the low r bits set.
  lemma {:induction false} LowMaskAt(r: nat, i: nat)
    ensures Bit(Pow2(r) - 1, i) <==> i < r
  {
    if r == 0 {
      ZeroAt(i);
    } else {
      assert (Pow2(r) - 1) / 2 == Pow2(r - 1) - 1;
      if i > 0 { LowMaskAt(r - 1, i - 1); }
    }
  }
}
