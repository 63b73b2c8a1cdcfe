// The in-NIC flow table: direct-mapped, evicting on collision, with a
// truncating fixed-point average of packet sizes.
module FlowTrack {
  import opened Stats
  import opened Rss

  const TABLE_SIZE: nat := 256
  const I31: int := 0x8000_0000

  // Key in canonical order.
  datatype Entry = Entry(key: Key5, valid: bool, pktCount: nat, lastSize: nat, ewma: int)

  datatype Pkt = Pkt(key: Key5, size: nat)

  const EMPTY := Entry(Key5(0, 0, 0, 0, 0), false, 0, 0, 0)

  // Conversion to a signed 32-bit integer.
  function Wrap32(x: int): int { (x + I31) % 0x1_0000_0000 - I31 }

  // Division by the average's denominator, toward zero.
  function Quarter(x: int): int { if x >= 0 then x / 4 else -(-x / 4) }

  // One step of the average: the sum is cast before it is divided.
  function Smooth(ewma: int, size: nat): int { Quarter(Wrap32(size * 65536 + 3 * ewma)) }

  function Start(key: Key5, size: nat): Entry { Entry(key, true, 0, size, Wrap32(size * 65536)) }

  function Absorb(e: Entry, size: nat): Entry {
    Entry(e.key, e.valid, if e.pktCount < U16 - 1 then e.pktCount + 1 else e.pktCount, size, Smooth(e.ewma, size))
  }

  predicate Hit(e: Entry, key: Key5) { e.valid && e.key == key }

  // The entry the packet finds, restarted if it belongs to another flow.
  function Begin(e: Entry, key: Key5, size: nat): Entry { if Hit(e, key) then e else Start(key, size) }

  // Size, packets before it (saturating), average before it, change of size.
  function Features(e: Entry, size: nat): (f: seq<int>)
    ensures |f| == 4
  {
    [ size,
      if e.pktCount > 255 then 255 else e.pktCount,
      e.ewma,
      if size > e.lastSize then size - e.lastSize else e.lastSize - size ]
  }

  // Nothing below depends on how a key is hashed, only that it stays in the table.
  type Index = f: Key5 -> nat | forall k :: f(k) < TABLE_SIZE ghost witness (_ => 0)

  function Step(t: seq<Entry>, index: Index, p: Pkt): (r: seq<Entry>)
    requires |t| == TABLE_SIZE
    ensures |r| == TABLE_SIZE
  {
    var key := Canonicalize(p.key);
    t[index(key) := Absorb(Begin(t[index(key)], key, p.size), p.size)]
  }

  function FeaturesAt(t: seq<Entry>, index: Index, p: Pkt): seq<int>
    requires |t| == TABLE_SIZE
  {
    var key := Canonicalize(p.key);
    Features(Begin(t[index(key)], key, p.size), p.size)
  }

  method Update(table: array<Entry>, index: Index, p: Pkt) returns (f: seq<int>)
    requires table.Length == TABLE_SIZE
    modifies table
    ensures table[..] == Step(old(table[..]), index, p) && f == FeaturesAt(old(table[..]), index, p)
  {
    var lo, hi, portLo, portHi := p.key.srcIp, p.key.dstIp, p.key.srcPort, p.key.dstPort;
    if lo > hi || (lo == hi && portLo > portHi) {
      lo, hi, portLo, portHi := hi, lo, portHi, portLo;
    }
    var key := Key5(lo, hi, portLo, portHi, p.key.proto);
    var idx := index(key);
    if !table[idx].valid || table[idx].key != key {
      table[idx] := Start(key, p.size);
    }
    f := Features(table[idx], p.size);
    table[idx] := Absorb(table[idx], p.size);
  }

  // --- what a slot holds -------------------------------------------------------------

  function State(trace: seq<Pkt>, index: Index): (t: seq<Entry>)
    ensures |t| == TABLE_SIZE == 256
  {
    if trace == [] then seq(TABLE_SIZE, _ => EMPTY)
    else Step(State(trace[..|trace| - 1], index), index, trace[|trace| - 1])
  }

  // The packets that hash to slot i.
  function Own(trace: seq<Pkt>, index: Index, i: nat): seq<Pkt> {
    if trace == [] then []
    else var p := trace[|trace| - 1];
         Own(trace[..|trace| - 1], index, i) + if index(Canonicalize(p.key)) == i then [p] else []
  }

  predicate SameFlow(a: Pkt, b: Pkt) { Canonicalize(a.key) == Canonicalize(b.key) }

  // Where the trailing run of one flow starts.
  function RunStart(s: seq<Pkt>): (i: nat)
    requires s != []
    ensures i < |s|
  {
    if |s| == 1 || !SameFlow(s[|s| - 2], s[|s| - 1]) then |s| - 1 else RunStart(s[..|s| - 1])
  }

  // It is the longest suffix of packets of the last packet's flow.
  lemma {:induction false} RunIsLongest(s: seq<Pkt>)
    requires s != []
    ensures var i := RunStart(s);
            && (forall j :: i <= j < |s| ==> SameFlow(s[j], s[|s| - 1]))
            && (i > 0 ==> !SameFlow(s[i - 1], s[|s| - 1]))
  {
    if |s| > 1 && SameFlow(s[|s| - 2], s[|s| - 1]) {
      var t := s[..|s| - 1];
      RunIsLongest(t);
      assert forall j :: 0 <= j < |t| ==> t[j] == s[j];
    }
  }

  // Tracking a run of one flow's packets from an empty slot.
  function FoldRun(run: seq<Pkt>): Entry
    requires run != []
  {
    var p := run[|run| - 1];
    if |run| == 1 then Absorb(Start(Canonicalize(p.key), p.size), p.size)
    else Absorb(FoldRun(run[..|run| - 1]), p.size)
  }

  // The count saturates at 65535; the last size is the run's last.
  lemma {:induction false} RunCounters(run: seq<Pkt>)
    requires run != []
    ensures var e := FoldRun(run);
            e.pktCount == (if |run| < U16 - 1 then |run| else U16 - 1) && e.lastSize == run[|run| - 1].size
  {
    if |run| > 1 { RunCounters(run[..|run| - 1]); }
  }

  ghost predicate SlotHolds(e: Entry, own: seq<Pkt>) {
    if own == [] then e == EMPTY else e == FoldRun(own[RunStart(own)..]) && Hit(e, Canonicalize(own[|own| - 1].key))
  }

  lemma {:induction false} HoldsStep(e: Entry, own: seq<Pkt>, p: Pkt)
    requires SlotHolds(e, own)
    ensures SlotHolds(Absorb(Begin(e, Canonicalize(p.key), p.size), p.size), own + [p])
  {
    var s := own + [p];
    assert s[..|own|] == own;
    if own != [] && SameFlow(own[|own| - 1], p) {
      var i := RunStart(own);
      assert s[i..][..|s| - i - 1] == own[i..];
    } else {
      assert s[|own|..] == [p];
    }
  }

  lemma {:induction false} StepAt(t: seq<Entry>, index: Index, p: Pkt, i: nat)
    requires |t| == TABLE_SIZE && i < TABLE_SIZE
    ensures var key := Canonicalize(p.key);
            Step(t, index, p)[i] == if index(key) == i then Absorb(Begin(t[i], key, p.size), p.size) else t[i]
  {}

  // After any trace a slot holds the fold over the longest trailing run of one
  // flow among the slot's own packets.
  lemma {:induction false} SlotIsTrailingRun(trace: seq<Pkt>, index: Index, i: nat)
    requires i < TABLE_SIZE
    ensures SlotHolds(State(trace, index)[i], Own(trace, index, i))
  {
    if trace != [] {
      var before, p := trace[..|trace| - 1], trace[|trace| - 1];
      SlotIsTrailingRun(before, index, i);
      var t, own := State(before, index), Own(before, index, i);
      StepAt(t, index, p, i);
      HoldsStep(t[i], own, p);
      assert own + [] == own;
    }
  }

  // The same tracking without a bound on flows.
  function PerFlow(trace: seq<Pkt>): map<Key5, Entry> {
    if trace == [] then map[]
    else var p, m := trace[|trace| - 1], PerFlow(trace[..|trace| - 1]);
         var key := Canonicalize(p.key);
         m[key := Absorb(if key in m then m[key] else Start(key, p.size), p.size)]
  }

  ghost predicate NoCollision(trace: seq<Pkt>, index: Index, key: Key5) {
    forall i :: 0 <= i < |trace| && index(Canonicalize(trace[i].key)) == index(key)
        ==> Canonicalize(trace[i].key) == key
  }

  // A flow that shares its slot with no other is tracked as if alone.
  lemma {:induction false} UncollidedIsExact(trace: seq<Pkt>, index: Index, key: Key5)
    requires NoCollision(trace, index, key)
    ensures var e, m := State(trace, index)[index(key)], PerFlow(trace);
            if key in m then e == m[key] && Hit(e, key) else e == EMPTY
  {
    if trace != [] { UncollidedIsExact(trace[..|trace| - 1], index, key); }
  }

  // Both directions of a packet do the same.
  lemma {:induction false} DirectionBlind(t: seq<Entry>, index: Index, p: Pkt)
    requires |t| == TABLE_SIZE
    ensures Step(t, index, Pkt(Reverse(p.key), p.size)) == Step(t, index, p)
    ensures FeaturesAt(t, index, Pkt(Reverse(p.key), p.size)) == FeaturesAt(t, index, p)
  {
    SameConnection(p.key, Reverse(p.key));
  }

  // --- the average -----------------------------------------------------------------------

  // The cast keeps the value exactly when the sum fits 32 bits.
  lemma {:induction false} SmoothExactIff(ewma: int, size: nat)
    requires -I31 <= ewma < I31 && size < U16
    ensures var sum := size * 65536 + 3 * ewma; Smooth(ewma, size) == Quarter(sum) <==> -I31 <= sum < I31
  {}

  const MAX_EXACT: nat := 8191

  ghost predicate SizesWithin(run: seq<Pkt>, lo: nat, hi: nat) {
    forall i :: 0 <= i < |run| ==> lo <= run[i].size <= hi
  }

  ghost predicate Stays(run: seq<Pkt>, lo: nat, hi: nat)
    requires run != []
  {
    lo * 65536 <= FoldRun(run).ewma <= hi * 65536
  }

  // Within the exact range the average never leaves its flow's sizes.
  lemma {:induction false} AverageWithin(run: seq<Pkt>, lo: nat, hi: nat)
    requires run != [] && SizesWithin(run, lo, hi) && hi <= MAX_EXACT
    ensures Stays(run, lo, hi)
  {
    var p := run[|run| - 1];
    if |run| == 1 {
      FirstAverage(Canonicalize(p.key), p.size);
    } else {
      var before := run[..|run| - 1];
      AverageWithin(before, lo, hi);
      SmoothWithin(FoldRun(before).ewma, p.size, lo, hi);
    }
  }

  // One packet beyond it turns the average negative.
  lemma {:induction false} FirstOverflows(key: Key5)
    ensures FoldRun([Pkt(key, MAX_EXACT + 1)]).ewma == -0x2000_0000
  {
    assert Smooth(0x2000_0000, 8192) == -0x2000_0000;
  }

  // For every bound on packet sizes: the average of every run stays within the
  // run's sizes exactly when the bound is at most 8191.
  lemma {:induction false} StaysIff(bound: nat)
    ensures (forall run, lo: nat, hi: nat ::
               run != [] && hi <= bound && SizesWithin(run, lo, hi) ==> Stays(run, lo, hi))
       <==> bound <= 8191
  {
    if bound <= MAX_EXACT {
      forall run, lo: nat, hi: nat | run != [] && hi <= bound && SizesWithin(run, lo, hi) ensures Stays(run, lo, hi) {
        AverageWithin(run, lo, hi);
      }
    } else {
      var key := Key5(0, 0, 0, 0, 0);
      var run := [Pkt(key, MAX_EXACT + 1)];
      FirstOverflows(key);
      assert SizesWithin(run, 0, MAX_EXACT + 1) && !Stays(run, 0, MAX_EXACT + 1);
    }
  }

  // Bytes of a receive entry.
  const ENTRY_BYTES: nat := 2048

  // A packet that fits its entry is in the range, so no received run leaves it.
  lemma {:induction false} ReceivedStays(run: seq<Pkt>, lo: nat, hi: nat)
    requires run != [] && SizesWithin(run, lo, hi) && SizesWithin(run, 0, ENTRY_BYTES)
    ensures Stays(run, lo, hi)
  {
    AverageWithin(run, lo, if hi < ENTRY_BYTES then hi else ENTRY_BYTES);
  }

  lemma {:induction false} SmoothWithin(e: int, size: nat, lo: nat, hi: nat)
    requires lo * 65536 <= e <= hi * 65536 && lo <= size <= hi <= MAX_EXACT
    ensures lo * 65536 <= Smooth(e, size) <= hi * 65536
  {
    var s := size * 65536 + 3 * e;
    assert Smooth(e, size) == s / 4;
  }

  // The average over exact rationals.
  function Exact(run: seq<Pkt>): real
    requires run != []
  {
    var x := run[|run| - 1].size as real * 65536.0;
    if |run| == 1 then x else (x + 3.0 * Exact(run[..|run| - 1])) / 4.0
  }

  lemma {:induction false} FloorStep(e: int, r: real, size: nat)
    requires 0 <= e <= MAX_EXACT * 65536 && size <= MAX_EXACT && 0.0 <= r - e as real < 3.0
    ensures 0.0 <= (size as real * 65536.0 + 3.0 * r) / 4.0 - Smooth(e, size) as real < 3.0
  {
    var s := size * 65536 + 3 * e;
    assert s < I31;
    assert Smooth(e, size) == s / 4;
    assert s == 4 * (s / 4) + s % 4;
    assert s as real == 4.0 * (s / 4) as real + (s % 4) as real;
  }

  lemma {:induction false} FirstAverage(key: Key5, size: nat)
    requires size <= MAX_EXACT
    ensures Absorb(Start(key, size), size).ewma == size * 65536
  {}

  // Truncation loses less than three units in all, however long the run.
  lemma {:induction false} AverageError(run: seq<Pkt>)
    requires run != [] && SizesWithin(run, 0, MAX_EXACT)
    ensures 0.0 <= Exact(run) - FoldRun(run).ewma as real < 3.0
  {
    var p := run[|run| - 1];
    if |run| == 1 {
      FirstAverage(Canonicalize(p.key), p.size);
    } else {
      var before := run[..|run| - 1];
      AverageError(before);
      AverageWithin(before, 0, MAX_EXACT);
      FloorStep(FoldRun(before).ewma, Exact(before), p.size);
    }
  }

  // n more packets of the same size.
  function Constant(ewma: int, size: nat, n: nat): int {
    if n == 0 then ewma else Smooth(Constant(ewma, size, n - 1), size)
  }

  function Distance(a: int, b: int): nat { if a >= b then a - b else b - a }

  lemma {:induction false} Approach(e: int, size: nat)
    requires 0 <= e <= MAX_EXACT * 65536 && size <= MAX_EXACT
    ensures var (x, y) := (size * 65536, Smooth(e, size));
            && 0 <= y <= MAX_EXACT * 65536
            && (e >= x ==> x <= y <= x + (e - x) * 3 / 4)
            && (e < x ==> y <= x && 4 * (x - y) <= 3 * (x - e) + 3)
  {
    var s := size * 65536 + 3 * e;
    assert Smooth(e, size) == s / 4;
  }

  // Constant traffic brings the average to within three units below the target
  // (it ends exactly on it when it started above) and keeps it there.
  lemma {:induction false} ConstantSettles(e: int, size: nat, n: nat)
    requires 0 <= e <= MAX_EXACT * 65536 && size <= MAX_EXACT
    ensures var (x, y) := (size * 65536, Constant(e, size, n));
            && 0 <= y <= MAX_EXACT * 65536
            && (e >= x ==> x <= y && (y == x || y <= e - n))
            && (e < x ==> y <= x && (x - y <= 3 || y >= e + n))
  {
    if n > 0 {
      ConstantSettles(e, size, n - 1);
      Approach(Constant(e, size, n - 1), size);
    }
  }

  // d shrunk by a quarter n times.
  function Decay(d: real, n: nat): real {
    if n == 0 then d else 0.75 * Decay(d, n - 1)
  }

  lemma {:induction false} DistanceStep(e: int, size: nat)
    requires 0 <= e <= MAX_EXACT * 65536 && size <= MAX_EXACT
    ensures 0 <= Smooth(e, size) <= MAX_EXACT * 65536
    ensures Distance(Smooth(e, size), size * 65536) as real <= 0.75 * Distance(e, size * 65536) as real + 0.75
  {
    Approach(e, size);
    var d, d' := Distance(e, size * 65536), Distance(Smooth(e, size), size * 65536);
    assert 4 * d' <= 3 * d + 3;
  }

  // And it gets there geometrically.
  lemma {:induction false} ConstantConverges(e: int, size: nat, n: nat)
    requires 0 <= e <= MAX_EXACT * 65536 && size <= MAX_EXACT
    ensures 0 <= Constant(e, size, n) <= MAX_EXACT * 65536
    ensures var x := size * 65536;
            Distance(Constant(e, size, n), x) as real <= Decay(Distance(e, x) as real, n) + 3.0
  {
    if n > 0 {
      ConstantConverges(e, size, n - 1);
      DistanceStep(Constant(e, size, n - 1), size);
    }
  }
}
