// Flow keys, and the receive-side hash that spreads flows over workers.
module Rss {
  import Words

  datatype Key5 = Key5(srcIp: nat, dstIp: nat, srcPort: nat, dstPort: nat, proto: nat)

  // Put the smaller endpoint first.
  function Canonicalize(k: Key5): Key5 {
    if k.srcIp > k.dstIp || (k.srcIp == k.dstIp && k.srcPort > k.dstPort)
    then Key5(k.dstIp, k.srcIp, k.dstPort, k.srcPort, k.proto)
    else k
  }

  function Reverse(k: Key5): Key5 {
    Key5(k.dstIp, k.srcIp, k.dstPort, k.srcPort, k.proto)
  }

  // Two packets share a canonical key exactly when they belong to the same
  // connection, in either direction.
  lemma {:induction false} SameConnection(a: Key5, b: Key5)
    ensures Canonicalize(a) == Canonicalize(b) <==> a == b || a == Reverse(b)
  {}

  // The canonical key keeps both ends, the smaller first, and the protocol.
  lemma {:induction false} CanonicalIsOrdered(k: Key5)
    ensures var c := Canonicalize(k);
            && (c.srcIp < c.dstIp || (c.srcIp == c.dstIp && c.srcPort <= c.dstPort)) && c.proto == k.proto
            && (c == k || c == Reverse(k))
  {}

  // --- Toeplitz hash, as defined for receive-side scaling ------------------

  const RSS_KEY: seq<nat> := [
    0x6d, 0x5a, 0x6d, 0x5a, 0x6d, 0x5a, 0x6d, 0x5a,
    0x6d, 0x5a, 0x6d, 0x5a, 0x6d, 0x5a, 0x6d, 0x5a,
    0x6d, 0x5a, 0x6d, 0x5a, 0x6d, 0x5a, 0x6d, 0x5a,
    0x6d, 0x5a, 0x6d, 0x5a, 0x6d, 0x5a, 0x6d, 0x5a,
    0x6d, 0x5a, 0x6d, 0x5a, 0x6d, 0x5a, 0x6d, 0x5a]

  // Bit i of an n-bit number, most significant first.
  function BitOf(v: nat, n: nat, i: nat): bool
    requires i < n
  {
    if i == n - 1 then v % 2 == 1 else BitOf(v / 2, n - 1, i)
  }

  function KeyBits(): (key: seq<bool>)
    ensures |key| == 320
  {
    seq(320, p requires 0 <= p < 320 => BitOf(RSS_KEY[p / 8], 8, p % 8))
  }

  // Bit r of the hash of data placed at bit offset off of the input: every set
  // input bit p flips it by key bit p + r.
  function HashBit(key: seq<bool>, data: seq<bool>, off: nat, r: nat): bool
    requires r < 32 && off + |data| + 31 <= |key|
  {
    if data == [] then false
    else var last := |data| - 1;
         HashBit(key, data[..last], off, r) != (data[last] && key[off + last + r])
  }

  ghost function Flips(key: seq<bool>, data: seq<bool>, off: nat, r: nat): set<nat>
    requires r < 32 && off + |data| + 31 <= |key|
  {
    set p: nat | p < |data| && data[p] && key[off + p + r]
  }

  lemma {:induction false} FlipsNext(key: seq<bool>, data: seq<bool>, off: nat, r: nat)
    requires r < 32 && off + |data| + 31 <= |key| && data != []
    ensures var n := |data| - 1;
            var before := Flips(key, data[..n], off, r);
            n !in before && Flips(key, data, off, r) == before + if data[n] && key[off + n + r] then {n} else {}
  {}

  // So it is the parity of the flips.
  lemma {:induction false} HashIsParity(key: seq<bool>, data: seq<bool>, off: nat, r: nat)
    requires r < 32 && off + |data| + 31 <= |key|
    ensures HashBit(key, data, off, r) <==> |Flips(key, data, off, r)| % 2 == 1
  {
    if data != [] {
      HashIsParity(key, data[..|data| - 1], off, r);
      FlipsNext(key, data, off, r);
    }
  }

  // Bit i from the left is binary digit n - 1 - i.
  lemma {:induction false} BitOfIs(v: nat, n: nat, i: nat)
    requires i < n
    ensures BitOf(v, n, i) == Words.Bit(v, n - 1 - i)
  {
    if i < n - 1 { BitOfIs(v / 2, n - 1, i); }
  }

  // The key is read byte by byte, most significant bit first.
  lemma {:induction false} KeyBitIs(p: nat)
    requires p < 320
    ensures KeyBits()[p] == Words.Bit(RSS_KEY[p / 8], 7 - p % 8)
  {
    BitOfIs(RSS_KEY[p / 8], 8, p % 8);
  }

  function Toeplitz(data: seq<bool>): seq<bool>
    requires |data| + 31 <= 320
  {
    seq(32, r requires 0 <= r < 32 => HashBit(KeyBits(), data, 0, r))
  }

  function Bits(v: nat, n: nat): seq<bool> {
    seq(n, i requires 0 <= i < n => BitOf(v, n, i))
  }

  // Hash inputs for TCP over IPv4, and for IPv4 alone.
  function TcpInput(k: Key5): seq<bool> {
    Bits(k.srcIp, 32) + Bits(k.dstIp, 32) + Bits(k.srcPort, 16) + Bits(k.dstPort, 16)
  }

  function IpInput(k: Key5): seq<bool> {
    Bits(k.srcIp, 32) + Bits(k.dstIp, 32)
  }

  // The key repeats every 16 bits.
  ghost predicate Periodic(key: seq<bool>) {
    |key| >= 16 && key[16..] == key[..|key| - 16]
  }

  lemma {:induction false} KeyIsPeriodic()
    ensures Periodic(KeyBits())
  {
    var key := KeyBits();
    forall p: nat | p < 304 ensures key[16..][p] == key[..304][p] {
      KeyRepeats(p);
    }
  }

  lemma {:induction false} KeyRepeats(p: nat)
    requires p < 304
    ensures KeyBits()[p] == KeyBits()[p + 16]
  {
    ByteOfBit(p);
    ByteRepeats(p / 8);
  }

  lemma {:induction false} ByteOfBit(p: nat)
    ensures (p + 16) / 8 == p / 8 + 2 && (p + 16) % 8 == p % 8
  {}

  lemma {:induction false} ByteRepeats(i: nat)
    requires i < 38
    ensures RSS_KEY[i] == RSS_KEY[i + 2]
  {}

  // So moving data by 16 bits does not change its hash.
  lemma {:induction false} ShiftHash(key: seq<bool>, data: seq<bool>, off: nat, r: nat)
    requires Periodic(key) && r < 32 && off + 16 + |data| + 31 <= |key|
    ensures HashBit(key, data, off + 16, r) == HashBit(key, data, off, r)
  {
    if data != [] {
      var last := |data| - 1;
      ShiftHash(key, data[..last], off, r);
      assert key[16..][off + last + r] == key[..|key| - 16][off + last + r];
    }
  }

  lemma {:induction false} ShiftHash32(key: seq<bool>, data: seq<bool>, off: nat, r: nat)
    requires Periodic(key) && r < 32 && off + 32 + |data| + 31 <= |key|
    ensures HashBit(key, data, off + 32, r) == HashBit(key, data, off, r)
  {
    ShiftHash(key, data, off, r);
    ShiftHash(key, data, off + 16, r);
  }

  lemma {:induction false} HashSnoc(key: seq<bool>, data: seq<bool>, x: bool, off: nat, r: nat)
    requires r < 32 && off + |data| + 32 <= |key|
    ensures HashBit(key, data + [x], off, r) == (HashBit(key, data, off, r) != (x && key[off + |data| + r]))
  {
    assert (data + [x])[..|data|] == data;
  }

  lemma {:induction false} HashConcat(key: seq<bool>, a: seq<bool>, b: seq<bool>, off: nat, r: nat)
    requires r < 32 && off + |a| + |b| + 31 <= |key|
    ensures HashBit(key, a + b, off, r) == (HashBit(key, a, off, r) != HashBit(key, b, off + |a|, r))
  {
    if b == [] {
      assert a + b == a;
    } else {
      var c, x := b[..|b| - 1], b[|b| - 1];
      HashConcat(key, a, c, off, r);
      assert b == c + [x] && a + b == (a + c) + [x];
      HashSnoc(key, a + c, x, off, r);
      HashSnoc(key, c, x, off + |a|, r);
    }
  }

  lemma {:induction false} TwoFields(key: seq<bool>, a: seq<bool>, b: seq<bool>, r: nat)
    requires Periodic(key) && |key| == 320 && r < 32 && |a| == 32 && |b| == 32
    ensures HashBit(key, a + b, 0, r) == (HashBit(key, a, 0, r) != HashBit(key, b, 0, r))
  {
    HashConcat(key, a, b, 0, r);
    ShiftHash32(key, b, 0, r);
  }

  lemma {:induction false} TwoPorts(key: seq<bool>, c: seq<bool>, d: seq<bool>, r: nat)
    requires Periodic(key) && |key| == 320 && r < 32 && |c| == 16 && |d| == 16
    ensures HashBit(key, c + d, 64, r) == (HashBit(key, c, 0, r) != HashBit(key, d, 0, r))
  {
    HashConcat(key, c, d, 64, r);
    ShiftHash32(key, c, 0, r);
    ShiftHash32(key, c, 32, r);
    ShiftHash32(key, d, 0, r);
    ShiftHash32(key, d, 32, r);
    ShiftHash(key, d, 64, r);
  }

  // The hash bit is the exclusive or of the four fields' own hashes.
  lemma {:induction false} FourFields(key: seq<bool>, a: seq<bool>, b: seq<bool>, c: seq<bool>, d: seq<bool>, r: nat)
    requires Periodic(key) && |key| == 320 && r < 32 && |a| == 32 && |b| == 32 && |c| == 16 && |d| == 16
    ensures HashBit(key, a + b + c + d, 0, r) ==
            ((HashBit(key, a, 0, r) != HashBit(key, b, 0, r)) != (HashBit(key, c, 0, r) != HashBit(key, d, 0, r)))
  {
    assert a + b + c + d == (a + b) + (c + d);
    HashConcat(key, a + b, c + d, 0, r);
    TwoFields(key, a, b, r);
    TwoPorts(key, c, d, r);
  }

  lemma {:induction false} SymmetricBit(k: Key5, r: nat)
    requires r < 32
    ensures HashBit(KeyBits(), TcpInput(k), 0, r) == HashBit(KeyBits(), TcpInput(Reverse(k)), 0, r)
    ensures HashBit(KeyBits(), IpInput(k), 0, r) == HashBit(KeyBits(), IpInput(Reverse(k)), 0, r)
  {
    var key := KeyBits();
    KeyIsPeriodic();
    var a, b, c, d := Bits(k.srcIp, 32), Bits(k.dstIp, 32), Bits(k.srcPort, 16), Bits(k.dstPort, 16);
    FourFields(key, a, b, c, d, r);
    FourFields(key, b, a, d, c, r);
    TwoFields(key, a, b, r);
    TwoFields(key, b, a, r);
  }

  // Both directions of a connection have the same hash, for either input.
  lemma {:induction false} SymmetricHash(k: Key5)
    ensures Toeplitz(TcpInput(k)) == Toeplitz(TcpInput(Reverse(k)))
    ensures Toeplitz(IpInput(k)) == Toeplitz(IpInput(Reverse(k)))
  {
    forall r: nat | r < 32
      ensures HashBit(KeyBits(), TcpInput(k), 0, r) == HashBit(KeyBits(), TcpInput(Reverse(k)), 0, r)
      ensures HashBit(KeyBits(), IpInput(k), 0, r) == HashBit(KeyBits(), IpInput(Reverse(k)), 0, r)
    {
      SymmetricBit(k, r);
    }
  }

  // Whatever table maps hashes to workers, a packet's worker is determined by
  // its canonical key.
  lemma {:induction false} WorkerOfConnection(k: Key5, table: seq<bool> -> nat)
    ensures table(Toeplitz(TcpInput(k))) == table(Toeplitz(TcpInput(Canonicalize(k))))
    ensures table(Toeplitz(IpInput(k))) == table(Toeplitz(IpInput(Canonicalize(k))))
  {
    SymmetricHash(k);
  }
}
