// The DNS-over-HTTPS profile from packet bytes to vectors: which packets count,
// for which side, and what the features say about the packets themselves.
module DohPackets {
  import opened KeyedWindows
  import opened Rss
  import opened WindowTracker
  import opened Traffic
  import opened Stats
  import opened FeatureQueue
  import opened Doh

  ghost predicate IsBytes(b: seq<nat>) { forall i :: 0 <= i < |b| ==> b[i] < 256 }

  // The packet carries an application data record of n bytes on port 443.
  ghost predicate Carries(p: Packet, n: nat) {
    && (p.key.srcPort == 443 || p.key.dstPort == 443)
    && |p.payload| >= 5 && p.payload[0] == 23 && n == p.payload[3] * 256 + p.payload[4] && n <= |p.payload| - 5
  }

  // Its record, for a packet that carries one.
  lemma {:induction false} CarriedRecord(p: Packet, n: nat, insertOk: bool)
    requires IsBytes(p.payload) && Carries(p, n)
    ensures EventsOf(ArrivalOf(p, insertOk)) == [Event(Canonicalize(p.key), Rec(n, p.key.srcPort != 443), insertOk)]
  {}

  // A record header for n bytes, then at least as many: the packet adds exactly
  // one record of that length to its connection's window, as the client's if
  // and only if it is not sent from port 443.
  lemma {:induction false} HeaderAddsRecord(w: Win<Key5, Rec>, key: Key5, a: nat, b: nat, n: nat, body: seq<nat>,
      insertOk: bool, window: nat, capacity: nat)
    requires key.srcPort == 443 || key.dstPort == 443
    requires a < 256 && b < 256 && n < 0x1_0000 && n <= |body| && IsBytes(body)
    ensures var p := Packet(key, [23, a, b, n / 256, n % 256] + body);
            Take(w, ArrivalOf(p, insertOk), window, capacity)
            == Feed(w, Event(Canonicalize(key), Rec(n, key.srcPort != 443), insertOk), window, capacity)
  {
    CarriedRecord(Packet(key, [23, a, b, n / 256, n % 256] + body), n, insertOk);
  }

  // With one port 443 the same bytes in the other direction count for the same
  // connection, on the other side.
  lemma {:induction false} ReversedCountsOther(w: Win<Key5, Rec>, key: Key5, payload: seq<nat>, n: nat,
      insertOk: bool, window: nat, capacity: nat)
    requires IsBytes(payload) && Carries(Packet(key, payload), n)
    requires key.srcPort != 443 || key.dstPort != 443
    ensures Take(w, ArrivalOf(Packet(Reverse(key), payload), insertOk), window, capacity)
         == Feed(w, Event(Canonicalize(key), Rec(n, key.srcPort == 443), insertOk), window, capacity)
  {
    SameConnection(key, Reverse(key));
    CarriedRecord(Packet(Reverse(key), payload), n, insertOk);
  }

  // The packets that leave every tracker alone.
  lemma {:induction false} LeavesAloneIff(p: Packet, insertOk: bool)
    requires IsBytes(p.payload)
    ensures EventsOf(ArrivalOf(p, insertOk)) == []
       <==> || (p.key.srcPort != 443 && p.key.dstPort != 443) || |p.payload| < 5 || p.payload[0] != 23
            || p.payload[3] * 256 + p.payload[4] > |p.payload| - 5
    ensures EventsOf(ArrivalOf(p, insertOk)) == []
       ==> forall w, window: nat, capacity: nat :: Take(w, ArrivalOf(p, insertOk), window, capacity) == w
  {}

  // --- a connection's packets and its vectors -----------------------------------

  // The packet carries an application data record.
  predicate IsCarrier(p: Packet) {
    && (p.key.srcPort == 443 || p.key.dstPort == 443)
    && |p.payload| >= 5 && p.payload[0] == 23 && p.payload[3] * 256 + p.payload[4] <= |p.payload| - 5
  }

  // Packets of a connection, in either direction, that carry a record.
  function CarriersOf(packets: seq<(Packet, bool)>, key: Key5): seq<Packet> {
    if packets == [] then []
    else var p := packets[|packets| - 1].0;
         CarriersOf(packets[..|packets| - 1], key) + if Canonicalize(p.key) == key && IsCarrier(p) then [p] else []
  }

  function LengthOf(p: Packet): nat
    requires |p.payload| >= 5
  {
    p.payload[3] * 256 + p.payload[4]
  }

  ghost predicate AllCarry(c: seq<Packet>) {
    forall i :: 0 <= i < |c| ==> IsBytes(c[i].payload) && IsCarrier(c[i])
  }

  ghost predicate IsRecordOf(r: Rec, p: Packet) {
    |p.payload| >= 5 && r == Rec(LengthOf(p), p.key.srcPort != 443)
  }

  // One record a packet, in order.
  ghost predicate AreRecordsOf(s: seq<Rec>, c: seq<Packet>) {
    |s| == |c| && forall i :: 0 <= i < |c| ==> IsRecordOf(s[i], c[i])
  }

  lemma {:induction false} EventsNext(before: seq<(Packet, bool)>, p: Packet, ok: bool, key: Key5)
    requires IsBytes(p.payload)
    ensures var r, all := Records(Events(ArrivalsOf(before)), key), before + [(p, ok)];
            if Canonicalize(p.key) == key && IsCarrier(p)
            then Records(Events(ArrivalsOf(all)), key) == r + [Rec(LengthOf(p), p.key.srcPort != 443)]
            else Records(Events(ArrivalsOf(all)), key) == r
  {
    var all, es := ArrivalsOf(before + [(p, ok)]), Events(ArrivalsOf(before));
    assert all[..|before|] == ArrivalsOf(before) && all[|before|] == ArrivalOf(p, ok);
    LeavesAloneIff(p, ok);
    if IsCarrier(p) {
      CarriedRecord(p, LengthOf(p), ok);
      assert (es + EventsOf(ArrivalOf(p, ok)))[..|es|] == es;
    } else {
      assert es + [] == es;
    }
  }

  lemma {:induction false} RecordsNext(s: seq<Rec>, c: seq<Packet>, p: Packet)
    requires AreRecordsOf(s, c) && AllCarry(c) && IsCarrier(p) && IsBytes(p.payload)
    ensures AreRecordsOf(s + [Rec(LengthOf(p), p.key.srcPort != 443)], c + [p]) && AllCarry(c + [p])
  {
    var s', c' := s + [Rec(LengthOf(p), p.key.srcPort != 443)], c + [p];
    forall i | 0 <= i < |c'| ensures IsRecordOf(s'[i], c'[i]) {
      if i < |c| { assert IsRecordOf(s[i], c[i]); }
    }
  }

  lemma {:induction false} CarriersSnoc(packets: seq<(Packet, bool)>, x: (Packet, bool), key: Key5)
    ensures CarriersOf(packets + [x], key)
         == CarriersOf(packets, key) + if Canonicalize(x.0.key) == key && IsCarrier(x.0) then [x.0] else []
  {
    assert (packets + [x])[..|packets|] == packets;
  }

  lemma {:induction false} RecordsOfCarriers(packets: seq<(Packet, bool)>, key: Key5, n: nat)
    requires n <= |packets| && forall i :: 0 <= i < |packets| ==> IsBytes(packets[i].0.payload)
    ensures AllCarry(CarriersOf(packets[..n], key))
    ensures AreRecordsOf(Records(Events(ArrivalsOf(packets[..n])), key), CarriersOf(packets[..n], key))
  {
    if n > 0 {
      var before, x := packets[..n - 1], packets[n - 1];
      RecordsOfCarriers(packets, key, n - 1);
      EventsNext(before, x.0, x.1, key);
      CarriersSnoc(before, x, key);
      PrefixNext(packets, n - 1);
      assert CarriersOf(before, key) + [] == CarriersOf(before, key) && x == (x.0, x.1);
      if Canonicalize(x.0.key) == key && IsCarrier(x.0) {
        RecordsNext(Records(Events(ArrivalsOf(before)), key), CarriersOf(before, key), x.0);
      }
    }
  }

  // --- what the features say about the packets ------------------------------------

  // Record lengths of one side, in order.
  function LengthsOf(c: seq<Packet>, server: bool): seq<nat>
    requires forall i :: 0 <= i < |c| ==> |c[i].payload| >= 5
  {
    if c == [] then []
    else var p := c[|c| - 1];
         LengthsOf(c[..|c| - 1], server) + if (p.key.srcPort == 443) == server then [LengthOf(p)] else []
  }

  // Packets sent from port 443, or the others.
  ghost function SentBy(c: seq<Packet>, server: bool): set<nat> {
    set i: nat | i < |c| && (c[i].key.srcPort == 443) == server
  }

  ghost predicate IsTurn(c: seq<Packet>, i: nat) {
    1 <= i < |c| && (c[i].key.srcPort == 443) != (c[i - 1].key.srcPort == 443)
  }

  // Packets that the other side sent than the one before.
  ghost function Turns(c: seq<Packet>): set<nat> { set i: nat | i < |c| && IsTurn(c, i) }

  lemma {:induction false} SentNext(c: seq<Packet>, server: bool, n: nat)
    requires n < |c|
    ensures n !in SentBy(c[..n], server)
    ensures SentBy(c[..n + 1], server)
         == SentBy(c[..n], server) + if (c[n].key.srcPort == 443) == server then {n} else {}
  {}

  lemma {:induction false} LengthsSnoc(c: seq<Packet>, p: Packet, server: bool)
    requires |p.payload| >= 5 && forall i :: 0 <= i < |c| ==> |c[i].payload| >= 5
    ensures LengthsOf(c + [p], server)
         == LengthsOf(c, server) + if (p.key.srcPort == 443) == server then [LengthOf(p)] else []
  {
    assert (c + [p])[..|c|] == c;
  }

  lemma {:induction false} SentCounted(c: seq<Packet>, server: bool, n: nat)
    requires n <= |c| && forall i :: 0 <= i < |c| ==> |c[i].payload| >= 5
    ensures |LengthsOf(c[..n], server)| == |SentBy(c[..n], server)|
  {
    if n > 0 {
      SentCounted(c, server, n - 1);
      SentNext(c, server, n - 1);
      PrefixNext(c, n - 1);
      LengthsSnoc(c[..n - 1], c[n - 1], server);
    }
  }

  lemma {:induction false} TurnsNext(c: seq<Packet>, n: nat)
    requires n < |c|
    ensures Turns(c[..n + 1]) == Turns(c[..n]) + if IsTurn(c, n) then {n} else {}
  {
    forall i: nat | i < n ensures IsTurn(c[..n + 1], i) <==> IsTurn(c[..n], i) {}
    assert IsTurn(c[..n + 1], n) <==> IsTurn(c, n);
  }

  lemma {:induction false} SwitchesNext(s: seq<Rec>, c: seq<Packet>, n: nat)
    requires AreRecordsOf(s, c) && n < |c|
    ensures Switches(s[..n + 1]) == Switches(s[..n]) + if IsTurn(c, n) then 1 else 0
  {
    PrefixNext(s, n);
    SwitchStep(s[..n], s[n]);
    assert IsRecordOf(s[n], c[n]);
    if n > 0 { assert IsRecordOf(s[n - 1], c[n - 1]); }
  }

  lemma {:induction false} TurnsCounted(s: seq<Rec>, c: seq<Packet>, n: nat)
    requires AreRecordsOf(s, c) && n <= |c|
    ensures Switches(s[..n]) == |Turns(c[..n])|
  {
    if n > 0 {
      var m := n - 1;
      TurnsCounted(s, c, m);
      SwitchesNext(s, c, m);
      TurnsNext(c, m);
      assert m !in Turns(c[..m]);
    } else {
      assert Turns(c[..0]) == {};
    }
  }

  lemma {:induction false} LengthsAre(s: seq<Rec>, c: seq<Packet>, server: bool)
    requires AreRecordsOf(s, c)
    ensures forall i :: 0 <= i < |c| ==> |c[i].payload| >= 5
    ensures Of(s, !server) == LengthsOf(c, server)
  {
    forall i | 0 <= i < |c| ensures |c[i].payload| >= 5 { assert IsRecordOf(s[i], c[i]); }
    if c != [] {
      var n := |c| - 1;
      LengthsAre(s[..n], c[..n], server);
      assert IsRecordOf(s[n], c[n]);
    }
  }

  // f are the sixteen features of the packets c: for the client, the server and
  // all of them counts, bytes, extremes and means of the record lengths, the
  // client's shares, and how often the sending side changed.
  ghost predicate Describes(f: seq<real>, c: seq<Packet>) {
    && |f| == 16 && AllCarry(c)
    && var client, server := LengthsOf(c, false), LengthsOf(c, true);
       var all := seq(|c|, i requires 0 <= i < |c| => LengthOf(c[i]));
       && f[1] == |SentBy(c, false)| as real && f[3] == |SentBy(c, true)| as real && f[10] == |Turns(c)| as real
       && f[5] == Total(client) as real && f[11] == Total(server) as real
       && MaxOrZero(f[0], client) && MinOrZero(f[13], client) && MeanOrZero(f[15], client)
       && MaxOrZero(f[6], server) && MinOrZero(f[14], server) && MeanOrZero(f[9], server)
       && MinOrZero(f[7], all) && MeanOrZero(f[8], all) && MaxOrZero(f[12], all)
       && IsShare(f[2], Total(client), Total(all)) && IsShare(f[4], |SentBy(c, false)|, |c|)
  }

  lemma {:induction false} BatchDescribes(f: seq<real>, s: seq<Rec>, c: seq<Packet>)
    requires IsBatch(f, s) && AreRecordsOf(s, c) && AllCarry(c)
    ensures Describes(f, c)
  {
    LengthsAre(s, c, false);
    LengthsAre(s, c, true);
    SentCounted(c, true, |c|);
    SentCounted(c, false, |c|);
    TurnsCounted(s, c, |c|);
    assert c[..|c|] == c && s[..|s|] == s;
    AllLengths(s, c);
  }

  lemma {:induction false} AllLengths(s: seq<Rec>, c: seq<Packet>)
    requires AreRecordsOf(s, c) && AllCarry(c)
    ensures Lens(s) == seq(|c|, i requires 0 <= i < |c| => LengthOf(c[i]))
  {
    forall i | 0 <= i < |c| ensures Lens(s)[i] == LengthOf(c[i]) { assert IsRecordOf(s[i], c[i]); }
  }

  ghost predicate IsPacketSlice(f: seq<real>, c: seq<Packet>, lo: int, window: nat) {
    0 <= lo <= lo + window <= |c| && Describes(f, c[lo..lo + window]) && ValidateDoh(f, window)
  }

  ghost predicate IsPacketWindow(f: seq<real>, c: seq<Packet>, i: nat, window: nat) {
    IsPacketSlice(f, c, i * window, window)
  }

  lemma {:induction false} RecordsSlice(r: seq<Rec>, c: seq<Packet>, lo: nat, hi: nat)
    requires AreRecordsOf(r, c) && AllCarry(c) && lo <= hi <= |r|
    ensures AreRecordsOf(r[lo..hi], c[lo..hi]) && AllCarry(c[lo..hi])
  {
    forall j | 0 <= j < hi - lo ensures IsRecordOf(r[lo..hi][j], c[lo..hi][j]) {
      assert IsRecordOf(r[lo + j], c[lo + j]);
    }
  }

  lemma {:induction false} SliceDescribed(r: seq<Rec>, c: seq<Packet>, lo: nat, window: nat, x: seq<real>)
    requires 1 <= window < U16 && AreRecordsOf(r, c) && AllCarry(c)
    requires lo + window <= |r| && x == VectorOf(r[lo..lo + window])
    ensures IsPacketSlice(x, c, lo, window)
  {
    RecordsSlice(r, c, lo, lo + window);
    WindowDescribed(r[lo..lo + window], c[lo..lo + window], window);
  }

  ghost predicate AllDescribed(v: seq<seq<real>>, c: seq<Packet>, window: nat)
    requires window >= 1
  {
    |v| == |c| / window && forall i: nat :: i < |v| ==> IsPacketWindow(v[i], c, i, window)
  }

  lemma {:induction false} VectorsDescribed(v: seq<seq<real>>, r: seq<Rec>, c: seq<Packet>, window: nat)
    requires 1 <= window < U16 && WindowVectors(v, r, VectorOf, window) && AreRecordsOf(r, c) && AllCarry(c)
    ensures AllDescribed(v, c, window)
  {
    forall i: nat | i < |v| ensures IsPacketWindow(v[i], c, i, window) {
      assert IsWindowVector(v[i], r, i, VectorOf, window);
      SliceDescribed(r, c, i * window, window, v[i]);
    }
  }

  // From bytes to vectors: of all that a tracker hands on, the i-th vector of a
  // connection describes the i-th window of its packets that carry a record,
  // and meets the contract.
  lemma {:induction false} PacketsDescribed(packets: seq<(Packet, bool)>, window: nat, capacity: nat, key: Key5)
    requires 1 <= window < U16 && Roomy(Events(ArrivalsOf(packets)), capacity)
    requires forall i :: 0 <= i < |packets| ==> IsBytes(packets[i].0.payload)
    ensures AllDescribed(ForKey(Vectors(After(ArrivalsOf(packets), window, capacity).emitted, VectorOf), key),
                         CarriersOf(packets, key), window)
  {
    RoomyVectors(ArrivalsOf(packets), VectorOf, window, capacity, key);
    RecordsOfCarriers(packets, key, |packets|);
    assert packets[..|packets|] == packets;
    VectorsDescribed(ForKey(Vectors(After(ArrivalsOf(packets), window, capacity).emitted, VectorOf), key),
                     Records(Events(ArrivalsOf(packets)), key), CarriersOf(packets, key), window);
  }

  lemma {:induction false} WindowDescribed(s: seq<Rec>, c: seq<Packet>, window: nat)
    requires 1 <= |s| == window < U16 && AreRecordsOf(s, c) && AllCarry(c)
    ensures Describes(VectorOf(s), c) && ValidateDoh(VectorOf(s), window)
  {
    forall i | 0 <= i < |s| ensures s[i].len < U16 { assert IsRecordOf(s[i], c[i]); }
    FeaturesAreBatch(s);
    BatchDescribes(VectorOf(s), s, c);
    BatchValidates(VectorOf(s), s, window);
  }
}
