// Modbus packets from their bytes: what is asked, what is answered, and which
// value each register's reading has.
module ModbusBytes {
  import opened KeyedWindows
  import opened Sensor
  import opened IcsProfile
  import opened IcsRuns
  import Modbus = ModbusTracker

  // Register values, most significant byte first.
  ghost predicate Encodes(data: seq<nat>, v: seq<nat>) {
    && 2 * |v| <= |data|
    && forall i: nat :: i < |v| ==> v[i] < 0x1_0000 && data[2 * i] == v[i] / 256 && data[2 * i + 1] == v[i] % 256
  }

  // The reading at value i, and where the next one starts: a zero before a
  // nonzero value is skipped and lends it its address; any other value is read
  // as a signed 16-bit number.
  ghost predicate ReadsOne(r: Reading, v: seq<nat>, i: nat, next: nat, start: nat)
    requires i < |v|
  {
    && r.reg == (start + i) % 0x1_0000
    && if i + 1 < |v| && v[i] == 0 && v[i + 1] != 0 then next == i + 2 && r.value == v[i + 1]
       else next == i + 1 && r.value == if v[i] < 0x8000 then v[i] as int else v[i] as int - 0x1_0000
  }

  // The readings are those of the values from i on, and nothing else is read.
  ghost predicate Reads(rs: seq<Reading>, v: seq<nat>, i: nat, start: nat) {
    exists at: seq<nat> :: ReadsAt(rs, v, i, start, at)
  }

  ghost predicate ReadsAt(rs: seq<Reading>, v: seq<nat>, i: nat, start: nat, at: seq<nat>) {
    && |at| == |rs| + 1 && at[0] == i && at[|rs|] == |v|
    && forall k: nat :: k < |rs| ==> at[k] < |v| && ReadsOne(rs[k], v, at[k], at[k + 1], start)
  }

  lemma {:induction false} RegisterIs(data: seq<nat>, v: seq<nat>, i: nat)
    requires Encodes(data, v) && i < |v|
    ensures Register(data, i) == v[i]
  {}

  lemma {:induction false} FirstRead(data: seq<nat>, v: seq<nat>, i: nat, start: nat)
    requires Encodes(data, v) && i < |v|
    ensures var rs := DecodeFrom(data, |v|, i, start);
            var next := if Paired(data, |v|, i) then i + 2 else i + 1;
            && next <= |v| && |rs| >= 1 && ReadsOne(rs[0], v, i, next, start)
            && rs[1..] == DecodeFrom(data, |v|, next, start)
  {
    RegisterIs(data, v, i);
    if i + 1 < |v| { RegisterIs(data, v, i + 1); }
  }

  lemma {:induction false} ReadsMore(r: Reading, rs: seq<Reading>, v: seq<nat>, i: nat, next: nat, start: nat)
    requires i < |v| && ReadsOne(r, v, i, next, start) && Reads(rs, v, next, start)
    ensures Reads([r] + rs, v, i, start)
  {
    var at :| ReadsAt(rs, v, next, start, at);
    var at', rs' := [i] + at, [r] + rs;
    forall k: nat | k < |rs'| ensures at'[k] < |v| && ReadsOne(rs'[k], v, at'[k], at'[k + 1], start) {
      if k > 0 { assert ReadsOne(rs[k - 1], v, at[k - 1], at[k], start); }
    }
    assert ReadsAt(rs', v, i, start, at');
  }

  // Splitting the bytes yields exactly these readings.
  lemma {:induction false} DecodesValues(data: seq<nat>, v: seq<nat>, i: nat, start: nat)
    requires Encodes(data, v) && i <= |v|
    ensures Reads(DecodeFrom(data, |v|, i, start), v, i, start)
    decreases |v| - i
  {
    var rs := DecodeFrom(data, |v|, i, start);
    if i == |v| {
      assert ReadsAt(rs, v, i, start, [i]);
    } else {
      var next := if Paired(data, |v|, i) then i + 2 else i + 1;
      FirstRead(data, v, i, start);
      DecodesValues(data, v, next, start);
      ReadsMore(rs[0], rs[1..], v, i, next, start);
      assert rs == [rs[0]] + rs[1..];
    }
  }

  // --- packets --------------------------------------------------------------------

  // Header of a Modbus packet: transaction, protocol zero, length, unit.
  function Header(trans: nat, a: nat, b: nat, unit: nat): seq<nat> {
    [trans / 256, trans % 256, 0, 0, a, b, unit]
  }

  function RequestPdu(code: nat, start: nat, quantity: nat): seq<nat> {
    [code, start / 256, start % 256, quantity / 256, quantity % 256]
  }

  lemma {:induction false} RequestClassified(x: Turn, trans: nat, a: nat, b: nat, unit: nat, code: nat,
      start: nat, quantity: nat, rest: seq<nat>)
    requires x.p.srcPort != 502 && x.p.dstPort == 502 && (code == 3 || code == 4)
    requires x.p.payload == Header(trans, a, b, unit) + (RequestPdu(code, start, quantity) + rest)
    ensures Classify(x.p, x.now) == Ask(Modbus.Request(Modbus.ReqKey(trans, unit), start, quantity, x.now))
  {
    var pdu := RequestPdu(code, start, quantity) + rest;
    assert x.p.payload[7..] == pdu;
    assert Be16(pdu, 1) == start && Be16(pdu, 3) == quantity;
    assert Be16(x.p.payload, 0) == trans;
  }

  // A request for registers goes on record under its transaction and unit.
  lemma {:induction false} RequestRecorded(xs: seq<Turn>, x: Turn, trans: nat, a: nat, b: nat, unit: nat, code: nat,
      start: nat, quantity: nat, rest: seq<nat>)
    requires x.p.srcPort != 502 && x.p.dstPort == 502 && (code == 3 || code == 4)
    requires x.p.payload == Header(trans, a, b, unit) + (RequestPdu(code, start, quantity) + rest)
    ensures var t, key := Requests(xs), Modbus.ReqKey(trans, unit);
            && Requests(xs + [x])
               == (if key in t || (|t| < 8192 && x.reqOk) then t[key := Modbus.Request(key, start, quantity, x.now)]
                   else t)
            && TurnEvents(t, x) == []
  {
    TurnSnoc(xs, x);
    RequestClassified(x, trans, a, b, unit, code, start, quantity, rest);
  }

  ghost predicate AreEvents(es: Batch, rs: seq<Reading>, unit: nat, x: Turn) {
    && |es| == |rs|
    && forall i :: 0 <= i < |rs| ==>
         es[i] == Event(SensorKey(unit, rs[i].reg), Sample(rs[i].value, x.now), x.oks(i))
  }

  // A response uses up its request. If the request is on record and the packet
  // holds all the bytes it announces, each of the announced values is read, from
  // the request's start address on, and nothing else; otherwise nothing is.
  lemma {:induction false} ResponseRead(xs: seq<Turn>, x: Turn, trans: nat, a: nat, b: nat, unit: nat, code: nat,
      count: nat, data: seq<nat>, v: seq<nat>)
    requires x.p.srcPort == 502 && x.p.dstPort != 502 && (code == 3 || code == 4)
    requires x.p.payload == Header(trans, a, b, unit) + [code, count] + data
    requires |v| == count / 2 && (count <= |data| ==> Encodes(data, v))
    ensures var t, key := Requests(xs), Modbus.ReqKey(trans, unit);
            && Requests(xs + [x]) == t - {key}
            && if key in t && count <= |data|
               then exists rs :: Reads(rs, v, 0, t[key].startAddr) && AreEvents(TurnEvents(t, x), rs, unit, x)
               else TurnEvents(t, x) == []
  {
    var t, key := Requests(xs), Modbus.ReqKey(trans, unit);
    TurnSnoc(xs, x);
    ResponseClassified(x, trans, a, b, unit, code, count, data);
    if key in t && count <= |data| {
      var rs := DecodeFrom(data, |v|, 0, t[key].startAddr);
      DecodesValues(data, v, 0, t[key].startAddr);
      assert AreEvents(TurnEvents(t, x), rs, unit, x);
    }
  }

  lemma {:induction false} ResponseClassified(x: Turn, trans: nat, a: nat, b: nat, unit: nat, code: nat,
      count: nat, data: seq<nat>)
    requires x.p.srcPort == 502 && x.p.dstPort != 502 && (code == 3 || code == 4)
    requires x.p.payload == Header(trans, a, b, unit) + [code, count] + data
    ensures Classify(x.p, x.now) == Answer(Modbus.ReqKey(trans, unit), count, data)
  {
    var pdu := [code, count] + data;
    assert x.p.payload[7..] == pdu && pdu[2..] == data;
  }

  // The packets that neither ask nor answer: not Modbus, not protocol zero, too
  // short for their direction, or for another function.
  lemma {:induction false} IgnoredIff(p: Packet, now: nat)
    ensures Classify(p, now).Skip? <==>
            || (p.srcPort == 502 <==> p.dstPort == 502) || |p.payload| < 7
            || p.payload[2] * 256 + p.payload[3] != 0
            || (p.dstPort == 502 && |p.payload| < 12) || (p.srcPort == 502 && |p.payload| < 9)
            || (p.payload[7] != 3 && p.payload[7] != 4)
  {}

  // And these leave requests and sensors alone.
  lemma {:induction false} IgnoredLeavesAll(xs: seq<Turn>, x: Turn)
    requires Classify(x.p, x.now).Skip?
    ensures Requests(xs + [x]) == Requests(xs) && TurnEvents(Requests(xs), x) == []
  {
    TurnSnoc(xs, x);
  }
}
