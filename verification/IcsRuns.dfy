// Runs of the ICS profile: packets in arrival order, the readings they carry,
// and when a packet can offer more vectors than the queue holds.
module IcsRuns {
  import opened Stats
  import opened KeyedWindows
  import opened FeatureQueue
  import opened Sensor
  import opened Ics
  import opened IcsProfile
  import Modbus = ModbusTracker

  type Batch = seq<Event<SensorKey, Sample>>

  // A packet and its arrival time; reqOk and oks say whether the hashes would
  // accept its request and the sensors of its readings.
  datatype Turn = Turn(p: Packet, now: nat, reqOk: bool, oks: nat -> bool)

  // Requests on record after the packets.
  function Requests(xs: seq<Turn>): Modbus.Table {
    if xs == [] then map[]
    else var x := xs[|xs| - 1]; Asked(Requests(xs[..|xs| - 1]), Classify(x.p, x.now), x.reqOk, REQUESTS)
  }

  // The readings of a packet, given the requests on record.
  function TurnEvents(t: Modbus.Table, x: Turn): Batch {
    var a := Classify(x.p, x.now);
    EventsOf(UnitOf(a), Answered(t, a), x.now, x.oks)
  }

  function EventsIn(xs: seq<Turn>): Batch {
    if xs == [] then []
    else EventsIn(xs[..|xs| - 1]) + TurnEvents(Requests(xs[..|xs| - 1]), xs[|xs| - 1])
  }

  // The sensor table after the packets, and every vector pushed.
  function FleetAfter(xs: seq<Turn>, window: nat, capacity: nat, hz: real): Fleet
    requires window >= 2 && hz > 0.0
  {
    AbsorbAll(Fleet(map[], []), EventsIn(xs), window, capacity, hz)
  }

  // What the next packet pushes: ProcessPacket offers just this to the queue.
  function OfferedBy(xs: seq<Turn>, x: Turn, window: nat, capacity: nat, hz: real): seq<Vec>
    requires window >= 2 && hz > 0.0
  {
    AbsorbAll(Fleet(FleetAfter(xs, window, capacity, hz).sensors, []), TurnEvents(Requests(xs), x),
              window, capacity, hz).pushed
  }

  lemma {:induction false} TurnSnoc(xs: seq<Turn>, x: Turn)
    ensures Requests(xs + [x]) == Asked(Requests(xs), Classify(x.p, x.now), x.reqOk, REQUESTS)
    ensures EventsIn(xs + [x]) == EventsIn(xs) + TurnEvents(Requests(xs), x)
  {
    assert (xs + [x])[..|xs|] == xs;
  }

  lemma {:induction false} AbsorbSnoc(f: Fleet, a: Batch, e: Event<SensorKey, Sample>, window: nat, capacity: nat,
      hz: real)
    requires window >= 2 && hz > 0.0
    ensures AbsorbAll(f, a + [e], window, capacity, hz)
         == Absorb(AbsorbAll(f, a, window, capacity, hz), e, window, capacity, hz)
  {
    assert (a + [e])[..|a|] == a;
  }

  lemma {:induction false} AbsorbJoin(f: Fleet, a: Batch, b: Batch, n: nat, window: nat, capacity: nat, hz: real)
    requires window >= 2 && hz > 0.0 && n <= |b|
    ensures AbsorbAll(f, a + b[..n], window, capacity, hz)
         == AbsorbAll(AbsorbAll(f, a, window, capacity, hz), b[..n], window, capacity, hz)
  {
    if n == 0 {
      assert a + b[..0] == a;
    } else {
      AbsorbJoin(f, a, b, n - 1, window, capacity, hz);
      PrefixNext(b, n - 1);
      AbsorbSnoc(f, a + b[..n - 1], b[n - 1], window, capacity, hz);
      AbsorbSnoc(AbsorbAll(f, a, window, capacity, hz), b[..n - 1], b[n - 1], window, capacity, hz);
      assert a + (b[..n - 1] + [b[n - 1]]) == (a + b[..n - 1]) + [b[n - 1]];
    }
  }

  // A packet adds to the vectors pushed exactly what it offers.
  lemma {:induction false} FleetNext(xs: seq<Turn>, x: Turn, window: nat, capacity: nat, hz: real)
    requires window >= 2 && hz > 0.0
    ensures FleetAfter(xs + [x], window, capacity, hz).pushed
         == FleetAfter(xs, window, capacity, hz).pushed + OfferedBy(xs, x, window, capacity, hz)
  {
    var b := TurnEvents(Requests(xs), x);
    TurnSnoc(xs, x);
    AbsorbJoin(Fleet(map[], []), EventsIn(xs), b, |b|, window, capacity, hz);
    assert b[..|b|] == b;
    PushesAppend(FleetAfter(xs, window, capacity, hz), b, window, capacity, hz);
  }

  // --- what a packet can offer --------------------------------------------------

  // Registers that a response announces.
  function Registers(x: Turn): nat {
    var a := Classify(x.p, x.now);
    if a.Answer? then a.byteCount / 2 else 0
  }

  ghost predicate DistinctKeys(es: Batch) { forall i, j :: 0 <= i < j < |es| ==> es[i].key != es[j].key }

  ghost predicate ReadingsFit(es: Batch) {
    forall i :: 0 <= i < |es| ==> -0x8000 <= es[i].rec.reading < 0x1_0000
  }

  lemma {:induction false} AnswerBytes(x: Turn)
    requires Bytes(x.p.payload)
    ensures var a := Classify(x.p, x.now); a.Answer? ==> Bytes(a.data) && a.byteCount < 256
  {
    var a := Classify(x.p, x.now);
    if a.Answer? {
      var pdu := x.p.payload[7..];
      assert a.byteCount == pdu[1] == x.p.payload[8];
      assert forall i :: 0 <= i < |a.data| ==> a.data[i] == x.p.payload[i + 9];
    }
  }

  // At most one reading a register, no register twice, and all of 17 bits.
  lemma {:induction false} TurnShape(t: Modbus.Table, x: Turn)
    requires Bytes(x.p.payload)
    ensures var es := TurnEvents(t, x);
            && |es| <= Registers(x) && DistinctKeys(es) && ReadingsFit(es)
            && forall i :: 0 <= i < |es| ==> es[i].rec.at == x.now
  {
    var a := Classify(x.p, x.now);
    AnswerBytes(x);
    if a.Answer? && a.key in t && a.byteCount <= |a.data| {
      DecodeShape(a.data, a.byteCount / 2, 0, t[a.key].startAddr);
    }
  }

  lemma {:induction false} PushesAtMost(f: Fleet, es: Batch, window: nat, capacity: nat, hz: real)
    requires window >= 2 && hz > 0.0
    ensures |AbsorbAll(f, es, window, capacity, hz).pushed| <= |f.pushed| + |es|
  {
    if es != [] { PushesAtMost(f, es[..|es| - 1], window, capacity, hz); }
  }

  lemma {:induction false} TableBounded(f: Fleet, es: Batch, window: nat, capacity: nat, hz: real)
    requires window >= 2 && hz > 0.0 && |f.sensors| <= capacity
    ensures |AbsorbAll(f, es, window, capacity, hz).sensors| <= capacity
  {
    if es != [] { TableBounded(f, es[..|es| - 1], window, capacity, hz); }
  }

  // The sensors that vectors are for.
  function Labels(pushed: seq<Vec>): set<SensorKey> {
    if pushed == [] then {} else Labels(pushed[..|pushed| - 1]) + {pushed[|pushed| - 1].1}
  }

  lemma {:induction false} LabelsSnoc(pushed: seq<Vec>, v: Vec)
    ensures Labels(pushed + [v]) == Labels(pushed) + {v.1}
  {
    assert (pushed + [v])[..|pushed|] == pushed;
  }

  // One vector a sensor: those pushed are for distinct sensors of the table.
  ghost predicate OneEach(f: Fleet, n: nat, es: Batch)
    requires n <= |es|
  {
    && Labels(f.pushed) <= f.sensors.Keys && |Labels(f.pushed)| == |f.pushed|
    && forall i :: n <= i < |es| ==> es[i].key !in Labels(f.pushed)
  }

  lemma {:induction false} OneEachNext(f: Fleet, n: nat, es: Batch, window: nat, capacity: nat, hz: real)
    requires window >= 2 && hz > 0.0 && n < |es| && DistinctKeys(es) && OneEach(f, n, es)
    ensures OneEach(Absorb(f, es[n], window, capacity, hz), n + 1, es)
  {
    var g := Absorb(f, es[n], window, capacity, hz);
    assert f.sensors.Keys <= g.sensors.Keys;
    if g.pushed != f.pushed {
      var v := g.pushed[|f.pushed|];
      assert g.pushed == f.pushed + [v] && v.1 == es[n].key;
      LabelsSnoc(f.pushed, v);
    }
  }

  lemma {:induction false} PushesOneEach(t: map<SensorKey, SensorState>, es: Batch, n: nat, window: nat, capacity: nat,
      hz: real)
    requires window >= 2 && hz > 0.0 && n <= |es| && DistinctKeys(es)
    ensures OneEach(AbsorbAll(Fleet(t, []), es[..n], window, capacity, hz), n, es)
  {
    if n > 0 {
      PushesOneEach(t, es, n - 1, window, capacity, hz);
      PrefixNext(es, n - 1);
      AbsorbSnoc(Fleet(t, []), es[..n - 1], es[n - 1], window, capacity, hz);
      OneEachNext(AbsorbAll(Fleet(t, []), es[..n - 1], window, capacity, hz), n - 1, es, window, capacity, hz);
    }
  }

  // A packet offers at most one vector a register it carries, and at most one
  // a sensor that the pool has room for.
  lemma {:induction false} OfferedAtMost(xs: seq<Turn>, x: Turn, window: nat, capacity: nat, hz: real)
    requires window >= 2 && hz > 0.0 && Bytes(x.p.payload)
    ensures |OfferedBy(xs, x, window, capacity, hz)| <= Registers(x)
    ensures |OfferedBy(xs, x, window, capacity, hz)| <= capacity
  {
    var es, f := TurnEvents(Requests(xs), x), FleetAfter(xs, window, capacity, hz);
    var g := AbsorbAll(Fleet(f.sensors, []), es, window, capacity, hz);
    TurnShape(Requests(xs), x);
    PushesAtMost(Fleet(f.sensors, []), es, window, capacity, hz);
    PushesOneEach(f.sensors, es, |es|, window, capacity, hz);
    assert es[..|es|] == es;
    TableBounded(Fleet(map[], []), EventsIn(xs), window, capacity, hz);
    TableBounded(Fleet(f.sensors, []), es, window, capacity, hz);
    SubsetCard(Labels(g.pushed), g.sensors.Keys);
  }

  // Payloads are bytes, and no response carries more than q registers.
  ghost predicate Narrow(xs: seq<Turn>, q: nat) {
    forall i :: 0 <= i < |xs| ==> Bytes(xs[i].p.payload) && Registers(xs[i]) <= q
  }

  // The queue, drained after each packet, loses nothing at packet n.
  ghost predicate Keeps(xs: seq<Turn>, n: nat, window: nat, capacity: nat, hz: real)
    requires window >= 2 && hz > 0.0 && n < |xs|
  {
    Lost([], OfferedBy(xs[..n], xs[n], window, capacity, hz)) == 0
  }

  ghost predicate NeverLoses(xs: seq<Turn>, window: nat, capacity: nat, hz: real)
    requires window >= 2 && hz > 0.0
  {
    forall n: nat :: n < |xs| ==> Keeps(xs, n, window, capacity, hz)
  }

  lemma {:induction false} NarrowNeverLoses(xs: seq<Turn>, q: nat, window: nat, capacity: nat, hz: real)
    requires window >= 2 && hz > 0.0 && Narrow(xs, q) && (q <= QUEUE_SIZE || capacity <= QUEUE_SIZE)
    ensures NeverLoses(xs, window, capacity, hz)
  {
    forall n: nat | n < |xs| ensures Keeps(xs, n, window, capacity, hz) {
      OfferedAtMost(xs[..n], xs[n], window, capacity, hz);
      var o := OfferedBy(xs[..n], xs[n], window, capacity, hz);
      assert [] + o == o;
    }
  }

  // --- the vectors of a sensor ------------------------------------------------------

  ghost predicate AllInRange(r: seq<Sample>) { forall i :: 0 <= i < |r| ==> InRange(r[i]) }

  ghost predicate EventsFit(es: Batch) { forall i :: 0 <= i < |es| ==> InRange(es[i].rec) }

  ghost predicate Real(xs: seq<Turn>) {
    forall i :: 0 <= i < |xs| ==> Bytes(xs[i].p.payload) && xs[i].now < U64
  }

  lemma {:induction false} RunFits(xs: seq<Turn>)
    requires Real(xs)
    ensures EventsFit(EventsIn(xs))
  {
    if xs != [] {
      var before, x := xs[..|xs| - 1], xs[|xs| - 1];
      RunFits(before);
      TurnShape(Requests(before), x);
    }
  }

  lemma {:induction false} AcceptedFits(es: Batch, key: SensorKey, window: nat, capacity: nat)
    requires EventsFit(es)
    ensures AllInRange(Accepted(es, key, window, capacity))
  {
    if es != [] { AcceptedFits(es[..|es| - 1], key, window, capacity); }
  }

  // x is the vector of the i-th window of the readings a, computed from what
  // the earlier windows carried over, and meets the contract.
  ghost predicate IcsWindow(x: seq<real>, chunks: seq<seq<Sample>>, a: seq<Sample>, i: nat, first: int, window: nat,
      hz: real)
    requires hz > 0.0 && i < |chunks| && AllFull(chunks)
  {
    && 0 <= i * window <= i * window + window <= |a| && chunks[i] == a[i * window..i * window + window]
    && x == VectorAt(chunks, first, hz, i) && |x| == 16 && ValidateIcs(x)
  }

  lemma {:induction false} ChunkDelivered(chunks: seq<seq<Sample>>, a: seq<Sample>, i: nat, first: int, window: nat,
      hz: real)
    requires window >= 2 && hz > 0.0 && AllFull(chunks) && AllInRange(a) && i < |chunks|
    requires 0 <= i * window <= i * window + window <= |a| && chunks[i] == a[i * window..i * window + window]
    ensures |VectorsOf(chunks, first, hz)| == |chunks|
    ensures IcsWindow(VectorsOf(chunks, first, hz)[i], chunks, a, i, first, window, hz)
  {
    EmittedValid(CarryAfter(ReadingsOf(chunks[..i]), first), chunks[i], hz);
  }

  // Vectors popped for a sensor are those of the consecutive windows of its own
  // readings, one after another, and each meets the contract.
  ghost predicate Delivered(v: seq<seq<real>>, chunks: seq<seq<Sample>>, a: seq<Sample>, first: int, window: nat,
      hz: real)
    requires window >= 2 && hz > 0.0 && AllFull(chunks)
  {
    && |v| == |chunks| == |a| / window
    && forall i: nat :: i < |v| ==> IcsWindow(v[i], chunks, a, i, first, window, hz)
  }

  lemma {:induction false} SensorDelivered(xs: seq<Turn>, window: nat, capacity: nat, hz: real, key: SensorKey,
      first: int)
    requires window >= 2 && hz > 0.0 && Real(xs)
    requires var a := Accepted(EventsIn(xs), key, window, capacity); a != [] ==> first == a[0].reading
    ensures var es := EventsIn(xs);
            var chunks := Mine(Run(es, window, capacity).emitted, key);
            && AllFull(chunks)
            && Delivered(ForKey(FleetAfter(xs, window, capacity, hz).pushed, key), chunks,
                         Accepted(es, key, window, capacity), first, window, hz)
  {
    var es := EventsIn(xs);
    var chunks, a := Mine(Run(es, window, capacity).emitted, key), Accepted(es, key, window, capacity);
    SensorsAreIndependent(es, window, capacity, key, first, hz);
    WindowsOfKey(es, window, capacity, key);
    RunFits(xs);
    AcceptedFits(es, key, window, capacity);
    var v := VectorsOf(chunks, first, hz);
    forall i: nat | i < |chunks| ensures IcsWindow(v[i], chunks, a, i, first, window, hz) {
      ChunkDelivered(chunks, a, i, first, window, hz);
    }
  }
}
