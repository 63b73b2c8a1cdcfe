// The ICS profile over Modbus/TCP: matching responses to requests, splitting
// registers into readings, and one sensor per register of each unit.
module IcsProfile {
  import opened LinearLayer
  import opened Stats
  import opened KeyedWindows
  import opened FlowPool
  import opened FeatureQueue
  import opened Sensor
  import opened Ics
  import Modbus = ModbusTracker

  const MODBUS_PORT: nat := 502

  // Slots of the request tracker.
  const REQUESTS: nat := 8192

  datatype SensorKey = SensorKey(unit: nat, reg: nat)

  type Vec = (seq<real>, SensorKey)

  // --- registers to readings --------------------------------------------------

  ghost predicate Bytes(data: seq<nat>) { forall i :: 0 <= i < |data| ==> data[i] < 256 }

  function Register(data: seq<nat>, i: nat): nat
    requires 2 * i + 1 < |data|
  {
    data[2 * i] * 256 + data[2 * i + 1]
  }

  function Signed16(x: nat): int { if x >= 0x8000 then x as int - 0x1_0000 else x }

  // A zero register before a nonzero one is the high half of a 32-bit value.
  predicate Paired(data: seq<nat>, regs: nat, i: nat)
    requires i < regs && 2 * regs <= |data|
  {
    i + 1 < regs && Register(data, i) == 0 && Register(data, i + 1) != 0
  }

  datatype Reading = Reading(reg: nat, value: int)

  // Readings from register i on; start is the request's first address.
  function DecodeFrom(data: seq<nat>, regs: nat, i: nat, start: nat): seq<Reading>
    requires 2 * regs <= |data|
    decreases regs - i
  {
    if i >= regs then []
    else if Paired(data, regs, i) then
      [Reading((start + i) % U16, Register(data, i + 1))] + DecodeFrom(data, regs, i + 2, start)
    else
      [Reading((start + i) % U16, Signed16(Register(data, i)))] + DecodeFrom(data, regs, i + 1, start)
  }

  ghost predicate AtOrAfter(r: Reading, regs: nat, i: nat, start: nat) {
    exists j: nat :: i <= j < regs && IsAt(r, j, start)
  }

  ghost predicate IsAt(r: Reading, j: nat, start: nat) { r.reg == (start + j) % U16 }

  lemma {:induction false} OffsetsDiffer(start: nat, i: nat, j: nat)
    requires i < j < U16
    ensures (start + i) % U16 != (start + j) % U16
  {}

  // Every reading fits 17 bits, and no register is read twice.
  lemma {:induction false} DecodeShape(data: seq<nat>, regs: nat, i: nat, start: nat)
    requires 2 * regs <= |data| && Bytes(data) && regs < U16
    ensures var rs := DecodeFrom(data, regs, i, start);
            && |rs| <= (if i < regs then regs - i else 0)
            && (forall a :: 0 <= a < |rs| ==> -0x8000 <= rs[a].value < 0x1_0000 && AtOrAfter(rs[a], regs, i, start))
            && forall a, b :: 0 <= a < b < |rs| ==> rs[a].reg != rs[b].reg
    decreases regs - i
  {
    if i < regs {
      var step := if Paired(data, regs, i) then 2 else 1;
      var rest := DecodeFrom(data, regs, i + step, start);
      DecodeShape(data, regs, i + step, start);
      var rs := DecodeFrom(data, regs, i, start);
      assert rs[1..] == rest;
      assert IsAt(rs[0], i, start);
      forall a | 0 <= a < |rest| ensures rest[a].reg != rs[0].reg && AtOrAfter(rest[a], regs, i, start) {
        var j: nat :| i + step <= j < regs && IsAt(rest[a], j, start);
        OffsetsDiffer(start, i, j);
      }
    }
  }

  // --- sensors -------------------------------------------------------------------

  // The sensor table, and every vector pushed so far.
  datatype Fleet = Fleet(sensors: map<SensorKey, SensorState>, pushed: seq<Vec>)

  predicate Known(f: Fleet, e: Event<SensorKey, Sample>, capacity: nat) {
    e.key in f.sensors || (|f.sensors| < capacity && e.insertOk)
  }

  function StateOf(f: Fleet, e: Event<SensorKey, Sample>): SensorState {
    if e.key in f.sensors then f.sensors[e.key] else Fresh(e.rec.reading)
  }

  // sensor_add_reading: the state and, for a full window, the vector.
  function Absorb(f: Fleet, e: Event<SensorKey, Sample>, window: nat, capacity: nat, hz: real): Fleet
    requires window >= 2 && hz > 0.0
  {
    if !Known(f, e, capacity) then f
    else
      var s := StateOf(f, e);
      var chunk := s.open + [e.rec];
      Fleet(f.sensors[e.key := StepSensor(s, e.rec, window)],
            if |chunk| >= window then f.pushed + [(Vector(s.carry, Readings(chunk), Stamps(chunk), hz), e.key)]
                else f.pushed)
  }

  function AbsorbAll(f: Fleet, events: seq<Event<SensorKey, Sample>>, window: nat, capacity: nat, hz: real): Fleet
    requires window >= 2 && hz > 0.0
  {
    if events == [] then f
    else Absorb(AbsorbAll(f, events[..|events| - 1], window, capacity, hz), events[|events| - 1], window, capacity, hz)
  }

  // --- over a run: each sensor's vectors are those of its own windows ---------------

  function ReadingsOf(chunks: seq<seq<Sample>>): seq<seq<int>> {
    seq(|chunks|, i requires 0 <= i < |chunks| => Readings(chunks[i]))
  }

  ghost predicate AllFull(chunks: seq<seq<Sample>>) { forall i :: 0 <= i < |chunks| ==> |chunks[i]| >= 2 }

  // The vector of window i, from what the windows before it carry over.
  function VectorAt(chunks: seq<seq<Sample>>, first: int, hz: real, i: nat): seq<real>
    requires AllFull(chunks) && hz > 0.0 && i < |chunks|
  {
    Vector(CarryAfter(ReadingsOf(chunks[..i]), first), Readings(chunks[i]), Stamps(chunks[i]), hz)
  }

  function VectorsOf(chunks: seq<seq<Sample>>, first: int, hz: real): seq<seq<real>>
    requires AllFull(chunks) && hz > 0.0
  {
    seq(|chunks|, i requires 0 <= i < |chunks| => VectorAt(chunks, first, hz, i))
  }

  ghost predicate Follows(f: Fleet, w: Win<SensorKey, Sample>, key: SensorKey, first: int, hz: real)
    requires hz > 0.0
  {
    var chunks := Mine(w.emitted, key);
    && AllFull(chunks) && (key in f.sensors <==> key in w.open)
    && ForKey(f.pushed, key) == VectorsOf(chunks, first, hz)
    && (key in f.sensors ==> f.sensors[key] == SensorState(w.open[key], CarryAfter(ReadingsOf(chunks), first)))
    && (key !in f.sensors ==> chunks == [])
  }

  lemma {:induction false} CarrySnoc(chunks: seq<seq<Sample>>, c: seq<Sample>, first: int)
    requires AllFull(chunks) && |c| >= 2
    ensures AllFull(chunks + [c])
    ensures CarryAfter(ReadingsOf(chunks + [c]), first) == Next(CarryAfter(ReadingsOf(chunks), first), Readings(c))
  {
    assert ReadingsOf(chunks + [c])[..|chunks|] == ReadingsOf(chunks);
  }

  lemma {:induction false} VectorAtPrefix(chunks: seq<seq<Sample>>, c: seq<Sample>, first: int, hz: real, i: nat)
    requires AllFull(chunks) && |c| >= 2 && hz > 0.0 && i < |chunks| && AllFull(chunks + [c])
    ensures VectorAt(chunks + [c], first, hz, i) == VectorAt(chunks, first, hz, i)
  {
    assert (chunks + [c])[..i] == chunks[..i];
  }

  lemma {:induction false} ChunkSnoc(chunks: seq<seq<Sample>>, c: seq<Sample>, first: int, hz: real)
    requires AllFull(chunks) && |c| >= 2 && hz > 0.0
    ensures AllFull(chunks + [c])
    ensures CarryAfter(ReadingsOf(chunks + [c]), first) == Next(CarryAfter(ReadingsOf(chunks), first), Readings(c))
    ensures VectorsOf(chunks + [c], first, hz)
         == VectorsOf(chunks, first, hz) + [Vector(CarryAfter(ReadingsOf(chunks), first), Readings(c), Stamps(c), hz)]
  {
    CarrySnoc(chunks, c, first);
    var all := chunks + [c];
    forall i: nat | i < |chunks| ensures VectorAt(all, first, hz, i) == VectorAt(chunks, first, hz, i) {
      VectorAtPrefix(chunks, c, first, hz, i);
    }
    assert all[..|chunks|] == chunks;
    assert VectorAt(all, first, hz, |chunks|)
        == Vector(CarryAfter(ReadingsOf(chunks), first), Readings(c), Stamps(c), hz);
  }

  lemma {:induction false} StepOther(f: Fleet, w: Win<SensorKey, Sample>, e: Event<SensorKey, Sample>, window: nat,
      capacity: nat, key: SensorKey, first: int, hz: real)
    requires hz > 0.0 && window >= 2 && Follows(f, w, key, first, hz) && f.sensors.Keys == w.open.Keys
    requires e.key != key || !Admits(w, e, capacity)
    ensures Follows(Absorb(f, e, window, capacity, hz), Feed(w, e, window, capacity), key, first, hz)
  {
    assert |f.sensors| == |w.open| by { assert |f.sensors.Keys| == |w.open.Keys|; }
    FeedOther(w, e, window, capacity, key);
    var s := StateOf(f, e);
    if |s.open| + 1 >= window {
      var chunk := s.open + [e.rec];
      ForKeySnoc(f.pushed, (Vector(s.carry, Readings(chunk), Stamps(chunk), hz), e.key), key);
    }
  }

  lemma {:induction false} StepGrow(f: Fleet, w: Win<SensorKey, Sample>, e: Event<SensorKey, Sample>, window: nat,
      capacity: nat, first: int, hz: real)
    requires hz > 0.0 && window >= 2 && Follows(f, w, e.key, first, hz) && Known(f, e, capacity)
    requires Admits(w, e, capacity) && (e.key !in f.sensors ==> first == e.rec.reading)
    requires |Chunk(w, e)| < window
    ensures Follows(Absorb(f, e, window, capacity, hz), Feed(w, e, window, capacity), e.key, first, hz)
  {
    var s := StateOf(f, e);
    assert s.open + [e.rec] == Chunk(w, e) && s.carry == CarryAfter(ReadingsOf(Mine(w.emitted, e.key)), first);
  }

  lemma {:induction false} StepFull(f: Fleet, w: Win<SensorKey, Sample>, e: Event<SensorKey, Sample>, window: nat,
      capacity: nat, first: int, hz: real)
    requires hz > 0.0 && window >= 2 && Follows(f, w, e.key, first, hz) && Known(f, e, capacity)
    requires Admits(w, e, capacity) && (e.key !in f.sensors ==> first == e.rec.reading)
    requires |Chunk(w, e)| >= window
    ensures Follows(Absorb(f, e, window, capacity, hz), Feed(w, e, window, capacity), e.key, first, hz)
  {
    var s, chunks, chunk := StateOf(f, e), Mine(w.emitted, e.key), Chunk(w, e);
    assert s.open + [e.rec] == chunk && s.carry == CarryAfter(ReadingsOf(chunks), first);
    MineSnoc(w.emitted, e.key, chunk, e.key);
    ChunkSnoc(chunks, chunk, first, hz);
    ForKeySnoc(f.pushed, (Vector(s.carry, Readings(chunk), Stamps(chunk), hz), e.key), e.key);
  }

  lemma {:induction false} StepOwn(f: Fleet, w: Win<SensorKey, Sample>, e: Event<SensorKey, Sample>, window: nat,
      capacity: nat, first: int, hz: real)
    requires hz > 0.0 && window >= 2 && Follows(f, w, e.key, first, hz) && f.sensors.Keys == w.open.Keys
    requires Admits(w, e, capacity) && (e.key !in f.sensors ==> first == e.rec.reading)
    ensures Follows(Absorb(f, e, window, capacity, hz), Feed(w, e, window, capacity), e.key, first, hz)
  {
    assert |f.sensors| == |w.open| by { assert |f.sensors.Keys| == |w.open.Keys|; }
    if |Chunk(w, e)| >= window {
      StepFull(f, w, e, window, capacity, first, hz);
    } else {
      StepGrow(f, w, e, window, capacity, first, hz);
    }
  }

  lemma {:induction false} SameKeys(events: seq<Event<SensorKey, Sample>>, window: nat, capacity: nat, hz: real)
    requires window >= 2 && hz > 0.0
    ensures AbsorbAll(Fleet(map[], []), events, window, capacity, hz).sensors.Keys
         == Run(events, window, capacity).open.Keys
  {
    if events != [] {
      var before := events[..|events| - 1];
      SameKeys(before, window, capacity, hz);
      var f, w := AbsorbAll(Fleet(map[], []), before, window, capacity, hz), Run(before, window, capacity);
      assert |f.sensors.Keys| == |w.open.Keys|;
    }
  }

  lemma {:induction false} NoneAccepted(events: seq<Event<SensorKey, Sample>>, window: nat, capacity: nat,
      key: SensorKey)
    ensures Accepted(events, key, window, capacity) == [] <==> key !in Run(events, window, capacity).open
  {
    if events != [] { NoneAccepted(events[..|events| - 1], window, capacity, key); }
  }

  // For any interleaving of sensors and any refused ones: the vectors pushed for
  // a sensor are those of the consecutive windows of its own readings, each
  // computed from what its earlier windows carried over.
  lemma {:induction false} SensorsAreIndependent(events: seq<Event<SensorKey, Sample>>, window: nat, capacity: nat,
      key: SensorKey, first: int, hz: real)
    requires window >= 2 && hz > 0.0
    requires var a := Accepted(events, key, window, capacity); a != [] ==> first == a[0].reading
    ensures Follows(AbsorbAll(Fleet(map[], []), events, window, capacity, hz), Run(events, window, capacity),
                    key, first, hz)
  {
    if events != [] {
      var before, e := events[..|events| - 1], events[|events| - 1];
      var a := Accepted(before, key, window, capacity);
      assert a <= Accepted(events, key, window, capacity);
      SensorsAreIndependent(before, window, capacity, key, first, hz);
      SameKeys(before, window, capacity, hz);
      NoneAccepted(before, window, capacity, key);
      var f, w := AbsorbAll(Fleet(map[], []), before, window, capacity, hz), Run(before, window, capacity);
      if e.key == key && Admits(w, e, capacity) {
        assert Accepted(events, key, window, capacity) == a + [e.rec];
        StepOwn(f, w, e, window, capacity, first, hz);
      } else {
        StepOther(f, w, e, window, capacity, key, first, hz);
      }
    }
  }

  // --- packets ------------------------------------------------------------------------

  // What was pushed before does not matter to what is pushed next.
  lemma {:induction false} PushesAppend(f: Fleet, events: seq<Event<SensorKey, Sample>>, window: nat, capacity: nat,
      hz: real)
    requires window >= 2 && hz > 0.0
    ensures var (a, b) := (AbsorbAll(f, events, window, capacity, hz),
                           AbsorbAll(Fleet(f.sensors, []), events, window, capacity, hz));
            a.sensors == b.sensors && a.pushed == f.pushed + b.pushed
  {
    if events != [] { PushesAppend(f, events[..|events| - 1], window, capacity, hz); }
  }

  datatype Packet = Packet(srcPort: nat, dstPort: nat, payload: seq<nat>)

  datatype Action = Skip | Ask(req: Modbus.Request) | Answer(key: Modbus.ReqKey, byteCount: nat, data: seq<nat>)

  function Be16(b: seq<nat>, i: nat): nat
    requires i + 1 < |b|
  {
    b[i] * 256 + b[i + 1]
  }

  predicate IsRead(code: nat) { code == 3 || code == 4 }

  // Requests and responses of the two register reads (sections 6.3 and 6.4 of
  // MODBUS Application Protocol V1.1b3), by direction.
  function Classify(p: Packet, now: nat): Action {
    if p.srcPort != MODBUS_PORT && p.dstPort != MODBUS_PORT then Skip
    else if |p.payload| < 7 then Skip
    else if Be16(p.payload, 2) != 0 then Skip
    else
      var key, pdu := Modbus.ReqKey(Be16(p.payload, 0), p.payload[6]), p.payload[7..];
      if |pdu| < 1 then Skip
      else if p.srcPort != MODBUS_PORT && p.dstPort == MODBUS_PORT then
        if |pdu| < 5 then Skip
        else if IsRead(pdu[0]) then Ask(Modbus.Request(key, Be16(pdu, 1), Be16(pdu, 3), now))
        else Skip
      else if p.srcPort == MODBUS_PORT && p.dstPort != MODBUS_PORT then
        if |pdu| < 2 then Skip
        else if !IsRead(pdu[0]) then Skip
        else Answer(key, pdu[1], pdu[2..])
      else Skip
  }

  function Asked(t: Modbus.Table, a: Action, reqOk: bool, capacity: nat): Modbus.Table {
    match a
    case Skip => t
    case Ask(req) => Modbus.Apply(t, Modbus.Add(req, reqOk), capacity)
    case Answer(key, _, _) => Modbus.Apply(t, Modbus.Take(key), capacity)
  }

  // A response yields readings only for a request on record, and only when the
  // packet holds all the bytes it announces; the request is used up either way.
  function ReadingsIn(a: Action, taken: Option<Modbus.Request>): seq<Reading>
    requires a.Answer?
  {
    if taken.Some? && a.byteCount <= |a.data| then DecodeFrom(a.data, a.byteCount / 2, 0, taken.value.startAddr) else []
  }

  function Answered(t: Modbus.Table, a: Action): seq<Reading> {
    if a.Answer? then ReadingsIn(a, if a.key in t then Some(t[a.key]) else None) else []
  }

  function UnitOf(a: Action): nat { if a.Answer? then a.key.unitId else 0 }

  function EventsOf(unit: nat, rs: seq<Reading>, now: nat, oks: nat -> bool): seq<Event<SensorKey, Sample>> {
    seq(|rs|, i requires 0 <= i < |rs| => Event(SensorKey(unit, rs[i].reg), Sample(rs[i].value, now), oks(i)))
  }

  // One more event after those already absorbed.
  lemma {:induction false} AbsorbNext(f: Fleet, events: seq<Event<SensorKey, Sample>>, k: nat, window: nat,
      capacity: nat, hz: real)
    requires window >= 2 && hz > 0.0 && k < |events|
    ensures var g := AbsorbAll(f, events[..k], window, capacity, hz);
            var step := Absorb(Fleet(g.sensors, []), events[k], window, capacity, hz);
            AbsorbAll(f, events[..k + 1], window, capacity, hz) == Fleet(step.sensors, g.pushed + step.pushed)
  {
    assert events[..k + 1][..k] == events[..k];
  }

  // What a reading pushes: the vector of the window it fills.
  function Burst(known: bool, s: SensorState, e: Event<SensorKey, Sample>, window: nat, hz: real): seq<Vec>
    requires window >= 2 && hz > 0.0
  {
    var chunk := s.open + [e.rec];
    if known && |chunk| >= window then [(Vector(s.carry, Readings(chunk), Stamps(chunk), hz), e.key)] else []
  }

  lemma {:induction false} AbsorbOne(t: map<SensorKey, SensorState>, e: Event<SensorKey, Sample>, window: nat,
      capacity: nat, hz: real)
    requires window >= 2 && hz > 0.0
    ensures var f := Fleet(t, []);
            var known, s := Known(f, e, capacity), StateOf(f, e);
            Absorb(f, e, window, capacity, hz)
            == Fleet(if known then t[e.key := StepSensor(s, e.rec, window)] else t, Burst(known, s, e, window, hz))
  {}

  class Profile {
    const tracker: Modbus.Tracker
    const fleet: Pool<SensorKey, SensorState>
    const q: Queue<Vec>
    const window: nat
    const hz: real

    ghost predicate Valid()
      reads this, tracker, tracker.pool, tracker.freeStack, fleet, fleet.entries, q, q.items
    {
      tracker.Valid() && Sensing() && Apart()
    }

    // Sensor table and queue, without the tracker.
    ghost predicate Sensing()
      reads this, fleet, fleet.entries, q, q.items
    {
      && fleet.Valid() && q.Valid() && window >= 2 && hz > 0.0
      && var a: object, b: object := fleet.entries, q.items; a != b
    }

    ghost predicate Apart()
      reads this, tracker
    {
      var a: object, b: object, c: object, d: object := tracker.pool, tracker.freeStack, q.items, fleet.entries;
      a != c && b != c && a != d && b != d
    }

    // The sensors are f's, and its vectors were offered to a queue holding
    // queued, after lost drops.
    ghost predicate Took(f: Fleet, queued: seq<Vec>, lost: nat)
      reads this, fleet, q
    {
      fleet.table == f.sensors && q.contents == Kept(queued, f.pushed) && q.dropped == lost + Lost(queued, f.pushed)
    }

    constructor (configured: nat, capacity: nat, hz: real)
      requires hz > 0.0
      ensures Valid() && fleet.table == map[] && tracker.table == map[] && q.contents == [] && q.dropped == 0
      ensures 2 <= window <= 256 && (configured == 0 ==> window == 32)
      ensures configured != 0 ==> window == (if configured < 2 then 2 else if configured > 256 then 256 else configured)
      ensures fleet.entries.Length == capacity && this.hz == hz
      ensures tracker.pool.Length == REQUESTS
      ensures fresh(tracker) && fresh(tracker.pool) && fresh(tracker.freeStack)
      ensures fresh(fleet) && fresh(fleet.entries) && fresh(q) && fresh(q.items)
    {
      tracker := new Modbus.Tracker(REQUESTS, Modbus.Request(Modbus.ReqKey(0, 0), 0, 0, 0));
      fleet := new Pool<SensorKey, SensorState>(capacity, Fresh(0));
      q := new Queue<Vec>(([], SensorKey(0, 0)));
      window, this.hz := EffectiveWindow(configured), hz;
    }

    // The sensor's entry takes the reading; s is what it held before.
    method Gather(e: Event<SensorKey, Sample>) returns (known: bool, s: SensorState)
      requires fleet.Valid() && window >= 2
      modifies fleet, fleet.entries
      ensures fleet.Valid() && known == Known(Fleet(old(fleet.table), []), e, fleet.entries.Length)
      ensures s == StateOf(Fleet(old(fleet.table), []), e)
      ensures fleet.table == if known then old(fleet.table)[e.key := StepSensor(s, e.rec, window)] else old(fleet.table)
    {
      ghost var t := fleet.table;
      assert |t| == |fleet.hash| by { assert |t.Keys| == |fleet.hash.Keys|; }
      s := Fresh(e.rec.reading);
      var found, idx, isNew := fleet.LookupOrAlloc(e.key, s, e.insertOk);
      known := found;
      if found {
        s := fleet.entries[idx];
        PutTwice(t, e.key, s, StepSensor(s, e.rec, window));
        fleet.Put(e.key, idx, StepSensor(s, e.rec, window));
      }
    }

    // sensor_add_reading: a new sensor starts from its first reading, and a
    // full window queues its vector.
    method AddReading(e: Event<SensorKey, Sample>)
      requires Sensing()
      modifies fleet, fleet.entries, q, q.items
      ensures Sensing()
      ensures Took(Absorb(Fleet(old(fleet.table), []), e, window, fleet.entries.Length, hz),
                   old(q.contents), old(q.dropped))
    {
      AbsorbOne(fleet.table, e, window, fleet.entries.Length, hz);
      var known, s := Gather(e);
      PushIfFull(known, s, e);
    }

    method PushIfFull(known: bool, s: SensorState, e: Event<SensorKey, Sample>)
      requires q.Valid() && window >= 2 && hz > 0.0
      modifies q, q.items
      ensures q.Valid()
      ensures q.contents == Kept(old(q.contents), Burst(known, s, e, window, hz))
      ensures q.dropped == old(q.dropped) + Lost(old(q.contents), Burst(known, s, e, window, hz))
    {
      assert q.contents + [] == q.contents;
      var chunk := s.open + [e.rec];
      if known && |chunk| >= window {
        var _ := q.Push((Vector(s.carry, Readings(chunk), Stamps(chunk), hz), e.key));
      }
    }

    // Reading k is the next of a batch of which the first k were taken.
    method AddNext(ghost events: seq<Event<SensorKey, Sample>>, ghost k: nat, e: Event<SensorKey, Sample>,
                   ghost f: Fleet, ghost queued: seq<Vec>, ghost lost: nat) returns (ghost g: Fleet)
      requires Sensing() && k < |events| && e == events[k] && |queued| <= QUEUE_SIZE
      requires Took(AbsorbAll(f, events[..k], window, fleet.entries.Length, hz), queued, lost)
      modifies fleet, fleet.entries, q, q.items
      ensures Sensing() && g == AbsorbAll(f, events[..k + 1], window, fleet.entries.Length, hz) && Took(g, queued, lost)
    {
      ghost var before := AbsorbAll(f, events[..k], window, fleet.entries.Length, hz);
      ghost var step := Absorb(Fleet(fleet.table, []), e, window, fleet.entries.Length, hz);
      AbsorbNext(f, events, k, window, fleet.entries.Length, hz);
      KeptAll(queued, before.pushed, step.pushed);
      AddReading(e);
      g := Fleet(step.sensors, before.pushed + step.pushed);
    }

    // The register loop of a response, from the first register to the last.
    method ReadRegisters(unit: nat, start: nat, data: seq<nat>, byteCount: nat, now: nat, oks: nat -> bool)
      requires Sensing() && byteCount <= |data|
      modifies fleet, fleet.entries, q, q.items
      ensures Sensing()
      ensures Took(AbsorbAll(Fleet(old(fleet.table), []),
                             EventsOf(unit, DecodeFrom(data, byteCount / 2, 0, start), now, oks),
                             window, fleet.entries.Length, hz), old(q.contents), old(q.dropped))
    {
      var regs := byteCount / 2;
      ghost var rs := DecodeFrom(data, regs, 0, start);
      ghost var events, f := EventsOf(unit, rs, now, oks), Fleet(fleet.table, []);
      assert q.contents + [] == q.contents;
      var i, k := 0, 0;
      while i < regs
        invariant k <= |rs| && rs[k..] == DecodeFrom(data, regs, i, start)
        invariant Sensing()
        invariant Took(AbsorbAll(f, events[..k], window, fleet.entries.Length, hz), old(q.contents), old(q.dropped))
        decreases regs - i
      {
        var pair := Paired(data, regs, i);
        var r := Reading((start + i) % U16, if pair then Register(data, i + 1) else Signed16(Register(data, i)));
        assert rs[k] == r && rs[k + 1..] == DecodeFrom(data, regs, if pair then i + 2 else i + 1, start) by {
          assert rs[k..][0] == rs[k] && rs[k..][1..] == rs[k + 1..];
        }
        ghost var _ := AddNext(events, k, Event(SensorKey(unit, r.reg), Sample(r.value, now), oks(k)),
                               f, old(q.contents), old(q.dropped));
        i := if pair then i + 2 else i + 1;
        k := k + 1;
      }
      assert events[..k] == events;
    }

    // A response takes its request off the record and feeds the sensors of the
    // registers it carries.
    method Respond(a: Action, now: nat, oks: nat -> bool)
      requires Valid() && a.Answer?
      modifies tracker, tracker.freeStack, fleet, fleet.entries, q, q.items
      ensures Valid()
      ensures tracker.table == old(tracker.table) - {a.key}
      ensures Took(AbsorbAll(Fleet(old(fleet.table), []),
                             EventsOf(a.key.unitId, Answered(old(tracker.table), a), now, oks),
                             window, fleet.entries.Length, hz), old(q.contents), old(q.dropped))
    {
      var taken := MatchRequest(a.key);
      ReadAnswer(a, taken, now, oks);
    }

    method ReadAnswer(a: Action, taken: Option<Modbus.Request>, now: nat, oks: nat -> bool)
      requires Sensing() && a.Answer?
      modifies fleet, fleet.entries, q, q.items
      ensures Sensing()
      ensures Took(AbsorbAll(Fleet(old(fleet.table), []), EventsOf(a.key.unitId, ReadingsIn(a, taken), now, oks),
                             window, fleet.entries.Length, hz), old(q.contents), old(q.dropped))
    {
      if taken.Some? && a.byteCount <= |a.data| {
        ReadRegisters(a.key.unitId, taken.value.startAddr, a.data, a.byteCount, now, oks);
      } else {
        NoReadings(Fleet(fleet.table, []), q.contents, a.key.unitId, now, oks, window, fleet.entries.Length, hz);
      }
    }

    method MatchRequest(key: Modbus.ReqKey) returns (taken: Option<Modbus.Request>)
      requires Valid()
      modifies tracker, tracker.freeStack
      ensures Valid() && tracker.table == old(tracker.table) - {key}
      ensures taken == if key in old(tracker.table) then Some(old(tracker.table)[key]) else None
    {
      taken := tracker.Take(key);
    }

    // One packet: requests go on record, responses are matched.
    method ProcessPacket(p: Packet, now: nat, reqOk: bool, oks: nat -> bool)
      requires Valid()
      modifies tracker, tracker.pool, tracker.freeStack, fleet, fleet.entries, q, q.items
      ensures Valid()
      ensures tracker.table == Asked(old(tracker.table), Classify(p, now), reqOk, tracker.pool.Length)
      ensures var a := Classify(p, now);
              Took(AbsorbAll(Fleet(old(fleet.table), []),
                             EventsOf(UnitOf(a), Answered(old(tracker.table), a), now, oks),
                             window, fleet.entries.Length, hz), old(q.contents), old(q.dropped))
    {
      NoReadings(Fleet(fleet.table, []), q.contents, 0, now, oks, window, fleet.entries.Length, hz);
      var a := Classify(p, now);
      if a.Answer? {
        Respond(a, now, oks);
      } else if a.Ask? {
        var _ := tracker.Add(a.req, reqOk);
      }
    }
  }

  lemma {:induction false} NoReadings(f: Fleet, queue: seq<Vec>, unit: nat, now: nat, oks: nat -> bool, window: nat,
      capacity: nat, hz: real)
    requires window >= 2 && hz > 0.0 && |queue| <= QUEUE_SIZE
    ensures AbsorbAll(f, EventsOf(unit, [], now, oks), window, capacity, hz) == f
    ensures Kept(queue, []) == queue && Lost(queue, []) == 0
  {
    assert queue + [] == queue;
  }
}
