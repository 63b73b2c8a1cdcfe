// Polling the same registers of a unit again and again: their windows fill in
// the same packet, and more of them than the queue holds are lost.
module PollBursts {
  import opened Stats
  import opened KeyedWindows
  import opened FeatureQueue
  import opened Sensor
  import opened IcsProfile
  import opened IcsRuns
  import Modbus = ModbusTracker

  ghost predicate Distinct(ks: seq<SensorKey>) { forall i, j :: 0 <= i < j < |ks| ==> ks[i] != ks[j] }

  // One reading for each of the keys, in order, none refused by the hash.
  ghost predicate Polls(events: Batch, ks: seq<SensorKey>) {
    |events| == |ks| && forall i :: 0 <= i < |ks| ==> events[i].key == ks[i] && events[i].insertOk
  }

  // Every one of the sensors has gathered that many readings.
  ghost predicate Lockstep(f: Fleet, ks: seq<SensorKey>, gathered: nat) {
    forall i :: 0 <= i < |ks| ==> ks[i] in f.sensors && |f.sensors[ks[i]].open| == gathered
  }

  ghost predicate Absent(f: Fleet, ks: seq<SensorKey>) { forall i :: 0 <= i < |ks| ==> ks[i] !in f.sensors }

  function Next(gathered: nat, window: nat): nat { if gathered + 1 == window then 0 else gathered + 1 }

  // Fresh sensors count as having gathered nothing.
  ghost predicate Ready(f: Fleet, k: SensorKey, gathered: nat) {
    if k in f.sensors then |f.sensors[k].open| == gathered else gathered == 0
  }

  lemma {:induction false} StepOne(f: Fleet, e: Event<SensorKey, Sample>, gathered: nat, window: nat, capacity: nat,
      hz: real)
    requires window >= 2 && hz > 0.0 && gathered < window && Known(f, e, capacity) && Ready(f, e.key, gathered)
    ensures var g := Absorb(f, e, window, capacity, hz);
            && |g.pushed| == |f.pushed| + (if gathered + 1 == window then 1 else 0)
            && e.key in g.sensors && |g.sensors[e.key].open| == Next(gathered, window)
            && g.sensors == f.sensors[e.key := g.sensors[e.key]]
  {}

  // The first n sensors of a poll have moved on; the others have not.
  ghost predicate Midway(f: Fleet, g: Fleet, ks: seq<SensorKey>, n: nat, gathered: nat, window: nat)
    requires n <= |ks|
  {
    && Lockstep(g, ks[..n], Next(gathered, window))
    && (forall i :: n <= i < |ks| ==> Ready(g, ks[i], gathered))
    && |g.pushed| == |f.pushed| + (if gathered + 1 == window then n else 0)
    && |g.sensors| <= |f.sensors| + n && f.sensors.Keys <= g.sensors.Keys
  }

  // Room for the new sensors, or none are new.
  ghost predicate Fitting(f: Fleet, ks: seq<SensorKey>, capacity: nat) {
    |f.sensors| + |ks| <= capacity || forall i :: 0 <= i < |ks| ==> ks[i] in f.sensors
  }

  lemma {:induction false} MidwayNext(f: Fleet, g: Fleet, ks: seq<SensorKey>, n: nat, e: Event<SensorKey, Sample>,
      gathered: nat, window: nat, capacity: nat, hz: real)
    requires window >= 2 && hz > 0.0 && gathered < window && Distinct(ks) && Fitting(f, ks, capacity)
    requires n < |ks| && e.key == ks[n] && e.insertOk && Midway(f, g, ks, n, gathered, window)
    ensures Midway(f, Absorb(g, e, window, capacity, hz), ks, n + 1, gathered, window)
  {
    assert Ready(g, ks[n], gathered);
    StepOne(g, e, gathered, window, capacity, hz);
    var g' := Absorb(g, e, window, capacity, hz);
    assert forall i :: 0 <= i < |ks| && i != n ==> ks[i] != e.key;
    assert |g'.sensors| <= |g.sensors| + 1;
    assert forall i :: 0 <= i < n ==> ks[..n + 1][i] == ks[..n][i];
  }

  lemma {:induction false} PollPrefix(f: Fleet, events: Batch, ks: seq<SensorKey>, n: nat, gathered: nat, window: nat,
      capacity: nat, hz: real)
    requires window >= 2 && hz > 0.0 && gathered < window && Distinct(ks) && Fitting(f, ks, capacity)
    requires Polls(events, ks) && n <= |ks| && forall i :: 0 <= i < |ks| ==> Ready(f, ks[i], gathered)
    ensures Midway(f, AbsorbAll(f, events[..n], window, capacity, hz), ks, n, gathered, window)
  {
    if n > 0 {
      PollPrefix(f, events, ks, n - 1, gathered, window, capacity, hz);
      assert events[..n][..n - 1] == events[..n - 1];
      MidwayNext(f, AbsorbAll(f, events[..n - 1], window, capacity, hz), ks, n - 1, events[n - 1], gathered, window,
          capacity, hz);
    }
  }

  // A response covering the same sensors every time moves them in lockstep:
  // their windows fill in the same packet, one vector each.
  lemma {:induction false} PollRound(f: Fleet, events: Batch, ks: seq<SensorKey>, gathered: nat, window: nat,
      capacity: nat, hz: real)
    requires window >= 2 && hz > 0.0 && gathered < window && Distinct(ks) && Polls(events, ks)
    requires Lockstep(f, ks, gathered) || (Absent(f, ks) && gathered == 0 && |f.sensors| + |ks| <= capacity)
    ensures var f' := AbsorbAll(f, events, window, capacity, hz);
            && Lockstep(f', ks, Next(gathered, window))
            && |f'.pushed| == |f.pushed| + if gathered + 1 == window then |ks| else 0
  {
    PollPrefix(f, events, ks, |ks|, gathered, window, capacity, hz);
    assert events[..|ks|] == events && ks[..|ks|] == ks;
  }

  // The sensor table after a number of polls, from nothing.
  function AfterPolls(polls: seq<Batch>, window: nat, capacity: nat, hz: real): Fleet
    requires window >= 2 && hz > 0.0
  {
    if polls == [] then Fleet(map[], [])
    else AbsorbAll(AfterPolls(polls[..|polls| - 1], window, capacity, hz), polls[|polls| - 1], window, capacity, hz)
  }

  ghost predicate AllPoll(polls: seq<Batch>, ks: seq<SensorKey>)
  {
    forall i :: 0 <= i < |polls| ==> Polls(polls[i], ks)
  }

  lemma {:induction false} PollsGather(polls: seq<Batch>, ks: seq<SensorKey>, window: nat, capacity: nat, hz: real)
    requires window >= 2 && hz > 0.0 && Distinct(ks) && AllPoll(polls, ks) && |ks| <= capacity && 1 <= |polls| <= window
    ensures var f := AfterPolls(polls, window, capacity, hz);
            && Lockstep(f, ks, if |polls| == window then 0 else |polls|)
            && |f.pushed| == if |polls| == window then |ks| else 0
  {
    var n := |polls| - 1;
    if n == 0 {
      PollRound(Fleet(map[], []), polls[0], ks, 0, window, capacity, hz);
      assert polls[..0] == [];
    } else {
      PollsGather(polls[..n], ks, window, capacity, hz);
      PollRound(AfterPolls(polls[..n], window, capacity, hz), polls[n], ks, n, window, capacity, hz);
    }
  }

  // From an empty profile, a window's worth of polls of the same sensors: the
  // queue stays empty until the last one, which loses what exceeds the queue.
  lemma {:induction false} BurstLoses(polls: seq<Batch>, ks: seq<SensorKey>, window: nat, capacity: nat, hz: real)
    requires window >= 2 && hz > 0.0 && Distinct(ks) && AllPoll(polls, ks) && |ks| <= capacity && |polls| == window
    ensures AfterPolls(polls[..window - 1], window, capacity, hz).pushed == []
    ensures var out := AfterPolls(polls, window, capacity, hz).pushed;
            |out| == |ks| && Lost([], out) == if |ks| > QUEUE_SIZE then |ks| - QUEUE_SIZE else 0
  {
    PollsGather(polls[..window - 1], ks, window, capacity, hz);
    PollsGather(polls, ks, window, capacity, hz);
    var out := AfterPolls(polls, window, capacity, hz).pushed;
    assert [] + out == out;
  }

  // --- as packets -----------------------------------------------------------------

  // Every register holds something, so none is taken for the half of a pair.
  ghost predicate NoZeroes(data: seq<nat>, regs: nat)
    requires 2 * regs <= |data|
  {
    forall i: nat :: i < regs ==> Register(data, i) != 0
  }

  // Such a response yields one reading a register.
  lemma {:induction false} DecodeNonzero(data: seq<nat>, regs: nat, i: nat, start: nat)
    requires 2 * regs <= |data| && NoZeroes(data, regs) && i <= regs
    ensures var rs := DecodeFrom(data, regs, i, start);
            |rs| == regs - i && forall k :: 0 <= k < |rs| ==> IsAt(rs[k], i + k, start)
    decreases regs - i
  {
    if i < regs {
      DecodeNonzero(data, regs, i + 1, start);
      var rs := DecodeFrom(data, regs, i, start);
      assert forall k :: 1 <= k < |rs| ==> rs[k] == DecodeFrom(data, regs, i + 1, start)[k - 1];
    }
  }

  // What is polled: a transaction number, a unit's registers from start on, and
  // the port of the client.
  datatype Target = Target(trans: nat, unit: nat, start: nat, regs: nat, port: nat)

  // What one poll reads, and when.
  datatype Poll = Poll(data: seq<nat>, now: nat)

  // The sensors of the registers.
  function RangeKeys(g: Target): seq<SensorKey> {
    seq(g.regs, i => SensorKey(g.unit, (g.start + i) % U16))
  }

  lemma {:induction false} RangeDistinct(g: Target)
    requires g.regs <= U16
    ensures Distinct(RangeKeys(g))
  {
    var ks := RangeKeys(g);
    forall i, j | 0 <= i < j < |ks| ensures ks[i] != ks[j] {
      OffsetsDiffer(g.start, i, j);
    }
  }

  // A request for the range and its response, as payloads on the wire
  // (section 3.1.3 of MODBUS Messaging on TCP/IP Implementation Guide V1.0b).
  function RequestBytes(g: Target): seq<nat> {
    [g.trans / 256, g.trans % 256, 0, 0, 0, 6, g.unit, 3, g.start / 256, g.start % 256, g.regs / 256, g.regs % 256]
  }

  function ResponseBytes(g: Target, data: seq<nat>): seq<nat> {
    [g.trans / 256, g.trans % 256, 0, 0, (3 + 2 * g.regs) / 256, (3 + 2 * g.regs) % 256, g.unit, 3, 2 * g.regs] + data
  }

  // Fields that fit their places on the wire.
  predicate Fields(g: Target) { g.trans < U16 && g.unit < 256 && g.start < U16 && g.regs <= 127 }

  lemma {:induction false} PayloadBytes(g: Target, data: seq<nat>)
    requires Fields(g) && Bytes(data)
    ensures Bytes(RequestBytes(g)) && Bytes(ResponseBytes(g, data))
  {}

  function AskTurn(g: Target, p: Poll): Turn {
    Turn(Packet(g.port, MODBUS_PORT, RequestBytes(g)), p.now, true, _ => true)
  }

  function AnswerTurn(g: Target, p: Poll): Turn {
    Turn(Packet(MODBUS_PORT, g.port, ResponseBytes(g, p.data)), p.now, true, _ => true)
  }

  lemma {:induction false} PacketsClassified(g: Target, p: Poll)
    requires g.port != MODBUS_PORT
    ensures Classify(AskTurn(g, p).p, p.now)
         == Ask(Modbus.Request(Modbus.ReqKey(g.trans, g.unit), g.start, g.regs, p.now))
    ensures Classify(AnswerTurn(g, p).p, p.now) == Answer(Modbus.ReqKey(g.trans, g.unit), 2 * g.regs, p.data)
    ensures Fields(g) && Bytes(p.data) ==> Bytes(RequestBytes(g)) && Bytes(ResponseBytes(g, p.data))
  {
    var bytes := ResponseBytes(g, p.data);
    assert bytes[7..][2..] == p.data;
    if Fields(g) && Bytes(p.data) { PayloadBytes(g, p.data); }
  }

  function BatchOf(g: Target, p: Poll): Batch
    requires 2 * g.regs <= |p.data|
  {
    EventsOf(g.unit, DecodeFrom(p.data, g.regs, 0, g.start), p.now, _ => true)
  }

  ghost predicate FullPolls(polls: seq<Poll>, regs: nat) {
    forall i :: 0 <= i < |polls| ==> 2 * regs <= |polls[i].data| && NoZeroes(polls[i].data, regs)
  }

  lemma {:induction false} BatchPolls(g: Target, p: Poll)
    requires 2 * g.regs <= |p.data| && NoZeroes(p.data, g.regs)
    ensures Polls(BatchOf(g, p), RangeKeys(g))
  {
    DecodeNonzero(p.data, g.regs, 0, g.start);
    var rs := DecodeFrom(p.data, g.regs, 0, g.start);
    forall i | 0 <= i < g.regs ensures rs[i].reg == (g.start + i) % U16 {
      assert IsAt(rs[i], 0 + i, g.start);
    }
  }

  function BatchesOf(g: Target, polls: seq<Poll>): seq<Batch>
    requires FullPolls(polls, g.regs)
  {
    seq(|polls|, i requires 0 <= i < |polls| => BatchOf(g, polls[i]))
  }

  lemma {:induction false} BatchesPrefix(g: Target, polls: seq<Poll>, n: nat)
    requires FullPolls(polls, g.regs) && n <= |polls|
    ensures BatchesOf(g, polls[..n]) == BatchesOf(g, polls)[..n]
  {}

  lemma {:induction false} BatchesPoll(g: Target, polls: seq<Poll>)
    requires FullPolls(polls, g.regs)
    ensures AllPoll(BatchesOf(g, polls), RangeKeys(g))
  {
    forall i | 0 <= i < |polls| ensures Polls(BatchesOf(g, polls)[i], RangeKeys(g)) {
      BatchPolls(g, polls[i]);
    }
  }

  // The packets of the polls: request and response in turn.
  function PollTurns(g: Target, polls: seq<Poll>): seq<Turn> {
    if polls == [] then []
    else var p := polls[|polls| - 1]; PollTurns(g, polls[..|polls| - 1]) + [AskTurn(g, p)] + [AnswerTurn(g, p)]
  }

  lemma {:induction false} AskHeard(xs: seq<Turn>, g: Target, p: Poll)
    requires g.port != MODBUS_PORT && Requests(xs) == map[]
    ensures var key := Modbus.ReqKey(g.trans, g.unit);
            Requests(xs + [AskTurn(g, p)]) == map[key := Modbus.Request(key, g.start, g.regs, p.now)]
    ensures EventsIn(xs + [AskTurn(g, p)]) == EventsIn(xs)
  {
    TurnSnoc(xs, AskTurn(g, p));
    PacketsClassified(g, p);
    assert EventsIn(xs) + [] == EventsIn(xs);
  }

  lemma {:induction false} AnswerHeard(xs: seq<Turn>, g: Target, p: Poll)
    requires g.port != MODBUS_PORT && 2 * g.regs <= |p.data|
    requires var key := Modbus.ReqKey(g.trans, g.unit);
             Requests(xs).Keys == {key} && Requests(xs)[key].startAddr == g.start
    ensures Requests(xs + [AnswerTurn(g, p)]) == map[]
    ensures TurnEvents(Requests(xs), AnswerTurn(g, p)) == BatchOf(g, p)
    ensures EventsIn(xs + [AnswerTurn(g, p)]) == EventsIn(xs) + BatchOf(g, p)
  {
    TurnSnoc(xs, AnswerTurn(g, p));
    PacketsClassified(g, p);
    assert (2 * g.regs) / 2 == g.regs;
  }

  // Every poll is answered from its own request and leaves none on record.
  lemma {:induction false} PollsHeard(g: Target, polls: seq<Poll>, window: nat, capacity: nat, hz: real)
    requires window >= 2 && hz > 0.0 && g.port != MODBUS_PORT && FullPolls(polls, g.regs)
    ensures Requests(PollTurns(g, polls)) == map[]
    ensures FleetAfter(PollTurns(g, polls), window, capacity, hz)
         == AfterPolls(BatchesOf(g, polls), window, capacity, hz)
  {
    if polls != [] {
      var n := |polls| - 1;
      PollsHeard(g, polls[..n], window, capacity, hz);
      BatchesPrefix(g, polls, n);
      PollHeard(PollTurns(g, polls[..n]), g, polls[n], window, capacity, hz);
    }
  }

  lemma {:induction false} PollHeard(xs: seq<Turn>, g: Target, p: Poll, window: nat, capacity: nat, hz: real)
    requires window >= 2 && hz > 0.0 && g.port != MODBUS_PORT && 2 * g.regs <= |p.data| && Requests(xs) == map[]
    ensures var asked := xs + [AskTurn(g, p)];
            && Requests(asked + [AnswerTurn(g, p)]) == map[]
            && FleetAfter(asked, window, capacity, hz) == FleetAfter(xs, window, capacity, hz)
            && FleetAfter(asked + [AnswerTurn(g, p)], window, capacity, hz)
               == AbsorbAll(FleetAfter(xs, window, capacity, hz), BatchOf(g, p), window, capacity, hz)
  {
    var asked, b := xs + [AskTurn(g, p)], BatchOf(g, p);
    AskHeard(xs, g, p);
    AnswerHeard(asked, g, p);
    AbsorbJoin(Fleet(map[], []), EventsIn(xs), b, |b|, window, capacity, hz);
    assert b[..|b|] == b;
  }

  // Packets that read the same nonzero registers over and over: nothing is
  // queued until the response that fills the windows, which offers a vector
  // for each register and so loses all beyond the queue's size.
  lemma {:induction false} ResponseLoses(g: Target, polls: seq<Poll>, window: nat, capacity: nat, hz: real)
    requires window >= 2 && hz > 0.0 && g.port != MODBUS_PORT && FullPolls(polls, g.regs)
    requires g.regs <= 127 && g.regs <= capacity && |polls| == window
    ensures var xs := PollTurns(g, polls);
            && |xs| >= 1 && FleetAfter(xs[..|xs| - 1], window, capacity, hz).pushed == []
            && var out := OfferedBy(xs[..|xs| - 1], xs[|xs| - 1], window, capacity, hz);
               |out| == g.regs && Lost([], out) == if g.regs > QUEUE_SIZE then g.regs - QUEUE_SIZE else 0
  {
    var n, p := window - 1, polls[window - 1];
    var before := PollTurns(g, polls[..n]);
    var asked := before + [AskTurn(g, p)];
    BatchesPoll(g, polls);
    BatchesPrefix(g, polls, n);
    RangeDistinct(g);
    BurstLoses(BatchesOf(g, polls), RangeKeys(g), window, capacity, hz);
    PollsHeard(g, polls, window, capacity, hz);
    PollsHeard(g, polls[..n], window, capacity, hz);
    PollHeard(before, g, p, window, capacity, hz);
    FleetNext(asked, AnswerTurn(g, p), window, capacity, hz);
    LastTurn(asked, AnswerTurn(g, p));
    var out := OfferedBy(asked, AnswerTurn(g, p), window, capacity, hz);
    assert [] + out == out;
  }

  lemma {:induction false} LastTurn(xs: seq<Turn>, x: Turn)
    ensures var all := xs + [x]; all[..|all| - 1] == xs && all[|all| - 1] == x
  {}

  // --- the exact bound ------------------------------------------------------------

  // 65 registers that all hold one.
  const OVERFULL: Target := Target(0, 0, 0, QUEUE_SIZE + 1, 1024)

  function OnesData(): seq<nat> { seq(2 * (QUEUE_SIZE + 1), i => i % 2) }

  function OverfullPolls(n: nat): seq<Poll> { seq(n, _ => Poll(OnesData(), 0)) }

  lemma {:induction false} OverfullFull(n: nat)
    ensures FullPolls(OverfullPolls(n), OVERFULL.regs) && Bytes(OnesData())
  {}

  lemma {:induction false} PollTurnsNarrow(g: Target, polls: seq<Poll>, q: nat)
    requires Fields(g) && g.port != MODBUS_PORT && g.regs <= q
    requires forall i :: 0 <= i < |polls| ==> Bytes(polls[i].data)
    ensures Narrow(PollTurns(g, polls), q)
  {
    if polls != [] {
      var p := polls[|polls| - 1];
      PollTurnsNarrow(g, polls[..|polls| - 1], q);
      PacketsClassified(g, p);
      assert (2 * g.regs) / 2 == g.regs;
    }
  }

  lemma {:induction false} OverfullLoses(window: nat, capacity: nat, hz: real)
    requires window >= 2 && hz > 0.0 && capacity > QUEUE_SIZE
    ensures !NeverLoses(PollTurns(OVERFULL, OverfullPolls(window)), window, capacity, hz)
  {
    OverfullFull(window);
    ResponseLoses(OVERFULL, OverfullPolls(window), window, capacity, hz);
    var xs := PollTurns(OVERFULL, OverfullPolls(window));
    assert !Keeps(xs, |xs| - 1, window, capacity, hz);
  }

  // For every bound on the registers of a response, and every pool: no run ever
  // loses a vector, with the queue drained after each packet, exactly when the
  // bound or the pool is no larger than the queue.
  lemma {:induction false} NeverLosesIff(q: nat, window: nat, capacity: nat, hz: real)
    requires window >= 2 && hz > 0.0
    ensures (forall xs :: Narrow(xs, q) ==> NeverLoses(xs, window, capacity, hz))
       <==> q <= 64 || capacity <= 64
  {
    if q <= QUEUE_SIZE || capacity <= QUEUE_SIZE {
      forall xs | Narrow(xs, q) ensures NeverLoses(xs, window, capacity, hz) {
        NarrowNeverLoses(xs, q, window, capacity, hz);
      }
    } else {
      var xs := PollTurns(OVERFULL, OverfullPolls(window));
      OverfullFull(window);
      PollTurnsNarrow(OVERFULL, OverfullPolls(window), q);
      OverfullLoses(window, capacity, hz);
      assert Narrow(xs, q) && !NeverLoses(xs, window, capacity, hz);
    }
  }
}
