// What reaches the classifier: a flow profile behind its queue in the worker
// loop, on one worker of several.
module Delivery {
  import opened KeyedWindows
  import opened Rss
  import opened FeatureQueue
  import opened WindowTracker
  import opened Traffic
  import opened Sharding
  import opened Worker
  import opened Stats
  import Doh
  import Iot

  ghost predicate OffersAt<R>(bufs: seq<Mbuf<Vector>>, arrivals: seq<Arrival<R>>, i: nat, vec: seq<R> -> seq<real>,
      window: nat, capacity: nat)
    requires i < |bufs| && i < |arrivals|
  {
    bufs[i].offered == Offered(After(arrivals[..i], window, capacity), arrivals[i], vec, window, capacity)
  }

  // Each buffer offers what its packet makes the profile push.
  ghost predicate Carries<R>(bufs: seq<Mbuf<Vector>>, arrivals: seq<Arrival<R>>, vec: seq<R> -> seq<real>, window: nat,
      capacity: nat)
  {
    |bufs| == |arrivals| && forall i: nat :: i < |bufs| ==> OffersAt(bufs, arrivals, i, vec, window, capacity)
  }

  // The queue handed on exactly the vectors of the completed windows, in order.
  ghost predicate HandedOn<R>(bufs: seq<Mbuf<Vector>>, arrivals: seq<Arrival<R>>, vec: seq<R> -> seq<real>, window: nat,
      capacity: nat)
  {
    Handed(bufs) == Vectors(After(arrivals, window, capacity).emitted, vec) && Fits(bufs)
  }

  lemma {:induction false} HandedNext<R>(bufs: seq<Mbuf<Vector>>, m: Mbuf<Vector>, before: seq<Arrival<R>>,
      a: Arrival<R>, vec: seq<R> -> seq<real>, window: nat, capacity: nat)
    requires HandedOn(bufs, before, vec, window, capacity)
    requires m.offered == Offered(After(before, window, capacity), a, vec, window, capacity)
    ensures HandedOn(bufs + [m], before + [a], vec, window, capacity)
  {
    var w := After(before, window, capacity);
    OfferHanded(w, a, vec, window, capacity);
    OfferedIsEmitted(w, a, vec, window, capacity);
    AfterSnoc(before, a, window, capacity);
    FitsSnoc(bufs, m);
    HandedSnoc(bufs, m);
  }

  lemma {:induction false} HandedIsEmitted<R>(bufs: seq<Mbuf<Vector>>, arrivals: seq<Arrival<R>>,
      vec: seq<R> -> seq<real>, window: nat, capacity: nat, n: nat)
    requires Carries(bufs, arrivals, vec, window, capacity) && n <= |bufs|
    ensures HandedOn(bufs[..n], arrivals[..n], vec, window, capacity)
  {
    if n > 0 {
      var m := n - 1;
      HandedIsEmitted(bufs, arrivals, vec, window, capacity, m);
      assert OffersAt(bufs, arrivals, m, vec, window, capacity);
      HandedNext(bufs[..m], bufs[m], arrivals[..m], arrivals[m], vec, window, capacity);
      PrefixNext(bufs, m);
      PrefixNext(arrivals, m);
    }
  }

  const START: Journal<Vector> := Journal([], [], [], [], 0)

  // However packets come in bursts and whatever is dropped or transmitted: the
  // classifier gets every completed window's vector, and the queue loses none.
  lemma {:induction false} NothingLost<R>(cfg: Config<Vector>, bursts: seq<Burst<Vector>>, arrivals: seq<Arrival<R>>,
      vec: seq<R> -> seq<real>, window: nat, capacity: nat)
    requires Carries(Joined(bursts), arrivals, vec, window, capacity)
    ensures var j := RecordAll(cfg, START, bursts);
            j.lost == 0 && j.popped == Vectors(After(arrivals, window, capacity).emitted, vec)
  {
    var bufs, h := Joined(bursts), Handed(Joined(bursts));
    LoopHands(cfg, START, bursts);
    HandedIsEmitted(bufs, arrivals, vec, window, capacity, |bufs|);
    assert bufs[..|bufs|] == bufs && arrivals[..|bufs|] == arrivals && [] + h == h;
    LostIff(bufs);
  }

  // A connection's own worker, with room for the flows it gets, hands on the
  // vectors of the consecutive windows of all the connection's records, from
  // whichever direction; every other worker hands on none.
  lemma {:induction false} ConnectionDelivered<R>(cfg: Config<Vector>, bursts: seq<Burst<Vector>>,
      arrivals: seq<Arrival<R>>, table: seq<bool> -> nat, worker: nat, vec: seq<R> -> seq<real>, window: nat,
          capacity: nat, key: Key5)
    requires window >= 1 && Roomy(Events(Received(arrivals, table, worker)), capacity)
    requires Carries(Joined(bursts), Received(arrivals, table, worker), vec, window, capacity)
    ensures var j := RecordAll(cfg, START, bursts);
            && j.lost == 0
            && WindowVectors(ForKey(j.popped, key),
                             if worker == QueueOf(key, table) then Records(Events(arrivals), key) else [], vec, window)
  {
    var own := Received(arrivals, table, worker);
    NothingLost(cfg, bursts, own, vec, window, capacity);
    RoomyVectors(own, vec, window, capacity, key);
    if worker == QueueOf(key, table) {
      OwnWorkerHasAll(arrivals, table, key);
    } else {
      OtherWorkersSilent(arrivals, table, worker, key);
    }
  }

  // --- the two profiles --------------------------------------------------------

  ghost predicate DohWindow(x: seq<real>, r: seq<Doh.Rec>, i: nat, window: nat) {
    && 0 <= i * window <= i * window + window <= |r|
    && Doh.IsBatch(x, r[i * window..i * window + window]) && Doh.ValidateDoh(x, window)
  }

  lemma {:induction false} DohChunk(r: seq<Doh.Rec>, i: nat, window: nat, x: seq<real>)
    requires 1 <= window < U16 && IsWindowVector(x, r, i, Doh.VectorOf, window)
    requires forall k :: 0 <= k < |r| ==> r[k].len < U16
    ensures DohWindow(x, r, i, window)
  {
    var chunk := r[i * window..i * window + window];
    Doh.FeaturesAreBatch(chunk);
    Doh.BatchValidates(x, chunk, window);
  }

  // DNS over HTTPS: what the classifier gets for a connection are the batch
  // features of the connection's consecutive windows, each meeting the contract.
  lemma {:induction false} DohDelivered(cfg: Config<Vector>, bursts: seq<Burst<Vector>>,
      arrivals: seq<Arrival<Doh.Rec>>, table: seq<bool> -> nat, window: nat, capacity: nat, key: Key5)
    requires 1 <= window < U16 && Roomy(Events(Received(arrivals, table, QueueOf(key, table))), capacity)
    requires forall e :: e in Events(arrivals) ==> e.rec.len < U16
    requires Carries(Joined(bursts), Received(arrivals, table, QueueOf(key, table)), Doh.VectorOf, window, capacity)
    ensures var j, r := RecordAll(cfg, START, bursts), Records(Events(arrivals), key);
            var v := ForKey(j.popped, key);
            j.lost == 0 && |v| == |r| / window && forall i: nat :: i < |v| ==> DohWindow(v[i], r, i, window)
  {
    ConnectionDelivered(cfg, bursts, arrivals, table, QueueOf(key, table), Doh.VectorOf, window, capacity, key);
    Doh.RecordsInRange(Events(arrivals), key);
    var v, r := ForKey(RecordAll(cfg, START, bursts).popped, key), Records(Events(arrivals), key);
    forall i: nat | i < |v| ensures DohWindow(v[i], r, i, window) {
      assert IsWindowVector(v[i], r, i, Doh.VectorOf, window);
      DohChunk(r, i, window, v[i]);
    }
  }

  ghost predicate IotWindow(x: seq<real>, r: seq<Iot.Rec>, i: nat, hz: real, window: nat)
    requires hz > 0.0 && window >= 1
  {
    && 0 <= i * window <= i * window + window <= |r| && |x| == 8
    && var chunk := r[i * window..i * window + window];
       && (Iot.IsBatch(x, chunk, hz) <==> Iot.WithinTurn(chunk) && Iot.Gaps(chunk) != [U64 - 1])
       && (Iot.WithinTurn(chunk) ==> Iot.ValidateIot(x))
  }

  lemma {:induction false} IotChunk(r: seq<Iot.Rec>, i: nat, hz: real, window: nat, x: seq<real>)
    requires 1 <= window < U16 && hz > 0.0 && IsWindowVector(x, r, i, Iot.VectorOf(hz), window)
    requires forall k :: 0 <= k < |r| ==> Iot.InRange(r[k])
    ensures IotWindow(x, r, i, hz, window)
  {
    var chunk := r[i * window..i * window + window];
    Iot.FeaturesExactIff(chunk, hz);
    if Iot.WithinTurn(chunk) { Iot.WithinTurnValidates(chunk, hz); }
  }

  // IoT: the same, exactly for the windows that span less than one turn of the
  // clock, and these meet the contract.
  lemma {:induction false} IotDelivered(cfg: Config<Vector>, bursts: seq<Burst<Vector>>,
      arrivals: seq<Arrival<Iot.Rec>>, table: seq<bool> -> nat, window: nat, capacity: nat, key: Key5, hz: real)
    requires 1 <= window < U16 && hz > 0.0 && Roomy(Events(Received(arrivals, table, QueueOf(key, table))), capacity)
    requires forall e :: e in Events(arrivals) ==> Iot.InRange(e.rec)
    requires Carries(Joined(bursts), Received(arrivals, table, QueueOf(key, table)), Iot.VectorOf(hz), window, capacity)
    ensures var j, r := RecordAll(cfg, START, bursts), Records(Events(arrivals), key);
            var v := ForKey(j.popped, key);
            j.lost == 0 && |v| == |r| / window && forall i: nat :: i < |v| ==> IotWindow(v[i], r, i, hz, window)
  {
    var vec := Iot.VectorOf(hz);
    ConnectionDelivered(cfg, bursts, arrivals, table, QueueOf(key, table), vec, window, capacity, key);
    Iot.RecordsInRange(Events(arrivals), key);
    var v, r := ForKey(RecordAll(cfg, START, bursts).popped, key), Records(Events(arrivals), key);
    forall i: nat | i < |v| ensures IotWindow(v[i], r, i, hz, window) {
      assert IsWindowVector(v[i], r, i, vec, window);
      IotChunk(r, i, hz, window, v[i]);
    }
  }

  // With a clock that never runs backwards every window qualifies.
  lemma {:induction false} ForwardClockQualifies(events: seq<Event<Key5, Iot.Rec>>, key: Key5, i: nat, window: nat)
    requires window >= 1 && forall a, b :: 0 <= a <= b < |events| ==> events[a].rec.now <= events[b].rec.now
    requires forall e :: e in events ==> Iot.InRange(e.rec) && e.rec.now < U64 - 1
    requires 0 <= i * window <= i * window + window <= |Records(events, key)|
    ensures var chunk := Records(events, key)[i * window..i * window + window];
            Iot.WithinTurn(chunk) && Iot.Gaps(chunk) != [U64 - 1]
  {
    Iot.RecordsOrdered(events, key);
    Iot.RecordsInRange(events, key);
    Iot.ForwardWithinTurn(Records(events, key)[i * window..i * window + window]);
  }
}
