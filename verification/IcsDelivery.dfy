// What reaches the classifier from the ICS profile behind its queue.
module IcsDelivery {
  import opened KeyedWindows
  import opened FeatureQueue
  import opened Sensor
  import opened IcsProfile
  import opened IcsRuns
  import opened Worker

  const START: Journal<Vec> := Journal([], [], [], [], 0)

  ghost predicate OffersAt(bufs: seq<Mbuf<Vec>>, xs: seq<Turn>, i: nat, window: nat, capacity: nat, hz: real)
    requires window >= 2 && hz > 0.0 && i < |bufs| && i < |xs|
  {
    bufs[i].offered == OfferedBy(xs[..i], xs[i], window, capacity, hz)
  }

  // Each buffer offers what its packet makes the profile push.
  ghost predicate Carries(bufs: seq<Mbuf<Vec>>, xs: seq<Turn>, window: nat, capacity: nat, hz: real)
    requires window >= 2 && hz > 0.0
  {
    |bufs| == |xs| && forall i: nat :: i < |bufs| ==> OffersAt(bufs, xs, i, window, capacity, hz)
  }

  lemma {:induction false} NoneLostIff(v: seq<Vec>)
    ensures Lost([], v) == 0 <==> |v| <= QUEUE_SIZE
    ensures |v| <= QUEUE_SIZE ==> Kept([], v) == v
  {
    assert [] + v == v;
  }

  lemma {:induction false} FitsIff(bufs: seq<Mbuf<Vec>>, xs: seq<Turn>, window: nat, capacity: nat, hz: real)
    requires window >= 2 && hz > 0.0 && Carries(bufs, xs, window, capacity, hz)
    ensures Fits(bufs) <==> NeverLoses(xs, window, capacity, hz)
  {
    forall n: nat | n < |xs| ensures Keeps(xs, n, window, capacity, hz) <==> |bufs[n].offered| <= QUEUE_SIZE {
      assert OffersAt(bufs, xs, n, window, capacity, hz);
      NoneLostIff(bufs[n].offered);
    }
  }

  lemma {:induction false} HandedNext(bufs: seq<Mbuf<Vec>>, m: Mbuf<Vec>, xs: seq<Turn>, x: Turn,
      window: nat, capacity: nat, hz: real)
    requires window >= 2 && hz > 0.0 && Handed(bufs) == FleetAfter(xs, window, capacity, hz).pushed
    requires m.offered == OfferedBy(xs, x, window, capacity, hz) && |m.offered| <= QUEUE_SIZE
    ensures Handed(bufs + [m]) == FleetAfter(xs + [x], window, capacity, hz).pushed
  {
    HandedSnoc(bufs, m);
    NoneLostIff(m.offered);
    FleetNext(xs, x, window, capacity, hz);
  }

  lemma {:induction false} HandedIsPushed(bufs: seq<Mbuf<Vec>>, xs: seq<Turn>, n: nat, window: nat, capacity: nat,
      hz: real)
    requires window >= 2 && hz > 0.0 && Carries(bufs, xs, window, capacity, hz) && Fits(bufs) && n <= |bufs|
    ensures Handed(bufs[..n]) == FleetAfter(xs[..n], window, capacity, hz).pushed
  {
    if n > 0 {
      var m := n - 1;
      HandedIsPushed(bufs, xs, m, window, capacity, hz);
      assert OffersAt(bufs, xs, m, window, capacity, hz);
      HandedNext(bufs[..m], bufs[m], xs[..m], xs[m], window, capacity, hz);
      PrefixNext(bufs, m);
      PrefixNext(xs, m);
    }
  }

  // However packets come in bursts: vectors are lost exactly when some packet
  // offers more than the queue holds; if none does, all are popped in order.
  lemma {:induction false} LostExactly(cfg: Config<Vec>, bursts: seq<Burst<Vec>>, xs: seq<Turn>,
      window: nat, capacity: nat, hz: real)
    requires window >= 2 && hz > 0.0 && Carries(Joined(bursts), xs, window, capacity, hz)
    ensures var j := RecordAll(cfg, START, bursts);
            && (j.lost == 0 <==> NeverLoses(xs, window, capacity, hz))
            && (j.lost == 0 ==> j.popped == FleetAfter(xs, window, capacity, hz).pushed)
  {
    var bufs := Joined(bursts);
    LoopLosesIff(cfg, START, bursts);
    FitsIff(bufs, xs, window, capacity, hz);
    if Fits(bufs) {
      LoopHands(cfg, START, bursts);
      HandedIsPushed(bufs, xs, |bufs|, window, capacity, hz);
      assert bufs[..|bufs|] == bufs && xs[..|xs|] == xs && [] + Handed(bufs) == Handed(bufs);
    }
  }

  // --- with a bound on the registers -------------------------------------------------

  // When no response carries more registers than the queue holds, or the pool
  // is no larger: nothing is lost, and the vectors popped for a sensor are those
  // of its consecutive windows, each meeting the contract.
  lemma {:induction false} IcsDelivered(cfg: Config<Vec>, bursts: seq<Burst<Vec>>, xs: seq<Turn>, q: nat,
      window: nat, capacity: nat, hz: real, key: SensorKey, first: int)
    requires window >= 2 && hz > 0.0 && Real(xs) && Carries(Joined(bursts), xs, window, capacity, hz)
    requires Narrow(xs, q) && (q <= QUEUE_SIZE || capacity <= QUEUE_SIZE)
    requires var a := Accepted(EventsIn(xs), key, window, capacity); a != [] ==> first == a[0].reading
    ensures var j, es := RecordAll(cfg, START, bursts), EventsIn(xs);
            var chunks := Mine(Run(es, window, capacity).emitted, key);
            && j.lost == 0 && AllFull(chunks)
            && Delivered(ForKey(j.popped, key), chunks, Accepted(es, key, window, capacity), first, window, hz)
  {
    NarrowNeverLoses(xs, q, window, capacity, hz);
    LostExactly(cfg, bursts, xs, window, capacity, hz);
    SensorDelivered(xs, window, capacity, hz, key, first);
  }

  // --- the loop over a real profile --------------------------------------------------

  // One packet, with the queue drained after it.
  method IcsPacket(t: Profile, x: Turn, ghost before: seq<Turn>) returns (popped: seq<Vec>)
    requires t.Valid() && t.q.contents == [] && t.tracker.pool.Length == REQUESTS
    requires t.tracker.table == Requests(before)
    requires t.fleet.table == FleetAfter(before, t.window, t.fleet.entries.Length, t.hz).sensors
    modifies t, t.tracker, t.tracker.pool, t.tracker.freeStack, t.fleet, t.fleet.entries, t.q, t.q.items
    ensures t.Valid() && t.q.contents == [] && t.tracker.table == Requests(before + [x])
    ensures t.fleet.table == FleetAfter(before + [x], t.window, t.fleet.entries.Length, t.hz).sensors
    ensures var offered := OfferedBy(before, x, t.window, t.fleet.entries.Length, t.hz);
            popped == Kept([], offered) && t.q.dropped == old(t.q.dropped) + Lost([], offered)
  {
    TurnSnoc(before, x);
    SensorsNext(before, x, t.window, t.fleet.entries.Length, t.hz);
    t.ProcessPacket(x.p, x.now, x.reqOk, x.oks);
    popped := NextFeatures(t.q);
  }

  lemma {:induction false} SensorsNext(xs: seq<Turn>, x: Turn, window: nat, capacity: nat, hz: real)
    requires window >= 2 && hz > 0.0
    ensures FleetAfter(xs + [x], window, capacity, hz).sensors
         == AbsorbAll(Fleet(FleetAfter(xs, window, capacity, hz).sensors, []), TurnEvents(Requests(xs), x),
                      window, capacity, hz).sensors
  {
    var b := TurnEvents(Requests(xs), x);
    TurnSnoc(xs, x);
    AbsorbJoin(Fleet(map[], []), EventsIn(xs), b, |b|, window, capacity, hz);
    assert b[..|b|] == b;
    PushesAppend(FleetAfter(xs, window, capacity, hz), b, window, capacity, hz);
  }

  lemma {:induction false} PoppedNext(xs: seq<Turn>, n: nat, popped: seq<Vec>, window: nat, capacity: nat, hz: real)
    requires window >= 2 && hz > 0.0 && n < |xs| && NeverLoses(xs, window, capacity, hz)
    requires popped == FleetAfter(xs[..n], window, capacity, hz).pushed
    ensures var offered := OfferedBy(xs[..n], xs[n], window, capacity, hz);
            Lost([], offered) == 0 && popped + Kept([], offered) == FleetAfter(xs[..n + 1], window, capacity, hz).pushed
  {
    assert Keeps(xs, n, window, capacity, hz);
    NoneLostIff(OfferedBy(xs[..n], xs[n], window, capacity, hz));
    PrefixNext(xs, n);
    FleetNext(xs[..n], xs[n], window, capacity, hz);
  }

  // Packet by packet from an empty profile: its tables are those of the run,
  // and when no packet overfills the queue every vector pushed is popped.
  method ServeIcs(t: Profile, xs: seq<Turn>) returns (popped: seq<Vec>)
    requires t.Valid() && t.q.contents == [] && t.tracker.pool.Length == REQUESTS
    requires t.tracker.table == map[] && t.fleet.table == map[]
    modifies t, t.tracker, t.tracker.pool, t.tracker.freeStack, t.fleet, t.fleet.entries, t.q, t.q.items
    ensures t.Valid() && t.q.contents == [] && t.tracker.table == Requests(xs)
    ensures t.fleet.table == FleetAfter(xs, t.window, t.fleet.entries.Length, t.hz).sensors
    ensures NeverLoses(xs, t.window, t.fleet.entries.Length, t.hz) ==>
              && popped == FleetAfter(xs, t.window, t.fleet.entries.Length, t.hz).pushed
              && t.q.dropped == old(t.q.dropped)
  {
    popped := [];
    ghost var capacity := t.fleet.entries.Length;
    for i := 0 to |xs|
      invariant t.Valid() && t.q.contents == [] && t.tracker.table == Requests(xs[..i])
      invariant t.fleet.table == FleetAfter(xs[..i], t.window, capacity, t.hz).sensors
      invariant NeverLoses(xs, t.window, capacity, t.hz) ==>
                  && popped == FleetAfter(xs[..i], t.window, capacity, t.hz).pushed
                  && t.q.dropped == old(t.q.dropped)
    {
      PrefixNext(xs, i);
      if NeverLoses(xs, t.window, capacity, t.hz) {
        PoppedNext(xs, i, popped, t.window, capacity, t.hz);
      }
      var more := IcsPacket(t, xs[i], xs[..i]);
      popped := popped + more;
    }
    assert xs[..|xs|] == xs;
  }
}
