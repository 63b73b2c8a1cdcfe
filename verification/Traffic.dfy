// What arrives at a flow profile, and what each packet puts on its queue.
module Traffic {
  import opened LinearLayer
  import opened KeyedWindows
  import opened Rss
  import opened FeatureQueue
  import opened WindowTracker

  // A packet's addresses and ports as received, and its record, if it has one.
  datatype Arrival<R> = Arrival(raw: Key5, rec: Option<R>, insertOk: bool)

  function EventsOf<R>(a: Arrival<R>): seq<Event<Key5, R>> {
    match a.rec
    case None => []
    case Some(r) => [Event(Canonicalize(a.raw), r, a.insertOk)]
  }

  // Window events of the packets, in arrival order.
  function Events<R>(arrivals: seq<Arrival<R>>): seq<Event<Key5, R>> {
    if arrivals == [] then [] else Events(arrivals[..|arrivals| - 1]) + EventsOf(arrivals[|arrivals| - 1])
  }

  function Take<R>(w: Win<Key5, R>, a: Arrival<R>, window: nat, capacity: nat): Win<Key5, R> {
    if EventsOf(a) == [] then w else Feed(w, EventsOf(a)[0], window, capacity)
  }

  // At most one vector a packet: that of the window it completes.
  function Offered<R>(w: Win<Key5, R>, a: Arrival<R>, vec: seq<R> -> seq<real>, window: nat, capacity: nat): seq<Vector>
  {
    if EventsOf(a) == [] then []
    else var e := EventsOf(a)[0];
         if Completes(w, e, window, capacity) then [(vec(Chunk(w, e)), e.key)] else []
  }

  function After<R>(arrivals: seq<Arrival<R>>, window: nat, capacity: nat): Win<Key5, R> {
    Run(Events(arrivals), window, capacity)
  }

  lemma {:induction false} AfterSnoc<R>(arrivals: seq<Arrival<R>>, a: Arrival<R>, window: nat, capacity: nat)
    ensures After(arrivals + [a], window, capacity) == Take(After(arrivals, window, capacity), a, window, capacity)
  {
    assert (arrivals + [a])[..|arrivals|] == arrivals;
    var es := Events(arrivals);
    if EventsOf(a) == [] {
      assert es + [] == es;
    } else {
      assert (es + EventsOf(a))[..|es|] == es;
    }
  }

  lemma {:induction false} OfferHanded<R>(w: Win<Key5, R>, a: Arrival<R>, vec: seq<R> -> seq<real>, window: nat,
      capacity: nat)
    ensures var o := Offered(w, a, vec, window, capacity);
            |o| <= QUEUE_SIZE && Kept([], o) == o && Lost([], o) == 0
  {
    var o := Offered(w, a, vec, window, capacity);
    assert [] + o == o;
  }

  // The vectors of emitted windows.
  function Vectors<R>(emitted: seq<(Key5, seq<R>)>, vec: seq<R> -> seq<real>): seq<Vector> {
    if emitted == [] then []
    else var e := emitted[|emitted| - 1]; Vectors(emitted[..|emitted| - 1], vec) + [(vec(e.1), e.0)]
  }

  lemma {:induction false} OfferedIsEmitted<R>(w: Win<Key5, R>, a: Arrival<R>, vec: seq<R> -> seq<real>, window: nat,
      capacity: nat)
    ensures Vectors(Take(w, a, window, capacity).emitted, vec)
         == Vectors(w.emitted, vec) + Offered(w, a, vec, window, capacity)
  {
    if EventsOf(a) != [] {
      var e := EventsOf(a)[0];
      if Completes(w, e, window, capacity) {
        assert (w.emitted + [(e.key, Chunk(w, e))])[..|w.emitted|] == w.emitted;
      }
    }
  }

  // A key's vectors are those of its own windows, in order.
  lemma {:induction false} VectorsFor<R>(emitted: seq<(Key5, seq<R>)>, vec: seq<R> -> seq<real>, key: Key5)
    ensures var m, v := Mine(emitted, key), ForKey(Vectors(emitted, vec), key);
            |v| == |m| && forall i :: 0 <= i < |v| ==> v[i] == vec(m[i])
  {
    if emitted != [] {
      var before, e := emitted[..|emitted| - 1], emitted[|emitted| - 1];
      VectorsFor(before, vec, key);
      ForKeySnoc(Vectors(before, vec), (vec(e.1), e.0), key);
    }
  }

  // v are the vectors of the consecutive windows of r, as many as fit.
  ghost predicate WindowVectors<R>(v: seq<seq<real>>, r: seq<R>, vec: seq<R> -> seq<real>, window: nat)
    requires window >= 1
  {
    && |v| == |r| / window
    && forall i: nat :: i < |v| ==> IsWindowVector(v[i], r, i, vec, window)
  }

  ghost predicate IsWindowVector<R>(x: seq<real>, r: seq<R>, i: nat, vec: seq<R> -> seq<real>, window: nat) {
    0 <= i * window <= i * window + window <= |r| && x == vec(r[i * window..i * window + window])
  }

  // With room for every key, the vectors of a key are those of the consecutive
  // windows of all its records.
  lemma {:induction false} RoomyVectors<R>(arrivals: seq<Arrival<R>>, vec: seq<R> -> seq<real>, window: nat,
      capacity: nat, key: Key5)
    requires window >= 1 && Roomy(Events(arrivals), capacity)
    ensures WindowVectors(ForKey(Vectors(After(arrivals, window, capacity).emitted, vec), key),
                          Records(Events(arrivals), key), vec, window)
  {
    var emitted, r := After(arrivals, window, capacity).emitted, Records(Events(arrivals), key);
    VectorsFor(emitted, vec, key);
    WindowsOfKey(Events(arrivals), window, capacity, key);
    RoomyAccepts(Events(arrivals), window, capacity, key);
    var v := ForKey(Vectors(emitted, vec), key);
    forall i: nat | i < |v| ensures IsWindowVector(v[i], r, i, vec, window) {
      assert v[i] == vec(Mine(emitted, key)[i]);
    }
  }

  // The tracker has taken these packets, and the worker all of their vectors.
  ghost predicate Served<R(!new), E>(t: Tracker<R, E>, arrivals: seq<Arrival<R>>, vec: seq<R> -> seq<real>,
      popped: seq<Vector>)
    reads t, t.flows, t.q
  {
    && t.q.contents == [] && t.win == After(arrivals, t.window, t.flows.entries.Length)
    && popped == Vectors(t.win.emitted, vec)
  }

  lemma {:induction false} ServedNext<R>(arrivals: seq<Arrival<R>>, a: Arrival<R>, w: Win<Key5, R>,
      vec: seq<R> -> seq<real>, window: nat, capacity: nat)
    requires w == After(arrivals, window, capacity)
    ensures var w', offered := Take(w, a, window, capacity), Offered(w, a, vec, window, capacity);
            && w' == After(arrivals + [a], window, capacity) && Lost([], offered) == 0
            && Vectors(w'.emitted, vec) == Vectors(w.emitted, vec) + Kept([], offered)
  {
    AfterSnoc(arrivals, a, window, capacity);
    OfferHanded(w, a, vec, window, capacity);
    OfferedIsEmitted(w, a, vec, window, capacity);
  }
}
