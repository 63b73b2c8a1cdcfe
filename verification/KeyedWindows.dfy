// What a per-key window tracker means: each key's accepted records, cut into
// consecutive chunks of the window length, whatever the interleaving.
module KeyedWindows {
  import opened Arithmetic

  // A record for a key; insertOk says whether the hash would accept a new key.
  datatype Event<K, R> = Event(key: K, rec: R, insertOk: bool)

  // Records gathered since the last emission, and the chunks emitted so far.
  datatype Win<K, R> = Win(open: map<K, seq<R>>, emitted: seq<(K, seq<R>)>)

  predicate Admits<K, R>(w: Win<K, R>, e: Event<K, R>, capacity: nat) {
    e.key in w.open || (|w.open| < capacity && e.insertOk)
  }

  function Chunk<K, R>(w: Win<K, R>, e: Event<K, R>): seq<R> {
    (if e.key in w.open then w.open[e.key] else []) + [e.rec]
  }

  function Feed<K, R>(w: Win<K, R>, e: Event<K, R>, window: nat, capacity: nat): Win<K, R> {
    if !Admits(w, e, capacity) then w
    else
      var chunk := Chunk(w, e);
      if |chunk| >= window then Win(w.open[e.key := []], w.emitted + [(e.key, chunk)])
      else Win(w.open[e.key := chunk], w.emitted)
  }

  function Run<K, R>(events: seq<Event<K, R>>, window: nat, capacity: nat): Win<K, R> {
    if events == [] then Win(map[], [])
    else Feed(Run(events[..|events| - 1], window, capacity), events[|events| - 1], window, capacity)
  }

  // The chunks emitted for one key, in order.
  function Mine<K(==), R>(emitted: seq<(K, seq<R>)>, key: K): seq<seq<R>> {
    if emitted == [] then []
    else var e := emitted[|emitted| - 1];
         Mine(emitted[..|emitted| - 1], key) + if e.0 == key then [e.1] else []
  }

  // The vectors labelled with a key, in order.
  function ForKey<K(==)>(vectors: seq<(seq<real>, K)>, key: K): seq<seq<real>> {
    if vectors == [] then []
    else var v := vectors[|vectors| - 1];
         ForKey(vectors[..|vectors| - 1], key) + if v.1 == key then [v.0] else []
  }

  lemma {:induction false} ForKeySnoc<K>(vectors: seq<(seq<real>, K)>, v: (seq<real>, K), key: K)
    ensures ForKey(vectors + [v], key) == ForKey(vectors, key) + if v.1 == key then [v.0] else []
  {
    assert (vectors + [v])[..|vectors|] == vectors;
  }

  // All records of a key.
  function Records<K(==), R>(events: seq<Event<K, R>>, key: K): seq<R> {
    if events == [] then []
    else var e := events[|events| - 1];
         Records(events[..|events| - 1], key) + if e.key == key then [e.rec] else []
  }

  // The records of a key that found the key in the table or could add it.
  function Accepted<K(==), R>(events: seq<Event<K, R>>, key: K, window: nat, capacity: nat): seq<R> {
    if events == [] then []
    else var before, e := events[..|events| - 1], events[|events| - 1];
         Accepted(before, key, window, capacity)
         + if e.key == key && Admits(Run(before, window, capacity), e, capacity) then [e.rec] else []
  }

  function OpenOf<K, R>(w: Win<K, R>, key: K): seq<R> {
    if key in w.open then w.open[key] else []
  }

  // chunks are s cut every window records, with rest left over.
  ghost predicate Cut<R>(s: seq<R>, chunks: seq<seq<R>>, rest: seq<R>, window: nat) {
    if chunks == [] then s == rest
    else |chunks[0]| == window && chunks[0] <= s && Cut(s[window..], chunks[1..], rest, window)
  }

  lemma {:induction false} CutGrows<R>(s: seq<R>, chunks: seq<seq<R>>, rest: seq<R>, window: nat, r: R)
    requires Cut(s, chunks, rest, window)
    ensures Cut(s + [r], chunks, rest + [r], window)
  {
    if chunks != [] {
      CutGrows(s[window..], chunks[1..], rest, window, r);
      assert (s + [r])[window..] == s[window..] + [r];
    }
  }

  lemma {:induction false} CutCloses<R>(s: seq<R>, chunks: seq<seq<R>>, rest: seq<R>, window: nat)
    requires Cut(s, chunks, rest, window) && |rest| == window
    ensures Cut(s, chunks + [rest], [], window)
  {
    if chunks == [] {
      assert s[window..] == [];
    } else {
      CutCloses(s[window..], chunks[1..], rest, window);
      assert (chunks + [rest])[1..] == chunks[1..] + [rest];
    }
  }

  // Consecutive windows, one after another, and nothing between them.
  lemma {:induction false} CutSlices<R>(s: seq<R>, chunks: seq<seq<R>>, rest: seq<R>, window: nat, i: nat)
    requires Cut(s, chunks, rest, window) && i < |chunks|
    ensures 0 <= i * window <= i * window + window <= |s| && chunks[i] == s[i * window..i * window + window]
  {
    if i > 0 {
      CutSlices(s[window..], chunks[1..], rest, window, i - 1);
      assert (i - 1) * window + window == i * window;
      assert s[window..][(i - 1) * window..i * window] == s[i * window..i * window + window];
    }
  }

  lemma {:induction false} CutLength<R>(s: seq<R>, chunks: seq<seq<R>>, rest: seq<R>, window: nat)
    requires Cut(s, chunks, rest, window)
    ensures |s| == |chunks| * window + |rest|
  {
    if chunks != [] { CutLength(s[window..], chunks[1..], rest, window); }
  }

  lemma {:induction false} MineSnoc<K, R>(emitted: seq<(K, seq<R>)>, k: K, chunk: seq<R>, key: K)
    ensures Mine(emitted + [(k, chunk)], key) == Mine(emitted, key) + if k == key then [chunk] else []
  {
    assert (emitted + [(k, chunk)])[..|emitted|] == emitted;
  }

  lemma {:induction false} FeedOther<K, R>(w: Win<K, R>, e: Event<K, R>, window: nat, capacity: nat, key: K)
    requires e.key != key || !Admits(w, e, capacity)
    ensures var w' := Feed(w, e, window, capacity);
            Mine(w'.emitted, key) == Mine(w.emitted, key) && OpenOf(w', key) == OpenOf(w, key)
  {
    MineSnoc(w.emitted, e.key, Chunk(w, e), key);
  }

  // One step of the tracker keeps the cut of every key.
  lemma {:induction false} FeedCuts<K, R>(w: Win<K, R>, e: Event<K, R>, window: nat, capacity: nat, key: K, acc: seq<R>)
    requires window >= 1
    requires Cut(acc, Mine(w.emitted, key), OpenOf(w, key), window) && |OpenOf(w, key)| < window
    ensures var w' := Feed(w, e, window, capacity);
            var acc' := acc + if e.key == key && Admits(w, e, capacity) then [e.rec] else [];
            Cut(acc', Mine(w'.emitted, key), OpenOf(w', key), window) && |OpenOf(w', key)| < window
  {
    if e.key == key && Admits(w, e, capacity) {
      var chunk := Chunk(w, e);
      CutGrows(acc, Mine(w.emitted, key), OpenOf(w, key), window, e.rec);
      MineSnoc(w.emitted, e.key, chunk, key);
      if |chunk| >= window {
        CutCloses(acc + [e.rec], Mine(w.emitted, key), chunk, window);
      }
    } else {
      assert acc + [] == acc;
      FeedOther(w, e, window, capacity, key);
    }
  }

  lemma {:induction false} RunCuts<K, R>(events: seq<Event<K, R>>, window: nat, capacity: nat, key: K)
    requires window >= 1
    ensures var w := Run(events, window, capacity);
            Cut(Accepted(events, key, window, capacity), Mine(w.emitted, key), OpenOf(w, key), window)
            && |OpenOf(w, key)| < window
  {
    if events != [] {
      var before := events[..|events| - 1];
      RunCuts(before, window, capacity, key);
      FeedCuts(Run(before, window, capacity), events[|events| - 1], window, capacity, key,
               Accepted(before, key, window, capacity));
    }
  }

  // For any interleaving of keys: the chunks emitted for a key are the
  // consecutive windows of its accepted records, as many as fit.
  lemma {:induction false} WindowsOfKey<K, R>(events: seq<Event<K, R>>, window: nat, capacity: nat, key: K)
    requires window >= 1
    ensures var a, m := Accepted(events, key, window, capacity), Mine(Run(events, window, capacity).emitted, key);
            && |m| == |a| / window
            && forall i: nat :: i < |m| ==>
                 0 <= i * window <= i * window + window <= |a| && m[i] == a[i * window..i * window + window]
  {
    RunCuts(events, window, capacity, key);
    var w := Run(events, window, capacity);
    var a, m := Accepted(events, key, window, capacity), Mine(w.emitted, key);
    CutLength(a, m, OpenOf(w, key), window);
    FloorOf(|a|, |m|, |OpenOf(w, key)|, window);
    forall i: nat | i < |m|
      ensures 0 <= i * window <= i * window + window <= |a| && m[i] == a[i * window..i * window + window]
    {
      CutSlices(a, m, OpenOf(w, key), window, i);
    }
  }

  // --- when nothing is refused ---------------------------------------------

  function Keys<K(==), R>(events: seq<Event<K, R>>): set<K> {
    if events == [] then {} else Keys(events[..|events| - 1]) + {events[|events| - 1].key}
  }

  ghost predicate Willing<K, R>(events: seq<Event<K, R>>) {
    forall i :: 0 <= i < |events| ==> events[i].insertOk
  }

  // The pool is large enough for every key, and the hash never fails.
  ghost predicate Roomy<K, R>(events: seq<Event<K, R>>, capacity: nat) {
    |Keys(events)| <= capacity && Willing(events)
  }

  lemma {:induction false} OpenKeys<K, R>(events: seq<Event<K, R>>, window: nat, capacity: nat)
    ensures Run(events, window, capacity).open.Keys <= Keys(events)
  {
    if events != [] { OpenKeys(events[..|events| - 1], window, capacity); }
  }

  lemma {:induction false} SubsetCard<K>(a: set<K>, b: set<K>)
    requires a <= b
    ensures |a| <= |b|
  {
    assert b == a + (b - a);
  }

  lemma {:induction false} RoomyAccepts<K, R>(events: seq<Event<K, R>>, window: nat, capacity: nat, key: K)
    requires Roomy(events, capacity)
    ensures Accepted(events, key, window, capacity) == Records(events, key)
  {
    if events != [] {
      var before, e := events[..|events| - 1], events[|events| - 1];
      SubsetCard(Keys(before), Keys(events));
      RoomyAccepts(before, window, capacity, key);
      var open := Run(before, window, capacity).open;
      OpenKeys(before, window, capacity);
      if e.key !in open {
        assert |open.Keys + {e.key}| == |open.Keys| + 1;
        SubsetCard(open.Keys + {e.key}, Keys(events));
      }
    }
  }

  lemma {:induction false} CutUnique<R>(s: seq<R>, a: seq<seq<R>>, ra: seq<R>, b: seq<seq<R>>, rb: seq<R>, window: nat)
    requires window >= 1 && Cut(s, a, ra, window) && Cut(s, b, rb, window) && |ra| < window && |rb| < window
    ensures a == b
  {
    CutLength(s, a, ra, window);
    CutLength(s, b, rb, window);
    FloorOf(|s|, |a|, |ra|, window);
    FloorOf(|s|, |b|, |rb|, window);
    if a != [] {
      assert a[0] == s[..window] == b[0];
      CutUnique(s[window..], a[1..], ra, b[1..], rb, window);
      assert a == [a[0]] + a[1..] && b == [b[0]] + b[1..];
    }
  }

  // Two roomy histories with the same records of a key emit the same windows.
  lemma {:induction false} SameRecordsSameWindows<K, R>(a: seq<Event<K, R>>, b: seq<Event<K, R>>, window: nat, ca: nat,
      cb: nat, key: K)
    requires window >= 1 && Roomy(a, ca) && Roomy(b, cb) && Records(a, key) == Records(b, key)
    ensures Mine(Run(a, window, ca).emitted, key) == Mine(Run(b, window, cb).emitted, key)
  {
    RoomyAccepts(a, window, ca, key);
    RoomyAccepts(b, window, cb, key);
    RunCuts(a, window, ca, key);
    RunCuts(b, window, cb, key);
    CutUnique(Records(a, key), Mine(Run(a, window, ca).emitted, key), OpenOf(Run(a, window, ca), key),
              Mine(Run(b, window, cb).emitted, key), OpenOf(Run(b, window, cb), key), window);
  }

  // --- sharding over workers ---------------------------------------------------

  // The events one worker sees when keys are routed to workers.
  function Shard<K, R>(events: seq<Event<K, R>>, route: K -> nat, worker: nat): seq<Event<K, R>> {
    if events == [] then []
    else var e := events[|events| - 1];
         Shard(events[..|events| - 1], route, worker) + if route(e.key) == worker then [e] else []
  }

  lemma {:induction false} KeysSnoc<K, R>(s: seq<Event<K, R>>, e: Event<K, R>)
    ensures Keys(s + [e]) == Keys(s) + {e.key}
  {
    assert (s + [e])[..|s|] == s;
  }

  lemma {:induction false} ShardKeys<K, R>(events: seq<Event<K, R>>, route: K -> nat, worker: nat)
    ensures Keys(Shard(events, route, worker)) <= Keys(events)
  {
    if events != [] {
      var before, e := events[..|events| - 1], events[|events| - 1];
      ShardKeys(before, route, worker);
      var s := Shard(before, route, worker);
      KeysSnoc(s, e);
      assert s + [] == s;
    }
  }

  lemma {:induction false} ShardWilling<K, R>(events: seq<Event<K, R>>, route: K -> nat, worker: nat)
    requires Willing(events)
    ensures Willing(Shard(events, route, worker))
  {
    if events != [] { ShardWilling(events[..|events| - 1], route, worker); }
  }

  lemma {:induction false} ShardRecords<K, R>(events: seq<Event<K, R>>, route: K -> nat, key: K)
    ensures Records(Shard(events, route, route(key)), key) == Records(events, key)
  {
    if events != [] {
      var before, e := events[..|events| - 1], events[|events| - 1];
      ShardRecords(before, route, key);
      var s := Shard(before, route, route(key));
      assert (s + [e])[..|s|] == s && s + [] == s;
    }
  }

  // Traffic that fits one table fits every worker's.
  lemma {:induction false} ShardRoomy<K, R>(events: seq<Event<K, R>>, route: K -> nat, worker: nat, capacity: nat)
    requires Roomy(events, capacity)
    ensures Roomy(Shard(events, route, worker), capacity)
  {
    ShardKeys(events, route, worker);
    ShardWilling(events, route, worker);
    SubsetCard(Keys(Shard(events, route, worker)), Keys(events));
  }

  // Splitting the traffic over any number of workers by key changes nothing
  // for any key: its worker, with room for its own keys, emits what a single
  // table with room for all of them would.
  lemma {:induction false} ShardingInvisible<K, R>(events: seq<Event<K, R>>, route: K -> nat, window: nat,
      own: nat, capacity: nat, key: K)
    requires window >= 1 && Roomy(Shard(events, route, route(key)), own) && Roomy(events, capacity)
    ensures Mine(Run(Shard(events, route, route(key)), window, own).emitted, key)
         == Mine(Run(events, window, capacity).emitted, key)
  {
    ShardRecords(events, route, key);
    SameRecordsSameWindows(Shard(events, route, route(key)), events, window, own, capacity, key);
  }
}
