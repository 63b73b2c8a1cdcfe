// Sensors over several workers: a sensor's key holds no address, so whether a
// worker sees the whole sensor, and only it, depends on who reports it.
module SensorSharding {
  import opened KeyedWindows
  import opened Rss
  import opened Sensor
  import opened IcsProfile
  import opened Sharding

  // The events whose tag is picked; a tag may be a worker or a connection.
  function Picked<T, K, R>(s: seq<(T, Event<K, R>)>, pick: T -> bool): seq<Event<K, R>> {
    if s == [] then []
    else var x := s[|s| - 1]; Picked(s[..|s| - 1], pick) + if pick(x.0) then [x.1] else []
  }

  // Every event of the key that the wider choice has is in the narrower one.
  ghost predicate Whole<T, K, R>(s: seq<(T, Event<K, R>)>, narrow: T -> bool, wide: T -> bool, key: K) {
    forall i :: 0 <= i < |s| && s[i].1.key == key && wide(s[i].0) ==> narrow(s[i].0)
  }

  ghost predicate Within<T(!new)>(narrow: T -> bool, wide: T -> bool) {
    forall t :: narrow(t) ==> wide(t)
  }

  lemma {:induction false} RecordsPicked<K, R>(events: seq<Event<K, R>>, e: Event<K, R>, key: K)
    ensures Records(events + [e], key) == Records(events, key) + if e.key == key then [e.rec] else []
  {
    assert (events + [e])[..|events|] == events;
  }

  lemma {:induction false} PickedNext<T, K, R>(s: seq<(T, Event<K, R>)>, pick: T -> bool, key: K)
    requires s != []
    ensures var (before, x) := (s[..|s| - 1], s[|s| - 1]);
            Records(Picked(s, pick), key)
            == Records(Picked(before, pick), key) + if pick(x.0) && x.1.key == key then [x.1.rec] else []
  {
    var p := Picked(s[..|s| - 1], pick);
    RecordsPicked(p, s[|s| - 1].1, key);
    assert p + [] == p && Records(p, key) + [] == Records(p, key);
  }

  lemma {:induction false} WholeNext<T, K, R>(s: seq<(T, Event<K, R>)>, narrow: T -> bool, wide: T -> bool, key: K)
    requires s != []
    ensures var (before, x) := (s[..|s| - 1], s[|s| - 1]);
            Whole(s, narrow, wide, key)
            <==> Whole(before, narrow, wide, key) && (x.1.key == key && wide(x.0) ==> narrow(x.0))
  {
    var before := s[..|s| - 1];
    if Whole(s, narrow, wide, key) {
      forall i | 0 <= i < |before| && before[i].1.key == key && wide(before[i].0) ensures narrow(before[i].0) {
        assert before[i] == s[i];
      }
    }
  }

  lemma {:induction false} PickedCounts<T(!new), K, R>(s: seq<(T, Event<K, R>)>, narrow: T -> bool, wide: T -> bool,
      key: K)
    requires Within(narrow, wide)
    ensures var a, b := Records(Picked(s, narrow), key), Records(Picked(s, wide), key);
            |a| <= |b| && (Whole(s, narrow, wide, key) ==> a == b) && (|a| == |b| ==> Whole(s, narrow, wide, key))
  {
    if s != [] {
      PickedCounts(s[..|s| - 1], narrow, wide, key);
      PickedNext(s, narrow, key);
      PickedNext(s, wide, key);
      WholeNext(s, narrow, wide, key);
    }
  }

  lemma {:induction false} SameRecordsIff<T(!new), K, R>(s: seq<(T, Event<K, R>)>, narrow: T -> bool, wide: T -> bool,
      key: K)
    requires Within(narrow, wide)
    ensures Records(Picked(s, narrow), key) == Records(Picked(s, wide), key) <==> Whole(s, narrow, wide, key)
  {
    PickedCounts(s, narrow, wide, key);
  }

  // The vectors a sensor table pushes for one sensor.
  function SensorVectors(events: seq<Event<SensorKey, Sample>>, window: nat, capacity: nat, key: SensorKey,
      hz: real): seq<seq<real>>
    requires window >= 2 && hz > 0.0
  {
    ForKey(AbsorbAll(Fleet(map[], []), events, window, capacity, hz).pushed, key)
  }

  // Two tables with room for their own sensors and the same readings of one
  // push the same vectors for it.
  lemma {:induction false} VectorsByRecords(a: seq<Event<SensorKey, Sample>>, b: seq<Event<SensorKey, Sample>>,
      window: nat, ca: nat, cb: nat, key: SensorKey, hz: real)
    requires window >= 2 && hz > 0.0 && Roomy(a, ca) && Roomy(b, cb) && Records(a, key) == Records(b, key)
    ensures SensorVectors(a, window, ca, key, hz) == SensorVectors(b, window, cb, key, hz)
  {
    var r := Records(a, key);
    var first := if r == [] then 0 else r[0].reading;
    RoomyAccepts(a, window, ca, key);
    RoomyAccepts(b, window, cb, key);
    SensorsAreIndependent(a, window, ca, key, first, hz);
    SensorsAreIndependent(b, window, cb, key, first, hz);
    SameRecordsSameWindows(a, b, window, ca, cb, key);
  }

  // --- who reports a sensor ---------------------------------------------------------

  // Readings with the addresses and ports of the packets they came in.
  type Reports = seq<(Key5, Event<SensorKey, Sample>)>

  function OnWorker(table: seq<bool> -> nat, worker: nat): Key5 -> bool { raw => QueueOf(raw, table) == worker }

  function OfConnection(c: Key5): Key5 -> bool { raw => Canonicalize(raw) == c }

  function Anyone(): Key5 -> bool { raw => true }

  // Connection c, in either direction, reports the sensor.
  ghost predicate ReportedBy(s: Reports, key: SensorKey, c: Key5) {
    exists i :: 0 <= i < |s| && s[i].1.key == key && Canonicalize(s[i].0) == c
  }

  ghost predicate WorkerHasAll(s: Reports, key: SensorKey, table: seq<bool> -> nat, worker: nat) {
    Records(Picked(s, OnWorker(table, worker)), key) == Records(Picked(s, Anyone()), key)
  }

  // A worker sees a sensor whole exactly when every connection that reports it
  // hashes to that worker.
  lemma {:induction false} WorkerHasAllIff(s: Reports, key: SensorKey, table: seq<bool> -> nat, worker: nat)
    ensures WorkerHasAll(s, key, table, worker)
       <==> forall c :: ReportedBy(s, key, c) ==> QueueOf(c, table) == worker
  {
    var narrow := OnWorker(table, worker);
    SameRecordsIff(s, narrow, Anyone(), key);
    forall i | 0 <= i < |s| ensures QueueOf(s[i].0, table) == QueueOf(Canonicalize(s[i].0), table) {
      WorkerOfConnection(s[i].0, table);
    }
    if Whole(s, narrow, Anyone(), key) {
      forall c | ReportedBy(s, key, c) ensures QueueOf(c, table) == worker {
        var i :| 0 <= i < |s| && s[i].1.key == key && Canonicalize(s[i].0) == c;
        assert Anyone()(s[i].0);
      }
    } else {
      var i :| 0 <= i < |s| && s[i].1.key == key && !narrow(s[i].0);
      assert ReportedBy(s, key, Canonicalize(s[i].0));
    }
  }

  ghost predicate OnlyOneThere(s: Reports, key: SensorKey, table: seq<bool> -> nat, c: Key5) {
    forall d :: ReportedBy(s, key, d) && QueueOf(d, table) == QueueOf(c, table) ==> d == c
  }

  lemma {:induction false} WholeIfOnlyOne(s: Reports, key: SensorKey, table: seq<bool> -> nat, c: Key5)
    requires OnlyOneThere(s, key, table, c)
    ensures Whole(s, OfConnection(c), OnWorker(table, QueueOf(c, table)), key)
  {
    forall i | 0 <= i < |s| && s[i].1.key == key && QueueOf(s[i].0, table) == QueueOf(c, table)
      ensures Canonicalize(s[i].0) == c
    {
      WorkerOfConnection(s[i].0, table);
      assert ReportedBy(s, key, Canonicalize(s[i].0));
    }
  }

  lemma {:induction false} OnlyOneIfWhole(s: Reports, key: SensorKey, table: seq<bool> -> nat, c: Key5)
    requires Whole(s, OfConnection(c), OnWorker(table, QueueOf(c, table)), key)
    ensures OnlyOneThere(s, key, table, c)
  {
    forall d | ReportedBy(s, key, d) && QueueOf(d, table) == QueueOf(c, table) ensures d == c {
      var i :| 0 <= i < |s| && s[i].1.key == key && Canonicalize(s[i].0) == d;
      WorkerOfConnection(s[i].0, table);
      assert OnWorker(table, QueueOf(c, table))(s[i].0);
    }
  }

  lemma {:induction false} ConnectionWithin(table: seq<bool> -> nat, c: Key5)
    requires Canonicalize(c) == c
    ensures Within(OfConnection(c), OnWorker(table, QueueOf(c, table)))
  {
    forall raw | OfConnection(c)(raw) ensures OnWorker(table, QueueOf(c, table))(raw) {
      WorkerOfConnection(raw, table);
    }
  }

  // A worker keeps a connection's sensor apart from others exactly when no
  // other connection that hashes to it reports the same key.
  lemma {:induction false} NotMergedIff(s: Reports, key: SensorKey, table: seq<bool> -> nat, c: Key5)
    requires Canonicalize(c) == c
    ensures Records(Picked(s, OfConnection(c)), key) == Records(Picked(s, OnWorker(table, QueueOf(c, table))), key)
       <==> OnlyOneThere(s, key, table, c)
  {
    var narrow, wide := OfConnection(c), OnWorker(table, QueueOf(c, table));
    ConnectionWithin(table, c);
    SameRecordsIff(s, narrow, wide, key);
    if Whole(s, narrow, wide, key) { OnlyOneIfWhole(s, key, table, c); }
    if OnlyOneThere(s, key, table, c) { WholeIfOnlyOne(s, key, table, c); }
  }

  ghost predicate SomeWorkerHasAll(s: Reports, key: SensorKey, table: seq<bool> -> nat) {
    exists worker: nat :: WorkerHasAll(s, key, table, worker)
  }

  function HashOf(c: Key5): seq<bool> { Toeplitz(TcpInput(c)) }

  // Whatever the indirection table, some worker sees the sensor whole: exactly
  // when all connections that report it have the same hash.
  lemma {:induction false} NeverSplitIff(s: Reports, key: SensorKey)
    ensures (forall table: seq<bool> -> nat :: SomeWorkerHasAll(s, key, table))
       <==> forall c, d :: ReportedBy(s, key, c) && ReportedBy(s, key, d) ==> HashOf(c) == HashOf(d)
  {
    if c, d :| ReportedBy(s, key, c) && ReportedBy(s, key, d) && HashOf(c) != HashOf(d) {
      var apart := (h: seq<bool>) => if h == HashOf(c) then 0 else 1;
      assert QueueOf(c, apart) == 0 && QueueOf(d, apart) == 1;
      forall worker: nat ensures !WorkerHasAll(s, key, apart, worker) {
        WorkerHasAllIff(s, key, apart, worker);
      }
      assert !SomeWorkerHasAll(s, key, apart);
    } else {
      forall table: seq<bool> -> nat ensures SomeWorkerHasAll(s, key, table) {
        OneHash(s, key, table);
      }
    }
  }

  lemma {:induction false} OneHash(s: Reports, key: SensorKey, table: seq<bool> -> nat)
    requires forall c, d :: ReportedBy(s, key, c) && ReportedBy(s, key, d) ==> HashOf(c) == HashOf(d)
    ensures SomeWorkerHasAll(s, key, table)
  {
    if c :| ReportedBy(s, key, c) {
      WorkerHasAllIff(s, key, table, QueueOf(c, table));
      assert WorkerHasAll(s, key, table, QueueOf(c, table));
    } else {
      WorkerHasAllIff(s, key, table, 0);
      assert WorkerHasAll(s, key, table, 0);
    }
  }

  // A sensor that one worker sees whole yields there, with room for that
  // worker's sensors, exactly the vectors of a single table with room for all.
  lemma {:induction false} WholeSensor(s: Reports, key: SensorKey, table: seq<bool> -> nat, worker: nat,
      window: nat, own: nat, capacity: nat, hz: real)
    requires window >= 2 && hz > 0.0
    requires Roomy(Picked(s, OnWorker(table, worker)), own) && Roomy(Picked(s, Anyone()), capacity)
    requires forall c :: ReportedBy(s, key, c) ==> QueueOf(c, table) == worker
    ensures SensorVectors(Picked(s, OnWorker(table, worker)), window, own, key, hz)
         == SensorVectors(Picked(s, Anyone()), window, capacity, key, hz)
  {
    WorkerHasAllIff(s, key, table, worker);
    VectorsByRecords(Picked(s, OnWorker(table, worker)), Picked(s, Anyone()), window, own, capacity, key, hz);
  }
}
