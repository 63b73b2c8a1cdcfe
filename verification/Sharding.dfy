// Spreading packets over workers by the NIC's hash of their raw addresses and
// ports, in front of per-worker tables.
module Sharding {
  import opened KeyedWindows
  import opened Rss
  import opened Traffic

  // The queue a packet arrives on, for any indirection table.
  function QueueOf(raw: Key5, table: seq<bool> -> nat): nat {
    table(Toeplitz(TcpInput(raw)))
  }

  function Received<R>(arrivals: seq<Arrival<R>>, table: seq<bool> -> nat, worker: nat): seq<Arrival<R>> {
    if arrivals == [] then []
    else var a := arrivals[|arrivals| - 1];
         Received(arrivals[..|arrivals| - 1], table, worker) + if QueueOf(a.raw, table) == worker then [a] else []
  }

  function Route(table: seq<bool> -> nat): Key5 -> nat {
    key => QueueOf(key, table)
  }

  lemma {:induction false} EventsSnoc<R>(arrivals: seq<Arrival<R>>, a: Arrival<R>)
    ensures Events(arrivals + [a]) == Events(arrivals) + EventsOf(a)
  {
    assert (arrivals + [a])[..|arrivals|] == arrivals;
  }

  lemma {:induction false} ShardNext<R>(events: seq<Event<Key5, R>>, a: Arrival<R>, table: seq<bool> -> nat,
      worker: nat)
    ensures Shard(events + EventsOf(a), Route(table), worker)
         == Shard(events, Route(table), worker) + if QueueOf(a.raw, table) == worker then EventsOf(a) else []
  {
    if EventsOf(a) == [] {
      assert events + [] == events;
    } else {
      WorkerOfConnection(a.raw, table);
      assert (events + EventsOf(a))[..|events|] == events;
    }
  }

  // Hashing raw headers on the NIC routes by canonical key.
  lemma {:induction false} QueueIsShard<R>(arrivals: seq<Arrival<R>>, table: seq<bool> -> nat, worker: nat)
    ensures Events(Received(arrivals, table, worker)) == Shard(Events(arrivals), Route(table), worker)
  {
    if arrivals != [] {
      var before, a := arrivals[..|arrivals| - 1], arrivals[|arrivals| - 1];
      QueueIsShard(before, table, worker);
      var q, shard := Received(before, table, worker), Shard(Events(before), Route(table), worker);
      EventsSnoc(q, a);
      assert q + [] == q && shard + [] == shard;
      ShardNext(Events(before), a, table, worker);
    }
  }

  // Both directions of a connection, on any number of workers: the worker the
  // connection is hashed to, with room for its own flows, emits exactly the
  // windows that a single table with room for all flows would.
  lemma {:induction false} WorkersTogetherAreOneTable<R>(arrivals: seq<Arrival<R>>, table: seq<bool> -> nat,
      window: nat, own: nat, capacity: nat, key: Key5)
    requires window >= 1 && Roomy(Events(Received(arrivals, table, QueueOf(key, table))), own)
    requires Roomy(Events(arrivals), capacity)
    ensures Mine(After(Received(arrivals, table, QueueOf(key, table)), window, own).emitted, key)
         == Mine(After(arrivals, window, capacity).emitted, key)
  {
    QueueIsShard(arrivals, table, QueueOf(key, table));
    ShardingInvisible(Events(arrivals), Route(table), window, own, capacity, key);
  }

  // The connection's own worker gets all its records.
  lemma {:induction false} OwnWorkerHasAll<R>(arrivals: seq<Arrival<R>>, table: seq<bool> -> nat, key: Key5)
    ensures Records(Events(Received(arrivals, table, QueueOf(key, table))), key) == Records(Events(arrivals), key)
  {
    QueueIsShard(arrivals, table, QueueOf(key, table));
    ShardRecords(Events(arrivals), Route(table), key);
  }

  // No other worker ever gets a record of that connection.
  lemma {:induction false} OtherWorkersSilent<R>(arrivals: seq<Arrival<R>>, table: seq<bool> -> nat, worker: nat,
      key: Key5)
    requires worker != QueueOf(key, table)
    ensures Records(Events(Received(arrivals, table, worker)), key) == []
  {
    QueueIsShard(arrivals, table, worker);
    ShardWithout(Events(arrivals), Route(table), worker, key);
  }

  lemma {:induction false} ShardWithout<R>(events: seq<Event<Key5, R>>, route: Key5 -> nat, worker: nat, key: Key5)
    requires worker != route(key)
    ensures Records(Shard(events, route, worker), key) == []
  {
    if events != [] {
      var before, e := events[..|events| - 1], events[|events| - 1];
      ShardWithout(before, route, worker, key);
      var s := Shard(before, route, worker);
      assert (s + [e])[..|s|] == s && s + [] == s;
    }
  }
}
