// The Modbus request tracker: a hash over a pool whose free slots are stacked.
module ModbusTracker {
  import opened LinearLayer
  import opened FlowPool
  import opened SlotLedger

  datatype ReqKey = ReqKey(transId: nat, unitId: nat)

  datatype Request = Request(key: ReqKey, startAddr: nat, quantity: nat, at: nat)

  // insertOk says whether the hash would accept a new key.
  datatype Op = Add(req: Request, insertOk: bool) | Take(key: ReqKey)

  type Table = map<ReqKey, Request>

  // The finite map a bounded tracker stands for.
  function Apply(t: Table, op: Op, capacity: nat): Table {
    match op
    case Add(req, insertOk) => if req.key in t || (|t| < capacity && insertOk) then t[req.key := req] else t
    case Take(key) => t - {key}
  }

  function Run(ops: seq<Op>, capacity: nat): Table {
    if ops == [] then map[] else Apply(Run(ops[..|ops| - 1], capacity), ops[|ops| - 1], capacity)
  }

  class Tracker {
    var hash: map<ReqKey, nat>
    const pool: array<Request>
    const freeStack: array<nat>
    var freeTop: nat
    ghost var ledger: Ledger<ReqKey>
    ghost var table: Table

    ghost predicate Valid()
      reads this, pool, freeStack
    {
      && pool.Length == freeStack.Length && Stacked(ledger.free)
      && ledger.slots == hash && ledger.capacity == pool.Length
      && table == View(hash, pool[..])
    }

    constructor (capacity: nat, zero: Request)
      ensures Valid() && table == map[] && pool.Length == capacity
      ensures fresh(pool) && fresh(freeStack)
    {
      hash := map[];
      pool := new Request[capacity](_ => zero);
      freeStack := new nat[capacity](i requires 0 <= i < capacity => capacity - 1 - i);
      freeTop := capacity;
      table := map[];
      new;
      ledger := Raw(freeStack[..], map[], capacity);
    }

    // The stack of free slots, up to freeTop.
    ghost predicate Stacked(free: seq<nat>)
      reads this, freeStack
    {
      freeTop <= freeStack.Length && freeStack[..freeTop] == free
    }

    method Push(idx: nat, ghost free: seq<nat>)
      requires Stacked(free) && freeTop < freeStack.Length
      modifies this`freeTop, freeStack
      ensures Stacked(free + [idx])
    {
      freeStack[freeTop] := idx;
      freeTop := freeTop + 1;
    }

    method Pop(ghost free: seq<nat>) returns (idx: nat)
      requires Stacked(free) && free != []
      modifies this`freeTop
      ensures idx == free[|free| - 1] && Stacked(free[..|free| - 1]) && freeTop == old(freeTop) - 1
    {
      freeTop := freeTop - 1;
      idx := freeStack[freeTop];
    }

    // A new key takes the top free slot; a failing insert gives it back.
    method Attach(key: ReqKey, insertOk: bool) returns (ok: bool)
      requires Valid() && key !in hash
      modifies this, freeStack
      ensures Valid() && ok == (|old(table)| < pool.Length && insertOk)
      ensures ok ==> key in hash && table == old(table)[key := pool[hash[key]]]
      ensures !ok ==> table == old(table)
    {
      TableCard();
      if freeTop == 0 { return false; }
      ghost var free := ledger.free;
      var idx := Pop(free);
      ok := insertOk;
      if insertOk {
        Adopt(key, idx);
      } else {
        Push(idx, free[..|free| - 1]);
        assert free[..|free| - 1] + [idx] == free;
      }
    }

    method Adopt(key: ReqKey, idx: nat)
      requires pool.Length == freeStack.Length && key !in hash && ledger.slots == hash && ledger.capacity == pool.Length
      requires ledger.free != [] && idx == ledger.free[|ledger.free| - 1] && Stacked(ledger.free[..|ledger.free| - 1])
      requires table == View(hash, pool[..])
      modifies this`hash, this`ledger, this`table
      ensures Valid() && key in hash && idx < pool.Length && hash[key] == idx && table == old(table)[key := pool[idx]]
    {
      ghost var claimed := Claim(ledger, key);
      ViewClaim(hash, pool[..], key, idx);
      ledger := claimed;
      hash := hash[key := idx];
      table := table[key := pool[idx]];
    }

    // A known key is overwritten; a new one needs a free slot and a willing hash.
    method Add(req: Request, insertOk: bool) returns (ok: bool)
      requires Valid()
      modifies this, pool, freeStack
      ensures Valid()
      ensures table == Apply(old(table), Op.Add(req, insertOk), pool.Length)
      ensures ok == (req.key in old(table) || (|old(table)| < pool.Length && insertOk))
      ensures table == if ok then old(table)[req.key := req] else old(table)
    {
      ok := true;
      if req.key !in hash {
        ok := Attach(req.key, insertOk);
      }
      if ok {
        PutTwice(old(table), req.key, table[req.key], req);
        Store(req);
      }
    }

    method Store(req: Request)
      requires Valid() && req.key in hash
      modifies pool, this`table
      ensures Valid() && table == old(table)[req.key := req]
    {
      var idx := hash[req.key];
      ViewPut(hash, pool[..], req.key, idx, req);
      assert hash == hash[req.key := idx];
      pool[idx] := req;
      table := table[req.key := req];
    }

    lemma {:induction false} TableCard()
      requires Valid()
      ensures |table| == |hash| == pool.Length - freeTop
    {
      LedgerCard(ledger);
      assert |table.Keys| == |hash.Keys|;
    }

    // A match removes the request and returns it; anything else changes nothing.
    method Take(key: ReqKey) returns (out: Option<Request>)
      requires Valid()
      modifies this, freeStack
      ensures Valid()
      ensures table == Apply(old(table), Op.Take(key), pool.Length)
      ensures out == if key in old(table) then Some(old(table)[key]) else None
      ensures table == old(table) - {key}
    {
      out := Find(key);
      if out.Some? {
        Detach(key);
      } else {
        Untouched(table, key);
      }
    }

    method Find(key: ReqKey) returns (out: Option<Request>)
      requires Valid()
      ensures out == if key in table then Some(table[key]) else None
    {
      out := if key in hash then Some(pool[hash[key]]) else None;
    }

    // Delete the key; its slot is not stacked yet, and there is room for it.
    method Forget(key: ReqKey) returns (idx: nat)
      requires Valid() && key in hash
      modifies this`hash, this`ledger, this`table
      ensures ledger.free == old(ledger.free) + [idx] && Stacked(old(ledger.free)) && freeTop < pool.Length
      ensures ledger.slots == hash && ledger.capacity == pool.Length
      ensures table == View(hash, pool[..]) && table == old(table) - {key}
    {
      idx := hash[key];
      ViewDrop(hash, pool[..], key);
      ledger := Release(ledger, key);
      hash := hash - {key};
      table := table - {key};
    }

    // Delete the key and stack its slot; the guard of the push always holds.
    method Detach(key: ReqKey)
      requires Valid() && key in hash
      modifies this, freeStack
      ensures Valid() && table == old(table) - {key}
    {
      var idx := Forget(key);
      assert freeTop < pool.Length;
      if freeTop < pool.Length {
        Push(idx, old(ledger.free));
      }
    }
  }

  lemma {:induction false} Untouched(t: Table, key: ReqKey)
    requires key !in t
    ensures t - {key} == t
  {}

  lemma {:induction false} ViewClaim(hash: map<ReqKey, nat>, entries: seq<Request>, key: ReqKey, idx: nat)
    requires (forall k :: k in hash ==> hash[k] < |entries|) && idx < |entries| && key !in hash
    ensures View(hash[key := idx], entries) == View(hash, entries)[key := entries[idx]]
  {}

  lemma {:induction false} ViewDrop(hash: map<ReqKey, nat>, entries: seq<Request>, key: ReqKey)
    requires forall k :: k in hash ==> hash[k] < |entries|
    ensures View(hash - {key}, entries) == View(hash, entries) - {key}
  {}

  // --- runs --------------------------------------------------------------------

  // The key's last addition, unless it was taken since.
  function Latest(ops: seq<Op>, key: ReqKey): Option<Request> {
    if ops == [] then None
    else match ops[|ops| - 1]
         case Add(req, _) => if req.key == key then Some(req) else Latest(ops[..|ops| - 1], key)
         case Take(k) => if k == key then None else Latest(ops[..|ops| - 1], key)
  }

  // Whatever was refused on the way, a tracked key holds its latest request.
  lemma {:induction false} NeverStale(ops: seq<Op>, capacity: nat, key: ReqKey)
    ensures var t := Run(ops, capacity); key in t ==> Latest(ops, key) == Some(t[key])
  {
    if ops != [] { NeverStale(ops[..|ops| - 1], capacity, key); }
  }

  // The map without a bound: every addition is kept until taken.
  function Unbounded(ops: seq<Op>): Table {
    if ops == [] then map[]
    else var t := Unbounded(ops[..|ops| - 1]);
         match ops[|ops| - 1]
         case Add(req, _) => t[req.key := req]
         case Take(key) => t - {key}
  }

  lemma {:induction false} UnboundedIsLatest(ops: seq<Op>, key: ReqKey)
    ensures var t := Unbounded(ops); Latest(ops, key) == if key in t then Some(t[key]) else None
  {
    if ops != [] { UnboundedIsLatest(ops[..|ops| - 1], key); }
  }

  // Never more requests outstanding than slots, and no failing insert.
  ghost predicate Roomy(ops: seq<Op>, capacity: nat) {
    ops != [] ==>
      && Roomy(ops[..|ops| - 1], capacity)
      && (ops[|ops| - 1].Add? ==> ops[|ops| - 1].insertOk)
      && |Unbounded(ops)| <= capacity
  }

  // With room, the tracker is the unbounded map.
  lemma {:induction false} RoomyIsUnbounded(ops: seq<Op>, capacity: nat)
    requires Roomy(ops, capacity)
    ensures Run(ops, capacity) == Unbounded(ops)
  {
    if ops != [] {
      var before, op := ops[..|ops| - 1], ops[|ops| - 1];
      RoomyIsUnbounded(before, capacity);
      if op.Add? && op.req.key !in Unbounded(before) {
        assert |Unbounded(ops).Keys| == |Unbounded(before).Keys + {op.req.key}|;
      }
    }
  }
}
