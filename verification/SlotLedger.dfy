// Pool slots shared out between a free list and a hash.
module SlotLedger {
  import opened FlowPool

  ghost predicate Distinct(s: seq<nat>) {
    forall i, j :: 0 <= i < j < |s| ==> s[i] != s[j]
  }

  ghost predicate Below(s: seq<nat>, n: nat) {
    forall i :: 0 <= i < |s| ==> s[i] < n
  }

  ghost predicate Unmapped<K>(s: seq<nat>, hash: map<K, nat>) {
    forall k :: k in hash ==> hash[k] !in s
  }

  // Free and mapped indices: no duplicates, nothing in both, all slots counted.
  ghost predicate Partition<K>(free: seq<nat>, hash: map<K, nat>, capacity: nat) {
    && Distinct(free) && Below(free, capacity) && Unmapped(free, hash)
    && Injective(hash) && (forall k :: k in hash ==> hash[k] < capacity)
    && |free| + |hash| == capacity
  }

  function Range(n: nat): (r: set<nat>)
    ensures forall i: nat :: i in r <==> i < n
  {
    if n == 0 then {} else Range(n - 1) + {n - 1}
  }

  lemma {:induction false} RangeCard(n: nat)
    ensures |Range(n)| == n
  {
    if n > 0 {
      RangeCard(n - 1);
      var r := Range(n - 1);
      assert n - 1 !in r;
      assert |r + {n - 1}| == |r| + 1;
    }
  }

  function SeqSet(s: seq<nat>): set<nat> { set i | 0 <= i < |s| :: s[i] }

  lemma {:induction false} SeqSetCard(s: seq<nat>)
    requires Distinct(s)
    ensures |SeqSet(s)| == |s|
  {
    if s != [] {
      var t := s[..|s| - 1];
      SeqSetCard(t);
      assert SeqSet(s) == SeqSet(t) + {s[|s| - 1]};
    }
  }

  function Slots<K>(hash: map<K, nat>): set<nat> { set k | k in hash :: hash[k] }

  lemma {:induction false} SlotsCard<K>(hash: map<K, nat>)
    requires Injective(hash)
    ensures |Slots(hash)| == |hash|
    decreases |hash|
  {
    if hash != map[] {
      var k :| k in hash;
      var rest := hash - {k};
      assert hash == rest[k := hash[k]];
      SlotsCard(rest);
      assert Slots(hash) == Slots(rest) + {hash[k]};
    }
  }

  lemma {:induction false} SubsetFull(a: set<nat>, b: set<nat>)
    requires a <= b && |a| == |b|
    ensures a == b
  {
    assert |b| == |a| + |b - a| by { assert b == a + (b - a); }
  }

  // Every slot is free or mapped, so none is ever lost.
  lemma {:induction false} NoSlotLost<K>(free: seq<nat>, hash: map<K, nat>, capacity: nat)
    requires Partition(free, hash, capacity)
    ensures SeqSet(free) + Slots(hash) == Range(capacity) && SeqSet(free) !! Slots(hash)
  {
    RangeCard(capacity);
    SeqSetCard(free);
    SlotsCard(hash);
    SubsetFull(SeqSet(free) + Slots(hash), Range(capacity));
  }

  // A mapped key leaves room on the stack: the guard in take never skips the push.
  lemma {:induction false} RoomToFree<K>(free: seq<nat>, hash: map<K, nat>, capacity: nat, key: K)
    requires Partition(free, hash, capacity) && key in hash
    ensures |free| < capacity
  {
    assert |hash| > 0 by { assert hash.Keys != {}; }
  }

  lemma {:induction false} PartitionTake<K>(free: seq<nat>, hash: map<K, nat>, capacity: nat, key: K)
    requires Partition(free, hash, capacity) && key in hash
    ensures Partition(free + [hash[key]], hash - {key}, capacity)
  {
    var rest := hash - {key};
    assert hash == rest[key := hash[key]];
    assert |hash.Keys| == |rest.Keys + {key}|;
  }

  lemma {:induction false} PartitionAdd<K>(free: seq<nat>, idx: nat, hash: map<K, nat>, capacity: nat, key: K)
    requires Partition(free + [idx], hash, capacity) && key !in hash
    ensures Partition(free, hash[key := idx], capacity)
  {
    var all, hash' := free + [idx], hash[key := idx];
    assert |hash'.Keys| == |hash.Keys + {key}|;
    assert all[|free|] == idx && forall i :: 0 <= i < |free| ==> all[i] == free[i];
    assert forall x :: x in free ==> x in all;
  }

  datatype Raw<K> = Raw(free: seq<nat>, slots: map<K, nat>, capacity: nat)

  // A free list, last element next to be used, and a hash that share out a pool.
  type Ledger<K> = l: Raw<K> | Partition(l.free, l.slots, l.capacity) ghost witness Raw([], map[], 0)

  // Give the next free slot to a new key.
  ghost function Claim<K>(l: Ledger<K>, key: K): (r: Ledger<K>)
    requires key !in l.slots && l.free != []
    ensures r.capacity == l.capacity && r.free == l.free[..|l.free| - 1]
    ensures l.free[|l.free| - 1] < l.capacity && r.slots == l.slots[key := l.free[|l.free| - 1]]
  {
    var free, idx := l.free[..|l.free| - 1], l.free[|l.free| - 1];
    assert l.free == free + [idx];
    PartitionAdd(free, idx, l.slots, l.capacity, key);
    Raw(free, l.slots[key := idx], l.capacity)
  }

  // Take the slot back from a key.
  ghost function Release<K>(l: Ledger<K>, key: K): (r: Ledger<K>)
    requires key in l.slots
    ensures r.capacity == l.capacity && |l.free| < l.capacity
    ensures r.free == l.free + [l.slots[key]] && r.slots == l.slots - {key}
  {
    RoomToFree(l.free, l.slots, l.capacity, key);
    PartitionTake(l.free, l.slots, l.capacity, key);
    Raw(l.free + [l.slots[key]], l.slots - {key}, l.capacity)
  }

  lemma {:induction false} LedgerCard<K>(l: Ledger<K>)
    ensures |l.slots| == l.capacity - |l.free|
  {}
}
