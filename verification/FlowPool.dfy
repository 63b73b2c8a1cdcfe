// The bump-allocated flow pool behind a hash: it behaves as a finite map that
// never forgets a key and never grows past its capacity.
module FlowPool {

  // The map that a hash into an entry array stands for.
  ghost function View<K, E>(hash: map<K, nat>, entries: seq<E>): (t: map<K, E>)
    requires forall k :: k in hash ==> hash[k] < |entries|
    ensures t.Keys == hash.Keys
  {
    map k | k in hash :: entries[hash[k]]
  }

  ghost predicate Injective<K>(hash: map<K, nat>) {
    forall a, b :: a in hash && b in hash && hash[a] == hash[b] ==> a == b
  }

  lemma {:induction false} ViewPut<K, E>(hash: map<K, nat>, entries: seq<E>, key: K, idx: nat, e: E)
    requires (forall k :: k in hash ==> hash[k] < |entries|) && idx < |entries|
    requires forall k :: k in hash && k != key ==> hash[k] != idx
    ensures View(hash[key := idx], entries[idx := e]) == View(hash, entries)[key := e]
  {}

  lemma {:induction false} PutTwice<K, E>(m: map<K, E>, k: K, a: E, b: E)
    ensures m[k := a][k := b] == m[k := b]
  {}

  class Pool<K(==), E> {
    var hash: map<K, nat>     // key to entry index
    const entries: array<E>
    var nextFree: nat
    ghost var table: map<K, E>

    ghost predicate Valid()
      reads this, entries
    {
      && nextFree <= entries.Length && |hash| == nextFree
      && (forall k :: k in hash ==> hash[k] < nextFree)
      && Injective(hash)
      && table == View(hash, entries[..])
    }

    constructor (capacity: nat, zero: E)
      ensures Valid() && fresh(entries) && entries.Length == capacity && table == map[]
    {
      hash := map[];
      entries := new E[capacity](_ => zero);
      nextFree := 0;
      table := map[];
    }

    // The index of the key's entry, or none. A new key takes the next free
    // entry, zeroed; a full pool or a failing insert leaves everything as it was.
    method LookupOrAlloc(key: K, zero: E, insertOk: bool) returns (found: bool, idx: nat, isNew: bool)
      requires Valid()
      modifies this, entries
      ensures Valid()
      ensures found == (key in old(hash) || (|old(hash)| < entries.Length && insertOk))
      ensures isNew == (found && key !in old(hash))
      ensures found ==> idx < entries.Length && key in hash && hash[key] == idx
      ensures table == if isNew then old(table)[key := zero] else old(table)
    {
      found, isNew, idx := false, false, 0;
      if key in hash {
        idx := hash[key];
        found := true;
        return;
      }
      if nextFree >= entries.Length { return; }
      idx := nextFree;
      nextFree := nextFree + 1;
      if !insertOk {
        nextFree := nextFree - 1;
        return;
      }
      ViewPut(hash, entries[..], key, idx, zero);
      hash := hash[key := idx];
      entries[idx] := zero;
      table := table[key := zero];
      found, isNew := true, true;
    }

    method Lookup(key: K) returns (found: bool, idx: nat)
      requires Valid()
      ensures found == (key in hash)
      ensures found ==> idx < entries.Length && idx == hash[key]
    {
      found, idx := key in hash, 0;
      if found {
        idx := hash[key];
      }
    }

    // Writing a key's entry changes that key's value and no other's.
    method Put(key: K, idx: nat, e: E)
      requires Valid() && key in hash && hash[key] == idx
      modifies this`table, entries
      ensures Valid() && table == old(table)[key := e]
    {
      ViewPut(hash, entries[..], key, idx, e);
      assert hash[key := idx] == hash;
      entries[idx] := e;
      table := table[key := e];
    }
  }
}
