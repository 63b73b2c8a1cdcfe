// The common body of the IoT and DoH profiles: look the flow up, update its
// entry in place, and on a full window emit features and reset the entry.
module WindowTracker {
  import opened KeyedWindows
  import opened Rss
  import opened FlowPool
  import opened FeatureQueue

  // The entry after folding the records of an open window into a fresh one.
  function Fold<R, E>(update: (E, R) -> E, reset: E, s: seq<R>): E {
    if s == [] then reset else update(Fold(update, reset, s[..|s| - 1]), s[|s| - 1])
  }

  lemma {:induction false} FoldSnoc<R, E>(update: (E, R) -> E, reset: E, s: seq<R>, r: R)
    ensures Fold(update, reset, s + [r]) == update(Fold(update, reset, s), r)
  {
    assert (s + [r])[..|s|] == s;
  }

  // The table of entries that stands for the open windows.
  ghost function Entries<R, E>(update: (E, R) -> E, reset: E, open: map<Key5, seq<R>>): (t: map<Key5, E>)
    ensures t.Keys == open.Keys
  {
    map k | k in open :: Fold(update, reset, open[k])
  }

  ghost predicate Small<R>(open: map<Key5, seq<R>>, window: nat) {
    forall k :: k in open ==> |open[k]| < window
  }

  predicate Completes<R>(w: Win<Key5, R>, e: Event<Key5, R>, window: nat, capacity: nat) {
    Admits(w, e, capacity) && |Chunk(w, e)| >= window
  }

  // What is left open of the key after one of its records.
  function LeftOpen<R>(w: Win<Key5, R>, e: Event<Key5, R>, window: nat): seq<R> {
    if |Chunk(w, e)| >= window then [] else Chunk(w, e)
  }

  lemma {:induction false} StepTable<R, E>(update: (E, R) -> E, reset: E, w: Win<Key5, R>, e: Event<Key5, R>,
      window: nat, capacity: nat)
    requires Admits(w, e, capacity) && Small(w.open, window) && window >= 1
    ensures var w' := Feed(w, e, window, capacity);
            && Small(w'.open, window)
            && Entries(update, reset, w'.open)
            == Entries(update, reset, w.open)[e.key := Fold(update, reset, LeftOpen(w, e, window))]
  {
    assert Feed(w, e, window, capacity).open == w.open[e.key := LeftOpen(w, e, window)];
  }

  lemma {:induction false} SameCard<A, B>(a: map<Key5, A>, b: map<Key5, B>)
    requires a.Keys == b.Keys
    ensures |a| == |b|
  {
    assert |a| == |a.Keys| && |b| == |b.Keys|;
  }

  type Vector = (seq<real>, Key5)

  class Tracker<R(!new), E> {
    const update: (E, R) -> E
    const reset: E
    const emit: E -> seq<real>
    const count: E -> nat          // records in the entry's window
    const window: nat
    const flows: Pool<Key5, E>
    const q: Queue<Vector>
    ghost var win: Win<Key5, R>    // the records behind the table

    ghost predicate Valid()
      reads this, flows, flows.entries, q, q.items
    {
      && flows.Valid() && q.Valid() && window >= 1 && Apart()
      && flows.table == Entries(update, reset, win.open) && Small(win.open, window)
    }

    // The profile's count of an entry agrees with the records behind it.
    ghost predicate CountsUp(s: seq<R>) {
      count(Fold(update, reset, s)) == |s|
    }

    constructor (update: (E, R) -> E, reset: E, emit: E -> seq<real>, count: E -> nat, window: nat, capacity: nat)
      requires window >= 1
      ensures Valid() && win == Win(map[], []) && q.contents == [] && q.dropped == 0
      ensures this.update == update && this.reset == reset && this.emit == emit && this.count == count
      ensures this.window == window && flows.entries.Length == capacity
      ensures fresh(flows) && fresh(flows.entries) && fresh(q) && fresh(q.items)
    {
      this.update, this.reset, this.emit, this.count, this.window := update, reset, emit, count, window;
      flows := new Pool<Key5, E>(capacity, reset);
      q := new Queue<Vector>(([], Key5(0, 0, 0, 0, 0)));
      win := Win(map[], []);
    }

    ghost function VectorOf(key: Key5, chunk: seq<R>): Vector {
      (emit(Fold(update, reset, chunk)), key)
    }

    ghost predicate Apart()
      reads this
    {
      var a: object, b: object := flows.entries, q.items;
      a != b
    }

    // Emit and reset the entry once its window is full.
    method CloseIfFull(key: Key5, idx: nat, entry: E, ghost chunk: seq<R>)
      requires flows.Valid() && q.Valid() && Apart()
      requires key in flows.hash && flows.hash[key] == idx && flows.table[key] == entry
      requires entry == Fold(update, reset, chunk) && CountsUp(chunk)
      modifies flows`table, flows.entries, q, q.items
      ensures flows.Valid() && q.Valid()
      ensures flows.table == if |chunk| >= window then old(flows.table)[key := reset] else old(flows.table)
      ensures q.contents == Offer(old(q.contents), |chunk| >= window, VectorOf(key, chunk))
      ensures q.dropped == old(q.dropped) + Drops(old(q.contents), |chunk| >= window)
    {
      if count(entry) >= window {
        var _ := q.Push((emit(entry), key));
        flows.Put(key, idx, reset);
      }
    }

    // Fold one record into the entry at idx.
    method Absorb(key: Key5, idx: nat, rec: R, ghost before: seq<R>)
      requires flows.Valid() && q.Valid() && Apart() && CountsUp(before + [rec])
      requires key in flows.hash && flows.hash[key] == idx
      requires flows.table[key] == Fold(update, reset, before) && |before| < window
      modifies flows`table, flows.entries, q, q.items
      ensures flows.Valid() && q.Valid()
      ensures flows.table == old(flows.table)[key :=
                Fold(update, reset, if |before| + 1 >= window then [] else before + [rec])]
      ensures q.contents == Offer(old(q.contents), |before| + 1 >= window, VectorOf(key, before + [rec]))
      ensures q.dropped == old(q.dropped) + Drops(old(q.contents), |before| + 1 >= window)
    {
      FoldSnoc(update, reset, before, rec);
      var entry := update(flows.entries[idx], rec);
      PutTwice(flows.table, key, entry, reset);
      flows.Put(key, idx, entry);
      CloseIfFull(key, idx, entry, before + [rec]);
    }

    // One record: exactly the window step of its key; a completed window's
    // features are queued, unless the queue is full and counts a drop.
    method Process(key: Key5, rec: R, insertOk: bool)
      requires Valid() && CountsUp(Chunk(win, Event(key, rec, insertOk)))
      modifies this, flows, flows.entries, q, q.items
      ensures Valid()
      ensures win == Feed(old(win), Event(key, rec, insertOk), window, flows.entries.Length)
      ensures var full := Completes(old(win), Event(key, rec, insertOk), window, flows.entries.Length);
              && q.contents == Offer(old(q.contents), full, VectorOf(key, Chunk(old(win), Event(key, rec, insertOk))))
              && q.dropped == old(q.dropped) + Drops(old(q.contents), full)
    {
      SameCard(win.open, flows.hash);
      var found, idx, isNew := flows.LookupOrAlloc(key, reset, insertOk);
      if found {
        Enter(key, rec, insertOk, idx);
      }
    }

    // The worker takes everything the packets so far have queued.
    method Drain() returns (popped: seq<Vector>)
      requires Valid()
      modifies q
      ensures Valid() && q.contents == [] && q.dropped == old(q.dropped) && popped == old(q.contents)
    {
      popped := NextFeatures(q);
    }

    // The entry is in place, fresh if the key was new.
    method Enter(key: Key5, rec: R, insertOk: bool, idx: nat)
      requires flows.Valid() && q.Valid() && window >= 1 && Apart() && Small(win.open, window)
      requires Admits(win, Event(key, rec, insertOk), flows.entries.Length)
               && CountsUp(Chunk(win, Event(key, rec, insertOk)))
      requires key in flows.hash && flows.hash[key] == idx
      requires flows.table == if key in win.open then Entries(update, reset, win.open)
                              else Entries(update, reset, win.open)[key := reset]
      modifies this, flows, flows.entries, q, q.items
      ensures Valid()
      ensures win == Feed(old(win), Event(key, rec, insertOk), window, flows.entries.Length)
      ensures var full := |Chunk(old(win), Event(key, rec, insertOk))| >= window;
              && q.contents == Offer(old(q.contents), full, VectorOf(key, Chunk(old(win), Event(key, rec, insertOk))))
              && q.dropped == old(q.dropped) + Drops(old(q.contents), full)
    {
      ghost var e, w0 := Event(key, rec, insertOk), win;
      win := Feed(w0, e, window, flows.entries.Length);
      StepTable(update, reset, w0, e, window, flows.entries.Length);
      PutTwice(Entries(update, reset, w0.open), key, reset, Fold(update, reset, LeftOpen(w0, e, window)));
      Absorb(key, idx, rec, OpenOf(w0, key));
    }
  }
}
