// The benchmark's TLS flow table: a hash over a pool whose free entries are
// linked through the entries themselves.
module FlowFreeList {
  import opened Stats
  import opened FlowPool
  import opened SlotLedger
  import opened KeyedWindows
  import Doh

  const INVALID: nat := U32 - 1

  // Statistics of the open window, and the time stamps beside them.
  datatype Flow = Flow(stats: Doh.Entry, first: nat, last: nat)

  datatype Entry = Entry(flow: Flow, nextFree: nat)

  const EMPTY := Flow(Doh.RESET, 0, 0)

  function CountIn(s: Doh.Side, len: nat): Doh.Side {
    Doh.Side((s.count + 1) % U32, (s.bytes + len) % U64,
             if len < s.min then len else s.min, if len > s.max then len else s.max, (s.sum + len) % U64)
  }

  function UpdateFlow(f: Flow, r: Doh.Rec, now: nat): Flow {
    var e := f.stats;
    var d := if r.client then 1 else 2;
    Flow(Doh.Entry(if r.client then CountIn(e.client, r.len) else e.client,
                   if r.client then e.server else CountIn(e.server, r.len),
                   d,
                   if e.lastDir != 0 && e.lastDir != d then (e.switches + 1) % U16 else e.switches),
         if Doh.Count(e) == 0 then now else f.first, now)
  }

  // A full window starts over at its last record's time; the link stays.
  function Settle(f: Flow, window: nat): Flow {
    if Doh.Count(f.stats) >= window then Flow(Doh.RESET, f.last, 0) else f
  }

  // --- the linked list ---------------------------------------------------------

  // Following nextFree from head visits chain from its last element to its
  // first and then ends.
  ghost predicate Linked(pool: seq<Entry>, head: nat, chain: seq<nat>)
    decreases |chain|
  {
    if chain == [] then head == INVALID
    else var top := chain[|chain| - 1];
         head == top && top < |pool| && Linked(pool, pool[top].nextFree, chain[..|chain| - 1])
  }

  // Writing an entry off the chain leaves the chain alone.
  lemma {:induction false} LinkedFrame(pool: seq<Entry>, head: nat, chain: seq<nat>, idx: nat, e: Entry)
    requires Linked(pool, head, chain) && idx < |pool| && idx !in chain
    ensures Linked(pool[idx := e], head, chain)
    decreases |chain|
  {
    if chain != [] {
      var top := chain[|chain| - 1];
      LinkedFrame(pool, pool[top].nextFree, chain[..|chain| - 1], idx, e);
    }
  }

  // So does writing statistics anywhere, which keeps every link.
  lemma {:induction false} LinkedStats(pool: seq<Entry>, head: nat, chain: seq<nat>, idx: nat, f: Flow)
    requires Linked(pool, head, chain) && idx < |pool|
    ensures Linked(pool[idx := pool[idx].(flow := f)], head, chain)
    decreases |chain|
  {
    if chain != [] {
      var top := chain[|chain| - 1];
      LinkedStats(pool, pool[top].nextFree, chain[..|chain| - 1], idx, f);
    }
  }

  lemma {:induction false} LinkedPush(pool: seq<Entry>, head: nat, chain: seq<nat>, idx: nat)
    requires Linked(pool, head, chain) && idx < |pool| && idx !in chain
    ensures Linked(pool[idx := pool[idx].(nextFree := head)], idx, chain + [idx])
  {
    LinkedFrame(pool, head, chain, idx, pool[idx].(nextFree := head));
    assert (chain + [idx])[..|chain|] == chain;
  }

  // Entries n-1 down to 0 pushed in that order: head 0, each linking to the next.
  function Descending(n: nat, i: nat): (s: seq<nat>)
    requires i <= n
    ensures |s| == n - i
    ensures forall k :: 0 <= k < |s| ==> s[k] == n - 1 - k
    decreases n - i
  {
    if i == n then [] else Descending(n, i + 1) + [i]
  }

  lemma {:induction false} InitialChain(pool: seq<Entry>, i: nat)
    requires |pool| >= 1 && i <= |pool|
    requires forall k: nat :: k < |pool| ==> pool[k].nextFree == if k + 1 < |pool| then k + 1 else INVALID
    ensures Linked(pool, if i < |pool| then i else INVALID, Descending(|pool|, i))
    decreases |pool| - i
  {
    if i < |pool| {
      InitialChain(pool, i + 1);
      var s := Descending(|pool|, i + 1);
      assert (s + [i])[..|s|] == s;
    }
  }

  // The entries met when following nextFree from head, last one first.
  function Follow(pool: seq<Entry>, head: nat, fuel: nat): seq<nat>
    decreases fuel
  {
    if fuel == 0 || head >= |pool| then [] else Follow(pool, pool[head].nextFree, fuel - 1) + [head]
  }

  lemma {:induction false} FollowIsChain(pool: seq<Entry>, head: nat, chain: seq<nat>, fuel: nat)
    requires Linked(pool, head, chain) && |pool| < INVALID && |chain| <= fuel
    ensures Follow(pool, head, fuel) == chain
    decreases fuel
  {
    if chain != [] {
      var rest := chain[..|chain| - 1];
      FollowIsChain(pool, pool[head].nextFree, rest, fuel - 1);
      assert chain == rest + [head];
    }
  }

  // --- the map it stands for ------------------------------------------------------

  ghost function Flows<K>(hash: map<K, nat>, pool: seq<Entry>): (t: map<K, Flow>)
    requires forall k :: k in hash ==> hash[k] < |pool|
    ensures t.Keys == hash.Keys
  {
    map k | k in hash :: pool[hash[k]].flow
  }

  lemma {:induction false} FlowsFrame<K>(hash: map<K, nat>, pool: seq<Entry>, idx: nat, e: Entry)
    requires (forall k :: k in hash ==> hash[k] < |pool| && hash[k] != idx) && idx < |pool|
    ensures Flows(hash, pool[idx := e]) == Flows(hash, pool)
  {}

  lemma {:induction false} FlowsPut<K>(hash: map<K, nat>, pool: seq<Entry>, key: K, idx: nat, e: Entry)
    requires (forall k :: k in hash ==> hash[k] < |pool|) && idx < |pool|
    requires forall k :: k in hash && k != key ==> hash[k] != idx
    ensures Flows(hash[key := idx], pool[idx := e]) == Flows(hash, pool)[key := e.flow]
  {}

  // The top of the free list is mapped by no key.
  lemma {:induction false} TopUnmapped<K>(l: Ledger<K>)
    requires l.free != []
    ensures var idx := l.free[|l.free| - 1];
            idx < l.capacity && idx !in l.free[..|l.free| - 1] && forall k :: k in l.slots ==> l.slots[k] != idx
  {}

  function Handled<K>(t: map<K, Flow>, key: K, r: Doh.Rec, now: nat, insertOk: bool, window: nat, capacity: nat)
    : map<K, Flow>
  {
    if key in t then t[key := Settle(UpdateFlow(t[key], r, now), window)]
    else if |t| < capacity && insertOk then t[key := Settle(UpdateFlow(EMPTY, r, now), window)]
    else t
  }

  const ZEROED := Entry(Flow(Doh.Entry(Doh.Side(0, 0, 0, 0, 0), Doh.Side(0, 0, 0, 0, 0), 0, 0), 0, 0), 0)

  // Link every entry to the next one.
  method LinkAll(pool: array<Entry>)
    requires pool.Length >= 1
    modifies pool
    ensures forall k: nat :: k < pool.Length ==> pool[k].nextFree == if k + 1 < pool.Length then k + 1 else INVALID
  {
    for i := 0 to pool.Length - 1
      invariant forall k: nat :: k < i ==> pool[k].nextFree == k + 1
    {
      pool[i] := pool[i].(nextFree := i + 1);
    }
    pool[pool.Length - 1] := pool[pool.Length - 1].(nextFree := INVALID);
  }

  class FlowTable<K(==)> {
    var hash: map<K, nat>
    const pool: array<Entry>
    var freeHead: nat
    var freeCount: nat
    ghost var ledger: Ledger<K>
    ghost var table: map<K, Flow>

    ghost predicate Valid()
      reads this, pool
    {
      && pool.Length < INVALID
      && ledger.slots == hash && ledger.capacity == pool.Length && |ledger.free| == freeCount
      && Linked(pool[..], freeHead, ledger.free)
      && table == Flows(hash, pool[..])
    }

    constructor (capacity: nat)
      requires 1 <= capacity < INVALID
      ensures Valid() && table == map[] && fresh(pool) && pool.Length == capacity && freeCount == capacity
    {
      pool := new Entry[capacity](_ => ZEROED);
      hash := map[];
      freeHead := 0;
      freeCount := capacity;
      table := map[];
      new;
      LinkAll(pool);
      InitialChain(pool[..], 0);
      ledger := Raw(Descending(capacity, 0), map[], capacity);
    }

    // Unlink and clear the first free entry.
    method AllocEntry(ghost chain: seq<nat>) returns (idx: nat)
      requires Linked(pool[..], freeHead, chain) && |chain| == freeCount && pool.Length < INVALID
      requires chain != [] ==> chain[|chain| - 1] !in chain[..|chain| - 1]
      modifies this`freeHead, this`freeCount, pool
      ensures (idx == INVALID) == (chain == [])
      ensures chain == [] ==> pool[..] == old(pool[..]) && freeHead == old(freeHead) && freeCount == old(freeCount)
      ensures chain != [] ==> idx == old(freeHead) == chain[|chain| - 1] && idx < pool.Length
      ensures chain != [] ==> freeCount == old(freeCount) - 1 && pool[..] == old(pool[..])[idx := Entry(EMPTY, 0)]
      ensures chain != [] ==> Linked(pool[..], freeHead, chain[..|chain| - 1])
    {
      if freeCount == 0 { return INVALID; }
      idx := freeHead;
      freeHead := pool[idx].nextFree;
      freeCount := freeCount - 1;
      LinkedFrame(pool[..], freeHead, chain[..|chain| - 1], idx, Entry(EMPTY, 0));
      pool[idx] := Entry(EMPTY, 0);
    }

    method FreeEntry(idx: nat, ghost chain: seq<nat>)
      requires idx < pool.Length && idx !in chain && Linked(pool[..], freeHead, chain)
      modifies this`freeHead, this`freeCount, pool
      ensures freeCount == old(freeCount) + 1 && freeHead == idx && Linked(pool[..], freeHead, chain + [idx])
      ensures pool[..] == old(pool[..])[idx := old(pool[idx]).(nextFree := old(freeHead))]
    {
      LinkedPush(pool[..], freeHead, chain, idx);
      pool[idx] := pool[idx].(nextFree := freeHead);
      freeHead := idx;
      freeCount := freeCount + 1;
    }

    lemma {:induction false} Counted()
      requires Valid()
      ensures |table| == |hash| == pool.Length - freeCount
    {
      LedgerCard(ledger);
      assert |table.Keys| == |hash.Keys|;
    }

    // The free list holds freeCount distinct entries, none of them mapped, and
    // every other entry is mapped.
    lemma {:induction false} FreeListComplete()
      requires Valid()
      ensures var free := Follow(pool[..], freeHead, pool.Length);
              && |free| == freeCount && Distinct(free)
              && SeqSet(free) !! Slots(hash) && SeqSet(free) + Slots(hash) == Range(pool.Length)
    {
      LedgerCard(ledger);
      FollowIsChain(pool[..], freeHead, ledger.free, pool.Length);
      NoSlotLost(ledger.free, hash, pool.Length);
    }

    // A new key takes the first free entry; a failing insert puts it back and
    // the list is as it was.
    method Attach(key: K, insertOk: bool) returns (ok: bool)
      requires Valid() && key !in hash
      modifies this, pool
      ensures Valid() && ok == (old(freeCount) > 0 && insertOk)
      ensures ok ==> key in hash && table == old(table)[key := EMPTY]
      ensures !ok ==> table == old(table) && ledger == old(ledger) && freeHead == old(freeHead)
    {
      ghost var chain := ledger.free;
      if chain != [] { TopUnmapped(ledger); }
      var idx := AllocEntry(chain);
      if idx == INVALID { return false; }
      if insertOk {
        Adopt(key, idx, old(pool[..]));
        ok := true;
      } else {
        GiveBack(idx, old(pool[..]));
        ok := false;
      }
    }

    // The hash refused: free_entry undoes alloc_entry's unlinking.
    method GiveBack(idx: nat, ghost before: seq<Entry>)
      requires pool.Length < INVALID && |before| == pool.Length
      requires ledger.slots == hash && ledger.capacity == pool.Length
      requires ledger.free != [] && idx == ledger.free[|ledger.free| - 1] && freeCount == |ledger.free| - 1
      requires table == Flows(hash, before) && pool[..] == before[idx := Entry(EMPTY, 0)]
      requires Linked(pool[..], freeHead, ledger.free[..|ledger.free| - 1])
      modifies this`freeHead, this`freeCount, pool
      ensures Valid() && freeHead == idx
    {
      TopUnmapped(ledger);
      ghost var rest := ledger.free[..|ledger.free| - 1];
      assert ledger.free == rest + [idx];
      FlowsFrame(hash, before, idx, Entry(EMPTY, 0));
      FlowsFrame(hash, pool[..], idx, pool[idx].(nextFree := freeHead));
      FreeEntry(idx, rest);
    }

    method Adopt(key: K, idx: nat, ghost before: seq<Entry>)
      requires key !in hash && pool.Length < INVALID && |before| == pool.Length
      requires ledger.slots == hash && ledger.capacity == pool.Length
      requires ledger.free != [] && idx == ledger.free[|ledger.free| - 1] && freeCount == |ledger.free| - 1
      requires table == Flows(hash, before) && pool[..] == before[idx := Entry(EMPTY, 0)]
      requires Linked(pool[..], freeHead, ledger.free[..|ledger.free| - 1])
      modifies this`hash, this`ledger, this`table
      ensures Valid() && key in hash && table == old(table)[key := EMPTY]
    {
      TopUnmapped(ledger);
      FlowsPut(hash, before, key, idx, Entry(EMPTY, 0));
      ghost var claimed := Claim(ledger, key);
      assert claimed.slots == hash[key := idx] && claimed.free == ledger.free[..|ledger.free| - 1];
      ledger := claimed;
      hash := hash[key := idx];
      table := table[key := EMPTY];
    }

    // One record: the flow is found or set up, updated, and settled when full.
    method HandleRecord(key: K, r: Doh.Rec, now: nat, insertOk: bool, window: nat)
      requires Valid()
      modifies this, pool
      ensures Valid() && table == Handled(old(table), key, r, now, insertOk, window, pool.Length)
    {
      Counted();
      if key !in hash {
        var ok := Attach(key, insertOk);
        if !ok { return; }
      }
      assert key in table;
      PutTwice(old(table), key, EMPTY, Settle(UpdateFlow(table[key], r, now), window));
      Store(key, Settle(UpdateFlow(pool[hash[key]].flow, r, now), window));
    }

    // update_flow and finalize_window write statistics only, never the link.
    method Store(key: K, f: Flow)
      requires Valid() && key in hash
      modifies pool, this`table
      ensures Valid() && table == old(table)[key := f]
    {
      var idx := hash[key];
      LinkedStats(pool[..], freeHead, ledger.free, idx, f);
      FlowsPut(hash, pool[..], key, idx, pool[idx].(flow := f));
      assert hash[key := idx] == hash;
      pool[idx] := pool[idx].(flow := f);
      table := table[key := f];
    }
  }

  // --- the benchmark against the profile ---------------------------------------

  // The table after a run of records.
  function TableAfter<K>(events: seq<Event<K, Doh.Rec>>, times: seq<nat>, window: nat, capacity: nat): map<K, Flow>
    requires |events| == |times|
  {
    if events == [] then map[]
    else var n := |events| - 1;
         Handled(TableAfter(events[..n], times[..n], window, capacity),
                 events[n].key, events[n].rec, times[n], events[n].insertOk, window, capacity)
  }

  ghost predicate SideReset(s: Doh.Side) {
    s.count == 0 ==> s.min == U32 - 1 && s.max == 0
  }

  lemma {:induction false} CountsSmall(s: seq<Doh.Rec>)
    requires Doh.Valid(s)
    ensures Doh.EntryOf(s).client.count < U16 && Doh.EntryOf(s).server.count < U16
  {
    Doh.EntryAgrees(s);
    Doh.OfFacts(s);
  }

  lemma {:induction false} StillReset(e: Doh.Entry, r: Doh.Rec)
    requires SideReset(e.client) && SideReset(e.server) && e.client.count < U16 && e.server.count < U16
    ensures SideReset(Doh.Update(e, r).client) && SideReset(Doh.Update(e, r).server)
  {}

  // A direction without records still holds its reset extremes.
  lemma {:induction false} SidesReset(s: seq<Doh.Rec>)
    requires Doh.Valid(s)
    ensures SideReset(Doh.EntryOf(s).client) && SideReset(Doh.EntryOf(s).server)
  {
    if s != [] {
      var before := s[..|s| - 1];
      SidesReset(before);
      CountsSmall(before);
      StillReset(Doh.EntryOf(before), s[|s| - 1]);
    }
  }

  // Without the profile's first-record test the statistics come out the same.
  lemma {:induction false} UpdateIsProfile(f: Flow, s: seq<Doh.Rec>, r: Doh.Rec, now: nat)
    requires Doh.Valid(s) && f.stats == Doh.EntryOf(s) && r.len < U16
    ensures UpdateFlow(f, r, now).stats == Doh.Update(Doh.EntryOf(s), r) == Doh.EntryOf(s + [r])
  {
    SidesReset(s);
    assert (s + [r])[..|s|] == s;
  }

  ghost predicate HoldsWindows<K>(t: map<K, Flow>, open: map<K, seq<Doh.Rec>>, window: nat) {
    && t.Keys == open.Keys
    && forall k :: k in t ==> Doh.Valid(open[k]) && |open[k]| < window && t[k].stats == Doh.EntryOf(open[k])
  }

  lemma {:induction false} SettleIsWindow(f: Flow, s: seq<Doh.Rec>, window: nat)
    requires Doh.Valid(s) && f.stats == Doh.EntryOf(s)
    ensures Settle(f, window).stats == Doh.EntryOf(if |s| >= window then [] else s)
  {
    Doh.EntryAgrees(s);
  }

  lemma {:induction false} HoldsPut<K>(t: map<K, Flow>, open: map<K, seq<Doh.Rec>>, key: K, f: Flow, s: seq<Doh.Rec>,
      window: nat)
    requires HoldsWindows(t, open, window)
    requires Doh.Valid(s) && |s| < window && f.stats == Doh.EntryOf(s)
    ensures HoldsWindows(t[key := f], open[key := s], window)
  {}

  // One record of one flow, against the profile's open window.
  lemma {:induction false} FlowStep(f: Flow, s: seq<Doh.Rec>, r: Doh.Rec, now: nat, window: nat)
    requires Doh.Valid(s) && f.stats == Doh.EntryOf(s) && |s| < window < U16 && r.len < U16
    ensures var c := if |s| + 1 >= window then [] else s + [r];
            Doh.Valid(c) && |c| < window && Settle(UpdateFlow(f, r, now), window).stats == Doh.EntryOf(c)
  {
    UpdateIsProfile(f, s, r, now);
    SettleIsWindow(UpdateFlow(f, r, now), s + [r], window);
  }

  lemma {:induction false} HandledPuts<K>(t: map<K, Flow>, w: Win<K, Doh.Rec>, e: Event<K, Doh.Rec>, now: nat,
      window: nat, capacity: nat)
    requires t.Keys == w.open.Keys
    ensures var f, s := if e.key in t then t[e.key] else EMPTY, OpenOf(w, e.key);
            if Admits(w, e, capacity) then
              && Handled(t, e.key, e.rec, now, e.insertOk, window, capacity)
                  == t[e.key := Settle(UpdateFlow(f, e.rec, now), window)]
              && Feed(w, e, window, capacity).open == w.open[e.key := if |s| + 1 >= window then [] else s + [e.rec]]
            else
              Handled(t, e.key, e.rec, now, e.insertOk, window, capacity) == t && Feed(w, e, window, capacity) == w
  {
    assert |t.Keys| == |w.open.Keys|;
  }

  lemma {:induction false} StepHolds<K>(t: map<K, Flow>, w: Win<K, Doh.Rec>, e: Event<K, Doh.Rec>, now: nat,
      window: nat, capacity: nat)
    requires HoldsWindows(t, w.open, window) && 1 <= window < U16 && e.rec.len < U16
    ensures HoldsWindows(Handled(t, e.key, e.rec, now, e.insertOk, window, capacity),
                         Feed(w, e, window, capacity).open, window)
  {
    HandledPuts(t, w, e, now, window, capacity);
    if Admits(w, e, capacity) {
      var f, s := if e.key in t then t[e.key] else EMPTY, OpenOf(w, e.key);
      FlowStep(f, s, e.rec, now, window);
      HoldsPut(t, w.open, e.key, Settle(UpdateFlow(f, e.rec, now), window),
               if |s| + 1 >= window then [] else s + [e.rec], window);
    }
  }

  // Over every run, with its own allocator and refused inserts, the benchmark's
  // table holds for each flow the profile's statistics of its open window.
  lemma {:induction false} TableIsOpenWindows<K>(events: seq<Event<K, Doh.Rec>>, times: seq<nat>, window: nat,
      capacity: nat)
    requires |events| == |times| && 1 <= window < U16
    requires forall i :: 0 <= i < |events| ==> events[i].rec.len < U16
    ensures HoldsWindows(TableAfter(events, times, window, capacity), Run(events, window, capacity).open, window)
  {
    if events != [] {
      var n := |events| - 1;
      TableIsOpenWindows(events[..n], times[..n], window, capacity);
      StepHolds(TableAfter(events[..n], times[..n], window, capacity), Run(events[..n], window, capacity),
                events[n], times[n], window, capacity);
    }
  }

  // --- the time stamps ------------------------------------------------------------

  // The same run with arrival times in place of records.
  function Timed<K>(events: seq<Event<K, Doh.Rec>>, times: seq<nat>): seq<Event<K, nat>>
    requires |events| == |times|
  {
    seq(|events|, i requires 0 <= i < |events| => Event(events[i].key, times[i], events[i].insertOk))
  }

  lemma {:induction false} TimedPrefix<K>(events: seq<Event<K, Doh.Rec>>, times: seq<nat>, n: nat)
    requires |events| == |times| && n <= |events|
    ensures Timed(events, times)[..n] == Timed(events[..n], times[..n])
  {}

  ghost predicate SameShape<K>(a: Win<K, Doh.Rec>, b: Win<K, nat>) {
    a.open.Keys == b.open.Keys && forall k :: k in a.open ==> |a.open[k]| == |b.open[k]|
  }

  lemma {:induction false} ShapeStep<K>(a: Win<K, Doh.Rec>, b: Win<K, nat>, e: Event<K, Doh.Rec>, now: nat,
      window: nat, capacity: nat)
    requires SameShape(a, b)
    ensures SameShape(Feed(a, e, window, capacity), Feed(b, Event(e.key, now, e.insertOk), window, capacity))
    ensures Admits(a, e, capacity) == Admits(b, Event(e.key, now, e.insertOk), capacity)
  {
    assert |a.open.Keys| == |b.open.Keys|;
  }

  lemma {:induction false} SameShapes<K>(events: seq<Event<K, Doh.Rec>>, times: seq<nat>, window: nat, capacity: nat)
    requires |events| == |times|
    ensures SameShape(Run(events, window, capacity), Run(Timed(events, times), window, capacity))
  {
    if events != [] {
      var n := |events| - 1;
      SameShapes(events[..n], times[..n], window, capacity);
      TimedPrefix(events, times, n);
      ShapeStep(Run(events[..n], window, capacity), Run(Timed(events[..n], times[..n]), window, capacity),
                events[n], times[n], window, capacity);
    }
  }

  // A flow's stamps are those of its open window's first and last record; right
  // after a full window, the time of its last record and zero.
  ghost predicate StampsHold(f: Flow, all: seq<nat>, open: seq<nat>) {
    if open == [] then all != [] && f.first == all[|all| - 1] && f.last == 0
    else f.first == open[0] && f.last == open[|open| - 1]
  }

  lemma {:induction false} StampStep(f: Flow, s: seq<Doh.Rec>, r: Doh.Rec, now: nat, window: nat, all: seq<nat>,
      open: seq<nat>)
    requires Doh.Valid(s) && f.stats == Doh.EntryOf(s) && |s| == |open| < window < U16 && r.len < U16
    requires open != [] ==> StampsHold(f, all, open)
    ensures StampsHold(Settle(UpdateFlow(f, r, now), window), all + [now],
                       if |open| + 1 >= window then [] else open + [now])
  {
    UpdateIsProfile(f, s, r, now);
    Doh.EntryAgrees(s);
    Doh.EntryAgrees(s + [r]);
  }

  lemma {:induction false} StampsNext<K>(t: map<K, Flow>, w: Win<K, Doh.Rec>, u: Win<K, nat>, e: Event<K, Doh.Rec>,
      now: nat, window: nat, capacity: nat, key: K, all: seq<nat>)
    requires HoldsWindows(t, w.open, window) && SameShape(w, u) && 1 <= window < U16 && e.rec.len < U16
    requires key in t ==> StampsHold(t[key], all, OpenOf(u, key))
    ensures var x, t' := Event(e.key, now, e.insertOk), Handled(t, e.key, e.rec, now, e.insertOk, window, capacity);
            var all' := all + if e.key == key && Admits(u, x, capacity) then [now] else [];
            key in t' ==> StampsHold(t'[key], all', OpenOf(Feed(u, x, window, capacity), key))
  {
    var x := Event(e.key, now, e.insertOk);
    HandledPuts(t, w, e, now, window, capacity);
    ShapeStep(w, u, e, now, window, capacity);
    assert all + [] == all;
    if e.key == key && Admits(u, x, capacity) {
      var f, s, open := if key in t then t[key] else EMPTY, OpenOf(w, key), OpenOf(u, key);
      StampStep(f, s, e.rec, now, window, all, open);
      assert OpenOf(Feed(u, x, window, capacity), key) == if |open| + 1 >= window then [] else open + [now];
    } else {
      FeedOther(u, x, window, capacity, key);
    }
  }

  // Over every run each flow carries the stamps of its own records.
  lemma {:induction false} TableStamps<K>(events: seq<Event<K, Doh.Rec>>, times: seq<nat>, window: nat, capacity: nat,
      key: K)
    requires |events| == |times| && 1 <= window < U16
    requires forall i :: 0 <= i < |events| ==> events[i].rec.len < U16
    ensures var t, ev := TableAfter(events, times, window, capacity), Timed(events, times);
            key in t ==> StampsHold(t[key], Accepted(ev, key, window, capacity), OpenOf(Run(ev, window, capacity), key))
  {
    if events != [] {
      var n := |events| - 1;
      TableStamps(events[..n], times[..n], window, capacity, key);
      TableIsOpenWindows(events[..n], times[..n], window, capacity);
      SameShapes(events[..n], times[..n], window, capacity);
      TimedPrefix(events, times, n);
      var ev := Timed(events[..n], times[..n]);
      StampsNext(TableAfter(events[..n], times[..n], window, capacity), Run(events[..n], window, capacity),
                 Run(ev, window, capacity), events[n], times[n], window, capacity, key,
                 Accepted(ev, key, window, capacity));
    }
  }
}
