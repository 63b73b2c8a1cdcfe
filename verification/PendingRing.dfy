// The benchmark's ring of pending Modbus requests: it overwrites its oldest
// entry, and a response takes the first valid slot with its key.
module PendingRing {
  import opened LinearLayer
  import opened ModbusTracker

  const CAP: nat := 1024

  // The write index is masked; the capacity is a power of two.
  lemma {:induction false} MaskIsModulo(x: bv32)
    ensures x & 1023 == x % 1024 && CAP == 1024
  {}

  datatype Slot = Slot(valid: bool, req: Request)

  // Every request added so far, and which of them were taken.
  datatype History = History(adds: seq<Request>, taken: set<nat>)

  // Still in the ring and not taken.
  predicate Live(h: History, j: nat) {
    j < |h.adds| && |h.adds| - CAP <= j && j !in h.taken
  }

  predicate Matches(h: History, j: nat, key: ReqKey) {
    Live(h, j) && h.adds[j].key == key
  }

  ghost predicate Holds(slots: seq<Slot>, h: History, j: nat)
    requires |slots| == CAP && j < |h.adds|
  {
    slots[j % CAP] == Slot(j !in h.taken, h.adds[j])
  }

  ghost predicate Represents(slots: seq<Slot>, h: History) {
    && |slots| == CAP
    && (forall j: nat :: j < |h.adds| && |h.adds| - CAP <= j ==> Holds(slots, h, j))
    && (forall i: nat :: |h.adds| <= i < CAP ==> !slots[i].valid)
    && forall j: nat :: j in h.taken ==> j < |h.adds|
  }

  lemma {:induction false} ModDiffers(j: nat, m: nat)
    requires m - CAP < j < m
    ensures j % CAP != m % CAP
  {}

  lemma {:induction false} AddRepresents(slots: seq<Slot>, h: History, req: Request)
    requires Represents(slots, h)
    ensures Represents(slots[|h.adds| % CAP := Slot(true, req)], History(h.adds + [req], h.taken))
  {
    var m, h' := |h.adds|, History(h.adds + [req], h.taken);
    var slots' := slots[m % CAP := Slot(true, req)];
    forall j: nat | j < m + 1 && m + 1 - CAP <= j ensures Holds(slots', h', j) {
      if j < m {
        ModDiffers(j, m);
        assert Holds(slots, h, j);
      }
    }
  }

  lemma {:induction false} TakeRepresents(slots: seq<Slot>, h: History, j: nat)
    requires Represents(slots, h) && Live(h, j)
    ensures Represents(slots[j % CAP := slots[j % CAP].(valid := false)], History(h.adds, h.taken + {j}))
  {
    var h' := History(h.adds, h.taken + {j});
    var slots' := slots[j % CAP := slots[j % CAP].(valid := false)];
    assert Holds(slots, h, j);
    forall i: nat | i < |h.adds| && |h.adds| - CAP <= i ensures Holds(slots', h', i) {
      assert Holds(slots, h, i);
      if i < j { ModDiffers(i, j); }
      if j < i { ModDiffers(j, i); }
    }
  }

  // The addition that last wrote slot i.
  function Writer(i: nat, m: nat): (j: int)
    requires i < CAP
    ensures i < m ==> 0 <= j < m && m - CAP <= j && j % CAP == i
    ensures j < m
  {
    m - 1 - (m - 1 - i) % CAP
  }

  lemma {:induction false} SlotMatches(slots: seq<Slot>, h: History, i: nat, key: ReqKey)
    requires Represents(slots, h) && i < CAP
    ensures slots[i].valid && slots[i].req.key == key <==>
            Writer(i, |h.adds|) >= 0 && Matches(h, Writer(i, |h.adds|), key)
    ensures slots[i].valid ==> Writer(i, |h.adds|) >= 0 && h.adds[Writer(i, |h.adds|)] == slots[i].req
  {
    var m := |h.adds|;
    if i < m { assert Holds(slots, h, Writer(i, m)); }
  }

  lemma {:induction false} MatchSlot(h: History, j: nat, key: ReqKey)
    requires Matches(h, j, key)
    ensures Writer(j % CAP, |h.adds|) == j
  {
    SameSlot(Writer(j % CAP, |h.adds|), j);
  }

  lemma {:induction false} SameSlot(a: int, b: int)
    requires a % CAP == b % CAP && b - CAP < a < b + CAP
    ensures a == b
  {}

  // The live match in the lowest slot from i on.
  function Scan(h: History, key: ReqKey, i: nat): (r: Option<nat>)
    requires i <= CAP
    ensures r.Some? ==> Matches(h, r.value, key)
    decreases CAP - i
  {
    if i == CAP then None
    else
      var j := Writer(i, |h.adds|);
      if j >= 0 && Matches(h, j, key) then Some(j) else Scan(h, key, i + 1)
  }

  function Found(h: History, key: ReqKey): Option<nat> { Scan(h, key, 0) }

  ghost predicate LowestFrom(h: History, key: ReqKey, i: nat, j: nat) {
    Matches(h, j, key) && i <= j % CAP && forall k: nat :: Matches(h, k, key) && i <= k % CAP ==> j % CAP <= k % CAP
  }

  lemma {:induction false} ScanIsLowest(h: History, key: ReqKey, i: nat)
    requires i <= CAP
    ensures match Scan(h, key, i)
            case Some(j) => LowestFrom(h, key, i, j)
            case None => forall k: nat :: Matches(h, k, key) ==> k % CAP < i
    decreases CAP - i
  {
    forall k: nat | Matches(h, k, key) && k % CAP == i ensures Writer(i, |h.adds|) == k {
      MatchSlot(h, k, key);
    }
    if i < CAP {
      var j := Writer(i, |h.adds|);
      if !(j >= 0 && Matches(h, j, key)) { ScanIsLowest(h, key, i + 1); }
    }
  }

  // A request is found exactly when one with the key is among the last CAP
  // additions and not yet taken; of several, the one in the lowest slot.
  lemma {:induction false} FoundIsLowest(h: History, key: ReqKey)
    ensures Found(h, key).Some? <==> exists j: nat :: Matches(h, j, key)
    ensures Found(h, key).Some? ==>
              var j := Found(h, key).value;
              Matches(h, j, key) && forall k: nat :: Matches(h, k, key) ==> j % CAP <= k % CAP
  {
    ScanIsLowest(h, key, 0);
  }

  // One addition, or one search that takes what it finds.
  function Step(h: History, op: Op): History {
    match op
    case Add(req, _) => History(h.adds + [req], h.taken)
    case Take(key) =>
      match Found(h, key)
      case Some(j) => History(h.adds, h.taken + {j})
      case None => h
  }

  function Answer(h: History, key: ReqKey): Option<Request> {
    match Found(h, key)
    case Some(j) => Some(h.adds[j])
    case None => None
  }

  class Ring {
    const slots: array<Slot>
    var wr: nat
    ghost var h: History

    ghost predicate Valid()
      reads this, slots
    {
      slots.Length == CAP && wr == |h.adds| % CAP && Represents(slots[..], h)
    }

    constructor (zero: Request)
      ensures Valid() && fresh(slots) && h == History([], {})
    {
      slots := new Slot[CAP](_ => Slot(false, zero));
      wr := 0;
      h := History([], {});
    }

    method AddPending(req: Request)
      requires Valid()
      modifies this, slots
      ensures Valid() && h == Step(old(h), Op.Add(req, true))
    {
      AddRepresents(slots[..], h, req);
      slots[wr] := Slot(true, req);
      wr := (wr + 1) % CAP;
      h := History(h.adds + [req], h.taken);
    }

    method Invalidate(i: nat, ghost j: nat)
      requires Valid() && i < CAP && Live(h, j) && j % CAP == i
      modifies this`h, slots
      ensures Valid() && h == History(old(h).adds, old(h).taken + {j})
    {
      TakeRepresents(slots[..], h, j);
      slots[i] := slots[i].(valid := false);
      h := History(h.adds, h.taken + {j});
    }

    // The first valid slot with the key, which is then no longer valid.
    method FindPending(key: ReqKey) returns (out: Option<Request>)
      requires Valid()
      modifies this`h, slots
      ensures Valid() && out == Answer(old(h), key) && h == Step(old(h), Op.Take(key))
    {
      for i := 0 to CAP
        invariant Valid() && h == old(h) && Found(h, key) == Scan(h, key, i)
      {
        SlotMatches(slots[..], h, i, key);
        if slots[i].valid && slots[i].req.key == key {
          out := Some(slots[i].req);
          Invalidate(i, Writer(i, |h.adds|));
          return;
        }
      }
      out := None;
    }
  }

  // --- what a run leaves ------------------------------------------------------------

  function After(ops: seq<Op>): History {
    if ops == [] then History([], {}) else Step(After(ops[..|ops| - 1]), ops[|ops| - 1])
  }

  // Requests added and not yet answered: each key's index among the additions.
  datatype Pending = Pending(index: map<ReqKey, nat>, added: nat)

  function PendingAfter(ops: seq<Op>): Pending {
    if ops == [] then Pending(map[], 0)
    else var p := PendingAfter(ops[..|ops| - 1]);
         match ops[|ops| - 1]
         case Add(req, _) => Pending(p.index[req.key := p.added], p.added + 1)
         case Take(key) => Pending(p.index - {key}, p.added)
  }

  lemma {:induction false} UnboundedIsPending(ops: seq<Op>)
    ensures var p, h, t := PendingAfter(ops), After(ops), Unbounded(ops);
            && p.added == |h.adds| && t.Keys == p.index.Keys
            && forall k :: k in t ==> p.index[k] < |h.adds| && t[k] == h.adds[p.index[k]] && t[k].key == k
  {
    if ops != [] { UnboundedIsPending(ops[..|ops| - 1]); }
  }

  // Outstanding and among the last CAP additions.
  ghost predicate InReach(p: Pending, key: ReqKey) {
    key in p.index && p.added - CAP <= p.index[key]
  }

  // No request reuses the key of one that the ring would still hold beside it.
  ghost predicate UniqueKeys(ops: seq<Op>) {
    ops != [] ==>
      && UniqueKeys(ops[..|ops| - 1])
      && (ops[|ops| - 1].Add? ==> Unused(PendingAfter(ops[..|ops| - 1]), ops[|ops| - 1].req.key))
  }

  ghost predicate Unused(p: Pending, key: ReqKey) { key in p.index ==> p.index[key] <= p.added - CAP }

  ghost predicate Outstanding(p: Pending, h: History, j: nat)
    requires j < |h.adds|
  {
    h.adds[j].key in p.index && p.index[h.adds[j].key] == j
  }

  // Within the ring's reach, untaken and outstanding are the same.
  ghost predicate Tracks(p: Pending, h: History) {
    && p.added == |h.adds|
    && (forall k :: k in p.index ==> p.index[k] < p.added && h.adds[p.index[k]].key == k)
    && (forall j: nat :: j < |h.adds| && |h.adds| - CAP <= j ==> (j !in h.taken <==> Outstanding(p, h, j)))
    && forall j: nat :: j in h.taken ==> j < |h.adds|
  }

  lemma {:induction false} AddTracks(p: Pending, h: History, req: Request)
    requires Tracks(p, h) && Unused(p, req.key)
    ensures Tracks(Pending(p.index[req.key := p.added], p.added + 1), History(h.adds + [req], h.taken))
  {
    var p', h' := Pending(p.index[req.key := p.added], p.added + 1), History(h.adds + [req], h.taken);
    forall j: nat | j < |h'.adds| && |h'.adds| - CAP <= j ensures j !in h'.taken <==> Outstanding(p', h', j) {
      if j < |h.adds| { assert j !in h.taken <==> Outstanding(p, h, j); }
    }
  }

  lemma {:induction false} TracksFound(p: Pending, h: History, key: ReqKey)
    requires Tracks(p, h)
    ensures Found(h, key) == if InReach(p, key) then Some(p.index[key]) else None
  {
    FoundIsLowest(h, key);
    forall j: nat | Matches(h, j, key) ensures InReach(p, key) && j == p.index[key] {
      assert Outstanding(p, h, j);
    }
    if InReach(p, key) {
      assert Outstanding(p, h, p.index[key]);
      assert Matches(h, p.index[key], key);
    }
  }

  lemma {:induction false} TakeTracks(p: Pending, h: History, key: ReqKey)
    requires Tracks(p, h)
    ensures Tracks(Pending(p.index - {key}, p.added), Step(h, Op.Take(key)))
  {
    TracksFound(p, h, key);
    var p', h' := Pending(p.index - {key}, p.added), Step(h, Op.Take(key));
    forall j: nat | j < |h'.adds| && |h'.adds| - CAP <= j ensures j !in h'.taken <==> Outstanding(p', h', j) {
      assert j !in h.taken <==> Outstanding(p, h, j);
    }
  }

  lemma {:induction false} RingTracks(ops: seq<Op>)
    requires UniqueKeys(ops)
    ensures Tracks(PendingAfter(ops), After(ops))
  {
    if ops != [] {
      var before, op := ops[..|ops| - 1], ops[|ops| - 1];
      RingTracks(before);
      match op
      case Add(req, _) => AddTracks(PendingAfter(before), After(before), req);
      case Take(key) => TakeTracks(PendingAfter(before), After(before), key);
    }
  }

  // Then a response is matched exactly when its request is outstanding and
  // among the last CAP additions, and it is that request.
  lemma {:induction false} MatchedIff(ops: seq<Op>, key: ReqKey)
    requires UniqueKeys(ops)
    ensures var p := PendingAfter(ops); Found(After(ops), key) == if InReach(p, key) then Some(p.index[key]) else None
  {
    RingTracks(ops);
    TracksFound(PendingAfter(ops), After(ops), key);
  }

  function TrackerAnswer(t: Table, key: ReqKey): Option<Request> { if key in t then Some(t[key]) else None }

  // And with room in the tracker, ring and tracker answer alike exactly when
  // the request was not overwritten.
  lemma {:induction false} AgreesWithTracker(ops: seq<Op>, capacity: nat, key: ReqKey)
    requires UniqueKeys(ops) && Roomy(ops, capacity)
    ensures var t := Run(ops, capacity);
            Answer(After(ops), key) == TrackerAnswer(t, key) <==> (key in t ==> InReach(PendingAfter(ops), key))
  {
    RoomyIsUnbounded(ops, capacity);
    UnboundedIsPending(ops);
    MatchedIff(ops, key);
  }
}
