// The bounded queue between a profile and the classifier.
module FeatureQueue {

  const QUEUE_SIZE: nat := 64

  // A vector is offered when a window is full; a full queue drops it.
  function Offer<V>(queue: seq<V>, full: bool, v: V): seq<V> {
    if full && |queue| < QUEUE_SIZE then queue + [v] else queue
  }

  function Drops<V>(queue: seq<V>, full: bool): nat {
    if full && |queue| >= QUEUE_SIZE then 1 else 0
  }

  // A queue of QUEUE_SIZE keeps the first vectors offered and drops the rest.
  function Kept<V>(queue: seq<V>, offered: seq<V>): seq<V> {
    if |queue + offered| <= QUEUE_SIZE then queue + offered else (queue + offered)[..QUEUE_SIZE]
  }

  function Lost<V>(queue: seq<V>, offered: seq<V>): nat {
    if |queue + offered| <= QUEUE_SIZE then 0 else |queue + offered| - QUEUE_SIZE
  }

  lemma {:induction false} KeptStep<V>(queue: seq<V>, offered: seq<V>, v: V)
    requires |queue| <= QUEUE_SIZE
    ensures var q := Kept(queue, offered);
            && Kept(queue, offered + [v]) == (if |q| < QUEUE_SIZE then q + [v] else q)
            && Lost(queue, offered + [v]) == Lost(queue, offered) + if |q| < QUEUE_SIZE then 0 else 1
  {
    assert queue + (offered + [v]) == (queue + offered) + [v];
  }

  lemma {:induction false} KeptAll<V>(queue: seq<V>, a: seq<V>, b: seq<V>)
    requires |queue| <= QUEUE_SIZE
    ensures Kept(Kept(queue, a), b) == Kept(queue, a + b)
    ensures Lost(queue, a + b) == Lost(queue, a) + Lost(Kept(queue, a), b)
  {
    assert queue + (a + b) == (queue + a) + b;
  }

  // A profile that emits at most one vector a packet offers a burst of at most one.
  lemma {:induction false} OfferIsKept<V>(queue: seq<V>, full: bool, v: V)
    requires |queue| <= QUEUE_SIZE
    ensures var burst := if full then [v] else [];
            Offer(queue, full, v) == Kept(queue, burst) && Drops(queue, full) == Lost(queue, burst)
  {
    assert queue + [] == queue;
  }

  lemma {:induction false} PrefixNext<T>(s: seq<T>, n: nat)
    requires n < |s|
    ensures s[..n + 1] == s[..n] + [s[n]]
  {}

  // Position i places after h.
  function At(h: nat, i: nat): (p: nat)
    ensures p < QUEUE_SIZE
  {
    (h + i) % QUEUE_SIZE
  }

  lemma {:induction false} AtNext(h: nat, i: nat)
    ensures At(At(h, 1), i) == At(h, i + 1) && At(At(h, i), 1) == At(h, i + 1)
  {
    AtAt(h, 1, i);
    AtAt(h, i, 1);
  }

  lemma {:induction false} AtAt(h: nat, i: nat, j: nat)
    ensures At(At(h, i), j) == At(h, i + j)
  {
    var d := (h + i) / QUEUE_SIZE;
    assert h + i == QUEUE_SIZE * d + At(h, i);
  }

  lemma {:induction false} AtDiffers(h: nat, i: nat, j: nat)
    requires i < j < i + QUEUE_SIZE
    ensures At(h, i) != At(h, j)
  {}

  // The queued items, oldest first, sit in the ring from head on.
  ghost predicate Holds<T>(items: seq<T>, head: nat, contents: seq<T>) {
    && |items| == QUEUE_SIZE
    && forall i: nat {:trigger At(head, i)} :: i < |contents| ==> contents[i] == items[At(head, i)]
  }

  lemma {:induction false} HoldsPush<T>(items: seq<T>, head: nat, contents: seq<T>, v: T)
    requires Holds(items, head, contents) && |contents| < QUEUE_SIZE
    ensures Holds(items[At(head, |contents|) := v], head, contents + [v])
  {
    var n, items', contents' := |contents|, items[At(head, |contents|) := v], contents + [v];
    forall i: nat {:trigger At(head, i)} | i < n + 1 ensures contents'[i] == items'[At(head, i)] {
      if i < n { AtDiffers(head, i, n); }
    }
  }

  lemma {:induction false} HoldsPop<T>(items: seq<T>, head: nat, contents: seq<T>)
    requires Holds(items, head, contents) && contents != []
    ensures contents[0] == items[At(head, 0)] && Holds(items, At(head, 1), contents[1..])
  {
    var rest, h := contents[1..], At(head, 1);
    forall i: nat {:trigger At(h, i)} | i < |rest| ensures rest[i] == items[At(h, i)] {
      AtNext(head, i);
      assert contents[i + 1] == items[At(head, i + 1)];
    }
  }

  class Queue<T> {
    const items: array<T>
    var head: nat
    var tail: nat
    var count: nat
    var dropped: nat
    ghost var contents: seq<T>

    ghost predicate Valid()
      reads this, items
    {
      && head == At(head, 0) && tail == At(head, count) && |contents| == count <= QUEUE_SIZE
      && items.Length == QUEUE_SIZE && Holds(items[..], head, contents)
    }

    constructor (zero: T)
      ensures Valid() && fresh(items) && contents == [] && dropped == 0
    {
      items := new T[QUEUE_SIZE](_ => zero);
      head, tail, count, dropped := 0, 0, 0, 0;
      contents := [];
    }

    method Push(v: T) returns (ok: bool)
      requires Valid()
      modifies this, items
      ensures Valid() && ok == (|old(contents)| < 64)
      ensures contents == if ok then old(contents) + [v] else old(contents)
      ensures dropped == old(dropped) + if ok then 0 else 1
    {
      if count == QUEUE_SIZE {
        dropped := dropped + 1;
        return false;
      }
      HoldsPush(items[..], head, contents, v);
      AtNext(head, count);
      items[tail] := v;
      tail := (tail + 1) % QUEUE_SIZE;
      count := count + 1;
      ok := true;
      contents := contents + [v];
    }

    method Pop() returns (some: bool, v: T)
      requires Valid()
      modifies this`head, this`count, this`contents
      ensures Valid() && some == (old(contents) != [])
      ensures some ==> old(contents) == [v] + contents
      ensures !some ==> contents == old(contents)
    {
      v := items[head];
      if count == 0 { return false, v; }
      HoldsPop(items[..], head, contents);
      AtNext(head, count - 1);
      head := (head + 1) % QUEUE_SIZE;
      count := count - 1;
      some := true;
      contents := contents[1..];
    }
  }

  lemma {:induction false} MoveFront<T>(a: seq<T>, x: T, b: seq<T>)
    ensures a + ([x] + b) == (a + [x]) + b
  {}

  // Empty a profile's queue, as the worker does after every packet.
  method NextFeatures<T>(q: Queue<T>) returns (popped: seq<T>)
    requires q.Valid()
    modifies q
    ensures q.Valid() && q.contents == [] && q.dropped == old(q.dropped) && popped == old(q.contents)
  {
    popped := [];
    while true
      invariant q.Valid() && q.dropped == old(q.dropped) && old(q.contents) == popped + q.contents
      decreases |q.contents|
    {
      ghost var rest := q.contents;
      var some, v := q.Pop();
      if !some {
        assert popped + [] == popped;
        break;
      }
      assert rest == [v] + q.contents;
      MoveFront(popped, v, q.contents);
      popped := popped + [v];
    }
  }
}
