// Ring against tracker: when do both answer every response alike?
module PendingAgreement {
  import opened LinearLayer
  import opened ModbusTracker
  import opened PendingRing

  // The answers to one response after another.
  function RingAnswers(h: History, keys: seq<ReqKey>): seq<Option<Request>>
    decreases |keys|
  {
    if keys == [] then [] else [Answer(h, keys[0])] + RingAnswers(Step(h, Op.Take(keys[0])), keys[1..])
  }

  function TrackerAnswers(t: Table, keys: seq<ReqKey>): seq<Option<Request>>
    decreases |keys|
  {
    if keys == [] then [] else [TrackerAnswer(t, keys[0])] + TrackerAnswers(t - {keys[0]}, keys[1..])
  }

  ghost predicate Agree(h: History, t: Table) {
    forall keys :: RingAnswers(h, keys) == TrackerAnswers(t, keys)
  }

  // The record of outstanding requests, the ring's history and the unbounded
  // tracker of one run.
  ghost predicate Related(p: Pending, h: History, t: Table) {
    && p.added == |h.adds| && t.Keys == p.index.Keys
    && (forall k :: k in t ==> Newest(p, h, k) && t[k] == h.adds[p.index[k]])
    && forall j: nat :: j in h.taken ==> j < |h.adds|
  }

  ghost predicate Newest(p: Pending, h: History, k: ReqKey)
    requires k in p.index
  {
    && p.index[k] < |h.adds| && h.adds[p.index[k]].key == k && p.index[k] !in h.taken
    && forall j: nat :: j < |h.adds| && h.adds[j].key == k ==> j <= p.index[k]
  }

  lemma {:induction false} AddRelated(p: Pending, h: History, t: Table, req: Request)
    requires Related(p, h, t)
    ensures Related(Pending(p.index[req.key := p.added], p.added + 1), Step(h, Op.Add(req, true)), t[req.key := req])
  {
    var p', h' := Pending(p.index[req.key := p.added], p.added + 1), Step(h, Op.Add(req, true));
    forall k | k in p'.index ensures Newest(p', h', k) {
      if k != req.key { assert Newest(p, h, k); }
    }
  }

  lemma {:induction false} TakeRelated(p: Pending, h: History, t: Table, key: ReqKey)
    requires Related(p, h, t)
    ensures Related(Pending(p.index - {key}, p.added), Step(h, Op.Take(key)), t - {key})
  {
    var p', h' := Pending(p.index - {key}, p.added), Step(h, Op.Take(key));
    forall k | k in p'.index ensures Newest(p', h', k) {
      assert Newest(p, h, k);
    }
  }

  lemma {:induction false} RunRelated(ops: seq<Op>)
    ensures Related(PendingAfter(ops), After(ops), Unbounded(ops))
  {
    if ops != [] {
      var before, op := ops[..|ops| - 1], ops[|ops| - 1];
      RunRelated(before);
      match op
      case Add(req, _) => AddRelated(PendingAfter(before), After(before), Unbounded(before), req);
      case Take(key) => TakeRelated(PendingAfter(before), After(before), Unbounded(before), key);
    }
  }

  // The ring holds the key's outstanding request and no other of that key.
  ghost predicate Alone(p: Pending, h: History, k: ReqKey) {
    forall j: nat :: Matches(h, j, k) <==> k in p.index && j == p.index[k]
  }

  ghost predicate Exact(p: Pending, h: History) { forall k :: Alone(p, h, k) }

  lemma {:induction false} ExactAnswer(p: Pending, h: History, t: Table, key: ReqKey)
    requires Related(p, h, t) && Alone(p, h, key)
    ensures Answer(h, key) == TrackerAnswer(t, key)
    ensures Found(h, key) == if key in p.index then Some(p.index[key]) else None
  {
    FoundIsLowest(h, key);
    if key in p.index {
      assert Matches(h, p.index[key], key);
    }
  }

  lemma {:induction false} TakeExact(p: Pending, h: History, t: Table, key: ReqKey)
    requires Related(p, h, t) && Exact(p, h)
    ensures Exact(Pending(p.index - {key}, p.added), Step(h, Op.Take(key)))
  {
    var p', h' := Pending(p.index - {key}, p.added), Step(h, Op.Take(key));
    assert Alone(p, h, key);
    ExactAnswer(p, h, t, key);
    forall k ensures Alone(p', h', k) {
      assert Alone(p, h, k);
      forall j: nat ensures Matches(h', j, k) <==> k in p'.index && j == p'.index[k] {
        assert Matches(h, j, k) <==> k in p.index && j == p.index[k];
      }
    }
  }

  lemma {:induction false} ExactAgrees(p: Pending, h: History, t: Table, keys: seq<ReqKey>)
    requires Related(p, h, t) && Exact(p, h)
    ensures RingAnswers(h, keys) == TrackerAnswers(t, keys)
    decreases |keys|
  {
    if keys != [] {
      var k := keys[0];
      assert Alone(p, h, k);
      ExactAnswer(p, h, t, k);
      TakeExact(p, h, t, k);
      TakeRelated(p, h, t, k);
      ExactAgrees(Pending(p.index - {k}, p.added), Step(h, Op.Take(k)), t - {k}, keys[1..]);
    }
  }

  lemma {:induction false} OneAnswer(h: History, t: Table, k: ReqKey)
    requires Agree(h, t)
    ensures Answer(h, k) == TrackerAnswer(t, k)
  {
    assert RingAnswers(h, [k]) == TrackerAnswers(t, [k]);
    assert RingAnswers(h, [k])[0] == Answer(h, k) && TrackerAnswers(t, [k])[0] == TrackerAnswer(t, k);
  }

  lemma {:induction false} SecondAnswer(h: History, t: Table, k: ReqKey)
    requires Agree(h, t)
    ensures Answer(Step(h, Op.Take(k)), k) == None
  {
    var h', t' := Step(h, Op.Take(k)), t - {k};
    assert [k, k][1..] == [k];
    assert RingAnswers(h, [k, k]) == TrackerAnswers(t, [k, k]);
    assert RingAnswers(h, [k, k])[1] == RingAnswers(h', [k])[0] == Answer(h', k);
    assert TrackerAnswers(t, [k, k])[1] == TrackerAnswers(t', [k])[0] == TrackerAnswer(t', k);
  }

  // Two live requests of one key are both answered; the tracker answers one.
  lemma {:induction false} TwoAnswered(h: History, k: ReqKey, i: nat, j: nat)
    requires Matches(h, i, k) && Matches(h, j, k) && i != j
    ensures Answer(Step(h, Op.Take(k)), k).Some?
  {
    var h' := Step(h, Op.Take(k));
    FoundIsLowest(h, k);
    FoundIsLowest(h', k);
    assert Matches(h', i, k) || Matches(h', j, k);
  }

  lemma {:induction false} AgreeAlone(p: Pending, h: History, t: Table, k: ReqKey)
    requires Related(p, h, t) && Agree(h, t)
    ensures Alone(p, h, k)
  {
    OneAnswer(h, t, k);
    SecondAnswer(h, t, k);
    FoundIsLowest(h, k);
    if k in p.index { assert Newest(p, h, k); }
    forall j: nat | Matches(h, j, k) ensures k in p.index && j == p.index[k] {
      if j != p.index[k] {
        assert Matches(h, p.index[k], k);
        TwoAnswered(h, k, j, p.index[k]);
      }
    }
  }

  // For every run: the answers agree on every continuation by responses exactly
  // when the ring holds the outstanding request of each key, and only that.
  lemma {:induction false} AgreeIffExact(ops: seq<Op>)
    ensures Agree(After(ops), Unbounded(ops)) <==> Exact(PendingAfter(ops), After(ops))
  {
    var p, h, t := PendingAfter(ops), After(ops), Unbounded(ops);
    RunRelated(ops);
    if Agree(h, t) {
      forall k ensures Alone(p, h, k) { AgreeAlone(p, h, t, k); }
    }
    if Exact(p, h) {
      forall keys ensures RingAnswers(h, keys) == TrackerAnswers(t, keys) { ExactAgrees(p, h, t, keys); }
    }
  }

  // Adding a request of this key overwrites k's outstanding request exactly if
  // k is that key.
  ghost predicate Overwrites(p: Pending, key: ReqKey, k: ReqKey) {
    k in p.index ==> (p.index[k] == p.added - CAP <==> k == key)
  }

  // So it overwrites the outstanding request of its own key, if there is one,
  // and no other outstanding request.
  ghost predicate CleanAdd(p: Pending, key: ReqKey) { forall k :: Overwrites(p, key, k) }

  ghost predicate Clean(ops: seq<Op>) {
    ops != [] ==>
      && Clean(ops[..|ops| - 1])
      && (ops[|ops| - 1].Add? ==> CleanAdd(PendingAfter(ops[..|ops| - 1]), ops[|ops| - 1].req.key))
  }

  lemma {:induction false} MatchesAfterAdd(h: History, req: Request, k: ReqKey, j: nat)
    requires forall i: nat :: i in h.taken ==> i < |h.adds|
    ensures Matches(Step(h, Op.Add(req, true)), j, k)
       <==> (Matches(h, j, k) && j != |h.adds| - CAP) || (k == req.key && j == |h.adds|)
  {}

  lemma {:induction false} AddAloneIff(p: Pending, h: History, t: Table, req: Request, k: ReqKey, p': Pending,
      h': History)
    requires Related(p, h, t) && Alone(p, h, k)
    requires p' == Pending(p.index[req.key := p.added], p.added + 1) && h' == Step(h, Op.Add(req, true))
    ensures Alone(p', h', k) <==> Overwrites(p, req.key, k)
  {
    forall j: nat ensures Matches(h', j, k)
        <==> (Matches(h, j, k) && j != |h.adds| - CAP) || (k == req.key && j == |h.adds|) {
      MatchesAfterAdd(h, req, k, j);
    }
    if k in p.index { assert Matches(h, p.index[k], k); }
  }

  lemma {:induction false} AddExactIff(p: Pending, h: History, t: Table, req: Request)
    requires Related(p, h, t) && Exact(p, h)
    ensures Exact(Pending(p.index[req.key := p.added], p.added + 1), Step(h, Op.Add(req, true)))
         <==> CleanAdd(p, req.key)
  {
    var p', h' := Pending(p.index[req.key := p.added], p.added + 1), Step(h, Op.Add(req, true));
    forall k ensures Alone(p', h', k) <==> Overwrites(p, req.key, k) {
      assert Alone(p, h, k);
      AddAloneIff(p, h, t, req, k, p', h');
    }
  }

  lemma {:induction false} NextExactIff(ops: seq<Op>)
    requires ops != [] && Exact(PendingAfter(ops[..|ops| - 1]), After(ops[..|ops| - 1]))
    ensures var before, op := ops[..|ops| - 1], ops[|ops| - 1];
            Exact(PendingAfter(ops), After(ops)) <==> (op.Add? ==> CleanAdd(PendingAfter(before), op.req.key))
  {
    var before, op := ops[..|ops| - 1], ops[|ops| - 1];
    RunRelated(before);
    match op
    case Add(req, _) => AddExactIff(PendingAfter(before), After(before), Unbounded(before), req);
    case Take(key) => TakeExact(PendingAfter(before), After(before), Unbounded(before), key);
  }

  ghost predicate ExactAt(ops: seq<Op>, n: nat)
    requires n <= |ops|
  {
    Exact(PendingAfter(ops[..n]), After(ops[..n]))
  }

  lemma {:induction false} ExactBefore(ops: seq<Op>)
    requires ops != []
    ensures var before := ops[..|ops| - 1];
            (forall n: nat :: n <= |ops| ==> ExactAt(ops, n))
            <==> (forall n: nat :: n <= |before| ==> ExactAt(before, n)) && Exact(PendingAfter(ops), After(ops))
  {
    var before := ops[..|ops| - 1];
    assert ops[..|ops|] == ops;
    forall n: nat | n <= |before| ensures ExactAt(before, n) <==> ExactAt(ops, n) { assert before[..n] == ops[..n]; }
    if Exact(PendingAfter(ops), After(ops)) { assert ExactAt(ops, |ops|); }
    if ExactAt(ops, |ops|) { assert Exact(PendingAfter(ops), After(ops)); }
  }

  lemma {:induction false} ExactIffClean(ops: seq<Op>)
    ensures (forall n: nat :: n <= |ops| ==> ExactAt(ops, n)) <==> Clean(ops)
  {
    if ops == [] {
      EmptyExact();
      assert ops[..0] == [];
    } else {
      var before := ops[..|ops| - 1];
      ExactIffClean(before);
      ExactBefore(ops);
      assert before[..|before|] == before;
      if ExactAt(before, |before|) { NextExactIff(ops); }
    }
  }

  lemma {:induction false} EmptyExact()
    ensures ExactAt([], 0)
  {
    forall k ensures Alone(Pending(map[], 0), History([], {}), k) {}
  }

  ghost predicate AgreesAt(ops: seq<Op>, capacity: nat, n: nat)
    requires n <= |ops|
  {
    Agree(After(ops[..n]), Run(ops[..n], capacity))
  }

  lemma {:induction false} RoomyPrefix(ops: seq<Op>, capacity: nat, n: nat)
    requires Roomy(ops, capacity) && n <= |ops|
    ensures Roomy(ops[..n], capacity)
  {
    if n == |ops| {
      assert ops[..n] == ops;
    } else {
      RoomyPrefix(ops[..|ops| - 1], capacity, n);
      assert ops[..|ops| - 1][..n] == ops[..n];
    }
  }

  // Ring and roomy tracker give the same answers all through a run, whatever
  // responses come next, exactly when each addition overwrites the outstanding
  // request of its own key, if any, and of no other key.
  lemma {:induction false} AlwaysAgreeIff(ops: seq<Op>, capacity: nat)
    requires Roomy(ops, capacity)
    ensures (forall n: nat :: n <= |ops| ==> AgreesAt(ops, capacity, n)) <==> Clean(ops)
  {
    ExactIffClean(ops);
    forall n: nat | n <= |ops| ensures AgreesAt(ops, capacity, n) <==> ExactAt(ops, n) {
      RoomyPrefix(ops, capacity, n);
      RoomyIsUnbounded(ops[..n], capacity);
      AgreeIffExact(ops[..n]);
    }
  }

  // --- which of two the ring answers with ------------------------------------------

  // Of two live requests with one key the older one, unless the ring wrapped
  // between them.
  lemma {:induction false} OlderUnlessWrapped(h: History, key: ReqKey, i: nat, j: nat)
    requires i < j && Matches(h, i, key) && Matches(h, j, key)
    requires forall k: nat :: Matches(h, k, key) ==> k == i || k == j
    ensures Found(h, key) == Some(if i / CAP == j / CAP then i else j)
  {
    FoundIsLowest(h, key);
    BlockOrder(i, j);
  }

  lemma {:induction false} BlockOrder(i: nat, j: nat)
    requires i < j < i + CAP
    ensures i % CAP < j % CAP <==> i / CAP == j / CAP
    ensures i % CAP != j % CAP
  {
    assert i == CAP * (i / CAP) + i % CAP && j == CAP * (j / CAP) + j % CAP;
  }

  // n requests, each answered at once.
  function Rounds(x: Request, n: nat): seq<Op> {
    if n == 0 then [] else Rounds(x, n - 1) + [Op.Add(x, true), Op.Take(x.key)]
  }

  function Below(n: nat): (s: set<nat>)
    ensures forall j: nat :: j in s <==> j < n
  {
    if n == 0 then {} else Below(n - 1) + {n - 1}
  }

  lemma {:induction false} AfterNext(ops: seq<Op>, op: Op)
    ensures After(ops + [op]) == Step(After(ops), op)
  {
    assert (ops + [op])[..|ops|] == ops;
  }

  lemma {:induction false} OnlyLast(adds: seq<Request>, n: nat, key: ReqKey)
    requires |adds| == n + 1 && adds[n].key == key
    ensures Found(History(adds, Below(n)), key) == Some(n)
  {
    var h := History(adds, Below(n));
    assert Matches(h, n, key);
    FoundIsLowest(h, key);
    var j := Found(h, key).value;
    assert Matches(h, j, key);
  }

  lemma {:induction false} AddNext(ops: seq<Op>, h: History, r: Request)
    requires After(ops) == h
    ensures After(ops + [Op.Add(r, true)]) == History(h.adds + [r], h.taken)
  {
    AfterNext(ops, Op.Add(r, true));
  }

  lemma {:induction false} RoundsNext(x: Request, n: nat)
    requires After(Rounds(x, n)) == History(seq(n, _ => x), Below(n))
    ensures After(Rounds(x, n + 1)) == History(seq(n + 1, _ => x), Below(n + 1))
  {
    var ops, adds := Rounds(x, n), seq(n + 1, _ => x);
    AddNext(ops, History(seq(n, _ => x), Below(n)), x);
    AfterNext(ops + [Op.Add(x, true)], Op.Take(x.key));
    Regroup(ops, Op.Add(x, true), Op.Take(x.key));
    assert seq(n, _ => x) + [x] == adds;
    OnlyLast(adds, n, x.key);
  }

  lemma {:induction false} RoundsLeave(x: Request, n: nat)
    ensures After(Rounds(x, n)) == History(seq(n, _ => x), Below(n))
  {
    if n > 0 {
      RoundsLeave(x, n - 1);
      RoundsNext(x, n - 1);
    }
  }

  lemma {:induction false} Regroup<T>(s: seq<T>, a: T, b: T)
    ensures s + [a] + [b] == s + [a, b]
  {}

  lemma {:induction false} TwoLeft(x: Request, n: nat, a: Request, b: Request)
    ensures After(Rounds(x, n) + [Op.Add(a, true), Op.Add(b, true)]) == History(seq(n, _ => x) + [a, b], Below(n))
  {
    var ops, adds := Rounds(x, n), seq(n, _ => x);
    RoundsLeave(x, n);
    AddNext(ops, History(adds, Below(n)), a);
    AddNext(ops + [Op.Add(a, true)], History(adds + [a], Below(n)), b);
    Regroup(ops, Op.Add(a, true), Op.Add(b, true));
    Regroup(adds, a, b);
  }

  // After n answered requests, two with one key: the ring answers with the
  // older, but with the newer when they sit in its last and its first slot.
  lemma {:induction false} DuplicateKeyAnswer(x: Request, n: nat, a: Request, b: Request)
    requires a.key == b.key
    ensures Answer(After(Rounds(x, n) + [Op.Add(a, true), Op.Add(b, true)]), a.key)
         == Some(if (n + 1) % CAP == 0 then b else a)
    ensures Latest(Rounds(x, n) + [Op.Add(a, true), Op.Add(b, true)], a.key) == Some(b)
  {
    TwoLeft(x, n, a, b);
    var h := History(seq(n, _ => x) + [a, b], Below(n));
    assert h.adds[n] == a && h.adds[n + 1] == b;
    assert Matches(h, n, a.key) && Matches(h, n + 1, a.key);
    OlderUnlessWrapped(h, a.key, n, n + 1);
    NextBlock(n);
  }

  lemma {:induction false} NextBlock(n: nat)
    ensures n / CAP == (n + 1) / CAP <==> (n + 1) % CAP != 0
  {
    assert n == CAP * (n / CAP) + n % CAP && n + 1 == CAP * ((n + 1) / CAP) + (n + 1) % CAP;
  }
}
