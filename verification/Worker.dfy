// The worker loop: receive, process, classify, then transmit or free.
module Worker {
  import opened FeatureQueue
  import opened Listing

  // A received buffer, and the vectors its packet makes the profile push.
  datatype Mbuf<V> = Mbuf(id: nat, offered: seq<V>)

  // A received burst, and how many buffers the transmit queue would accept.
  datatype Burst<V> = Burst(bufs: seq<Mbuf<V>>, room: nat)

  // What the classifier is configured with; accepts stands for the contract
  // and the preparation of the model's input.
  datatype Config<!V> = Config(accepts: V -> bool, predict: V -> int, dropAnomaly: bool)

  predicate Condemns<V>(cfg: Config<V>, v: V) {
    cfg.accepts(v) && cfg.dropAnomaly && cfg.predict(v) != 0
  }

  ghost predicate AnyCondemned<V>(cfg: Config<V>, vs: seq<V>) {
    exists i :: 0 <= i < |vs| && Condemns(cfg, vs[i])
  }

  lemma {:induction false} AnySnoc<V>(cfg: Config<V>, vs: seq<V>, v: V)
    ensures AnyCondemned(cfg, vs + [v]) <==> AnyCondemned(cfg, vs) || Condemns(cfg, v)
  {
    var all := vs + [v];
    assert all[|vs|] == v;
    if AnyCondemned(cfg, vs) {
      var i :| 0 <= i < |vs| && Condemns(cfg, vs[i]);
      assert all[i] == vs[i];
    }
  }

  // Some vector popped after the packet condemns it.
  ghost predicate Dropped<V>(cfg: Config<V>, m: Mbuf<V>) {
    AnyCondemned(cfg, Kept([], m.offered))
  }

  // In drop mode a packet is condemned exactly when some accepted vector popped
  // after it has a nonzero prediction; outside drop mode none ever is.
  lemma {:induction false} DroppedIff<V>(cfg: Config<V>, m: Mbuf<V>)
    ensures Dropped(cfg, m)
       <==> cfg.dropAnomaly && exists v :: v in Kept([], m.offered) && cfg.accepts(v) && cfg.predict(v) != 0
  {
    var popped := Kept([], m.offered);
    if Dropped(cfg, m) {
      var i :| 0 <= i < |popped| && Condemns(cfg, popped[i]);
      assert popped[i] in popped;
    }
    if v :| cfg.dropAnomaly && v in popped && cfg.accepts(v) && cfg.predict(v) != 0 {
      var i :| 0 <= i < |popped| && popped[i] == v;
      assert Condemns(cfg, popped[i]);
    }
  }

  // --- what a worker did so far --------------------------------------------------

  // Buffers received, transmitted and freed, vectors taken from the queue, and
  // the number of vectors the queue dropped.
  datatype Journal<V> = Journal(received: seq<Mbuf<V>>, sent: seq<Mbuf<V>>, freed: seq<Mbuf<V>>, popped: seq<V>,
      lost: nat)

  // One buffer through profile and classifier.
  ghost function Process<V>(cfg: Config<V>, j: Journal<V>, m: Mbuf<V>): Journal<V> {
    Journal(j.received, j.sent, if Dropped(cfg, m) then j.freed + [m] else j.freed,
            j.popped + Kept([], m.offered), j.lost + Lost([], m.offered))
  }

  ghost function ProcessAll<V>(cfg: Config<V>, j: Journal<V>, bufs: seq<Mbuf<V>>): Journal<V> {
    if bufs == [] then j else Process(cfg, ProcessAll(cfg, j, bufs[..|bufs| - 1]), bufs[|bufs| - 1])
  }

  // The packets of a burst that no vector condemns, in order.
  ghost function Survivors<V>(cfg: Config<V>, bufs: seq<Mbuf<V>>): seq<Mbuf<V>> {
    if bufs == [] then []
    else var m := bufs[|bufs| - 1];
         Survivors(cfg, bufs[..|bufs| - 1]) + if Dropped(cfg, m) then [] else [m]
  }

  function Fitting(count: nat, room: nat): nat { if room < count then room else count }

  // The transmit queue takes a prefix; what is left over is freed.
  ghost function Transmit<V>(j: Journal<V>, keep: seq<Mbuf<V>>, room: nat): Journal<V> {
    var nb := Fitting(|keep|, room);
    j.(sent := j.sent + keep[..nb], freed := j.freed + keep[nb..])
  }

  ghost function Record<V>(cfg: Config<V>, j: Journal<V>, b: Burst<V>): Journal<V> {
    Transmit(ProcessAll(cfg, j.(received := j.received + b.bufs), b.bufs), Survivors(cfg, b.bufs), b.room)
  }

  ghost function RecordAll<V>(cfg: Config<V>, j: Journal<V>, bursts: seq<Burst<V>>): Journal<V> {
    if bursts == [] then j else Record(cfg, RecordAll(cfg, j, bursts[..|bursts| - 1]), bursts[|bursts| - 1])
  }

  // Every received buffer was transmitted or freed, each exactly once.
  ghost predicate Conserved<V>(j: Journal<V>) {
    multiset(j.received) == multiset(j.sent) + multiset(j.freed)
  }

  lemma {:induction false} ProcessOnlyFrees<V>(cfg: Config<V>, j: Journal<V>, bufs: seq<Mbuf<V>>)
    ensures var k := ProcessAll(cfg, j, bufs); k.received == j.received && k.sent == j.sent
  {
    if bufs != [] { ProcessOnlyFrees(cfg, j, bufs[..|bufs| - 1]); }
  }

  lemma {:induction false} SplitStep<T>(freed: seq<T>, keep: seq<T>, start: multiset<T>, bufs: seq<T>, m: T)
    requires multiset(freed) + multiset(keep) == start + multiset(bufs)
    ensures multiset(freed + [m]) + multiset(keep) == start + multiset(bufs + [m])
    ensures multiset(freed) + multiset(keep + [m]) == start + multiset(bufs + [m])
  {
    assert multiset(freed + [m]) == multiset(freed) + multiset{m};
    assert multiset(keep + [m]) == multiset(keep) + multiset{m};
    assert multiset(bufs + [m]) == multiset(bufs) + multiset{m};
    assert multiset(freed + [m]) + multiset(keep) == (multiset(freed) + multiset(keep)) + multiset{m};
    assert start + multiset(bufs + [m]) == (start + multiset(bufs)) + multiset{m};
  }

  // --- the fate of each buffer of a burst ------------------------------------------

  ghost function Fated<V>(cfg: Config<V>, bufs: seq<Mbuf<V>>, condemned: bool): set<nat> {
    set i: nat | i < |bufs| && Dropped(cfg, bufs[i]) == condemned
  }

  lemma {:induction false} SurvivorsPicked<V>(cfg: Config<V>, bufs: seq<Mbuf<V>>, n: nat)
    requires n <= |bufs|
    ensures Picks(bufs[..n], Fated(cfg, bufs[..n], false), Survivors(cfg, bufs[..n]))
  {
    if n == 0 {
      PicksNone<Mbuf<V>>(Fated(cfg, bufs[..n], false));
    } else {
      var before, m := bufs[..n - 1], bufs[n - 1];
      SurvivorsPicked(cfg, bufs, n - 1);
      PrefixNext(bufs, n - 1);
      ProcessSnoc(cfg, Journal([], [], [], [], 0), before, m);
      PicksNext(before, Fated(cfg, before, false), Survivors(cfg, before), m, Fated(cfg, bufs[..n], false));
    }
  }

  // The packets of a burst that some vector condemns, in order.
  ghost function Condemned<V>(cfg: Config<V>, bufs: seq<Mbuf<V>>): seq<Mbuf<V>> {
    if bufs == [] then []
    else var m := bufs[|bufs| - 1];
         Condemned(cfg, bufs[..|bufs| - 1]) + if Dropped(cfg, m) then [m] else []
  }

  lemma {:induction false} CondemnedSnoc<V>(cfg: Config<V>, bufs: seq<Mbuf<V>>, m: Mbuf<V>)
    ensures Condemned(cfg, bufs + [m]) == Condemned(cfg, bufs) + if Dropped(cfg, m) then [m] else []
  {
    assert (bufs + [m])[..|bufs|] == bufs;
  }

  lemma {:induction false} CondemnedPicked<V>(cfg: Config<V>, bufs: seq<Mbuf<V>>, n: nat)
    requires n <= |bufs|
    ensures Picks(bufs[..n], Fated(cfg, bufs[..n], true), Condemned(cfg, bufs[..n]))
  {
    if n == 0 {
      PicksNone<Mbuf<V>>(Fated(cfg, bufs[..n], true));
    } else {
      var before, m := bufs[..n - 1], bufs[n - 1];
      CondemnedPicked(cfg, bufs, n - 1);
      PrefixNext(bufs, n - 1);
      CondemnedSnoc(cfg, before, m);
      PicksNext(before, Fated(cfg, before, true), Condemned(cfg, before), m, Fated(cfg, bufs[..n], true));
    }
  }

  lemma {:induction false} CondemnedFreed<V>(cfg: Config<V>, j: Journal<V>, bufs: seq<Mbuf<V>>, n: nat)
    requires n <= |bufs|
    ensures ProcessAll(cfg, j, bufs[..n]).freed == j.freed + Condemned(cfg, bufs[..n])
  {
    if n == 0 {
      assert j.freed + [] == j.freed;
    } else {
      var before, m := bufs[..n - 1], bufs[n - 1];
      CondemnedFreed(cfg, j, bufs, n - 1);
      PrefixNext(bufs, n - 1);
      CondemnedSnoc(cfg, before, m);
      ProcessSnoc(cfg, j, before, m);
      JoinSnoc(j.freed, Condemned(cfg, before), [m]);
      assert Condemned(cfg, before) + [] == Condemned(cfg, before);
    }
  }

  lemma {:induction false} RecordFates<V>(cfg: Config<V>, j: Journal<V>, b: Burst<V>)
    ensures var keep := Survivors(cfg, b.bufs);
            var nb, k := if b.room < |keep| then b.room else |keep|, Record(cfg, j, b);
            k.sent == j.sent + keep[..nb] && k.freed == (j.freed + Condemned(cfg, b.bufs)) + keep[nb..]
  {
    var start, n := j.(received := j.received + b.bufs), |b.bufs|;
    assert b.bufs[..n] == b.bufs;
    CondemnedFreed(cfg, start, b.bufs, n);
    ProcessOnlyFrees(cfg, start, b.bufs);
  }

  // Of a burst, the buffers that no vector condemns go to the transmit queue in
  // order: as many as there is room for are sent, and the others freed after the
  // condemned ones.
  lemma {:induction false} BurstFates<V>(cfg: Config<V>, j: Journal<V>, b: Burst<V>)
    ensures exists keep, dead :: HasFates(cfg, j, b, Record(cfg, j, b), keep, dead)
  {
    var keep, dead, n := Survivors(cfg, b.bufs), Condemned(cfg, b.bufs), |b.bufs|;
    assert b.bufs[..n] == b.bufs;
    SurvivorsPicked(cfg, b.bufs, n);
    CondemnedPicked(cfg, b.bufs, n);
    RecordFates(cfg, j, b);
    assert HasFates(cfg, j, b, Record(cfg, j, b), keep, dead);
  }

  ghost predicate HasFates<V>(cfg: Config<V>, j: Journal<V>, b: Burst<V>, k: Journal<V>, keep: seq<Mbuf<V>>,
      dead: seq<Mbuf<V>>)
  {
    && Picks(b.bufs, Fated(cfg, b.bufs, false), keep) && Picks(b.bufs, Fated(cfg, b.bufs, true), dead)
    && var nb := if b.room < |keep| then b.room else |keep|;
       k.sent == j.sent + keep[..nb] && k.freed == (j.freed + dead) + keep[nb..]
  }

  // Outside drop mode no buffer is condemned.
  lemma {:induction false} NoneCondemned<V>(cfg: Config<V>, bufs: seq<Mbuf<V>>)
    requires !cfg.dropAnomaly
    ensures Fated(cfg, bufs, true) == {}
  {
    forall i: nat | i < |bufs| ensures !Dropped(cfg, bufs[i]) { DroppedIff(cfg, bufs[i]); }
  }

  // Of these buffers each is freed or survives, nothing lost or doubled.
  ghost predicate Split<V>(cfg: Config<V>, j: Journal<V>, bufs: seq<Mbuf<V>>) {
    multiset(ProcessAll(cfg, j, bufs).freed) + multiset(Survivors(cfg, bufs)) == multiset(j.freed) + multiset(bufs)
  }

  lemma {:induction false} SplitNext<V>(cfg: Config<V>, j: Journal<V>, bufs: seq<Mbuf<V>>, m: Mbuf<V>)
    requires Split(cfg, j, bufs)
    ensures Split(cfg, j, bufs + [m])
  {
    SplitStep(ProcessAll(cfg, j, bufs).freed, Survivors(cfg, bufs), multiset(j.freed), bufs, m);
    ProcessSnoc(cfg, j, bufs, m);
  }

  lemma {:induction false} ProcessSnoc<V>(cfg: Config<V>, j: Journal<V>, bufs: seq<Mbuf<V>>, m: Mbuf<V>)
    ensures ProcessAll(cfg, j, bufs + [m]) == Process(cfg, ProcessAll(cfg, j, bufs), m)
    ensures Survivors(cfg, bufs + [m]) == Survivors(cfg, bufs) + if Dropped(cfg, m) then [] else [m]
  {
    assert (bufs + [m])[..|bufs|] == bufs;
  }

  lemma {:induction false} NoneSplit<V>(cfg: Config<V>, j: Journal<V>)
    ensures Split(cfg, j, [])
  {}

  lemma {:induction false} ProcessSplits<V>(cfg: Config<V>, j: Journal<V>, bufs: seq<Mbuf<V>>, n: nat)
    requires n <= |bufs|
    ensures Split(cfg, j, bufs[..n])
  {
    if n == 0 {
      NoneSplit(cfg, j);
    } else {
      ProcessSplits(cfg, j, bufs, n - 1);
      SplitNext(cfg, j, bufs[..n - 1], bufs[n - 1]);
      PrefixNext(bufs, n - 1);
    }
  }

  lemma {:induction false} SendSplits<T>(sent: seq<T>, freed: seq<T>, keep: seq<T>, nb: nat)
    requires nb <= |keep|
    ensures multiset(sent + keep[..nb]) + multiset(freed + keep[nb..])
         == multiset(sent) + (multiset(freed) + multiset(keep))
  {
    assert keep == keep[..nb] + keep[nb..];
  }

  lemma {:induction false} RecordConserves<V>(cfg: Config<V>, j: Journal<V>, b: Burst<V>)
    requires Conserved(j)
    ensures Conserved(Record(cfg, j, b))
  {
    var keep, start := Survivors(cfg, b.bufs), j.(received := j.received + b.bufs);
    var k := ProcessAll(cfg, start, b.bufs);
    ProcessOnlyFrees(cfg, start, b.bufs);
    ProcessSplits(cfg, start, b.bufs, |b.bufs|);
    assert b.bufs[..|b.bufs|] == b.bufs;
    SendSplits(k.sent, k.freed, keep, Fitting(|keep|, b.room));
    assert multiset(j.received + b.bufs) == multiset(j.received) + multiset(b.bufs);
  }

  lemma {:induction false} EmptyBurst<V>(cfg: Config<V>, j: Journal<V>, b: Burst<V>)
    requires b.bufs == []
    ensures Record(cfg, j, b) == j
  {
    assert j.received + [] == j.received && j.sent + [] == j.sent && j.freed + [] == j.freed;
    assert Survivors(cfg, b.bufs) == [];
  }

  lemma {:induction false} ConservedCount<V>(j: Journal<V>)
    requires Conserved(j)
    ensures |j.received| == |j.sent| + |j.freed|
  {
    assert |multiset(j.received)| == |multiset(j.sent)| + |multiset(j.freed)|;
  }

  // No packet offers more vectors than the queue holds.
  ghost predicate Fits<V>(bufs: seq<Mbuf<V>>) {
    forall i :: 0 <= i < |bufs| ==> |bufs[i].offered| <= QUEUE_SIZE
  }

  lemma {:induction false} FitsSnoc<V>(bufs: seq<Mbuf<V>>, m: Mbuf<V>)
    ensures Fits(bufs + [m]) <==> Fits(bufs) && |m.offered| <= QUEUE_SIZE
  {
    var all := bufs + [m];
    assert all[|bufs|] == m && forall i :: 0 <= i < |bufs| ==> all[i] == bufs[i];
  }

  // All buffers of the bursts, in order.
  function Joined<V>(bursts: seq<Burst<V>>): seq<Mbuf<V>> {
    if bursts == [] then [] else Joined(bursts[..|bursts| - 1]) + bursts[|bursts| - 1].bufs
  }

  // The vectors an empty queue hands on for each buffer, and those it loses.
  function Handed<V>(bufs: seq<Mbuf<V>>): seq<V> {
    if bufs == [] then [] else Handed(bufs[..|bufs| - 1]) + Kept([], bufs[|bufs| - 1].offered)
  }

  function LostOf<V>(bufs: seq<Mbuf<V>>): nat {
    if bufs == [] then 0 else LostOf(bufs[..|bufs| - 1]) + Lost([], bufs[|bufs| - 1].offered)
  }

  lemma {:induction false} HandedSnoc<V>(bufs: seq<Mbuf<V>>, m: Mbuf<V>)
    ensures Handed(bufs + [m]) == Handed(bufs) + Kept([], m.offered)
    ensures LostOf(bufs + [m]) == LostOf(bufs) + Lost([], m.offered)
  {
    assert (bufs + [m])[..|bufs|] == bufs;
  }

  lemma {:induction false} JoinSnoc<T>(a: seq<T>, b: seq<T>, c: seq<T>)
    ensures a + (b + c) == (a + b) + c
  {}

  ghost predicate JoinsUp<V>(a: seq<Mbuf<V>>, b: seq<Mbuf<V>>) {
    Handed(a + b) == Handed(a) + Handed(b) && LostOf(a + b) == LostOf(a) + LostOf(b)
  }

  lemma {:induction false} JoinsUpNext<V>(a: seq<Mbuf<V>>, b: seq<Mbuf<V>>, m: Mbuf<V>)
    requires JoinsUp(a, b)
    ensures JoinsUp(a, b + [m])
  {
    HandedSnoc(a + b, m);
    HandedSnoc(b, m);
    JoinSnoc(a, b, [m]);
    JoinSnoc(Handed(a), Handed(b), Kept([], m.offered));
  }

  lemma {:induction false} HandedJoin<V>(a: seq<Mbuf<V>>, b: seq<Mbuf<V>>, n: nat)
    requires n <= |b|
    ensures JoinsUp(a, b[..n])
  {
    if n == 0 {
      assert a + [] == a && Handed(a) + [] == Handed(a);
    } else {
      HandedJoin(a, b, n - 1);
      JoinsUpNext(a, b[..n - 1], b[n - 1]);
      PrefixNext(b, n - 1);
    }
  }

  // The vectors k has popped and lost beyond j are those of these buffers.
  ghost predicate Popped<V>(j: Journal<V>, bufs: seq<Mbuf<V>>, k: Journal<V>) {
    k.popped == j.popped + Handed(bufs) && k.lost == j.lost + LostOf(bufs)
  }

  lemma {:induction false} PoppedNext<V>(cfg: Config<V>, j: Journal<V>, bufs: seq<Mbuf<V>>, k: Journal<V>, m: Mbuf<V>)
    requires Popped(j, bufs, k)
    ensures Popped(j, bufs + [m], Process(cfg, k, m))
  {
    HandedSnoc(bufs, m);
    JoinSnoc(j.popped, Handed(bufs), Kept([], m.offered));
  }

  lemma {:induction false} ProcessHands<V>(cfg: Config<V>, j: Journal<V>, bufs: seq<Mbuf<V>>, n: nat)
    requires n <= |bufs|
    ensures Popped(j, bufs[..n], ProcessAll(cfg, j, bufs[..n]))
  {
    if n == 0 {
      assert j.popped + [] == j.popped;
    } else {
      var before, m := bufs[..n - 1], bufs[n - 1];
      ProcessHands(cfg, j, bufs, n - 1);
      PoppedNext(cfg, j, before, ProcessAll(cfg, j, before), m);
      ProcessSnoc(cfg, j, before, m);
      PrefixNext(bufs, n - 1);
    }
  }

  // k is j after these buffers went through.
  ghost predicate Handled<V>(j: Journal<V>, bufs: seq<Mbuf<V>>, k: Journal<V>) {
    k.received == j.received + bufs && Popped(j, bufs, k)
  }

  lemma {:induction false} RecordHands<V>(cfg: Config<V>, j: Journal<V>, b: Burst<V>)
    ensures Handled(j, b.bufs, Record(cfg, j, b))
  {
    var start := j.(received := j.received + b.bufs);
    ProcessHands(cfg, start, b.bufs, |b.bufs|);
    ProcessOnlyFrees(cfg, start, b.bufs);
    assert b.bufs[..|b.bufs|] == b.bufs;
  }

  lemma {:induction false} HandledJoin<V>(j: Journal<V>, a: seq<Mbuf<V>>, k: Journal<V>, b: seq<Mbuf<V>>, l: Journal<V>)
    requires Handled(j, a, k) && Handled(k, b, l)
    ensures Handled(j, a + b, l)
  {
    HandedJoin(a, b, |b|);
    assert b[..|b|] == b;
    JoinSnoc(j.received, a, b);
    JoinSnoc(j.popped, Handed(a), Handed(b));
  }

  // However the packets were cut into bursts, the classifier got what each
  // packet put on an empty queue, in arrival order.
  lemma {:induction false} LoopHands<V>(cfg: Config<V>, j: Journal<V>, bursts: seq<Burst<V>>)
    ensures Handled(j, Joined(bursts), RecordAll(cfg, j, bursts))
  {
    if bursts == [] {
      assert j.popped + [] == j.popped && j.received + [] == j.received;
    } else {
      var before, b := bursts[..|bursts| - 1], bursts[|bursts| - 1];
      LoopHands(cfg, j, before);
      var k := RecordAll(cfg, j, before);
      RecordHands(cfg, k, b);
      HandledJoin(j, Joined(before), k, b.bufs, Record(cfg, k, b));
    }
  }

  lemma {:induction false} LostIff<V>(bufs: seq<Mbuf<V>>)
    ensures LostOf(bufs) == 0 <==> Fits(bufs)
  {
    if bufs != [] {
      var before, m := bufs[..|bufs| - 1], bufs[|bufs| - 1];
      LostIff(before);
      FitsSnoc(before, m);
      assert bufs == before + [m];
      assert [] + m.offered == m.offered;
    }
  }

  // The queue loses vectors exactly when some packet offers more of them than
  // it holds.
  lemma {:induction false} LoopLosesIff<V>(cfg: Config<V>, j: Journal<V>, bursts: seq<Burst<V>>)
    ensures RecordAll(cfg, j, bursts).lost >= j.lost
    ensures RecordAll(cfg, j, bursts).lost == j.lost <==> Fits(Joined(bursts))
  {
    LoopHands(cfg, j, bursts);
    LostIff(Joined(bursts));
  }

  // --- classification ----------------------------------------------------------------

  function FeatureEvents<V>(cfg: Config<V>, popped: seq<V>): nat {
    if popped == [] then 0
    else FeatureEvents(cfg, popped[..|popped| - 1]) + if cfg.accepts(popped[|popped| - 1]) then 1 else 0
  }

  function Predicted<V>(cfg: Config<V>, popped: seq<V>, c: nat): nat {
    if popped == [] then 0
    else var v := popped[|popped| - 1];
         Predicted(cfg, popped[..|popped| - 1], c) + if cfg.accepts(v) && cfg.predict(v) == c then 1 else 0
  }

  lemma {:induction false} EventsSnoc<V>(cfg: Config<V>, popped: seq<V>, v: V, c: nat)
    ensures FeatureEvents(cfg, popped + [v]) == FeatureEvents(cfg, popped) + if cfg.accepts(v) then 1 else 0
    ensures Predicted(cfg, popped + [v], c)
         == Predicted(cfg, popped, c) + if cfg.accepts(v) && cfg.predict(v) == c then 1 else 0
  {
    assert (popped + [v])[..|popped|] == popped;
  }

  ghost function AcceptedIn<V>(cfg: Config<V>, popped: seq<V>): set<nat> {
    set i: nat | i < |popped| && cfg.accepts(popped[i])
  }

  ghost function ClassedIn<V>(cfg: Config<V>, popped: seq<V>, c: nat): set<nat> {
    set i: nat | i < |popped| && cfg.accepts(popped[i]) && cfg.predict(popped[i]) == c
  }

  lemma {:induction false} CountsNext<V>(cfg: Config<V>, popped: seq<V>, v: V, c: nat)
    ensures var n, all := |popped|, popped + [v];
            && n !in AcceptedIn(cfg, popped) && n !in ClassedIn(cfg, popped, c)
            && AcceptedIn(cfg, all) == AcceptedIn(cfg, popped) + (if cfg.accepts(v) then {n} else {})
            && ClassedIn(cfg, all, c) == ClassedIn(cfg, popped, c)
                                         + if cfg.accepts(v) && cfg.predict(v) == c then {n} else {}
  {}

  // The counters count the accepted vectors, and those of each class.
  ghost predicate IsCounted<V>(cfg: Config<V>, popped: seq<V>, c: nat) {
    FeatureEvents(cfg, popped) == |AcceptedIn(cfg, popped)| && Predicted(cfg, popped, c) == |ClassedIn(cfg, popped, c)|
  }

  lemma {:induction false} CountersNext<V>(cfg: Config<V>, popped: seq<V>, v: V, c: nat)
    requires IsCounted(cfg, popped, c)
    ensures IsCounted(cfg, popped + [v], c)
  {
    EventsSnoc(cfg, popped, v, c);
    CountsNext(cfg, popped, v, c);
  }

  lemma {:induction false} CountersCount<V>(cfg: Config<V>, popped: seq<V>, c: nat, n: nat)
    requires n <= |popped|
    ensures IsCounted(cfg, popped[..n], c)
  {
    if n > 0 {
      CountersCount(cfg, popped, c, n - 1);
      PrefixNext(popped, n - 1);
      CountersNext(cfg, popped[..n - 1], popped[n - 1], c);
    }
  }

  // --- the loop --------------------------------------------------------------------------

  class Worker<V(==)> {
    const cfg: Config<V>
    const q: Queue<V>
    const predictions: array<nat>
    var rxPackets: nat
    var txPackets: nat
    var droppedPackets: nat
    var featureEvents: nat
    var invalidFeatures: nat
    ghost var journal: Journal<V>

    ghost predicate Apart()
      reads this
    {
      var a: object, b: object := predictions, q.items;
      a != b
    }

    // Popped vectors are counted once, by what the classifier made of them.
    ghost predicate Counted()
      reads this, predictions
    {
      && featureEvents == FeatureEvents(cfg, journal.popped) && featureEvents + invalidFeatures == |journal.popped|
      && forall c: nat :: c < predictions.Length ==> predictions[c] == Predicted(cfg, journal.popped, c)
    }

    // Between two packets the queue is empty.
    ghost predicate Idle()
      reads this, predictions, q, q.items
    {
      && q.Valid() && Apart() && Counted() && q.contents == []
      && q.dropped == journal.lost && droppedPackets == |journal.freed| && txPackets == |journal.sent|
    }

    // What holds at the head of the loop.
    ghost predicate AtHead()
      reads this, predictions, q, q.items
    {
      Idle() && rxPackets == |journal.received| && Conserved(journal) && rxPackets == txPackets + droppedPackets
    }

    constructor (cfg: Config<V>, classes: nat, zero: V)
      ensures AtHead() && this.cfg == cfg && journal == Journal([], [], [], [], 0) && predictions.Length == classes
      ensures fresh(q) && fresh(q.items) && fresh(predictions)
    {
      this.cfg := cfg;
      q := new Queue<V>(zero);
      predictions := new nat[classes](_ => 0);
      rxPackets, txPackets, droppedPackets, featureEvents, invalidFeatures := 0, 0, 0, 0, 0;
      journal := Journal([], [], [], [], 0);
    }

    method ClassifyFeature(v: V) returns (drop: bool)
      requires Counted()
      modifies this`invalidFeatures, this`featureEvents, this`journal, predictions
      ensures Counted() && drop == (cfg.accepts(v) && cfg.dropAnomaly && cfg.predict(v) != 0)
      ensures journal == old(journal).(popped := old(journal).popped + [v])
    {
      ghost var popped := journal.popped;
      forall c: nat ensures Predicted(cfg, popped + [v], c)
                         == Predicted(cfg, popped, c) + if cfg.accepts(v) && cfg.predict(v) == c then 1 else 0 {
        EventsSnoc(cfg, popped, v, c);
      }
      EventsSnoc(cfg, popped, v, 0);
      journal := journal.(popped := popped + [v]);
      if !cfg.accepts(v) {
        invalidFeatures := invalidFeatures + 1;
        return false;
      }
      var pred := cfg.predict(v);
      if 0 <= pred < predictions.Length {
        predictions[pred] := predictions[pred] + 1;
      }
      featureEvents := featureEvents + 1;
      drop := cfg.dropAnomaly && pred != 0;
    }

    // Empty the queue through the classifier.
    method DrainFeatures() returns (drop: bool)
      requires q.Valid() && Apart() && Counted()
      modifies this`invalidFeatures, this`featureEvents, this`journal, predictions, q
      ensures q.Valid() && Counted() && q.contents == [] && q.dropped == old(q.dropped)
      ensures journal == old(journal).(popped := old(journal).popped + old(q.contents))
      ensures drop == AnyCondemned(cfg, old(q.contents))
    {
      drop := false;
      ghost var done := [];
      while true
        invariant q.Valid() && Counted() && q.dropped == old(q.dropped)
        invariant old(q.contents) == done + q.contents && journal == old(journal).(popped := old(journal).popped + done)
        invariant drop == AnyCondemned(cfg, done)
        decreases |q.contents|
      {
        ghost var rest := q.contents;
        var some, v := q.Pop();
        if !some {
          assert done + [] == done;
          break;
        }
        MoveFront(done, v, q.contents);
        assert [v] + q.contents == rest;
        var d := ClassifyFeature(v);
        AnySnoc(cfg, done, v);
        drop := drop || d;
        assert old(journal).popped + (done + [v]) == (old(journal).popped + done) + [v];
        done := done + [v];
      }
    }

    // process_packet, seen from the queue: vectors are pushed one by one.
    method ProcessPacket(m: Mbuf<V>)
      requires q.Valid()
      modifies q, q.items
      ensures q.Valid() && q.contents == Kept(old(q.contents), m.offered)
      ensures q.dropped == old(q.dropped) + Lost(old(q.contents), m.offered)
    {
      assert old(q.contents) + [] == old(q.contents);
      for i := 0 to |m.offered|
        invariant q.Valid() && q.contents == Kept(old(q.contents), m.offered[..i])
        invariant q.dropped == old(q.dropped) + Lost(old(q.contents), m.offered[..i])
      {
        KeptStep(old(q.contents), m.offered[..i], m.offered[i]);
        assert m.offered[..i + 1] == m.offered[..i] + [m.offered[i]];
        var _ := q.Push(m.offered[i]);
      }
      assert m.offered[..|m.offered|] == m.offered;
    }

    // One buffer: processed, classified, and freed if condemned.
    method HandlePacket(m: Mbuf<V>) returns (drop: bool)
      requires Idle()
      modifies this`invalidFeatures, this`featureEvents, this`droppedPackets, this`journal, predictions, q, q.items
      ensures Idle() && drop == Dropped(cfg, m) && journal == Process(cfg, old(journal), m)
      ensures drop <==> cfg.dropAnomaly && exists v :: v in Kept([], m.offered) && cfg.accepts(v) && cfg.predict(v) != 0
    {
      DroppedIff(cfg, m);
      ghost var j := journal;
      ProcessPacket(m);
      drop := DrainFeatures();
      if drop {
        droppedPackets := droppedPackets + 1;
      }
      journal := Process(cfg, j, m);
    }

    ghost predicate Separate(txBufs: array<Mbuf<V>>)
      reads this
    {
      var a: object, b: object, c: object := txBufs, predictions, q.items;
      a != b && a != c
    }

    // One buffer, kept for transmission unless condemned.
    method SiftOne(m: Mbuf<V>, txBufs: array<Mbuf<V>>, txCount: nat) returns (n: nat)
      requires Idle() && txCount < txBufs.Length && Separate(txBufs)
      modifies this`invalidFeatures, this`featureEvents, this`droppedPackets, this`journal, predictions, q, q.items,
          txBufs
      ensures Idle() && journal == Process(cfg, old(journal), m)
      ensures txCount <= n <= txCount + 1
      ensures txBufs[..n] == old(txBufs[..txCount]) + if Dropped(cfg, m) then [] else [m]
    {
      var drop := HandlePacket(m);
      n := txCount;
      if !drop {
        txBufs[txCount] := m;
        n := txCount + 1;
      }
    }

    // The buffers of a burst in turn; survivors are collected for transmission.
    method Sift(bufs: seq<Mbuf<V>>, txBufs: array<Mbuf<V>>) returns (txCount: nat)
      requires Idle() && txBufs.Length == |bufs| && Separate(txBufs)
      modifies this`invalidFeatures, this`featureEvents, this`droppedPackets, this`journal, predictions, q, q.items,
          txBufs
      ensures Idle() && journal == ProcessAll(cfg, old(journal), bufs)
      ensures txCount <= txBufs.Length && txBufs[..txCount] == Survivors(cfg, bufs)
    {
      txCount := 0;
      for i := 0 to |bufs|
        invariant Idle() && journal == ProcessAll(cfg, old(journal), bufs[..i])
        invariant txCount <= i && txBufs[..txCount] == Survivors(cfg, bufs[..i])
      {
        PrefixNext(bufs, i);
        ProcessSnoc(cfg, old(journal), bufs[..i], bufs[i]);
        txCount := SiftOne(bufs[i], txBufs, txCount);
      }
      assert bufs[..|bufs|] == bufs;
    }

    // Hand over what the transmit queue takes; free the rest.
    method TransmitBurst(txBufs: array<Mbuf<V>>, txCount: nat, room: nat)
      requires txCount <= txBufs.Length && Idle()
      modifies this`txPackets, this`droppedPackets, this`journal
      ensures Idle() && journal == Transmit(old(journal), txBufs[..txCount], room)
    {
      ghost var keep := txBufs[..txCount];
      if txCount > 0 {
        var nb := Fitting(txCount, room);
        txPackets := txPackets + nb;
        if nb < txCount {
          droppedPackets := droppedPackets + (txCount - nb);
        }
      }
      journal := Transmit(journal, keep, room);
    }

    method HandleBurst(b: Burst<V>)
      requires AtHead()
      modifies this, predictions, q, q.items
      ensures AtHead() && journal == Record(cfg, old(journal), b)
    {
      if |b.bufs| == 0 {
        EmptyBurst(cfg, journal, b);
        return;
      }
      RecordConserves(cfg, journal, b);
      ConservedCount(Record(cfg, journal, b));
      rxPackets := rxPackets + |b.bufs|;
      journal := journal.(received := journal.received + b.bufs);
      ProcessOnlyFrees(cfg, journal, b.bufs);
      var txBufs := new Mbuf<V>[|b.bufs|](i requires 0 <= i < |b.bufs| => b.bufs[i]);
      var txCount := Sift(b.bufs, txBufs);
      TransmitBurst(txBufs, txCount, b.room);
    }

    // The loop, for as many bursts as arrive before the stop flag is seen.
    method Loop(bursts: seq<Burst<V>>)
      requires AtHead()
      modifies this, predictions, q, q.items
      ensures AtHead() && journal == RecordAll(cfg, old(journal), bursts)
    {
      for i := 0 to |bursts|
        invariant AtHead() && journal == RecordAll(cfg, old(journal), bursts[..i])
      {
        assert bursts[..i + 1][..i] == bursts[..i];
        HandleBurst(bursts[i]);
      }
      assert bursts[..|bursts|] == bursts;
    }
  }
}
