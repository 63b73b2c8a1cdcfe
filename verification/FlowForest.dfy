// The in-NIC forest: trees in fixed arrays, walked a bounded number of steps.
module FlowForest {
  import opened Stats
  import opened Rss
  import opened FlowTrack

  const LEAF: nat := 255
  const NODES: nat := 7
  const THRESHOLD: int := 32768
  const ONE: int := 65536

  datatype Node = Node(feature: nat, left: nat, right: nat, value: int)

  type Tree = seq<Node>

  // The first used nodes are leaves, or have both children further on.
  predicate Ordered(tree: Tree, used: nat) {
    && 1 <= used <= |tree| == NODES
    && forall i :: 0 <= i < used ==>
         (tree[i].feature == LEAF || (tree[i].feature < 4 && i < tree[i].left < used && i < tree[i].right < used))
  }

  function Child(n: Node, f: seq<int>): nat
    requires n.feature < |f|
  {
    if f[n.feature] < n.value then n.left else n.right
  }

  // The tree's meaning: descend from node i to a leaf.
  function Eval(tree: Tree, used: nat, f: seq<int>, i: nat): int
    requires Ordered(tree, used) && |f| == 4 && i < used
    decreases used - i
  {
    if tree[i].feature == LEAF then tree[i].value else Eval(tree, used, f, Child(tree[i], f))
  }

  // The bounded walk never reaches its fallback: each step moves on by at least
  // one node, and there are no more nodes than steps.
  method TreeInfer(tree: Tree, f: seq<int>, ghost used: nat) returns (v: int)
    requires Ordered(tree, used) && |f| == 4
    ensures v == Eval(tree, used, f, 0)
  {
    var idx := 0;
    for step := 0 to NODES
      invariant step <= idx < used && Eval(tree, used, f, idx) == Eval(tree, used, f, 0)
    {
      if tree[idx].feature == LEAF { return tree[idx].value; }
      idx := if f[tree[idx].feature] < tree[idx].value then tree[idx].left else tree[idx].right;
    }
    v := 0;
  }

  ghost predicate Scores(tree: Tree, used: nat) {
    used <= |tree| && forall i :: 0 <= i < used && tree[i].feature == LEAF ==> 0 <= tree[i].value <= ONE
  }

  lemma {:induction false} EvalScore(tree: Tree, used: nat, f: seq<int>, i: nat)
    requires Ordered(tree, used) && Scores(tree, used) && |f| == 4 && i < used
    ensures 0 <= Eval(tree, used, f, i) <= ONE
    decreases used - i
  {
    if tree[i].feature != LEAF { EvalScore(tree, used, f, Child(tree[i], f)); }
  }

  // A forest, with the number of nodes each tree uses.
  datatype Forest = Forest(trees: seq<Tree>, used: seq<nat>)

  ghost predicate Sound(forest: Forest) {
    && |forest.trees| == |forest.used|
    && forall t :: 0 <= t < |forest.trees|
        ==> Ordered(forest.trees[t], forest.used[t]) && Scores(forest.trees[t], forest.used[t])
  }

  function Votes(forest: Forest, f: seq<int>, n: nat): int
    requires |f| == 4 && n <= |forest.trees| == |forest.used|
    requires forall t :: 0 <= t < n ==> Ordered(forest.trees[t], forest.used[t])
  {
    if n == 0 then 0 else Votes(forest, f, n - 1) + Eval(forest.trees[n - 1], forest.used[n - 1], f, 0)
  }

  lemma {:induction false} VotesBound(forest: Forest, f: seq<int>, n: nat)
    requires Sound(forest) && |f| == 4 && n <= |forest.trees|
    ensures 0 <= Votes(forest, f, n) <= n * ONE
  {
    if n > 0 {
      VotesBound(forest, f, n - 1);
      EvalScore(forest.trees[n - 1], forest.used[n - 1], f, 0);
    }
  }

  // The mean of the trees' leaves, a score between zero and one.
  method ForestInfer(forest: Forest, f: seq<int>) returns (score: int)
    requires Sound(forest) && |forest.trees| == 4 && |f| == 4
    ensures score == Votes(forest, f, 4) / 4 && 0 <= score <= ONE
  {
    var sum := 0;
    for t := 0 to 4
      invariant sum == Votes(forest, f, t)
    {
      var v := TreeInfer(forest.trees[t], f, forest.used[t]);
      sum := sum + v;
    }
    VotesBound(forest, f, 4);
    score := sum / 4;
  }

  // --- the table that ships ------------------------------------------------------

  const SIZE: nat := 0
  const COUNT: nat := 1
  const MEAN: nat := 2
  const DELTA: nat := 3

  const ZERO := Node(0, 0, 0, 0)

  const TREE0: Tree := [
    Node(COUNT, 1, 2, 1), Node(SIZE, 3, 4, 1200),
    Node(LEAF, 0, 0, 3277), Node(LEAF, 0, 0, 6554), Node(LEAF, 0, 0, 60000), ZERO, ZERO]

  const TREE1: Tree := [
    Node(DELTA, 1, 2, 800), Node(MEAN, 3, 4, 200 * 65536),
    Node(LEAF, 0, 0, 6554), Node(LEAF, 0, 0, 13107), Node(LEAF, 0, 0, 39321), ZERO, ZERO]

  const TREE2: Tree := [
    Node(SIZE, 1, 2, 1500), Node(LEAF, 0, 0, 9830), Node(LEAF, 0, 0, 32768),
    Node(LEAF, 0, 0, 0), Node(LEAF, 0, 0, 0), ZERO, ZERO]

  const TREE3: Tree := [
    Node(COUNT, 1, 2, 3), Node(DELTA, 3, 4, 400),
    Node(LEAF, 0, 0, 13107), Node(LEAF, 0, 0, 6554), Node(LEAF, 0, 0, 26214), ZERO, ZERO]

  const FOREST := Forest([TREE0, TREE1, TREE2, TREE3], [5, 5, 5, 5])

  // Zero padding is never reached, so the shipped table is sound.
  lemma {:induction false} ShippedIsSound()
    ensures Sound(FOREST) && |FOREST.trees| == 4
  {}

  function Vote0(f: seq<int>): int
    requires |f| == 4
  {
    if f[COUNT] < 1 then (if f[SIZE] < 1200 then 6554 else 60000) else 3277
  }

  function Vote1(f: seq<int>): int
    requires |f| == 4
  {
    if f[DELTA] < 800 then (if f[MEAN] < 200 * 65536 then 13107 else 39321) else 6554
  }

  function Vote2(f: seq<int>): int
    requires |f| == 4
  {
    if f[SIZE] < 1500 then 9830 else 32768
  }

  function Vote3(f: seq<int>): int
    requires |f| == 4
  {
    if f[COUNT] < 3 then (if f[DELTA] < 400 then 6554 else 26214) else 13107
  }

  lemma {:induction false} EvalLeaf(tree: Tree, f: seq<int>, i: nat)
    requires Ordered(tree, 5) && |f| == 4 && i < 5 && tree[i].feature == LEAF
    ensures Eval(tree, 5, f, i) == tree[i].value
  {}

  lemma {:induction false} Evals0(f: seq<int>)
    requires |f| == 4 && Ordered(TREE0, 5)
    ensures Eval(TREE0, 5, f, 0) == Vote0(f)
  {
    EvalLeaf(TREE0, f, 2);
    EvalLeaf(TREE0, f, 3);
    EvalLeaf(TREE0, f, 4);
    assert Eval(TREE0, 5, f, 1) == if f[SIZE] < 1200 then 6554 else 60000;
  }

  lemma {:induction false} Evals1(f: seq<int>)
    requires |f| == 4 && Ordered(TREE1, 5)
    ensures Eval(TREE1, 5, f, 0) == Vote1(f)
  {
    EvalLeaf(TREE1, f, 2);
    EvalLeaf(TREE1, f, 3);
    EvalLeaf(TREE1, f, 4);
    assert Eval(TREE1, 5, f, 1) == if f[MEAN] < 200 * 65536 then 13107 else 39321;
  }

  lemma {:induction false} Evals2(f: seq<int>)
    requires |f| == 4 && Ordered(TREE2, 5)
    ensures Eval(TREE2, 5, f, 0) == Vote2(f)
  {
    EvalLeaf(TREE2, f, 1);
    EvalLeaf(TREE2, f, 2);
  }

  lemma {:induction false} Evals3(f: seq<int>)
    requires |f| == 4 && Ordered(TREE3, 5)
    ensures Eval(TREE3, 5, f, 0) == Vote3(f)
  {
    EvalLeaf(TREE3, f, 2);
    EvalLeaf(TREE3, f, 3);
    EvalLeaf(TREE3, f, 4);
    assert Eval(TREE3, 5, f, 1) == if f[DELTA] < 400 then 6554 else 26214;
  }

  function Score(f: seq<int>): int
    requires |f| == 4
  {
    (Vote0(f) + Vote1(f) + Vote2(f) + Vote3(f)) / 4
  }

  lemma {:induction false} ForestScore(f: seq<int>)
    requires |f| == 4
    ensures Sound(FOREST) && |FOREST.trees| == 4 && Votes(FOREST, f, 4) / 4 == Score(f)
  {
    ShippedIsSound();
    Evals0(f);
    Evals1(f);
    Evals2(f);
    Evals3(f);
    assert Votes(FOREST, f, 1) == Vote0(f);
    assert Votes(FOREST, f, 2) == Vote0(f) + Vote1(f);
    assert Votes(FOREST, f, 3) == Vote0(f) + Vote1(f) + Vote2(f);
  }

  // Every tracked slot has counted a packet.
  ghost predicate AllCounted(t: seq<FlowTrack.Entry>) {
    forall i :: 0 <= i < |t| && t[i].valid ==> t[i].pktCount >= 1
  }

  // On features that the flow table produces, the shipped forest reports an
  // anomaly exactly for a packet that starts a slot's run and has between 1500
  // and 32767 bytes; from 32768 on the starting average has wrapped.
  lemma {:induction false} AnomalyIff(t: seq<FlowTrack.Entry>, index: Index, p: Pkt)
    requires |t| == TABLE_SIZE && p.size < U16 && AllCounted(t)
    ensures Sound(FOREST) && |FOREST.trees| == 4
    ensures var key := Canonicalize(p.key);
            Votes(FOREST, FeaturesAt(t, index, p), 4) / 4 > 32768
            <==> !Hit(t[index(key)], key) && 1500 <= p.size < 32768
  {
    ForestScore(FeaturesAt(t, index, p));
    ScoreIff(t, index, p);
  }

  lemma {:induction false} ScoreIff(t: seq<FlowTrack.Entry>, index: Index, p: Pkt)
    requires |t| == TABLE_SIZE && p.size < U16 && AllCounted(t)
    ensures var key := Canonicalize(p.key);
            Score(FeaturesAt(t, index, p)) > THRESHOLD <==> !Hit(t[index(key)], key) && 1500 <= p.size < 32768
  {
    var key := Canonicalize(p.key);
    var e := t[index(key)];
    var f := FeaturesAt(t, index, p);
    if Hit(e, key) {
      assert f[COUNT] >= 1;
    } else {
      assert f[COUNT] == 0 && f[DELTA] == 0 && f[MEAN] == Wrap32(p.size * 65536);
    }
  }

  lemma {:induction false} TraceCounted(trace: seq<Pkt>, index: Index)
    ensures AllCounted(State(trace, index))
  {
    if trace != [] {
      var before, p := trace[..|trace| - 1], trace[|trace| - 1];
      TraceCounted(before, index);
    }
  }

}
