// Random forest: the exporter that flattens trees into arrays and measures
// their depth, and the bounded array walk that predicts a class.
module RandomForest {
  import opened LinearLayer

  datatype Tree =
    | Leaf(cls: nat)
    | Node(feat: nat, thr: real, left: Tree, right: Tree)

  function Eval(t: Tree, x: seq<real>): nat
    requires Features(t) <= |x|
  {
    match t
    case Leaf(c) => c
    case Node(f, thr, l, r) => if x[f] <= thr then Eval(l, x) else Eval(r, x)
  }

  // One decision on the way down: to the left child or the right one.
  datatype Turn = Turn(feat: nat, thr: real, left: bool)

  // Following the turns from the root ends at a leaf of class c.
  ghost predicate IsPath(t: Tree, path: seq<Turn>, c: nat)
    decreases t
  {
    match t
    case Leaf(k) => path == [] && k == c
    case Node(f, thr, l, r) =>
      && path != [] && path[0].feat == f && path[0].thr == thr
      && IsPath(if path[0].left then l else r, path[1..], c)
  }

  // x goes left exactly where its feature is at most the threshold.
  ghost predicate Meets(x: seq<real>, path: seq<Turn>) {
    forall i :: 0 <= i < |path| ==> path[i].feat < |x| && (path[i].left <==> x[path[i].feat] <= path[i].thr)
  }

  lemma {:induction false} PathExists(t: Tree, x: seq<real>) returns (path: seq<Turn>)
    requires Features(t) <= |x|
    ensures IsPath(t, path, Eval(t, x)) && Meets(x, path)
    decreases t
  {
    match t
    case Leaf(_) => path := [];
    case Node(f, thr, l, r) =>
      var rest := PathExists(if x[f] <= thr then l else r, x);
      path := [Turn(f, thr, x[f] <= thr)] + rest;
      assert path[1..] == rest;
  }

  lemma {:induction false} PathUnique(t: Tree, x: seq<real>, path: seq<Turn>, c: nat)
    requires Features(t) <= |x| && IsPath(t, path, c) && Meets(x, path)
    ensures c == Eval(t, x)
    decreases t
  {
    if t.Node? { PathUnique(if path[0].left then t.left else t.right, x, path[1..], c); }
  }

  // The class of a tree is that of the one leaf whose path conditions x meets.
  lemma {:induction false} EvalIsLeaf(t: Tree, x: seq<real>, c: nat)
    requires Features(t) <= |x|
    ensures c == Eval(t, x) <==> exists path :: IsPath(t, path, c) && Meets(x, path)
  {
    var path := PathExists(t, x);
    if p :| IsPath(t, p, c) && Meets(x, p) { PathUnique(t, x, p, c); }
  }

  function Max(a: nat, b: nat): nat { if a >= b then a else b }

  function Depth(t: Tree): nat {
    match t
    case Leaf(_) => 0
    case Node(_, _, l, r) => 1 + Max(Depth(l), Depth(r))
  }

  function Size(t: Tree): (s: nat)
    ensures s >= 1
  {
    match t
    case Leaf(_) => 1
    case Node(_, _, l, r) => 1 + Size(l) + Size(r)
  }

  // Number of features a tree looks at: one more than its largest index.
  function Features(t: Tree): nat {
    match t
    case Leaf(_) => 0
    case Node(f, _, l, r) => Max(f + 1, Max(Features(l), Features(r)))
  }

  // --- the fitted estimator's arrays -----------------------------------------

  // children_left, children_right, feature, threshold, value of one estimator.
  datatype Fitted = Fitted(left: seq<int>, right: seq<int>, feat: seq<int>, thr: seq<real>, dist: seq<seq<real>>) {
    ghost predicate Sized() {
      |left| == |right| == |feat| == |thr| == |dist| && forall i :: 0 <= i < |dist| ==> |dist[i]| >= 1
    }
  }

  // Node i of the arrays is the root of t; a leaf's class is the first index
  // of its largest class weight.
  ghost predicate Fits(a: Fitted, i: int, t: Tree, F: nat, C: nat)
    requires a.Sized()
    decreases t
  {
    && 0 <= i < |a.left|
    && match t
       case Leaf(c) => a.left[i] < 0 && a.right[i] < 0 && |a.dist[i]| == C && IsArgmax(a.dist[i], c)
       case Node(f, thr, l, r) =>
         && a.feat[i] == f < F && a.thr[i] == thr && a.left[i] >= 0
         && Fits(a, a.left[i], l, F, C) && Fits(a, a.right[i], r, F, C)
  }

  // --- the exported model ------------------------------------------------------

  datatype Model = Model(offsets: seq<nat>, left: seq<int>, right: seq<int>, feat: seq<int>, thr: seq<real>,
                         value: seq<int>, maxDepth: nat) {
    ghost predicate Sized() {
      && |left| == |right| == |feat| == |thr| == |value|
      && |offsets| >= 1 && offsets[|offsets| - 1] == |left|
    }
  }

  // Two's complement truncation to int16_t.
  function I16(v: int): int { (v + 32768) % 65536 - 32768 }

  // A node index survives the int16_t arrays exactly up to 32767.
  lemma {:induction false} I16Exact(v: nat)
    requires v < 65536
    ensures I16(v) == v <==> v <= 32767
    ensures v > 32767 ==> I16(v) < 0
  {}

  // The walk from local node i of the tree stored at off .. end follows t.
  ghost predicate Walkable(m: Model, off: nat, end: nat, i: int, t: Tree, F: nat, C: nat)
    requires m.Sized() && end <= |m.left|
    decreases t
  {
    && 0 <= i && off + i < end
    && match t
       case Leaf(c) => m.value[off + i] == c < C
       case Node(f, thr, l, r) =>
         && m.value[off + i] < 0 && m.feat[off + i] == f < F && m.thr[off + i] == thr
         && Walkable(m, off, end, m.left[off + i], l, F, C) && Walkable(m, off, end, m.right[off + i], r, F, C)
  }

  // The model stores the given trees in order and knows a bound on their depth.
  ghost predicate Stores(m: Model, ts: seq<Tree>, F: nat, C: nat)
    requires m.Sized()
  {
    |m.offsets| == |ts| + 1 && forall k: nat :: k < |ts| ==> StoresTree(m, k, ts[k], F, C)
  }

  ghost predicate StoresTree(m: Model, k: nat, t: Tree, F: nat, C: nat)
    requires m.Sized() && k + 1 < |m.offsets|
  {
    && m.offsets[k + 1] <= |m.left| && Walkable(m, m.offsets[k], m.offsets[k + 1], 0, t, F, C)
    && Depth(t) <= m.maxDepth
  }

  function ForestDepth(ts: seq<Tree>): nat {
    if ts == [] then 0 else Max(ForestDepth(ts[..|ts| - 1]), Depth(ts[|ts| - 1]))
  }

  lemma {:induction false} Forests(ts: seq<Tree>, k: nat)
    requires k < |ts|
    ensures Depth(ts[k]) <= ForestDepth(ts)
  {
    if k < |ts| - 1 { Forests(ts[..|ts| - 1], k); }
  }

  // --- measuring the depth -----------------------------------------------------

  // Largest depth reached below the stacked (node, depth) pairs.
  function Pending(stack: seq<(int, nat)>, ts: seq<Tree>): nat
    requires |stack| == |ts|
  {
    if stack == [] then 0
    else Max(Pending(stack[..|stack| - 1], ts[..|ts| - 1]), stack[|stack| - 1].1 + Depth(ts[|ts| - 1]))
  }

  function Sizes(ts: seq<Tree>): nat {
    if ts == [] then 0 else Sizes(ts[..|ts| - 1]) + Size(ts[|ts| - 1])
  }

  ghost predicate StackFits(a: Fitted, stack: seq<(int, nat)>, ts: seq<Tree>, F: nat, C: nat)
    requires a.Sized()
  {
    |stack| == |ts| && forall k :: 0 <= k < |stack| ==> Fits(a, stack[k].0, ts[k], F, C)
  }

  lemma {:induction false} Pushed(a: Fitted, stack: seq<(int, nat)>, ts: seq<Tree>, node: int, d: nat, t: Tree, F: nat,
      C: nat)
    requires a.Sized() && StackFits(a, stack, ts, F, C) && Fits(a, node, t, F, C)
    ensures StackFits(a, stack + [(node, d)], ts + [t], F, C)
    ensures Pending(stack + [(node, d)], ts + [t]) == Max(Pending(stack, ts), d + Depth(t))
    ensures Sizes(ts + [t]) == Sizes(ts) + Size(t)
  {
    var stack', ts' := stack + [(node, d)], ts + [t];
    assert stack'[..|stack|] == stack && ts'[..|ts|] == ts;
    forall k | 0 <= k < |stack'| ensures Fits(a, stack'[k].0, ts'[k], F, C) {
      if k < |stack| { assert Fits(a, stack[k].0, ts[k], F, C); }
    }
  }

  // Replacing an internal node by its two children, one level deeper.
  lemma {:induction false} Expanded(a: Fitted, stack: seq<(int, nat)>, ts: seq<Tree>, node: int, d: nat, t: Tree,
      F: nat, C: nat)
    returns (stack': seq<(int, nat)>, ts': seq<Tree>)
    requires a.Sized() && StackFits(a, stack, ts, F, C) && Fits(a, node, t, F, C) && t.Node?
    ensures stack' == stack + [(a.left[node], d + 1)] + [(a.right[node], d + 1)] && ts' == ts + [t.left] + [t.right]
    ensures StackFits(a, stack', ts', F, C)
    ensures Pending(stack', ts') == Max(Pending(stack, ts), d + Depth(t))
    ensures Sizes(ts') < Sizes(ts) + Size(t)
  {
    Pushed(a, stack, ts, a.left[node], d + 1, t.left, F, C);
    var s1, t1 := stack + [(a.left[node], d + 1)], ts + [t.left];
    Pushed(a, s1, t1, a.right[node], d + 1, t.right, F, C);
    stack', ts' := s1 + [(a.right[node], d + 1)], t1 + [t.right];
  }

  lemma {:induction false} SeenDepth(seen: nat, d: nat, p: nat, below: nat)
    ensures Max(Max(seen, d), Max(p, d + below)) == Max(seen, Max(p, d + below))
    ensures below == 0 ==> Max(Max(seen, d), p) == Max(seen, Max(p, d + below))
  {}

  // One round of the stack loop.
  method Visit(a: Fitted, stack: seq<(int, nat)>, seen: nat, ghost ts: seq<Tree>, ghost F: nat, ghost C: nat)
    returns (stack': seq<(int, nat)>, seen': nat, ghost ts': seq<Tree>)
    requires a.Sized() && StackFits(a, stack, ts, F, C) && stack != []
    ensures StackFits(a, stack', ts', F, C) && Sizes(ts') < Sizes(ts)
    ensures Max(seen', Pending(stack', ts')) == Max(seen, Pending(stack, ts))
  {
    var n := |stack| - 1;
    var node, d := stack[n].0, stack[n].1;
    ghost var t := ts[n];
    stack', ts' := stack[..n], ts[..n];
    SeenDepth(seen, d, Pending(stack', ts'), Depth(t));
    seen' := Max(seen, d);
    if a.left[node] >= 0 {
      ghost var s2, t2 := Expanded(a, stack', ts', node, d, t, F, C);
      stack' := stack' + [(a.left[node], d + 1)];
      stack' := stack' + [(a.right[node], d + 1)];
      ts' := t2;
    } else {
      assert Depth(t) == 0;
    }
  }

  method MeasureDepth(a: Fitted, seen: nat, ghost root: Tree, ghost F: nat, ghost C: nat) returns (maxSeen: nat)
    requires a.Sized() && Fits(a, 0, root, F, C)
    ensures maxSeen == Max(seen, Depth(root))
  {
    maxSeen := seen;
    Pushed(a, [], [], 0, 0, root, F, C);
    var stack: seq<(int, nat)> := [] + [(0, 0)];
    ghost var ts := [] + [root];
    while stack != []
      invariant StackFits(a, stack, ts, F, C)
      invariant Max(maxSeen, Pending(stack, ts)) == Max(seen, Depth(root))
      decreases Sizes(ts)
    {
      stack, maxSeen, ts := Visit(a, stack, maxSeen, ts, F, C);
    }
  }

  // --- the walk ----------------------------------------------------------------

  // One tree: at most maxDepth + 2 iterations, of which Depth(t) + 1 are used.
  method Walk(m: Model, x: seq<real>, off: nat, end: nat, F: nat, C: nat, ghost t: Tree) returns (pred: int)
    requires m.Sized() && end <= |m.left| && |x| == F && Features(t) <= F
    requires Walkable(m, off, end, 0, t, F, C) && Depth(t) <= m.maxDepth
    ensures pred == Eval(t, x) && 0 <= pred < C
  {
    var node := 0;
    pred := 0;
    ghost var cur := t;
    var depth := 0;
    while depth <= m.maxDepth + 1
      invariant Walkable(m, off, end, node, cur, F, C) && Features(cur) <= F
      invariant Eval(cur, x) == Eval(t, x) && Depth(cur) + depth <= Depth(t)
      invariant pred == 0 && depth <= m.maxDepth + 1
    {
      var g := off + node;
      if g >= end { assert false; break; }
      var value := m.value[g];
      if value >= 0 {
        pred := value;
        return;
      }
      var f := m.feat[g];
      if f < 0 || f >= F { assert false; break; }
      var next := if x[f] <= m.thr[g] then m.left[g] else m.right[g];
      cur := if x[f] <= m.thr[g] then cur.left else cur.right;
      if next < 0 { assert false; break; }
      node := next;
      depth := depth + 1;
    }
    assert false;
  }

  // --- the vote ----------------------------------------------------------------

  function Votes(ts: seq<Tree>, x: seq<real>, c: nat): nat
    requires forall t :: t in ts ==> Features(t) <= |x|
  {
    if ts == [] then 0
    else Votes(ts[..|ts| - 1], x, c) + if Eval(ts[|ts| - 1], x) == c then 1 else 0
  }

  function VotesBelow(ts: seq<Tree>, x: seq<real>, c: nat): nat
    requires forall t :: t in ts ==> Features(t) <= |x|
  {
    if c == 0 then 0 else VotesBelow(ts, x, c - 1) + Votes(ts, x, c - 1)
  }

  lemma {:induction false} VotesBelowStep(ts: seq<Tree>, x: seq<real>, c: nat)
    requires ts != [] && forall t :: t in ts ==> Features(t) <= |x|
    ensures VotesBelow(ts, x, c) == VotesBelow(ts[..|ts| - 1], x, c) + if Eval(ts[|ts| - 1], x) < c then 1 else 0
  {
    if c > 0 { VotesBelowStep(ts, x, c - 1); }
  }

  // Every tree votes exactly once.
  lemma {:induction false} VotesAddUp(ts: seq<Tree>, x: seq<real>, C: nat)
    requires forall t :: t in ts ==> Features(t) <= |x| && Eval(t, x) < C
    ensures VotesBelow(ts, x, C) == |ts|
  {
    if ts != [] {
      VotesBelowStep(ts, x, C);
      VotesAddUp(ts[..|ts| - 1], x, C);
    } else {
      NoVotes(x, C);
    }
  }

  lemma {:induction false} NoVotes(x: seq<real>, c: nat)
    ensures VotesBelow([], x, c) == 0
  {
    if c > 0 { NoVotes(x, c - 1); }
  }

  // Lowest class among those with the most votes.
  ghost predicate IsMajority(ts: seq<Tree>, x: seq<real>, C: nat, best: nat)
    requires forall t :: t in ts ==> Features(t) <= |x|
  {
    && best < C
    && (forall c: nat :: c < C ==> Votes(ts, x, c) <= Votes(ts, x, best))
    && (forall c: nat :: c < best ==> Votes(ts, x, c) < Votes(ts, x, best))
  }

  method CountVotes(m: Model, x: seq<real>, C: nat, ghost ts: seq<Tree>) returns (votes: array<nat>)
    requires m.Sized() && Stores(m, ts, |x|, C)
    requires forall t :: t in ts ==> Features(t) <= |x|
    ensures fresh(votes) && votes.Length == C
    ensures forall c: nat :: c < C ==> votes[c] == Votes(ts, x, c)
  {
    votes := new nat[C](_ => 0);
    for t := 0 to |m.offsets| - 1
      invariant forall c: nat :: c < C ==> votes[c] == Votes(ts[..t], x, c)
    {
      assert StoresTree(m, t, ts[t], |x|, C);
      var pred := Walk(m, x, m.offsets[t], m.offsets[t + 1], |x|, C, ts[t]);
      assert ts[..t + 1][..t] == ts[..t];
      if 0 <= pred < C {
        votes[pred] := votes[pred] + 1;
      }
    }
    assert ts[..|ts|] == ts;
  }

  method Predict(m: Model, x: seq<real>, C: nat, ghost ts: seq<Tree>) returns (best: nat)
    requires m.Sized() && C >= 1 && Stores(m, ts, |x|, C)
    requires forall t :: t in ts ==> Features(t) <= |x|
    ensures IsMajority(ts, x, C, best)
  {
    var votes := CountVotes(m, x, C, ts);
    best := 0;
    var bestVotes := votes[0];
    for c := 1 to C
      invariant 0 <= best < c && bestVotes == votes[best]
      invariant forall k: nat :: k < c ==> votes[k] <= votes[best]
      invariant forall k: nat :: k < best ==> votes[k] < votes[best]
    {
      if votes[c] > bestVotes {
        bestVotes := votes[c];
        best := c;
      }
    }
    assert forall k: nat :: k < C ==> votes[k] == Votes(ts, x, k);
  }

  // --- exporting ---------------------------------------------------------------

  function Trunc(v: seq<int>): seq<int> {
    seq(|v|, i requires 0 <= i < |v| => I16(v[i]))
  }

  // Class at a leaf, -1 at an internal node.
  ghost predicate LeafClasses(a: Fitted, value: seq<int>, n: nat)
    requires a.Sized() && n <= |a.left|
  {
    && |value| == n
    && forall i: nat :: i < n ==>
         if a.left[i] < 0 && a.right[i] < 0 then exists c: nat :: IsArgmax(a.dist[i], c) && value[i] == I16(c)
         else value[i] == -1
  }

  method LeafValues(a: Fitted) returns (value: seq<int>)
    requires a.Sized()
    ensures LeafClasses(a, value, |a.left|)
  {
    value := [];
    for i := 0 to |a.left|
      invariant LeafClasses(a, value, i)
    {
      if a.left[i] < 0 && a.right[i] < 0 {
        var c := Argmax(a.dist[i]);
        value := value + [I16(c)];
      } else {
        value := value + [-1];
      }
    }
  }

  lemma {:induction false} ArgmaxUnique(v: seq<real>, a: int, b: int)
    requires IsArgmax(v, a) && IsArgmax(v, b)
    ensures a == b
  {
    var x, y := v[a], v[b];
  }

  // The arrays of an estimator sit at off .. end of the model, truncated.
  ghost predicate Copied(a: Fitted, value: seq<int>, m: Model, off: nat, end: nat)
    requires a.Sized() && m.Sized()
  {
    && end == off + |a.left| && end <= |m.left| && LeafClasses(a, value, |a.left|)
    && forall i: nat :: i < |a.left| ==> CopiedAt(a, value, m, off, i)
  }

  ghost predicate CopiedAt(a: Fitted, value: seq<int>, m: Model, off: nat, i: nat)
    requires a.Sized() && m.Sized() && off + i < |m.left| && i < |a.left| == |value|
  {
    && m.left[off + i] == I16(a.left[i]) && m.right[off + i] == I16(a.right[i])
    && m.feat[off + i] == I16(a.feat[i]) && m.thr[off + i] == a.thr[i] && m.value[off + i] == value[i]
  }

  lemma {:induction false} SlicesCopied(a: Fitted, value: seq<int>, m: Model, off: nat, end: nat)
    requires a.Sized() && m.Sized() && end == off + |a.left| && end <= |m.left| && LeafClasses(a, value, |a.left|)
    requires m.left[off..end] == Trunc(a.left) && m.right[off..end] == Trunc(a.right)
    requires m.feat[off..end] == Trunc(a.feat) && m.thr[off..end] == a.thr && m.value[off..end] == value
    ensures Copied(a, value, m, off, end)
  {
    forall i: nat | i < |a.left| ensures CopiedAt(a, value, m, off, i) {
      assert m.left[off..end][i] == Trunc(a.left)[i] && m.right[off..end][i] == Trunc(a.right)[i];
      assert m.feat[off..end][i] == Trunc(a.feat)[i] && m.thr[off..end][i] == a.thr[i]
          && m.value[off..end][i] == value[i];
    }
  }

  // Appending an estimator's arrays makes its tree walkable in the model.
  lemma {:induction false} FitsWalks(a: Fitted, value: seq<int>, m: Model, off: nat, end: nat, i: int, t: Tree, F: nat,
      C: nat)
    requires a.Sized() && m.Sized() && Copied(a, value, m, off, end)
    requires |a.left| <= 32768 && F <= 32768 && C <= 32768 && Fits(a, i, t, F, C)
    ensures Walkable(m, off, end, i, t, F, C)
    decreases t
  {
    assert CopiedAt(a, value, m, off, i);
    match t
    case Leaf(c) =>
      LeafClass(a, value, i, c, F, C);
    case Node(f, thr, l, r) =>
      FitsWalks(a, value, m, off, end, a.left[i], l, F, C);
      FitsWalks(a, value, m, off, end, a.right[i], r, F, C);
  }

  lemma {:induction false} LeafClass(a: Fitted, value: seq<int>, i: nat, c: nat, F: nat, C: nat)
    requires a.Sized() && LeafClasses(a, value, |a.left|) && Fits(a, i, Leaf(c), F, C) && C <= 32768
    ensures value[i] == c < C
  {
    var c' :| 0 <= c' && IsArgmax(a.dist[i], c') && value[i] == I16(c');
    ArgmaxUnique(a.dist[i], c, c');
  }

  // Later estimators leave earlier trees as they are.
  lemma {:induction false} WalksKept(m: Model, m': Model, off: nat, end: nat, i: int, t: Tree, F: nat, C: nat)
    requires m.Sized() && m'.Sized() && end <= |m.left| && Walkable(m, off, end, i, t, F, C)
    requires m.left <= m'.left && m.right <= m'.right && m.feat <= m'.feat && m.thr <= m'.thr && m.value <= m'.value
    ensures Walkable(m', off, end, i, t, F, C)
    decreases t
  {
    match t
    case Leaf(c) =>
    case Node(f, thr, l, r) =>
      WalksKept(m, m', off, end, m.left[off + i], l, F, C);
      WalksKept(m, m', off, end, m.right[off + i], r, F, C);
  }

  ghost predicate Trained(ests: seq<Fitted>, ts: seq<Tree>, F: nat, C: nat) {
    && |ests| == |ts| && F <= 32768 && C <= 32768
    && forall k: nat :: k < |ts| ==> ests[k].Sized() && |ests[k].left| <= 32768 && Fits(ests[k], 0, ts[k], F, C)
  }

  function Append(m: Model, a: Fitted, value: seq<int>, depth: nat): Model
    requires |m.offsets| >= 1
  {
    Model(m.offsets + [m.offsets[|m.offsets| - 1] + |a.left|], m.left + Trunc(a.left), m.right + Trunc(a.right),
          m.feat + Trunc(a.feat), m.thr + a.thr, m.value + value, depth)
  }

  lemma {:induction false} Appended(m: Model, a: Fitted, value: seq<int>, depth: nat, t: Tree, F: nat, C: nat)
    requires m.Sized() && a.Sized() && LeafClasses(a, value, |a.left|)
    requires |a.left| <= 32768 && F <= 32768 && C <= 32768 && Fits(a, 0, t, F, C)
    ensures var m' := Append(m, a, value, depth);
            m'.Sized() && |m'.left| == |m.left| + |a.left| && Walkable(m', |m.left|, |m'.left|, 0, t, F, C)
  {
    var m' := Append(m, a, value, depth);
    SlicesCopied(a, value, m', |m.left|, |m'.left|);
    FitsWalks(a, value, m', |m.left|, |m'.left|, 0, t, F, C);
  }

  method ExportTree(m: Model, a: Fitted, ghost ts: seq<Tree>, ghost t: Tree, ghost F: nat, ghost C: nat)
    returns (m': Model)
    requires m.Sized() && Stores(m, ts, F, C) && m.maxDepth == ForestDepth(ts)
    requires a.Sized() && |a.left| <= 32768 && F <= 32768 && C <= 32768 && Fits(a, 0, t, F, C)
    ensures m'.Sized() && Stores(m', ts + [t], F, C) && m'.maxDepth == ForestDepth(ts + [t])
  {
    var value := LeafValues(a);
    var depth := MeasureDepth(a, m.maxDepth, t, F, C);
    m' := Append(m, a, value, depth);
    Appended(m, a, value, depth, t, F, C);
    StoredAfter(m, m', ts, t, F, C);
    assert (ts + [t])[..|ts|] == ts;
  }

  lemma {:induction false} StoredAfter(m: Model, m': Model, ts: seq<Tree>, t: Tree, F: nat, C: nat)
    requires m.Sized() && Stores(m, ts, F, C) && m'.Sized() && |m'.offsets| == |ts| + 2 && m.offsets <= m'.offsets
    requires m.left <= m'.left && m.right <= m'.right && m.feat <= m'.feat && m.thr <= m'.thr && m.value <= m'.value
    requires m'.maxDepth >= m.maxDepth && Depth(t) <= m'.maxDepth
    requires Walkable(m', |m.left|, |m'.left|, 0, t, F, C)
    ensures Stores(m', ts + [t], F, C)
  {
    forall k: nat | k < |ts| + 1 ensures StoresTree(m', k, (ts + [t])[k], F, C) {
      if k < |ts| {
        assert StoresTree(m, k, ts[k], F, C);
        WalksKept(m, m', m.offsets[k], m.offsets[k + 1], 0, ts[k], F, C);
      }
    }
  }

  method ExportForest(ests: seq<Fitted>, ghost ts: seq<Tree>, ghost F: nat, ghost C: nat) returns (m: Model)
    requires Trained(ests, ts, F, C)
    ensures m.Sized() && Stores(m, ts, F, C) && m.maxDepth == ForestDepth(ts)
  {
    m := Model([0], [], [], [], [], [], 0);
    for k := 0 to |ests|
      invariant m.Sized() && Stores(m, ts[..k], F, C) && m.maxDepth == ForestDepth(ts[..k])
    {
      assert ts[..k + 1] == ts[..k] + [ts[k]];
      m := ExportTree(m, ests[k], ts[..k], ts[k], F, C);
    }
    assert ts[..|ests|] == ts;
  }
}
