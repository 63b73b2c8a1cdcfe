// The XNOR-popcount network and the +-1 network it stands for.
module Bnn {
  import opened LinearLayer
  import opened Words

  // --- the meaning ---------------------------------------------------------

  function Sign(x: real): real {
    if x >= 0.0 then 1.0 else -1.0
  }

  function Signs(x: seq<real>): seq<real> {
    seq(|x|, i requires 0 <= i < |x| => Sign(x[i]))
  }

  function SignMatrix(W: Matrix, K: nat, N: nat): Matrix
    requires Shaped(W, K, N)
  {
    seq(K, k requires 0 <= k < K => Signs(W[k]))
  }

  // Binarise weights and inputs, then an ordinary biased product.
  function BinaryLinear(W: Matrix, B: seq<real>, x: seq<real>, K: nat, N: nat): seq<real>
    requires Shaped(W, K, N) && |B| == N && |x| == K
  {
    Layer(SignMatrix(W, K, N), B, Signs(x), K, N, false)
  }

  datatype BLayer = BLayer(W: Matrix, B: seq<real>, K: nat, N: nat)

  ghost predicate Chained(net: seq<BLayer>) {
    && |net| >= 1
    && (forall i :: 0 <= i < |net| ==> Shaped(net[i].W, net[i].K, net[i].N) && |net[i].B| == net[i].N && net[i].K >= 1)
    && (forall i {:trigger net[i].K} :: 0 < i < |net| ==> net[i].K == net[i - 1].N)
  }

  // Activations after n layers; every layer but the last is followed by a sign.
  function Forward(net: seq<BLayer>, x: seq<real>, n: nat): (a: seq<real>)
    requires Chained(net) && n <= |net| && |x| == net[0].K
    ensures |a| == if n == 0 then net[0].K else net[n - 1].N
  {
    if n == 0 then x
    else var l := net[n - 1];
         var y := BinaryLinear(l.W, l.B, Forward(net, x, n - 1), l.K, l.N);
         if n == |net| then y else Signs(y)
  }

  // Places where both are negative or neither is.
  ghost function Agreeing(a: seq<real>, W: Matrix, K: nat, N: nat, o: nat): set<nat>
    requires Shaped(W, K, N) && |a| == K && o < N
  {
    set k: nat | k < K && (a[k] >= 0.0 <==> W[k][o] >= 0.0)
  }

  // Each output is twice the agreements less the inputs, plus its bias.
  ghost predicate IsStep(l: BLayer, a: seq<real>, b: seq<real>) {
    && Shaped(l.W, l.K, l.N) && |l.B| == l.N && |a| == l.K && |b| == l.N
    && forall o: nat :: o < l.N ==> b[o] == 2.0 * |Agreeing(a, l.W, l.K, l.N, o)| as real - l.K as real + l.B[o]
  }

  // The network computes these scores, layer by layer.
  ghost predicate Yields(net: seq<BLayer>, x: seq<real>, scores: seq<real>) {
    exists acts: seq<seq<real>> :: IsTrace(net, x, acts) && scores == acts[|net|]
  }

  ghost predicate IsTrace(net: seq<BLayer>, x: seq<real>, acts: seq<seq<real>>) {
    |acts| == |net| + 1 && acts[0] == x && forall i :: 0 <= i < |net| ==> IsStep(net[i], acts[i], acts[i + 1])
  }

  // --- packed bits -----------------------------------------------------------

  function WordsFor(n: nat): nat { (n + 63) / 64 }

  // The words hold the sign bits of v; bits past |v| are not constrained.
  ghost predicate Holds(words: seq<nat>, v: seq<real>) {
    && WordsFor(|v|) <= |words|
    && forall i: nat :: i < |v| ==> Bit(words[i / 64], i % 64) == (v[i] >= 0.0)
  }

  function TailMask(bits: nat): nat {
    var r := bits % 64;
    if r == 0 then Pow2(64) - 1 else Pow2(r) - 1
  }

  // Number of positions below k where the two vectors have the same sign.
  function Agree(a: seq<real>, b: seq<real>, k: nat): nat
    requires k <= |a| && k <= |b|
  {
    if k == 0 then 0 else Agree(a, b, k - 1) + if (a[k - 1] >= 0.0) == (b[k - 1] >= 0.0) then 1 else 0
  }

  function Products(a: seq<real>, b: seq<real>): seq<real>
    requires |a| == |b|
  {
    seq(|a|, i requires 0 <= i < |a| => Sign(a[i]) * Sign(b[i]))
  }

  // Twice the agreements less the length is the product of the sign vectors.
  lemma {:induction false} AgreeIsDot(a: seq<real>, b: seq<real>, k: nat)
    requires |a| == |b| && k <= |a|
    ensures 2.0 * (Agree(a, b, k) as real) - (k as real) == Sum(Products(a, b), k)
  {
    if k > 0 { AgreeIsDot(a, b, k - 1); }
  }

  function MaskedXnor(x: nat, w: nat, n: nat, wi: nat): nat {
    var v := Xnor(x, w);
    if wi + 1 == WordsFor(n) then And(v, TailMask(n)) else v
  }

  // The tail mask keeps exactly the real positions of the last word.
  lemma {:induction false} TailKeeps(n: nat, wi: nat, i: nat)
    requires wi + 1 == WordsFor(n) && i < 64
    ensures Bit(TailMask(n), i) <==> 64 * wi + i < n
  {
    var r := if n % 64 == 0 then 64 else n % 64;
    LowMaskAt(r, i);
    assert TailMask(n) == Pow2(r) - 1;
    assert n == 64 * wi + r;
  }

  // Bit i of word wi counts iff it is a real position and the signs agree there.
  lemma {:induction false} MaskedBit(x: seq<nat>, w: seq<nat>, a: seq<real>, b: seq<real>, wi: nat, i: nat)
    requires Holds(x, a) && Holds(w, b) && |a| == |b| && wi < WordsFor(|a|) && i < 64
    ensures var bit := Bit(MaskedXnor(x[wi], w[wi], |a|, wi), i);
            bit <==> 64 * wi + i < |a| && ((a[64 * wi + i] >= 0.0) == (b[64 * wi + i] >= 0.0))
  {
    var p := 64 * wi + i;
    assert p / 64 == wi && p % 64 == i;
    XnorAt(x[wi], w[wi], i);
    if wi + 1 == WordsFor(|a|) {
      AndAt(Xnor(x[wi], w[wi]), TailMask(|a|), i);
      TailKeeps(|a|, wi, i);
    } else {
      assert p < |a|;
    }
  }

  // Bit i of the word counts iff it is a real position where the signs agree.
  ghost predicate Marks(word: nat, a: seq<real>, b: seq<real>, wi: nat)
    requires |a| == |b|
  {
    forall i: nat {:trigger Bit(word, i)} :: i < 64 ==>
      (Bit(word, i) <==> 64 * wi + i < |a| && ((a[64 * wi + i] >= 0.0) == (b[64 * wi + i] >= 0.0)))
  }

  lemma {:induction false} MarksAgree(word: nat, a: seq<real>, b: seq<real>, wi: nat, m: nat)
    requires |a| == |b| && Marks(word, a, b, wi) && 64 * wi < |a| && m <= 64
    ensures var hi := if 64 * wi + m < |a| then 64 * wi + m else |a|;
            Agree(a, b, 64 * wi) + Count(word, m) == Agree(a, b, hi)
  {
    if m > 0 {
      MarksAgree(word, a, b, wi, m - 1);
      assert Bit(word, m - 1) || !Bit(word, m - 1);
    }
  }

  lemma {:induction false} WordAgrees(x: seq<nat>, w: seq<nat>, a: seq<real>, b: seq<real>, wi: nat)
    requires Holds(x, a) && Holds(w, b) && |a| == |b| && wi < WordsFor(|a|)
    ensures var hi := if 64 * wi + 64 < |a| then 64 * wi + 64 else |a|;
            Agree(a, b, 64 * wi) + Count(MaskedXnor(x[wi], w[wi], |a|, wi), 64) == Agree(a, b, hi)
  {
    MaskMarks(x, w, a, b, wi);
    MarksAgree(MaskedXnor(x[wi], w[wi], |a|, wi), a, b, wi, 64);
  }

  lemma {:induction false} MaskMarks(x: seq<nat>, w: seq<nat>, a: seq<real>, b: seq<real>, wi: nat)
    requires Holds(x, a) && Holds(w, b) && |a| == |b| && wi < WordsFor(|a|)
    ensures Marks(MaskedXnor(x[wi], w[wi], |a|, wi), a, b, wi) && 64 * wi < |a|
  {
    var word := MaskedXnor(x[wi], w[wi], |a|, wi);
    forall i: nat {:trigger Bit(word, i)} | i < 64
      ensures Bit(word, i) <==> 64 * wi + i < |a| && ((a[64 * wi + i] >= 0.0) == (b[64 * wi + i] >= 0.0))
    {
      MaskedBit(x, w, a, b, wi, i);
    }
  }

  method MatchCount(x: seq<nat>, wrow: seq<nat>, n: nat, ghost a: seq<real>, ghost b: seq<real>) returns (pc: nat)
    requires |a| == |b| == n && Holds(x, a) && Holds(wrow, b)
    ensures pc == Agree(a, b, n)
  {
    pc := 0;
    for wi := 0 to WordsFor(n)
      invariant pc == Agree(a, b, if 64 * wi < n then 64 * wi else n)
    {
      WordAgrees(x, wrow, a, b, wi);
      var xnor := Xnor(x[wi], wrow[wi]);
      if wi == WordsFor(n) - 1 {
        xnor := And(xnor, TailMask(n));
      }
      pc := pc + Count(xnor, 64);
    }
  }

  // Column o of a weight matrix.
  function Column(W: Matrix, K: nat, N: nat, o: nat): seq<real>
    requires Shaped(W, K, N) && o < N
  {
    seq(K, k requires 0 <= k < K => W[k][o])
  }

  // Every row of the packed weights holds the signs of one output's weights.
  ghost predicate PackedRows(packed: seq<nat>, W: Matrix, K: nat, N: nat)
    requires Shaped(W, K, N)
  {
    && |packed| == N * WordsFor(K)
    && forall o: nat :: o < N ==> RowHolds(packed, W, K, N, o)
  }

  ghost predicate RowHolds(packed: seq<nat>, W: Matrix, K: nat, N: nat, o: nat)
    requires Shaped(W, K, N) && o < N
  {
    && (o + 1) * WordsFor(K) <= |packed|
    && o * WordsFor(K) <= (o + 1) * WordsFor(K)
    && Holds(packed[o * WordsFor(K)..(o + 1) * WordsFor(K)], Column(W, K, N, o))
  }

  lemma {:induction false} ScoreIsNeuron(W: Matrix, B: seq<real>, x: seq<real>, K: nat, N: nat, o: nat)
    requires Shaped(W, K, N) && |B| == N && |x| == K && o < N
    ensures 2.0 * (Agree(x, Column(W, K, N, o), K) as real) - (K as real) + B[o]
         == BinaryLinear(W, B, x, K, N)[o]
  {
    AgreeIsDot(x, Column(W, K, N, o), K);
    var t := Terms(SignMatrix(W, K, N), Signs(x), K, N, o);
    var p := Products(x, Column(W, K, N, o));
    assert forall k :: 0 <= k < K ==> t[k] == p[k];
    assert t == p;
  }

  // --- the layer -------------------------------------------------------------

  method Score(bits: seq<nat>, weights: seq<nat>, bias: seq<real>, K: nat, N: nat, o: nat, ghost W: Matrix,
      ghost x: seq<real>)
    returns (score: real)
    requires Shaped(W, K, N) && |bias| == N && |x| == K && o < N
    requires PackedRows(weights, W, K, N) && Holds(bits, x)
    ensures score == BinaryLinear(W, bias, x, K, N)[o]
  {
    var wpo := WordsFor(K);
    assert RowHolds(weights, W, K, N, o);
    var pc := MatchCount(bits, weights[o * wpo..(o + 1) * wpo], K, x, Column(W, K, N, o));
    ScoreIsNeuron(W, bias, x, K, N, o);
    score := 2.0 * (pc as real) - (K as real) + bias[o];
  }

  method BnnLayer(inBits: array<nat>, weights: seq<nat>, bias: seq<real>, outBits: array<nat>, scores: array<real>,
                  final: bool, K: nat, N: nat, ghost W: Matrix, ghost x: seq<real>)
    requires Shaped(W, K, N) && |bias| == N && |x| == K
    requires PackedRows(weights, W, K, N) && Holds(inBits[..], x)
    requires inBits != outBits && WordsFor(N) <= outBits.Length
    requires final ==> N <= scores.Length
    modifies outBits, scores
    ensures final ==> BinaryLinear(W, bias, x, K, N) <= scores[..]
    ensures !final ==> Holds(outBits[..], BinaryLinear(W, bias, x, K, N))
  {
    ghost var y := BinaryLinear(W, bias, x, K, N);
    for w := 0 to WordsFor(N)
      invariant forall q: nat :: q < w ==> outBits[q] == 0
      invariant inBits[..] == old(inBits[..])
    {
      outBits[w] := 0;
    }
    ClearWords(outBits[..], y);
    for o := 0 to N
      invariant inBits[..] == old(inBits[..])
      invariant final ==> y[..o] <= scores[..]
      invariant !final ==> Partial(outBits[..], y, o)
    {
      var score := Score(inBits[..], weights, bias, K, N, o, W, x);
      if final {
        scores[o] := score;
      } else if score >= 0.0 {
        SetBit(outBits[..], y, o);
        outBits[o / 64] := Or(outBits[o / 64], Pow2(o % 64));
      } else {
        LeaveBit(outBits[..], y, o);
      }
    }
  }

  // Bits below o hold the signs of y, the others up to |y| are still clear.
  ghost predicate Partial(words: seq<nat>, y: seq<real>, o: nat) {
    && WordsFor(|y|) <= |words|
    && forall i: nat :: i < |y| ==> Bit(words[i / 64], i % 64) == (i < o && y[i] >= 0.0)
  }

  lemma {:induction false} SetBit(words: seq<nat>, y: seq<real>, o: nat)
    requires Partial(words, y, o) && o < |y| && y[o] >= 0.0
    ensures Partial(words[o / 64 := Or(words[o / 64], Pow2(o % 64))], y, o + 1)
  {
    var words' := words[o / 64 := Or(words[o / 64], Pow2(o % 64))];
    forall i: nat | i < |y|
      ensures Bit(words'[i / 64], i % 64) == (i < o + 1 && y[i] >= 0.0)
    {
      if i / 64 == o / 64 {
        OrAt(words[o / 64], Pow2(o % 64), i % 64);
        Pow2At(o % 64, i % 64);
      }
    }
  }

  lemma {:induction false} LeaveBit(words: seq<nat>, y: seq<real>, o: nat)
    requires Partial(words, y, o) && o < |y| && y[o] < 0.0
    ensures Partial(words, y, o + 1)
  {}

  lemma {:induction false} ClearWords(words: seq<nat>, y: seq<real>)
    requires WordsFor(|y|) <= |words| && forall q: nat :: q < WordsFor(|y|) ==> words[q] == 0
    ensures Partial(words, y, 0)
  {
    forall i: nat | i < |y| ensures !Bit(words[i / 64], i % 64) {
      ZeroAt(i % 64);
    }
  }

  method PackBits(x: seq<real>, bits: array<nat>)
    requires WordsFor(|x|) <= bits.Length
    modifies bits
    ensures Holds(bits[..], x)
  {
    for w := 0 to WordsFor(|x|)
      invariant forall q: nat :: q < w ==> bits[q] == 0
    {
      bits[w] := 0;
    }
    ClearWords(bits[..], x);
    for i := 0 to |x|
      invariant Partial(bits[..], x, i)
    {
      if x[i] >= 0.0 {
        SetBit(bits[..], x, i);
        bits[i / 64] := Or(bits[i / 64], Pow2(i % 64));
      } else {
        LeaveBit(bits[..], x, i);
      }
    }
  }

  // --- exporting weights -------------------------------------------------------

  lemma {:induction false} RowBounds(o: nat, q: nat, w: nat)
    requires o < q
    ensures o * w <= (o + 1) * w <= q * w
  {
    assert q * w - (o + 1) * w == (q - (o + 1)) * w;
  }

  lemma {:induction false} AppendRow(packed: seq<nat>, row: seq<nat>, W: Matrix, K: nat, N: nat, o: nat)
    requires Shaped(W, K, N) && o < N && |packed| == o * WordsFor(K) && |row| == WordsFor(K)
    requires forall q: nat :: q < o ==> RowHolds(packed, W, K, N, q)
    requires Holds(row, Column(W, K, N, o))
    ensures |packed + row| == (o + 1) * WordsFor(K)
    ensures forall q: nat :: q < o + 1 ==> RowHolds(packed + row, W, K, N, q)
  {
    var w := WordsFor(K);
    assert (o + 1) * w == o * w + w;
    forall q: nat | q < o + 1 ensures RowHolds(packed + row, W, K, N, q) {
      if q < o {
        RowBounds(q, o, w);
        assert RowHolds(packed, W, K, N, q);
        assert (packed + row)[q * w..(q + 1) * w] == packed[q * w..(q + 1) * w];
      } else {
        assert (packed + row)[o * w..(o + 1) * w] == row;
      }
    }
  }

  // packed[o, i / 64] gets bit i % 64 for every weight that is not negative;
  // the result is the rows one after another.
  method PackWeights(W: Matrix, K: nat, N: nat) returns (packed: seq<nat>)
    requires Shaped(W, K, N)
    ensures PackedRows(packed, W, K, N)
  {
    packed := [];
    for o := 0 to N
      invariant |packed| == o * WordsFor(K)
      invariant forall q: nat :: q < o ==> RowHolds(packed, W, K, N, q)
    {
      var row := new nat[WordsFor(K)];
      PackBits(Column(W, K, N, o), row);
      AppendRow(packed, row[..], W, K, N, o);
      packed := packed + row[..];
    }
  }

  // --- the meaning, output by output -------------------------------------------

  ghost function Alike(a: seq<real>, b: seq<real>, k: nat): set<nat>
    requires k <= |a| && k <= |b|
  {
    set i: nat | i < k && (a[i] >= 0.0 <==> b[i] >= 0.0)
  }

  lemma {:induction false} AgreeCounts(a: seq<real>, b: seq<real>, k: nat)
    requires k <= |a| && k <= |b|
    ensures Agree(a, b, k) == |Alike(a, b, k)|
  {
    if k > 0 {
      AgreeCounts(a, b, k - 1);
      assert k - 1 !in Alike(a, b, k - 1);
      assert Alike(a, b, k)
          == Alike(a, b, k - 1) + if (a[k - 1] >= 0.0) == (b[k - 1] >= 0.0) then {k - 1} else {};
    }
  }

  // Only the signs of the input matter.
  lemma {:induction false} LinearStep(l: BLayer, a: seq<real>, s: seq<real>)
    requires Shaped(l.W, l.K, l.N) && |l.B| == l.N && |a| == |s| == l.K
    requires forall k :: 0 <= k < l.K ==> (a[k] >= 0.0 <==> s[k] >= 0.0)
    ensures IsStep(l, a, BinaryLinear(l.W, l.B, s, l.K, l.N))
  {
    forall o: nat | o < l.N
      ensures BinaryLinear(l.W, l.B, s, l.K, l.N)[o]
           == 2.0 * |Agreeing(a, l.W, l.K, l.N, o)| as real - l.K as real + l.B[o]
    {
      ScoreIsNeuron(l.W, l.B, s, l.K, l.N, o);
      AgreeCounts(s, Column(l.W, l.K, l.N, o), l.K);
      assert Agreeing(a, l.W, l.K, l.N, o) == Alike(s, Column(l.W, l.K, l.N, o), l.K);
    }
  }

  // The scores of layer n - 1, before any sign.
  function Scores(net: seq<BLayer>, x: seq<real>, n: nat): seq<real>
    requires Chained(net) && n <= |net| && |x| == net[0].K
  {
    if n == 0 then x
    else var l := net[n - 1]; BinaryLinear(l.W, l.B, Forward(net, x, n - 1), l.K, l.N)
  }

  lemma {:induction false} ForwardYields(net: seq<BLayer>, x: seq<real>)
    requires Chained(net) && |x| == net[0].K
    ensures Yields(net, x, Forward(net, x, |net|))
  {
    var acts := seq(|net| + 1, n requires 0 <= n < |net| + 1 => Scores(net, x, n));
    forall i | 0 <= i < |net| ensures IsStep(net[i], acts[i], acts[i + 1]) {
      var n := i + 1;
      assert acts[n] == Scores(net, x, n);
      LinearStep(net[i], acts[i], Forward(net, x, i));
    }
    assert IsTrace(net, x, acts);
  }

  // --- prediction ------------------------------------------------------------

  ghost predicate Exported(net: seq<BLayer>, packed: seq<seq<nat>>)
    requires Chained(net)
  {
    |packed| == |net| && forall i :: 0 <= i < |net| ==> PackedRows(packed[i], net[i].W, net[i].K, net[i].N)
  }

  ghost predicate FitsScratch(net: seq<BLayer>, words: nat, outputs: nat)
    requires Chained(net)
  {
    && WordsFor(net[0].K) <= words && net[|net| - 1].N <= outputs
    && forall i :: 0 <= i < |net| ==> WordsFor(net[i].N) <= words
  }

  // Signs of a sign vector are the signs of the vector it came from.
  lemma {:induction false} HoldsSigns(words: seq<nat>, y: seq<real>)
    ensures Holds(words, y) <==> Holds(words, Signs(y))
  {
    assert forall i: nat :: i < |y| ==> (Signs(y)[i] >= 0.0) == (y[i] >= 0.0);
  }

  // The buffers before layer l: packed signs of its input, or final scores.
  ghost predicate Ready(net: seq<BLayer>, x: seq<real>, l: nat, bits: seq<nat>, scores: seq<real>)
    requires Chained(net) && |x| == net[0].K && l <= |net|
  {
    if l < |net| then Holds(bits, Forward(net, x, l)) else Forward(net, x, l) <= scores
  }

  method Step(net: seq<BLayer>, packed: seq<nat>, x: seq<real>, l: nat, inb: array<nat>, outb: array<nat>,
      scores: array<real>)
    requires Chained(net) && |x| == net[0].K && l < |net| && Ready(net, x, l, inb[..], scores[..])
    requires PackedRows(packed, net[l].W, net[l].K, net[l].N)
    requires inb != outb && WordsFor(net[l].N) <= outb.Length
    requires net[|net| - 1].N <= scores.Length
    modifies outb, scores
    ensures Ready(net, x, l + 1, outb[..], scores[..])
  {
    ghost var act := Forward(net, x, l);
    var n := net[l];
    BnnLayer(inb, packed, n.B, outb, scores, l == |net| - 1, n.K, n.N, n.W, act);
    HoldsSigns(outb[..], BinaryLinear(n.W, n.B, act, n.K, n.N));
  }

  method Classify(scores: seq<real>) returns (c: nat)
    requires |scores| >= 1
    ensures if |scores| == 1 then c == (if scores[0] >= 0.0 then 1 else 0) else IsArgmax(scores, c)
  {
    if |scores| == 1 {
      c := if scores[0] >= 0.0 then 1 else 0;
    } else {
      c := Argmax(scores);
    }
  }

  method Decide(scores: array<real>, n: nat, ghost f: seq<real>) returns (c: nat)
    requires |f| == n >= 1 && f <= scores[..]
    ensures if |f| == 1 then c == (if f[0] >= 0.0 then 1 else 0) else IsArgmax(f, c)
  {
    assert scores[..n] == f;
    c := Classify(scores[..n]);
  }

  method Predict(net: seq<BLayer>, packed: seq<seq<nat>>, x: seq<real>, words: nat, outputs: nat) returns (c: nat)
    requires Chained(net) && |x| == net[0].K && Exported(net, packed) && FitsScratch(net, words, outputs)
    requires net[|net| - 1].N >= 1
    ensures exists scores :: Yields(net, x, scores)
              && if |scores| == 1 then c == (if scores[0] >= 0.0 then 1 else 0) else IsArgmax(scores, c)
  {
    ForwardYields(net, x);
    var a := new nat[words](_ => 0);
    var b := new nat[words](_ => 0);
    var scores := new real[outputs](_ => 0.0);
    PackBits(x, a);
    var inb, outb := a, b;
    for l := 0 to |net|
      invariant inb != outb && fresh(inb) && fresh(outb) && inb.Length == words && outb.Length == words
      invariant Ready(net, x, l, inb[..], scores[..])
    {
      Step(net, packed[l], x, l, inb, outb, scores);
      inb, outb := outb, inb;
    }
    c := Decide(scores, net[|net| - 1].N, Forward(net, x, |net|));
  }
}
