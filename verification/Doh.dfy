// DNS-over-HTTPS profile: incremental per-flow statistics of TLS records, the
// sixteen features, and the contract every emitted vector must satisfy.
module Doh {
  import opened LinearLayer
  import opened Arithmetic
  import opened KeyedWindows
  import opened Rss
  import opened FeatureQueue
  import opened WindowTracker
  import opened Traffic
  import opened Stats

  // One TLS record: its length field and whether the client sent it.
  datatype Rec = Rec(len: nat, client: bool)

  datatype Side = Side(count: nat, bytes: nat, min: nat, max: nat, sum: nat)

  datatype Entry = Entry(client: Side, server: Side, lastDir: nat, switches: nat)

  const RESET := Entry(Side(0, 0, U32 - 1, 0, 0), Side(0, 0, U32 - 1, 0, 0), 0, 0)

  function UpdateSide(s: Side, len: nat): Side {
    Side((s.count + 1) % U32,
         (s.bytes + len) % U64,
         if s.count == 0 || len < s.min then len else s.min,
         if s.count == 0 || len > s.max then len else s.max,
         (s.sum + len) % U64)
  }

  function Update(e: Entry, r: Rec): Entry {
    var d := if r.client then 1 else 2;
    Entry(if r.client then UpdateSide(e.client, r.len) else e.client,
          if r.client then e.server else UpdateSide(e.server, r.len),
          d,
          if e.lastDir != 0 && e.lastDir != d then (e.switches + 1) % U16 else e.switches)
  }

  function EntryOf(s: seq<Rec>): Entry {
    Fold(Update, RESET, s)
  }

  function Count(e: Entry): nat { (e.client.count + e.server.count) % U32 }

  // --- batch statistics of a window ------------------------------------------

  // Record lengths of one direction, in order.
  function Of(s: seq<Rec>, client: bool): seq<nat> {
    if s == [] then []
    else var r := s[|s| - 1]; Of(s[..|s| - 1], client) + if r.client == client then [r.len] else []
  }

  // Adjacent records in different directions.
  function Switches(s: seq<Rec>): nat {
    if |s| < 2 then 0
    else Switches(s[..|s| - 1]) + if s[|s| - 1].client != s[|s| - 2].client then 1 else 0
  }

  ghost predicate Valid(s: seq<Rec>) {
    |s| < U16 && forall i :: 0 <= i < |s| ==> s[i].len < U16
  }

  ghost predicate SideAgrees(e: Side, v: seq<nat>) {
    && e.count == |v| && e.bytes == e.sum == Total(v)
    && (v != [] ==> IsMin(e.min, v) && IsMax(e.max, v))
  }

  // The entry holds the batch statistics of the records folded into it.
  ghost predicate Agrees(e: Entry, s: seq<Rec>) {
    && SideAgrees(e.client, Of(s, true)) && SideAgrees(e.server, Of(s, false))
    && e.lastDir == (if s == [] then 0 else if s[|s| - 1].client then 1 else 2)
    && e.switches == Switches(s)
  }

  lemma {:induction false} OfFacts(s: seq<Rec>)
    requires Valid(s)
    ensures |Of(s, true)| + |Of(s, false)| == |s|
    ensures forall c: bool, i :: 0 <= i < |Of(s, c)| ==> Of(s, c)[i] < U16
  {
    if s != [] { OfFacts(s[..|s| - 1]); }
  }

  lemma {:induction false} SwitchBound(s: seq<Rec>)
    ensures Switches(s) <= |s|
  {
    if s != [] { SwitchBound(s[..|s| - 1]); }
  }

  lemma {:induction false} SideStep(e: Side, v: seq<nat>, len: nat)
    requires SideAgrees(e, v) && |v| < U16 && len < U16 && forall i :: 0 <= i < |v| ==> v[i] < U16
    ensures SideAgrees(UpdateSide(e, len), v + [len])
  {
    TotalBound(v);
    assert (v + [len])[..|v|] == v;
    assert len in v + [len];
    assert forall x :: x in v ==> x in v + [len];
  }

  lemma {:induction false} SwitchStep(s: seq<Rec>, r: Rec)
    ensures Switches(s + [r]) == Switches(s) + if s != [] && s[|s| - 1].client != r.client then 1 else 0
  {
    assert (s + [r])[..|s|] == s;
  }

  lemma {:induction false} OfAppend(s: seq<Rec>, r: Rec, c: bool)
    ensures Of(s + [r], c) == if r.client == c then Of(s, c) + [r.len] else Of(s, c)
  {
    assert (s + [r])[..|s|] == s;
  }

  lemma {:induction false} UpdateAgrees(e: Entry, s: seq<Rec>, r: Rec)
    requires Agrees(e, s) && Valid(s) && |s| + 1 < U16 && r.len < U16
    ensures Agrees(Update(e, r), s + [r])
  {
    OfFacts(s);
    SwitchBound(s);
    SwitchStep(s, r);
    OfAppend(s, r, true);
    OfAppend(s, r, false);
    SideStep(if r.client then e.client else e.server, Of(s, r.client), r.len);
  }

  // No counter wraps within a window, so the fold is the batch statistics.
  lemma {:induction false} EntryAgrees(s: seq<Rec>)
    requires Valid(s)
    ensures Agrees(EntryOf(s), s) && Count(EntryOf(s)) == |s|
  {
    if s != [] {
      var before, r := s[..|s| - 1], s[|s| - 1];
      EntryAgrees(before);
      assert s == before + [r];
      UpdateAgrees(EntryOf(before), before, r);
    }
    CountOf(EntryOf(s), s);
  }

  lemma {:induction false} CountOf(e: Entry, s: seq<Rec>)
    requires Valid(s) && Agrees(e, s)
    ensures Count(e) == |s|
  {
    OfFacts(s);
  }

  // --- features ----------------------------------------------------------------

  function GlobalMin(e: Entry): nat {
    var a := if e.client.count != 0 && e.client.min < U32 - 1 then e.client.min else U32 - 1;
    if e.server.count != 0 && e.server.min < a then e.server.min else a
  }

  function GlobalMax(e: Entry): nat {
    var a := if e.client.count != 0 && e.client.max > 0 then e.client.max else 0;
    if e.server.count != 0 && e.server.max > a then e.server.max else a
  }

  function GlobalSum(e: Entry): nat {
    (if e.client.count != 0 then e.client.sum else 0) + if e.server.count != 0 then e.server.sum else 0
  }

  function Share(part: nat, whole: nat): real {
    if whole > 0 then part as real / whole as real else 0.0
  }

  function Features(e: Entry): (f: seq<real>)
    ensures |f| == 16
  {
    var nc, ns := e.client.count, e.server.count;
    var total := Count(e);
    [ if nc != 0 then e.client.max as real else 0.0,
      nc as real,
      Share(e.client.bytes, e.client.bytes + e.server.bytes),
      ns as real,
      Share(nc, total),
      e.client.bytes as real,
      if ns != 0 then e.server.max as real else 0.0,
      if GlobalMin(e) == U32 - 1 then 0.0 else GlobalMin(e) as real,
      if total != 0 then Mean(GlobalSum(e), total) else 0.0,
      if ns != 0 then Mean(e.server.sum, ns) else 0.0,
      e.switches as real,
      e.server.bytes as real,
      GlobalMax(e) as real,
      if nc != 0 then e.client.min as real else 0.0,
      if ns != 0 then e.server.min as real else 0.0,
      if nc != 0 then Mean(e.client.sum, nc) else 0.0 ]
  }

  function Lens(s: seq<Rec>): seq<nat> {
    seq(|s|, i requires 0 <= i < |s| => s[i].len)
  }

  // One direction's features: count, bytes, maximum, minimum, mean.
  ghost predicate SideBatch(count: real, bytes: real, max: real, min: real, mean: real, v: seq<nat>) {
    && count == |v| as real && bytes == Total(v) as real
    && MaxOrZero(max, v) && MinOrZero(min, v) && MeanOrZero(mean, v)
  }

  // x is the fraction part / whole, or zero of nothing.
  ghost predicate IsShare(x: real, part: nat, whole: nat) {
    if whole > 0 then x * whole as real == part as real else x == 0.0
  }

  // The sixteen features, computed over the whole window at once.
  ghost predicate IsBatch(f: seq<real>, s: seq<Rec>) {
    && |f| == 16
    && SideBatch(f[1], f[5], f[0], f[13], f[15], Of(s, true))
    && SideBatch(f[3], f[11], f[6], f[14], f[9], Of(s, false))
    && MinOrZero(f[7], Lens(s)) && MeanOrZero(f[8], Lens(s)) && MaxOrZero(f[12], Lens(s))
    && IsShare(f[2], Total(Of(s, true)), Total(Lens(s))) && IsShare(f[4], |Of(s, true)|, |s|)
    && f[10] == Switches(s) as real
  }

  // v holds exactly the elements of a and b.
  ghost predicate Merges(v: seq<nat>, a: seq<nat>, b: seq<nat>) {
    forall x :: x in v <==> x in a || x in b
  }

  lemma {:induction false} SplitStep(v: seq<nat>, a: seq<nat>, b: seq<nat>, x: nat)
    requires Total(v) == Total(a) + Total(b) && Merges(v, a, b)
    ensures Total(v + [x]) == Total(a + [x]) + Total(b) == Total(a) + Total(b + [x])
    ensures Merges(v + [x], a + [x], b) && Merges(v + [x], a, b + [x])
  {
    TotalSnoc(v, x);
    TotalSnoc(a, x);
    TotalSnoc(b, x);
  }

  lemma {:induction false} LensAppend(s: seq<Rec>, r: Rec)
    ensures Lens(s + [r]) == Lens(s) + [r.len]
  {}

  ghost predicate Splits(s: seq<Rec>) {
    Total(Lens(s)) == Total(Of(s, true)) + Total(Of(s, false)) && Merges(Lens(s), Of(s, true), Of(s, false))
  }

  lemma {:induction false} SplitNext(s: seq<Rec>, r: Rec)
    requires Splits(s)
    ensures Splits(s + [r])
  {
    SplitStep(Lens(s), Of(s, true), Of(s, false), r.len);
    LensAppend(s, r);
    OfAppend(s, r, true);
    OfAppend(s, r, false);
  }

  lemma {:induction false} AllSplit(s: seq<Rec>)
    ensures Splits(s)
  {
    if s != [] {
      AllSplit(s[..|s| - 1]);
      SplitNext(s[..|s| - 1], s[|s| - 1]);
      assert s == s[..|s| - 1] + [s[|s| - 1]];
    }
  }

  lemma {:induction false} LensSplit(s: seq<Rec>)
    ensures Total(Lens(s)) == Total(Of(s, true)) + Total(Of(s, false))
    ensures Merges(Lens(s), Of(s, true), Of(s, false))
  {
    AllSplit(s);
  }

  lemma {:induction false} MinOfTwo(a: seq<nat>, b: seq<nat>, v: seq<nat>, m: nat, x: nat, y: nat)
    requires Merges(v, a, b) && (a != [] ==> IsMin(x, a)) && (b != [] ==> IsMin(y, b)) && (a != [] || b != [])
    requires m == if a == [] then y else if b == [] then x else if y < x then y else x
    ensures IsMin(m, v)
  {
    forall i | 0 <= i < |v| ensures m <= v[i] {
      assert v[i] in v;
    }
  }

  lemma {:induction false} MaxOfTwo(a: seq<nat>, b: seq<nat>, v: seq<nat>, m: nat, x: nat, y: nat)
    requires Merges(v, a, b) && (a != [] ==> IsMax(x, a)) && (b != [] ==> IsMax(y, b)) && (a != [] || b != [])
    requires m == if a == [] then y else if b == [] then x else if y > x then y else x
    ensures IsMax(m, v)
  {
    forall i | 0 <= i < |v| ensures v[i] <= m {
      assert v[i] in v;
    }
  }

  lemma {:induction false} SideInRange(e: Side, v: seq<nat>)
    requires SideAgrees(e, v) && v != [] && forall i :: 0 <= i < |v| ==> v[i] < U16
    ensures e.min < U16 && e.max < U16
  {}

  lemma {:induction false} MaxCases(e: Entry, a: seq<nat>, b: seq<nat>)
    requires e.client.count == |a| && e.server.count == |b| && (a != [] || b != [])
    ensures GlobalMax(e) == if a == [] then e.server.max else if b == [] then e.client.max
                            else if e.server.max > e.client.max then e.server.max else e.client.max
  {}

  lemma {:induction false} GlobalMinIs(e: Entry, s: seq<Rec>)
    requires Valid(s) && s != [] && Agrees(e, s)
    ensures GlobalMin(e) < U16 && IsMin(GlobalMin(e), Lens(s))
  {
    OfFacts(s);
    LensSplit(s);
    var a, b := Of(s, true), Of(s, false);
    if a != [] { SideInRange(e.client, a); }
    if b != [] { SideInRange(e.server, b); }
    MinOfTwo(a, b, Lens(s), GlobalMin(e), e.client.min, e.server.min);
  }

  lemma {:induction false} GlobalMaxIs(e: Entry, s: seq<Rec>)
    requires Valid(s) && s != [] && Agrees(e, s)
    ensures IsMax(GlobalMax(e), Lens(s))
  {
    OfFacts(s);
    LensSplit(s);
    MaxCases(e, Of(s, true), Of(s, false));
    MaxOfTwo(Of(s, true), Of(s, false), Lens(s), GlobalMax(e), e.client.max, e.server.max);
  }

  lemma {:induction false} SideFeatures(e: Side, v: seq<nat>)
    requires SideAgrees(e, v)
    ensures SideBatch(e.count as real, e.bytes as real, if e.count != 0 then e.max as real else 0.0,
                      if e.count != 0 then e.min as real else 0.0,
                      if e.count != 0 then Mean(e.sum, e.count) else 0.0, v)
  {
    if v != [] {
      MeanIs(e.sum, v);
      assert RealMax(e.max as real, v, e.max) && RealMin(e.min as real, v, e.min);
    }
  }

  lemma {:induction false} GlobalSumIs(e: Entry, s: seq<Rec>)
    requires Agrees(e, s)
    ensures GlobalSum(e) == Total(Lens(s))
  {
    LensSplit(s);
  }

  lemma {:induction false} GlobalFeatures(e: Entry, s: seq<Rec>)
    requires Valid(s) && s != [] && Agrees(e, s) && Count(e) == |s|
    ensures var f := Features(e);
            MinOrZero(f[7], Lens(s)) && MeanOrZero(f[8], Lens(s)) && MaxOrZero(f[12], Lens(s))
  {
    GlobalMinIs(e, s);
    GlobalMaxIs(e, s);
    GlobalSumIs(e, s);
    GlobalsAre(Features(e), Lens(s), GlobalMin(e), GlobalMax(e), GlobalSum(e));
  }

  lemma {:induction false} GlobalsAre(f: seq<real>, v: seq<nat>, low: nat, high: nat, sum: nat)
    requires |f| == 16 && v != [] && IsMin(low, v) && IsMax(high, v) && sum == Total(v)
    requires f[7] == low as real && f[8] == Mean(sum, |v|) && f[12] == high as real
    ensures MinOrZero(f[7], v) && MeanOrZero(f[8], v) && MaxOrZero(f[12], v)
  {
    assert RealMin(f[7], v, low) && RealMax(f[12], v, high);
    MeanIs(sum, v);
  }

  lemma {:induction false} ShareAs(x: real, part: nat, whole: nat)
    requires x == Share(part, whole)
    ensures IsShare(x, part, whole)
  {}

  lemma {:induction false} SharesOf(e: Entry, f: seq<real>)
    requires f == Features(e)
    ensures |f| == 16
    ensures IsShare(f[2], e.client.bytes, e.client.bytes + e.server.bytes) && IsShare(f[4], e.client.count, Count(e))
  {
    ShareAs(f[2], e.client.bytes, e.client.bytes + e.server.bytes);
    ShareAs(f[4], e.client.count, Count(e));
  }

  lemma {:induction false} BytesAddUp(e: Entry, s: seq<Rec>)
    requires Agrees(e, s)
    ensures e.client.bytes == Total(Of(s, true)) && e.client.count == |Of(s, true)|
    ensures e.client.bytes + e.server.bytes == Total(Lens(s))
  {
    LensSplit(s);
  }

  lemma {:induction false} ShareFeatures(e: Entry, s: seq<Rec>, f: seq<real>)
    requires Agrees(e, s) && Count(e) == |s| && f == Features(e)
    ensures |f| == 16
    ensures IsShare(f[2], Total(Of(s, true)), Total(Lens(s))) && IsShare(f[4], |Of(s, true)|, |s|)
  {
    BytesAddUp(e, s);
    SharesOf(e, f);
  }

  // Whatever was folded into the entry, its features are the window's.
  lemma {:induction false} FeaturesAreBatch(s: seq<Rec>)
    requires Valid(s) && s != []
    ensures IsBatch(Features(EntryOf(s)), s)
  {
    var e := EntryOf(s);
    EntryAgrees(s);
    SideFeatures(e.client, Of(s, true));
    SideFeatures(e.server, Of(s, false));
    GlobalFeatures(e, s);
    ShareFeatures(e, s, Features(e));
  }

  // --- the contract --------------------------------------------------------------

  // feature_contract.c, over exact reals: same checks in the same order.
  predicate ValidateDoh(f: seq<real>, window: nat)
    requires |f| == 16
  {
    var nc, ns := f[1], f[3];
    if nc < 0.0 || ns < 0.0 then false
    else if (nc + ns + 0.5).Floor % U32 != window then false
    else if f[2] < 0.0 || f[2] > 1.0 then false
    else if f[4] < 0.0 || f[4] > 1.0 then false
    else if f[7] > f[8] || f[8] > f[12] then false
    else if f[10] < 0.0 || f[10] > (window as int - 1) as real then false
    else if f[10] > 2.0 * (if nc < ns then nc else ns) then false
    else true
  }

  // It accepts exactly the vectors whose two counts, rounded, add up to the
  // window, whose shares are fractions, whose mean lies between the extremes,
  // and whose switches fit both the window and the smaller side.
  lemma {:induction false} AcceptsIff(f: seq<real>, window: nat)
    requires |f| == 16
    ensures ValidateDoh(f, window)
       <==> && f[1] >= 0.0 && f[3] >= 0.0 && (f[1] + f[3] + 0.5).Floor % U32 == window
            && 0.0 <= f[2] <= 1.0 && 0.0 <= f[4] <= 1.0 && f[7] <= f[8] <= f[12]
            && 0.0 <= f[10] <= window as real - 1.0 && f[10] <= 2.0 * f[1] && f[10] <= 2.0 * f[3]
  {}

  // Runs of one direction alternate, so each needs a record of the other side.
  lemma {:induction false} SwitchesByRuns(s: seq<Rec>)
    requires s != []
    ensures Switches(s) <= |s| - 1
    ensures var first, last := s[0].client, s[|s| - 1].client;
            if first == last then Switches(s) <= 2 * |Of(s, !first)| && Switches(s) <= 2 * |Of(s, first)| - 2
            else Switches(s) <= 2 * |Of(s, first)| - 1 && Switches(s) <= 2 * |Of(s, last)| - 1
  {
    var before, r := s[..|s| - 1], s[|s| - 1];
    OfAppend(before, r, true);
    OfAppend(before, r, false);
    assert s == before + [r];
    if before != [] { SwitchesByRuns(before); }
  }

  lemma {:induction false} ShareBetween(x: real, part: nat, whole: nat)
    requires part <= whole && IsShare(x, part, whole)
    ensures 0.0 <= x <= 1.0
  {
    if whole > 0 {
      CancelLe(0.0, x, whole as real);
      CancelLe(x, 1.0, whole as real);
    }
  }

  lemma {:induction false} MinMeanMax(f: seq<real>, s: seq<Rec>)
    requires IsBatch(f, s) && s != []
    ensures f[7] <= f[8] <= f[12]
  {
    var v := Lens(s);
    assert v != [];
    var lo: nat :| RealMin(f[7], v, lo);
    var hi: nat :| RealMax(f[12], v, hi);
    MeanBetween(f[8], v, lo, hi);
  }

  lemma {:induction false} SwitchLimit(s: seq<Rec>)
    requires Valid(s) && s != []
    ensures Switches(s) <= |s| - 1
    ensures Switches(s) <= 2 * |Of(s, true)| && Switches(s) <= 2 * |Of(s, false)|
  {
    OfFacts(s);
    SwitchesByRuns(s);
  }

  lemma {:induction false} SharesBetween(f: seq<real>, s: seq<Rec>)
    requires Valid(s) && s != [] && IsBatch(f, s)
    ensures 0.0 <= f[2] <= 1.0 && 0.0 <= f[4] <= 1.0
  {
    OfFacts(s);
    LensSplit(s);
    ShareBetween(f[2], Total(Of(s, true)), Total(Lens(s)));
    ShareBetween(f[4], |Of(s, true)|, |s|);
  }

  lemma {:induction false} RoundCount(f: seq<real>, s: seq<Rec>)
    requires Valid(s) && s != [] && IsBatch(f, s)
    ensures f[1] >= 0.0 && f[3] >= 0.0 && (f[1] + f[3] + 0.5).Floor % U32 == |s|
  {
    OfFacts(s);
    RoundSum(f[1], f[3], |Of(s, true)|, |Of(s, false)|);
  }

  lemma {:induction false} RoundSum(x: real, y: real, a: nat, b: nat)
    requires x == a as real && y == b as real && a + b < U32
    ensures x >= 0.0 && y >= 0.0 && (x + y + 0.5).Floor % U32 == a + b
  {
    assert x + y == (a + b) as real;
    assert (x + y + 0.5).Floor == a + b;
  }

  // A batch vector of a full window meets every check but possibly the count,
  // and meets the count exactly for its own window length.
  lemma {:induction false} BatchValidates(f: seq<real>, s: seq<Rec>, window: nat)
    requires Valid(s) && s != [] && IsBatch(f, s)
    ensures ValidateDoh(f, window) <==> window == |s|
  {
    RoundCount(f, s);
    SwitchLimit(s);
    MinMeanMax(f, s);
    SharesBetween(f, s);
  }

  // doh_init_worker: a configured window of zero means sixteen records.
  function EffectiveWindow(configured: nat): nat {
    if configured != 0 then configured else 16
  }

  // Every vector the profile emits passes the contract exactly when a window
  // was configured: the classifier checks against the configured value, so
  // with the default every vector is rejected.
  lemma {:induction false} EmittedValidIff(s: seq<Rec>, configured: nat)
    requires Valid(s) && |s| == EffectiveWindow(configured)
    ensures ValidateDoh(Features(EntryOf(s)), configured) <==> configured != 0
  {
    FeaturesAreBatch(s);
    BatchValidates(Features(EntryOf(s)), s, configured);
  }

  // --- the profile -----------------------------------------------------------------

  const TLS_PORT: nat := 443
  const TLS_APPLICATION_DATA: nat := 23

  // A parsed IPv4/TCP packet; payload bytes are below 256.
  datatype Packet = Packet(key: Key5, payload: seq<nat>)

  // Application data records (section 5.1 of RFC 8446) whose length fits the
  // segment, to or from the TLS port.
  function Decode(p: Packet): (r: Option<Rec>)
    ensures r.Some? ==> r.value.len < U16
  {
    if p.key.srcPort != TLS_PORT && p.key.dstPort != TLS_PORT then None
    else if |p.payload| < 5 then None
    else if p.payload[0] != TLS_APPLICATION_DATA then None
    else var len := (p.payload[3] * 256 + p.payload[4]) % U16;
         if len > |p.payload| - 5 then None else Some(Rec(len, p.key.srcPort != TLS_PORT))
  }

  function ArrivalOf(p: Packet, insertOk: bool): Arrival<Rec> { Arrival(p.key, Decode(p), insertOk) }

  function VectorOf(s: seq<Rec>): seq<real> { Features(EntryOf(s)) }

  ghost predicate RecordsFit(open: map<Key5, seq<Rec>>) {
    forall k :: k in open ==> forall i :: 0 <= i < |open[k]| ==> open[k][i].len < U16
  }

  // A tracker set up for this profile, with record lengths in range.
  ghost predicate IsDoh(t: Tracker<Rec, Entry>)
    reads t
  {
    && t.update == Update && t.reset == RESET && t.emit == Features && t.count == Count
    && t.window < U16 && RecordsFit(t.win.open)
  }

  method Init(configured: nat, capacity: nat) returns (t: Tracker<Rec, Entry>)
    requires configured < U16
    ensures t.Valid() && IsDoh(t) && t.window == (if configured == 0 then 16 else configured)
    ensures t.win == Win(map[], []) && t.q.contents == [] && t.q.dropped == 0 && t.flows.entries.Length == capacity
    ensures fresh(t) && fresh(t.flows) && fresh(t.flows.entries) && fresh(t.q) && fresh(t.q.items)
  {
    t := new Tracker<Rec, Entry>(Update, RESET, Features, Count, EffectiveWindow(configured), capacity);
  }

  lemma {:induction false} FeedFits(w: Win<Key5, Rec>, e: Event<Key5, Rec>, window: nat, capacity: nat)
    requires RecordsFit(w.open) && e.rec.len < U16
    ensures RecordsFit(Feed(w, e, window, capacity).open)
    ensures forall i :: 0 <= i < |Chunk(w, e)| ==> Chunk(w, e)[i].len < U16
  {}

  // A decoded record is one step of its connection's window; anything else
  // leaves the profile untouched. Completed windows queue their features.
  method ProcessPacket(t: Tracker<Rec, Entry>, p: Packet, insertOk: bool)
    requires t.Valid() && IsDoh(t)
    modifies t, t.flows, t.flows.entries, t.q, t.q.items
    ensures t.Valid() && IsDoh(t)
    ensures t.win == Take(old(t.win), ArrivalOf(p, insertOk), t.window, t.flows.entries.Length)
    ensures var offered := Offered(old(t.win), ArrivalOf(p, insertOk), VectorOf, t.window, t.flows.entries.Length);
            && t.q.contents == Kept(old(t.q.contents), offered)
            && t.q.dropped == old(t.q.dropped) + Lost(old(t.q.contents), offered)
  {
    match Decode(p)
    case None => assert t.q.contents + [] == t.q.contents;
    case Some(rec) => AddRecord(t, Canonicalize(p.key), rec, insertOk);
  }

  // The packet, and what the worker then takes from the queue.
  method ServePacket(t: Tracker<Rec, Entry>, p: Packet, insertOk: bool) returns (popped: seq<Vector>)
    requires t.Valid() && IsDoh(t) && t.q.contents == []
    modifies t, t.flows, t.flows.entries, t.q, t.q.items
    ensures t.Valid() && IsDoh(t) && t.q.contents == []
    ensures t.win == Take(old(t.win), ArrivalOf(p, insertOk), t.window, t.flows.entries.Length)
    ensures var offered := Offered(old(t.win), ArrivalOf(p, insertOk), VectorOf, t.window, t.flows.entries.Length);
            popped == Kept([], offered) && t.q.dropped == old(t.q.dropped) + Lost([], offered)
  {
    ProcessPacket(t, p, insertOk);
    popped := t.Drain();
  }

  method AddRecord(t: Tracker<Rec, Entry>, key: Key5, rec: Rec, insertOk: bool)
    requires t.Valid() && IsDoh(t) && rec.len < U16
    modifies t, t.flows, t.flows.entries, t.q, t.q.items
    ensures t.Valid() && IsDoh(t)
    ensures t.win == Feed(old(t.win), Event(key, rec, insertOk), t.window, t.flows.entries.Length)
    ensures var e := Event(key, rec, insertOk);
            var burst := if Completes(old(t.win), e, t.window, t.flows.entries.Length)
                         then [(VectorOf(Chunk(old(t.win), e)), key)] else [];
            && t.q.contents == Kept(old(t.q.contents), burst)
            && t.q.dropped == old(t.q.dropped) + Lost(old(t.q.contents), burst)
  {
    ghost var e := Event(key, rec, insertOk);
    FeedFits(t.win, e, t.window, t.flows.entries.Length);
    EntryAgrees(Chunk(t.win, e));
    OfferIsKept(t.q.contents, Completes(t.win, e, t.window, t.flows.entries.Length), t.VectorOf(key, Chunk(t.win, e)));
    t.Process(key, rec, insertOk);
  }

  method ServeNext(t: Tracker<Rec, Entry>, p: Packet, insertOk: bool, ghost before: seq<Arrival<Rec>>,
      popped: seq<Vector>)
    returns (all: seq<Vector>)
    requires t.Valid() && IsDoh(t) && Served(t, before, VectorOf, popped)
    modifies t, t.flows, t.flows.entries, t.q, t.q.items
    ensures t.Valid() && IsDoh(t) && Served(t, before + [ArrivalOf(p, insertOk)], VectorOf, all)
    ensures t.q.dropped == old(t.q.dropped)
  {
    ServedNext(before, ArrivalOf(p, insertOk), t.win, VectorOf, t.window, t.flows.entries.Length);
    var more := ServePacket(t, p, insertOk);
    all := popped + more;
  }

  function ArrivalsOf(packets: seq<(Packet, bool)>): seq<Arrival<Rec>> {
    seq(|packets|, i requires 0 <= i < |packets| => ArrivalOf(packets[i].0, packets[i].1))
  }

  // Packet by packet, with the queue drained in between: all vectors popped are
  // those of the completed windows, and none is dropped.
  method ServeAll(t: Tracker<Rec, Entry>, packets: seq<(Packet, bool)>) returns (popped: seq<Vector>)
    requires t.Valid() && IsDoh(t) && t.q.contents == [] && t.win == Win(map[], [])
    modifies t, t.flows, t.flows.entries, t.q, t.q.items
    ensures t.Valid() && IsDoh(t) && Served(t, ArrivalsOf(packets), VectorOf, popped)
    ensures t.q.dropped == old(t.q.dropped)
  {
    popped := [];
    ghost var all := ArrivalsOf(packets);
    for i := 0 to |packets|
      invariant t.Valid() && IsDoh(t) && Served(t, all[..i], VectorOf, popped) && t.q.dropped == old(t.q.dropped)
    {
      PrefixNext(all, i);
      popped := ServeNext(t, packets[i].0, packets[i].1, all[..i], popped);
    }
    assert all[..|packets|] == all;
  }

  lemma {:induction false} RecordsInRange(events: seq<Event<Key5, Rec>>, key: Key5)
    requires forall e :: e in events ==> e.rec.len < U16
    ensures forall i :: 0 <= i < |Records(events, key)| ==> Records(events, key)[i].len < U16
  {
    if events != [] { RecordsInRange(events[..|events| - 1], key); }
  }
}
