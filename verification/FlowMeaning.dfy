// What the flow table's features say about the packets seen so far.
module FlowMeaning {
  import opened Stats
  import opened Rss
  import opened FlowTrack
  import opened Listing

  // The slot's trailing run, if it is of this packet's flow.
  ghost predicate Continues(own: seq<Pkt>, p: Pkt) {
    own != [] && Canonicalize(own[|own| - 1].key) == Canonicalize(p.key)
  }

  // e are the exact averages of the run: three quarters of the one before and
  // a quarter of the size, in units of 1/65536, from the first size on.
  ghost predicate AreAverages(e: seq<real>, run: seq<Pkt>) {
    && |e| == |run| && (|run| > 0 ==> e[0] == run[0].size as real * 65536.0)
    && forall i :: 1 <= i < |run| ==> e[i] == (run[i].size as real * 65536.0 + 3.0 * e[i - 1]) / 4.0
  }

  // x is less than three units below the exact average of the run.
  ghost predicate IsNearAverage(x: int, run: seq<Pkt>)
    requires run != []
  {
    exists e :: AreAverages(e, run) && 0.0 <= e[|run| - 1] - x as real < 3.0
  }

  // The features of a packet that starts a run, or continues one.
  ghost predicate Describes(f: seq<int>, own: seq<Pkt>, p: Pkt) {
    && |f| == 4 && f[0] == p.size
    && if Continues(own, p) then
         var run := own[RunStart(own)..];
         var last := run[|run| - 1].size;
         && f[1] == (if |run| < 255 then |run| else 255)
         && (f[3] == p.size - last || f[3] == last - p.size) && f[3] >= 0
         && (SizesWithin(run, 0, 8191) ==> IsNearAverage(f[2], run))
       else f[1] == 0 && f[3] == 0 && (p.size < 32768 ==> f[2] == p.size * 65536)
  }

  function Averages(run: seq<Pkt>): seq<real> {
    if run == [] then [] else Averages(run[..|run| - 1]) + [Exact(run)]
  }

  lemma {:induction false} AveragesAre(run: seq<Pkt>)
    requires run != []
    ensures AreAverages(Averages(run), run) && Averages(run)[|run| - 1] == Exact(run)
  {
    if |run| > 1 {
      AveragesAre(run[..|run| - 1]);
    } else {
      assert Averages(run[..0]) == [];
    }
  }

  lemma {:induction false} NearAverage(run: seq<Pkt>)
    requires run != [] && SizesWithin(run, 0, MAX_EXACT)
    ensures IsNearAverage(FoldRun(run).ewma, run)
  {
    AverageError(run);
    AveragesAre(run);
    assert AreAverages(Averages(run), run);
  }

  lemma {:induction false} EntryDescribes(e: Entry, own: seq<Pkt>, p: Pkt)
    requires SlotHolds(e, own)
    ensures Describes(Features(Begin(e, Canonicalize(p.key), p.size), p.size), own, p)
  {
    if Continues(own, p) {
      var run := own[RunStart(own)..];
      assert run[|run| - 1] == own[|own| - 1];
      RunCounters(run);
      if SizesWithin(run, 0, 8191) { NearAverage(run); }
    }
  }

  // After any trace and for any hash, the features of the next packet describe
  // it against the longest trailing run of one flow among the packets of its slot.
  lemma {:induction false} FeaturesDescribe(trace: seq<Pkt>, index: Index, p: Pkt)
    ensures Describes(FeaturesAt(State(trace, index), index, p), Own(trace, index, index(Canonicalize(p.key))), p)
  {
    var i := index(Canonicalize(p.key));
    SlotIsTrailingRun(trace, index, i);
    EntryDescribes(State(trace, index)[i], Own(trace, index, i), p);
  }

  ghost function InSlot(trace: seq<Pkt>, index: Index, i: nat): set<nat> {
    set j: nat | j < |trace| && index(Canonicalize(trace[j].key)) == i
  }

  // The slot's own packets are those that hash to it, in order.
  lemma {:induction false} OwnIsSlot(trace: seq<Pkt>, index: Index, i: nat)
    ensures Picks(trace, InSlot(trace, index, i), Own(trace, index, i))
  {
    if trace == [] {
      PicksNone<Pkt>(InSlot(trace, index, i));
    } else {
      var before, p := trace[..|trace| - 1], trace[|trace| - 1];
      OwnIsSlot(before, index, i);
      PicksNext(before, InSlot(before, index, i), Own(before, index, i), p, InSlot(trace, index, i));
      assert trace == before + [p];
    }
  }
}
