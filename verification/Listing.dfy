// Parts of a sequence, in order.
module Listing {

  // out are the elements of s at the chosen places, in order.
  ghost predicate Picks<T>(s: seq<T>, chosen: set<nat>, out: seq<T>) {
    exists at: seq<nat> :: PicksAt(s, chosen, out, at)
  }

  ghost predicate PicksAt<T>(s: seq<T>, chosen: set<nat>, out: seq<T>, at: seq<nat>) {
    && |at| == |out|
    && (forall k: nat :: k < |at| ==> at[k] < |s| && out[k] == s[at[k]])
    && (forall k: nat, l: nat :: k < l < |at| ==> at[k] < at[l])
    && forall j: nat :: j < |s| ==> (j in chosen <==> j in at)
  }

  lemma {:induction false} PicksNone<T>(chosen: set<nat>)
    ensures Picks<T>([], chosen, [])
  {
    var at: seq<nat> := [];
    assert PicksAt<T>([], chosen, [], at);
  }

  // One more element, chosen or not.
  lemma {:induction false} PicksNext<T>(s: seq<T>, before: set<nat>, out: seq<T>, x: T, chosen: set<nat>)
    requires Picks(s, before, out) && forall j: nat :: j < |s| ==> (j in before <==> j in chosen)
    ensures Picks(s + [x], chosen, out + if |s| in chosen then [x] else [])
  {
    var at: seq<nat> :| PicksAt(s, before, out, at);
    if |s| in chosen {
      var at' := at + [|s|];
      assert |s| in at' && forall j :: j in at ==> j in at';
      assert PicksAt(s + [x], chosen, out + [x], at');
    } else {
      assert out + [] == out;
      assert PicksAt(s + [x], chosen, out, at);
    }
  }
}
