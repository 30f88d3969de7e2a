/** What it means for one list to be another, filtered: the same elements in the same order, without the others. */
module Filters {

  ghost predicate Ascending(at: seq<int>) {
    forall j, k :: 0 <= j < k < |at| ==> at[j] < at[k]
  }

  /** `at` are the places where `xs` satisfies `p`. */
  ghost predicate Places<T(!new)>(xs: seq<T>, p: T -> bool, at: seq<int>) {
    forall i {:trigger i in at} :: i in at <==> 0 <= i < |xs| && p(xs[i])
  }

  /** `out` holds what stands at these places. */
  ghost predicate Reads<T(!new)>(out: seq<T>, xs: seq<T>, at: seq<int>) {
    |at| == |out| && forall k :: 0 <= k < |at| ==> 0 <= at[k] < |xs| && out[k] == xs[at[k]]
  }

  ghost predicate Picks<T(!new)>(out: seq<T>, xs: seq<T>, p: T -> bool, at: seq<int>) {
    Ascending(at) && Places(xs, p, at) && Reads(out, xs, at)
  }

  ghost predicate Filtered<T(!new)>(out: seq<T>, xs: seq<T>, p: T -> bool) {
    exists at :: Picks(out, xs, p, at)
  }

  lemma NothingFiltered<T(!new)>(p: T -> bool)
    ensures Filtered([], [], p)
  {
    assert Picks([], [], p, []);
  }

  lemma PlacesAppend<T(!new)>(xs: seq<T>, p: T -> bool, at: seq<int>, x: T)
    requires Ascending(at) && Places(xs, p, at)
    ensures p(x) ==> Ascending(at + [|xs|]) && Places(xs + [x], p, at + [|xs|])
    ensures !p(x) ==> Places(xs + [x], p, at)
  {
    forall k | 0 <= k < |at| ensures at[k] < |xs| {
      assert at[k] in at;
    }
    forall i ensures i in at + [|xs|] <==> i in at || i == |xs| {}
  }

  lemma ReadsAppends<T(!new)>(out: seq<T>, xs: seq<T>, at: seq<int>, x: T)
    requires Reads(out, xs, at)
    ensures Reads(out, xs + [x], at) && Reads(out + [x], xs + [x], at + [|xs|])
  {
  }

  lemma FilteredAppends<T(!new)>(out: seq<T>, xs: seq<T>, p: T -> bool, x: T)
    requires Filtered(out, xs, p)
    ensures Filtered(out + if p(x) then [x] else [], xs + [x], p)
  {
    var at :| Picks(out, xs, p, at);
    PlacesAppend(xs, p, at, x);
    ReadsAppends(out, xs, at, x);
    if p(x) {
      assert Picks(out + [x], xs + [x], p, at + [|xs|]);
    } else {
      assert out + [] == out;
      assert Picks(out, xs + [x], p, at);
    }
  }

  function Shifted(at: seq<int>, d: int): (r: seq<int>)
    ensures |r| == |at| && forall k :: 0 <= k < |at| ==> r[k] == at[k] + d
  {
    seq(|at|, k requires 0 <= k < |at| => at[k] + d)
  }

  lemma ShiftedHolds(at: seq<int>, d: int, i: int)
    ensures i in Shifted(at, d) <==> i - d in at
  {
    if i - d in at {
      var k :| 0 <= k < |at| && at[k] == i - d;
      assert Shifted(at, d)[k] == i;
    }
  }

  lemma PlacesPrepend<T(!new)>(x: T, xs: seq<T>, p: T -> bool, at: seq<int>)
    requires Ascending(at) && Places(xs, p, at)
    ensures var next := Shifted(at, 1);
      if p(x) then Ascending([0] + next) && Places([x] + xs, p, [0] + next)
      else Ascending(next) && Places([x] + xs, p, next)
  {
    var next := Shifted(at, 1);
    forall k | 0 <= k < |at| ensures 0 <= at[k] {
      assert at[k] in at;
    }
    forall i ensures i in next <==> 1 <= i < |[x] + xs| && p(([x] + xs)[i]) {
      ShiftedHolds(at, 1, i);
    }
    forall i ensures i in [0] + next <==> i == 0 || i in next {}
  }

  lemma ReadsPrepends<T(!new)>(x: T, out: seq<T>, xs: seq<T>, at: seq<int>)
    requires Reads(out, xs, at)
    ensures var next := Shifted(at, 1);
      Reads(out, [x] + xs, next) && Reads([x] + out, [x] + xs, [0] + next)
  {
    var next := Shifted(at, 1);
    forall k | 0 <= k < |next| ensures 0 <= next[k] < |[x] + xs| && out[k] == ([x] + xs)[next[k]] {
      assert next[k] == at[k] + 1;
    }
  }

  lemma FilteredPrepends<T(!new)>(x: T, out: seq<T>, xs: seq<T>, p: T -> bool)
    requires Filtered(out, xs, p)
    ensures Filtered((if p(x) then [x] else []) + out, [x] + xs, p)
  {
    var at :| Picks(out, xs, p, at);
    PlacesPrepend(x, xs, p, at);
    var next := Shifted(at, 1);
    ReadsPrepends(x, out, xs, at);
    if p(x) {
      assert Picks([x] + out, [x] + xs, p, [0] + next);
    } else {
      assert [] + out == out;
      assert Picks(out, [x] + xs, p, next);
    }
  }

  lemma FirstIsIn(at: seq<int>)
    ensures at != [] ==> at[0] in at
  {
  }

  lemma {:induction false} SamePlaces(at: seq<int>, bt: seq<int>)
    requires Ascending(at) && Ascending(bt) && forall i :: i in at <==> i in bt
    ensures at == bt
    decreases |at|
  {
    if at == [] {
      FirstIsIn(bt);
    } else {
      var m := |at| - 1;
      assert at[m] in at;
      var k :| 0 <= k < |bt| && bt[k] == at[m];
      var n := |bt| - 1;
      assert bt[n] in at;
      assert bt[n] <= at[m];
      assert k == n;
      forall i ensures i in at[..m] <==> i in bt[..n] {
        assert i in at[..m] <==> i in at && i != at[m];
        assert i in bt[..n] <==> i in bt && i != bt[n];
      }
      SamePlaces(at[..m], bt[..n]);
      assert at == at[..m] + [at[m]] && bt == bt[..n] + [bt[n]];
    }
  }

  /** There is only one way to filter a list. */
  lemma FilteredIsUnique<T(!new)>(out: seq<T>, other: seq<T>, xs: seq<T>, p: T -> bool)
    requires Filtered(out, xs, p) && Filtered(other, xs, p)
    ensures out == other
  {
    var at :| Picks(out, xs, p, at);
    var bt :| Picks(other, xs, p, bt);
    SamePlaces(at, bt);
  }

  /** A stretch of the list outside of which nothing satisfies `p`, and inside of which all does. */
  lemma StretchIsFiltered<T(!new)>(pre: seq<T>, w: seq<T>, post: seq<T>, p: T -> bool)
    requires forall x :: x in pre || x in post ==> !p(x)
    requires forall x :: x in w ==> p(x)
    ensures Filtered(w, pre + w + post, p)
  {
    var xs := pre + w + post;
    var at := seq(|w|, k => |pre| + k);
    forall i ensures i in at <==> 0 <= i < |xs| && p(xs[i]) {
      if |pre| <= i < |pre| + |w| {
        assert xs[i] == w[i - |pre|] && at[i - |pre|] == i;
      } else if 0 <= i < |xs| {
        assert xs[i] in pre || xs[i] in post;
      }
    }
    assert Picks(w, xs, p, at);
  }

  /** Where an element of the filtered list stands in the list, and that it is there at all. */
  lemma FilteredHolds<T(!new)>(out: seq<T>, xs: seq<T>, p: T -> bool, x: T)
    requires Filtered(out, xs, p)
    ensures x in out <==> x in xs && p(x)
  {
    var at :| Picks(out, xs, p, at);
    if x in out {
      var k :| 0 <= k < |out| && out[k] == x;
      assert at[k] in at;
    }
    if x in xs && p(x) {
      var i :| 0 <= i < |xs| && xs[i] == x;
      assert i in at;
      var k :| 0 <= k < |at| && at[k] == i;
    }
  }
}
