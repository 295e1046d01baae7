// Filtering a sequence, and what that means: the elements at certain positions, in order.
module Filters {
  function Filter<X>(s: seq<X>, keep: X -> bool): seq<X>
  {
    if s == [] then []
    else
      var init, last := Filter(s[..|s| - 1], keep), s[|s| - 1];
      if keep(last) then init + [last] else init
  }

  /** Rising positions: exactly those of the elements to keep. */
  ghost predicate Positions<X>(s: seq<X>, keep: X -> bool, at: seq<nat>)
  {
    && (forall k | 0 <= k < |at| :: at[k] < |s|)
    && (forall k, l | 0 <= k < l < |at| :: at[k] < at[l])
    && forall i: nat | i < |s| :: keep(s[i]) <==> i in at
  }

  ghost predicate Stands<X>(s: seq<X>, at: seq<nat>, r: seq<X>)
  {
    |r| == |at| && forall k | 0 <= k < |at| :: at[k] < |s| && r[k] == s[at[k]]
  }

  /** r is what stands at those positions of s. */
  ghost predicate Kept<X>(s: seq<X>, keep: X -> bool, r: seq<X>)
  {
    exists at: seq<nat> :: Positions(s, keep, at) && Stands(s, at, r)
  }

  lemma PositionsSkip<X>(s: seq<X>, keep: X -> bool, at: seq<nat>)
    requires s != [] && Positions(s[..|s| - 1], keep, at) && !keep(s[|s| - 1])
    ensures Positions(s, keep, at)
  {
    var n := |s| - 1;
    forall i: nat | i < |s| ensures keep(s[i]) <==> i in at {
      if i < n { assert s[..n][i] == s[i]; }
    }
  }

  lemma PositionsAdd<X>(s: seq<X>, keep: X -> bool, at: seq<nat>)
    requires s != [] && Positions(s[..|s| - 1], keep, at) && keep(s[|s| - 1])
    ensures Positions(s, keep, at + [|s| - 1])
  {
    var n := |s| - 1;
    forall i: nat | i < |s| ensures keep(s[i]) <==> i in at + [n] {
      if i < n { assert s[..n][i] == s[i]; }
    }
  }

  lemma StandsLonger<X>(s: seq<X>, at: seq<nat>, r: seq<X>)
    requires s != [] && Stands(s[..|s| - 1], at, r)
    ensures Stands(s, at, r) && Stands(s, at + [|s| - 1], r + [s[|s| - 1]])
  {
  }

  lemma KeptSnoc<X>(s: seq<X>, keep: X -> bool, r: seq<X>)
    requires s != [] && Kept(s[..|s| - 1], keep, r)
    ensures Kept(s, keep, if keep(s[|s| - 1]) then r + [s[|s| - 1]] else r)
  {
    var at: seq<nat> :| Positions(s[..|s| - 1], keep, at) && Stands(s[..|s| - 1], at, r);
    StandsLonger(s, at, r);
    if keep(s[|s| - 1]) { PositionsAdd(s, keep, at); } else { PositionsSkip(s, keep, at); }
  }

  lemma {:induction false} FilterIs<X>(s: seq<X>, keep: X -> bool)
    ensures Kept(s, keep, Filter(s, keep))
  {
    if s == [] {
      var none: seq<nat> := [];
      assert Positions(s, keep, none) && Stands(s, none, []);
    } else {
      FilterIs(s[..|s| - 1], keep);
      KeptSnoc(s, keep, Filter(s[..|s| - 1], keep));
    }
  }

  /** Only what the predicate says of the elements counts. */
  lemma SameKept<X>(s: seq<X>, keep: X -> bool, keep': X -> bool, r: seq<X>)
    requires Kept(s, keep, r) && forall i | 0 <= i < |s| :: keep(s[i]) <==> keep'(s[i])
    ensures Kept(s, keep', r)
  {
    var at: seq<nat> :| Positions(s, keep, at) && Stands(s, at, r);
    assert Positions(s, keep', at);
  }

  /** The last position is that of the last element, if that is to be kept. */
  lemma LastPosition<X>(s: seq<X>, keep: X -> bool, at: seq<nat>)
    requires s != [] && Positions(s, keep, at) && keep(s[|s| - 1])
    ensures at != [] && at[|at| - 1] == |s| - 1
  {
    assert |s| - 1 in at;
    var last := at[|at| - 1];
    assert last < |s| && forall k | 0 <= k < |at| :: at[k] <= last;
  }

  lemma FrontPositions<X>(s: seq<X>, keep: X -> bool, at: seq<nat>, front: seq<nat>)
    requires s != [] && Positions(s, keep, at) && front <= at
    requires if keep(s[|s| - 1]) then |front| == |at| - 1 && at[|front|] == |s| - 1 else front == at
    ensures Positions(s[..|s| - 1], keep, front)
  {
    var n := |s| - 1;
    assert !keep(s[n]) ==> n !in at;
    forall k | 0 <= k < |front| ensures front[k] < n {
      assert front[k] == at[k] && (keep(s[n]) ==> at[k] < at[|front|]);
      assert at[k] in at;
    }
    forall i: nat | i < n ensures keep(s[..n][i]) <==> i in front {
      assert s[..n][i] == s[i];
      assert i in at <==> i in front by { InFront(at, front, i); }
    }
  }

  lemma InFront(at: seq<nat>, front: seq<nat>, i: nat)
    requires front <= at && (front == at || (|front| == |at| - 1 && at[|front|] != i))
    ensures i in at <==> i in front
  {
    if i in at {
      var k :| 0 <= k < |at| && at[k] == i;
      assert front[k] == i;
    }
  }

  lemma FrontStands<X>(s: seq<X>, at: seq<nat>, r: seq<X>, n: nat)
    requires s != [] && Stands(s, at, r) && n <= |at| && forall k | 0 <= k < n :: at[k] < |s| - 1
    ensures Stands(s[..|s| - 1], at[..n], r[..n])
  {
  }

  lemma {:induction false} OnlyAt<X>(s: seq<X>, keep: X -> bool, at: seq<nat>, r: seq<X>)
    requires Positions(s, keep, at) && Stands(s, at, r)
    ensures r == Filter(s, keep)
  {
    if s != [] {
      var n := |s| - 1;
      if keep(s[n]) { LastPosition(s, keep, at); }
      var m := if keep(s[n]) then |at| - 1 else |at|;
      FrontPositions(s, keep, at, at[..m]);
      assert forall k | 0 <= k < m :: at[k] == at[..m][k];
      FrontStands(s, at, r, m);
      OnlyAt(s[..n], keep, at[..m], r[..m]);
      assert r == if keep(s[n]) then r[..m] + [s[n]] else r[..m];
    }
  }

  /** Nothing else consists of the elements to keep. */
  lemma OnlyFilter<X>(s: seq<X>, keep: X -> bool, r: seq<X>)
    requires Kept(s, keep, r)
    ensures r == Filter(s, keep)
  {
    var at: seq<nat> :| Positions(s, keep, at) && Stands(s, at, r);
    OnlyAt(s, keep, at, r);
  }
}
