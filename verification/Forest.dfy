// Forests, and the way a flat list of leveled headings encodes one.
module Forest {
  datatype Tree<T> = Tree(root: T, kids: seq<Tree<T>>)

  /** Items in document order: a node, then its descendants, then its next sibling. */
  function Preorder<T>(f: seq<Tree<T>>): seq<T>
  {
    if f == [] then [] else [f[0].root] + Preorder(f[0].kids) + Preorder(f[1..])
  }

  // ---- Extents of subtrees in a list of levels ------------------------------------------------

  /** The first index in [j, hi) whose level is at most `bound`, or hi. */
  function Scan(levels: seq<nat>, bound: nat, j: nat, hi: nat): (e: nat)
    requires j <= hi <= |levels|
    ensures j <= e <= hi
    ensures forall k | j <= k < e :: levels[k] > bound
    ensures e < hi ==> levels[e] <= bound
    decreases hi - j
  {
    if j == hi || levels[j] <= bound then j else Scan(levels, bound, j + 1, hi)
  }

  /** One past the last descendant of node i among the first hi nodes. */
  function End(levels: seq<nat>, i: nat, hi: nat): (e: nat)
    requires i < hi <= |levels|
    ensures i < e <= hi
    ensures forall k | i < k < e :: levels[k] > levels[i]
    ensures e < hi ==> levels[e] <= levels[i]
  {
    Scan(levels, levels[i], i + 1, hi)
  }

  /** The nodes of [lo, hi) that have no ancestor in [lo, hi). */
  function Tops(levels: seq<nat>, lo: nat, hi: nat): seq<nat>
    requires lo <= hi <= |levels|
    decreases hi - lo
  {
    if lo == hi then [] else [lo] + Tops(levels, End(levels, lo, hi), hi)
  }

  lemma {:induction false} TopsMember(levels: seq<nat>, lo: nat, hi: nat, i: nat)
    requires lo <= hi <= |levels|
    ensures i in Tops(levels, lo, hi) <==> lo <= i < hi && forall q | lo <= q < i :: levels[q] >= levels[i]
    decreases hi - lo
  {
    if lo < hi {
      var e := End(levels, lo, hi);
      TopsMember(levels, e, hi, i);
      if e <= i < hi && forall q | e <= q < i :: levels[q] >= levels[i] {
        assert levels[e] >= levels[i];
        assert forall q | lo < q < e :: levels[q] > levels[lo];
      }
    }
  }

  /** p is the nearest earlier node of strictly smaller level. */
  predicate IsParent(levels: seq<nat>, p: nat, i: nat)
    requires i < |levels|
  {
    p < i && levels[p] < levels[i] && forall q | p < q < i :: levels[q] >= levels[i]
  }

  /** Among the tops below p are exactly the nodes whose parent is p. */
  lemma TopsBelowAreChildren(levels: seq<nat>, p: nat, i: nat)
    requires p < |levels| && i < |levels|
    ensures i in Tops(levels, p + 1, End(levels, p, |levels|)) <==> IsParent(levels, p, i)
  {
    var e := End(levels, p, |levels|);
    TopsMember(levels, p + 1, e, i);
  }

  // ---- The forest a list of levels stands for -------------------------------------------------

  /** One past the subtree of the first node. */
  function Extent(levels: seq<nat>): (e: nat)
    requires levels != []
    ensures 1 <= e <= |levels|
    ensures forall k | 0 < k < e :: levels[k] > levels[0]
    ensures e < |levels| ==> levels[e] <= levels[0]
  {
    End(levels, 0, |levels|)
  }

  /** The forest in which every node hangs below its nearest earlier node of smaller level. */
  function Build<T>(items: seq<T>, levels: seq<nat>): seq<Tree<T>>
    requires |items| == |levels|
    decreases |items|
  {
    if items == [] then []
    else
      var e := Extent(levels);
      [Tree(items[0], Build(items[1..e], levels[1..e]))] + Build(items[e..], levels[e..])
  }

  lemma PreorderCons<T>(x: T, kids: seq<Tree<T>>, rest: seq<Tree<T>>, inner: seq<T>, after: seq<T>)
    requires Preorder(kids) == inner && Preorder(rest) == after
    ensures Preorder([Tree(x, kids)] + rest) == [x] + inner + after
  {
    assert ([Tree(x, kids)] + rest)[1..] == rest;
  }

  lemma Thirds<T>(s: seq<T>, e: nat)
    requires 1 <= e <= |s|
    ensures [s[0]] + s[1..e] + s[e..] == s
  {
  }

  /** Flattening the built forest gives the list back. */
  lemma {:induction false} PreorderOfBuild<T>(items: seq<T>, levels: seq<nat>)
    requires |items| == |levels|
    ensures Preorder(Build(items, levels)) == items
    decreases |items|
  {
    if items != [] {
      var e := Extent(levels);
      var inner, rest := Build(items[1..e], levels[1..e]), Build(items[e..], levels[e..]);
      assert Build(items, levels) == [Tree(items[0], inner)] + rest;
      PreorderOfBuild(items[1..e], levels[1..e]);
      PreorderOfBuild(items[e..], levels[e..]);
      PreorderCons(items[0], inner, rest, items[1..e], items[e..]);
      Thirds(items, e);
    }
  }

  /** A head followed by deeper nodes followed by something not deeper splits there. */
  lemma ExtentOfSplit(head: nat, inner: seq<nat>, rest: seq<nat>)
    requires forall k | 0 <= k < |inner| :: inner[k] > head
    requires rest != [] ==> rest[0] <= head
    ensures Extent([head] + inner + rest) == 1 + |inner|
  {
    var levels := [head] + inner + rest;
    var e := Extent(levels);
    assert forall k | 0 < k < 1 + |inner| :: levels[k] == inner[k - 1];
    assert rest != [] ==> levels[1 + |inner|] == rest[0];
  }

  lemma BuildOfSplit<T>(x: T, head: nat, items: seq<T>, inner: seq<nat>, items': seq<T>, rest: seq<nat>)
    requires |items| == |inner| && |items'| == |rest|
    requires forall k | 0 <= k < |inner| :: inner[k] > head
    requires rest != [] ==> rest[0] <= head
    ensures Build([x] + items + items', [head] + inner + rest) == [Tree(x, Build(items, inner))] + Build(items', rest)
  {
    var all, levels := [x] + items + items', [head] + inner + rest;
    ExtentOfSplit(head, inner, rest);
    assert all[1..1 + |inner|] == items && levels[1..1 + |inner|] == inner;
    assert all[1 + |inner|..] == items' && levels[1 + |inner|..] == rest;
  }

  /** Depth-first levels of a forest whose roots are at `depth`. */
  function Depths<T>(f: seq<Tree<T>>, depth: nat): seq<nat>
  {
    if f == [] then [] else [depth] + Depths(f[0].kids, depth + 1) + Depths(f[1..], depth)
  }

  lemma {:induction false} DepthsBound<T>(f: seq<Tree<T>>, depth: nat)
    ensures |Depths(f, depth)| == |Preorder(f)|
    ensures forall k | 0 <= k < |Depths(f, depth)| :: Depths(f, depth)[k] >= depth
    ensures f != [] ==> Depths(f, depth) != [] && Depths(f, depth)[0] == depth
  {
    if f != [] {
      DepthsBound(f[0].kids, depth + 1);
      DepthsBound(f[1..], depth);
    }
  }

  /** Every forest is rebuilt from its preorder list and depths. */
  lemma {:induction false} BuildOfPreorder<T>(f: seq<Tree<T>>, depth: nat)
    ensures |Depths(f, depth)| == |Preorder(f)|
    ensures Build(Preorder(f), Depths(f, depth)) == f
  {
    DepthsBound(f, depth);
    if f != [] {
      DepthsBound(f[0].kids, depth + 1);
      DepthsBound(f[1..], depth);
      BuildOfPreorder(f[0].kids, depth + 1);
      BuildOfPreorder(f[1..], depth);
      BuildOfSplit(f[0].root, depth, Preorder(f[0].kids), Depths(f[0].kids, depth + 1),
                   Preorder(f[1..]), Depths(f[1..], depth));
      assert f == [f[0]] + f[1..];
    }
  }

  // ---- Lists made of a head, an inner part and a rest -----------------------------------------

  /** `part` stands in `whole` from index off on. */
  ghost predicate Holds<X>(whole: seq<X>, part: seq<X>, off: nat)
  {
    off + |part| <= |whole| && forall k {:trigger part[k]} | 0 <= k < |part| :: whole[k + off] == part[k]
  }

  lemma PartsHeld<X>(first: X, inner: seq<X>, after: seq<X>)
    ensures Holds([first] + inner + after, inner, 1) && Holds([first] + inner + after, after, 1 + |inner|)
  {
  }

  // ---- Forests stored as child lists ----------------------------------------------------------

  /** Child lists of n nodes in which children come after their parent. */
  predicate ForwardLinks(kids: seq<seq<nat>>)
  {
    forall p, k | 0 <= p < |kids| && 0 <= k < |kids[p]| :: p < kids[p][k] < |kids|
  }

  /** The forest below the nodes `ids`, read off the child lists. */
  function Grow<T>(items: seq<T>, kids: seq<seq<nat>>, lo: nat, ids: seq<nat>): seq<Tree<T>>
    requires |items| == |kids| && ForwardLinks(kids) && lo <= |kids|
    requires forall k | 0 <= k < |ids| :: lo <= ids[k] < |kids|
    decreases |kids| - lo, |ids|
  {
    if ids == [] then []
    else [Tree(items[ids[0]], Grow(items, kids, ids[0] + 1, kids[ids[0]]))] + Grow(items, kids, lo, ids[1..])
  }
}
