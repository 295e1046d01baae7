// `build_tree_from_nodes` and `find_all_children`: the stack and scan algorithms over a flat
// list of leveled nodes.  A tree node is the index of its list entry and its mutable child list
// is `kids[index]`, so appending to a parent found on the stack is an update in place.
module TreeBuilder {
  import opened Forest

  lemma EndIs(levels: seq<nat>, i: nat, hi: nat, e: nat)
    requires i < e <= hi <= |levels|
    requires forall k | i < k < e :: levels[k] > levels[i]
    requires e < hi ==> levels[e] <= levels[i]
    ensures End(levels, i, hi) == e
  {
  }

  /** Node q is an ancestor of node m: everything after q up to m is deeper than q. */
  predicate Ancestor(levels: seq<nat>, q: nat, m: nat)
    requires m < |levels|
  {
    q < m && forall k | q < k <= m :: levels[k] > levels[q]
  }

  /** How far a subtree reaches after one more node has been read. */
  lemma EndExtends(levels: seq<nat>, p: nat, m: nat)
    requires p < m < |levels|
    ensures End(levels, p, m + 1) == if Ancestor(levels, p, m) then m + 1 else End(levels, p, m)
    ensures Ancestor(levels, p, m) ==> End(levels, p, m) == m
  {
    if Ancestor(levels, p, m) {
      EndIs(levels, p, m + 1, m + 1);
      EndIs(levels, p, m, m);
    } else {
      EndIs(levels, p, m + 1, End(levels, p, m));
    }
  }

  ghost predicate Adopted(levels: seq<nat>, lo: nat, m: nat)
    requires m < |levels|
  {
    exists q | lo <= q < m :: Ancestor(levels, q, m)
  }

  function Grown(list: seq<nat>, m: nat, joins: bool): seq<nat> { if joins then list + [m] else list }

  /** A new node joins the tops of [lo, m) unless some node in there adopts it. */
  lemma {:induction false} TopsExtend(levels: seq<nat>, lo: nat, m: nat)
    requires lo <= m < |levels|
    ensures Tops(levels, lo, m + 1) == Grown(Tops(levels, lo, m), m, !Adopted(levels, lo, m))
    decreases m - lo
  {
    if lo < m {
      EndExtends(levels, lo, m);
      if !Ancestor(levels, lo, m) {
        var e := End(levels, lo, m);
        TopsExtend(levels, e, m);
        NoneInside(levels, lo, e, m);
        assert Adopted(levels, lo, m) <==> Adopted(levels, e, m);
      }
    } else {
      EndIs(levels, m, m + 1, m + 1);
    }
  }

  lemma NoneInside(levels: seq<nat>, lo: nat, e: nat, m: nat)
    requires lo < e <= m < |levels| && levels[e] <= levels[lo]
    requires forall k | lo < k < e :: levels[k] > levels[lo]
    ensures forall q | lo < q < e :: !Ancestor(levels, q, m)
  {
  }

  /** The children of p among the first m nodes. */
  function Kids(levels: seq<nat>, p: nat, m: nat): seq<nat>
    requires p < m <= |levels|
  {
    Tops(levels, p + 1, End(levels, p, m))
  }

  /** The child lists and roots after m nodes. */
  ghost predicate BuiltTo(levels: seq<nat>, m: nat, roots: seq<nat>, kids: seq<seq<nat>>)
    requires m <= |levels|
  {
    && |kids| == m
    && roots == Tops(levels, 0, m)
    && forall p | 0 <= p < m :: kids[p] == Kids(levels, p, m)
  }

  /** Everything after p among the first m nodes is deeper than p: p may still get children. */
  predicate Open(levels: seq<nat>, p: nat, m: nat)
    requires m <= |levels|
  {
    p < m && forall k | p < k < m :: levels[k] > levels[p]
  }

  /** The stack holds exactly the open nodes, outermost first, and so with rising levels. */
  ghost predicate StackOf(levels: seq<nat>, m: nat, stack: seq<nat>)
    requires m <= |levels|
  {
    && (forall a | 0 <= a < |stack| :: Open(levels, stack[a], m))
    && (forall a, b | 0 <= a < b < |stack| :: stack[a] < stack[b])
    && (forall p: nat | Open(levels, p, m) :: p in stack)
  }

  lemma AdoptedBelow(levels: seq<nat>, m: nat, p: nat, top: int)
    requires p <= top < m < |levels| && Ancestor(levels, top, m)
    requires forall q | top < q < m :: !Ancestor(levels, q, m)
    ensures Adopted(levels, p + 1, m) <==> p < top
  {
  }

  lemma KidsKept(levels: seq<nat>, m: nat, p: nat)
    requires p < m < |levels| && !Ancestor(levels, p, m)
    ensures Kids(levels, p, m + 1) == Kids(levels, p, m)
  {
    EndExtends(levels, p, m);
  }

  lemma KidsGrow(levels: seq<nat>, m: nat, lo: nat, e: nat, e': nat)
    requires lo <= m < |levels| && e == m && e' == m + 1
    ensures Tops(levels, lo, e') == Grown(Tops(levels, lo, e), m, !Adopted(levels, lo, m))
  {
    TopsExtend(levels, lo, m);
  }

  lemma ChildrenStep(levels: seq<nat>, m: nat, p: nat, top: int)
    requires p < m < |levels|
    requires -1 <= top < m && (top >= 0 ==> Ancestor(levels, top, m))
    requires forall q | top < q < m :: !Ancestor(levels, q, m)
    ensures Kids(levels, p, m + 1) == Grown(Kids(levels, p, m), m, p == top)
  {
    if Ancestor(levels, p, m) {
      EndExtends(levels, p, m);
      AdoptedBelow(levels, m, p, top);
      KidsGrow(levels, m, p + 1, End(levels, p, m), End(levels, p, m + 1));
    } else {
      KidsKept(levels, m, p);
    }
  }

  lemma RootsStep(levels: seq<nat>, m: nat, top: int)
    requires m < |levels|
    requires -1 <= top < m && (top >= 0 ==> Ancestor(levels, top, m))
    requires forall q | top < q < m :: !Ancestor(levels, q, m)
    ensures Tops(levels, 0, m + 1) == Grown(Tops(levels, 0, m), m, top < 0)
  {
    TopsExtend(levels, 0, m);
    assert Adopted(levels, 0, m) <==> top >= 0;
  }

  lemma NoKidsYet(levels: seq<nat>, m: nat)
    requires m < |levels|
    ensures Kids(levels, m, m + 1) == []
  {
    EndIs(levels, m, m + 1, m + 1);
  }

  /** The new node hangs below its innermost ancestor, or is a root. */
  lemma BuiltStep(levels: seq<nat>, m: nat, roots: seq<nat>, kids: seq<seq<nat>>, top: int,
                  roots': seq<nat>, kids': seq<seq<nat>>)
    requires m < |levels| && BuiltTo(levels, m, roots, kids)
    requires -1 <= top < m && (top >= 0 ==> Ancestor(levels, top, m))
    requires forall q | top < q < m :: !Ancestor(levels, q, m)
    requires roots' == if top < 0 then roots + [m] else roots
    requires |kids'| == m + 1 && kids'[m] == []
    requires forall p | 0 <= p < m :: kids'[p] == if p == top then kids[p] + [m] else kids[p]
    ensures BuiltTo(levels, m + 1, roots', kids')
  {
    RootsStep(levels, m, top);
    NoKidsYet(levels, m);
    forall p | 0 <= p < m ensures kids'[p] == Kids(levels, p, m + 1) {
      ChildrenStep(levels, m, p, top);
    }
  }

  ghost predicate Rising(stack: seq<nat>) { forall a, b | 0 <= a < b < |stack| :: stack[a] < stack[b] }

  lemma LeftAreAncestors(levels: seq<nat>, m: nat, stack: seq<nat>, n: nat, q: nat)
    requires m < |levels| && StackOf(levels, m, stack) && n <= |stack| && q < m
    requires forall a | n <= a < |stack| :: levels[stack[a]] >= levels[m]
    requires n > 0 ==> levels[stack[n - 1]] < levels[m]
    ensures q in stack[..n] <==> Ancestor(levels, q, m)
  {
    if q in stack[..n] {
      var a :| 0 <= a < n && stack[a] == q;
      assert Open(levels, q, m) && Open(levels, stack[n - 1], m) && (a < n - 1 ==> stack[a] < stack[n - 1]);
    }
    if Ancestor(levels, q, m) {
      assert Open(levels, q, m);
      var a :| 0 <= a < |stack| && stack[a] == q;
      assert a < n;
    }
  }

  /** The inner loop: what is left on the stack are exactly the ancestors of node m. */
  method PopClosed(levels: seq<nat>, m: nat, stack: seq<nat>) returns (rest: seq<nat>)
    requires m < |levels| && StackOf(levels, m, stack)
    ensures Rising(rest) && forall q | 0 <= q < m :: q in rest <==> Ancestor(levels, q, m)
    ensures forall a | 0 <= a < |rest| :: rest[a] < m
  {
    rest := stack;
    while rest != [] && levels[rest[|rest| - 1]] >= levels[m]
      invariant |rest| <= |stack| && rest == stack[..|rest|]
      invariant forall a | |rest| <= a < |stack| :: levels[stack[a]] >= levels[m]
    {
      rest := rest[..|rest| - 1];
    }
    forall q | 0 <= q < m ensures q in rest <==> Ancestor(levels, q, m) {
      LeftAreAncestors(levels, m, stack, |rest|, q);
    }
  }

  lemma PushOpen(levels: seq<nat>, m: nat, rest: seq<nat>)
    requires m < |levels| && Rising(rest) && forall q | 0 <= q < m :: q in rest <==> Ancestor(levels, q, m)
    requires forall a | 0 <= a < |rest| :: rest[a] < m
    ensures StackOf(levels, m + 1, rest + [m])
  {
    var stack := rest + [m];
    forall a | 0 <= a < |stack| ensures Open(levels, stack[a], m + 1) {
      if a < |rest| { assert rest[a] in rest && Ancestor(levels, rest[a], m); }
    }
    forall p: nat | Open(levels, p, m + 1) ensures p in stack {
      if p < m { assert Ancestor(levels, p, m); }
    }
  }

  lemma InnermostAncestor(levels: seq<nat>, m: nat, rest: seq<nat>, top: int)
    requires m < |levels| && top == if rest == [] then -1 else rest[|rest| - 1]
    requires Rising(rest) && forall q | 0 <= q < m :: q in rest <==> Ancestor(levels, q, m)
    requires forall a | 0 <= a < |rest| :: rest[a] < m
    ensures top < m && (top >= 0 ==> Ancestor(levels, top, m))
    ensures forall q | top < q < m :: !Ancestor(levels, q, m)
  {
    assert top >= 0 ==> top in rest;
    forall q: nat | top < q < m ensures !Ancestor(levels, q, m) {
      assert q !in rest;
    }
  }

  /** The rest of one iteration: attach node m to the innermost node left on the stack. */
  method Attach(levels: seq<nat>, m: nat, rest: seq<nat>, roots: seq<nat>, kids: seq<seq<nat>>)
      returns (roots': seq<nat>, kids': seq<seq<nat>>)
    requires m < |levels| && BuiltTo(levels, m, roots, kids)
    requires Rising(rest) && forall q | 0 <= q < m :: q in rest <==> Ancestor(levels, q, m)
    requires forall a | 0 <= a < |rest| :: rest[a] < m
    ensures BuiltTo(levels, m + 1, roots', kids')
  {
    ghost var top: int := if rest == [] then -1 else rest[|rest| - 1];
    InnermostAncestor(levels, m, rest, top);
    roots', kids' := roots, kids;
    if rest == [] {
      roots' := roots' + [m];
    } else {
      var parent := rest[|rest| - 1];
      kids' := kids'[parent := kids'[parent] + [m]];
    }
    kids' := kids' + [[]];
    BuiltStep(levels, m, roots, kids, top, roots', kids');
  }

  /** `build_tree_from_nodes`: the stack algorithm yields exactly the child lists in which every
      node hangs below its nearest earlier node of smaller level. */
  method BuildTreeFromNodes(levels: seq<nat>) returns (roots: seq<nat>, kids: seq<seq<nat>>)
    ensures BuiltTo(levels, |levels|, roots, kids)
  {
    var stack: seq<nat> := [];
    roots, kids := [], [];
    for m := 0 to |levels|
      invariant BuiltTo(levels, m, roots, kids) && StackOf(levels, m, stack)
    {
      var rest := PopClosed(levels, m, stack);
      roots, kids := Attach(levels, m, rest, roots, kids);
      PushOpen(levels, m, rest);
      stack := rest + [m];
    }
  }

  /** `find_all_children`: the scan that stops at the first node not deeper than the parent. */
  method FindAllChildren(levels: seq<nat>, parent: nat) returns (children: seq<nat>)
    requires parent < |levels|
    ensures |children| == End(levels, parent, |levels|) - parent - 1
    ensures forall k | 0 <= k < |children| :: children[k] == parent + 1 + k
    ensures forall c | 0 <= c < |levels| :: c in children <==> Ancestor(levels, parent, c)
  {
    children := [];
    var i := parent + 1;
    while i < |levels| && levels[i] > levels[parent]
      invariant parent < i <= |levels|
      invariant |children| == i - parent - 1 && forall k | 0 <= k < |children| :: children[k] == parent + 1 + k
      invariant forall k | parent < k < i :: levels[k] > levels[parent]
    {
      children := children + [i];
      i := i + 1;
    }
    EndIs(levels, parent, |levels|, i);
    forall c | 0 <= c < |levels| ensures c in children <==> Ancestor(levels, parent, c) {
      if parent < c < i { assert children[c - parent - 1] == c; }
    }
  }

  // ---- The child lists as a forest --------------------------------------------------------------

  lemma {:induction false} TopsBounds(levels: seq<nat>, lo: nat, hi: nat)
    requires lo <= hi <= |levels|
    ensures forall k | 0 <= k < |Tops(levels, lo, hi)| :: lo <= Tops(levels, lo, hi)[k] < hi
    decreases hi - lo
  {
    if lo < hi { TopsBounds(levels, End(levels, lo, hi), hi); }
  }

  lemma BuiltLinks(levels: seq<nat>, roots: seq<nat>, kids: seq<seq<nat>>)
    requires BuiltTo(levels, |levels|, roots, kids)
    ensures ForwardLinks(kids) && forall k | 0 <= k < |roots| :: 0 <= roots[k] < |kids|
  {
    TopsBounds(levels, 0, |levels|);
    forall p, k | 0 <= p < |kids| && 0 <= k < |kids[p]| ensures p < kids[p][k] < |kids| {
      TopsBounds(levels, p + 1, End(levels, p, |levels|));
    }
  }

  /** No subtree that starts in [lo, hi) reaches beyond hi. */
  ghost predicate Closed(levels: seq<nat>, lo: nat, hi: nat)
    requires lo <= hi <= |levels|
  {
    forall p | lo <= p < hi :: End(levels, p, |levels|) <= hi
  }

  lemma ClosedParts(levels: seq<nat>, lo: nat, hi: nat)
    requires lo < hi <= |levels| && Closed(levels, lo, hi)
    ensures var e := End(levels, lo, |levels|);
            End(levels, lo, hi) == e && Closed(levels, lo + 1, e) && Closed(levels, e, hi)
  {
    var e := End(levels, lo, |levels|);
    EndIs(levels, lo, hi, e);
    forall p | lo < p < e ensures End(levels, p, |levels|) <= e {
      assert e < |levels| ==> levels[e] <= levels[lo] < levels[p];
    }
  }

  lemma ExtentOfSlice(levels: seq<nat>, lo: nat, hi: nat)
    requires lo < hi <= |levels|
    ensures Extent(levels[lo..hi]) == End(levels, lo, hi) - lo
  {
    var e := End(levels, lo, hi);
    EndIs(levels[lo..hi], 0, hi - lo, e - lo);
  }

  lemma SliceOfSlice<T>(s: seq<T>, lo: nat, hi: nat, e: nat)
    requires lo < e <= hi <= |s|
    ensures s[lo..hi][1..e - lo] == s[lo + 1..e]
    ensures s[lo..hi][e - lo..] == s[e..hi]
  {
    var a, b := s[lo..hi][1..e - lo], s[lo + 1..e];
    assert forall k | 0 <= k < |b| :: a[k] == b[k];
  }

  lemma BuildUnfold<T>(s: seq<T>, ls: seq<nat>, e: nat, x: T, sub: seq<T>, subs: seq<nat>, after: seq<T>,
                       afters: seq<nat>)
    requires |s| == |ls| && s != [] && e == Extent(ls) && |sub| == |subs| && |after| == |afters|
    requires s[0] == x && s[1..e] == sub && s[e..] == after && ls[1..e] == subs && ls[e..] == afters
    ensures Build(s, ls) == [Tree(x, Build(sub, subs))] + Build(after, afters)
  {
  }

  lemma BuildOfSlice<T>(items: seq<T>, levels: seq<nat>, lo: nat, hi: nat)
    requires |items| == |levels| && lo < hi <= |levels|
    ensures var e := End(levels, lo, hi);
            Build(items[lo..hi], levels[lo..hi]) ==
              [Tree(items[lo], Build(items[lo + 1..e], levels[lo + 1..e]))] + Build(items[e..hi], levels[e..hi])
  {
    var e := End(levels, lo, hi);
    ExtentOfSlice(levels, lo, hi);
    SliceOfSlice(items, lo, hi, e);
    SliceOfSlice(levels, lo, hi, e);
    BuildUnfold(items[lo..hi], levels[lo..hi], e - lo, items[lo], items[lo + 1..e], levels[lo + 1..e],
                items[e..hi], levels[e..hi]);
  }

  lemma {:induction false} GrowIsBuild<T>(items: seq<T>, levels: seq<nat>, roots: seq<nat>, kids: seq<seq<nat>>,
                                          bound: nat, lo: nat, hi: nat)
    requires |items| == |levels| && BuiltTo(levels, |levels|, roots, kids) && ForwardLinks(kids)
    requires bound <= lo <= hi <= |levels| && Closed(levels, lo, hi)
    requires forall k | 0 <= k < |Tops(levels, lo, hi)| :: bound <= Tops(levels, lo, hi)[k] < |kids|
    ensures Grow(items, kids, bound, Tops(levels, lo, hi)) == Build(items[lo..hi], levels[lo..hi])
    decreases hi - lo
  {
    if lo < hi {
      var e := End(levels, lo, |levels|);
      ClosedParts(levels, lo, hi);
      BuildOfSlice(items, levels, lo, hi);
      TopsBounds(levels, lo + 1, e);
      TopsBounds(levels, e, hi);
      GrowIsBuild(items, levels, roots, kids, lo + 1, lo + 1, e);
      GrowIsBuild(items, levels, roots, kids, bound, e, hi);
      assert Tops(levels, lo, hi)[1..] == Tops(levels, e, hi);
    }
  }

  /** What the stack algorithm leaves in memory is the forest `Build` describes, and reading it in
      document order gives the input list back. */
  lemma BuiltForest<T>(items: seq<T>, levels: seq<nat>, roots: seq<nat>, kids: seq<seq<nat>>)
    requires |items| == |levels| && BuiltTo(levels, |levels|, roots, kids)
    ensures ForwardLinks(kids) && (forall k | 0 <= k < |roots| :: 0 <= roots[k] < |kids|)
    ensures Grow(items, kids, 0, roots) == Build(items, levels)
    ensures Preorder(Grow(items, kids, 0, roots)) == items
    ensures forall p, i | 0 <= p < |levels| && 0 <= i < |levels| :: i in kids[p] <==> IsParent(levels, p, i)
  {
    BuiltLinks(levels, roots, kids);
    GrowIsBuild(items, levels, roots, kids, 0, 0, |levels|);
    assert items[0..|levels|] == items && levels[0..|levels|] == levels;
    PreorderOfBuild(items, levels);
    forall p, i | 0 <= p < |levels| && 0 <= i < |levels| ensures i in kids[p] <==> IsParent(levels, p, i) {
      TopsBelowAreChildren(levels, p, i);
    }
  }

  /** The nodes `FindAllChildren` returns are the subtree of the parent, in document order. */
  lemma ScanIsSubtree<T>(items: seq<T>, levels: seq<nat>, roots: seq<nat>, kids: seq<seq<nat>>, p: nat)
    requires |items| == |levels| && BuiltTo(levels, |levels|, roots, kids) && ForwardLinks(kids) && p < |levels|
    ensures Preorder(Grow(items, kids, p + 1, kids[p])) == items[p + 1..End(levels, p, |levels|)]
  {
    var e := End(levels, p, |levels|);
    ClosedParts(levels, p, |levels|);
    TopsBounds(levels, p + 1, e);
    GrowIsBuild(items, levels, roots, kids, p + 1, p + 1, e);
    PreorderOfBuild(items[p + 1..e], levels[p + 1..e]);
  }
}
