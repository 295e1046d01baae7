// Numbering a forest with dotted codes and handing the flat list to `list_to_tree` rebuilds it.
module TocRoundTrip {
  import opened Common
  import opened Forest
  import D = Decimal
  import T = TocTree
  import B = TreeBuilder

  type Path = seq<nat>

  /** The numbers from the root down to each node, in document order; siblings count from j. */
  function Paths<X>(f: seq<Tree<X>>, prefix: Path, j: nat): seq<Path>
  {
    if f == [] then []
    else [prefix + [j]] + Paths(f[0].kids, prefix + [j], 1) + Paths(f[1..], prefix, j + 1)
  }

  /** "2.10.1" for [2, 10, 1]. */
  function Dotted(path: Path): string
    requires path != []
  {
    if |path| == 1 then D.Render(path[0])
    else Dotted(path[..|path| - 1]) + "." + D.Render(path[|path| - 1])
  }

  function Codes(paths: seq<Path>): seq<T.Code>
    requires forall k | 0 <= k < |paths| :: paths[k] != []
  {
    seq(|paths|, k requires 0 <= k < |paths| => T.Text(Dotted(paths[k])))
  }

  // ---- Codes determine paths ---------------------------------------------------------------------

  lemma {:induction false} NoDot(s: string)
    requires D.AllDigits(s)
    ensures T.LastDot(s) == -1
  {
    if s != [] { NoDot(s[..|s| - 1]); }
  }

  lemma {:induction false} LastDotOf(a: string, b: string)
    requires D.AllDigits(b)
    ensures T.LastDot(a + "." + b) == |a|
  {
    var s := a + "." + b;
    if b != [] {
      LastDotOf(a, b[..|b| - 1]);
      assert s[..|s| - 1] == a + "." + b[..|b| - 1];
      assert s[|s| - 1] == b[|b| - 1];
    } else {
      assert s[|s| - 1] == '.';
    }
  }

  lemma {:induction false} DottedNonEmpty(path: Path)
    requires path != []
    ensures Dotted(path) != []
  {
    D.ParseOfRender(path[|path| - 1]);
  }

  lemma ParentOfDot(front: string, last: string)
    requires front != [] && D.AllDigits(last)
    ensures T.ParentCode(T.Text(front + "." + last)) == Some(front)
  {
    LastDotOf(front, last);
    assert (front + "." + last)[..|front|] == front;
  }

  lemma NoParentOfNumber(n: nat)
    ensures T.ParentCode(T.Text(D.Render(n))) == None
  {
    D.ParseOfRender(n);
    NoDot(D.Render(n));
  }

  /** Dropping the last part of the code is dropping the last number of the path. */
  lemma ParentOfDotted(path: Path)
    requires path != []
    ensures T.ParentCode(T.Text(Dotted(path))) == if |path| == 1 then None else Some(Dotted(path[..|path| - 1]))
  {
    if |path| == 1 {
      NoParentOfNumber(path[0]);
    } else {
      var front, last := path[..|path| - 1], path[|path| - 1];
      D.ParseOfRender(last);
      DottedNonEmpty(front);
      ParentOfDot(Dotted(front), D.Render(last));
    }
  }

  lemma SameTail(front: string, a: string, b: string)
    requires front + "." + a == front + "." + b
    ensures a == b
  {
    assert (front + "." + a)[|front| + 1..] == a;
    assert (front + "." + b)[|front| + 1..] == b;
  }

  lemma RenderInjective(a: nat, b: nat)
    requires D.Render(a) == D.Render(b)
    ensures a == b
  {
    D.ParseOfRender(a);
    D.ParseOfRender(b);
  }

  lemma SameParts(p: Path, q: Path)
    requires |p| > 1 && |q| > 1 && p[..|p| - 1] == q[..|q| - 1] && Dotted(p) == Dotted(q)
    ensures p == q
  {
    var a, b := p[|p| - 1], q[|q| - 1];
    SameTail(Dotted(p[..|p| - 1]), D.Render(a), D.Render(b));
    RenderInjective(a, b);
    assert p == p[..|p| - 1] + [a] && q == q[..|q| - 1] + [b];
  }

  lemma {:induction false} DottedInjective(p: Path, q: Path)
    requires p != [] && q != [] && Dotted(p) == Dotted(q)
    ensures p == q
  {
    ParentOfDotted(p);
    ParentOfDotted(q);
    if |p| > 1 {
      assert |q| > 1;
      DottedInjective(p[..|p| - 1], q[..|q| - 1]);
      SameParts(p, q);
    } else {
      RenderInjective(p[0], q[0]);
    }
  }

  // ---- The shape of the numbering ------------------------------------------------------------------

  lemma {:induction false} PathShape<X>(f: seq<Tree<X>>, prefix: Path, j: nat)
    ensures |Paths(f, prefix, j)| == |Depths(f, |prefix|)| == |Preorder(f)|
    ensures forall k | 0 <= k < |Paths(f, prefix, j)| ::
              && |Paths(f, prefix, j)[k]| == Depths(f, |prefix|)[k] + 1 > |prefix|
              && prefix <= Paths(f, prefix, j)[k] && Paths(f, prefix, j)[k][|prefix|] >= j
  {
    if f != [] {
      PathShape(f[0].kids, prefix + [j], 1);
      PathShape(f[1..], prefix, j + 1);
      var inner := Paths(f[0].kids, prefix + [j], 1);
      forall k | 0 <= k < |inner| ensures prefix <= inner[k] && inner[k][|prefix|] == j {
        assert (prefix + [j])[|prefix|] == j;
      }
    }
  }

  lemma {:induction false} PathsDistinct<X>(f: seq<Tree<X>>, prefix: Path, j: nat)
    ensures forall k, l | 0 <= k < l < |Paths(f, prefix, j)| :: Paths(f, prefix, j)[k] != Paths(f, prefix, j)[l]
  {
    if f != [] {
      var inner, rest := Paths(f[0].kids, prefix + [j], 1), Paths(f[1..], prefix, j + 1);
      PathsDistinct(f[0].kids, prefix + [j], 1);
      PathsDistinct(f[1..], prefix, j + 1);
      PathShape(f[0].kids, prefix + [j], 1);
      PathShape(f[1..], prefix, j + 1);
      forall k | 0 <= k < |inner| ensures inner[k] != prefix + [j] && inner[k][|prefix|] == j {
        assert (prefix + [j])[|prefix|] == j;
      }
      assert forall k | 0 <= k < |rest| :: rest[k][|prefix|] > j;
    }
  }

  lemma ParentShift(levels: seq<nat>, part: seq<nat>, off: nat, p: nat, i: nat)
    requires Holds(levels, part, off) && off <= p && i < off + |part| && IsParent(levels, p, i)
    ensures IsParent(part, p - off, i - off)
  {
    forall q | p - off < q < i - off ensures part[q] >= part[i - off] { assert levels[q + off] >= levels[i]; }
    assert levels[p] == part[p - off] && levels[i] == part[i - off];
  }

  lemma ParentInInner(levels: seq<nat>, inner: seq<nat>, p: nat, i: nat)
    requires Holds(levels, inner, 1) && 0 < i <= |inner| && IsParent(levels, p, i)
    requires forall k | 0 <= k < |inner| :: inner[k] > levels[0]
    requires inner[0] == levels[0] + 1
    ensures if p == 0 then inner[i - 1] == levels[0] + 1 else IsParent(inner, p - 1, i - 1)
  {
    if p > 0 {
      ParentShift(levels, inner, 1, p, i);
    } else {
      assert levels[1] == inner[0] && levels[i] == inner[i - 1];
    }
  }

  lemma ParentInAfter(levels: seq<nat>, after: seq<nat>, off: nat, p: nat, i: nat)
    requires Holds(levels, after, off) && off <= i < off + |after| && IsParent(levels, p, i)
    requires forall k | 0 <= k < |levels| :: levels[k] >= after[0]
    ensures p >= off && IsParent(after, p - off, i - off)
  {
    assert levels[off] == after[0] && levels[p] >= after[0];
    ParentShift(levels, after, off, p, i);
  }

  /** The path of node p is the path of node i without its last number. */
  predicate IsFront(paths: seq<Path>, p: nat, i: nat)
  {
    p < |paths| && i < |paths| && paths[i] != [] && paths[p] == paths[i][..|paths[i]| - 1]
  }

  ghost predicate ParentsAreFronts(levels: seq<nat>, paths: seq<Path>)
  {
    |levels| == |paths| && forall p: nat, i: nat | i < |levels| && IsParent(levels, p, i) :: IsFront(paths, p, i)
  }

  lemma FrontShift(paths: seq<Path>, part: seq<Path>, off: nat, p: nat, i: nat)
    requires Holds(paths, part, off) && off <= p && off <= i && IsFront(part, p - off, i - off)
    ensures IsFront(paths, p, i)
  {
    assert part[p - off] == paths[p] && part[i - off] == paths[i];
  }

  lemma FrontsOfParts(levels: seq<nat>, inner: seq<nat>, after: seq<nat>, paths: seq<Path>, innerPaths: seq<Path>,
                      afterPaths: seq<Path>)
    requires ParentsAreFronts(inner, innerPaths) && ParentsAreFronts(after, afterPaths)
    requires |levels| == |paths| == 1 + |inner| + |after|
    requires Holds(levels, inner, 1) && Holds(levels, after, 1 + |inner|)
    requires Holds(paths, innerPaths, 1) && Holds(paths, afterPaths, 1 + |inner|)
    requires forall k | 0 <= k < |inner| :: inner[k] > levels[0]
    requires forall k | 0 <= k < |levels| :: levels[k] >= levels[0]
    requires (inner != [] ==> inner[0] == levels[0] + 1) && (after != [] ==> after[0] == levels[0])
    requires forall k | 0 <= k < |inner| && inner[k] == levels[0] + 1 ::
               innerPaths[k] != [] && innerPaths[k][..|innerPaths[k]| - 1] == paths[0]
    ensures ParentsAreFronts(levels, paths)
  {
    forall p: nat, i: nat | i < |levels| && IsParent(levels, p, i) ensures IsFront(paths, p, i) {
      var m := 1 + |inner|;
      if i >= m {
        ParentInAfter(levels, after, m, p, i);
        FrontShift(paths, afterPaths, m, p, i);
      } else {
        ParentInInner(levels, inner, p, i);
        if p > 0 {
          FrontShift(paths, innerPaths, 1, p, i);
        } else {
          assert paths[i] == innerPaths[i - 1];
        }
      }
    }
  }

  /** The paths at depth d are one number longer than `first`. */
  ghost predicate HangBelow(depths: seq<nat>, d: nat, paths: seq<Path>, first: Path)
  {
    && |depths| == |paths|
    && forall k | 0 <= k < |depths| && depths[k] == d :: paths[k] != [] && paths[k][..|paths[k]| - 1] == first
  }

  lemma KidsOfFirst<X>(f: seq<Tree<X>>, prefix: Path, j: nat)
    ensures HangBelow(Depths(f, |prefix|), |prefix|, Paths(f, prefix, j), prefix)
  {
    PathShape(f, prefix, j);
  }

  /** Depths from d on, the first of them d. */
  ghost predicate DeepFrom(depths: seq<nat>, d: nat)
  {
    (forall k | 0 <= k < |depths| :: depths[k] >= d) && (depths != [] ==> depths[0] == d)
  }

  lemma DepthsDeep<X>(f: seq<Tree<X>>, d: nat)
    ensures DeepFrom(Depths(f, d), d)
  {
    DepthsBound(f, d);
  }

  lemma DeepParts(d: nat, inner: seq<nat>, after: seq<nat>)
    requires DeepFrom(inner, d + 1) && DeepFrom(after, d)
    ensures DeepFrom([d] + inner + after, d)
  {
  }

  lemma FrontsOfConcat(d: nat, first: Path, inner: seq<nat>, after: seq<nat>, innerPaths: seq<Path>,
                       afterPaths: seq<Path>)
    requires ParentsAreFronts(inner, innerPaths) && ParentsAreFronts(after, afterPaths)
    requires DeepFrom(inner, d + 1) && DeepFrom(after, d) && HangBelow(inner, d + 1, innerPaths, first)
    ensures ParentsAreFronts([d] + inner + after, [first] + innerPaths + afterPaths)
  {
    PartsHeld(d, inner, after);
    PartsHeld(first, innerPaths, afterPaths);
    DeepParts(d, inner, after);
    FrontsOfParts([d] + inner + after, inner, after, [first] + innerPaths + afterPaths, innerPaths, afterPaths);
  }

  /** The parent by depth carries the path without its last number. */
  lemma {:induction false} PathOfParent<X>(f: seq<Tree<X>>, prefix: Path, j: nat)
    ensures ParentsAreFronts(Depths(f, |prefix|), Paths(f, prefix, j))
  {
    if f != [] {
      var d, first := |prefix|, prefix + [j];
      PathOfParent(f[0].kids, first, 1);
      PathOfParent(f[1..], prefix, j + 1);
      DepthsDeep(f[0].kids, d + 1);
      DepthsDeep(f[1..], d);
      KidsOfFirst(f[0].kids, first, 1);
      FrontsOfConcat(d, first, Depths(f[0].kids, d + 1), Depths(f[1..], d), Paths(f[0].kids, first, 1),
                     Paths(f[1..], prefix, j + 1));
    }
  }

  lemma {:induction false} HasParent(levels: seq<nat>, q: nat, i: nat)
    requires q < i < |levels| && levels[q] < levels[i]
    ensures exists p: nat :: p < i && IsParent(levels, p, i)
    decreases i - q
  {
    if !IsParent(levels, q, i) {
      var q' :| q < q' < i && levels[q'] < levels[i];
      HasParent(levels, q', i);
    }
  }

  // ---- The round trip ----------------------------------------------------------------------------------

  lemma HasMember(s: seq<nat>)
    requires s != []
    ensures exists x: nat :: x in s
  {
    assert s[0] in s;
  }

  lemma {:induction false} RisingEqual(a: seq<nat>, b: seq<nat>)
    requires B.Rising(a) && B.Rising(b) && forall x: nat :: x in a <==> x in b
    ensures a == b
  {
    if a == [] {
      if b != [] { HasMember(b); }
    } else if b == [] {
      HasMember(a);
    } else {
      var m, n := |a| - 1, |b| - 1;
      assert a[m] in b && b[n] in a;
      assert a[m] == b[n];
      forall x: nat ensures x in a[..m] <==> x in b[..n] {
        assert x in a <==> x in b;
      }
      RisingEqual(a[..m], b[..n]);
      assert a == a[..m] + [a[m]] && b == b[..n] + [b[n]];
    }
  }

  lemma {:induction false} TopsRise(levels: seq<nat>, lo: nat, hi: nat)
    requires lo <= hi <= |levels|
    ensures B.Rising(Tops(levels, lo, hi))
    decreases hi - lo
  {
    if lo < hi {
      var e := End(levels, lo, hi);
      TopsRise(levels, e, hi);
      B.TopsBounds(levels, e, hi);
    }
  }

  /** The numbered, flattened forest: its depths and its codes. */
  function Levels<X>(f: seq<Tree<X>>): seq<nat> { Depths(f, 0) }

  function Numbered<X>(f: seq<Tree<X>>): (codes: seq<T.Code>)
  {
    PathShape(f, [], 1);
    Codes(Paths(f, [], 1))
  }

  lemma LatestIs(codes: seq<T.Code>, key: T.Key, n: nat, p: nat)
    requires p < n <= |codes| && T.KeyOf(codes[p]) == key
    requires forall q | 0 <= q < n && T.KeyOf(codes[q]) == key :: q == p
    ensures T.Latest(codes, key, n) == p
  {
  }

  lemma LatestByPath(paths: seq<Path>, p: nat, n: nat)
    requires p < n <= |paths| && forall k | 0 <= k < |paths| :: paths[k] != []
    requires forall k, l | 0 <= k < l < |paths| :: paths[k] != paths[l]
    ensures T.Latest(Codes(paths), T.TextKey(Dotted(paths[p])), n) == p
  {
    var codes := Codes(paths);
    forall q | 0 <= q < n && T.KeyOf(codes[q]) == T.TextKey(Dotted(paths[p])) ensures q == p {
      DottedInjective(paths[p], paths[q]);
    }
    LatestIs(codes, T.TextKey(Dotted(paths[p])), n, p);
  }

  /** The latest item with the parent code is the parent by depth. */
  lemma AdopterIsParent<X>(f: seq<Tree<X>>, i: nat, p: nat)
    requires |Paths(f, [], 1)| == |Levels(f)| && i < |Levels(f)| && IsParent(Levels(f), p, i)
    ensures i < |Numbered(f)| && T.Adopter(Numbered(f), i) == p
  {
    var paths := Paths(f, [], 1);
    PathShape(f, [], 1);
    PathsDistinct(f, [], 1);
    PathOfParent(f, [], 1);
    ParentOfDotted(paths[i]);
    LatestByPath(paths, p, i);
  }

  lemma RootsHaveNoParent<X>(f: seq<Tree<X>>, i: nat)
    requires |Paths(f, [], 1)| == |Levels(f)| && i < |Levels(f)| && Levels(f)[i] == 0
    ensures i < |Numbered(f)| && T.Adopter(Numbered(f), i) == -1
  {
    PathShape(f, [], 1);
    ParentOfDotted(Paths(f, [], 1)[i]);
  }

  lemma Adopters<X>(f: seq<Tree<X>>, i: nat)
    requires |Numbered(f)| == |Paths(f, [], 1)| == |Levels(f)| && i < |Levels(f)|
    ensures Levels(f)[i] == 0 ==> T.Adopter(Numbered(f), i) == -1
    ensures Levels(f)[i] > 0 ==> T.Adopter(Numbered(f), i) >= 0
    ensures forall p: nat | p < |Levels(f)| :: IsParent(Levels(f), p, i) <==> T.Adopter(Numbered(f), i) == p
  {
    var levels := Levels(f);
    DepthsBound(f, 0);
    if levels[i] == 0 {
      RootsHaveNoParent(f, i);
    } else {
      HasParent(levels, 0, i);
      var p: nat :| p < i && IsParent(levels, p, i);
      AdopterIsParent(f, i, p);
      forall q: nat | q < |levels| && IsParent(levels, q, i) ensures q == p {}
    }
  }

  /** What list_to_tree builds from the codes is what the stack algorithm builds from the depths. */
  lemma SameLinks<X>(f: seq<Tree<X>>, roots: seq<nat>, kids: seq<seq<nat>>)
    requires T.BuiltTo(Numbered(f), |Numbered(f)|, roots, kids)
    ensures |Numbered(f)| == |Levels(f)| == |Preorder(f)|
    ensures B.BuiltTo(Levels(f), |Levels(f)|, roots, kids)
  {
    var levels, codes, n := Levels(f), Numbered(f), |Levels(f)|;
    PathShape(f, [], 1);
    DepthsBound(f, 0);
    forall p: nat | p < n ensures kids[p] == Tops(levels, p + 1, End(levels, p, n)) {
      SameKids(f, p);
    }
    SameRoots(f);
  }

  lemma SameKids<X>(f: seq<Tree<X>>, p: nat)
    requires |Numbered(f)| == |Paths(f, [], 1)| == |Levels(f)| && p < |Levels(f)|
    ensures T.Adopted(Numbered(f), p, |Numbered(f)|) == Tops(Levels(f), p + 1, End(Levels(f), p, |Levels(f)|))
  {
    var levels, codes, n := Levels(f), Numbered(f), |Levels(f)|;
    var e := End(levels, p, n);
    var a, b := T.Adopted(codes, p, n), Tops(levels, p + 1, e);
    T.AdoptedRises(codes, p, n);
    TopsRise(levels, p + 1, e);
    B.TopsBounds(levels, p + 1, e);
    forall x: nat ensures x in a <==> x in b {
      T.AdoptedMember(codes, p, n, x);
      if x < n {
        Adopters(f, x);
        TopsBelowAreChildren(levels, p, x);
      }
    }
    RisingEqual(a, b);
  }

  lemma SameRoots<X>(f: seq<Tree<X>>)
    requires |Numbered(f)| == |Paths(f, [], 1)| == |Levels(f)|
    ensures T.Adopted(Numbered(f), -1, |Numbered(f)|) == Tops(Levels(f), 0, |Levels(f)|)
  {
    var levels, codes, n := Levels(f), Numbered(f), |Levels(f)|;
    var a, b := T.Adopted(codes, -1, n), Tops(levels, 0, n);
    T.AdoptedRises(codes, -1, n);
    TopsRise(levels, 0, n);
    B.TopsBounds(levels, 0, n);
    DepthsBound(f, 0);
    forall x: nat ensures x in a <==> x in b {
      T.AdoptedMember(codes, -1, n, x);
      TopsMember(levels, 0, n, x);
      if x < n {
        Adopters(f, x);
        assert levels[x] == 0 <==> forall q | 0 <= q < x :: levels[q] >= levels[x];
      }
    }
    RisingEqual(a, b);
  }

  /** Number any forest, flatten it in document order and call list_to_tree: the forest comes back. */
  lemma NumberThenBuild<X>(f: seq<Tree<X>>, roots: seq<nat>, kids: seq<seq<nat>>)
    requires T.BuiltTo(Numbered(f), |Numbered(f)|, roots, kids)
    ensures |kids| == |Preorder(f)| && ForwardLinks(kids) && forall k | 0 <= k < |roots| :: 0 <= roots[k] < |kids|
    ensures Grow(Preorder(f), kids, 0, roots) == f
  {
    SameLinks(f, roots, kids);
    B.BuiltForest(Preorder(f), Levels(f), roots, kids);
    BuildOfPreorder(f, 0);
  }
}
