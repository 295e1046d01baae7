// `list_to_tree`: a table of contents given as dotted codes becomes a forest.  A node is the index
// of its list item; the node's mutable child list is `kids[index]`.
module TocTree {
  import opened Common
  import opened Forest
  import TreeBuilder

  /** A structure value as it comes from JSON; a number has the text that `str` gives it. */
  datatype Code = Missing | Text(text: string) | Number(value: real, shown: string)

  /** What a dictionary tells apart: equal numbers are one key, and no number equals a text. */
  datatype Key = NoKey | TextKey(text: string) | NumberKey(value: real)

  function KeyOf(code: Code): Key
  {
    match code
    case Missing => NoKey
    case Text(text) => TextKey(text)
    case Number(value, _) => NumberKey(value)
  }

  /** What the code is split as; nothing for a missing code, an empty text and the number 0. */
  function Shown(code: Code): string
  {
    match code
    case Missing => ""
    case Text(text) => text
    case Number(value, shown) => if value == 0.0 then "" else shown
  }

  /** Index of the last dot, or -1. */
  function LastDot(s: string): (i: int)
    ensures -1 <= i < |s|
    ensures i >= 0 ==> s[i] == '.'
    ensures forall k | i < k < |s| :: s[k] != '.'
  {
    if s == [] then -1 else if s[|s| - 1] == '.' then |s| - 1 else LastDot(s[..|s| - 1])
  }

  /** All parts of the code but the last.  A missing code, a code of one part and an empty rest have
      no parent. */
  function ParentCode(code: Code): (parent: Option<string>)
    ensures parent.Some? ==> 0 < |parent.value| < |Shown(code)| && parent.value + "." <= Shown(code)
  {
    if LastDot(Shown(code)) <= 0 then None else Some(Shown(code)[..LastDot(Shown(code))])
  }

  // ---- What the loop computes --------------------------------------------------------------------

  /** The latest of the first n items that has the key, or -1. */
  function Latest(codes: seq<Code>, key: Key, n: nat): (i: int)
    requires n <= |codes|
    ensures -1 <= i < n
    ensures i >= 0 ==> KeyOf(codes[i]) == key
    ensures forall k | i < k < n :: KeyOf(codes[k]) != key
  {
    if n == 0 then -1 else if KeyOf(codes[n - 1]) == key then n - 1 else Latest(codes, key, n - 1)
  }

  /** The item below which item i is put, or -1 for a root. */
  function Adopter(codes: seq<Code>, i: nat): (p: int)
    requires i < |codes|
    ensures -1 <= p < i
  {
    if ParentCode(codes[i]).None? then -1 else Latest(codes, TextKey(ParentCode(codes[i]).value), i)
  }

  function Adopters(codes: seq<Code>): (parents: seq<int>)
    ensures |parents| == |codes| && forall i | 0 <= i < |codes| :: parents[i] == Adopter(codes, i)
  {
    seq(|codes|, i requires 0 <= i < |codes| => Adopter(codes, i))
  }

  /** The positions below n at which p stands. */
  function Below(parents: seq<int>, p: int, n: nat): seq<nat>
    requires n <= |parents|
  {
    if n == 0 then []
    else if parents[n - 1] == p then Below(parents, p, n - 1) + [n - 1]
    else Below(parents, p, n - 1)
  }

  /** Those of the first n items that hang below p (the roots, for p == -1), in list order. */
  function Adopted(codes: seq<Code>, p: int, n: nat): seq<nat>
    requires n <= |codes|
  {
    Below(Adopters(codes), p, n)
  }

  lemma {:induction false} BelowMember(parents: seq<int>, p: int, n: nat, i: nat)
    requires n <= |parents|
    ensures i in Below(parents, p, n) <==> i < n && parents[i] == p
  {
    if n > 0 { BelowMember(parents, p, n - 1, i); }
  }

  lemma {:induction false} BelowOnce(parents: seq<int>, p: int, n: nat, x: nat)
    requires n <= |parents|
    ensures multiset(Below(parents, p, n))[x] == if x < n && parents[x] == p then 1 else 0
  {
    if n > 0 { BelowOnce(parents, p, n - 1, x); }
  }

  lemma {:induction false} BelowRises(parents: seq<int>, p: int, n: nat)
    requires n <= |parents| && forall i | 0 <= i < |parents| :: parents[i] < i
    ensures TreeBuilder.Rising(Below(parents, p, n))
    ensures forall k | 0 <= k < |Below(parents, p, n)| :: p < Below(parents, p, n)[k] < n
  {
    if n > 0 { BelowRises(parents, p, n - 1); }
  }

  lemma {:induction false} NoneBelow(parents: seq<int>, p: int, n: nat)
    requires n <= |parents| && forall i | 0 <= i < n :: parents[i] != p
    ensures Below(parents, p, n) == []
  {
    if n > 0 { NoneBelow(parents, p, n - 1); }
  }

  lemma AdoptedMember(codes: seq<Code>, p: int, n: nat, i: nat)
    requires n <= |codes|
    ensures i in Adopted(codes, p, n) <==> i < n && Adopter(codes, i) == p
  {
    BelowMember(Adopters(codes), p, n, i);
  }

  lemma AdoptedRises(codes: seq<Code>, p: int, n: nat)
    requires n <= |codes|
    ensures TreeBuilder.Rising(Adopted(codes, p, n))
    ensures forall k | 0 <= k < |Adopted(codes, p, n)| :: p < Adopted(codes, p, n)[k] < n
  {
    BelowRises(Adopters(codes), p, n);
  }

  lemma NotYetAdopted(codes: seq<Code>, p: nat, n: nat)
    requires n <= |codes| && n <= p + 1
    ensures Adopted(codes, p, n) == []
  {
    NoneBelow(Adopters(codes), p, n);
  }

  ghost predicate BuiltTo(codes: seq<Code>, n: nat, roots: seq<nat>, kids: seq<seq<nat>>)
    requires n <= |codes|
  {
    && roots == Adopted(codes, -1, n)
    && |kids| == n && forall p: nat | p < n :: kids[p] == Adopted(codes, p, n)
  }

  lemma BuiltStep(codes: seq<Code>, n: nat, roots: seq<nat>, kids: seq<seq<nat>>, roots': seq<nat>,
                  kids': seq<seq<nat>>)
    requires n < |codes| && BuiltTo(codes, n, roots, kids)
    requires roots' == if Adopter(codes, n) < 0 then roots + [n] else roots
    requires |kids'| == n + 1 && kids'[n] == []
    requires forall p: nat | p < n :: kids'[p] == if p == Adopter(codes, n) then kids[p] + [n] else kids[p]
    ensures BuiltTo(codes, n + 1, roots', kids')
  {
    NotYetAdopted(codes, n, n);
  }

  /** `nodes` maps each code read so far to the latest item that carried it. */
  ghost predicate LatestNodes(codes: seq<Code>, n: nat, nodes: map<Key, nat>)
    requires n <= |codes|
  {
    && (forall c | c in nodes :: nodes[c] == Latest(codes, c, n))
    && forall k | 0 <= k < n :: KeyOf(codes[k]) in nodes
  }

  lemma OwnKeyIsNotParent(code: Code)
    ensures ParentCode(code).Some? ==> KeyOf(code) != TextKey(ParentCode(code).value)
  {
  }

  lemma AdopterFromNodes(codes: seq<Code>, i: nat, nodes: map<Key, nat>)
    requires i < |codes| && LatestNodes(codes, i + 1, nodes)
    ensures var parent := ParentCode(codes[i]);
            Adopter(codes, i) ==
              if parent.Some? && TextKey(parent.value) in nodes then nodes[TextKey(parent.value)] else -1
  {
    OwnKeyIsNotParent(codes[i]);
  }

  // What that means, without the functions that compute it.

  /** The text is p, a dot and a last part. */
  predicate Extends(text: string, p: string)
  {
    p != "" && |p| < |text| && text[..|p|] == p && text[|p|] == '.' && '.' !in text[|p| + 1..]
  }

  predicate HasParent(code: Code, p: string)
  {
    (code.Text? && Extends(code.text, p)) || (code.Number? && code.value != 0.0 && Extends(code.shown, p))
  }

  lemma ParentCodeIs(code: Code, p: string)
    ensures HasParent(code, p) <==> ParentCode(code) == Some(p)
  {
    var s := Shown(code);
    if Extends(s, p) {
      assert forall k | |p| < k < |s| :: s[k] == s[|p| + 1..][k - |p| - 1];
      assert LastDot(s) == |p|;
    }
  }

  /** Item p is the latest one before item i whose code is the parent code of item i. */
  ghost predicate HangsBelow(codes: seq<Code>, i: nat, p: nat)
  {
    && p < i < |codes|
    && exists parent :: HasParent(codes[i], parent) && codes[p] == Text(parent)
                        && forall k | p < k < i :: codes[k] != Text(parent)
  }

  lemma HangsBelowIs(codes: seq<Code>, i: nat, p: nat)
    requires i < |codes|
    ensures HangsBelow(codes, i, p) <==> Adopter(codes, i) == p
  {
    forall parent ensures HasParent(codes[i], parent) <==> ParentCode(codes[i]) == Some(parent) {
      ParentCodeIs(codes[i], parent);
    }
    forall k, text | 0 <= k < |codes| ensures KeyOf(codes[k]) == TextKey(text) <==> codes[k] == Text(text) {}
    if HangsBelow(codes, i, p) {
      var parent :| HasParent(codes[i], parent) && codes[p] == Text(parent)
                    && forall k | p < k < i :: codes[k] != Text(parent);
      assert Latest(codes, TextKey(parent), i) == p;
    }
  }

  /** Every item stands in the list of the item it hangs below, or among the roots if there is none, and all
      lists keep the order of the items. */
  ghost predicate TreeOf(codes: seq<Code>, roots: seq<nat>, kids: seq<seq<nat>>)
  {
    && |kids| == |codes|
    && (forall i: nat, p: nat | p < |codes| :: i in kids[p] <==> HangsBelow(codes, i, p))
    && (forall i: nat :: i in roots <==> i < |codes| && forall p: nat :: !HangsBelow(codes, i, p))
    && TreeBuilder.Rising(roots) && forall p | 0 <= p < |kids| :: TreeBuilder.Rising(kids[p])
  }

  lemma BuiltIsTree(codes: seq<Code>, roots: seq<nat>, kids: seq<seq<nat>>)
    requires BuiltTo(codes, |codes|, roots, kids)
    ensures TreeOf(codes, roots, kids)
  {
    forall i: nat, p: nat | p < |codes| ensures i in kids[p] <==> HangsBelow(codes, i, p) {
      AdoptedMember(codes, p, |codes|, i);
      if i < |codes| { HangsBelowIs(codes, i, p); }
    }
    forall i: nat ensures i in roots <==> i < |codes| && forall p: nat :: !HangsBelow(codes, i, p) {
      AdoptedMember(codes, -1, |codes|, i);
      if i < |codes| { RootIs(codes, i); }
    }
    AdoptedRises(codes, -1, |codes|);
    forall p | 0 <= p < |kids| ensures TreeBuilder.Rising(kids[p]) { AdoptedRises(codes, p, |codes|); }
  }

  lemma RootIs(codes: seq<Code>, i: nat)
    requires i < |codes|
    ensures Adopter(codes, i) == -1 <==> forall p: nat :: !HangsBelow(codes, i, p)
  {
    forall p: nat ensures HangsBelow(codes, i, p) <==> Adopter(codes, i) == p { HangsBelowIs(codes, i, p); }
    if Adopter(codes, i) >= 0 { assert HangsBelow(codes, i, Adopter(codes, i)); }
  }

  /** One round of the loop, after `nodes` got its entry: a node enters before its parent is looked up. */
  method Place(codes: seq<Code>, i: nat, nodes: map<Key, nat>, roots: seq<nat>, kids: seq<seq<nat>>)
      returns (roots': seq<nat>, kids': seq<seq<nat>>)
    requires i < |codes| && LatestNodes(codes, i + 1, nodes) && BuiltTo(codes, i, roots, kids)
    ensures BuiltTo(codes, i + 1, roots', kids')
  {
    roots', kids' := roots, kids + [[]];
    var parent := ParentCode(codes[i]);
    AdopterFromNodes(codes, i, nodes);
    if parent.Some? && TextKey(parent.value) in nodes {
      var p := nodes[TextKey(parent.value)];
      kids' := kids'[p := kids'[p] + [i]];
    } else {
      roots' := roots' + [i];
    }
    BuiltStep(codes, i, roots, kids, roots', kids');
  }

  lemma NodesStep(codes: seq<Code>, i: nat, nodes: map<Key, nat>)
    requires i < |codes| && LatestNodes(codes, i, nodes)
    ensures LatestNodes(codes, i + 1, nodes[KeyOf(codes[i]) := i])
  {
  }

  /** list_to_tree, first pass: the tree in which every item hangs below the latest earlier item that
      carries its parent code. */
  method ListToTree(codes: seq<Code>) returns (roots: seq<nat>, kids: seq<seq<nat>>)
    ensures BuiltTo(codes, |codes|, roots, kids)
    ensures TreeOf(codes, roots, kids)
  {
    var nodes: map<Key, nat> := map[];
    roots, kids := [], [];
    for i := 0 to |codes|
      invariant LatestNodes(codes, i, nodes) && BuiltTo(codes, i, roots, kids)
    {
      NodesStep(codes, i, nodes);
      nodes := nodes[KeyOf(codes[i]) := i];
      roots, kids := Place(codes, i, nodes, roots, kids);
    }
    BuiltIsTree(codes, roots, kids);
  }

  /** An item with a numeric code never gets children: the parent code of another item is a text. */
  lemma NumbersAreLeaves(codes: seq<Code>, p: nat, n: nat)
    requires n <= |codes| && p < |codes| && codes[p].Number?
    ensures Adopted(codes, p, n) == []
  {
    forall i | 0 <= i < n ensures Adopter(codes, i) != p {
      assert Adopter(codes, i) == p ==> KeyOf(codes[p]).TextKey?;
    }
    NoneBelow(Adopters(codes), p, n);
  }

  // ---- Every item appears exactly once, whatever the codes -------------------------------------------

  lemma BuiltLinks(codes: seq<Code>, roots: seq<nat>, kids: seq<seq<nat>>)
    requires BuiltTo(codes, |codes|, roots, kids)
    ensures ForwardLinks(kids) && forall k | 0 <= k < |roots| :: 0 <= roots[k] < |kids|
  {
    AdoptedRises(codes, -1, |codes|);
    forall p, k | 0 <= p < |kids| && 0 <= k < |kids[p]| ensures p < kids[p][k] < |kids| {
      AdoptedRises(codes, p, |codes|);
    }
  }

  /** How often item x or an item above x occurs in ids. */
  function Hits(codes: seq<Code>, ids: seq<nat>, x: nat): nat
    requires x < |codes|
  {
    multiset(ids)[x] + if Adopter(codes, x) < 0 then 0 else Hits(codes, ids, Adopter(codes, x))
  }

  lemma {:induction false} HitsConcat(codes: seq<Code>, a: seq<nat>, b: seq<nat>, x: nat)
    requires x < |codes|
    ensures Hits(codes, a + b, x) == Hits(codes, a, x) + Hits(codes, b, x)
  {
    if Adopter(codes, x) >= 0 { HitsConcat(codes, a, b, Adopter(codes, x)); }
  }

  lemma {:induction false} HitsNone(codes: seq<Code>, x: nat)
    requires x < |codes|
    ensures Hits(codes, [], x) == 0
  {
    if Adopter(codes, x) >= 0 { HitsNone(codes, Adopter(codes, x)); }
  }

  lemma AdoptedOnce(codes: seq<Code>, p: int, n: nat, x: nat)
    requires n <= |codes|
    ensures multiset(Adopted(codes, p, n))[x] == if x < n && Adopter(codes, x) == p then 1 else 0
  {
    BelowOnce(Adopters(codes), p, n, x);
  }

  /** To lie at or below a child of p is to have a parent at or below p. */
  lemma {:induction false} HitsOfChildren(codes: seq<Code>, p: nat, x: nat)
    requires p < |codes| && x < |codes|
    ensures Hits(codes, Adopted(codes, p, |codes|), x) ==
              if Adopter(codes, x) < 0 then 0 else Hits(codes, [p], Adopter(codes, x))
  {
    AdoptedOnce(codes, p, |codes|, x);
    var q := Adopter(codes, x);
    if q >= 0 { HitsOfChildren(codes, p, q); }
  }

  lemma {:induction false} HitsOfRoots(codes: seq<Code>, x: nat)
    requires x < |codes|
    ensures Hits(codes, Adopted(codes, -1, |codes|), x) == 1
  {
    AdoptedOnce(codes, -1, |codes|, x);
    if Adopter(codes, x) >= 0 { HitsOfRoots(codes, Adopter(codes, x)); }
  }

  function Ids(n: nat): (s: seq<nat>)
    ensures |s| == n && forall i | 0 <= i < n :: s[i] == i
  {
    seq(n, i => i)
  }

  lemma HitsCons(codes: seq<Code>, ids: seq<nat>, x: nat)
    requires x < |codes| && ids != [] && ids[0] < |codes|
    ensures Hits(codes, ids, x) ==
              (if x == ids[0] then 1 else 0) + Hits(codes, Adopted(codes, ids[0], |codes|), x) +
                Hits(codes, ids[1..], x)
  {
    HitsOfChildren(codes, ids[0], x);
    assert ids == [ids[0]] + ids[1..];
    HitsConcat(codes, [ids[0]], ids[1..], x);
  }

  /** How often x is reached from the nodes ids. */
  function Reached(kids: seq<seq<nat>>, lo: nat, ids: seq<nat>, x: nat): nat
    requires ForwardLinks(kids) && lo <= |kids|
    requires forall k | 0 <= k < |ids| :: lo <= ids[k] < |kids|
    decreases |kids| - lo, |ids|
  {
    if ids == [] then 0
    else (if x == ids[0] then 1 else 0) + Reached(kids, ids[0] + 1, kids[ids[0]], x) + Reached(kids, lo, ids[1..], x)
  }

  function Count(s: seq<nat>, x: nat): nat
  {
    if s == [] then 0 else (if s[0] == x then 1 else 0) + Count(s[1..], x)
  }

  lemma {:induction false} CountConcat(a: seq<nat>, b: seq<nat>, x: nat)
    ensures Count(a + b, x) == Count(a, x) + Count(b, x)
  {
    if a == [] {
      assert a + b == b;
    } else {
      CountConcat(a[1..], b, x);
      assert (a + b)[1..] == a[1..] + b;
    }
  }

  lemma CountNode(p: nat, inner: seq<nat>, rest: seq<nat>, x: nat)
    ensures Count([p] + inner + rest, x) == (if x == p then 1 else 0) + Count(inner, x) + Count(rest, x)
  {
    CountConcat([p] + inner, rest, x);
    CountConcat([p], inner, x);
  }

  lemma {:induction false} ReachedIsCount(kids: seq<seq<nat>>, lo: nat, ids: seq<nat>, x: nat)
    requires ForwardLinks(kids) && lo <= |kids|
    requires forall k | 0 <= k < |ids| :: lo <= ids[k] < |kids|
    ensures Count(Preorder(Grow(Ids(|kids|), kids, lo, ids)), x) == Reached(kids, lo, ids, x)
    decreases |kids| - lo, |ids|
  {
    if ids != [] {
      var p := ids[0];
      var inner := Grow(Ids(|kids|), kids, p + 1, kids[p]);
      var rest := Grow(Ids(|kids|), kids, lo, ids[1..]);
      ReachedIsCount(kids, p + 1, kids[p], x);
      ReachedIsCount(kids, lo, ids[1..], x);
      PreorderCons(Ids(|kids|)[p], inner, rest, Preorder(inner), Preorder(rest));
      CountNode(p, Preorder(inner), Preorder(rest), x);
    }
  }

  lemma ReachedCons(kids: seq<seq<nat>>, lo: nat, ids: seq<nat>, x: nat)
    requires ForwardLinks(kids) && lo <= |kids| && ids != []
    requires forall k | 0 <= k < |ids| :: lo <= ids[k] < |kids|
    ensures Reached(kids, lo, ids, x) ==
              (if x == ids[0] then 1 else 0) + Reached(kids, ids[0] + 1, kids[ids[0]], x) +
                Reached(kids, lo, ids[1..], x)
  {
  }

  function Met(codes: seq<Code>, ids: seq<nat>, x: nat): nat { if x < |codes| then Hits(codes, ids, x) else 0 }

  lemma MetNone(codes: seq<Code>, x: nat)
    ensures Met(codes, [], x) == 0
  {
    if x < |codes| { HitsNone(codes, x); }
  }

  lemma MetCons(codes: seq<Code>, kids: seq<nat>, ids: seq<nat>, x: nat)
    requires ids != [] && ids[0] < |codes| && kids == Adopted(codes, ids[0], |codes|)
    ensures Met(codes, ids, x) == (if x == ids[0] then 1 else 0) + Met(codes, kids, x) + Met(codes, ids[1..], x)
  {
    if x < |codes| { HitsCons(codes, ids, x); }
  }

  lemma ReachedStep(codes: seq<Code>, kids: seq<seq<nat>>, lo: nat, ids: seq<nat>, x: nat)
    requires ForwardLinks(kids) && lo <= |kids| == |codes| && ids != []
    requires forall k | 0 <= k < |ids| :: lo <= ids[k] < |kids|
    requires kids[ids[0]] == Adopted(codes, ids[0], |codes|)
    requires Reached(kids, ids[0] + 1, kids[ids[0]], x) == Met(codes, kids[ids[0]], x)
    requires Reached(kids, lo, ids[1..], x) == Met(codes, ids[1..], x)
    ensures Reached(kids, lo, ids, x) == Met(codes, ids, x)
  {
    ReachedCons(kids, lo, ids, x);
    MetCons(codes, kids[ids[0]], ids, x);
  }

  lemma {:induction false} ReachedIsHits(codes: seq<Code>, roots: seq<nat>, kids: seq<seq<nat>>, lo: nat,
                                         ids: seq<nat>, x: nat)
    requires BuiltTo(codes, |codes|, roots, kids) && ForwardLinks(kids) && lo <= |kids|
    requires forall k | 0 <= k < |ids| :: lo <= ids[k] < |kids|
    ensures Reached(kids, lo, ids, x) == Met(codes, ids, x)
    decreases |kids| - lo, |ids|
  {
    if ids == [] {
      MetNone(codes, x);
    } else {
      ReachedIsHits(codes, roots, kids, ids[0] + 1, kids[ids[0]], x);
      ReachedIsHits(codes, roots, kids, lo, ids[1..], x);
      ReachedStep(codes, kids, lo, ids, x);
    }
  }

  lemma {:induction false} CountIds(n: nat, x: nat)
    ensures Count(Ids(n), x) == if x < n then 1 else 0
  {
    if n > 0 {
      CountIds(n - 1, x);
      CountConcat(Ids(n - 1), [n - 1], x);
      assert Ids(n) == Ids(n - 1) + [n - 1];
    }
  }

  lemma {:induction false} CountIsMultiset(s: seq<nat>, x: nat)
    ensures Count(s, x) == multiset(s)[x]
  {
    if s != [] {
      CountIsMultiset(s[1..], x);
      assert s == [s[0]] + s[1..];
    }
  }

  lemma SameCounts(a: seq<nat>, b: seq<nat>)
    requires forall x: nat :: Count(a, x) == Count(b, x)
    ensures multiset(a) == multiset(b)
  {
    forall x: nat ensures multiset(a)[x] == multiset(b)[x] {
      CountIsMultiset(a, x);
      CountIsMultiset(b, x);
    }
  }

  /** Duplicate codes, missing parents, missing codes: the tree holds every item exactly once. */
  lemma EveryItemOnce(codes: seq<Code>, roots: seq<nat>, kids: seq<seq<nat>>)
    requires BuiltTo(codes, |codes|, roots, kids)
    ensures ForwardLinks(kids) && (forall k | 0 <= k < |roots| :: 0 <= roots[k] < |kids|)
    ensures multiset(Preorder(Grow(Ids(|kids|), kids, 0, roots))) == multiset(Ids(|codes|))
  {
    BuiltLinks(codes, roots, kids);
    var flat: seq<nat> := Preorder(Grow(Ids(|kids|), kids, 0, roots));
    forall x: nat ensures Count(flat, x) == Count(Ids(|codes|), x) {
      CountIds(|codes|, x);
      ReachedIsCount(kids, 0, roots, x);
      ReachedIsHits(codes, roots, kids, 0, roots, x);
      if x < |codes| { HitsOfRoots(codes, x); }
    }
    SameCounts(flat, Ids(|codes|));
  }
}
