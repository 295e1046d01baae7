// `_assign_outline_end_indexes`: end pages for the nodes of an embedded PDF outline.  The nodes are
// numbered in document order; `ends` is their mutable end_index field.
module Outline {
  import opened Common
  import opened Forest
  import TreeBuilder

  datatype Item = Item(title: string, start: Option<int>)

  type Outline = seq<Tree<Item>>

  function Size(f: Outline): nat
  {
    if f == [] then 0 else 1 + Size(f[0].kids) + Size(f[1..])
  }

  lemma {:induction false} SizeIsPreorder(f: Outline)
    ensures |Preorder(f)| == Size(f)
  {
    if f != [] {
      SizeIsPreorder(f[0].kids);
      SizeIsPreorder(f[1..]);
    }
  }

  // ---- The recursive rule ------------------------------------------------------------------------

  /** start_index of the first of the siblings that has one. */
  function FirstStart(f: Outline): Option<int>
  {
    if f == [] then None else if f[0].root.start.Some? then f[0].root.start else FirstStart(f[1..])
  }

  /** The page before the next sibling; a missing start and a start of 0 leave the fallback. */
  function Limit(later: Outline, fallback: int): int
  {
    var next := FirstStart(later);
    if next.Some? && next.value != 0 then next.value - 1 else fallback
  }

  /** The largest of the first k numbers. */
  function MaxTo(s: seq<int>, k: nat): int
    requires 0 < k <= |s|
  {
    if k == 1 || s[k - 1] > MaxTo(s, k - 1) then s[k - 1] else MaxTo(s, k - 1)
  }

  lemma {:induction false} MaxToIs(s: seq<int>, k: nat)
    requires 0 < k <= |s|
    ensures MaxTo(s, k) in s[..k] && forall i | 0 <= i < k :: s[i] <= MaxTo(s, k)
  {
    if k > 1 { MaxToIs(s, k - 1); }
  }

  function OwnEnd(t: Tree<Item>, limit: int): int
    decreases t
  {
    if t.kids == [] then limit else MaxTo(SiblingEnds(t.kids, limit), |t.kids|)
  }

  function SiblingEnds(f: Outline, fallback: int): (s: seq<int>)
    ensures |s| == |f|
    decreases f
  {
    if f == [] then [] else [OwnEnd(f[0], Limit(f[1..], fallback))] + SiblingEnds(f[1..], fallback)
  }

  /** All ends, in document order. */
  function Ends(f: Outline, fallback: int): (s: seq<int>)
    ensures |s| == Size(f)
  {
    if f == [] then []
    else
      var limit := Limit(f[1..], fallback);
      [OwnEnd(f[0], limit)] + Ends(f[0].kids, limit) + Ends(f[1..], fallback)
  }

  // ---- The code ------------------------------------------------------------------------------------

  /** The search among the later siblings, and the page it leads to. */
  method FindLimit(f: Outline, idx: nat, fallback: int) returns (limit: int)
    requires idx < |f|
    ensures limit == Limit(f[idx + 1..], fallback)
  {
    var next: Option<int> := None;
    var j := idx + 1;
    while j < |f| && next.None?
      invariant idx < j <= |f|
      invariant FirstStart(f[idx + 1..]) == if next.Some? then next else FirstStart(f[j..])
    {
      if f[j].root.start.Some? { next := f[j].root.start; }
      j := j + 1;
    }
    limit := if next.Some? && next.value != 0 then next.value - 1 else fallback;
  }

  /** Where the subtree of f[k] starts in document order. */
  function Offset(f: Outline, k: nat): nat
    requires k <= |f|
  {
    if k == 0 then 0 else 1 + Size(f[0].kids) + Offset(f[1..], k - 1)
  }

  lemma {:induction false} OffsetNext(f: Outline, k: nat)
    requires k < |f|
    ensures Offset(f, k + 1) == Offset(f, k) + 1 + Size(f[k].kids) <= Size(f)
  {
    if k > 0 { OffsetNext(f[1..], k - 1); }
  }

  lemma AtRest(x: int, a: seq<int>, b: seq<int>, o: nat)
    requires o < |b|
    ensures ([x] + a + b)[1 + |a| + o] == b[o]
  {
  }

  lemma {:induction false} EndAtOffset(f: Outline, fallback: int, k: nat)
    requires k < |f|
    ensures Offset(f, k) < Size(f) && Ends(f, fallback)[Offset(f, k)] == SiblingEnds(f, fallback)[k]
  {
    if k > 0 {
      EndAtOffset(f[1..], fallback, k - 1);
      AtRest(Ends(f, fallback)[0], Ends(f[0].kids, Limit(f[1..], fallback)), Ends(f[1..], fallback),
             Offset(f[1..], k - 1));
    }
  }

  lemma ChildPosition(f: Outline, limit: int, all: seq<int>, tops: seq<int>, k: nat)
    requires k < |f| && all == Ends(f, limit) && tops == SiblingEnds(f, limit)
    ensures Offset(f, k) < |all| && all[Offset(f, k)] == tops[k]
    ensures Offset(f, k + 1) == Offset(f, k) + 1 + Size(f[k].kids)
  {
    EndAtOffset(f, limit, k);
    OffsetNext(f, k);
  }

  /** The children's ends; the children's subtrees follow each other from position `at`. */
  method ChildEnds(f: Outline, limit: int, ends: array<int>, at: nat, ghost all: seq<int>) returns (childEnds: seq<int>)
    requires all == Ends(f, limit) && at + |all| <= ends.Length
    requires forall k {:trigger all[k]} | 0 <= k < |all| :: ends[at + k] == all[k]
    ensures childEnds == SiblingEnds(f, limit)
  {
    childEnds := [];
    var pos := at;
    ghost var tops := SiblingEnds(f, limit);
    for k := 0 to |f|
      invariant pos == at + Offset(f, k) && |childEnds| == k
      invariant forall j | 0 <= j < k :: childEnds[j] == tops[j]
    {
      ChildPosition(f, limit, all, tops, k);
      childEnds := childEnds + [ends[pos]];
      pos := pos + 1 + Size(f[k].kids);
    }
  }

  function NodeEnds(t: Tree<Item>, limit: int): seq<int> { [OwnEnd(t, limit)] + Ends(t.kids, limit) }

  /** s with `part` written over it from position `at` on. */
  function Spliced(s: seq<int>, at: nat, part: seq<int>): (r: seq<int>)
    requires at + |part| <= |s|
    ensures |r| == |s| && r[at..at + |part|] == part
  {
    s[..at] + part + s[at + |part|..]
  }

  lemma SplicedAt(s: seq<int>, at: nat, part: seq<int>, r: seq<int>)
    requires at + |part| <= |s| && r == Spliced(s, at, part)
    ensures forall k {:trigger part[k]} | 0 <= k < |part| :: r[at + k] == part[k]
  {
  }

  lemma SplicedFront(s: seq<int>, at: nat, own: int, inner: seq<int>)
    requires at + 1 + |inner| <= |s|
    ensures Spliced(s, at + 1, inner)[at := own] == Spliced(s, at, [own] + inner)
  {
  }

  lemma SplicedNext(s: seq<int>, at: nat, done: seq<int>, node: seq<int>, rest: seq<int>)
    requires at + |done| + |node| <= |s|
    ensures Spliced(Spliced(s, at, done), at + |done|, node) == Spliced(s, at, done + node)
    ensures done + (node + rest) == (done + node) + rest
  {
  }

  /** One round of the loop: a node and everything below it. */
  method AssignNode(t: Tree<Item>, limit: int, ends: array<int>, pos: nat)
    requires pos + |NodeEnds(t, limit)| <= ends.Length
    modifies ends
    ensures ends[..] == Spliced(old(ends[..]), pos, NodeEnds(t, limit))
    decreases t
  {
    if t.kids != [] {
      ghost var before, all := ends[..], Ends(t.kids, limit);
      AssignEnds(t.kids, limit, ends, pos + 1);
      SplicedAt(before, pos + 1, all, ends[..]);
      var childEnds := ChildEnds(t.kids, limit, ends, pos + 1, all);
      ends[pos] := MaxTo(childEnds, |childEnds|);
      SplicedFront(before, pos, ends[pos], all);
    } else {
      SplicedFront(ends[..], pos, limit, []);
      assert Spliced(ends[..], pos + 1, []) == ends[..];
      ends[pos] := limit;
    }
  }

  lemma EndsUnfold(f: Outline, fallback: int, idx: nat)
    requires idx < |f|
    ensures |NodeEnds(f[idx], Limit(f[idx + 1..], fallback))| == 1 + Size(f[idx].kids)
    ensures Ends(f[idx..], fallback) == NodeEnds(f[idx], Limit(f[idx + 1..], fallback)) + Ends(f[idx + 1..], fallback)
  {
    assert f[idx..][0] == f[idx] && f[idx..][1..] == f[idx + 1..];
  }

  /** The recursive pass writes exactly the ends of its forest and nothing else. */
  method AssignEnds(f: Outline, fallback: int, ends: array<int>, at: nat)
    requires at + |Ends(f, fallback)| <= ends.Length
    modifies ends
    ensures ends[..] == Spliced(old(ends[..]), at, Ends(f, fallback))
    decreases f
  {
    var pos := at;
    ghost var done: seq<int>, before := [], ends[..];
    assert Spliced(before, at, []) == before;
    for idx := 0 to |f|
      invariant pos == at + |done| && Ends(f, fallback) == done + Ends(f[idx..], fallback)
      invariant ends[..] == Spliced(before, at, done)
    {
      EndsUnfold(f, fallback, idx);
      var limit := FindLimit(f, idx, fallback);
      ghost var node := NodeEnds(f[idx], limit);
      AssignNode(f[idx], limit, ends, pos);
      SplicedNext(before, at, done, node, Ends(f[idx + 1..], fallback));
      done := done + node;
      pos := pos + 1 + Size(f[idx].kids);
    }
    assert f[|f|..] == [];
  }

  // ---- The exact end pages -------------------------------------------------------------------------

  /** Start pages in document order; None for a missing one. */
  function Starts(f: Outline): (s: seq<Option<int>>)
    ensures |s| == Size(f)
  {
    if f == [] then [] else [f[0].root.start] + Starts(f[0].kids) + Starts(f[1..])
  }

  /** A start that ends the page range before it: neither missing nor 0. */
  predicate Counts(start: Option<int>) { start.Some? && start.value != 0 }

  /** The start does not count, or lies on page x at the latest. */
  predicate By(start: Option<int>, x: int) { Counts(start) ==> start.value <= x }

  /** The page up to which a node may reach whose later siblings, and those of its ancestors, are sought
      from position j on; nodes deeper than `bound` are none of them.  A missing start passes the search on
      to the next of them, a start of 0 to those of the parent. */
  function PageFrom(levels: seq<nat>, starts: seq<Option<int>>, j: nat, bound: int, last: int): int
    requires j <= |levels| == |starts|
    decreases |levels| - j
  {
    if j == |levels| then last
    else if levels[j] > bound then PageFrom(levels, starts, j + 1, bound, last)
    else if starts[j].None? then PageFrom(levels, starts, j + 1, levels[j], last)
    else if starts[j].value == 0 then PageFrom(levels, starts, j + 1, levels[j] as int - 1, last)
    else starts[j].value - 1
  }

  /** The page up to which node i may reach. */
  function EndPage(levels: seq<nat>, starts: seq<Option<int>>, i: nat, last: int): int
    requires i < |levels| == |starts|
  {
    PageFrom(levels, starts, i + 1, levels[i], last)
  }

  // The same without the search.

  /** A search from position i on, among nodes no deeper than `bound`, stops at node j: its start counts, and
      every node passed on the way lies at least as deep if it has no start, and deeper otherwise. */
  ghost predicate Stops(levels: seq<nat>, starts: seq<Option<int>>, i: nat, bound: int, j: int)
    requires |levels| == |starts|
  {
    && i <= j < |levels| && Counts(starts[j]) && levels[j] <= bound
    && forall k: nat | i <= k < j :: if starts[k].None? then levels[j] <= levels[k] else levels[j] < levels[k]
  }

  /** The page before the first node of that kind, or the last page if there is none. */
  ghost predicate PageBefore(levels: seq<nat>, starts: seq<Option<int>>, i: nat, bound: int, last: int, page: int)
    requires |levels| == |starts|
  {
    || (page == last && forall j :: !Stops(levels, starts, i, bound, j))
    || exists j :: Stops(levels, starts, i, bound, j) && page == starts[j].value - 1
                   && forall k | i <= k < j :: !Stops(levels, starts, i, bound, k)
  }

  /** The first node need not be looked at: it does not stop the search, and it lowers the bound like this. */
  lemma StopsBehind(levels: seq<nat>, starts: seq<Option<int>>, i: nat, bound: int, bound': int, j: int)
    requires i < |levels| == |starts| && j > i
    requires if levels[i] > bound then bound' == bound
             else !Counts(starts[i]) && bound' == if starts[i].None? then levels[i] as int else levels[i] as int - 1
    ensures Stops(levels, starts, i, bound, j) <==> Stops(levels, starts, i + 1, bound', j)
  {
  }

  lemma PageBehind(levels: seq<nat>, starts: seq<Option<int>>, i: nat, bound: int, bound': int, last: int, page: int)
    requires i < |levels| == |starts| && PageBefore(levels, starts, i + 1, bound', last, page)
    requires if levels[i] > bound then bound' == bound
             else !Counts(starts[i]) && bound' == if starts[i].None? then levels[i] as int else levels[i] as int - 1
    ensures PageBefore(levels, starts, i, bound, last, page)
  {
    forall j ensures Stops(levels, starts, i, bound, j) <==> Stops(levels, starts, i + 1, bound', j) {
      if j > i { StopsBehind(levels, starts, i, bound, bound', j); }
    }
    assert !Stops(levels, starts, i, bound, i);
  }

  lemma {:induction false} PageFromIs(levels: seq<nat>, starts: seq<Option<int>>, i: nat, bound: int, last: int)
    requires i <= |levels| == |starts|
    ensures PageBefore(levels, starts, i, bound, last, PageFrom(levels, starts, i, bound, last))
    decreases |levels| - i
  {
    if i < |levels| {
      if levels[i] <= bound && Counts(starts[i]) {
        assert Stops(levels, starts, i, bound, i);
      } else {
        var bound' := if levels[i] > bound then bound
                      else if starts[i].None? then levels[i] as int else levels[i] as int - 1;
        PageFromIs(levels, starts, i + 1, bound', last);
        PageBehind(levels, starts, i, bound, bound', last, PageFrom(levels, starts, i, bound, last));
      }
    }
  }

  /** Node i may reach the page before the first later node, no deeper than itself, whose start counts and that
      is reached past nodes without a start at least as deep and past deeper ones. */
  lemma EndPageIs(levels: seq<nat>, starts: seq<Option<int>>, i: nat, last: int)
    requires i < |levels| == |starts|
    ensures PageBefore(levels, starts, i + 1, levels[i], last, EndPage(levels, starts, i, last))
  {
    PageFromIs(levels, starts, i + 1, levels[i], last);
  }

  lemma {:induction false} StartsInPreorder(f: Outline)
    ensures |Starts(f)| == |Preorder(f)| && forall i | 0 <= i < |Starts(f)| :: Starts(f)[i] == Preorder(f)[i].start
  {
    SizeIsPreorder(f);
    if f != [] {
      StartsInPreorder(f[0].kids);
      StartsInPreorder(f[1..]);
      SizeIsPreorder(f[0].kids);
    }
  }

  lemma {:induction false} SkipTo(levels: seq<nat>, starts: seq<Option<int>>, j: nat, k: nat, bound: int, last: int)
    requires j <= k <= |levels| == |starts| && forall l | j <= l < k :: levels[l] > bound
    ensures PageFrom(levels, starts, j, bound, last) == PageFrom(levels, starts, k, bound, last)
    decreases k - j
  {
    if j < k { SkipTo(levels, starts, j + 1, k, bound, last); }
  }

  /** What lies in front of the search does not matter. */
  lemma {:induction false} PageShift(levels: seq<nat>, starts: seq<Option<int>>, part: seq<nat>,
                                     partStarts: seq<Option<int>>, off: nat, j: nat, bound: int, last: int)
    requires |levels| == |starts| == off + |part| && |part| == |partStarts| && j <= |part|
    requires Holds(levels, part, off) && Holds(starts, partStarts, off)
    ensures PageFrom(levels, starts, j + off, bound, last) == PageFrom(part, partStarts, j, bound, last)
    decreases |part| - j
  {
    if j < |part| {
      assert part[j] == levels[j + off] && partStarts[j] == starts[j + off];
      PageShift(levels, starts, part, partStarts, off, j + 1, bound, last);
      PageShift(levels, starts, part, partStarts, off, j + 1, part[j], last);
      PageShift(levels, starts, part, partStarts, off, j + 1, part[j] as int - 1, last);
    }
  }

  /** A search that starts among the descendants of a node at depth d goes on behind them as the search
      for that node does. */
  lemma {:induction false} PageInside(levels: seq<nat>, starts: seq<Option<int>>, inner: seq<nat>,
                                      innerStarts: seq<Option<int>>, d: nat, j: nat, bound: int, last: int, limit: int)
    requires 1 + |inner| <= |levels| == |starts| && |inner| == |innerStarts| && j <= |inner| && bound >= d
    requires Holds(levels, inner, 1) && Holds(starts, innerStarts, 1) && forall k | 0 <= k < |inner| :: inner[k] > d
    requires 1 + |inner| < |levels| ==> levels[1 + |inner|] <= d
    requires limit == PageFrom(levels, starts, 1 + |inner|, d, last)
    ensures PageFrom(levels, starts, j + 1, bound, last) == PageFrom(inner, innerStarts, j, bound, limit)
    decreases |inner| - j
  {
    if j < |inner| {
      assert inner[j] == levels[j + 1] && innerStarts[j] == starts[j + 1];
      PageInside(levels, starts, inner, innerStarts, d, j + 1, bound, last, limit);
      PageInside(levels, starts, inner, innerStarts, d, j + 1, inner[j], last, limit);
      PageInside(levels, starts, inner, innerStarts, d, j + 1, inner[j] as int - 1, last, limit);
    }
  }

  lemma SameSizes(f: Outline, d: nat)
    ensures |Depths(f, d)| == |Starts(f)| == Size(f)
    ensures forall k | 0 <= k < |Depths(f, d)| :: Depths(f, d)[k] >= d
    ensures f != [] ==> Depths(f, d) != [] && Depths(f, d)[0] == d
  {
    DepthsBound(f, d);
    SizeIsPreorder(f);
  }

  /** The code's search among later siblings, with its fallback, is the search over the lists. */
  lemma {:induction false} LimitIsPage(f: Outline, d: nat, last: int)
    ensures |Depths(f, d)| == |Starts(f)|
    ensures Limit(f, last) == PageFrom(Depths(f, d), Starts(f), 0, d, last)
  {
    SameSizes(f, d);
    if f != [] {
      SameSizes(f[0].kids, d + 1);
      SameSizes(f[1..], d);
      LimitIsPage(f[1..], d, last);
      LimitOfParts(d, f[0].root.start, Depths(f[0].kids, d + 1), Starts(f[0].kids), Depths(f[1..], d), Starts(f[1..]),
                   last);
    }
  }

  lemma LimitOfParts(d: nat, start: Option<int>, inner: seq<nat>, innerStarts: seq<Option<int>>, after: seq<nat>,
                     afterStarts: seq<Option<int>>, last: int)
    requires |inner| == |innerStarts| && |after| == |afterStarts|
    requires (forall k | 0 <= k < |inner| :: inner[k] > d) && forall k | 0 <= k < |after| :: after[k] >= d
    ensures PageFrom([d] + inner + after, [start] + innerStarts + afterStarts, 0, d, last) ==
              if start.None? then PageFrom(after, afterStarts, 0, d, last)
              else if start.value == 0 then last
              else start.value - 1
  {
    var levels, starts, m := [d] + inner + after, [start] + innerStarts + afterStarts, 1 + |inner|;
    PartsHeld(d, inner, after);
    PartsHeld(start, innerStarts, afterStarts);
    forall l | 1 <= l < m ensures levels[l] > d { assert levels[l] == inner[l - 1]; }
    forall l | m <= l < |levels| ensures levels[l] >= d { assert levels[l] == after[l - m]; }
    SkipTo(levels, starts, 1, m, d, last);
    SkipTo(levels, starts, 1, |levels|, d - 1, last);
    PageShift(levels, starts, after, afterStarts, m, 0, d, last);
  }

  /** Node j has an earlier sibling, among the nodes from the first one on. */
  predicate Late(levels: seq<nat>, j: nat)
    requires j < |levels|
  {
    j > 0 && levels[j - 1] >= levels[j]
  }

  /** The nodes of [lo, hi) that have an earlier sibling start on page x at the latest, if at all. */
  ghost predicate LateBy(levels: seq<nat>, starts: seq<Option<int>>, lo: nat, hi: nat, x: int)
    requires hi <= |levels| == |starts|
  {
    forall j: nat {:trigger Late(levels, j)} | lo <= j < hi && Late(levels, j) :: By(starts[j], x)
  }

  /** A node with this limit and these nodes below it ends by page m. */
  ghost predicate OwnBy(inner: seq<nat>, innerStarts: seq<Option<int>>, limit: int, m: int)
    requires |inner| == |innerStarts|
  {
    limit <= m && LateBy(inner, innerStarts, 0, |inner|, m + 1)
  }

  /** How `LateBy` reads on a head, its descendants and the later trees. */
  lemma LateOfParts(levels: seq<nat>, starts: seq<Option<int>>, inner: seq<nat>, innerStarts: seq<Option<int>>,
                    after: seq<nat>, afterStarts: seq<Option<int>>, x: int)
    requires |inner| == |innerStarts| && |after| == |afterStarts| && |levels| == |starts| == 1 + |inner| + |after|
    requires Holds(levels, inner, 1) && Holds(starts, innerStarts, 1)
    requires Holds(levels, after, 1 + |inner|) && Holds(starts, afterStarts, 1 + |inner|)
    requires (forall k | 0 <= k < |inner| :: inner[k] > levels[0]) && (after != [] ==> after[0] == levels[0])
    ensures LateBy(levels, starts, 0, |levels|, x) <==>
              && LateBy(inner, innerStarts, 0, |inner|, x)
              && (after != [] ==> By(afterStarts[0], x)) && LateBy(after, afterStarts, 0, |after|, x)
  {
    var m := 1 + |inner|;
    forall j: nat | j < |inner| ensures Late(levels, j + 1) <==> Late(inner, j) {
      LateInPart(levels, inner, 1, j);
    }
    forall j: nat | 0 < j < |after| ensures Late(levels, j + m) <==> Late(after, j) {
      LateInPart(levels, after, m, j);
    }
    if after != [] { LateAfter(levels, inner, after); }
    if LateBy(levels, starts, 0, |levels|, x) {
      forall j: nat | j < |inner| && Late(inner, j) ensures By(innerStarts[j], x) {
        assert Late(levels, j + 1) && starts[j + 1] == innerStarts[j];
      }
      forall j: nat | j < |after| && Late(after, j) ensures By(afterStarts[j], x) {
        assert Late(levels, j + m) && starts[j + m] == afterStarts[j];
      }
      if after != [] { assert Late(levels, m) && starts[m] == afterStarts[0]; }
    } else {
      var j: nat :| j < |levels| && Late(levels, j) && !By(starts[j], x);
      if j < m {
        assert Late(inner, j - 1) && innerStarts[j - 1] == starts[j];
      } else {
        assert j > m ==> Late(after, j - m);
        assert afterStarts[j - m] == starts[j];
      }
    }
  }

  lemma LateInPart(levels: seq<nat>, part: seq<nat>, off: nat, j: nat)
    requires Holds(levels, part, off) && j < |part| && off > 0
    requires j > 0 || levels[off - 1] < part[0]
    ensures Late(levels, j + off) <==> Late(part, j)
  {
    assert part[j] == levels[j + off];
    if j > 0 { assert part[j - 1] == levels[j - 1 + off]; }
  }

  lemma LateAfter(levels: seq<nat>, inner: seq<nat>, after: seq<nat>)
    requires Holds(levels, inner, 1) && Holds(levels, after, 1 + |inner|) && after != [] && after[0] == levels[0]
    requires forall k | 0 <= k < |inner| :: inner[k] > levels[0]
    ensures Late(levels, 1 + |inner|)
  {
    assert levels[1 + |inner|] == after[0];
    if inner != [] { assert levels[|inner|] == inner[|inner| - 1]; }
  }

  ghost predicate ForestLateBy(f: Outline, d: nat, x: int)
  {
    SameSizes(f, d);
    LateBy(Depths(f, d), Starts(f), 0, Size(f), x)
  }

  /** The same for a forest. */
  lemma LateOfForest(f: Outline, d: nat, x: int)
    requires f != []
    ensures ForestLateBy(f, d, x) <==>
              && ForestLateBy(f[0].kids, d + 1, x)
              && (f[1..] != [] ==> By(f[1].root.start, x)) && ForestLateBy(f[1..], d, x)
  {
    SameSizes(f, d);
    SameSizes(f[0].kids, d + 1);
    SameSizes(f[1..], d);
    var inner, after := Depths(f[0].kids, d + 1), Depths(f[1..], d);
    PartsHeld(d, inner, after);
    PartsHeld(f[0].root.start, Starts(f[0].kids), Starts(f[1..]));
    LateOfParts(Depths(f, d), Starts(f), inner, Starts(f[0].kids), after, Starts(f[1..]), x);
  }

  /** If all siblings but the first, and the first too, start by page m + 1, the search among them ends by m. */
  lemma {:induction false} LimitBy(f: Outline, d: nat, last: int, m: int)
    requires f != [] && last <= m && By(f[0].root.start, m + 1) && ForestLateBy(f, d, m + 1)
    ensures Limit(f, last) <= m
  {
    LateOfForest(f, d, m + 1);
    if f[0].root.start.None? {
      assert FirstStart(f) == FirstStart(f[1..]) && Limit(f, last) == Limit(f[1..], last);
      if f[1..] != [] { LimitBy(f[1..], d, last, m); }
    }
  }

  /** A node ends by page m exactly when its own limit does and no later sibling below it starts after
      page m + 1. */
  lemma {:induction false} OwnEndBy(t: Tree<Item>, limit: int, d: nat, m: int)
    ensures OwnEnd(t, limit) <= m <==> limit <= m && ForestLateBy(t.kids, d, m + 1)
    decreases t
  {
    SameSizes(t.kids, d);
    if t.kids != [] {
      SiblingsEndBy(t.kids, limit, d, m);
      MaxToIs(SiblingEnds(t.kids, limit), |t.kids|);
    }
  }

  ghost predicate AllBy(s: seq<int>, m: int) { forall k | 0 <= k < |s| :: s[k] <= m }

  lemma AllByCons(x: int, s: seq<int>, m: int)
    ensures AllBy([x] + s, m) <==> x <= m && AllBy(s, m)
  {
    assert ([x] + s)[0] == x && forall k | 0 <= k < |s| :: ([x] + s)[k + 1] == s[k];
  }

  lemma {:induction false} SiblingsEndBy(f: Outline, last: int, d: nat, m: int)
    requires f != []
    ensures AllBy(SiblingEnds(f, last), m) <==> last <= m && ForestLateBy(f, d, m + 1)
    decreases f
  {
    var limit := Limit(f[1..], last);
    LateOfForest(f, d, m + 1);
    OwnEndBy(f[0], limit, d + 1, m);
    AllByCons(OwnEnd(f[0], limit), SiblingEnds(f[1..], last), m);
    if f[1..] != [] {
      SiblingsEndBy(f[1..], last, d, m);
      if last <= m && By(f[1].root.start, m + 1) && ForestLateBy(f[1..], d, m + 1) { LimitBy(f[1..], d, last, m); }
    }
  }

  /** Node i ends by page m, by what its position allows and by the later siblings below it. */
  ghost predicate EndsBy(levels: seq<nat>, starts: seq<Option<int>>, i: nat, last: int, m: int)
    requires i < |levels| == |starts|
  {
    EndPage(levels, starts, i, last) <= m && LateBy(levels, starts, i + 1, End(levels, i, |levels|), m + 1)
  }

  lemma LateByShift(levels: seq<nat>, starts: seq<Option<int>>, part: seq<nat>, partStarts: seq<Option<int>>,
                    off: nat, lo: nat, hi: nat, x: int)
    requires |levels| == |starts| && |part| == |partStarts| && lo <= hi <= |part|
    requires Holds(levels, part, off) && Holds(starts, partStarts, off) && off > 0
    requires lo > 0 || part == [] || levels[off - 1] < part[0]
    ensures LateBy(levels, starts, lo + off, hi + off, x) <==> LateBy(part, partStarts, lo, hi, x)
  {
    forall j: nat | lo <= j < hi ensures Late(levels, j + off) <==> Late(part, j) {
      LateInPart(levels, part, off, j);
    }
    if LateBy(levels, starts, lo + off, hi + off, x) {
      forall j: nat | lo <= j < hi && Late(part, j) ensures By(partStarts[j], x) {
        assert Late(levels, j + off) && starts[j + off] == partStarts[j];
      }
    } else {
      var j: nat :| lo + off <= j < hi + off && Late(levels, j) && !By(starts[j], x);
      assert Late(part, j - off) && partStarts[j - off] == starts[j];
    }
  }

  lemma EndInPart(levels: seq<nat>, part: seq<nat>, off: nat, i: nat)
    requires Holds(levels, part, off) && i < |part|
    requires off + |part| < |levels| ==> levels[off + |part|] <= part[i]
    ensures End(levels, i + off, |levels|) == End(part, i, |part|) + off
  {
    var e := End(part, i, |part|);
    forall k | i + off < k < e + off ensures levels[k] > levels[i + off] { assert levels[k] == part[k - off]; }
    assert levels[i + off] == part[i];
    if e < |part| { assert levels[e + off] == part[e]; }
    TreeBuilder.EndIs(levels, i + off, |levels|, e + off);
  }

  lemma EndsByInPart(levels: seq<nat>, starts: seq<Option<int>>, part: seq<nat>, partStarts: seq<Option<int>>,
                     off: nat, i: nat, last: int, limit: int, m: int)
    requires |levels| == |starts| && |part| == |partStarts| && i < |part|
    requires Holds(levels, part, off) && Holds(starts, partStarts, off) && off > 0
    requires off + |part| < |levels| ==> levels[off + |part|] <= part[i]
    requires EndPage(levels, starts, i + off, last) == EndPage(part, partStarts, i, limit)
    ensures EndsBy(levels, starts, i + off, last, m) <==> EndsBy(part, partStarts, i, limit, m)
  {
    EndInPart(levels, part, off, i);
    LateByShift(levels, starts, part, partStarts, off, i + 1, End(part, i, |part|), m + 1);
  }

  /** A list of levels and starts: a head, the nodes below it, and the later trees. */
  ghost predicate Headed(levels: seq<nat>, starts: seq<Option<int>>, inner: seq<nat>, innerStarts: seq<Option<int>>,
                         after: seq<nat>, afterStarts: seq<Option<int>>)
  {
    && |levels| == |starts| == 1 + |inner| + |after| && |inner| == |innerStarts| && |after| == |afterStarts|
    && Holds(levels, inner, 1) && Holds(starts, innerStarts, 1)
    && Holds(levels, after, 1 + |inner|) && Holds(starts, afterStarts, 1 + |inner|)
    && (forall k | 0 <= k < |inner| :: inner[k] > levels[0])
    && (after != [] ==> levels[1 + |inner|] == levels[0])
  }

  lemma HeadEndsBy(levels: seq<nat>, starts: seq<Option<int>>, inner: seq<nat>, innerStarts: seq<Option<int>>,
                   after: seq<nat>, afterStarts: seq<Option<int>>, last: int, limit: int, m: int)
    requires Headed(levels, starts, inner, innerStarts, after, afterStarts)
    requires limit == PageFrom(levels, starts, 1 + |inner|, levels[0], last)
    ensures EndsBy(levels, starts, 0, last, m) <==> OwnBy(inner, innerStarts, limit, m)
  {
    forall k | 0 < k < 1 + |inner| ensures levels[k] > levels[0] { assert levels[k] == inner[k - 1]; }
    TreeBuilder.EndIs(levels, 0, |levels|, 1 + |inner|);
    SkipTo(levels, starts, 1, 1 + |inner|, levels[0], last);
    LateByShift(levels, starts, inner, innerStarts, 1, 0, |inner|, m + 1);
  }

  lemma InnerEndsBy(levels: seq<nat>, starts: seq<Option<int>>, inner: seq<nat>, innerStarts: seq<Option<int>>,
                    after: seq<nat>, afterStarts: seq<Option<int>>, last: int, limit: int, i: nat, m: int)
    requires Headed(levels, starts, inner, innerStarts, after, afterStarts) && i < |inner|
    requires limit == PageFrom(levels, starts, 1 + |inner|, levels[0], last)
    ensures EndsBy(levels, starts, i + 1, last, m) <==> EndsBy(inner, innerStarts, i, limit, m)
  {
    assert inner[i] == levels[i + 1];
    PageInside(levels, starts, inner, innerStarts, levels[0], i + 1, inner[i], last, limit);
    EndsByInPart(levels, starts, inner, innerStarts, 1, i, last, limit, m);
  }

  lemma AfterEndsBy(levels: seq<nat>, starts: seq<Option<int>>, inner: seq<nat>, innerStarts: seq<Option<int>>,
                    after: seq<nat>, afterStarts: seq<Option<int>>, last: int, i: nat, m: int)
    requires Headed(levels, starts, inner, innerStarts, after, afterStarts) && i < |after|
    ensures EndsBy(levels, starts, i + (1 + |inner|), last, m) <==> EndsBy(after, afterStarts, i, last, m)
  {
    var off := 1 + |inner|;
    assert after[i] == levels[i + off];
    PageShift(levels, starts, after, afterStarts, off, i + 1, after[i], last);
    EndsByInPart(levels, starts, after, afterStarts, off, i, last, last, m);
  }

  /** The ends are exactly those the lists of levels and starts determine. */
  ghost predicate Exact(levels: seq<nat>, starts: seq<Option<int>>, ends: seq<int>, last: int)
  {
    && |levels| == |starts| == |ends|
    && forall i: nat, m: int {:trigger EndsBy(levels, starts, i, last, m)} | i < |levels| ::
         ends[i] <= m <==> EndsBy(levels, starts, i, last, m)
  }

  /** One node of a list made of a head, its descendants and the later trees. */
  lemma ExactOfLists(levels: seq<nat>, starts: seq<Option<int>>, ends: seq<int>,
                     inner: seq<nat>, innerStarts: seq<Option<int>>, innerEnds: seq<int>,
                     after: seq<nat>, afterStarts: seq<Option<int>>, afterEnds: seq<int>,
                     limit: int, last: int, i: nat, m: int)
    requires Exact(inner, innerStarts, innerEnds, limit) && Exact(after, afterStarts, afterEnds, last)
    requires Headed(levels, starts, inner, innerStarts, after, afterStarts) && i < |levels| == |ends|
    requires Holds(ends, innerEnds, 1) && Holds(ends, afterEnds, 1 + |inner|)
    requires limit == PageFrom(levels, starts, 1 + |inner|, levels[0], last)
    requires i == 0 ==> (ends[0] <= m <==> OwnBy(inner, innerStarts, limit, m))
    ensures ends[i] <= m <==> EndsBy(levels, starts, i, last, m)
  {
    var n := |inner|;
    if i == 0 {
      HeadEndsBy(levels, starts, inner, innerStarts, after, afterStarts, last, limit, m);
    } else if i <= n {
      assert ends[i] == innerEnds[i - 1];
      InnerEndsBy(levels, starts, inner, innerStarts, after, afterStarts, last, limit, i - 1, m);
    } else {
      assert ends[i] == afterEnds[i - 1 - n];
      AfterEndsBy(levels, starts, inner, innerStarts, after, afterStarts, last, i - 1 - n, m);
    }
  }

  lemma PartsHeaded(d: nat, inner: seq<nat>, after: seq<nat>, s: Option<int>, innerStarts: seq<Option<int>>,
                    afterStarts: seq<Option<int>>, last: int)
    requires |inner| == |innerStarts| && |after| == |afterStarts|
    requires (forall k | 0 <= k < |inner| :: inner[k] > d) && (after != [] ==> after[0] == d)
    ensures var levels, starts := [d] + inner + after, [s] + innerStarts + afterStarts;
            && Headed(levels, starts, inner, innerStarts, after, afterStarts)
            && PageFrom(levels, starts, 1 + |inner|, d, last) == PageFrom(after, afterStarts, 0, d, last)
  {
    var levels, starts := [d] + inner + after, [s] + innerStarts + afterStarts;
    PartsHeld(d, inner, after);
    PartsHeld(s, innerStarts, afterStarts);
    PageShift(levels, starts, after, afterStarts, 1 + |inner|, 0, d, last);
  }

  lemma ExactOfParts(d: nat, inner: seq<nat>, after: seq<nat>, s: Option<int>, innerStarts: seq<Option<int>>,
                     afterStarts: seq<Option<int>>, own: int, innerEnds: seq<int>, afterEnds: seq<int>,
                     limit: int, last: int)
    requires Exact(inner, innerStarts, innerEnds, limit) && Exact(after, afterStarts, afterEnds, last)
    requires (forall k | 0 <= k < |inner| :: inner[k] > d) && (after != [] ==> after[0] == d)
    requires limit == PageFrom(after, afterStarts, 0, d, last)
    requires forall m: int {:trigger OwnBy(inner, innerStarts, limit, m)} ::
               own <= m <==> OwnBy(inner, innerStarts, limit, m)
    ensures Exact([d] + inner + after, [s] + innerStarts + afterStarts, [own] + innerEnds + afterEnds, last)
  {
    var levels, starts, ends := [d] + inner + after, [s] + innerStarts + afterStarts, [own] + innerEnds + afterEnds;
    PartsHeaded(d, inner, after, s, innerStarts, afterStarts, last);
    PartsHeld(own, innerEnds, afterEnds);
    forall i: nat, m: int {:trigger EndsBy(levels, starts, i, last, m)} | i < |levels|
      ensures ends[i] <= m <==> EndsBy(levels, starts, i, last, m)
    {
      assert own <= m <==> OwnBy(inner, innerStarts, limit, m);
      ExactOfLists(levels, starts, ends, inner, innerStarts, innerEnds, after, afterStarts, afterEnds, limit, last, i,
                   m);
    }
  }

  /** For every outline, whatever its starts: a node ends by page m exactly when the page its position
      allows is at most m, and every node below it that has an earlier sibling starts by page m + 1 or has
      no start that counts. */
  lemma {:induction false} EndsExactly(f: Outline, d: nat, last: int)
    ensures Exact(Depths(f, d), Starts(f), Ends(f, last), last)
  {
    if f != [] {
      var limit := Limit(f[1..], last);
      SameSizes(f[0].kids, d + 1);
      SameSizes(f[1..], d);
      LimitIsPage(f[1..], d, last);
      EndsExactly(f[0].kids, d + 1, limit);
      EndsExactly(f[1..], d, last);
      forall m: int {:trigger OwnBy(Depths(f[0].kids, d + 1), Starts(f[0].kids), limit, m)}
        ensures OwnEnd(f[0], limit) <= m <==> OwnBy(Depths(f[0].kids, d + 1), Starts(f[0].kids), limit, m)
      {
        OwnEndBy(f[0], limit, d + 1, m);
      }
      ExactOfParts(d, Depths(f[0].kids, d + 1), Depths(f[1..], d), f[0].root.start, Starts(f[0].kids), Starts(f[1..]),
                   OwnEnd(f[0], limit), Ends(f[0].kids, limit), Ends(f[1..], last), limit, last);
    }
  }

  /** The same for one node and one page. */
  lemma EndsExactlyAt(f: Outline, last: int, i: nat, m: int)
    requires i < Size(f)
    ensures |Depths(f, 0)| == |Starts(f)| == |Ends(f, last)| == Size(f)
    ensures Ends(f, last)[i] <= m <==> EndsBy(Depths(f, 0), Starts(f), i, last, m)
  {
    EndsExactly(f, 0, last);
  }

  /** If the next node outside has a start that counts, the position allows the pages before it. */
  lemma NextPage(levels: seq<nat>, starts: seq<Option<int>>, i: nat, last: int)
    requires i < |levels| == |starts|
    ensures var e := End(levels, i, |levels|);
            && (e == |levels| ==> EndPage(levels, starts, i, last) == last)
            && (e < |levels| && Counts(starts[e]) ==> EndPage(levels, starts, i, last) == starts[e].value - 1)
  {
    SkipTo(levels, starts, i + 1, End(levels, i, |levels|), levels[i], last);
  }

  /** A node overlaps the next node outside it, if that has a start that counts, exactly when some node below
      it that has an earlier sibling starts after that next node. */
  lemma OverlapsExactly(f: Outline, last: int, i: nat)
    requires i < Size(f)
    ensures |Depths(f, 0)| == |Starts(f)| == Size(f)
    ensures var levels, starts, e := Depths(f, 0), Starts(f), End(Depths(f, 0), i, Size(f));
            e < Size(f) && Counts(starts[e]) ==>
              (Ends(f, last)[i] >= starts[e].value <==>
                 exists j: nat {:trigger Late(levels, j)} ::
                   i < j < e && Late(levels, j) && Counts(starts[j]) && starts[j].value > starts[e].value)
  {
    var levels, starts := Depths(f, 0), Starts(f);
    SameSizes(f, 0);
    var e := End(levels, i, Size(f));
    if e < Size(f) && Counts(starts[e]) {
      NextPage(levels, starts, i, last);
      EndsExactlyAt(f, last, i, starts[e].value - 1);
    }
  }

  // ---- Outlines in page order --------------------------------------------------------------------------

  /** The starts that count do not go back, and none lies beyond the page after the last one. */
  predicate Ordered(starts: seq<Option<int>>, last: int)
  {
    && (forall i | 0 <= i < |starts| :: By(starts[i], last + 1))
    && forall i, j | 0 <= i < j < |starts| && Counts(starts[j]) :: By(starts[i], starts[j].value)
  }

  predicate Present(starts: seq<Option<int>>) { forall i | 0 <= i < |starts| :: Counts(starts[i]) }

  /** The search ends with the last page or before a node it has come to. */
  lemma {:induction false} PageIs(levels: seq<nat>, starts: seq<Option<int>>, j: nat, bound: int, last: int)
    requires j <= |levels| == |starts|
    ensures var page := PageFrom(levels, starts, j, bound, last);
            page == last || exists k :: j <= k < |levels| && Counts(starts[k]) && page == starts[k].value - 1
    decreases |levels| - j
  {
    if j < |levels| {
      PageIs(levels, starts, j + 1, bound, last);
      PageIs(levels, starts, j + 1, levels[j], last);
      PageIs(levels, starts, j + 1, levels[j] as int - 1, last);
    }
  }

  lemma OrderedLate(levels: seq<nat>, starts: seq<Option<int>>, i: nat, last: int)
    requires i < |levels| == |starts| && Ordered(starts, last)
    ensures EndsBy(levels, starts, i, last, EndPage(levels, starts, i, last))
  {
    var e := End(levels, i, |levels|);
    SkipTo(levels, starts, i + 1, e, levels[i], last);
    PageIs(levels, starts, e, levels[i], last);
  }

  /** For an outline in page order, with starts missing or not, every node ends exactly where its position
      allows. */
  lemma EndsAreEndPages(f: Outline, last: int, i: nat)
    requires Ordered(Starts(f), last) && i < Size(f)
    ensures |Depths(f, 0)| == |Starts(f)| == |Ends(f, last)| == Size(f)
    ensures Ends(f, last)[i] == EndPage(Depths(f, 0), Starts(f), i, last)
    ensures PageBefore(Depths(f, 0), Starts(f), i + 1, Depths(f, 0)[i], last, Ends(f, last)[i])
  {
    SameSizes(f, 0);
    OrderedLate(Depths(f, 0), Starts(f), i, last);
    EndsExactlyAt(f, last, i, EndPage(Depths(f, 0), Starts(f), i, last));
    EndsExactlyAt(f, last, i, Ends(f, last)[i]);
    EndPageIs(Depths(f, 0), Starts(f), i, last);
  }

  lemma NestedPages(levels: seq<nat>, starts: seq<Option<int>>, i: nat, k: nat, last: int)
    requires i < k < |levels| == |starts| && Ordered(starts, last) && Present(starts)
    ensures k < End(levels, i, |levels|) ==> EndPage(levels, starts, k, last) <= EndPage(levels, starts, i, last)
    ensures k >= End(levels, i, |levels|) ==> EndPage(levels, starts, i, last) < starts[k].value
  {
    NextPage(levels, starts, i, last);
    NextPage(levels, starts, k, last);
    var ei, ek := End(levels, i, |levels|), End(levels, k, |levels|);
    if k < ei {
      assert ei < |levels| ==> levels[ei] <= levels[i] < levels[k];
      assert ek <= ei;
    }
  }

  /** Page ranges nest like the nodes: a descendant's range lies inside its ancestor's, and a node
      that is no descendant starts only after the earlier node's range has ended. */
  lemma RangesNest(f: Outline, last: int, i: nat, k: nat)
    requires Ordered(Starts(f), last) && Present(Starts(f)) && i < k < Size(f)
    ensures |Depths(f, 0)| == Size(f)
    ensures k < End(Depths(f, 0), i, Size(f)) ==>
              Starts(f)[i].value <= Starts(f)[k].value && Ends(f, last)[k] <= Ends(f, last)[i]
    ensures k >= End(Depths(f, 0), i, Size(f)) ==> Ends(f, last)[i] < Starts(f)[k].value
  {
    EndsAreEndPages(f, last, i);
    EndsAreEndPages(f, last, k);
    NestedPages(Depths(f, 0), Starts(f), i, k, last);
  }

  /** A node is left without any page exactly when the next node outside it starts on its own page. */
  lemma EmptyRange(f: Outline, last: int, i: nat)
    requires Ordered(Starts(f), last) && Present(Starts(f)) && i < Size(f)
    ensures |Depths(f, 0)| == Size(f)
    ensures Ends(f, last)[i] < Starts(f)[i].value <==>
              var e := End(Depths(f, 0), i, Size(f));
              if e < Size(f) then Starts(f)[e] == Starts(f)[i] else Starts(f)[i].value == last + 1
  {
    EndsAreEndPages(f, last, i);
    NextPage(Depths(f, 0), Starts(f), i, last);
  }

  /** Page order is needed: with children on pages 2 and 10 below a node on page 1 whose next sibling starts
      on page 3, the node ends on page 9. */
  function Disordered(): Outline
  {
    [Tree(Item("a", Some(1)), [Tree(Item("b", Some(2)), []), Tree(Item("c", Some(10)), [])]),
     Tree(Item("z", Some(3)), [])]
  }

  lemma DisorderedStarts()
    ensures Starts(Disordered()) == [Some(1), Some(2), Some(10), Some(3)] && Depths(Disordered(), 0) == [0, 1, 1, 0]
    ensures Size(Disordered()) == 4
  {
    var f := Disordered();
    var b, c, z := f[0].kids[0], f[0].kids[1], f[1];
    assert f[1..] == [z] && f[0].kids[1..] == [c] && [z][1..] == [] && [c][1..] == [];
    assert Starts([c]) == [Some(10)] && Starts(f[0].kids) == [Some(2), Some(10)] && Starts([z]) == [Some(3)];
    assert Depths([c], 1) == [1] && Depths(f[0].kids, 1) == [1, 1] && Depths([z], 0) == [0];
    assert Size([c]) == 1 && Size(f[0].kids) == 2 && Size([z]) == 1;
  }

  lemma DisorderedOverlaps(last: int)
    ensures Size(Disordered()) == 4 && Starts(Disordered())[3] == Some(3)
    ensures Ends(Disordered(), last)[0] == 9
  {
    var f := Disordered();
    DisorderedStarts();
    var levels, starts := [0, 1, 1, 0], [Some(1), Some(2), Some(10), Some(3)];
    TreeBuilder.EndIs(levels, 0, 4, 3);
    NextPage(levels, starts, 0, last);
    assert Late(levels, 2) && !Late(levels, 1);
    EndsExactlyAt(f, last, 0, 9);
    EndsExactlyAt(f, last, 0, 8);
  }
}
