// `page_list_to_group_text`: pages are grouped into runs of bounded size that overlap by some pages.
module PageGroups {
  /** tokens[a] + ... + tokens[b - 1] */
  function Sum(tokens: seq<nat>, a: nat, b: nat): nat
    requires a <= b <= |tokens|
  {
    if a == b then 0 else Sum(tokens, a, b - 1) + tokens[b - 1]
  }

  /** math.ceil(a / b) */
  function CeilDiv(a: nat, b: nat): (q: nat)
    requires b > 0
    ensures (q - 1) * b < a <= q * b || a == q == 0
  {
    (a + b - 1) / b
  }

  /** math.ceil(((total / parts) + maxTokens) / 2), as a fraction over 2 * parts. */
  function Average(total: nat, maxTokens: nat): nat
    requires 0 < maxTokens < total
  {
    var parts := CeilDiv(total, maxTokens);
    CeilDiv(total + maxTokens * parts, 2 * parts)
  }

  lemma CeilBound(a: nat, b: nat, m: nat)
    requires b > 0 && a <= m * b
    ensures CeilDiv(a, b) <= m
  {
    var q := CeilDiv(a, b);
    if q > m { MulGrows(m, q - 1, b); }
  }

  lemma MulGrows(x: nat, y: nat, b: nat)
    requires x <= y
    ensures x * b <= y * b
  {
  }

  /** The rounded average never exceeds the limit. */
  lemma AverageWithin(total: nat, maxTokens: nat)
    requires 0 < maxTokens < total
    ensures 0 < CeilDiv(total, maxTokens) && Average(total, maxTokens) <= maxTokens
  {
    var parts := CeilDiv(total, maxTokens);
    assert parts > 0 && total <= parts * maxTokens;
    assert total + maxTokens * parts <= maxTokens * (2 * parts);
    CeilBound(total + maxTokens * parts, 2 * parts, maxTokens);
  }

  /** The rounded average as the source writes it: the least integer that is not below half of total / parts plus
      the limit, where parts is the least number of parts that could hold everything. */
  ghost predicate IsAverage(total: nat, maxTokens: nat, average: int)
  {
    exists parts: nat ::
      && parts > 0 && (parts - 1) * maxTokens < total <= parts * maxTokens
      && average as real - 1.0 < (total as real / parts as real + maxTokens as real) / 2.0 <= average as real
  }

  /** Comparing with the fraction is comparing with its numerator. */
  lemma HalfBelow(total: nat, parts: nat, maxTokens: nat, a: int)
    requires parts > 0
    ensures (total as real / parts as real + maxTokens as real) / 2.0 <= a as real
            <==> total + maxTokens * parts <= a * (2 * parts)
  {
    var x, p, m := total as real / parts as real, parts as real, maxTokens as real;
    assert x * p == total as real;
    assert (x + m) * p == total as real + m * p;
    ScaleUp((x + m) / 2.0, a as real, 2.0 * p);
    assert (x + m) / 2.0 * (2.0 * p) == (x + m) * p;
    assert m * p == (maxTokens * parts) as real && a as real * (2.0 * p) == (a * (2 * parts)) as real;
  }

  lemma ScaleUp(x: real, y: real, c: real)
    requires c > 0.0
    ensures x <= y <==> x * c <= y * c
  {
  }

  lemma OneCeil(a: nat, b: nat, p: nat, q: nat)
    requires b > 0 && p > 0 && q > 0 && (p - 1) * b < a <= p * b && (q - 1) * b < a <= q * b
    ensures p == q
  {
    if p < q { MulGrows(p, q - 1, b); }
    if q < p { MulGrows(q, p - 1, b); }
  }

  /** The computed average is that number, and no other is. */
  lemma AverageIs(total: nat, maxTokens: nat, average: int)
    requires 0 < maxTokens < total
    ensures IsAverage(total, maxTokens, average) <==> average == Average(total, maxTokens)
  {
    var parts, a := CeilDiv(total, maxTokens), Average(total, maxTokens);
    HalfBelow(total, parts, maxTokens, a);
    HalfBelow(total, parts, maxTokens, a - 1);
    if IsAverage(total, maxTokens, average) {
      var p: nat :| p > 0 && (p - 1) * maxTokens < total <= p * maxTokens
                    && average as real - 1.0 < (total as real / p as real + maxTokens as real) / 2.0 <= average as real;
      OneCeil(total, maxTokens, p, parts);
    }
  }

  // ---- The groups as page ranges -----------------------------------------------------------------

  /** Pages first, ..., end - 1. */
  datatype Group = Group(first: nat, end: nat)

  function OverlapStart(i: nat, overlap: nat): nat { if i >= overlap then i - overlap else 0 }

  /** The loop from page i on, with pages first, ..., i - 1 in the current subset. */
  function Groups(tokens: seq<nat>, limit: nat, overlap: nat, first: nat, i: nat): seq<Group>
    requires first <= i <= |tokens|
    decreases |tokens| - i
  {
    if i == |tokens| then (if first < i then [Group(first, i)] else [])
    else if Sum(tokens, first, i) + tokens[i] > limit then
      [Group(first, i)] + Groups(tokens, limit, overlap, OverlapStart(i, overlap), i + 1)
    else Groups(tokens, limit, overlap, first, i + 1)
  }

  function PageGroups(tokens: seq<nat>, maxTokens: nat, overlap: nat): seq<Group>
    requires maxTokens > 0
  {
    var total := Sum(tokens, 0, |tokens|);
    if total <= maxTokens then [Group(0, |tokens|)]
    else Groups(tokens, Average(total, maxTokens), overlap, 0, 0)
  }

  /** ''.join(parts) */
  function Join(parts: seq<string>): string
  {
    if parts == [] then "" else parts[0] + Join(parts[1..])
  }

  predicate InRange(groups: seq<Group>, n: nat)
  {
    forall k | 0 <= k < |groups| :: groups[k].first <= groups[k].end <= n
  }

  function Texts(contents: seq<string>, groups: seq<Group>): seq<string>
    requires InRange(groups, |contents|)
  {
    if groups == [] then [] else [Join(contents[groups[0].first..groups[0].end])] + Texts(contents, groups[1..])
  }

  // ---- The code -------------------------------------------------------------------------------------

  lemma {:induction false} GroupsInRange(tokens: seq<nat>, limit: nat, overlap: nat, first: nat, i: nat)
    requires first <= i <= |tokens|
    ensures InRange(Groups(tokens, limit, overlap, first, i), |tokens|)
    decreases |tokens| - i
  {
    if i < |tokens| {
      if Sum(tokens, first, i) + tokens[i] > limit {
        GroupsInRange(tokens, limit, overlap, OverlapStart(i, overlap), i + 1);
      } else {
        GroupsInRange(tokens, limit, overlap, first, i + 1);
      }
    }
  }

  method SumOf(tokens: seq<nat>, a: nat, b: nat) returns (total: nat)
    requires a <= b <= |tokens|
    ensures total == Sum(tokens, a, b)
  {
    total := 0;
    for i := a to b
      invariant total == Sum(tokens, a, i)
    {
      total := total + tokens[i];
    }
  }

  lemma TextsCons(contents: seq<string>, done: seq<string>, g: Group, rest: seq<Group>)
    requires g.first <= g.end <= |contents| && InRange(rest, |contents|)
    ensures InRange([g] + rest, |contents|)
    ensures done + Texts(contents, [g] + rest) == done + [Join(contents[g.first..g.end])] + Texts(contents, rest)
  {
    assert ([g] + rest)[0] == g && ([g] + rest)[1..] == rest;
  }

  /** What is still to come after page i has been put away. */
  ghost predicate Pending(contents: seq<string>, tokens: seq<nat>, limit: nat, overlap: nat, first: nat, i: nat,
                          all: seq<string>,
                          subsets: seq<string>)
  {
    && first <= i <= |tokens| && InRange(Groups(tokens, limit, overlap, first, i), |contents|)
    && all == subsets + Texts(contents, Groups(tokens, limit, overlap, first, i))
  }

  lemma PendingFlush(contents: seq<string>, tokens: seq<nat>, limit: nat, overlap: nat, first: nat, i: nat,
                     all: seq<string>,
                     subsets: seq<string>)
    requires |contents| == |tokens| && i < |tokens| && Pending(contents, tokens, limit, overlap, first, i, all, subsets)
    ensures if Sum(tokens, first, i) + tokens[i] > limit
            then Pending(contents, tokens, limit, overlap, OverlapStart(i, overlap), i + 1, all, subsets +
                           [Join(contents[first..i])])
            else Pending(contents, tokens, limit, overlap, first, i + 1, all, subsets)
  {
    if Sum(tokens, first, i) + tokens[i] > limit {
      var rest := Groups(tokens, limit, overlap, OverlapStart(i, overlap), i + 1);
      GroupsInRange(tokens, limit, overlap, OverlapStart(i, overlap), i + 1);
      TextsCons(contents, subsets, Group(first, i), rest);
    }
  }

  lemma PendingEnd(contents: seq<string>, tokens: seq<nat>, limit: nat, overlap: nat, first: nat, all: seq<string>,
                   subsets: seq<string>)
    requires |contents| == |tokens| && Pending(contents, tokens, limit, overlap, first, |tokens|, all, subsets)
    ensures all == if first < |tokens| then subsets + [Join(contents[first..|contents|])] else subsets
  {
    if first < |tokens| {
      assert Groups(tokens, limit, overlap, first, |tokens|) == [Group(first, |contents|)] + [];
      TextsCons(contents, subsets, Group(first, |contents|), []);
    }
  }

  /** One page: flush the current subset if the page does not fit, then add the page. */
  method AddPage(contents: seq<string>, tokens: seq<nat>, limit: nat, overlap: nat, i: nat, ghost first: nat,
                 ghost all: seq<string>,
                 subsets: seq<string>, current: seq<string>, count: nat)
      returns (ghost first': nat, subsets': seq<string>, current': seq<string>, count': nat)
    requires |contents| == |tokens| && i < |tokens| && Pending(contents, tokens, limit, overlap, first, i, all, subsets)
    requires current == contents[first..i] && count == Sum(tokens, first, i)
    ensures Pending(contents, tokens, limit, overlap, first', i + 1, all, subsets')
    ensures current' == contents[first'..i + 1] && count' == Sum(tokens, first', i + 1)
  {
    PendingFlush(contents, tokens, limit, overlap, first, i, all, subsets);
    first', subsets', current', count' := first, subsets, current, count;
    if count + tokens[i] > limit {
      subsets' := subsets + [Join(current)];
      var overlapStart := if i >= overlap then i - overlap else 0;
      first' := overlapStart;
      current' := contents[overlapStart..i];
      count' := SumOf(tokens, overlapStart, i);
    }
    current' := current' + [contents[i]];
    count' := count' + tokens[i];
  }

  method Divide(contents: seq<string>, tokens: seq<nat>, limit: nat, overlap: nat) returns (subsets: seq<string>)
    requires |contents| == |tokens|
    ensures InRange(Groups(tokens, limit, overlap, 0, 0), |contents|)
    ensures subsets == Texts(contents, Groups(tokens, limit, overlap, 0, 0))
  {
    GroupsInRange(tokens, limit, overlap, 0, 0);
    ghost var first: nat, all := 0, Texts(contents, Groups(tokens, limit, overlap, 0, 0));
    subsets := [];
    var current: seq<string>, count: nat := [], 0;
    for i := 0 to |contents|
      invariant Pending(contents, tokens, limit, overlap, first, i, all, subsets)
      invariant current == contents[first..i] && count == Sum(tokens, first, i)
    {
      first, subsets, current, count := AddPage(contents, tokens, limit, overlap, i, first, all, subsets, current,
                                                count);
    }
    PendingEnd(contents, tokens, limit, overlap, first, all, subsets);
    if current != [] { subsets := subsets + [Join(current)]; }
  }

  method PageListToGroupText(contents: seq<string>, tokens: seq<nat>, maxTokens: nat, overlap: nat)
      returns (subsets: seq<string>)
    requires |contents| == |tokens| && maxTokens > 0
    ensures InRange(PageGroups(tokens, maxTokens, overlap), |contents|)
    ensures subsets == Texts(contents, PageGroups(tokens, maxTokens, overlap))
    ensures exists groups :: Divides(tokens, maxTokens, overlap, groups) && HoldTexts(contents, groups, subsets)
  {
    GroupsDivide(tokens, maxTokens, overlap);
    TextsHeld(contents, tokens, maxTokens, overlap);
    var total := SumOf(tokens, 0, |tokens|);
    if total <= maxTokens {
      assert contents[0..|contents|] == contents;
      return [Join(contents)];
    }
    var parts := CeilDiv(total, maxTokens);
    AverageWithin(total, maxTokens);
    var average := CeilDiv(total + maxTokens * parts, 2 * parts);
    subsets := Divide(contents, tokens, average, overlap);
  }

  // ---- What the groups are -----------------------------------------------------------------------------

  /** Each group continues where the previous one ended, after repeating at most `overlap` pages, and the
      last one ends with the last page. */
  predicate Chained(groups: seq<Group>, end: nat, overlap: nat, n: nat)
    decreases |groups|
  {
    if groups == [] then end == n
    else
      && groups[0].first == OverlapStart(end, overlap) && end < groups[0].end <= n
      && Chained(groups[1..], groups[0].end, overlap, n)
  }

  lemma {:induction false} GroupsChain(tokens: seq<nat>, limit: nat, overlap: nat, end: nat, i: nat)
    requires end < i <= |tokens|
    ensures Chained(Groups(tokens, limit, overlap, OverlapStart(end, overlap), i), end, overlap, |tokens|)
    decreases |tokens| - i
  {
    var first := OverlapStart(end, overlap);
    var groups := Groups(tokens, limit, overlap, first, i);
    if i < |tokens| {
      if Sum(tokens, first, i) + tokens[i] > limit {
        GroupsChain(tokens, limit, overlap, i, i + 1);
        assert groups[1..] == Groups(tokens, limit, overlap, OverlapStart(i, overlap), i + 1);
      } else {
        GroupsChain(tokens, limit, overlap, end, i + 1);
      }
    } else {
      assert groups[1..] == [];
    }
  }

  /** The first group starts with the first page; it is empty when that page alone is too large. */
  lemma {:induction false} FirstGroup(tokens: seq<nat>, limit: nat, overlap: nat, i: nat)
    requires i <= |tokens| && tokens != []
    ensures var groups := Groups(tokens, limit, overlap, 0, i);
            && groups != [] && groups[0].first == 0 && i <= groups[0].end <= |tokens|
            && Chained(groups[1..], groups[0].end, overlap, |tokens|)
            && (Sum(tokens, 0, i) <= limit ==> Sum(tokens, 0, groups[0].end) <= limit)
    decreases |tokens| - i
  {
    var groups := Groups(tokens, limit, overlap, 0, i);
    if i == |tokens| {
      assert groups[1..] == [];
    } else if Sum(tokens, 0, i) + tokens[i] > limit {
      assert groups[1..] == Groups(tokens, limit, overlap, OverlapStart(i, overlap), i + 1);
      GroupsChain(tokens, limit, overlap, i, i + 1);
    } else {
      FirstGroup(tokens, limit, overlap, i + 1);
    }
  }

  /** The pages each group adds to the previous ones, one after the other. */
  function Restored<T>(pages: seq<T>, groups: seq<Group>, end: nat, overlap: nat): seq<T>
    requires Chained(groups, end, overlap, |pages|)
    decreases |groups|
  {
    if groups == [] then []
    else
      pages[groups[0].first..groups[0].end][end - groups[0].first..]
      + Restored(pages, groups[1..], groups[0].end, overlap)
  }

  lemma {:induction false} RestoredIsRest<T>(pages: seq<T>, groups: seq<Group>, end: nat, overlap: nat)
    requires Chained(groups, end, overlap, |pages|) && end <= |pages|
    ensures Restored(pages, groups, end, overlap) == pages[end..]
    decreases |groups|
  {
    if groups != [] {
      var g := groups[0];
      RestoredIsRest(pages, groups[1..], g.end, overlap);
      assert pages[g.first..g.end][end - g.first..] == pages[end..g.end];
      assert pages[end..g.end] + pages[g.end..] == pages[end..];
    }
  }

  /** Dropping each later group's overlap and putting the groups after each other gives all pages. */
  lemma GroupsRestorePages<T>(pages: seq<T>, tokens: seq<nat>, maxTokens: nat, overlap: nat)
    requires |pages| == |tokens| && maxTokens > 0
    ensures var groups := PageGroups(tokens, maxTokens, overlap);
            && groups != [] && groups[0].first == 0 && groups[0].end <= |pages|
            && Chained(groups[1..], groups[0].end, overlap, |pages|)
            && pages[..groups[0].end] + Restored(pages, groups[1..], groups[0].end, overlap) == pages
  {
    var total, groups := Sum(tokens, 0, |tokens|), PageGroups(tokens, maxTokens, overlap);
    if total <= maxTokens {
      assert groups[1..] == [];
    } else {
      assert tokens != [];
      FirstGroup(tokens, Average(total, maxTokens), overlap, 0);
    }
    RestoredIsRest(pages, groups[1..], groups[0].end, overlap);
  }

  predicate Bounded(tokens: seq<nat>, g: Group, limit: nat, overlap: nat)
  {
    g.first <= g.end <= |tokens| && (Sum(tokens, g.first, g.end) <= limit || g.end - g.first <= overlap + 1)
  }

  lemma {:induction false} GroupsBounded(tokens: seq<nat>, limit: nat, overlap: nat, first: nat, i: nat)
    requires first <= i <= |tokens| && (Sum(tokens, first, i) <= limit || i - first <= overlap + 1)
    ensures forall k | 0 <= k < |Groups(tokens, limit, overlap, first, i)| ::
              Bounded(tokens, Groups(tokens, limit, overlap, first, i)[k], limit, overlap)
    decreases |tokens| - i
  {
    if i < |tokens| {
      if Sum(tokens, first, i) + tokens[i] > limit {
        GroupsBounded(tokens, limit, overlap, OverlapStart(i, overlap), i + 1);
      } else {
        GroupsBounded(tokens, limit, overlap, first, i + 1);
      }
    }
  }

  /** Every group holds at most maxTokens tokens or at most overlap + 1 pages. */
  lemma GroupsFit(tokens: seq<nat>, maxTokens: nat, overlap: nat, k: nat)
    requires maxTokens > 0 && k < |PageGroups(tokens, maxTokens, overlap)|
    ensures Bounded(tokens, PageGroups(tokens, maxTokens, overlap)[k], maxTokens, overlap)
  {
    var total := Sum(tokens, 0, |tokens|);
    if total > maxTokens {
      AverageWithin(total, maxTokens);
      GroupsBounded(tokens, Average(total, maxTokens), overlap, 0, 0);
    }
  }

  // ---- Which groups they are ---------------------------------------------------------------------------

  /** The page after the group would have taken it over the limit. */
  predicate Full(tokens: seq<nat>, g: Group, limit: nat)
  {
    g.first <= g.end < |tokens| && Sum(tokens, g.first, g.end) + tokens[g.end] > limit
  }

  /** A group that follows one ending at page `end`: it repeats the last `overlap` pages, or all if there are
      fewer, adds at least one page, and more only within the limit. */
  predicate Adds(tokens: seq<nat>, limit: nat, overlap: nat, end: nat, g: Group)
  {
    && g.first == (if end > overlap then end - overlap else 0)
    && end < g.end <= |tokens|
    && (Sum(tokens, g.first, g.end) <= limit || g.end == end + 1)
  }

  function EndBefore(groups: seq<Group>, k: nat, end: nat): nat
    requires k <= |groups|
  {
    if k == 0 then end else groups[k - 1].end
  }

  predicate AddsAt(tokens: seq<nat>, limit: nat, overlap: nat, end: nat, groups: seq<Group>, k: nat)
    requires k < |groups|
  {
    Adds(tokens, limit, overlap, EndBefore(groups, k, end), groups[k])
  }

  /** Groups from page `end` on, each but the last one full, up to the last page. */
  ghost predicate Continues(tokens: seq<nat>, limit: nat, overlap: nat, end: nat, groups: seq<Group>)
  {
    && (forall k: nat | k < |groups| :: AddsAt(tokens, limit, overlap, end, groups, k))
    && (forall k | 0 <= k < |groups| - 1 :: Full(tokens, groups[k], limit))
    && EndBefore(groups, |groups|, end) == |tokens|
  }

  /** The first group starts with the first page and stays within the limit; the others continue it. */
  ghost predicate Grouped(tokens: seq<nat>, limit: nat, overlap: nat, groups: seq<Group>)
  {
    && groups != [] && groups[0].first == 0 && groups[0].end <= |tokens|
    && Sum(tokens, 0, groups[0].end) <= limit && (|groups| > 1 ==> Full(tokens, groups[0], limit))
    && Continues(tokens, limit, overlap, groups[0].end, groups[1..])
  }

  lemma EndBeforeCons(g: Group, rest: seq<Group>, k: nat, end: nat)
    requires k <= |rest| + 1
    ensures EndBefore([g] + rest, k, end) == if k == 0 then end else EndBefore(rest, k - 1, g.end)
  {
  }

  lemma ContinuesCons(tokens: seq<nat>, limit: nat, overlap: nat, end: nat, g: Group, rest: seq<Group>)
    requires Adds(tokens, limit, overlap, end, g) && (rest != [] ==> Full(tokens, g, limit))
    requires Continues(tokens, limit, overlap, g.end, rest)
    ensures Continues(tokens, limit, overlap, end, [g] + rest)
  {
    var groups := [g] + rest;
    forall k: nat | k < |groups| ensures AddsAt(tokens, limit, overlap, end, groups, k) {
      EndBeforeCons(g, rest, k, end);
      assert k > 0 ==> groups[k] == rest[k - 1] && AddsAt(tokens, limit, overlap, g.end, rest, k - 1);
    }
    forall k | 0 <= k < |groups| - 1 ensures Full(tokens, groups[k], limit) {
      assert k > 0 ==> groups[k] == rest[k - 1];
    }
    EndBeforeCons(g, rest, |groups|, end);
  }

  lemma {:induction false} GroupsContinue(tokens: seq<nat>, limit: nat, overlap: nat, end: nat, i: nat)
    requires end < i <= |tokens|
    requires Sum(tokens, OverlapStart(end, overlap), i) <= limit || i == end + 1
    ensures Continues(tokens, limit, overlap, end, Groups(tokens, limit, overlap, OverlapStart(end, overlap), i))
    decreases |tokens| - i
  {
    var first := OverlapStart(end, overlap);
    if i == |tokens| {
      ContinuesCons(tokens, limit, overlap, end, Group(first, i), []);
      assert [Group(first, i)] + [] == [Group(first, i)];
    } else if Sum(tokens, first, i) + tokens[i] > limit {
      GroupsContinue(tokens, limit, overlap, i, i + 1);
      ContinuesCons(tokens, limit, overlap, end, Group(first, i),
                    Groups(tokens, limit, overlap, OverlapStart(i, overlap), i + 1));
    } else {
      GroupsContinue(tokens, limit, overlap, end, i + 1);
    }
  }

  lemma {:induction false} GroupsGrouped(tokens: seq<nat>, limit: nat, overlap: nat, i: nat)
    requires i <= |tokens| && tokens != [] && Sum(tokens, 0, i) <= limit
    ensures Grouped(tokens, limit, overlap, Groups(tokens, limit, overlap, 0, i))
    decreases |tokens| - i
  {
    var groups := Groups(tokens, limit, overlap, 0, i);
    if i == |tokens| {
      assert groups[1..] == [];
    } else if Sum(tokens, 0, i) + tokens[i] > limit {
      GroupsContinue(tokens, limit, overlap, i, i + 1);
      assert groups[1..] == Groups(tokens, limit, overlap, OverlapStart(i, overlap), i + 1);
    } else {
      GroupsGrouped(tokens, limit, overlap, i + 1);
    }
  }

  /** One group when everything fits, otherwise groups within the rounded average. */
  ghost predicate Divides(tokens: seq<nat>, maxTokens: nat, overlap: nat, groups: seq<Group>)
  {
    var total := Sum(tokens, 0, |tokens|);
    if total <= maxTokens then groups == [Group(0, |tokens|)]
    else exists average: nat :: IsAverage(total, maxTokens, average) && Grouped(tokens, average, overlap, groups)
  }

  lemma GroupsDivide(tokens: seq<nat>, maxTokens: nat, overlap: nat)
    requires maxTokens > 0
    ensures Divides(tokens, maxTokens, overlap, PageGroups(tokens, maxTokens, overlap))
  {
    var total := Sum(tokens, 0, |tokens|);
    if total > maxTokens {
      AverageIs(total, maxTokens, Average(total, maxTokens));
      GroupsGrouped(tokens, Average(total, maxTokens), overlap, 0);
    }
  }

  lemma {:induction false} SumSplit(tokens: seq<nat>, a: nat, b: nat, c: nat)
    requires a <= b <= c <= |tokens|
    ensures Sum(tokens, a, c) == Sum(tokens, a, b) + Sum(tokens, b, c)
    ensures c == a + 1 ==> Sum(tokens, a, c) == tokens[a]
  {
    if b < c { SumSplit(tokens, a, b, c - 1); }
    if c == a + 1 { assert Sum(tokens, a, a) == 0; }
  }

  /** A group that repeats and adds pages beside one that starts with the same pages: the longer one would
      contain a page that takes it over the limit. */
  lemma SameEnd(tokens: seq<nat>, limit: nat, first: nat, end: nat, p: nat, q: nat)
    requires first <= end <= |tokens| && end < p < q <= |tokens|
    requires Full(tokens, Group(first, p), limit)
    ensures Sum(tokens, first, q) > limit
  {
    SumSplit(tokens, first, p, q);
    SumSplit(tokens, p, p + 1, q);
  }

  lemma {:induction false} OneContinuation(tokens: seq<nat>, limit: nat, overlap: nat, end: nat, a: seq<Group>,
                                           b: seq<Group>)
    requires Continues(tokens, limit, overlap, end, a) && Continues(tokens, limit, overlap, end, b)
    ensures a == b
    decreases |a|
  {
    if a != [] && b != [] {
      SameHead(tokens, limit, overlap, end, a, b);
      ContinuesTail(tokens, limit, overlap, end, a);
      ContinuesTail(tokens, limit, overlap, end, b);
      OneContinuation(tokens, limit, overlap, a[0].end, a[1..], b[1..]);
      assert a == [a[0]] + a[1..] && b == [b[0]] + b[1..];
    } else {
      NoContinuation(tokens, limit, overlap, end, a);
      NoContinuation(tokens, limit, overlap, end, b);
    }
  }

  lemma NoContinuation(tokens: seq<nat>, limit: nat, overlap: nat, end: nat, a: seq<Group>)
    requires Continues(tokens, limit, overlap, end, a)
    ensures a == [] <==> end == |tokens|
  {
    if a != [] { assert AddsAt(tokens, limit, overlap, end, a, 0); }
  }

  lemma ContinuesTail(tokens: seq<nat>, limit: nat, overlap: nat, end: nat, a: seq<Group>)
    requires Continues(tokens, limit, overlap, end, a) && a != []
    ensures Continues(tokens, limit, overlap, a[0].end, a[1..])
  {
    var rest := a[1..];
    forall k: nat | k < |rest| ensures AddsAt(tokens, limit, overlap, a[0].end, rest, k) {
      assert AddsAt(tokens, limit, overlap, end, a, k + 1);
      assert EndBefore(a, k + 1, end) == EndBefore(rest, k, a[0].end) && rest[k] == a[k + 1];
    }
    assert EndBefore(a, |a|, end) == EndBefore(rest, |rest|, a[0].end);
  }

  lemma SameHead(tokens: seq<nat>, limit: nat, overlap: nat, end: nat, a: seq<Group>, b: seq<Group>)
    requires Continues(tokens, limit, overlap, end, a) && Continues(tokens, limit, overlap, end, b)
    requires a != [] && b != []
    ensures a[0] == b[0]
  {
    assert AddsAt(tokens, limit, overlap, end, a, 0);
    assert AddsAt(tokens, limit, overlap, end, b, 0);
    HeadNotLonger(tokens, limit, overlap, end, a, b);
    HeadNotLonger(tokens, limit, overlap, end, b, a);
  }

  lemma LastReaches(tokens: seq<nat>, limit: nat, overlap: nat, end: nat, a: seq<Group>)
    requires Continues(tokens, limit, overlap, end, a)
    ensures |a| == 1 ==> a[0].end == |tokens|
  {
    assert |a| == 1 ==> EndBefore(a, 1, end) == a[0].end;
  }

  lemma HeadNotLonger(tokens: seq<nat>, limit: nat, overlap: nat, end: nat, a: seq<Group>, b: seq<Group>)
    requires Continues(tokens, limit, overlap, end, a) && Continues(tokens, limit, overlap, end, b)
    requires a != [] && b != []
    ensures b[0].end <= a[0].end
  {
    assert AddsAt(tokens, limit, overlap, end, a, 0);
    assert AddsAt(tokens, limit, overlap, end, b, 0);
    if a[0].end < b[0].end {
      LastReaches(tokens, limit, overlap, end, a);
      assert Full(tokens, a[0], limit);
      SameEnd(tokens, limit, a[0].first, end, a[0].end, b[0].end);
    }
  }

  /** The computed groups are these, and there are no others of the kind. */
  lemma OnlyGroups(tokens: seq<nat>, maxTokens: nat, overlap: nat, groups: seq<Group>)
    requires maxTokens > 0
    ensures Divides(tokens, maxTokens, overlap, groups) <==> groups == PageGroups(tokens, maxTokens, overlap)
  {
    GroupsDivide(tokens, maxTokens, overlap);
    var total, all := Sum(tokens, 0, |tokens|), PageGroups(tokens, maxTokens, overlap);
    if Divides(tokens, maxTokens, overlap, groups) && total > maxTokens {
      var average := Average(total, maxTokens);
      forall a: nat | IsAverage(total, maxTokens, a) ensures a == average { AverageIs(total, maxTokens, a); }
      OneGrouping(tokens, average, overlap, groups, all);
    }
  }

  lemma OneGrouping(tokens: seq<nat>, limit: nat, overlap: nat, a: seq<Group>, b: seq<Group>)
    requires Grouped(tokens, limit, overlap, a) && Grouped(tokens, limit, overlap, b)
    ensures a == b
  {
    FirstNotLonger(tokens, limit, overlap, a, b);
    FirstNotLonger(tokens, limit, overlap, b, a);
    OneContinuation(tokens, limit, overlap, a[0].end, a[1..], b[1..]);
    assert a == [a[0]] + a[1..] && b == [b[0]] + b[1..];
  }

  lemma FirstNotLonger(tokens: seq<nat>, limit: nat, overlap: nat, a: seq<Group>, b: seq<Group>)
    requires Grouped(tokens, limit, overlap, a) && Grouped(tokens, limit, overlap, b)
    ensures b[0].end <= a[0].end
  {
    NoContinuation(tokens, limit, overlap, a[0].end, a[1..]);
    if a[0].end < b[0].end {
      SumSplit(tokens, 0, a[0].end, b[0].end);
      SumSplit(tokens, a[0].end, a[0].end + 1, b[0].end);
    }
  }

  lemma TailOfConcat<X>(a: seq<X>, b: seq<X>)
    requires a != []
    ensures (a + b)[0] == a[0] && (a + b)[1..] == a[1..] + b
  {
  }

  lemma Associate<X>(a: seq<X>, b: seq<X>, c: seq<X>)
    ensures a + (b + c) == (a + b) + c
  {
  }

  lemma JoinOne(a: string)
    ensures Join([]) == "" && Join([a]) == a
  {
    assert [a][1..] == [];
  }

  /** The texts of two lists of pages are put after each other. */
  lemma {:induction false} JoinConcat(a: seq<string>, b: seq<string>)
    ensures Join(a + b) == Join(a) + Join(b)
    ensures |a| == 1 ==> Join(a) == a[0]
  {
    if a == [] {
      assert a + b == b;
    } else {
      JoinOne(a[0]);
      assert |a| == 1 ==> a == [a[0]];
      JoinConcat(a[1..], b);
      TailOfConcat(a, b);
      Associate(a[0], Join(a[1..]), Join(b));
    }
  }

  /** Each text is that of its group's pages, one after the other. */
  ghost predicate HoldTexts(contents: seq<string>, groups: seq<Group>, subsets: seq<string>)
  {
    && InRange(groups, |contents|) && |subsets| == |groups|
    && forall k | 0 <= k < |groups| :: subsets[k] == Join(contents[groups[k].first..groups[k].end])
  }

  lemma TextsHeld(contents: seq<string>, tokens: seq<nat>, maxTokens: nat, overlap: nat)
    requires |contents| == |tokens| && maxTokens > 0
    ensures var groups := PageGroups(tokens, maxTokens, overlap);
            InRange(groups, |contents|) && HoldTexts(contents, groups, Texts(contents, groups))
  {
    var total := Sum(tokens, 0, |tokens|);
    if total > maxTokens { GroupsInRange(tokens, Average(total, maxTokens), overlap, 0, 0); }
    TextsAre(contents, PageGroups(tokens, maxTokens, overlap));
  }

  lemma {:induction false} TextsAre(contents: seq<string>, groups: seq<Group>)
    requires InRange(groups, |contents|)
    ensures |Texts(contents, groups)| == |groups|
    ensures forall k | 0 <= k < |groups| ::
              Texts(contents, groups)[k] == Join(contents[groups[k].first..groups[k].end])
  {
    if groups != [] { TextsAre(contents, groups[1..]); }
  }
}
