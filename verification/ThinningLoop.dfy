// The in-place backward loop of `tree_thinning_for_index` and the token counts it reads, proved
// against `Thinning.Thin`.
module ThinningLoop {
  import opened Forest
  import opened Text
  import Filters
  import opened TreeBuilder
  import opened Thinning

  // ---- Token counts -----------------------------------------------------------------------------

  /** A text followed by the nonempty texts of the sections in `rest`, one per line. */
  function Combined(own: string, rest: seq<Section>): string
  {
    if rest == [] then own
    else
      var init, text := Combined(own, rest[..|rest| - 1]), rest[|rest| - 1].text;
      if text != "" then init + "\n" + text else init
  }

  function SubtreeText(nodes: seq<Section>, i: nat): string
    requires i < |nodes|
  {
    Combined(nodes[i].text, nodes[i + 1..End(Levels(nodes), i, |nodes|)])
  }

  /** The own text and the nonempty ones after it, one below the other. */
  lemma {:induction false} CombinedIs(own: string, rest: seq<Section>)
    ensures Combined(own, rest) == JoinLines([own] + Filters.Filter(Texts(rest), text => text != ""))
  {
    if rest == [] {
      assert [own] + [] == [own];
    } else {
      var init, text := rest[..|rest| - 1], rest[|rest| - 1].text;
      CombinedIs(own, init);
      var said := Filters.Filter(Texts(init), text => text != "");
      assert Texts(rest)[..|rest| - 1] == Texts(init);
      if text != "" {
        JoinSnoc([own] + said, text, "\n");
        assert [own] + (said + [text]) == ([own] + said) + [text];
      }
    }
  }

  lemma CombinedNext(own: string, nodes: seq<Section>, lo: nat, k: nat)
    requires lo + k < |nodes|
    ensures Combined(own, nodes[lo..lo + k + 1]) ==
              var init := Combined(own, nodes[lo..lo + k]);
              if nodes[lo + k].text != "" then init + "\n" + nodes[lo + k].text else init
  {
    assert nodes[lo..lo + k + 1][..k] == nodes[lo..lo + k];
  }

  lemma {:induction false} SameCombined(own: string, a: seq<Section>, b: seq<Section>)
    requires |a| == |b| && forall i | 0 <= i < |a| :: a[i].text == b[i].text
    ensures Combined(own, a) == Combined(own, b)
  {
    if a != [] { SameCombined(own, a[..|a| - 1], b[..|b| - 1]); }
  }

  /** The subtree text does not depend on titles, lines or token counts. */
  lemma SameSubtreeText(a: seq<Section>, b: seq<Section>, i: nat)
    requires |a| == |b| && i < |a| && forall j | 0 <= j < |a| :: a[j].text == b[j].text && a[j].level == b[j].level
    ensures SubtreeText(a, i) == SubtreeText(b, i)
  {
    assert Levels(a) == Levels(b);
    var e := End(Levels(a), i, |a|);
    SameCombined(a[i].text, a[i + 1..e], b[i + 1..e]);
  }

  /** The text of section i and of the k sections after it. */
  function TextOver(nodes: seq<Section>, i: nat, k: nat): string
    requires i + 1 + k <= |nodes|
  {
    Combined(nodes[i].text, nodes[i + 1..i + 1 + k])
  }

  lemma TextOverNext(nodes: seq<Section>, i: nat, k: nat)
    requires i + 1 + k < |nodes|
    ensures var text := nodes[i + 1 + k].text;
            TextOver(nodes, i, k + 1) ==
              if text != "" then TextOver(nodes, i, k) + "\n" + text else TextOver(nodes, i, k)
  {
    CombinedNext(nodes[i].text, nodes, i + 1, k);
  }

  lemma TextOverAll(nodes: seq<Section>, i: nat)
    requires i < |nodes|
    ensures TextOver(nodes, i, 0) == nodes[i].text
    ensures TextOver(nodes, i, End(Levels(nodes), i, |nodes|) - i - 1) == SubtreeText(nodes, i)
  {
  }

  /** The text of a section and of everything the scan finds below it; `result` is the list whose
      token counts are being updated. */
  method CollectText(nodes: seq<Section>, result: seq<Section>, i: nat) returns (total: string)
    requires |result| == |nodes| && i < |nodes|
    requires forall j | 0 <= j < |nodes| :: result[j].text == nodes[j].text
    ensures total == SubtreeText(nodes, i)
  {
    var children := FindAllChildren(Levels(nodes), i);
    TextOverAll(nodes, i);
    total := result[i].text;
    for k := 0 to |children|
      invariant total == TextOver(nodes, i, k)
    {
      var text := result[children[k]].text;
      TextOverNext(nodes, i, k);
      if text != "" { total := total + "\n" + text; }
    }
  }

  /** `update_node_list_with_text_token_count`: every section gets the token count of its own text
      and all texts below it; nothing else changes. */
  method UpdateTokenCounts(nodes: seq<Section>, count: string -> nat) returns (result: seq<Section>)
    ensures |result| == |nodes|
    ensures forall i | 0 <= i < |nodes| :: result[i] == nodes[i].(tokens := count(SubtreeText(nodes, i)))
  {
    result := nodes;
    var i := |nodes|;
    while i > 0
      invariant 0 <= i <= |nodes| == |result|
      invariant forall j | 0 <= j < i :: result[j] == nodes[j]
      invariant forall j | i <= j < |nodes| :: result[j] == nodes[j].(tokens := count(SubtreeText(nodes, j)))
    {
      i := i - 1;
      var total := CollectText(nodes, result, i);
      result := result[i := result[i].(tokens := count(total))];
    }
  }

  // ---- Thinning ---------------------------------------------------------------------------------

  /** The sections of [lo, hi) that have not been removed. */
  function Survivors(result: seq<Section>, removed: set<nat>, lo: nat, hi: nat): seq<Section>
    requires lo <= hi <= |result|
    decreases hi - lo
  {
    if lo == hi then []
    else if hi - 1 in removed then Survivors(result, removed, lo, hi - 1)
    else Survivors(result, removed, lo, hi - 1) + [result[hi - 1]]
  }

  lemma {:induction false} SurvivorsSplit(result: seq<Section>, removed: set<nat>, lo: nat, mid: nat, hi: nat)
    requires lo <= mid <= hi <= |result|
    ensures Survivors(result, removed, lo, hi) == Survivors(result, removed, lo, mid) +
              Survivors(result, removed, mid, hi)
    decreases hi
  {
    if mid < hi { SurvivorsSplit(result, removed, lo, mid, hi - 1); }
  }

  lemma {:induction false} SurvivorsNone(result: seq<Section>, removed: set<nat>, lo: nat, hi: nat)
    requires lo <= hi <= |result| && forall j | lo <= j < hi :: j in removed
    ensures Survivors(result, removed, lo, hi) == []
    decreases hi
  {
    if lo < hi { SurvivorsNone(result, removed, lo, hi - 1); }
  }

  /** Some section from i on that is below the threshold is an ancestor of j. */
  ghost predicate Covered(nodes: seq<Section>, levels: seq<nat>, min: nat, i: nat, j: nat)
    requires j < |nodes| == |levels|
  {
    exists a | i <= a < j :: nodes[a].tokens < min && Ancestor(levels, a, j)
  }

  /** `Thin` on the stretch [lo, hi) of a list. */
  function ThinRange(nodes: seq<Section>, levels: seq<nat>, min: nat, count: string -> nat, lo: nat,
                     hi: nat): seq<Section>
    requires lo <= hi <= |nodes| == |levels|
    decreases hi - lo
  {
    if lo == hi then []
    else
      var e := End(levels, lo, hi);
      var inner, rest := ThinRange(nodes, levels, min, count, lo + 1, e), ThinRange(nodes, levels, min, count, e, hi);
      if nodes[lo].tokens < min then [Merged(nodes[lo], inner, count)] + rest else [nodes[lo]] + inner + rest
  }

  lemma SliceParts(nodes: seq<Section>, lo: nat, hi: nat)
    requires lo < hi <= |nodes|
    ensures var e := End(Levels(nodes), lo, hi);
            && Extent(Levels(nodes[lo..hi])) == e - lo && nodes[lo..hi][0] == nodes[lo]
            && nodes[lo..hi][1..e - lo] == nodes[lo + 1..e] && nodes[lo..hi][e - lo..] == nodes[e..hi]
  {
    assert Levels(nodes[lo..hi]) == Levels(nodes)[lo..hi];
    ExtentOfSlice(Levels(nodes), lo, hi);
    SliceOfSlice(nodes, lo, hi, End(Levels(nodes), lo, hi));
  }

  function Joined(x: Section, inner: seq<Section>, rest: seq<Section>, min: nat, count: string -> nat): seq<Section>
  {
    if x.tokens < min then [Merged(x, inner, count)] + rest else [x] + inner + rest
  }

  lemma ThinUnfold(s: seq<Section>, e: nat, x: Section, sub: seq<Section>, after: seq<Section>, min: nat,
                   count: string -> nat)
    requires s != [] && e == Extent(Levels(s)) && s[0] == x && s[1..e] == sub && s[e..] == after
    ensures Thin(s, min, count) == Joined(x, Thin(sub, min, count), Thin(after, min, count), min, count)
  {
  }

  lemma ThinRangeUnfold(nodes: seq<Section>, levels: seq<nat>, min: nat, count: string -> nat, lo: nat, hi: nat)
    requires lo < hi <= |nodes| == |levels|
    ensures var e := End(levels, lo, hi);
            ThinRange(nodes, levels, min, count, lo, hi) ==
              Joined(nodes[lo], ThinRange(nodes, levels, min, count, lo + 1, e),
                     ThinRange(nodes, levels, min, count, e, hi), min, count)
  {
  }

  lemma {:induction false} ThinRangeIsThin(nodes: seq<Section>, levels: seq<nat>, min: nat, count: string -> nat,
                                           lo: nat, hi: nat)
    requires lo <= hi <= |nodes| && levels == Levels(nodes)
    ensures ThinRange(nodes, levels, min, count, lo, hi) == Thin(nodes[lo..hi], min, count)
    decreases hi - lo
  {
    if lo < hi {
      var e := End(levels, lo, hi);
      ThinRangeUnfold(nodes, levels, min, count, lo, hi);
      ThinRangeIsThin(nodes, levels, min, count, lo + 1, e);
      ThinRangeIsThin(nodes, levels, min, count, e, hi);
      SliceThin(nodes, min, count, lo, hi);
    }
  }

  lemma SliceThin(nodes: seq<Section>, min: nat, count: string -> nat, lo: nat, hi: nat)
    requires lo < hi <= |nodes|
    ensures var e := End(Levels(nodes), lo, hi);
            Thin(nodes[lo..hi], min, count) ==
              Joined(nodes[lo], Thin(nodes[lo + 1..e], min, count), Thin(nodes[e..hi], min, count), min, count)
  {
    var e := End(Levels(nodes), lo, hi);
    SliceParts(nodes, lo, hi);
    ThinUnfold(nodes[lo..hi], e - lo, nodes[lo], nodes[lo + 1..e], nodes[e..hi], min, count);
  }

  /** What becomes of section j when it is not swallowed. */
  function Kept(nodes: seq<Section>, levels: seq<nat>, min: nat, count: string -> nat, j: nat): Section
    requires j < |nodes| == |levels|
  {
    if nodes[j].tokens < min then
      Merged(nodes[j], ThinRange(nodes, levels, min, count, j + 1, End(levels, j, |nodes|)), count)
    else nodes[j]
  }

  /** The state of the backward loop after the sections from i on. */
  ghost predicate ThinnedFrom(nodes: seq<Section>, levels: seq<nat>, min: nat, count: string -> nat,
                              result: seq<Section>, removed: set<nat>, i: nat)
    requires i <= |nodes| == |levels|
  {
    && |result| == |nodes|
    && (forall j | 0 <= j < i :: result[j] == nodes[j] && j !in removed)
    && (forall j {:trigger Covered(nodes, levels, min, i, j)} | i <= j < |nodes| ::
          j in removed <==> Covered(nodes, levels, min, i, j))
    && (forall j {:trigger Kept(nodes, levels, min, count, j)} | i <= j < |nodes| && j !in removed ::
          result[j] == Kept(nodes, levels, min, count, j))
  }

  lemma SurvivorsStep(result: seq<Section>, removed: set<nat>, lo: nat, e: nat, hi: nat, inner: seq<Section>,
                      rest: seq<Section>)
    requires lo < e <= hi <= |result| && lo !in removed
    requires Survivors(result, removed, lo + 1, e) == inner && Survivors(result, removed, e, hi) == rest
    ensures Survivors(result, removed, lo, hi) == [result[lo]] + inner + rest
    ensures inner == [] ==> Survivors(result, removed, lo, hi) == [result[lo]] + rest
  {
    SurvivorsSplit(result, removed, lo, lo + 1, hi);
    SurvivorsSplit(result, removed, lo + 1, e, hi);
    assert Survivors(result, removed, lo, lo) == [];
  }

  lemma NotRemoved(nodes: seq<Section>, levels: seq<nat>, min: nat, result: seq<Section>, removed: set<nat>,
                   i: nat, lo: nat, e: nat, hi: nat)
    requires i <= lo < e <= hi <= |nodes| == |levels| == |result|
    requires forall j {:trigger Covered(nodes, levels, min, i, j)} | i <= j < |nodes| ::
               j in removed <==> Covered(nodes, levels, min, i, j)
    requires lo !in removed && e == End(levels, lo, |nodes|)
    ensures e < hi ==> e !in removed
    ensures lo + 1 < e && nodes[lo].tokens >= min ==> lo + 1 !in removed
    ensures nodes[lo].tokens < min ==> Survivors(result, removed, lo + 1, e) == []
  {
    assert !Covered(nodes, levels, min, i, lo);
    if e < hi {
      forall a | i <= a < e ensures !(nodes[a].tokens < min && Ancestor(levels, a, e)) {
        assert Ancestor(levels, a, e) && a < lo ==> Ancestor(levels, a, lo);
      }
      assert !Covered(nodes, levels, min, i, e);
    }
    if lo + 1 < e && nodes[lo].tokens >= min {
      forall a | i <= a < lo + 1 ensures !(nodes[a].tokens < min && Ancestor(levels, a, lo + 1)) {
        assert Ancestor(levels, a, lo + 1) && a < lo ==> Ancestor(levels, a, lo);
      }
      assert !Covered(nodes, levels, min, i, lo + 1);
    }
    if nodes[lo].tokens < min {
      forall j | lo < j < e ensures j in removed {
        assert Ancestor(levels, lo, j);
        assert Covered(nodes, levels, min, i, j);
      }
      SurvivorsNone(result, removed, lo + 1, e);
    }
  }

  lemma ThinRangeStep(nodes: seq<Section>, levels: seq<nat>, min: nat, count: string -> nat, lo: nat, e: nat, hi: nat,
                      inner: seq<Section>, rest: seq<Section>)
    requires lo < hi <= |nodes| == |levels| && e == End(levels, lo, hi) == End(levels, lo, |nodes|)
    requires inner == ThinRange(nodes, levels, min, count, lo + 1, e)
             && rest == ThinRange(nodes, levels, min, count, e, hi)
    ensures ThinRange(nodes, levels, min, count, lo, hi) ==
              if nodes[lo].tokens < min then [Kept(nodes, levels, min, count, lo)] + rest
              else [Kept(nodes, levels, min, count, lo)] + inner + rest
  {
  }

  /** One section and what follows it, put together. */
  lemma SurvivorsJoin(nodes: seq<Section>, levels: seq<nat>, min: nat, count: string -> nat,
                      result: seq<Section>, removed: set<nat>, lo: nat, e: nat, hi: nat)
    requires lo < hi <= |nodes| == |levels| == |result| && e == End(levels, lo, hi) == End(levels, lo, |nodes|)
    requires lo !in removed && result[lo] == Kept(nodes, levels, min, count, lo)
    requires Survivors(result, removed, e, hi) == ThinRange(nodes, levels, min, count, e, hi)
    requires Survivors(result, removed, lo + 1, e) ==
               if nodes[lo].tokens < min then [] else ThinRange(nodes, levels, min, count, lo + 1, e)
    ensures Survivors(result, removed, lo, hi) == ThinRange(nodes, levels, min, count, lo, hi)
  {
    var inner, rest := ThinRange(nodes, levels, min, count, lo + 1, e), ThinRange(nodes, levels, min, count, e, hi);
    ThinRangeStep(nodes, levels, min, count, lo, e, hi, inner, rest);
    SurvivorsStep(result, removed, lo, e, hi, Survivors(result, removed, lo + 1, e), rest);
  }

  /** A stretch no swallowing section reaches into survives as its own thinning. */
  lemma {:induction false} SurvivorsAreThin(nodes: seq<Section>, levels: seq<nat>, min: nat, count: string -> nat,
                                            result: seq<Section>, removed: set<nat>, i: nat, lo: nat, hi: nat)
    requires i <= lo <= hi <= |nodes| == |levels| && ThinnedFrom(nodes, levels, min, count, result, removed, i)
    requires Closed(levels, lo, hi) && (lo < hi ==> lo !in removed)
    ensures Survivors(result, removed, lo, hi) == ThinRange(nodes, levels, min, count, lo, hi)
    decreases hi - lo
  {
    if lo < hi {
      var e := End(levels, lo, |levels|);
      ClosedParts(levels, lo, hi);
      NotRemoved(nodes, levels, min, result, removed, i, lo, e, hi);
      SurvivorsAreThin(nodes, levels, min, count, result, removed, i, e, hi);
      if nodes[lo].tokens >= min { SurvivorsAreThin(nodes, levels, min, count, result, removed, i, lo + 1, e); }
      SurvivorsJoin(nodes, levels, min, count, result, removed, lo, e, hi);
    }
  }

  lemma SurvivorsSnoc(result: seq<Section>, removed: set<nat>, lo: nat, hi: nat)
    requires lo <= hi < |result|
    ensures NonBlank(Survivors(result, removed, lo, hi + 1)) ==
              if hi in removed || Blank(result[hi].text) then NonBlank(Survivors(result, removed, lo, hi))
              else NonBlank(Survivors(result, removed, lo, hi)) + [result[hi].text]
  {
    if hi !in removed { NonBlankSnoc(Survivors(result, removed, lo, hi), result[hi]); }
  }

  /** The texts of the sections in [lo, hi) that are still there and not blank. */
  function ChildTexts(result: seq<Section>, removed: set<nat>, lo: nat, hi: nat): seq<string>
    requires lo <= hi <= |result|
    decreases hi - lo
  {
    if lo == hi then []
    else if hi - 1 in removed || Blank(result[hi - 1].text) then ChildTexts(result, removed, lo, hi - 1)
    else ChildTexts(result, removed, lo, hi - 1) + [result[hi - 1].text]
  }

  lemma {:induction false} ChildTextsAre(result: seq<Section>, removed: set<nat>, lo: nat, hi: nat)
    requires lo <= hi <= |result|
    ensures ChildTexts(result, removed, lo, hi) == NonBlank(Survivors(result, removed, lo, hi))
    decreases hi
  {
    if lo < hi {
      ChildTextsAre(result, removed, lo, hi - 1);
      SurvivorsSnoc(result, removed, lo, hi - 1);
    }
  }

  method HasWords(text: string) returns (b: bool)
    ensures b <==> !Blank(text)
  {
    b := Strip(text) != "";
  }

  /** The inner loop over the scanned children: texts of those still there, in document order. */
  method CollectChildTexts(result: seq<Section>, removed: set<nat>, children: seq<nat>, ghost first: nat,
                           ghost last: nat)
      returns (texts: seq<string>, removed': set<nat>)
    requires first + |children| == last <= |result| && forall k | 0 <= k < |children| :: children[k] == first + k
    ensures texts == ChildTexts(result, removed, first, last)
    ensures forall j :: j in removed' <==> j in removed || first <= j < last
  {
    texts, removed' := [], removed;
    for k := 0 to |children|
      invariant texts == ChildTexts(result, removed, first, first + k)
      invariant forall j :: j in removed' <==> j in removed || first <= j < first + k
    {
      var child := children[k];
      if child !in removed' {
        var worded := HasWords(result[child].text);
        if worded { texts := texts + [result[child].text]; }
        removed' := removed' + {child};
      }
    }
  }

  method MergeChildTexts(own: string, texts: seq<string>) returns (merged: string)
    ensures merged == MergeTexts(own, texts)
  {
    merged := own;
    for k := 0 to |texts|
      invariant merged == MergeTexts(own, texts[..k])
    {
      assert texts[..k + 1][..k] == texts[..k];
      if merged != "" && merged[|merged| - 1] != '\n' { merged := merged + "\n\n"; }
      merged := merged + texts[k];
    }
    assert texts[..|texts|] == texts;
  }

  method MergeInto(node: Section, texts: seq<string>, ghost inner: seq<Section>, count: string -> nat)
      returns (node': Section)
    requires texts == NonBlank(inner)
    ensures node' == Merged(node, inner, count)
  {
    node' := node;
    if texts != [] {
      var merged := MergeChildTexts(node.text, texts);
      node' := node.(text := merged, tokens := count(merged));
    }
  }

  lemma ThinnedStep(nodes: seq<Section>, levels: seq<nat>, min: nat, count: string -> nat,
                    result: seq<Section>, removed: set<nat>, i: nat, result': seq<Section>, removed': set<nat>)
    requires i < |nodes| == |levels| && ThinnedFrom(nodes, levels, min, count, result, removed, i + 1)
    requires result' == result[i := Kept(nodes, levels, min, count, i)]
    requires forall j :: j in removed' <==>
               j in removed || (nodes[i].tokens < min && i < j < End(levels, i, |nodes|))
    ensures ThinnedFrom(nodes, levels, min, count, result', removed', i)
  {
    forall j | i <= j < |nodes| ensures j in removed' <==> Covered(nodes, levels, min, i, j) {
      if i < j {
        assert Covered(nodes, levels, min, i, j) <==>
                 Covered(nodes, levels, min, i + 1, j) || (nodes[i].tokens < min && Ancestor(levels, i, j));
        assert Ancestor(levels, i, j) <==> j < End(levels, i, |nodes|);
      }
    }
  }

  lemma ChildrenAreThin(nodes: seq<Section>, levels: seq<nat>, min: nat, count: string -> nat,
                        result: seq<Section>, removed: set<nat>, i: nat, e: nat)
    requires i < |nodes| == |levels| && ThinnedFrom(nodes, levels, min, count, result, removed, i + 1)
    requires e == End(levels, i, |nodes|)
    ensures Survivors(result, removed, i + 1, e) == ThinRange(nodes, levels, min, count, i + 1, e)
  {
    assert Closed(levels, i, |levels|);
    ClosedParts(levels, i, |levels|);
    assert i + 1 < |nodes| ==> !Covered(nodes, levels, min, i + 1, i + 1);
    SurvivorsAreThin(nodes, levels, min, count, result, removed, i + 1, i + 1, e);
  }

  /** What a section below the threshold turns into, and what it removes. */
  method Swallow(nodes: seq<Section>, levels: seq<nat>, min: nat, count: string -> nat,
                 result: seq<Section>, removed: set<nat>, i: nat) returns (node: Section, removed': set<nat>)
    requires i < |nodes| == |levels| && ThinnedFrom(nodes, levels, min, count, result, removed, i + 1)
    requires nodes[i].tokens < min
    ensures node == Kept(nodes, levels, min, count, i)
    ensures forall j :: j in removed' <==> j in removed || i < j < End(levels, i, |nodes|)
  {
    var children := FindAllChildren(levels, i);
    ghost var e := End(levels, i, |nodes|);
    ChildrenAreThin(nodes, levels, min, count, result, removed, i, e);
    var texts;
    texts, removed' := CollectChildTexts(result, removed, children, i + 1, e);
    ChildTextsAre(result, removed, i + 1, e);
    node := MergeInto(result[i], texts, ThinRange(nodes, levels, min, count, i + 1, e), count);
  }

  /** One iteration of the backward loop. */
  method ThinOne(nodes: seq<Section>, levels: seq<nat>, min: nat, count: string -> nat,
                 result: seq<Section>, removed: set<nat>, i: nat) returns (result': seq<Section>, removed': set<nat>)
    requires i < |nodes| == |levels| && ThinnedFrom(nodes, levels, min, count, result, removed, i + 1)
    ensures ThinnedFrom(nodes, levels, min, count, result', removed', i)
  {
    result', removed' := result, removed;
    if result[i].tokens < min {
      var node;
      node, removed' := Swallow(nodes, levels, min, count, result, removed, i);
      result' := result[i := node];
    }
    ThinnedStep(nodes, levels, min, count, result, removed, i, result', removed');
  }

  /** `tree_thinning_for_index`: the backward loop and the final removal leave exactly `Thin`. */
  method TreeThinning(nodes: seq<Section>, min: nat, count: string -> nat) returns (result: seq<Section>)
    ensures result == Thin(nodes, min, count)
  {
    var levels := Levels(nodes);
    result := nodes;
    var removed: set<nat> := {};
    var i := |nodes|;
    while i > 0
      invariant 0 <= i <= |nodes| && ThinnedFrom(nodes, levels, min, count, result, removed, i)
    {
      i := i - 1;
      assert i !in removed;  // the source's skip of removed entries is never taken
      result, removed := ThinOne(nodes, levels, min, count, result, removed, i);
    }
    assert |nodes| > 0 ==> !Covered(nodes, levels, min, 0, 0);
    SurvivorsAreThin(nodes, levels, min, count, result, removed, 0, 0, |nodes|);
    ThinRangeIsThin(nodes, levels, min, count, 0, |nodes|);
    assert nodes[0..|nodes|] == nodes;
    result := PopRemoved(result, removed);
  }

  /** The final loop: removed entries are popped from the back. */
  method PopRemoved(nodes: seq<Section>, removed: set<nat>) returns (result: seq<Section>)
    ensures result == Survivors(nodes, removed, 0, |nodes|)
  {
    result := nodes;
    var index := |nodes|;
    assert nodes[..|nodes|] == nodes;
    assert Survivors(nodes, removed, index, |nodes|) == [];
    while index > 0
      invariant 0 <= index <= |nodes|
      invariant result == nodes[..index] + Survivors(nodes, removed, index, |nodes|)
    {
      index := index - 1;
      SurvivorsSplit(nodes, removed, index, index + 1, |nodes|);
      assert Survivors(nodes, removed, index, index) == [];
      if index in removed {
        result := result[..index] + result[index + 1..];
      }
    }
  }
}
