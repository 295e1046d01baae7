// `tree_thinning_for_index`: small sections swallow their subsections.
module Thinning {
  import opened Forest
  import opened Text
  import Filters

  datatype Section = Section(title: string, line: nat, level: nat, text: string, tokens: nat)

  function Levels(nodes: seq<Section>): (levels: seq<nat>)
    ensures |levels| == |nodes| && forall i | 0 <= i < |nodes| :: levels[i] == nodes[i].level
  {
    seq(|nodes|, i requires 0 <= i < |nodes| => nodes[i].level)
  }

  function Texts(nodes: seq<Section>): (texts: seq<string>)
    ensures |texts| == |nodes| && forall i | 0 <= i < |nodes| :: texts[i] == nodes[i].text
  {
    seq(|nodes|, i requires 0 <= i < |nodes| => nodes[i].text)
  }

  /** The words of a list of sections: all texts, whitespace erased. */
  function Words(nodes: seq<Section>): string { EraseAll(Texts(nodes)) }

  lemma WordsConcat(a: seq<Section>, b: seq<Section>)
    ensures Words(a + b) == Words(a) + Words(b)
  {
    EraseAllConcat(Texts(a), Texts(b));
    assert Texts(a + b) == Texts(a) + Texts(b);
  }

  lemma WordsOfOne(x: Section)
    ensures Words([x]) == Erase(x.text)
  {
    assert Texts([x]) == [x.text];
    assert EraseAll([x.text]) == Erase(x.text) + EraseAll([x.text][1..]);
    assert [x.text][1..] == [];
  }

  // ---- Merging texts --------------------------------------------------------------------------

  /** The texts that are not blank. */
  function NonBlank(nodes: seq<Section>): seq<string>
  {
    if nodes == [] then []
    else if Blank(nodes[|nodes| - 1].text) then NonBlank(nodes[..|nodes| - 1])
    else NonBlank(nodes[..|nodes| - 1]) + [nodes[|nodes| - 1].text]
  }

  function AddText(merged: string, text: string): string
  {
    (if merged != "" && merged[|merged| - 1] != '\n' then merged + "\n\n" else merged) + text
  }

  function MergeTexts(own: string, texts: seq<string>): string
  {
    if texts == [] then own else AddText(MergeTexts(own, texts[..|texts| - 1]), texts[|texts| - 1])
  }

  /** A section that swallows the sections `inner`. */
  function Merged(node: Section, inner: seq<Section>, count: string -> nat): Section
  {
    if NonBlank(inner) == [] then node
    else
      var text := MergeTexts(node.text, NonBlank(inner));
      node.(text := text, tokens := count(text))
  }

  /** The nonblank texts, in order. */
  lemma {:induction false} NonBlankIs(nodes: seq<Section>)
    ensures NonBlank(nodes) == Filters.Filter(Texts(nodes), text => !Blank(text))
  {
    if nodes != [] {
      NonBlankIs(nodes[..|nodes| - 1]);
      assert Texts(nodes)[..|nodes| - 1] == Texts(nodes[..|nodes| - 1]);
    }
  }

  predicate NoBreakBehind(text: string) { text != "" && text[|text| - 1] != '\n' }

  lemma {:induction false} JoinSnoc(parts: seq<string>, last: string, sep: string)
    requires parts != []
    ensures Join(parts + [last], sep) == Join(parts, sep) + sep + last
  {
    if |parts| == 1 {
      assert (parts + [last])[1..] == [last];
    } else {
      JoinSnoc(parts[1..], last, sep);
      assert (parts + [last])[1..] == parts[1..] + [last];
      assert parts[0] + sep + (Join(parts[1..], sep) + sep + last) == parts[0] + sep + Join(parts[1..], sep) + sep +
               last;
    }
  }

  lemma AddTextBelow(merged: string, text: string)
    requires NoBreakBehind(merged) && NoBreakBehind(text)
    ensures AddText(merged, text) == merged + "\n\n" + text && NoBreakBehind(AddText(merged, text))
  {
  }

  /** Texts that do not end with a line break are merged with an empty line between any two of them. */
  lemma {:induction false} MergeJoins(own: string, texts: seq<string>)
    requires NoBreakBehind(own) && forall k | 0 <= k < |texts| :: NoBreakBehind(texts[k])
    ensures MergeTexts(own, texts) == Join([own] + texts, "\n\n") && NoBreakBehind(MergeTexts(own, texts))
  {
    if texts == [] {
      assert [own] + texts == [own];
    } else {
      var init, last := texts[..|texts| - 1], texts[|texts| - 1];
      MergeJoins(own, init);
      AddTextBelow(MergeTexts(own, init), last);
      JoinSnoc([own] + init, last, "\n\n");
      assert [own] + texts == ([own] + init) + [last];
    }
  }

  /** A section that swallows others: its own text and their nonblank texts with empty lines between them, and
      a new token count, or all as it was if they say nothing. */
  lemma MergedIs(node: Section, inner: seq<Section>, count: string -> nat)
    requires NoBreakBehind(node.text)
    requires forall k | 0 <= k < |inner| :: inner[k].text != "" ==> NoBreakBehind(inner[k].text)
    ensures var said, x := Filters.Filter(Texts(inner), text => !Blank(text)), Merged(node, inner, count);
            && x.title == node.title && x.line == node.line && x.level == node.level
            && x.text == Join([node.text] + said, "\n\n") && NoBreakBehind(x.text)
            && x.tokens == if said == [] then node.tokens else count(x.text)
  {
    NonBlankIs(inner);
    NonBlankOf(inner);
    var said := NonBlank(inner);
    MergeJoins(node.text, said);
    assert [node.text] + [] == [node.text];
  }

  lemma {:induction false} NonBlankOf(nodes: seq<Section>)
    requires forall k | 0 <= k < |nodes| :: nodes[k].text != "" ==> NoBreakBehind(nodes[k].text)
    ensures forall k | 0 <= k < |NonBlank(nodes)| :: NoBreakBehind(NonBlank(nodes)[k])
  {
    if nodes != [] { NonBlankOf(nodes[..|nodes| - 1]); }
  }

  lemma AddTextErases(merged: string, text: string)
    ensures Erase(AddText(merged, text)) == Erase(merged) + Erase(text)
  {
    if merged != "" && merged[|merged| - 1] != '\n' {
      EraseConcat(merged + "\n\n", text);
      EraseBreak(merged);
    } else {
      EraseConcat(merged, text);
    }
  }

  lemma EraseBreak(merged: string)
    ensures Erase(merged + "\n\n") == Erase(merged)
  {
    EraseConcat(merged, "\n\n");
    EraseBlank("\n\n");
  }

  lemma Snoc<T>(s: seq<T>)
    requires s != []
    ensures s == s[..|s| - 1] + [s[|s| - 1]]
  {
  }

  lemma Assoc(a: string, b: string, c: string)
    ensures a + (b + c) == a + b + c
  {
  }

  lemma {:induction false} MergeTextsErases(own: string, texts: seq<string>)
    ensures Erase(MergeTexts(own, texts)) == Erase(own) + EraseAll(texts)
  {
    if texts == [] {
      assert Erase(own) + "" == Erase(own);
    } else {
      var init, last := texts[..|texts| - 1], texts[|texts| - 1];
      MergeTextsErases(own, init);
      AddTextErases(MergeTexts(own, init), last);
      Assoc(Erase(own), EraseAll(init), Erase(last));
      EraseAllSnoc(init, last);
      Snoc(texts);
    }
  }

  lemma EraseAllSnoc(init: seq<string>, last: string)
    ensures EraseAll(init + [last]) == EraseAll(init) + Erase(last)
  {
    EraseAllConcat(init, [last]);
    assert EraseAll([last]) == Erase(last) + EraseAll([last][1..]);
    assert [last][1..] == [] && Erase(last) + "" == Erase(last);
  }

  lemma WordsSnoc(init: seq<Section>, last: Section)
    ensures Words(init + [last]) == Words(init) + Erase(last.text)
  {
    WordsConcat(init, [last]);
    WordsOfOne(last);
  }

  lemma NonBlankSnoc(init: seq<Section>, last: Section)
    ensures NonBlank(init + [last]) == if Blank(last.text) then NonBlank(init) else NonBlank(init) + [last.text]
  {
    assert (init + [last])[..|init|] == init;
  }

  lemma {:induction false} NonBlankWords(nodes: seq<Section>)
    ensures EraseAll(NonBlank(nodes)) == Words(nodes)
  {
    if nodes != [] {
      var init, last := nodes[..|nodes| - 1], nodes[|nodes| - 1];
      NonBlankWords(init);
      WordsSnoc(init, last);
      Snoc(nodes);
      if Blank(last.text) { EraseBlank(last.text); } else { EraseAllSnoc(NonBlank(init), last.text); }
    }
  }

  lemma MergedWords(node: Section, inner: seq<Section>, count: string -> nat)
    ensures Erase(Merged(node, inner, count).text) == Erase(node.text) + Words(inner)
  {
    NonBlankWords(inner);
    if NonBlank(inner) == [] {
      assert Erase(node.text) + "" == Erase(node.text);
    } else {
      MergeTextsErases(node.text, NonBlank(inner));
    }
  }

  // ---- Thinning a list, as a function ----------------------------------------------------------

  /** What thinning leaves of a list: a section below the threshold swallows whatever thinning
      leaves of its subsections, any other section keeps them. */
  function Thin(nodes: seq<Section>, min: nat, count: string -> nat): seq<Section>
    decreases |nodes|
  {
    if nodes == [] then []
    else
      var e := Extent(Levels(nodes));
      var inner, rest := Thin(nodes[1..e], min, count), Thin(nodes[e..], min, count);
      if nodes[0].tokens < min then [Merged(nodes[0], inner, count)] + rest
      else [nodes[0]] + inner + rest
  }

  /** A nonempty list is a section, its subsections, and what follows them. */
  lemma Parts(nodes: seq<Section>) returns (x: Section, sub: seq<Section>, after: seq<Section>)
    requires nodes != []
    ensures nodes == [x] + sub + after && |sub| < |nodes| && |after| < |nodes|
    ensures forall y | y in sub :: y.level > x.level
    ensures after != [] ==> after[0].level <= x.level
    ensures forall min, count ::
              Thin(nodes, min, count) ==
                if x.tokens < min then [Merged(x, Thin(sub, min, count), count)] + Thin(after, min, count)
                else [x] + Thin(sub, min, count) + Thin(after, min, count)
  {
    var e := Extent(Levels(nodes));
    x, sub, after := nodes[0], nodes[1..e], nodes[e..];
    Thirds(nodes, e);
  }

  /** Thinning keeps every word, in order. */
  lemma {:induction false} ThinConserves(nodes: seq<Section>, min: nat, count: string -> nat)
    ensures Words(Thin(nodes, min, count)) == Words(nodes)
    decreases |nodes|
  {
    if nodes != [] {
      var x, sub, after := Parts(nodes);
      var inner, rest := Thin(sub, min, count), Thin(after, min, count);
      ThinConserves(sub, min, count);
      ThinConserves(after, min, count);
      WordsOfThree(x, sub, after);
      if x.tokens < min {
        MergedWords(x, inner, count);
        WordsOfOne(Merged(x, inner, count));
        WordsConcat([Merged(x, inner, count)], rest);
      } else {
        WordsOfThree(x, inner, rest);
      }
    }
  }

  /** x is one of the sections: as it was, or below the threshold, with what it swallowed. */
  ghost predicate Survives(nodes: seq<Section>, min: nat, count: string -> nat, x: Section)
  {
    exists y :: y in nodes && x == y.(text := x.text, tokens := x.tokens)
                && (x == y || (y.tokens < min && x.tokens == count(x.text)))
  }

  lemma SurvivesIn(part: seq<Section>, nodes: seq<Section>, min: nat, count: string -> nat, x: Section)
    requires Survives(part, min, count, x) && forall y | y in part :: y in nodes
    ensures Survives(nodes, min, count, x)
  {
  }

  /** Thinning makes up no section. */
  lemma {:induction false} ThinSurvivors(nodes: seq<Section>, min: nat, count: string -> nat, x: Section)
    requires x in Thin(nodes, min, count)
    ensures Survives(nodes, min, count, x)
    decreases |nodes|
  {
    var head, sub, after := Parts(nodes);
    if x in Thin(after, min, count) {
      ThinSurvivors(after, min, count, x);
      SurvivesIn(after, nodes, min, count, x);
    } else if head.tokens >= min && x in Thin(sub, min, count) {
      ThinSurvivors(sub, min, count, x);
      SurvivesIn(sub, nodes, min, count, x);
    } else {
      assert head in nodes;
    }
  }

  lemma WordsOfThree(x: Section, inner: seq<Section>, rest: seq<Section>)
    ensures Words([x] + inner + rest) == Erase(x.text) + Words(inner) + Words(rest)
  {
    WordsConcat([x] + inner, rest);
    WordsConcat([x], inner);
    WordsOfOne(x);
  }

  // ---- Thinning and building -------------------------------------------------------------------

  /** What a tree node says, up to whitespace. */
  datatype Heading = Heading(title: string, line: nat, level: nat, words: string)

  function Bare(x: Section): Heading { Heading(x.title, x.line, x.level, Erase(x.text)) }

  function BareForest(f: seq<Tree<Section>>): seq<Tree<Heading>>
  {
    if f == [] then [] else [Tree(Bare(f[0].root), BareForest(f[0].kids))] + BareForest(f[1..])
  }

  /** The tree in which every node below the threshold has become a leaf that holds the words of
      its whole subtree in document order. */
  function Collapse(f: seq<Tree<Section>>, min: nat): seq<Tree<Heading>>
  {
    if f == [] then []
    else
      var root, kids := f[0].root, f[0].kids;
      [if root.tokens < min then Tree(Bare(root).(words := Erase(root.text) + Words(Preorder(kids))), [])
       else Tree(Bare(root), Collapse(kids, min))]
      + Collapse(f[1..], min)
  }

  /** Thinning invents no level. */
  lemma {:induction false} ThinLevels(nodes: seq<Section>, min: nat, count: string -> nat, bound: nat)
    requires forall x | x in nodes :: x.level > bound
    ensures forall x | x in Thin(nodes, min, count) :: x.level > bound
    decreases |nodes|
  {
    if nodes != [] {
      var x, sub, after := Parts(nodes);
      ThinLevels(sub, min, count, bound);
      ThinLevels(after, min, count, bound);
      assert x in nodes;
    }
  }

  /** Thinning starts where its input starts. */
  lemma ThinHead(nodes: seq<Section>, min: nat, count: string -> nat)
    ensures nodes == [] <==> Thin(nodes, min, count) == []
    ensures nodes != [] ==> Thin(nodes, min, count)[0].level == nodes[0].level
  {
  }

  function Forested(nodes: seq<Section>): seq<Tree<Section>> { Build(nodes, Levels(nodes)) }

  lemma LevelsOfSplit(x: Section, inner: seq<Section>, rest: seq<Section>)
    ensures Levels([x] + inner + rest) == [x.level] + Levels(inner) + Levels(rest)
  {
  }

  lemma ForestedOfSplit(x: Section, inner: seq<Section>, rest: seq<Section>)
    requires forall y | y in inner :: y.level > x.level
    requires rest != [] ==> rest[0].level <= x.level
    ensures Forested([x] + inner + rest) == [Tree(x, Forested(inner))] + Forested(rest)
  {
    BuildOfSplit(x, x.level, inner, Levels(inner), rest, Levels(rest));
    LevelsOfSplit(x, inner, rest);
  }

  lemma BareCons(t: Tree<Section>, rest: seq<Tree<Section>>)
    ensures BareForest([t] + rest) == [Tree(Bare(t.root), BareForest(t.kids))] + BareForest(rest)
  {
    assert ([t] + rest)[1..] == rest;
  }

  lemma CollapseCons(t: Tree<Section>, rest: seq<Tree<Section>>, min: nat)
    ensures Collapse([t] + rest, min) == Collapse([t], min) + Collapse(rest, min)
    ensures t.root.tokens >= min ==> Collapse([t], min) == [Tree(Bare(t.root), Collapse(t.kids, min))]
    ensures t.root.tokens < min ==>
              Collapse([t], min) == [Tree(Bare(t.root).(words := Erase(t.root.text) + Words(Preorder(t.kids))), [])]
  {
    assert ([t] + rest)[1..] == rest && [t][1..] == [];
    assert Collapse([t][1..], min) == [];
  }

  /** One section below the threshold: its leaf holds the words of the subtree it replaces. */
  lemma SwallowStep(x: Section, sub: seq<Section>, after: seq<Section>, inner: seq<Section>, rest: seq<Section>,
                    min: nat, count: string -> nat)
    requires x.tokens < min && Words(inner) == Words(sub)
    requires forall y | y in sub :: y.level > x.level
    requires (after != [] ==> after[0].level <= x.level) && (rest != [] ==> rest[0].level <= x.level)
    requires BareForest(Forested(rest)) == Collapse(Forested(after), min)
    ensures BareForest(Forested([Merged(x, inner, count)] + rest)) == Collapse(Forested([x] + sub + after), min)
  {
    var y := Merged(x, inner, count);
    ForestedOfSplit(x, sub, after);
    CollapseCons(Tree(x, Forested(sub)), Forested(after), min);
    assert [y] + [] + rest == [y] + rest;
    ForestedOfSplit(y, [], rest);
    BareCons(Tree(y, Forested([])), Forested(rest));
    MergedWords(x, inner, count);
    PreorderOfBuild(sub, Levels(sub));
  }

  /** One section that stays as it is. */
  lemma KeepStep(x: Section, sub: seq<Section>, after: seq<Section>, inner: seq<Section>, rest: seq<Section>, min: nat)
    requires x.tokens >= min
    requires forall y | y in sub :: y.level > x.level
    requires forall y | y in inner :: y.level > x.level
    requires (after != [] ==> after[0].level <= x.level) && (rest != [] ==> rest[0].level <= x.level)
    requires BareForest(Forested(inner)) == Collapse(Forested(sub), min)
    requires BareForest(Forested(rest)) == Collapse(Forested(after), min)
    ensures BareForest(Forested([x] + inner + rest)) == Collapse(Forested([x] + sub + after), min)
  {
    ForestedOfSplit(x, sub, after);
    CollapseCons(Tree(x, Forested(sub)), Forested(after), min);
    ForestedOfSplit(x, inner, rest);
    BareCons(Tree(x, Forested(inner)), Forested(rest));
  }

  /** Thinning the list and building the tree is building the tree and collapsing it. */
  lemma {:induction false} ThinThenBuildIsCollapse(nodes: seq<Section>, min: nat, count: string -> nat)
    ensures BareForest(Forested(Thin(nodes, min, count))) == Collapse(Forested(nodes), min)
    decreases |nodes|
  {
    if nodes != [] {
      var x, sub, after := Parts(nodes);
      var inner, rest := Thin(sub, min, count), Thin(after, min, count);
      ThinThenBuildIsCollapse(sub, min, count);
      ThinThenBuildIsCollapse(after, min, count);
      ThinHead(after, min, count);
      if x.tokens < min {
        ThinConserves(sub, min, count);
        SwallowStep(x, sub, after, inner, rest, min, count);
      } else {
        ThinLevels(sub, min, count, x.level);
        KeepStep(x, sub, after, inner, rest, min);
      }
    }
  }
}
