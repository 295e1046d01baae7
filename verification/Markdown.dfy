// From a Markdown text to its section tree: header extraction, section texts, optional thinning,
// tree building and node numbering, with the end-to-end statement that no word is lost.
module Markdown {
  import opened Forest
  import opened Text
  import opened MarkdownHeaders
  import opened TreeBuilder
  import opened Thinning
  import opened ThinningLoop

  datatype Header = Header(title: string, line: nat)

  /** For each of the first k lines, whether it is a header. */
  function MarksTo(lines: seq<string>, k: nat): (marks: seq<bool>)
    requires k <= |lines|
    ensures |marks| == k
    ensures forall i {:trigger HeaderAt(lines, i)} | 0 <= i < k :: marks[i] == HeaderAt(lines, i)
  {
    if k == 0 then [] else MarksTo(lines, k - 1) + [HeaderAt(lines, k - 1)]
  }

  function Marks(lines: seq<string>): (marks: seq<bool>)
    ensures |marks| == |lines|
    ensures forall k {:trigger HeaderAt(lines, k)} | 0 <= k < |lines| :: marks[k] == HeaderAt(lines, k)
  {
    MarksTo(lines, |lines|)
  }

  /** For each of the first k lines, what the title would be. */
  function TitlesTo(lines: seq<string>, k: nat): (titles: seq<string>)
    requires k <= |lines|
    ensures |titles| == k
    ensures forall i {:trigger TitleAt(lines[i])} | 0 <= i < k :: titles[i] == TitleAt(lines[i])
  {
    if k == 0 then [] else TitlesTo(lines, k - 1) + [TitleAt(lines[k - 1])]
  }

  function Titles(lines: seq<string>): (titles: seq<string>)
    ensures |titles| == |lines|
    ensures forall k {:trigger TitleAt(lines[k])} | 0 <= k < |lines| :: titles[k] == TitleAt(lines[k])
  {
    TitlesTo(lines, |lines|)
  }

  /** The marked lines among the first k, in order, with their titles. */
  function HeaderList(marks: seq<bool>, titles: seq<string>, k: nat): seq<Header>
    requires k <= |marks| == |titles|
  {
    if k == 0 then []
    else if marks[k - 1] then HeaderList(marks, titles, k - 1) + [Header(titles[k - 1], k)]
    else HeaderList(marks, titles, k - 1)
  }

  /** One line of the extraction loop. */
  method ReadLine(lines: seq<string>, k: nat, inFence: bool) returns (inFence': bool, title: seq<string>)
    requires k < |lines| && inFence == InFence(lines, k)
    ensures inFence' == InFence(lines, k + 1)
    ensures title == if Marks(lines)[k] then [Titles(lines)[k]] else []
  {
    var stripped := Strip(lines[k]);
    assert Marks(lines)[k] == HeaderAt(lines, k) && Titles(lines)[k] == TitleAt(lines[k]);
    inFence', title := inFence, [];
    if IsFence(stripped) {
      inFence' := !inFence;
    } else if stripped != "" && !inFence && IsHeader(stripped) {
      title := [Title(stripped)];
    }
  }

  /** `extract_nodes_from_markdown`: every header line outside fences, once, in order. */
  method ExtractNodes(lines: seq<string>) returns (headers: seq<Header>)
    ensures headers == HeaderList(Marks(lines), Titles(lines), |lines|)
  {
    headers := [];
    var inFence := false;
    ghost var marks, titles := Marks(lines), Titles(lines);
    for k := 0 to |lines|
      invariant inFence == InFence(lines, k)
      invariant headers == HeaderList(marks, titles, k)
    {
      var title;
      inFence, title := ReadLine(lines, k, inFence);
      if title != [] { headers := headers + [Header(title[0], k + 1)]; }
    }
  }

  // ---- Sections ---------------------------------------------------------------------------------

  /** The numbers of the retained lines among the first k, in order. */
  function RetainedLines(lines: seq<string>, k: nat): seq<nat>
    requires k <= |lines|
  {
    if k == 0 then []
    else if RetainedAt(lines, k - 1) then RetainedLines(lines, k - 1) + [k]
    else RetainedLines(lines, k - 1)
  }

  /** The headers name lines of the document. */
  ghost predicate Fit(lines: seq<string>, headers: seq<Header>)
  {
    forall i | 0 <= i < |headers| :: 1 <= headers[i].line <= |lines|
  }

  /** The sections before their texts are filled in: unindented headers with their level. */
  function OpenSections(lines: seq<string>, headers: seq<Header>): seq<Section>
    requires Fit(lines, headers)
  {
    if headers == [] then []
    else
      var init, last := OpenSections(lines, headers[..|headers| - 1]), headers[|headers| - 1];
      var line := lines[last.line - 1];
      if Unindented(line) then init + [OpenSection(lines, last)] else init
  }

  function LineNumbers(sections: seq<Section>): (r: seq<nat>)
    ensures |r| == |sections| && forall i | 0 <= i < |r| :: r[i] == sections[i].line
  {
    seq(|sections|, i requires 0 <= i < |sections| => sections[i].line)
  }

  lemma LineNumbersSnoc(init: seq<Section>, last: Section)
    ensures LineNumbers(init + [last]) == LineNumbers(init) + [last.line]
  {
  }

  function OpenSection(lines: seq<string>, header: Header): Section
    requires 1 <= header.line <= |lines|
  {
    Section(header.title, header.line, LevelOf(lines[header.line - 1]), "", 0)
  }

  lemma OpenSectionsSnoc(lines: seq<string>, init: seq<Header>, last: Header)
    requires Fit(lines, init)
    requires 1 <= last.line <= |lines|
    ensures OpenSections(lines, init + [last]) ==
              if Unindented(lines[last.line - 1]) then OpenSections(lines, init) + [OpenSection(lines, last)]
              else OpenSections(lines, init)
  {
    assert (init + [last])[..|init|] == init;
  }

  /** The numbers of the marked lines among the first k that are not indented. */
  function MarkedLines(lines: seq<string>, marks: seq<bool>, k: nat): seq<nat>
    requires k <= |lines| == |marks|
  {
    if k == 0 then []
    else if marks[k - 1] && Unindented(lines[k - 1]) then MarkedLines(lines, marks, k - 1) + [k]
    else MarkedLines(lines, marks, k - 1)
  }

  lemma {:induction false} RetainedAreMarked(lines: seq<string>, marks: seq<bool>, k: nat)
    requires k <= |lines| == |marks| && forall i {:trigger HeaderAt(lines, i)} | 0 <= i < k ::
               marks[i] == HeaderAt(lines, i)
    ensures RetainedLines(lines, k) == MarkedLines(lines, marks, k)
  {
    if k > 0 {
      RetainedAreMarked(lines, marks, k - 1);
      assert marks[k - 1] == HeaderAt(lines, k - 1);
    }
  }

  lemma NumbersStep(list: seq<Section>, section: Section, keep: bool, list': seq<Section>, numbers: seq<nat>)
    requires LineNumbers(list) == numbers && list' == if keep then list + [section] else list
    ensures LineNumbers(list') == if keep then numbers + [section.line] else numbers
  {
    LineNumbersSnoc(list, section);
  }

  /** A header adds a section exactly when its line is not indented. */
  lemma OneMoreHeader(lines: seq<string>, before: seq<Header>, last: Header, numbers: seq<nat>)
    requires Fit(lines, before) && 1 <= last.line <= |lines| && LineNumbers(OpenSections(lines, before)) == numbers
    ensures Fit(lines, before + [last])
    ensures LineNumbers(OpenSections(lines, before + [last])) ==
              if Unindented(lines[last.line - 1]) then numbers + [last.line] else numbers
  {
    var keep := Unindented(lines[last.line - 1]);
    OpenSectionsSnoc(lines, before, last);
    NumbersStep(OpenSections(lines, before), OpenSection(lines, last), keep, OpenSections(lines, before + [last]),
                numbers);
  }

  lemma MaybeHeader(lines: seq<string>, before: seq<Header>, last: Header, mark: bool, after: seq<Header>,
                    numbers: seq<nat>, numbers': seq<nat>)
    requires Fit(lines, before) && 1 <= last.line <= |lines| && LineNumbers(OpenSections(lines, before)) == numbers
    requires after == if mark then before + [last] else before
    requires numbers' == if mark && Unindented(lines[last.line - 1]) then numbers + [last.line] else numbers
    ensures Fit(lines, after) && LineNumbers(OpenSections(lines, after)) == numbers'
  {
    OneMoreHeader(lines, before, last, numbers);
  }

  lemma {:induction false} MarkedSections(lines: seq<string>, marks: seq<bool>, titles: seq<string>, k: nat)
    requires k <= |lines| == |titles| == |marks|
    ensures Fit(lines, HeaderList(marks, titles, k))
    ensures LineNumbers(OpenSections(lines, HeaderList(marks, titles, k))) == MarkedLines(lines, marks, k)
  {
    if k > 0 {
      MarkedSections(lines, marks, titles, k - 1);
      MaybeHeader(lines, HeaderList(marks, titles, k - 1), Header(titles[k - 1], k), marks[k - 1],
                  HeaderList(marks, titles, k), MarkedLines(lines, marks, k - 1), MarkedLines(lines, marks, k));
    }
  }

  /** The sections are exactly the retained header lines, once each and in order. */
  lemma OpenSectionsLines(lines: seq<string>, titles: seq<string>)
    requires |lines| == |titles|
    ensures Fit(lines, HeaderList(Marks(lines), titles, |lines|))
    ensures LineNumbers(OpenSections(lines, HeaderList(Marks(lines), titles, |lines|))) == RetainedLines(lines, |lines|)
  {
    MarkedSections(lines, Marks(lines), titles, |lines|);
    RetainedAreMarked(lines, Marks(lines), |lines|);
  }

  predicate RiseTo(numbers: seq<nat>, k: nat)
  {
    && (forall i | 0 <= i < |numbers| :: 1 <= numbers[i] <= k)
    && forall i | 0 < i < |numbers| :: numbers[i - 1] < numbers[i]
  }

  lemma RiseSnoc(numbers: seq<nat>, k: nat)
    requires RiseTo(numbers, k)
    ensures RiseTo(numbers, k + 1) && RiseTo(numbers + [k + 1], k + 1)
  {
  }

  lemma {:induction false} RetainedLinesRise(lines: seq<string>, k: nat)
    requires k <= |lines|
    ensures RiseTo(RetainedLines(lines, k), k)
  {
    if k > 0 {
      RetainedLinesRise(lines, k - 1);
      RiseSnoc(RetainedLines(lines, k - 1), k - 1);
    }
  }

  /** One past the last line of section i: the line before the next section, or the last line. */
  function SectionEnd(lines: seq<string>, sections: seq<Section>, i: nat): int
    requires i < |sections|
  {
    if i + 1 < |sections| then sections[i + 1].line - 1 else |lines|
  }

  /** Sections start on rising lines, and each holds the stripped text of exactly the lines from
      its header up to the next section: the line ranges are disjoint and leave no gap. */
  ghost predicate Sectioned(lines: seq<string>, sections: seq<Section>)
  {
    && (forall i | 0 <= i < |sections| :: 1 <= sections[i].line <= |lines|)
    && (forall i | 0 <= i < |sections| - 1 :: sections[i].line < sections[i + 1].line)
    && (forall i | 0 <= i < |sections| ::
          sections[i].text == Strip(JoinLines(lines[sections[i].line - 1..SectionEnd(lines, sections, i)])))
  }

  /** For each of the first k lines, the level its leading hashes give. */
  function LineLevelsTo(lines: seq<string>, k: nat): (levels: seq<nat>)
    requires k <= |lines|
    ensures |levels| == k
    ensures forall i {:trigger LevelOf(lines[i])} | 0 <= i < k :: levels[i] == LevelOf(lines[i])
  {
    if k == 0 then [] else LineLevelsTo(lines, k - 1) + [LevelOf(lines[k - 1])]
  }

  function LineLevels(lines: seq<string>): (levels: seq<nat>)
    ensures |levels| == |lines|
    ensures forall i {:trigger LevelOf(lines[i])} | 0 <= i < |lines| :: levels[i] == LevelOf(lines[i])
  {
    LineLevelsTo(lines, |lines|)
  }

  /** Every section carries the title and the level of its header line. */
  ghost predicate Described(titles: seq<string>, levels: seq<nat>, sections: seq<Section>)
    requires |titles| == |levels|
  {
    forall i | 0 <= i < |sections| ::
      1 <= sections[i].line <= |titles| && sections[i].title == titles[sections[i].line - 1]
      && sections[i].level == levels[sections[i].line - 1]
  }

  ghost predicate Titled(titles: seq<string>, headers: seq<Header>)
  {
    forall i | 0 <= i < |headers| :: 1 <= headers[i].line <= |titles| && headers[i].title == titles[headers[i].line - 1]
  }

  lemma TitledSnoc(titles: seq<string>, init: seq<Header>, k: nat)
    requires Titled(titles, init) && 0 < k <= |titles|
    ensures Titled(titles, init + [Header(titles[k - 1], k)])
  {
  }

  lemma {:induction false} HeaderListTitled(marks: seq<bool>, titles: seq<string>, k: nat)
    requires k <= |marks| == |titles|
    ensures Titled(titles, HeaderList(marks, titles, k))
  {
    if k > 0 {
      HeaderListTitled(marks, titles, k - 1);
      TitledSnoc(titles, HeaderList(marks, titles, k - 1), k);
    }
  }

  lemma DescribedSnoc(titles: seq<string>, levels: seq<nat>, init: seq<Section>, last: Section)
    requires |titles| == |levels| && Described(titles, levels, init) && 1 <= last.line <= |titles|
    requires last.title == titles[last.line - 1] && last.level == levels[last.line - 1]
    ensures Described(titles, levels, init + [last])
  {
  }

  lemma OpenSectionIs(lines: seq<string>, last: Header)
    requires 1 <= last.line <= |lines|
    ensures OpenSection(lines, last).title == last.title && OpenSection(lines, last).line == last.line
    ensures OpenSection(lines, last).level == LineLevels(lines)[last.line - 1]
  {
    assert LineLevels(lines)[last.line - 1] == LevelOf(lines[last.line - 1]);
  }

  lemma TitledParts(titles: seq<string>, headers: seq<Header>)
    requires headers != [] && Titled(titles, headers)
    ensures Titled(titles, headers[..|headers| - 1])
    ensures forall i | 0 <= i < |headers| :: 1 <= headers[i].line <= |titles|
  {
  }

  lemma {:induction false} OpenSectionsDescribed(lines: seq<string>, titles: seq<string>, levels: seq<nat>,
                                                 headers: seq<Header>)
    requires |titles| == |lines| && levels == LineLevels(lines) && Titled(titles, headers)
    ensures Described(titles, levels, OpenSections(lines, headers))
  {
    if headers != [] {
      var init, last := headers[..|headers| - 1], headers[|headers| - 1];
      TitledParts(titles, headers);
      OpenSectionsDescribed(lines, titles, levels, init);
      OpenSectionIs(lines, last);
      DescribedSnoc(titles, levels, OpenSections(lines, init), OpenSection(lines, last));
    }
  }

  lemma SameDescribed(titles: seq<string>, levels: seq<nat>, a: seq<Section>, b: seq<Section>)
    requires |titles| == |levels| && |a| == |b| && Described(titles, levels, a)
    requires forall i | 0 <= i < |a| :: a[i].title == b[i].title && a[i].line == b[i].line && a[i].level == b[i].level
    ensures Described(titles, levels, b)
  {
  }

  lemma WordsOfFirst(first: Section, rest: seq<Section>)
    ensures Words([first] + rest) == Erase(first.text) + Words(rest)
  {
    WordsOfOne(first);
    WordsConcat([first], rest);
  }

  lemma TextWords(lines: seq<string>)
    ensures Erase(Strip(JoinLines(lines))) == EraseAll(lines)
  {
    EraseStrip(JoinLines(lines));
    EraseJoin(lines);
  }

  lemma {:induction false} SectionWords(lines: seq<string>, sections: seq<Section>)
    requires sections != [] && Sectioned(lines, sections)
    ensures Words(sections) == EraseAll(lines[sections[0].line - 1..])
    decreases |sections|
  {
    var first, rest := sections[0], sections[1..];
    var start, end := first.line - 1, SectionEnd(lines, sections, 0);
    TextWords(lines[start..end]);
    WordsOfFirst(first, rest);
    assert sections == [first] + rest;
    SplitAll(lines, start, end);
    if rest != [] {
      RestSectioned(lines, sections);
      SectionWords(lines, rest);
    } else {
      assert Words(rest) == "" && lines[end..] == [];
    }
  }

  /** No word is lost: the sections hold all words of the document from the first section on. */
  lemma SectionsHoldAllWords(lines: seq<string>, sections: seq<Section>)
    requires sections != [] && Sectioned(lines, sections)
    ensures Words(sections) == Erase(JoinLines(lines[sections[0].line - 1..]))
  {
    SectionWords(lines, sections);
    EraseJoin(lines[sections[0].line - 1..]);
  }

  lemma SplitAll(lines: seq<string>, start: nat, end: nat)
    requires start <= end <= |lines|
    ensures EraseAll(lines[start..]) == EraseAll(lines[start..end]) + EraseAll(lines[end..])
  {
    EraseAllConcat(lines[start..end], lines[end..]);
    assert lines[start..end] + lines[end..] == lines[start..];
  }

  lemma RestSectioned(lines: seq<string>, sections: seq<Section>)
    requires |sections| > 1 && Sectioned(lines, sections)
    ensures Sectioned(lines, sections[1..])
  {
    var rest := sections[1..];
    forall i | 0 <= i < |rest| ensures
      rest[i].text == Strip(JoinLines(lines[rest[i].line - 1..SectionEnd(lines, rest, i)]))
    {
      assert rest[i] == sections[i + 1] && SectionEnd(lines, rest, i) == SectionEnd(lines, sections, i + 1);
    }
  }

  lemma {:induction false} OpenSectionsLevels(lines: seq<string>, headers: seq<Header>)
    requires Fit(lines, headers)
    ensures forall x | x in OpenSections(lines, headers) :: 1 <= x.level <= 6
  {
    if headers != [] { OpenSectionsLevels(lines, headers[..|headers| - 1]); }
  }

  lemma OneMoreKept(lines: seq<string>, headers: seq<Header>, i: nat)
    requires Fit(lines, headers) && i < |headers|
    ensures Fit(lines, headers[..i]) && Fit(lines, headers[..i + 1])
    ensures OpenSections(lines, headers[..i + 1]) ==
              if Unindented(lines[headers[i].line - 1])
              then OpenSections(lines, headers[..i]) + [OpenSection(lines, headers[i])]
              else OpenSections(lines, headers[..i])
  {
    assert Fit(lines, headers[..i]);
    OpenSectionsSnoc(lines, headers[..i], headers[i]);
    assert headers[..i] + [headers[i]] == headers[..i + 1];
  }

  method KeepUnindented(lines: seq<string>, headers: seq<Header>) returns (sections: seq<Section>)
    requires Fit(lines, headers)
    ensures sections == OpenSections(lines, headers)
  {
    sections := [];
    for i := 0 to |headers|
      invariant Fit(lines, headers[..i]) && sections == OpenSections(lines, headers[..i])
    {
      OneMoreKept(lines, headers, i);
      var line := lines[headers[i].line - 1];
      if line != "" && line[0] == '#' {
        var level := HashCount(line);
        sections := sections + [Section(headers[i].title, headers[i].line, if level <= 6 then level else 6, "", 0)];
      }
    }
    assert headers[..|headers|] == headers;
  }

  ghost predicate Starts(lines: seq<string>, open: seq<Section>)
  {
    && (forall i | 0 <= i < |open| :: 1 <= open[i].line <= |lines|)
    && forall i | 0 < i < |open| :: open[i - 1].line < open[i].line
  }

  /** Section j with the stripped text of its lines. */
  function WithText(lines: seq<string>, open: seq<Section>, j: nat): Section
    requires j < |open| && Starts(lines, open)
  {
    open[j].(text := Strip(JoinLines(lines[open[j].line - 1..SectionEnd(lines, open, j)])))
  }

  /** The section starts of `open`, with the first n texts filled in. */
  ghost predicate Filled(lines: seq<string>, open: seq<Section>, sections: seq<Section>, n: nat)
    requires n <= |open| == |sections| && Starts(lines, open)
  {
    && (forall j | n <= j < |open| :: sections[j] == open[j])
    && (forall j | 0 <= j < n :: sections[j] == WithText(lines, open, j))
  }

  lemma FilledIsSectioned(lines: seq<string>, open: seq<Section>, sections: seq<Section>)
    requires |open| == |sections| && Starts(lines, open) && Filled(lines, open, sections, |open|)
    ensures Sectioned(lines, sections) && LineNumbers(sections) == LineNumbers(open)
    ensures forall i | 0 <= i < |sections| ::
              sections[i].level == open[i].level && sections[i].title == open[i].title
              && sections[i].line == open[i].line
  {
    forall i | 0 <= i < |sections| ensures SectionEnd(lines, sections, i) == SectionEnd(lines, open, i) {
    }
  }

  method FillText(lines: seq<string>, open: seq<Section>, sections: seq<Section>, i: nat) returns (section: Section)
    requires i < |open| == |sections| && Starts(lines, open)
    requires forall j | i <= j < |open| :: sections[j] == open[j]
    ensures section == WithText(lines, open, i)
  {
    var end := if i + 1 < |sections| then sections[i + 1].line - 1 else |lines|;
    section := sections[i].(text := Strip(JoinLines(lines[sections[i].line - 1..end])));
  }

  method FillTexts(lines: seq<string>, open: seq<Section>) returns (sections: seq<Section>)
    requires Starts(lines, open)
    ensures |sections| == |open| && Filled(lines, open, sections, |open|)
  {
    sections := open;
    for i := 0 to |open|
      invariant |sections| == |open| && Filled(lines, open, sections, i)
    {
      var section := FillText(lines, open, sections, i);
      sections := sections[i := section];
    }
  }

  /** `extract_node_text_content`: the first loop keeps the unindented headers, the second fills in
      each section's text up to the next section. */
  method ExtractNodeTexts(lines: seq<string>, headers: seq<Header>) returns (sections: seq<Section>)
    requires headers == HeaderList(Marks(lines), Titles(lines), |lines|)
    ensures Sectioned(lines, sections) && LineNumbers(sections) == RetainedLines(lines, |lines|)
    ensures Described(Titles(lines), LineLevels(lines), sections)
    ensures forall i | 0 <= i < |sections| :: 1 <= sections[i].level <= 6
  {
    OpenSectionsOrdered(lines, headers);
    var open := KeepUnindented(lines, headers);
    sections := FillTexts(lines, open);
    FilledIsSectioned(lines, open, sections);
    OpenDescribed(lines, headers, open);
    SameDescribed(Titles(lines), LineLevels(lines), open, sections);
  }

  lemma OpenDescribed(lines: seq<string>, headers: seq<Header>, open: seq<Section>)
    requires headers == HeaderList(Marks(lines), Titles(lines), |lines|)
    requires Fit(lines, headers) && open == OpenSections(lines, headers)
    ensures Described(Titles(lines), LineLevels(lines), open)
  {
    HeaderListTitled(Marks(lines), Titles(lines), |lines|);
    OpenSectionsDescribed(lines, Titles(lines), LineLevels(lines), headers);
  }

  lemma OpenSectionsOrdered(lines: seq<string>, headers: seq<Header>)
    requires headers == HeaderList(Marks(lines), Titles(lines), |lines|)
    ensures forall i | 0 <= i < |headers| :: 1 <= headers[i].line <= |lines|
    ensures var open := OpenSections(lines, headers);
            && LineNumbers(open) == RetainedLines(lines, |lines|)
            && (forall i | 0 <= i < |open| :: 1 <= open[i].line <= |lines| && 1 <= open[i].level <= 6)
            && (forall i | 0 < i < |open| :: open[i - 1].line < open[i].line)
  {
    OpenSectionsLines(lines, Titles(lines));
    OpenSectionsLevels(lines, headers);
    var open := OpenSections(lines, headers);
    RetainedBounds(lines, LineNumbers(open));
    assert forall i | 0 <= i < |open| :: open[i].line == LineNumbers(open)[i] && open[i] in open;
  }

  lemma RetainedBounds(lines: seq<string>, numbers: seq<nat>)
    requires numbers == RetainedLines(lines, |lines|)
    ensures forall i | 0 <= i < |numbers| :: 1 <= numbers[i] <= |lines|
    ensures forall i | 0 < i < |numbers| :: numbers[i - 1] < numbers[i]
  {
    RetainedLinesRise(lines, |lines|);
  }

  // ---- The pipeline -----------------------------------------------------------------------------

  /** The words of the document from its first retained header on. */
  function RetainedWords(lines: seq<string>): string
  {
    var retained := RetainedLines(lines, |lines|);
    if retained != [] && retained[0] <= |lines| && retained[0] > 0
    then Erase(JoinLines(lines[retained[0] - 1..]))
    else ""
  }

  lemma SectionedWords(lines: seq<string>, sections: seq<Section>)
    requires Sectioned(lines, sections) && LineNumbers(sections) == RetainedLines(lines, |lines|)
    ensures Words(sections) == RetainedWords(lines)
  {
    if sections != [] {
      assert LineNumbers(sections)[0] == sections[0].line;
      SectionsHoldAllWords(lines, sections);
    }
  }

  lemma SameTextsSameWords(a: seq<Section>, b: seq<Section>)
    requires |a| == |b| && forall i | 0 <= i < |a| :: a[i].text == b[i].text
    ensures Words(a) == Words(b)
  {
    assert Texts(a) == Texts(b);
  }

  /** The sections the tree is built from: counted and thinned when asked for. */
  method Prepare(sections: seq<Section>, thinning: bool, min: nat, count: string -> nat)
      returns (nodes: seq<Section>, ghost full: seq<Section>)
    ensures |full| == |sections| && forall i | 0 <= i < |full| :: full[i] == sections[i].(tokens := full[i].tokens)
    ensures thinning ==> forall i | 0 <= i < |full| :: full[i].tokens == count(SubtreeText(full, i))
    ensures Words(nodes) == Words(sections)
    ensures BareForest(Forested(nodes)) ==
              if thinning then Collapse(Forested(full), min) else BareForest(Forested(full))
  {
    nodes, full := sections, sections;
    if thinning {
      nodes := UpdateTokenCounts(sections, count);
      full := nodes;
      forall i | 0 <= i < |full| ensures full[i].tokens == count(SubtreeText(full, i)) {
        SameSubtreeText(sections, full, i);
      }
      nodes := TreeThinning(nodes, min, count);
      SameTextsSameWords(full, sections);
      ThinConserves(full, min, count);
      ThinThenBuildIsCollapse(full, min, count);
    }
  }

  /** The sections of a document: the two extraction passes. */
  method ReadSections(lines: seq<string>) returns (sections: seq<Section>)
    ensures LineNumbers(sections) == RetainedLines(lines, |lines|)
    ensures Described(Titles(lines), LineLevels(lines), sections)
    ensures Sectioned(lines, sections) && Words(sections) == RetainedWords(lines)
  {
    var headers := ExtractNodes(lines);
    sections := ExtractNodeTexts(lines, headers);
    SectionedWords(lines, sections);
  }

  /** The sections stand on rising lines, one for every line that opens a section, with its level and title. */
  ghost predicate SectionsOf(lines: seq<string>, sections: seq<Section>)
  {
    && (forall i | 0 <= i < |sections| :: Opens(lines, sections[i].line, sections[i].level, sections[i].title))
    && (forall i | 0 < i < |sections| :: sections[i - 1].line < sections[i].line)
    && forall k, level, title | Opens(lines, k, level, title) :: exists i ::
         0 <= i < |sections| && sections[i].line == k
  }

  lemma InMaybe(list: seq<nat>, k: nat, joins: bool, n: nat)
    ensures n in (if joins then list + [k] else list) <==> n in list || (joins && n == k)
  {
  }

  lemma {:induction false} MarkedHas(lines: seq<string>, marks: seq<bool>, k: nat, n: nat)
    requires k <= |lines| == |marks|
    ensures n in MarkedLines(lines, marks, k) <==> 1 <= n <= k && marks[n - 1] && Unindented(lines[n - 1])
  {
    if k > 0 {
      MarkedHas(lines, marks, k - 1, n);
      InMaybe(MarkedLines(lines, marks, k - 1), k, marks[k - 1] && Unindented(lines[k - 1]), n);
    }
  }

  lemma RetainedHas(lines: seq<string>, n: nat)
    ensures n in RetainedLines(lines, |lines|) <==> 1 <= n <= |lines| && RetainedAt(lines, n - 1)
  {
    RetainedAreMarked(lines, Marks(lines), |lines|);
    MarkedHas(lines, Marks(lines), |lines|, n);
    if 1 <= n <= |lines| { assert Marks(lines)[n - 1] == HeaderAt(lines, n - 1); }
  }

  lemma DescribedAt(lines: seq<string>, titles: seq<string>, levels: seq<nat>, sections: seq<Section>, i: nat)
    requires titles == Titles(lines) && levels == LineLevels(lines)
    requires Described(titles, levels, sections) && i < |sections|
    ensures 1 <= sections[i].line <= |lines|
    ensures sections[i].level == LevelOf(lines[sections[i].line - 1])
    ensures sections[i].title == TitleAt(lines[sections[i].line - 1])
  {
    var k := sections[i].line;
    assert titles[k - 1] == TitleAt(lines[k - 1]) && levels[k - 1] == LevelOf(lines[k - 1]);
  }

  lemma SectionOpens(lines: seq<string>, sections: seq<Section>, i: nat)
    requires LineNumbers(sections) == RetainedLines(lines, |lines|) && i < |sections|
    requires Described(Titles(lines), LineLevels(lines), sections)
    ensures Opens(lines, sections[i].line, sections[i].level, sections[i].title)
  {
    DescribedAt(lines, Titles(lines), LineLevels(lines), sections, i);
    assert LineNumbers(sections)[i] == sections[i].line;
    RetainedHas(lines, sections[i].line);
    OpensIs(lines, sections[i].line, sections[i].level, sections[i].title);
  }

  lemma OpenedHasSection(lines: seq<string>, sections: seq<Section>, k: nat, level: nat, title: string)
    requires LineNumbers(sections) == RetainedLines(lines, |lines|) && Opens(lines, k, level, title)
    ensures exists i :: 0 <= i < |sections| && sections[i].line == k
  {
    OpensIs(lines, k, level, title);
    RetainedHas(lines, k);
    var i :| 0 <= i < |LineNumbers(sections)| && LineNumbers(sections)[i] == k;
    assert sections[i].line == k;
  }

  lemma DescribedSections(lines: seq<string>, sections: seq<Section>)
    requires LineNumbers(sections) == RetainedLines(lines, |lines|)
    requires Described(Titles(lines), LineLevels(lines), sections)
    ensures SectionsOf(lines, sections)
  {
    RetainedLinesRise(lines, |lines|);
    forall i | 0 <= i < |sections|
      ensures Opens(lines, sections[i].line, sections[i].level, sections[i].title)
    {
      SectionOpens(lines, sections, i);
    }
    forall i | 0 < i < |sections| ensures sections[i - 1].line < sections[i].line {
      assert LineNumbers(sections)[i - 1] < LineNumbers(sections)[i];
    }
    forall k, level, title | Opens(lines, k, level, title)
      ensures exists i :: 0 <= i < |sections| && sections[i].line == k
    {
      OpenedHasSection(lines, sections, k, level, title);
    }
  }

  /** The words are those of the text from the beginning of the first section's line on. */
  ghost predicate WordsFrom(content: string, full: seq<Section>, words: string)
  {
    if full == [] then words == ""
    else exists i: nat :: LineBegins(content, i, full[0].line) && words == Erase(content[i..])
  }

  lemma RetainedFrom(content: string, lines: seq<string>, full: seq<Section>)
    requires Pieces(lines, content, '\n') && LineNumbers(full) == RetainedLines(lines, |lines|)
    ensures WordsFrom(content, full, RetainedWords(lines))
  {
    if full != [] {
      assert LineNumbers(full)[0] == full[0].line;
      RetainedHas(lines, full[0].line);
      var i := LinesFrom(lines, content, full[0].line);
    }
  }

  lemma SameTexts(lines: seq<string>, a: seq<Section>, b: seq<Section>)
    requires Sectioned(lines, a) && |a| == |b|
    requires forall i | 0 <= i < |a| :: b[i].line == a[i].line && b[i].text == a[i].text
    ensures Sectioned(lines, b)
  {
    forall i | 0 <= i < |a| ensures SectionEnd(lines, b, i) == SectionEnd(lines, a, i) {}
  }

  lemma DocumentIs(content: string, lines: seq<string>, sections: seq<Section>, full: seq<Section>)
    requires Pieces(lines, content, '\n') && LineNumbers(sections) == RetainedLines(lines, |lines|)
    requires Described(Titles(lines), LineLevels(lines), sections) && Sectioned(lines, sections)
    requires |full| == |sections| && forall i | 0 <= i < |full| :: full[i] == sections[i].(tokens := full[i].tokens)
    ensures SectionsOf(lines, full) && Sectioned(lines, full) && WordsFrom(content, full, RetainedWords(lines))
  {
    assert LineNumbers(full) == LineNumbers(sections);
    SameDescribed(Titles(lines), LineLevels(lines), sections, full);
    DescribedSections(lines, full);
    SameTexts(lines, sections, full);
    RetainedFrom(content, lines, full);
  }

  /** The document as a list of sections, with `lines` what stands between its line breaks. */
  method ReadDocument(content: string, thinning: bool, min: nat, count: string -> nat)
      returns (nodes: seq<Section>, ghost full: seq<Section>, ghost lines: seq<string>)
    ensures Pieces(lines, content, '\n') && SectionsOf(lines, full) && Sectioned(lines, full)
    ensures WordsFrom(content, full, Words(nodes))
    ensures thinning ==> forall i | 0 <= i < |full| :: full[i].tokens == count(SubtreeText(full, i))
    ensures BareForest(Forested(nodes)) ==
              if thinning then Collapse(Forested(full), min) else BareForest(Forested(full))
  {
    var textLines := SplitLines(content);
    SplitIs(content, '\n');
    var sections := ReadSections(textLines);
    nodes, full := Prepare(sections, thinning, min, count);
    lines := textLines;
    DocumentIs(content, lines, sections, full);
  }

  /** `md_to_tree` up to the built tree.  For every document: the tree read in document order holds exactly
      the words of the document from its first section on, thinned or not; the full list has one section for
      every line that opens one; and thinning yields the collapsed form of the full tree, by the token counts
      of whole subtrees. */
  method MdToTree(content: string, thinning: bool, min: nat, count: string -> nat)
      returns (nodes: seq<Section>, roots: seq<nat>, kids: seq<seq<nat>>, ghost full: seq<Section>,
               ghost lines: seq<string>)
    ensures BuiltTo(Levels(nodes), |nodes|, roots, kids) && ForwardLinks(kids)
    ensures forall k | 0 <= k < |roots| :: 0 <= roots[k] < |kids|
    ensures Pieces(lines, content, '\n') && SectionsOf(lines, full) && Sectioned(lines, full)
    ensures WordsFrom(content, full, Words(Preorder(Grow(nodes, kids, 0, roots))))
    ensures thinning ==> forall i | 0 <= i < |full| :: full[i].tokens == count(SubtreeText(full, i))
    ensures BareForest(Grow(nodes, kids, 0, roots)) ==
              if thinning then Collapse(Forested(full), min) else BareForest(Forested(full))
  {
    nodes, full, lines := ReadDocument(content, thinning, min, count);
    roots, kids := BuildTreeFromNodes(Levels(nodes));
    BuiltForest(nodes, Levels(nodes), roots, kids);
  }

  // ---- Node numbers -----------------------------------------------------------------------------

  /** `write_node_id`: a depth-first walk over the child lists that hands out consecutive numbers.
      On a built tree every node gets its position in document order. */
  method WriteNodeIds(kids: seq<seq<nat>>, ids: seq<nat>, nodeId: nat, numbers: seq<nat>,
                      ghost levels: seq<nat>, ghost roots: seq<nat>, ghost hi: nat)
      returns (numbers': seq<nat>, next: nat)
    requires BuiltTo(levels, |levels|, roots, kids) && |numbers| == |levels|
    requires nodeId <= hi <= |levels| && Closed(levels, nodeId, hi) && ids == Tops(levels, nodeId, hi)
    ensures |numbers'| == |numbers| && next == hi
    ensures forall i | 0 <= i < |numbers| :: numbers'[i] == if nodeId <= i < hi then i else numbers[i]
    decreases hi - nodeId
  {
    numbers', next := numbers, nodeId;
    if ids == [] { return; }
    var node := ids[0];
    ghost var e := End(levels, node, |levels|);
    ClosedParts(levels, nodeId, hi);
    numbers' := numbers'[node := nodeId];
    numbers', next := WriteNodeIds(kids, kids[node], nodeId + 1, numbers', levels, roots, e);
    assert Tops(levels, nodeId, hi)[1..] == Tops(levels, e, hi);
    numbers', next := WriteNodeIds(kids, ids[1..], next, numbers', levels, roots, hi);
  }
}
