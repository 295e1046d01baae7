// Which lines of a Markdown text are headers, and what they say: the patterns of the code, and what the
// patterns mean.
module MarkdownHeaders {
  import opened Text

  function HashCount(s: string): (n: nat)
    ensures n <= |s| && (n < |s| ==> s[n] != '#')
  {
    if s != "" && s[0] == '#' then 1 + HashCount(s[1..]) else 0
  }

  predicate IsFence(stripped: string) { |stripped| >= 3 && stripped[..3] == "```" }

  /** One to six hashes, whitespace, and something after it (a stripped line cannot end in the
      whitespace). */
  predicate IsHeader(stripped: string)
  {
    var n := HashCount(stripped);
    1 <= n <= 6 && n < |stripped| && IsSpace(stripped[n])
  }

  function Title(stripped: string): string { Strip(stripped[HashCount(stripped)..]) }

  /** Whether line k of the document lies inside a fenced block opened earlier. */
  predicate InFence(lines: seq<string>, k: nat)
    requires k <= |lines|
  {
    k > 0 && (InFence(lines, k - 1) != IsFence(Strip(lines[k - 1])))
  }

  predicate HeaderAt(lines: seq<string>, k: nat)
    requires k < |lines|
  {
    !InFence(lines, k) && !IsFence(Strip(lines[k])) && IsHeader(Strip(lines[k]))
  }

  function TitleAt(line: string): string { Title(Strip(line)) }

  /** A header line that is not indented; indented ones are reported and dropped. */
  predicate RetainedAt(lines: seq<string>, k: nat)
    requires k < |lines|
  {
    HeaderAt(lines, k) && Unindented(lines[k])
  }

  predicate Unindented(line: string) { line != "" && line[0] == '#' }

  /** The number of leading hashes the level pattern can match. */
  function LevelOf(line: string): nat { if HashCount(line) <= 6 then HashCount(line) else 6 }

  // ---- What the patterns mean -------------------------------------------------------------------------

  /** Without surrounding whitespace the line is n hashes, some whitespace, and the title. */
  ghost predicate Heads(line: string, n: nat, title: string)
  {
    exists t: string :: Trims(line, t) && Tight(t) && Headed(t, n, title)
  }

  ghost predicate Headed(t: string, n: nat, title: string)
  {
    1 <= n <= 6 && title != "" && !IsSpace(title[0])
    && exists j :: n < j <= |t| && (forall k | 0 <= k < n :: t[k] == '#') && Blank(t[n..j]) && t[j..] == title
  }

  /** Without surrounding whitespace the line begins with three backticks. */
  ghost predicate Fences(line: string) { exists t: string :: Trims(line, t) && Tight(t) && "```" <= t }

  lemma FencesIs(line: string)
    ensures IsFence(Strip(line)) <==> Fences(line)
  {
    StripIs(line);
    if Fences(line) {
      var t: string :| Trims(line, t) && Tight(t) && "```" <= t;
      OnlyStrip(line, t);
    }
  }

  lemma {:induction false} HashCountIs(s: string, n: nat)
    requires n <= |s| && (forall k | 0 <= k < n :: s[k] == '#') && (n < |s| ==> s[n] != '#')
    ensures HashCount(s) == n
  {
    if n > 0 {
      assert forall k | 0 <= k < n - 1 :: s[1..][k] == s[k + 1];
      HashCountIs(s[1..], n - 1);
    }
  }

  lemma {:induction false} Hashes(s: string)
    ensures forall k | 0 <= k < HashCount(s) :: s[k] == '#'
  {
    if s != "" && s[0] == '#' {
      Hashes(s[1..]);
      assert forall k | 0 < k < HashCount(s) :: s[k] == s[1..][k - 1];
    }
  }

  lemma TightStrip(gap: string)
    requires gap != "" && !IsSpace(gap[|gap| - 1])
    ensures Strip(gap) == LStrip(gap) && Strip(gap) != ""
  {
    LStripIs(gap);
    var i := |gap| - |LStrip(gap)|;
    assert LStrip(gap) != "" && LStrip(gap)[|gap| - i - 1] == gap[|gap| - 1];
  }

  lemma GapAndTitle(t: string, n: nat) returns (j: nat)
    requires Tight(t) && n < |t| && IsSpace(t[n])
    ensures n < j < |t| && Blank(t[n..j]) && !IsSpace(t[j]) && t[j..] == Strip(t[n..])
  {
    var gap := t[n..];
    TightStrip(gap);
    LStripIs(gap);
    j := |t| - |LStrip(gap)|;
    assert gap[..j - n] == t[n..j] && gap[j - n..] == t[j..];
    assert j == n ==> LStrip(gap) == gap;
    assert t[j] == LStrip(gap)[0];
  }

  /** A tight text with the header pattern, read from the pattern. */
  lemma HeaderReads(t: string)
    requires Tight(t) && IsHeader(t)
    ensures Headed(t, HashCount(t), Title(t))
  {
    Hashes(t);
    var j := GapAndTitle(t, HashCount(t));
  }

  lemma BlankFront(gap: string, i: nat, title: string)
    requires i <= |gap| && Blank(gap[..i]) && gap[i..] == title && Tight(title)
    ensures Strip(gap) == title
  {
    assert gap[i..|gap|] == title && gap[|gap|..] == "";
    OnlyStrip(gap, title);
  }

  lemma TitleIs(t: string, n: nat, j: nat, title: string)
    requires n <= j < |t| && Blank(t[n..j]) && t[j..] == title && Tight(title)
    ensures Strip(t[n..]) == title
  {
    var gap := t[n..];
    assert gap[..j - n] == t[n..j] && gap[j - n..] == t[j..];
    BlankFront(gap, j - n, title);
  }

  lemma HeadedParts(t: string, n: nat, title: string)
    requires Tight(t) && Headed(t, n, title)
    ensures IsHeader(t) && HashCount(t) == n && Title(t) == title
  {
    var j :| n < j <= |t| && (forall k | 0 <= k < n :: t[k] == '#') && Blank(t[n..j]) && t[j..] == title;
    assert t[n..j][0] == t[n];
    HashCountIs(t, n);
    assert title[|title| - 1] == t[|t| - 1];
    TitleIs(t, n, j, title);
  }

  /** The header pattern with its two groups, exactly. */
  lemma HeaderIs(line: string, n: nat, title: string)
    ensures IsHeader(Strip(line)) && HashCount(Strip(line)) == n && Title(Strip(line)) == title <==>
              Heads(line, n, title)
  {
    StripIs(line);
    var t := Strip(line);
    if IsHeader(t) { HeaderReads(t); }
    if Heads(line, n, title) {
      var u: string :| Trims(line, u) && Tight(u) && Headed(u, n, title);
      OnlyStrip(line, u);
      HeadedParts(t, n, title);
    }
  }

  lemma FrontHashes(line: string, t: string, n: nat)
    requires t <= line && IsHeader(t) && HashCount(t) == n
    ensures LevelOf(line) == n
  {
    Hashes(t);
    assert forall k | 0 <= k <= n :: line[k] == t[k];
    HashCountIs(line, n);
  }

  lemma FrontBlank(s: string, i: nat)
    requires s != "" && i <= |s| && Blank(s[..i])
    ensures i == 0 || IsSpace(s[0])
  {
    if i > 0 { assert s[..i][0] == s[0]; }
  }

  lemma UnindentedTrim(line: string, t: string)
    requires Unindented(line) && Trims(line, t)
    ensures t <= line
  {
    var i, j :| 0 <= i <= j <= |line| && t == line[i..j] && Blank(line[..i]) && Blank(line[j..]);
    FrontBlank(line, i);
  }

  /** The level pattern is matched on the line as it stands; on an unindented header line it finds the same
      hashes. */
  lemma LevelIs(line: string, n: nat, title: string)
    requires Unindented(line) && Heads(line, n, title)
    ensures LevelOf(line) == n
  {
    var t: string :| Trims(line, t) && Tight(t) && Headed(t, n, title);
    UnindentedTrim(line, t);
    HeadedParts(t, n, title);
    FrontHashes(line, t, n);
  }

  ghost function FenceLines(lines: seq<string>, k: nat): set<nat>
    requires k <= |lines|
  {
    set i: nat | i < k && Fences(lines[i])
  }

  lemma OneMoreFence(lines: seq<string>, k: nat)
    requires k < |lines|
    ensures FenceLines(lines, k + 1) == FenceLines(lines, k) + (if Fences(lines[k]) then {k} else {})
    ensures |FenceLines(lines, k + 1)| == |FenceLines(lines, k)| + if Fences(lines[k]) then 1 else 0
  {
    assert k !in FenceLines(lines, k);
  }

  /** A line lies inside a fenced block exactly if an odd number of fence lines stands before it. */
  lemma {:induction false} InFenceIs(lines: seq<string>, k: nat)
    requires k <= |lines|
    ensures InFence(lines, k) <==> |FenceLines(lines, k)| % 2 == 1
  {
    if k > 0 {
      InFenceIs(lines, k - 1);
      FencesIs(lines[k - 1]);
      OneMoreFence(lines, k - 1);
      Toggle(|FenceLines(lines, k - 1)|);
    } else {
      assert FenceLines(lines, 0) == {};
    }
  }

  lemma Toggle(n: nat)
    ensures (n + 1) % 2 == 1 <==> !(n % 2 == 1)
  {
  }

  /** Line k, counted from 1, opens a section of this level and title: a header line that is not indented and
      stands outside fenced blocks. */
  ghost predicate Opens(lines: seq<string>, k: nat, level: nat, title: string)
  {
    && 1 <= k <= |lines| && lines[k - 1] != "" && lines[k - 1][0] == '#'
    && |FenceLines(lines, k - 1)| % 2 == 0 && Heads(lines[k - 1], level, title)
  }

  lemma HeaderIsNoFence(t: string)
    requires IsHeader(t)
    ensures !IsFence(t)
  {
    Hashes(t);
  }

  lemma OpensIs(lines: seq<string>, k: nat, level: nat, title: string)
    requires 1 <= k <= |lines|
    ensures Opens(lines, k, level, title) <==>
              RetainedAt(lines, k - 1) && level == LevelOf(lines[k - 1]) && title == TitleAt(lines[k - 1])
  {
    var line := lines[k - 1];
    InFenceIs(lines, k - 1);
    HeaderIs(line, level, title);
    HeaderIs(line, HashCount(Strip(line)), TitleAt(line));
    if IsHeader(Strip(line)) {
      HeaderIsNoFence(Strip(line));
      if Unindented(line) { LevelIs(line, HashCount(Strip(line)), TitleAt(line)); }
    }
  }
}
