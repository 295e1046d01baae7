// Strings as the source treats them: whitespace, strip, lines.
module Text {
  /** str.isspace for one character. */
  predicate IsSpace(c: char)
  {
    '\t' <= c <= '\r' || '\U{1c}' <= c <= ' ' || c == '\U{85}' || c == '\U{a0}' || c == '\U{1680}'
    || '\U{2000}' <= c <= '\U{200a}' || c == '\U{2028}' || c == '\U{2029}' || c == '\U{202f}'
    || c == '\U{205f}' || c == '\U{3000}'
  }

  /** The text without its whitespace. */
  function Erase(s: string): string
  {
    if s == "" then "" else if IsSpace(s[0]) then Erase(s[1..]) else [s[0]] + Erase(s[1..])
  }

  lemma EraseHead(c: char, rest: string)
    ensures Erase([c] + rest) == if IsSpace(c) then Erase(rest) else [c] + Erase(rest)
  {
    assert ([c] + rest)[1..] == rest;
  }

  lemma EraseStep(c: char, rest: string, t: string)
    requires Erase(rest + t) == Erase(rest) + Erase(t)
    ensures Erase([c] + (rest + t)) == Erase([c] + rest) + Erase(t)
  {
    EraseHead(c, rest + t);
    EraseHead(c, rest);
    AssocCons(c, Erase(rest), Erase(t));
  }

  lemma AssocCons(c: char, a: string, b: string)
    ensures [c] + (a + b) == ([c] + a) + b
  {
  }

  lemma HeadTail(s: string, t: string)
    requires s != ""
    ensures s == [s[0]] + s[1..] && s + t == [s[0]] + (s[1..] + t)
  {
  }

  lemma {:induction false} EraseConcat(s: string, t: string)
    ensures Erase(s + t) == Erase(s) + Erase(t)
  {
    if s == "" {
      assert s + t == t;
    } else {
      HeadTail(s, t);
      EraseConcat(s[1..], t);
      EraseStep(s[0], s[1..], t);
    }
  }

  predicate Blank(s: string) { forall i | 0 <= i < |s| :: IsSpace(s[i]) }

  lemma {:induction false} EraseBlank(s: string)
    requires Blank(s)
    ensures Erase(s) == ""
  {
    if s != "" { EraseBlank(s[1..]); }
  }

  function LStrip(s: string): (r: string)
    ensures r == "" <==> Blank(s)
    ensures r != "" ==> !IsSpace(r[0])
  {
    if s == "" || !IsSpace(s[0]) then s else LStrip(s[1..])
  }

  function RStrip(s: string): (r: string)
    ensures r == "" <==> Blank(s)
    ensures r != "" ==> !IsSpace(r[|r| - 1])
  {
    if s == "" || !IsSpace(s[|s| - 1]) then s else RStrip(s[..|s| - 1])
  }

  /** str.strip */
  function Strip(s: string): (r: string)
    ensures r == "" <==> Blank(s)
    ensures r != "" ==> !IsSpace(r[|r| - 1])
  {
    RStrip(LStrip(s))
  }

  /** r is s without some whitespace in front and behind. */
  ghost predicate Trims(s: string, r: string)
  {
    exists i, j :: 0 <= i <= j <= |s| && r == s[i..j] && Blank(s[..i]) && Blank(s[j..])
  }

  predicate Tight(s: string) { s != "" ==> !IsSpace(s[0]) && !IsSpace(s[|s| - 1]) }

  lemma BlankCons(s: string, i: nat)
    requires s != "" && i < |s| && IsSpace(s[0]) && Blank(s[1..][..i])
    ensures Blank(s[..i + 1]) && s[1..][i..] == s[i + 1..]
  {
    assert s[..i + 1] == [s[0]] + s[1..][..i];
  }

  lemma {:induction false} LStripIs(s: string)
    ensures |LStrip(s)| <= |s|
    ensures var i := |s| - |LStrip(s)|; LStrip(s) == s[i..] && Blank(s[..i])
  {
    if s != "" && IsSpace(s[0]) {
      LStripIs(s[1..]);
      BlankCons(s, |s| - 1 - |LStrip(s)|);
    }
  }

  lemma {:induction false} RStripIs(s: string)
    ensures var j := |RStrip(s)|; j <= |s| && RStrip(s) == s[..j] && Blank(s[j..])
  {
    if s != "" && IsSpace(s[|s| - 1]) {
      var init, j := s[..|s| - 1], |RStrip(s)|;
      RStripIs(init);
      forall k | 0 <= k < |s| - j ensures IsSpace(s[j..][k]) {
        if j + k < |init| { assert init[j..][k] == s[j + k]; }
      }
    }
  }

  /** Stripping takes whitespace off both ends, and all of it. */
  lemma StripIs(s: string)
    ensures Trims(s, Strip(s)) && Tight(Strip(s))
  {
    var front := LStrip(s);
    LStripIs(s);
    RStripIs(front);
    var i, j := |s| - |front|, |s| - |front| + |Strip(s)|;
    assert Strip(s) == s[i..j];
    assert front[|Strip(s)|..] == s[j..];
    assert Blank(s[..i]) && Blank(s[j..]);
  }

  /** Nothing else does. */
  lemma OnlyStrip(s: string, r: string)
    requires Trims(s, r) && Tight(r)
    ensures r == Strip(s)
  {
    StripIs(s);
    var i, j :| 0 <= i <= j <= |s| && r == s[i..j] && Blank(s[..i]) && Blank(s[j..]);
    var k, l :| 0 <= k <= l <= |s| && Strip(s) == s[k..l] && Blank(s[..k]) && Blank(s[l..]);
    SameTrim(s, i, j, k, l);
  }

  lemma SpaceInside(s: string, i: nat, j: nat, n: nat)
    requires i <= j <= |s| && Blank(s[..i]) && Blank(s[j..]) && n < |s| && !IsSpace(s[n])
    ensures i <= n < j
  {
    assert forall m | 0 <= m < i :: s[m] == s[..i][m];
    assert forall m | j <= m < |s| :: s[m] == s[j..][m - j];
  }

  lemma SameTrim(s: string, i: nat, j: nat, k: nat, l: nat)
    requires i <= j <= |s| && Blank(s[..i]) && Blank(s[j..]) && Tight(s[i..j])
    requires k <= l <= |s| && Blank(s[..k]) && Blank(s[l..]) && Tight(s[k..l])
    ensures s[i..j] == s[k..l]
  {
    if i < j {
      assert s[i..j][0] == s[i] && s[i..j][j - i - 1] == s[j - 1];
      SpaceInside(s, k, l, i);
      SpaceInside(s, k, l, j - 1);
    }
    if k < l {
      assert s[k..l][0] == s[k] && s[k..l][l - k - 1] == s[l - 1];
      SpaceInside(s, i, j, k);
      SpaceInside(s, i, j, l - 1);
    }
  }

  lemma {:induction false} EraseLStrip(s: string)
    ensures Erase(LStrip(s)) == Erase(s)
  {
    if s != "" && IsSpace(s[0]) { EraseLStrip(s[1..]); }
  }

  lemma {:induction false} EraseRStrip(s: string)
    ensures Erase(RStrip(s)) == Erase(s)
  {
    if s != "" && IsSpace(s[|s| - 1]) {
      var init, last := s[..|s| - 1], [s[|s| - 1]];
      EraseRStrip(init);
      EraseConcat(init, last);
      EraseBlank(last);
      assert s == init + last;
    }
  }

  lemma EraseStrip(s: string)
    ensures Erase(Strip(s)) == Erase(s)
  {
    EraseLStrip(s);
    EraseRStrip(LStrip(s));
  }

  /** s.split(sep) */
  function Split(s: string, sep: char): (parts: seq<string>)
    ensures parts != []
  {
    if s == "" then [""]
    else
      var rest := Split(s[1..], sep);
      if s[0] == sep then [""] + rest else [[s[0]] + rest[0]] + rest[1..]
  }

  function SplitLines(s: string): (lines: seq<string>)
    ensures lines != []
  {
    Split(s, '\n')
  }

  /** sep.join(parts) */
  function Join(parts: seq<string>, sep: string): string
  {
    if parts == [] then "" else if |parts| == 1 then parts[0] else parts[0] + sep + Join(parts[1..], sep)
  }

  function JoinLines(lines: seq<string>): string { Join(lines, "\n") }

  /** The parts stand between the separators of s: joined they give s, and none contains a separator. */
  predicate Pieces(parts: seq<string>, s: string, sep: char)
  {
    parts != [] && Join(parts, [sep]) == s && forall k | 0 <= k < |parts| :: sep !in parts[k]
  }

  lemma PiecesStep(s: string, sep: char, rest: seq<string>)
    requires s != "" && Pieces(rest, s[1..], sep)
    ensures if s[0] == sep then Pieces([""] + rest, s, sep) else Pieces([[s[0]] + rest[0]] + rest[1..], s, sep)
  {
    var c, t := s[0], s[1..];
    assert s == [c] + t;
    if c == sep {
      assert ([""] + rest)[1..] == rest;
      assert "" + [sep] + t == s;
    } else {
      var parts := [[c] + rest[0]] + rest[1..];
      assert parts[1..] == rest[1..];
      if |rest| > 1 {
        assert ([c] + rest[0]) + [sep] + Join(rest[1..], [sep]) == [c] + (rest[0] + [sep] + Join(rest[1..], [sep]));
      }
    }
  }

  /** Splitting gives the pieces ... */
  lemma {:induction false} SplitIs(s: string, sep: char)
    ensures Pieces(Split(s, sep), s, sep)
  {
    if s != "" {
      SplitIs(s[1..], sep);
      PiecesStep(s, sep, Split(s[1..], sep));
    }
  }

  lemma {:induction false} SplitFirst(a: string, t: string, sep: char)
    requires sep !in a
    ensures Split(a + [sep] + t, sep) == [a] + Split(t, sep)
  {
    var s := a + [sep] + t;
    if a == "" {
      assert s[1..] == t;
    } else {
      SplitFirst(a[1..], t, sep);
      assert s[1..] == a[1..] + [sep] + t && s[0] == a[0];
      assert a == [a[0]] + a[1..];
      assert ([a[1..]] + Split(t, sep))[1..] == Split(t, sep);
    }
  }

  lemma {:induction false} SplitUncut(s: string, sep: char)
    requires sep !in s
    ensures Split(s, sep) == [s]
  {
    if s != "" {
      SplitUncut(s[1..], sep);
      assert s == [s[0]] + s[1..];
    }
  }

  /** ... and there are no others. */
  lemma {:induction false} OnlySplit(parts: seq<string>, s: string, sep: char)
    requires Pieces(parts, s, sep)
    ensures parts == Split(s, sep)
    decreases |parts|
  {
    if |parts| == 1 {
      SplitUncut(s, sep);
    } else {
      var rest := Join(parts[1..], [sep]);
      OnlySplit(parts[1..], rest, sep);
      SplitFirst(parts[0], rest, sep);
      assert parts == [parts[0]] + parts[1..];
    }
  }

  /** Position i of s begins line k, counted from 1: k - 1 line breaks lie before it, the last of them
      right before it. */
  predicate LineBegins(s: string, i: nat, k: nat)
  {
    i <= |s| && multiset(s[..i])['\n'] + 1 == k && (i > 0 ==> s[i - 1] == '\n')
  }

  lemma NoBreaks(s: string)
    requires '\n' !in s
    ensures multiset(s)['\n'] == 0
  {
    assert '\n' !in multiset(s);
  }

  lemma LineBeginsBehind(first: string, rest: string, i: nat, k: nat)
    requires '\n' !in first && LineBegins(rest, i, k)
    ensures LineBegins(first + "\n" + rest, |first| + 1 + i, k + 1)
  {
    var s, at := first + "\n" + rest, |first| + 1 + i;
    NoBreaks(first);
    assert s[..at] == first + "\n" + rest[..i];
    assert multiset(s[..at]) == multiset(first) + multiset("\n") + multiset(rest[..i]);
    assert s[at - 1] == if i > 0 then rest[i - 1] else '\n';
  }

  /** The lines from line k on, joined, are what stands from the beginning of line k on. */
  lemma {:induction false} LinesFrom(lines: seq<string>, s: string, k: nat) returns (i: nat)
    requires Pieces(lines, s, '\n') && 1 <= k <= |lines|
    ensures LineBegins(s, i, k) && s[i..] == JoinLines(lines[k - 1..])
    decreases k
  {
    if k == 1 {
      i := 0;
      assert lines[0..] == lines;
    } else {
      var rest := JoinLines(lines[1..]);
      assert s == lines[0] + "\n" + rest;
      var j := LinesFrom(lines[1..], rest, k - 1);
      LineBeginsBehind(lines[0], rest, j, k - 1);
      i := |lines[0]| + 1 + j;
      assert s[i..] == rest[j..] && lines[1..][k - 2..] == lines[k - 1..];
    }
  }

  function EraseAll(parts: seq<string>): string
  {
    if parts == [] then "" else Erase(parts[0]) + EraseAll(parts[1..])
  }

  lemma {:induction false} EraseAllConcat(a: seq<string>, b: seq<string>)
    ensures EraseAll(a + b) == EraseAll(a) + EraseAll(b)
  {
    if a == [] {
      assert a + b == b;
    } else {
      EraseAllConcat(a[1..], b);
      assert (a + b)[1..] == a[1..] + b && (a + b)[0] == a[0];
      assert EraseAll(a + b) == Erase(a[0]) + (EraseAll(a[1..]) + EraseAll(b));
    }
  }

  lemma {:induction false} EraseJoin(lines: seq<string>)
    ensures Erase(JoinLines(lines)) == EraseAll(lines)
  {
    if |lines| == 1 {
      assert lines[1..] == [];
    } else if lines != [] {
      EraseJoin(lines[1..]);
      EraseConcat(lines[0] + "\n", JoinLines(lines[1..]));
      EraseConcat(lines[0], "\n");
      EraseBlank("\n");
    }
  }
}
