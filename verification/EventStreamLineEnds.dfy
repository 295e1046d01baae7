// The client cuts an event stream at "\n\n" and only then replaces "\r\n" inside each event.  When
// that gives the events of the stream with its line ends normalized first, exactly.
module EventStreamLineEnds {
  import opened EventStream
  import Text

  lemma FreeAppend(s: string, c: char, a: char, b: char)
    ensures Free(s + [c], a, b) <==> Free(s, a, b) && !(s != "" && s[|s| - 1] == a && c == b)
  {
    var t := s + [c];
    assert forall i | 0 <= i < |s| :: t[i] == s[i];
    assert t[|s|] == c;
    if s != "" && s[|s| - 1] == a && c == b { assert t[|s| - 1] == a && t[|s| - 1 + 1] == b; }
    if Free(t, a, b) {
      forall i | 0 <= i < |s| - 1 ensures !(s[i] == a && s[i + 1] == b) {
        assert t[i] == s[i] && t[i + 1] == s[i + 1];
      }
    }
  }

  /** The stream is not cut at all exactly when "\n\n" does not occur in it. */
  lemma UncutExactly(s: string)
    ensures Complete(s) == [] <==> Free(s, '\n', '\n')
  {
    NoCutExactly(s);
  }

  // ---- Normalized line ends ------------------------------------------------------------------------------

  predicate IsEnd(c: char) { c == '\n' || c == '\r' }

  /** "\r\n" and a lone "\r" become "\n". */
  function Normalized(s: string): string
  {
    if s == "" then ""
    else if s[0] != '\r' then [s[0]] + Normalized(s[1..])
    else if |s| >= 2 && s[1] == '\n' then "\n" + Normalized(s[2..])
    else "\n" + Normalized(s[1..])
  }

  lemma HeadOf(s: string)
    ensures (Normalized(s) == "") == (s == "")
    ensures s != "" ==> (Normalized(s)[0] == '\n' <==> IsEnd(s[0]))
  {
  }

  lemma CrBeforeLf(s: string)
    requires |s| >= 2 && s[0] == '\r' && s[1] == '\n'
    ensures Normalized(s) == Normalized(s[1..])
  {
    assert s[1..][1..] == s[2..];
  }

  lemma {:induction false} LastOf(s: string)
    requires s != ""
    ensures Normalized(s) != "" && (Normalized(s)[|Normalized(s)| - 1] == '\n' <==> IsEnd(s[|s| - 1]))
    decreases |s|
  {
    HeadOf(s);
    if |s| >= 2 && s[0] == '\r' && s[1] == '\n' {
      CrBeforeLf(s);
      LastOf(s[1..]);
    } else if |s| >= 2 {
      LastOf(s[1..]);
    }
  }

  lemma NormalizedCons(c: char, t: string)
    requires !(c == '\r' && t != "" && t[0] == '\n')
    ensures Normalized([c] + t) == [if c == '\r' then '\n' else c] + Normalized(t)
  {
    assert ([c] + t)[1..] == t;
    assert t != "" ==> ([c] + t)[1] == t[0];
  }

  lemma CrDropped(t: string)
    requires t != "" && t[0] == '\n'
    ensures Normalized(['\r'] + t) == Normalized(t)
  {
    CrBeforeLf(['\r'] + t);
    assert (['\r'] + t)[1..] == t;
  }

  lemma PartsCons(c: char, t: string, b: string)
    requires Normalized(t + b) == Normalized(t) + Normalized(b)
    requires t == "" && b != "" ==> !(c == '\r' && b[0] == '\n')
    ensures Normalized([c] + (t + b)) == Normalized([c] + t) + Normalized(b)
  {
    if c == '\r' && t != "" && t[0] == '\n' {
      CrDropped(t);
      CrDropped(t + b);
    } else {
      assert t == "" ==> t + b == b;
      NormalizedCons(c, t);
      NormalizedCons(c, t + b);
      ConsParts(if c == '\r' then '\n' else c, Normalized(t), Normalized(b));
    }
  }

  lemma ConsParts(c: char, a: string, b: string)
    ensures [c] + (a + b) == ([c] + a) + b
  {
  }

  lemma {:induction false} NormalizedParts(a: string, b: string)
    requires a == "" || b == "" || !(a[|a| - 1] == '\r' && b[0] == '\n')
    ensures Normalized(a + b) == Normalized(a) + Normalized(b)
    decreases |a|
  {
    if a == "" {
      assert a + b == b;
    } else {
      var c, t := a[0], a[1..];
      assert a == [c] + t && a + b == [c] + (t + b);
      NormalizedParts(t, b);
      PartsCons(c, t, b);
    }
  }

  /** No two line ends side by side, except those of a blank line "\n\n". */
  predicate Single(s: string) { Free(s, '\n', '\r') && Free(s, '\r', '\r') }

  /** Normalized, a text has a blank line exactly when it had one or two other line ends met. */
  lemma {:induction false} BlankExactly(s: string)
    ensures FindBlank(Normalized(s)) < 0 <==> FindBlank(s) < 0 && Single(s)
    decreases |s|
  {
    if |s| >= 2 {
      var tail := s[1..];
      BlankExactly(tail);
      HeadOf(tail);
      FreeCons(s, '\n', '\r');
      FreeCons(s, '\r', '\r');
      if s[0] == '\r' && s[1] == '\n' {
        CrBeforeLf(s);
      } else {
        var c := if s[0] == '\r' then '\n' else s[0];
        BlankCons(c, Normalized(tail), Normalized(s));
      }
    }
  }

  lemma BlankCons(c: char, t: string, s: string)
    requires s == [c] + t && t != ""
    ensures FindBlank(s) < 0 <==> !(c == '\n' && t[0] == '\n') && FindBlank(t) < 0
  {
    assert s[1..] == t;
  }

  // ---- One cut -------------------------------------------------------------------------------------------

  /** The first cut comes right after a exactly when a has no blank line and does not end its last line. */
  lemma {:induction false} CutExactly(a: string, b: string)
    ensures FindBlank(a + "\n\n" + b) == |a| <==> FindBlank(a) < 0 && (a == "" || a[|a| - 1] != '\n')
  {
    var s := a + "\n\n" + b;
    if a == "" {
      assert s[0] == '\n' && s[1] == '\n';
    } else {
      CutExactly(a[1..], b);
      assert s[1..] == a[1..] + "\n\n" + b && s[0] == a[0];
      assert |a| > 1 ==> s[1] == a[1];
    }
  }

  /** A "\r" at the end of an event belongs to the line end "\r\n" in front of the cut. */
  function WithoutCr(e: string): string
  {
    if e != "" && e[|e| - 1] == '\r' then e[..|e| - 1] else e
  }

  lemma NormalizedAtCut(e: string, t: string)
    ensures Normalized(e + "\n\n" + t) == Normalized(WithoutCr(e)) + "\n\n" + Normalized(t)
  {
    var e', end := WithoutCr(e), (if e == WithoutCr(e) then "\n" else "\r\n");
    assert e + "\n\n" + t == e' + (end + ("\n" + t));
    assert (end + ("\n" + t))[|end|..] == "\n" + t;
    assert ("\n" + t)[1..] == t;
    assert Normalized("\n" + t) == "\n" + Normalized(t);
    assert Normalized(end + ("\n" + t)) == "\n" + Normalized("\n" + t);
    NormalizedParts(e', end + ("\n" + t));
    Regrouped(Normalized(e'), Normalized(t));
  }

  lemma Regrouped(a: string, b: string)
    ensures a + ("\n" + ("\n" + b)) == a + "\n\n" + b
  {
  }

  lemma SingleWithoutCr(e: string)
    requires e == "" || e[|e| - 1] != '\n'
    ensures var e' := WithoutCr(e); Single(e) <==> Single(e') && (e' == "" || !IsEnd(e'[|e'| - 1]))
  {
    var e' := WithoutCr(e);
    if e' != e {
      assert e == e' + ['\r'];
      FreeAppend(e', '\r', '\n', '\r');
      FreeAppend(e', '\r', '\r', '\r');
    }
  }

  /** The normalized stream has its first cut where the stream has it exactly when the event before it
      is single. */
  lemma FirstCutExactly(e: string, t: string)
    requires FindBlank(e) < 0 && (e == "" || e[|e| - 1] != '\n')
    ensures FindBlank(Normalized(e + "\n\n" + t)) == |Normalized(WithoutCr(e))| <==> Single(e)
  {
    var e' := WithoutCr(e);
    NormalizedAtCut(e, t);
    CutExactly(Normalized(e'), Normalized(t));
    BlankExactly(e');
    if e' != "" { LastOf(e'); }
    HeadOf(e');
    SingleWithoutCr(e);
    NoCutInside(e);
  }

  lemma NoCutInside(e: string)
    requires FindBlank(e) < 0
    ensures FindBlank(WithoutCr(e)) < 0
  {
    NoCutExactly(e);
    NoCutExactly(WithoutCr(e));
    if WithoutCr(e) != e {
      assert e == WithoutCr(e) + ['\r'];
      FreeAppend(WithoutCr(e), '\r', '\n', '\n');
    }
  }

  // ---- The whole stream ----------------------------------------------------------------------------------

  function NormalizedEvents(events: seq<string>): seq<string>
  {
    if events == [] then [] else [Normalized(WithoutCr(events[0]))] + NormalizedEvents(events[1..])
  }

  /** Cutting first and normalizing the pieces gives what normalizing first and then cutting gives. */
  predicate Agrees(s: string)
  {
    Complete(Normalized(s)) == NormalizedEvents(Complete(s)) && Rest(Normalized(s)) == Normalized(Rest(s))
  }

  predicate AllSingle(events: seq<string>)
  {
    forall k | 0 <= k < |events| :: Single(events[k])
  }

  lemma AllSingleCons(e: string, events: seq<string>)
    ensures AllSingle([e] + events) <==> Single(e) && AllSingle(events)
  {
    var all := [e] + events;
    assert all[0] == e && forall k | 0 <= k < |events| :: events[k] == all[k + 1];
    if AllSingle(all) {
      forall k | 0 <= k < |events| ensures Single(events[k]) { assert Single(all[k + 1]); }
    }
  }

  lemma SingleCut(s: string, i: nat)
    requires FindBlank(s) == i && Single(s[..i])
    ensures i + 2 <= |s| && (Agrees(s) <==> Agrees(s[i + 2..]))
  {
    var e, t := s[..i], s[i + 2..];
    var e1, s1 := Normalized(WithoutCr(e)), Normalized(s);
    AtCut(s, i);
    FirstCutExactly(e, t);
    NormalizedAtCut(e, t);
    Sides(e1, Normalized(t), s1);
    CutAt(s1, |e1|, e1, Normalized(t));
    CutAt(s, i, e, t);
    Consed(e, Complete(t));
    assert [e1] + Complete(Normalized(t)) == [e1] + NormalizedEvents(Complete(t)) <==>
           Complete(Normalized(t)) == NormalizedEvents(Complete(t)) by {
      SameTail(e1, Complete(Normalized(t)), NormalizedEvents(Complete(t)));
    }
  }

  lemma SameTail(x: string, a: seq<string>, b: seq<string>)
    ensures [x] + a == [x] + b <==> a == b
  {
    assert ([x] + a)[1..] == a && ([x] + b)[1..] == b;
  }

  lemma Consed(e: string, events: seq<string>)
    ensures NormalizedEvents([e] + events) == [Normalized(WithoutCr(e))] + NormalizedEvents(events)
  {
    assert ([e] + events)[1..] == events;
  }

  lemma Sides(a: string, b: string, s: string)
    requires s == a + "\n\n" + b
    ensures |a| + 2 <= |s| && s[..|a|] == a && s[|a| + 2..] == b
  {
  }

  lemma AtCut(s: string, i: nat)
    requires FindBlank(s) == i
    ensures i + 2 <= |s| && s == s[..i] + "\n\n" + s[i + 2..]
    ensures FindBlank(s[..i]) < 0 && (s[..i] == "" || s[..i][i - 1] != '\n')
  {
    SplitAt(s, i);
    CutExactly(s[..i], s[i + 2..]);
  }

  lemma MixedCut(s: string, i: nat)
    requires FindBlank(s) == i && !Single(s[..i])
    ensures !Agrees(s)
  {
    var e, t := s[..i], s[i + 2..];
    var e1, s1 := Normalized(WithoutCr(e)), Normalized(s);
    AtCut(s, i);
    FirstCutExactly(e, t);
    CutAt(s, i, e, t);
    Consed(e, Complete(t));
    if FindBlank(s1) >= 0 {
      var j := FindBlank(s1);
      CutAt(s1, j, s1[..j], s1[j + 2..]);
      assert Complete(s1)[0] == s1[..j] && NormalizedEvents(Complete(s))[0] == e1;
    }
  }

  /** The two agree exactly when in no piece of the stream - no event and not in the rest - a "\r"
      follows another line end. */
  lemma {:induction false} AgreesExactly(s: string)
    ensures Agrees(s) <==> AllSingle(Complete(s)) && Single(Rest(s))
    decreases |s|
  {
    var i := FindBlank(s);
    if i < 0 {
      BlankExactly(s);
      if FindBlank(Normalized(s)) >= 0 { assert Complete(Normalized(s)) != []; }
    } else {
      var e, t := s[..i], s[i + 2..];
      CutAt(s, i, e, t);
      AllSingleCons(e, Complete(t));
      if Single(e) {
        SingleCut(s, i);
        AgreesExactly(t);
      } else {
        MixedCut(s, i);
      }
    }
  }

  lemma {:induction false} FreeInside(s: string, from: nat, to: nat, a: char, b: char)
    requires from <= to <= |s| && Free(s, a, b)
    ensures Free(s[from..to], a, b)
  {
    var part := s[from..to];
    forall i | 0 <= i < |part| - 1 ensures !(part[i] == a && part[i + 1] == b) {
      assert part[i] == s[from + i] && part[i + 1] == s[from + i + 1];
    }
  }

  /** A stream in which no "\r" follows another line end is cut as its normalized form is. */
  lemma {:induction false} SingleStreamAgrees(s: string)
    requires Single(s)
    ensures Agrees(s)
    decreases |s|
  {
    var i := FindBlank(s);
    if i < 0 {
      AgreesExactly(s);
    } else {
      FreeInside(s, 0, i, '\n', '\r');
      FreeInside(s, 0, i, '\r', '\r');
      FreeInside(s, i + 2, |s|, '\n', '\r');
      FreeInside(s, i + 2, |s|, '\r', '\r');
      assert s[0..i] == s[..i] && s[i + 2..|s|] == s[i + 2..];
      SingleStreamAgrees(s[i + 2..]);
      SingleCut(s, i);
    }
  }

  /** That is sufficient only: right after a cut a "\r" does no harm. */
  lemma CrAfterCutAgrees()
    ensures !Single("\n\n\r\n") && Agrees("\n\n\r\n")
  {
    var s := "\n\n\r\n";
    assert s[1] == '\n' && s[1 + 1] == '\r';
    assert s[..0] == "" && s[2..] == "\r\n";
    SingleCut(s, 0);
    AgreesExactly("\r\n");
    NoCutExactly("\r\n");
  }

  /** A stream that ends every line with "\r\n" is never cut: it counts as one event, and that is what its
      normalized form gives exactly when no "\r" follows another line end. */
  lemma CrLfIsNotABlankLine(s: string)
    requires forall i | 0 <= i < |s| && s[i] == '\n' :: i > 0 && s[i - 1] == '\r'
    ensures Complete(s) == [] && Events(s) == if Text.Strip(s) == "" then [] else [s]
    ensures Agrees(s) <==> Single(s)
  {
    UncutExactly(s);
    AgreesExactly(s);
  }
}
