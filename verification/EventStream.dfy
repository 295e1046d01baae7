// `parse_sse_events` and `parse_raw_event`: an event stream is cut into events while it arrives in
// chunks, and each event is parsed.  The reference is the whole stream, and the server's encoder.
module EventStream {
  import opened Common
  import Filters
  import Text

  // ---- Cutting the stream ---------------------------------------------------------------------------

  /** Position of the first blank line ("\n\n"), or -1. */
  function FindBlank(s: string): (i: int)
    ensures -1 <= i && (i >= 0 ==> i + 2 <= |s|)
  {
    if |s| < 2 then -1
    else if s[0] == '\n' && s[1] == '\n' then 0
    else if FindBlank(s[1..]) < 0 then -1
    else 1 + FindBlank(s[1..])
  }

  /** The events of s that are complete. */
  function Complete(s: string): seq<string>
    decreases |s|
  {
    var i := FindBlank(s);
    if i < 0 then [] else [s[..i]] + Complete(s[i + 2..])
  }

  /** What is left in the buffer after them. */
  function Rest(s: string): string
    decreases |s|
  {
    var i := FindBlank(s);
    if i < 0 then s else Rest(s[i + 2..])
  }

  /** The events of a whole stream: a rest counts unless it is blank. */
  function Events(s: string): seq<string>
  {
    if Text.Strip(Rest(s)) != "" then Complete(s) + [Rest(s)] else Complete(s)
  }

  function Concat(chunks: seq<string>): string
  {
    if chunks == [] then "" else Concat(chunks[..|chunks| - 1]) + chunks[|chunks| - 1]
  }

  lemma {:induction false} FindInFront(a: string, b: string)
    requires FindBlank(a) >= 0
    ensures FindBlank(a + b) == FindBlank(a)
  {
    if !(a[0] == '\n' && a[1] == '\n') {
      FindInFront(a[1..], b);
      assert (a + b)[1..] == a[1..] + b;
    }
  }

  lemma CutAt(s: string, i: nat, head: string, tail: string)
    requires FindBlank(s) == i && s[..i] == head && s[i + 2..] == tail
    ensures Complete(s) == [head] + Complete(tail) && Rest(s) == Rest(tail)
  {
  }

  /** More text completes what was left and leaves the complete events alone. */
  lemma {:induction false} Continue(a: string, b: string)
    ensures Complete(a + b) == Complete(a) + Complete(Rest(a) + b)
    ensures Rest(a + b) == Rest(Rest(a) + b)
    decreases |a|
  {
    var i := FindBlank(a);
    if i >= 0 {
      FindInFront(a, b);
      var tail := a[i + 2..];
      CutAt(a, i, a[..i], tail);
      CutAt(a + b, i, a[..i], tail + b);
      Continue(tail, b);
      Regroup(a[..i], Complete(tail), Complete(Rest(tail) + b));
    }
  }

  lemma Regroup(x: string, a: seq<string>, b: seq<string>)
    ensures [x] + (a + b) == ([x] + a) + b
  {
  }

  /** The inner loop. */
  method Drain(buffer: string) returns (events: seq<string>, rest: string)
    ensures events == Complete(buffer) && rest == Rest(buffer)
  {
    events, rest := [], buffer;
    while FindBlank(rest) >= 0
      invariant Complete(buffer) == events + Complete(rest) && Rest(buffer) == Rest(rest)
      decreases |rest|
    {
      var i := FindBlank(rest);
      Regroup2(events, rest[..i], Complete(rest[i + 2..]));
      events := events + [rest[..i]];
      rest := rest[i + 2..];
    }
  }

  lemma Regroup2(a: seq<string>, x: string, b: seq<string>)
    ensures a + ([x] + b) == (a + [x]) + b
  {
  }

  /** However the stream is cut into chunks, the events are those of the stream as a whole. */
  method ParseEvents(chunks: seq<string>) returns (events: seq<string>)
    ensures events == Events(Concat(chunks))
    ensures exists complete, rest :: Cut(Concat(chunks), complete, rest)
                                     && events == if Text.Blank(rest) then complete else complete + [rest]
  {
    StreamRestored(Concat(chunks));
    var buffer := "";
    events := [];
    for k := 0 to |chunks|
      invariant events == Complete(Concat(chunks[..k])) && buffer == Rest(Concat(chunks[..k]))
    {
      assert chunks[..k + 1][..k] == chunks[..k];
      assert Concat(chunks[..k + 1]) == Concat(chunks[..k]) + chunks[k];
      Continue(Concat(chunks[..k]), chunks[k]);
      if chunks[k] == "" {
        NothingAdded(Concat(chunks[..k]), chunks[k]);
        continue;
      }
      var more, rest := Drain(buffer + chunks[k]);
      events := events + more;
      buffer := rest;
    }
    assert chunks[..|chunks|] == chunks;
    if Text.Strip(buffer) != "" { events := events + [buffer]; }
  }

  lemma NothingAdded(a: string, b: string)
    requires b == ""
    ensures a + b == a
  {
  }

  /** The events with the blank lines that ended them. */
  function Glue(events: seq<string>): string
  {
    if events == [] then "" else events[0] + "\n\n" + Glue(events[1..])
  }

  lemma Pieces(s: string, i: nat)
    requires i + 2 <= |s| && s[i] == '\n' && s[i + 1] == '\n'
    ensures s == s[..i] + "\n\n" + s[i + 2..]
  {
  }

  lemma SplitAt(s: string, i: nat)
    requires FindBlank(s) == i
    ensures i + 2 <= |s| && s == s[..i] + "\n\n" + s[i + 2..]
    ensures FindBlank(s[..i]) == -1
  {
    BlankAt(s);
    Pieces(s, i);
  }

  lemma {:induction false} BlankAt(s: string)
    requires FindBlank(s) >= 0
    ensures s[FindBlank(s)] == '\n' && s[FindBlank(s) + 1] == '\n'
    ensures FindBlank(s[..FindBlank(s)]) == -1
  {
    var i := FindBlank(s);
    if !(s[0] == '\n' && s[1] == '\n') {
      BlankAt(s[1..]);
      assert s[..i][1..] == s[1..][..i - 1];
      if i >= 2 { assert s[..i][0] == s[0] && s[..i][1] == s[1]; }
    }
  }

  /** The pair a, b occurs nowhere in s. */
  predicate Free(s: string, a: char, b: char)
  {
    forall i | 0 <= i < |s| - 1 :: !(s[i] == a && s[i + 1] == b)
  }

  lemma FreeCons(s: string, a: char, b: char)
    requires |s| >= 2
    ensures Free(s, a, b) <==> !(s[0] == a && s[1] == b) && Free(s[1..], a, b)
  {
    var tail := s[1..];
    if !(s[0] == a && s[1] == b) && Free(tail, a, b) {
      forall i | 0 <= i < |s| - 1 ensures !(s[i] == a && s[i + 1] == b) {
        if i > 0 { assert tail[i - 1] == s[i] && tail[i] == s[i + 1]; }
      }
    }
    if Free(s, a, b) {
      forall i | 0 <= i < |tail| - 1 ensures !(tail[i] == a && tail[i + 1] == b) {
        assert tail[i] == s[i + 1] && tail[i + 1] == s[i + 2];
      }
    }
  }

  /** A text that ends where the next blank line begins. */
  predicate Ended(e: string) { Free(e, '\n', '\n') && (e == "" || e[|e| - 1] != '\n') }

  /** The events and the rest are what stands between the blank lines of s, each taken as early as it comes. */
  ghost predicate Cut(s: string, events: seq<string>, rest: string)
  {
    Glue(events) + rest == s && Free(rest, '\n', '\n') && forall k | 0 <= k < |events| :: Ended(events[k])
  }

  lemma {:induction false} NoCutExactly(s: string)
    ensures FindBlank(s) < 0 <==> Free(s, '\n', '\n')
  {
    if |s| >= 2 {
      FreeCons(s, '\n', '\n');
      NoCutExactly(s[1..]);
    }
  }

  lemma {:induction false} FirstBlankEnds(s: string)
    requires FindBlank(s) > 0
    ensures s[FindBlank(s) - 1] != '\n'
  {
    BlankAt(s);
    if FindBlank(s) > 1 { FirstBlankEnds(s[1..]); }
  }

  /** Nothing of the stream is lost or added, and it is cut at the blank lines as they come. */
  lemma {:induction false} StreamRestored(s: string)
    ensures Cut(s, Complete(s), Rest(s))
    decreases |s|
  {
    var i := FindBlank(s);
    NoCutExactly(s);
    if i >= 0 {
      SplitAt(s, i);
      NoCutExactly(s[..i]);
      if i > 0 { FirstBlankEnds(s); }
      StreamRestored(s[i + 2..]);
      GlueCons(s[..i], Complete(s[i + 2..]), Rest(s[i + 2..]));
    } else {
      assert Glue([]) + s == s;
    }
  }

  /** There is no other way to cut it like that. */
  lemma {:induction false} OnlyCut(s: string, events: seq<string>, rest: string)
    requires Cut(s, events, rest)
    ensures events == Complete(s) && rest == Rest(s)
    decreases |events|
  {
    if events == [] {
      assert Glue([]) + rest == rest;
      NoCutExactly(s);
    } else {
      var e, later := events[0], events[1..];
      assert events == [e] + later;
      GlueCons(e, later, rest);
      var t := Glue(later) + rest;
      FindAfter(e, t);
      CutSides(e, t, s);
      CutAt(s, |e|, e, t);
      OnlyCut(t, later, rest);
    }
  }

  lemma CutSides(e: string, t: string, s: string)
    requires s == e + "\n\n" + t || s == e + ("\n\n" + t)
    ensures |e| + 2 <= |s| && s[..|e|] == e && s[|e| + 2..] == t && s == e + "\n\n" + t
  {
  }

  lemma GlueCons(e: string, events: seq<string>, rest: string)
    ensures Glue([e] + events) + rest == e + "\n\n" + (Glue(events) + rest)
  {
    assert ([e] + events)[1..] == events;
  }

  // ---- parse_raw_event --------------------------------------------------------------------------------

  /** The event name, and the text handed to json.loads; an empty text stands for {}. */
  datatype Event = Event(name: string, data: string)

  /** s.replace("\r\n", "\n") */
  function ReplaceCrLf(s: string): string
  {
    if s == "" then ""
    else if |s| >= 2 && s[0] == '\r' && s[1] == '\n' then "\n" + ReplaceCrLf(s[2..])
    else [s[0]] + ReplaceCrLf(s[1..])
  }

  const EVENT := "event:"
  const DATA := "data:"

  /** What follows the first colon. */
  function AfterColon(s: string): string
    requires ':' in s
  {
    if s[0] == ':' then s[1..] else AfterColon(s[1..])
  }

  predicate IsEventLine(line: string)
    ensures IsEventLine(line) ==> ':' in line
  {
    assert EVENT <= line ==> line[5] == ':';
    EVENT <= line
  }

  predicate IsDataLine(line: string)
    ensures IsDataLine(line) ==> ':' in line
  {
    assert DATA <= line ==> line[4] == ':';
    !(EVENT <= line) && DATA <= line
  }

  /** The value of the last event line among the first n, "message" without one. */
  function NameOf(lines: seq<string>, n: nat): string
    requires n <= |lines|
  {
    if n == 0 then "message"
    else if IsEventLine(lines[n - 1]) then Text.Strip(AfterColon(lines[n - 1]))
    else NameOf(lines, n - 1)
  }

  /** The values of the data lines among the first n. */
  function DataOf(lines: seq<string>, n: nat): seq<string>
    requires n <= |lines|
  {
    if n == 0 then []
    else if IsDataLine(lines[n - 1]) then DataOf(lines, n - 1) + [Text.LStrip(AfterColon(lines[n - 1]))]
    else DataOf(lines, n - 1)
  }

  function Parsed(raw: string): Option<Event>
  {
    var normalized := Text.Strip(ReplaceCrLf(raw));
    if normalized == "" then None
    else
      var lines := Text.Split(normalized, '\n');
      Some(Event(NameOf(lines, |lines|), Text.Strip(Text.JoinLines(DataOf(lines, |lines|)))))
  }

  // What parsing means, without the functions that do it.

  /** v is s without the whitespace at its ends. */
  ghost predicate StripOf(s: string, v: string) { Text.Trims(s, v) && Text.Tight(v) }

  /** v is s without the whitespace in front. */
  ghost predicate LStripOf(s: string, v: string)
  {
    (v != "" ==> !Text.IsSpace(v[0])) && exists i :: 0 <= i <= |s| && v == s[i..] && Text.Blank(s[..i])
  }

  ghost predicate NamedIn(lines: seq<string>, k: nat, name: string)
    requires k < |lines|
  {
    EVENT <= lines[k] && StripOf(lines[k][6..], name)
  }

  /** The name stands in the last event line; without one it is "message". */
  ghost predicate NameRead(lines: seq<string>, name: string)
  {
    || (name == "message" && forall k | 0 <= k < |lines| :: !(EVENT <= lines[k]))
    || exists k: nat :: k < |lines| && NamedIn(lines, k, name) && forall l | k < l < |lines| :: !(EVENT <= lines[l])
  }

  ghost predicate ValueOf(line: string, v: string) { DATA <= line && LStripOf(line[5..], v) }

  ghost predicate Values(dataLines: seq<string>, data: seq<string>)
  {
    |data| == |dataLines| && forall k | 0 <= k < |data| :: ValueOf(dataLines[k], data[k])
  }

  /** The data are the values of the data lines, in order. */
  ghost predicate DataRead(lines: seq<string>, data: seq<string>)
  {
    exists dataLines: seq<string> ::
      Filters.Kept(lines, (line: string) => DATA <= line, dataLines) && Values(dataLines, data)
  }

  /** The pieces of s between its "\r\n". */
  ghost predicate CrLfPieces(parts: seq<string>, s: string)
  {
    parts != [] && Text.Join(parts, "\r\n") == s && forall k | 0 <= k < |parts| :: Free(parts[k], '\r', '\n')
  }

  /** r is s with a line feed for each carriage return and line feed. */
  ghost predicate LineEnds(s: string, r: string)
  {
    exists parts: seq<string> :: CrLfPieces(parts, s) && Text.Join(parts, "\n") == r
  }

  /** The event a raw text stands for: none if it is blank; otherwise the name and the data, joined by line
      feeds, that its lines give. */
  ghost predicate Reads(raw: string, event: Option<Event>)
  {
    exists text, normalized ::
      && LineEnds(raw, text) && StripOf(text, normalized)
      && (event.None? <==> normalized == "")
      && (event.Some? ==> ReadsFrom(normalized, event.value))
  }

  ghost predicate ReadsFrom(normalized: string, event: Event)
  {
    exists lines, data ::
      && Text.Pieces(lines, normalized, '\n') && NameRead(lines, event.name) && DataRead(lines, data)
      && StripOf(Text.Join(data, "\n"), event.data)
  }

  lemma {:induction false} PrefixColon(line: string, front: string)
    requires front + ":" <= line && ':' !in front
    ensures ':' in line && AfterColon(line) == line[|front| + 1..]
  {
    assert line == front + ":" + line[|front| + 1..];
    ColonAt(line, front, line[|front| + 1..]);
  }

  lemma NameTaken(init: seq<string>, line: string)
    requires IsEventLine(line)
    ensures NameRead(init + [line], Text.Strip(AfterColon(line)))
  {
    assert EVENT == "event" + ":";
    PrefixColon(line, "event");
    Text.StripIs(AfterColon(line));
    assert NamedIn(init + [line], |init|, Text.Strip(AfterColon(line)));
  }

  lemma {:induction false} NameOfIs(lines: seq<string>, n: nat)
    requires n <= |lines|
    ensures NameRead(lines[..n], NameOf(lines, n))
  {
    if n > 0 {
      var line, init := lines[n - 1], lines[..n - 1];
      assert lines[..n] == init + [line];
      if IsEventLine(line) {
        NameTaken(init, line);
      } else {
        NameOfIs(lines, n - 1);
        NameSkips(init, line, NameOf(lines, n - 1));
      }
    }
  }

  lemma NameSkips(init: seq<string>, line: string, name: string)
    requires NameRead(init, name) && !(EVENT <= line)
    ensures NameRead(init + [line], name)
  {
    var lines := init + [line];
    assert forall k | 0 <= k < |init| :: lines[k] == init[k];
    if k: nat :| k < |init| && NamedIn(init, k, name) && forall l | k < l < |init| :: !(EVENT <= init[l]) {
      assert NamedIn(lines, k, name);
    }
  }

  predicate StartsData(line: string) { DATA <= line }

  lemma ValueIs(line: string)
    ensures IsDataLine(line) <==> StartsData(line)
    ensures IsDataLine(line) ==> ValueOf(line, Text.LStrip(AfterColon(line)))
  {
    if StartsData(line) {
      assert line[0] == 'd' && EVENT[0] == 'e';
      assert DATA == "data" + ":";
      PrefixColon(line, "data");
      Text.LStripIs(AfterColon(line));
    }
  }

  lemma {:induction false} DataOfIs(lines: seq<string>, n: nat)
    requires n <= |lines|
    ensures Values(Filters.Filter(lines[..n], StartsData), DataOf(lines, n))
  {
    if n > 0 {
      DataOfIs(lines, n - 1);
      assert lines[..n][..n - 1] == lines[..n - 1];
      ValueIs(lines[n - 1]);
    }
  }

  lemma DataIsRead(lines: seq<string>)
    ensures DataRead(lines, DataOf(lines, |lines|))
  {
    DataOfIs(lines, |lines|);
    assert lines[..|lines|] == lines;
    Filters.FilterIs(lines, StartsData);
    Filters.SameKept(lines, StartsData, (line: string) => DATA <= line, Filters.Filter(lines, StartsData));
  }

  lemma {:induction false} JoinHead(c: char, parts: seq<string>, sep: string)
    requires parts != []
    ensures Text.Join([[c] + parts[0]] + parts[1..], sep) == [c] + Text.Join(parts, sep)
  {
    var longer := [[c] + parts[0]] + parts[1..];
    assert longer[1..] == parts[1..];
    if |parts| > 1 {
      assert [c] + (parts[0] + sep + Text.Join(parts[1..], sep)) == ([c] + parts[0]) + sep + Text.Join(parts[1..], sep);
    }
  }

  lemma JoinEmpty(parts: seq<string>, sep: string)
    requires parts != []
    ensures Text.Join([""] + parts, sep) == sep + Text.Join(parts, sep)
  {
    assert ([""] + parts)[1..] == parts;
  }

  lemma CrLfStep(s: string, parts: seq<string>) returns (all: seq<string>)
    requires s != "" && !(|s| >= 2 && s[0] == '\r' && s[1] == '\n') && CrLfPieces(parts, s[1..])
    ensures CrLfPieces(all, s) && Text.Join(all, "\n") == [s[0]] + Text.Join(parts, "\n")
  {
    all := [[s[0]] + parts[0]] + parts[1..];
    JoinHead(s[0], parts, "\r\n");
    JoinHead(s[0], parts, "\n");
    assert [s[0]] + s[1..] == s;
    assert parts[0] <= s[1..];
    if parts[0] != "" {
      FreeCons(all[0], '\r', '\n');
      assert all[0][1..] == parts[0] && all[0][1] == s[1];
    }
    assert forall k | 1 <= k < |all| :: all[k] == parts[k];
  }

  lemma {:induction false} ReplaceIs(s: string) returns (parts: seq<string>)
    ensures CrLfPieces(parts, s) && Text.Join(parts, "\n") == ReplaceCrLf(s)
    decreases |s|
  {
    if s == "" {
      parts := [""];
    } else if |s| >= 2 && s[0] == '\r' && s[1] == '\n' {
      var rest := ReplaceIs(s[2..]);
      parts := [""] + rest;
      JoinEmpty(rest, "\r\n");
      JoinEmpty(rest, "\n");
      assert s == "\r\n" + s[2..];
      assert forall k | 1 <= k < |parts| :: parts[k] == rest[k - 1];
    } else {
      var rest := ReplaceIs(s[1..]);
      parts := CrLfStep(s, rest);
    }
  }

  lemma ParsedFrom(normalized: string)
    ensures var lines := Text.Split(normalized, '\n');
            ReadsFrom(normalized, Event(NameOf(lines, |lines|), Text.Strip(Text.JoinLines(DataOf(lines, |lines|)))))
  {
    var lines := Text.Split(normalized, '\n');
    Text.SplitIs(normalized, '\n');
    NameOfIs(lines, |lines|);
    assert lines[..|lines|] == lines;
    DataIsRead(lines);
    Text.StripIs(Text.JoinLines(DataOf(lines, |lines|)));
  }

  lemma ParsedIs(raw: string)
    ensures Reads(raw, Parsed(raw))
  {
    var text := ReplaceCrLf(raw);
    var normalized := Text.Strip(text);
    LineEndsIs(raw);
    Text.StripIs(text);
    if normalized != "" { ParsedFrom(normalized); }
    ReadsBy(raw, text, normalized, Parsed(raw));
  }

  lemma LineEndsIs(s: string)
    ensures LineEnds(s, ReplaceCrLf(s))
  {
    var parts := ReplaceIs(s);
  }

  lemma ReadsBy(raw: string, text: string, normalized: string, event: Option<Event>)
    requires LineEnds(raw, text) && StripOf(text, normalized) && (event.None? <==> normalized == "")
    requires event.Some? ==> ReadsFrom(normalized, event.value)
    ensures Reads(raw, event)
  {
  }

  method ReadLines(lines: seq<string>) returns (name: string, dataLines: seq<string>)
    ensures name == NameOf(lines, |lines|) && dataLines == DataOf(lines, |lines|)
  {
    name, dataLines := "message", [];
    for i := 0 to |lines|
      invariant name == NameOf(lines, i) && dataLines == DataOf(lines, i)
    {
      if IsEventLine(lines[i]) {
        name := Text.Strip(AfterColon(lines[i]));
      } else if IsDataLine(lines[i]) {
        dataLines := dataLines + [Text.LStrip(AfterColon(lines[i]))];
      }
    }
  }

  method ParseRawEvent(raw: string) returns (event: Option<Event>)
    ensures event == Parsed(raw)
    ensures Reads(raw, event)
  {
    ParsedIs(raw);
    var normalized := Text.Strip(ReplaceCrLf(raw));
    if normalized == "" { return None; }
    var name, dataLines := ReadLines(Text.Split(normalized, '\n'));
    event := Some(Event(name, Text.Strip(Text.JoinLines(dataLines))));
  }

  // ---- The server's encoder ------------------------------------------------------------------------------

  /** One event as app/api/routers/chat.py sends it, without the blank line. */
  function Raw(e: Event): string { EVENT + " " + e.name + "\n" + DATA + " " + e.data }

  function Encode(events: seq<Event>): string
  {
    if events == [] then "" else Raw(events[0]) + "\n\n" + Encode(events[1..])
  }

  /** Single-line values with no space around them; a JSON text is one, and is never empty. */
  predicate Plain(s: string) { '\n' !in s && Text.Strip(s) == s }

  predicate Sendable(e: Event) { Plain(e.name) && Plain(e.data) && e.data != "" }

  lemma {:induction false} LStripShortens(s: string)
    ensures |Text.LStrip(s)| <= |s| && (|Text.LStrip(s)| == |s| ==> Text.LStrip(s) == s)
  {
    if s != "" && Text.IsSpace(s[0]) { LStripShortens(s[1..]); }
  }

  lemma {:induction false} RStripShortens(s: string)
    ensures |Text.RStrip(s)| <= |s|
  {
    if s != "" && Text.IsSpace(s[|s| - 1]) { RStripShortens(s[..|s| - 1]); }
  }

  /** A stripped text is left alone on both sides. */
  lemma StrippedStays(s: string)
    requires Text.Strip(s) == s
    ensures Text.LStrip(s) == s && Text.RStrip(s) == s
  {
    LStripShortens(s);
    RStripShortens(Text.LStrip(s));
  }

  lemma StripAfterSpace(s: string)
    ensures Text.LStrip(" " + s) == Text.LStrip(s)
  {
    assert (" " + s)[1..] == s && Text.IsSpace(' ');
  }

  lemma {:induction false} NothingReplaced(s: string)
    requires Free(s, '\r', '\n')
    ensures ReplaceCrLf(s) == s
  {
    if |s| >= 2 { FreeCons(s, '\r', '\n'); }
    if s != "" { NothingReplaced(s[1..]); }
  }

  lemma SplitTwo(a: string, b: string)
    requires '\n' !in a && '\n' !in b
    ensures Text.Split(a + "\n" + b, '\n') == [a, b]
  {
    Text.SplitFirst(a, b, '\n');
    Text.SplitUncut(b, '\n');
  }

  lemma ColonAt(s: string, front: string, value: string)
    requires s == front + ":" + value && ':' !in front
    ensures ':' in s && AfterColon(s) == value
    decreases |front|
  {
    assert s[|front|] == ':';
    if front == "" {
      assert s[1..] == value;
    } else {
      assert s[1..] == front[1..] + ":" + value;
      assert s[0] == front[0];
      ColonAt(s[1..], front[1..], value);
    }
  }

  function NameLine(e: Event): string { EVENT + " " + e.name }

  function DataLine(e: Event): string { DATA + " " + e.data }

  lemma RawIs(e: Event)
    ensures Raw(e) == NameLine(e) + "\n" + DataLine(e)
  {
  }

  lemma NameLineValue(e: Event)
    requires Plain(e.name)
    ensures '\n' !in NameLine(e) && IsEventLine(NameLine(e)) && Text.Strip(AfterColon(NameLine(e))) == e.name
  {
    var line := NameLine(e);
    assert line == "event" + ":" + (" " + e.name);
    ColonAt(line, "event", " " + e.name);
    StripAfterSpace(e.name);
  }

  lemma DataLineValue(e: Event)
    requires Plain(e.data)
    ensures '\n' !in DataLine(e) && IsDataLine(DataLine(e)) && Text.LStrip(AfterColon(DataLine(e))) == e.data
  {
    var line := DataLine(e);
    assert line == "data" + ":" + (" " + e.data);
    assert line[0] == 'd' && EVENT[0] == 'e';
    ColonAt(line, "data", " " + e.data);
    StripAfterSpace(e.data);
    StrippedStays(e.data);
  }

  lemma LinesValue(nameLine: string, dataLine: string, name: string, data: string)
    requires IsEventLine(nameLine) && Text.Strip(AfterColon(nameLine)) == name
    requires IsDataLine(dataLine) && Text.LStrip(AfterColon(dataLine)) == data
    ensures NameOf([nameLine, dataLine], 2) == name && DataOf([nameLine, dataLine], 2) == [data]
  {
    var lines := [nameLine, dataLine];
    assert !IsDataLine(nameLine) && !IsEventLine(dataLine);
    assert NameOf(lines, 1) == name && DataOf(lines, 1) == [];
    assert [] + [data] == [data];
  }

  lemma StripIs(s: string)
    requires s != "" && !Text.IsSpace(s[0]) && !Text.IsSpace(s[|s| - 1])
    ensures Text.Strip(s) == s
  {
  }

  lemma NoCrLf(a: string, b: string)
    requires '\n' !in a && '\n' !in b && a != "" && a[|a| - 1] != '\r'
    ensures ReplaceCrLf(a + "\n" + b) == a + "\n" + b
  {
    var s := a + "\n" + b;
    forall i | 0 <= i < |s| - 1 ensures !(s[i] == '\r' && s[i + 1] == '\n') {
      LineBreakAt(a, b, i + 1);
      assert i + 1 == |a| ==> s[i] == a[i];
    }
    NothingReplaced(s);
  }

  lemma EndsOf(a: string, b: string, data: string)
    requires a != "" && data != "" && b == DATA + " " + data
    ensures (a + "\n" + b)[0] == a[0] && (a + "\n" + b)[|a + "\n" + b| - 1] == data[|data| - 1]
  {
  }

  lemma TwoLinesStripped(a: string, b: string, data: string)
    requires '\n' !in a && '\n' !in b && a != "" && !Text.IsSpace(a[0]) && a[|a| - 1] != '\r'
    requires data != "" && !Text.IsSpace(data[|data| - 1]) && b == DATA + " " + data
    ensures ReplaceCrLf(a + "\n" + b) == a + "\n" + b && Text.Strip(a + "\n" + b) == a + "\n" + b
  {
    NoCrLf(a, b);
    EndsOf(a, b, data);
    StripIs(a + "\n" + b);
  }

  lemma LastNotSpace(s: string)
    requires Text.Strip(s) == s && s != ""
    ensures !Text.IsSpace(s[|s| - 1])
  {
  }

  lemma RawStripped(e: Event)
    requires Sendable(e)
    ensures ReplaceCrLf(Raw(e)) == Raw(e) && Text.Strip(Raw(e)) == Raw(e) && Raw(e) != ""
  {
    RawIs(e);
    NoBreaks(e);
    LastOfNameLine(e);
    LastNotSpace(e.data);
    assert NameLine(e)[0] == 'e';
    TwoLinesStripped(NameLine(e), DataLine(e), e.data);
  }

  lemma NoBreaks(e: Event)
    requires '\n' !in e.name && '\n' !in e.data
    ensures '\n' !in NameLine(e) && '\n' !in DataLine(e)
  {
  }

  lemma LineBreakAt(a: string, b: string, i: nat)
    requires '\n' !in a && '\n' !in b && i < |a + "\n" + b|
    ensures (a + "\n" + b)[i] == '\n' <==> i == |a|
  {
  }

  lemma LastOfNameLine(e: Event)
    requires Plain(e.name)
    ensures NameLine(e)[|NameLine(e)| - 1] != '\r'
  {
    StrippedStays(e.name);
    if e.name == "" {
      assert NameLine(e)[6] == ' ';
    } else {
      assert NameLine(e)[|NameLine(e)| - 1] == e.name[|e.name| - 1];
    }
  }

  /** Parsing what the server encodes gives the event back. */
  lemma ParsedRaw(e: Event)
    requires Sendable(e)
    ensures Parsed(Raw(e)) == Some(e)
  {
    RawStripped(e);
    RawIs(e);
    NameLineValue(e);
    DataLineValue(e);
    SplitTwo(NameLine(e), DataLine(e));
    LinesValue(NameLine(e), DataLine(e), e.name, e.data);
    assert Text.JoinLines([e.data]) == e.data;
  }

  lemma {:induction false} FindAfter(a: string, b: string)
    requires Ended(a)
    ensures FindBlank(a + "\n\n" + b) == |a|
  {
    var s := a + "\n\n" + b;
    if a == "" {
      assert s[0] == '\n' && s[1] == '\n';
    } else {
      var tail := a[1..];
      if |a| >= 2 { FreeCons(a, '\n', '\n'); }
      FindAfter(tail, b);
      assert s[1..] == tail + "\n\n" + b && s[0] == a[0];
      assert |a| > 1 ==> s[1] == a[1];
    }
  }

  lemma RawHasNoBlank(e: Event)
    requires Sendable(e)
    ensures Raw(e) != "" && Ended(Raw(e))
  {
    RawIs(e);
    NameLineValue(e);
    DataLineValue(e);
    var s := Raw(e);
    forall i | 0 <= i < |s| - 1 ensures !(s[i] == '\n' && s[i + 1] == '\n') {
      LineBreakAt(NameLine(e), DataLine(e), i);
      LineBreakAt(NameLine(e), DataLine(e), i + 1);
    }
    LineBreakAt(NameLine(e), DataLine(e), |s| - 1);
  }

  function Raws(events: seq<Event>): seq<string>
  {
    if events == [] then [] else [Raw(events[0])] + Raws(events[1..])
  }

  lemma {:induction false} EncodedEvents(events: seq<Event>)
    requires forall e | e in events :: Sendable(e)
    ensures Complete(Encode(events)) == Raws(events) && Rest(Encode(events)) == ""
  {
    if events != [] {
      var raw, later := Raw(events[0]), Encode(events[1..]);
      EncodedEvents(events[1..]);
      assert Sendable(events[0]);
      RawHasNoBlank(events[0]);
      FindAfter(raw, later);
      var s := raw + "\n\n" + later;
      assert s[..|raw|] == raw && s[|raw| + 2..] == later;
    }
  }

  function ParseAll(raws: seq<string>): seq<Event>
  {
    if raws == [] then []
    else if Parsed(raws[0]).None? then ParseAll(raws[1..])
    else [Parsed(raws[0]).value] + ParseAll(raws[1..])
  }

  lemma {:induction false} ParseAllRaws(events: seq<Event>)
    requires forall e | e in events :: Sendable(e)
    ensures ParseAll(Raws(events)) == events
  {
    if events != [] {
      assert Sendable(events[0]);
      ParsedRaw(events[0]);
      ParseAllRaws(events[1..]);
      assert Raws(events)[1..] == Raws(events[1..]);
    }
  }

  /** End to end: whatever the server sends, in whatever chunks it arrives, the client reads the same
      events in the same order. */
  lemma StreamRoundTrip(events: seq<Event>, chunks: seq<string>)
    requires (forall e | e in events :: Sendable(e)) && Concat(chunks) == Encode(events)
    ensures ParseAll(Events(Concat(chunks))) == events
  {
    EncodedEvents(events);
    ParseAllRaws(events);
    assert Text.Strip("") == "";
  }
}
