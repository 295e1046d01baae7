// `fix_incorrect_toc` and its retry loop: page indices of table-of-contents entries are asked again
// until a checker accepts them or the attempts run out.
module TocRepair {
  import opened Common

  /** physical_index of each entry. */
  type Toc = seq<Option<int>>

  datatype Item = Item(listIndex: int, title: string, physicalIndex: Option<int>)

  /** What the fixer and the checker say about an item, or that one of them raised. */
  datatype Verdict = Raised | Answer(physicalIndex: Option<int>, accepted: bool)

  /** Asked in a round about an item, with the page range its text is taken from. */
  type Checker = (nat, Item, int, int) -> Verdict

  datatype Result = Result(item: Item, valid: bool)

  // ---- One item -------------------------------------------------------------------------------------

  function Indices(items: seq<Item>): (r: set<int>)
    ensures forall i :: i in r <==> exists k :: 0 <= k < |items| && items[k].listIndex == i
  {
    set k | 0 <= k < |items| :: items[k].listIndex
  }

  /** The nearest trusted entry before position n, or `none`. */
  function PrevCorrect(toc: Toc, bad: set<int>, n: nat, none: int): int
    requires n <= |toc|
  {
    if n == 0 then none
    else if n - 1 !in bad && toc[n - 1].Some? then toc[n - 1].value
    else PrevCorrect(toc, bad, n - 1, none)
  }

  /** The nearest trusted entry from position n on, or `none`. */
  function NextCorrect(toc: Toc, bad: set<int>, n: nat, none: int): int
    requires n <= |toc|
    decreases |toc| - n
  {
    if n == |toc| then none
    else if n !in bad && toc[n].Some? then toc[n].value
    else NextCorrect(toc, bad, n + 1, none)
  }

  predicate Trusted(toc: Toc, bad: set<int>, i: int) { 0 <= i < |toc| && i !in bad && toc[i].Some? }

  /** The range an item is asked about reaches from the nearest trusted entry before it to the nearest
      one after it; the given bounds stand in where there is none. */
  lemma {:induction false} PrevCorrectIs(toc: Toc, bad: set<int>, n: nat, none: int)
    requires n <= |toc|
    ensures (exists i | 0 <= i < n :: Trusted(toc, bad, i) && toc[i].value == PrevCorrect(toc, bad, n, none)
                                      && forall j | i < j < n :: !Trusted(toc, bad, j))
            || (PrevCorrect(toc, bad, n, none) == none && forall j | 0 <= j < n :: !Trusted(toc, bad, j))
  {
    if n > 0 {
      if n - 1 !in bad && toc[n - 1].Some? {
        assert Trusted(toc, bad, n - 1);
      } else {
        PrevCorrectIs(toc, bad, n - 1, none);
        assert !Trusted(toc, bad, n - 1);
      }
    }
  }

  lemma {:induction false} NextCorrectIs(toc: Toc, bad: set<int>, n: nat, none: int)
    requires n <= |toc|
    ensures (exists i | n <= i < |toc| :: Trusted(toc, bad, i) && toc[i].value == NextCorrect(toc, bad, n, none)
                                          && forall j | n <= j < i :: !Trusted(toc, bad, j))
            || (NextCorrect(toc, bad, n, none) == none && forall j | n <= j < |toc| :: !Trusted(toc, bad, j))
    decreases |toc| - n
  {
    if n < |toc| {
      if n !in bad && toc[n].Some? {
        assert Trusted(toc, bad, n);
      } else {
        NextCorrectIs(toc, bad, n + 1, none);
        assert !Trusted(toc, bad, n);
      }
    }
  }

  /** start_index and the number of pages. */
  datatype Span = Span(start: int, pages: nat)

  function Ask(toc: Toc, bad: set<int>, item: Item, span: Span, round: nat, checker: Checker): Verdict
    requires 0 <= item.listIndex < |toc|
  {
    checker(round, item, PrevCorrect(toc, bad, item.listIndex, span.start - 1),
            NextCorrect(toc, bad, item.listIndex + 1, span.pages + span.start - 1))
  }

  /** process_and_check_item: None when it raised. */
  function Process(toc: Toc, bad: set<int>, item: Item, span: Span, round: nat, checker: Checker): Option<Result>
  {
    if !(0 <= item.listIndex < |toc|) then Some(Result(item, false))
    else
      var v := Ask(toc, bad, item, span, round, checker);
      if v.Raised? then None else Some(Result(item.(physicalIndex := v.physicalIndex), v.accepted))
  }

  // ---- One round ------------------------------------------------------------------------------------

  /** The results of the first n items, without those that raised. */
  function Results(toc: Toc, items: seq<Item>, n: nat, span: Span, round: nat, checker: Checker): seq<Result>
    requires n <= |items|
  {
    if n == 0 then []
    else
      var before, r := Results(toc, items, n - 1, span, round, checker),
          Process(toc, Indices(items), items[n - 1], span, round, checker);
      if r.Some? then before + [r.value] else before
  }

  function Applied(toc: Toc, results: seq<Result>, n: nat): (t: Toc)
    requires n <= |results|
    ensures |t| == |toc|
  {
    if n == 0 then toc
    else
      var before, r := Applied(toc, results, n - 1), results[n - 1];
      if r.valid && 0 <= r.item.listIndex < |toc| then before[r.item.listIndex := r.item.physicalIndex] else before
  }

  function Invalid(size: nat, results: seq<Result>, n: nat): seq<Item>
    requires n <= |results|
  {
    if n == 0 then []
    else
      var before, r := Invalid(size, results, n - 1), results[n - 1];
      if r.valid && 0 <= r.item.listIndex < size then before else before + [r.item]
  }

  function Round(toc: Toc, items: seq<Item>, span: Span, round: nat, checker: Checker): (r: (Toc, seq<Item>))
    ensures |r.0| == |toc|
  {
    var results := Results(toc, items, |items|, span, round, checker);
    (Applied(toc, results, |results|), Invalid(|toc|, results, |results|))
  }

  datatype Outcome = Outcome(toc: Toc, remaining: seq<Item>, rounds: nat)

  /** The retry loop after `round` rounds. */
  function Retries(toc: Toc, items: seq<Item>, span: Span, round: nat, maxAttempts: int, checker: Checker): (o: Outcome)
    ensures |o.toc| == |toc|
    decreases maxAttempts - round
  {
    if items == [] then Outcome(toc, items, round)
    else
      var (toc', items') := Round(toc, items, span, round, checker);
      if round + 1 >= maxAttempts then Outcome(toc', items', round + 1)
      else Retries(toc', items', span, round + 1, maxAttempts, checker)
  }

  // ---- The code --------------------------------------------------------------------------------------

  method FindPrevCorrect(entries: array<Option<int>>, bad: set<int>, at: nat, none: int) returns (prev: int)
    requires at < entries.Length
    ensures prev == PrevCorrect(entries[..], bad, at, none)
  {
    var i := at;
    while i > 0
      invariant 0 <= i <= at && PrevCorrect(entries[..], bad, at, none) == PrevCorrect(entries[..], bad, i, none)
    {
      i := i - 1;
      if i !in bad && entries[i].Some? { return entries[i].value; }
    }
    prev := none;
  }

  method FindNextCorrect(entries: array<Option<int>>, bad: set<int>, at: nat, none: int) returns (next: int)
    requires at < entries.Length
    ensures next == NextCorrect(entries[..], bad, at + 1, none)
  {
    var i := at + 1;
    while i < entries.Length
      invariant at < i <= entries.Length && NextCorrect(entries[..], bad, at + 1, none) ==
                  NextCorrect(entries[..], bad, i, none)
    {
      if i !in bad && entries[i].Some? { return entries[i].value; }
      i := i + 1;
    }
    next := none;
  }

  method ProcessItem(entries: array<Option<int>>, bad: set<int>, item: Item, span: Span, round: nat, checker: Checker)
      returns (result: Option<Result>)
    ensures result == Process(entries[..], bad, item, span, round, checker)
  {
    if item.listIndex < 0 || item.listIndex >= entries.Length { return Some(Result(item, false)); }
    var prev := FindPrevCorrect(entries, bad, item.listIndex, span.start - 1);
    var next := FindNextCorrect(entries, bad, item.listIndex, span.pages + span.start - 1);
    var v := checker(round, item, prev, next);
    return if v.Raised? then None else Some(Result(item.(physicalIndex := v.physicalIndex), v.accepted));
  }

  /** One round: all items are asked before any entry is written. */
  method FixIncorrectToc(entries: array<Option<int>>, items: seq<Item>, span: Span, round: nat, checker: Checker)
      returns (invalid: seq<Item>)
    modifies entries
    ensures (entries[..], invalid) == Round(old(entries[..]), items, span, round, checker)
    ensures RoundDone(old(entries[..]), items, span, round, checker, entries[..], invalid)
  {
    ghost var toc := entries[..];
    var results := [];
    for i := 0 to |items|
      invariant entries[..] == toc && results == Results(toc, items, i, span, round, checker)
    {
      var result := ProcessItem(entries, Indices(items), items[i], span, round, checker);
      if result.Some? { results := results + [result.value]; }
    }
    invalid := [];
    for i := 0 to |results|
      invariant entries[..] == Applied(toc, results, i) && invalid == Invalid(|toc|, results, i)
    {
      var r := results[i];
      if r.valid && 0 <= r.item.listIndex < entries.Length {
        entries[r.item.listIndex] := r.item.physicalIndex;
      } else {
        invalid := invalid + [r.item];
      }
    }
    RoundIsDone(toc, items, span, round, checker);
  }

  method FixIncorrectTocWithRetries(entries: array<Option<int>>, items: seq<Item>, span: Span, maxAttempts: int,
                                    checker: Checker)
      returns (remaining: seq<Item>, attempts: nat)
    modifies entries
    ensures Outcome(entries[..], remaining, attempts) == Retries(old(entries[..]), items, span, 0, maxAttempts, checker)
  {
    remaining, attempts := items, 0;
    while remaining != []
      invariant Retries(entries[..], remaining, span, attempts, maxAttempts, checker)
                == Retries(old(entries[..]), items, span, 0, maxAttempts, checker)
      decreases maxAttempts - attempts
    {
      remaining := FixIncorrectToc(entries, remaining, span, attempts, checker);
      attempts := attempts + 1;
      if attempts >= maxAttempts { break; }
    }
  }

  // ---- What the loop keeps ------------------------------------------------------------------------------

  // The rounds as a trace: round r works on the entries and the items the earlier rounds left.

  function After(toc: Toc, items: seq<Item>, span: Span, base: nat, n: nat, checker: Checker): (r: (Toc, seq<Item>))
    ensures |r.0| == |toc|
    decreases n
  {
    if n == 0 then (toc, items)
    else
      var (toc', items') := Round(toc, items, span, base, checker);
      After(toc', items', span, base + 1, n - 1, checker)
  }

  /** The index of the nearest trusted entry before entry `at`, or `none` if there is none. */
  ghost predicate Lower(toc: Toc, bad: set<int>, at: int, none: int, page: int)
  {
    (exists i | 0 <= i < at :: Trusted(toc, bad, i) && toc[i].value == page
                               && forall j | i < j < at :: !Trusted(toc, bad, j))
    || (page == none && forall j | 0 <= j < at :: !Trusted(toc, bad, j))
  }

  /** The index of the nearest trusted entry behind entry `at`, or `none`. */
  ghost predicate Upper(toc: Toc, bad: set<int>, at: int, none: int, page: int)
  {
    (exists i | at < i < |toc| :: Trusted(toc, bad, i) && toc[i].value == page
                                  && forall j | at < j < i :: !Trusted(toc, bad, j))
    || (page == none && forall j | at < j < |toc| :: !Trusted(toc, bad, j))
  }

  /** Asked in this round about item k, the checker gives this verdict: the question reaches from the nearest
      trusted entry before the item's entry, or the page before the first, to the nearest one behind it, or
      the last page. */
  ghost predicate Said(toc: Toc, items: seq<Item>, span: Span, round: nat, checker: Checker, k: int, v: Verdict)
  {
    && 0 <= k < |items| && 0 <= items[k].listIndex < |toc|
    && exists lo, hi ::
         && Lower(toc, Indices(items), items[k].listIndex, span.start - 1, lo)
         && Upper(toc, Indices(items), items[k].listIndex, span.pages + span.start - 1, hi)
         && v == checker(round, items[k], lo, hi)
  }

  lemma LowerIs(toc: Toc, bad: set<int>, n: nat, none: int, page: int)
    requires n <= |toc|
    ensures Lower(toc, bad, n, none, page) <==> page == PrevCorrect(toc, bad, n, none)
  {
    PrevCorrectIs(toc, bad, n, none);
    if Lower(toc, bad, n, none, page) { OneLower(toc, bad, n, none, page, PrevCorrect(toc, bad, n, none)); }
  }

  lemma OneLower(toc: Toc, bad: set<int>, at: int, none: int, p: int, q: int)
    requires Lower(toc, bad, at, none, p) && Lower(toc, bad, at, none, q)
    ensures p == q
  {
  }

  lemma UpperIs(toc: Toc, bad: set<int>, at: nat, none: int, page: int)
    requires at < |toc|
    ensures Upper(toc, bad, at, none, page) <==> page == NextCorrect(toc, bad, at + 1, none)
  {
    NextCorrectIs(toc, bad, at + 1, none);
    if Upper(toc, bad, at, none, page) { OneUpper(toc, bad, at, none, page, NextCorrect(toc, bad, at + 1, none)); }
  }

  lemma OneUpper(toc: Toc, bad: set<int>, at: int, none: int, p: int, q: int)
    requires Upper(toc, bad, at, none, p) && Upper(toc, bad, at, none, q)
    ensures p == q
  {
  }

  lemma SaidIs(toc: Toc, items: seq<Item>, span: Span, round: nat, checker: Checker, k: int, v: Verdict)
    requires 0 <= k < |items| && 0 <= items[k].listIndex < |toc|
    ensures Said(toc, items, span, round, checker, k, v) <==>
              v == Ask(toc, Indices(items), items[k], span, round, checker)
  {
    var bad, at := Indices(items), items[k].listIndex;
    var lo, hi := PrevCorrect(toc, bad, at, span.start - 1), NextCorrect(toc, bad, at + 1, span.pages + span.start - 1);
    LowerIs(toc, bad, at, span.start - 1, lo);
    UpperIs(toc, bad, at, span.pages + span.start - 1, hi);
    if Said(toc, items, span, round, checker, k, v) {
      var a, b :| Lower(toc, bad, at, span.start - 1, a) && Upper(toc, bad, at, span.pages + span.start - 1, b)
                  && v == checker(round, items[k], a, b);
      LowerIs(toc, bad, at, span.start - 1, a);
      UpperIs(toc, bad, at, span.pages + span.start - 1, b);
    }
  }

  /** In this round an item of the list was asked about this entry and the answer was this index, accepted. */
  ghost predicate AcceptedIn(toc: Toc, items: seq<Item>, span: Span, round: nat, checker: Checker, entry: int,
                             index: Option<int>)
  {
    exists k :: 0 <= k < |items| && items[k].listIndex == entry
                && Said(toc, items, span, round, checker, k, Answer(index, true))
  }

  /** In this round the check of this item of the list raised. */
  ghost predicate RaisedIn(toc: Toc, items: seq<Item>, span: Span, round: nat, checker: Checker, x: Item)
  {
    exists k :: 0 <= k < |items| && Same(items[k], x) && Said(toc, items, span, round, checker, k, Raised)
  }

  /** One of the n rounds accepted this index for this entry. */
  ghost predicate Accepted(toc: Toc, items: seq<Item>, span: Span, base: nat, n: nat, checker: Checker, entry: int,
                           index: Option<int>)
    decreases n
  {
    n > 0 && (
      || AcceptedIn(toc, items, span, base, checker, entry, index)
      || var (toc', items') := Round(toc, items, span, base, checker);
         Accepted(toc', items', span, base + 1, n - 1, checker, entry, index))
  }

  ghost predicate NeverAccepted(toc: Toc, items: seq<Item>, span: Span, base: nat, n: nat, checker: Checker, entry: int)
  {
    forall index :: !Accepted(toc, items, span, base, n, checker, entry, index)
  }

  lemma NeverNext(toc: Toc, items: seq<Item>, span: Span, base: nat, n: nat, checker: Checker, entry: int)
    requires n > 0
    ensures var (toc', items') := Round(toc, items, span, base, checker);
            NeverAccepted(toc, items, span, base, n, checker, entry) <==>
              && (forall index :: !AcceptedIn(toc, items, span, base, checker, entry, index))
              && NeverAccepted(toc', items', span, base + 1, n - 1, checker, entry)
  {
    var (toc', items') := Round(toc, items, span, base, checker);
    var base', n' := base + 1, n - 1;
    forall index ensures Accepted(toc, items, span, base, n, checker, entry, index) <==>
                           AcceptedIn(toc, items, span, base, checker, entry, index)
                           || Accepted(toc', items', span, base', n', checker, entry, index) {}
  }

  /** One of the n rounds raised for this item. */
  ghost predicate RaisedDuring(toc: Toc, items: seq<Item>, span: Span, base: nat, n: nat, checker: Checker, x: Item)
    decreases n
  {
    n > 0 && (
      || RaisedIn(toc, items, span, base, checker, x)
      || var (toc', items') := Round(toc, items, span, base, checker);
         RaisedDuring(toc', items', span, base + 1, n - 1, checker, x))
  }

  /** The same, r rounds later. */
  ghost predicate AcceptedAt(toc: Toc, items: seq<Item>, span: Span, base: nat, r: nat, checker: Checker, entry: int,
                             index: Option<int>)
  {
    var state := After(toc, items, span, base, r, checker);
    AcceptedIn(state.0, state.1, span, base + r, checker, entry, index)
  }

  lemma AcceptedNext(toc: Toc, items: seq<Item>, span: Span, base: nat, r: nat, checker: Checker, entry: int,
                     index: Option<int>)
    ensures var (toc', items') := Round(toc, items, span, base, checker);
            AcceptedAt(toc, items, span, base, r + 1, checker, entry, index)
            <==> AcceptedAt(toc', items', span, base + 1, r, checker, entry, index)
  {
    assert base + (r + 1) == base + 1 + r;
  }

  /** `Accepted` speaks of the rounds of the trace. */
  lemma {:induction false} AcceptedIs(toc: Toc, items: seq<Item>, span: Span, base: nat, n: nat, checker: Checker,
                                      entry: int, index: Option<int>)
    ensures Accepted(toc, items, span, base, n, checker, entry, index) <==>
              exists r: nat :: r < n && AcceptedAt(toc, items, span, base, r, checker, entry, index)
    decreases n
  {
    if n > 0 {
      var (toc', items') := Round(toc, items, span, base, checker);
      var base' := base + 1;
      AcceptedIs(toc', items', span, base', n - 1, checker, entry, index);
      assert AcceptedAt(toc, items, span, base, 0, checker, entry, index) <==>
               AcceptedIn(toc, items, span, base, checker, entry, index);
      if r: nat :| r < n && AcceptedAt(toc, items, span, base, r, checker, entry, index) {
        if r > 0 { AcceptedNext(toc, items, span, base, r - 1, checker, entry, index); }
      }
      if r: nat :| r < n - 1 && AcceptedAt(toc', items', span, base', r, checker, entry, index) {
        AcceptedNext(toc, items, span, base, r, checker, entry, index);
      }
    }
  }

  /** The loop ends in the state its rounds lead to. */
  lemma {:induction false} RetriesAreRounds(toc: Toc, items: seq<Item>, span: Span, round: nat, maxAttempts: int,
                                            checker: Checker)
    ensures var o := Retries(toc, items, span, round, maxAttempts, checker);
            o.rounds >= round && (o.toc, o.remaining) == After(toc, items, span, round, o.rounds - round, checker)
    decreases maxAttempts - round
  {
    if items != [] {
      var (toc', items') := Round(toc, items, span, round, checker);
      if round + 1 < maxAttempts { RetriesAreRounds(toc', items', span, round + 1, maxAttempts, checker); }
    }
  }

  /** a can be had from b by leaving items out, up to the index last proposed for an item. */
  ghost predicate Within(a: seq<Item>, b: seq<Item>)
  {
    if a == [] then true
    else if b == [] then false
    else Within(a, b[..|b| - 1]) || (Same(a[|a| - 1], b[|b| - 1]) && Within(a[..|a| - 1], b[..|b| - 1]))
  }

  predicate Same(x: Item, y: Item) { x.listIndex == y.listIndex && x.title == y.title }

  lemma {:induction false} ResultsWithin(toc: Toc, items: seq<Item>, n: nat, span: Span, round: nat, checker: Checker,
                                         m: nat)
    requires n <= |items| && m == |Results(toc, items, n, span, round, checker)|
    ensures Within(Invalid(|toc|, Results(toc, items, n, span, round, checker), m), items[..n])
  {
    if n > 0 {
      var before, all := Results(toc, items, n - 1, span, round, checker), Results(toc, items, n, span, round, checker);
      ResultsWithin(toc, items, n - 1, span, round, checker, |before|);
      InvalidOfPrefix(|toc|, before, all, |before|);
      assert items[..n][..n - 1] == items[..n - 1];
    }
  }

  lemma {:induction false} InvalidOfPrefix(size: nat, a: seq<Result>, b: seq<Result>, n: nat)
    requires n <= |a| <= |b| && a == b[..|a|]
    ensures Invalid(size, a, n) == Invalid(size, b, n)
  {
    if n > 0 { InvalidOfPrefix(size, a, b, n - 1); }
  }

  lemma {:induction false} WithinNone(b: seq<Item>)
    ensures Within([], b)
  {
  }

  lemma {:induction false} WithinTrans(a: seq<Item>, b: seq<Item>, c: seq<Item>)
    requires Within(a, b) && Within(b, c)
    ensures Within(a, c)
    decreases |c|, |b|
  {
    if a != [] {
      var b', c' := b[..|b| - 1], c[..|c| - 1];
      if Within(b, c') {
        WithinTrans(a, b, c');
      } else if Within(a, b') {
        WithinTrans(a, b', c');
      } else {
        WithinTrans(a[..|a| - 1], b', c');
      }
    }
  }

  lemma {:induction false} WithinMember(a: seq<Item>, b: seq<Item>, k: nat) returns (m: nat)
    requires Within(a, b) && k < |a|
    ensures m < |b| && Same(a[k], b[m])
    decreases |b|
  {
    if Within(a, b[..|b| - 1]) {
      m := WithinMember(a, b[..|b| - 1], k);
    } else if k == |a| - 1 {
      m := |b| - 1;
    } else {
      m := WithinMember(a[..|a| - 1], b[..|b| - 1], k);
    }
  }

  lemma WithinIndices(a: seq<Item>, b: seq<Item>)
    requires Within(a, b)
    ensures Indices(a) <= Indices(b)
  {
    forall i | i in Indices(a) ensures i in Indices(b) {
      var k: nat :| k < |a| && a[k].listIndex == i;
      var m := WithinMember(a, b, k);
    }
  }

  lemma {:induction false} WithinShorter(a: seq<Item>, b: seq<Item>)
    requires Within(a, b)
    ensures |a| <= |b|
    decreases |b|
  {
    if a != [] {
      if Within(a, b[..|b| - 1]) { WithinShorter(a, b[..|b| - 1]); } else { WithinShorter(a[..|a| - 1], b[..|b| - 1]); }
    }
  }

  lemma RoundWithin(toc: Toc, items: seq<Item>, span: Span, round: nat, checker: Checker)
    ensures Within(Round(toc, items, span, round, checker).1, items)
  {
    var results := Results(toc, items, |items|, span, round, checker);
    ResultsWithin(toc, items, |items|, span, round, checker, |results|);
    assert items[..|items|] == items;
  }

  /** A valid result holds what an item of the list was told about its entry in this round. */
  ghost predicate Sound(toc: Toc, items: seq<Item>, span: Span, r: Result, round: nat, checker: Checker)
  {
    r.valid ==> AcceptedIn(toc, items, span, round, checker, r.item.listIndex, r.item.physicalIndex)
  }

  lemma ProcessSound(toc: Toc, items: seq<Item>, k: nat, span: Span, round: nat, checker: Checker)
    requires k < |items|
    ensures var r := Process(toc, Indices(items), items[k], span, round, checker);
            r.Some? ==> Sound(toc, items, span, r.value, round, checker)
  {
    if 0 <= items[k].listIndex < |toc| {
      SaidIs(toc, items, span, round, checker, k, Ask(toc, Indices(items), items[k], span, round, checker));
    }
  }

  lemma {:induction false} ResultsSound(toc: Toc, items: seq<Item>, n: nat, span: Span, round: nat, checker: Checker)
    requires n <= |items|
    ensures forall k | 0 <= k < |Results(toc, items, n, span, round, checker)| ::
              Sound(toc, items, span, Results(toc, items, n, span, round, checker)[k], round, checker)
  {
    if n > 0 {
      ResultsSound(toc, items, n - 1, span, round, checker);
      ProcessSound(toc, items, n - 1, span, round, checker);
    }
  }

  lemma {:induction false} AppliedAccepted(toc: Toc, items: seq<Item>, span: Span, results: seq<Result>, n: nat,
                                           round: nat, checker: Checker, i: nat)
    requires n <= |results| && i < |toc| && forall k | 0 <= k < |results| ::
               Sound(toc, items, span, results[k], round, checker)
    ensures var x := Applied(toc, results, n)[i]; x == toc[i] || AcceptedIn(toc, items, span, round, checker, i, x)
  {
    if n > 0 {
      AppliedAccepted(toc, items, span, results, n - 1, round, checker, i);
      assert Sound(toc, items, span, results[n - 1], round, checker);
    }
  }

  lemma RoundAccepted(toc: Toc, items: seq<Item>, span: Span, round: nat, checker: Checker, i: nat)
    requires i < |toc|
    ensures var x := Round(toc, items, span, round, checker).0[i];
            x == toc[i] || AcceptedIn(toc, items, span, round, checker, i, x)
  {
    var results := Results(toc, items, |items|, span, round, checker);
    ResultsSound(toc, items, |items|, span, round, checker);
    AppliedAccepted(toc, items, span, results, |results|, round, checker, i);
  }

  /** At most maxAttempts rounds are run, and one when maxAttempts is not positive; the loop does not end
      before that while an item remains. */
  lemma {:induction false} RoundsBounded(toc: Toc, items: seq<Item>, span: Span, round: nat, maxAttempts: int,
                                         checker: Checker)
    ensures var rounds := Retries(toc, items, span, round, maxAttempts, checker).rounds;
            round <= rounds && (rounds == round || rounds == round + 1 || rounds <= maxAttempts)
    ensures items == [] <==> Retries(toc, items, span, round, maxAttempts, checker).rounds == round
    ensures var o := Retries(toc, items, span, round, maxAttempts, checker);
            o.remaining == [] || o.rounds >= maxAttempts
    decreases maxAttempts - round
  {
    if items != [] && round + 1 < maxAttempts {
      var (toc', items') := Round(toc, items, span, round, checker);
      RoundsBounded(toc', items', span, round + 1, maxAttempts, checker);
    }
  }

  /** The remaining items are among the initial ones, in their order. */
  lemma {:induction false} RemainingShrinks(toc: Toc, items: seq<Item>, span: Span, round: nat, maxAttempts: int,
                                            checker: Checker)
    ensures Within(Retries(toc, items, span, round, maxAttempts, checker).remaining, items)
    decreases maxAttempts - round
  {
    if items == [] {
      WithinNone(items);
    } else {
      var (toc', items') := Round(toc, items, span, round, checker);
      RoundWithin(toc, items, span, round, checker);
      if round + 1 < maxAttempts {
        RemainingShrinks(toc', items', span, round + 1, maxAttempts, checker);
        WithinTrans(Retries(toc', items', span, round + 1, maxAttempts, checker).remaining, items', items);
      }
    }
  }

  lemma AcceptedListed(toc: Toc, items: seq<Item>, span: Span, round: nat, checker: Checker, entry: int,
                       index: Option<int>)
    requires AcceptedIn(toc, items, span, round, checker, entry, index)
    ensures entry in Indices(items)
  {
  }

  /** Entries outside the initially incorrect set never change, and an entry that did change holds an
      index the checker accepted when the loop asked about that entry. */
  lemma {:induction false} OnlyAcceptedChanges(toc: Toc, items: seq<Item>, span: Span, round: nat, maxAttempts: int,
                                               checker: Checker, i: nat)
    requires i < |toc|
    ensures var o := Retries(toc, items, span, round, maxAttempts, checker);
            o.rounds >= round
            && (o.toc[i] == toc[i]
                || (i in Indices(items) && Accepted(toc, items, span, round, o.rounds - round, checker, i, o.toc[i])))
    decreases maxAttempts - round
  {
    RoundsBounded(toc, items, span, round, maxAttempts, checker);
    if items != [] {
      var (toc', items') := Round(toc, items, span, round, checker);
      RoundAccepted(toc, items, span, round, checker, i);
      if toc'[i] != toc[i] { AcceptedListed(toc, items, span, round, checker, i, toc'[i]); }
      if round + 1 < maxAttempts {
        RoundsBounded(toc', items', span, round + 1, maxAttempts, checker);
        OnlyAcceptedChanges(toc', items', span, round + 1, maxAttempts, checker, i);
        RoundWithin(toc, items, span, round, checker);
        WithinIndices(items', items);
      }
    }
  }

  // ---- What becomes of an item ------------------------------------------------------------------------------

  ghost predicate Listed(items: seq<Item>, x: Item) { exists k :: 0 <= k < |items| && Same(items[k], x) }

  ghost predicate Distinct(items: seq<Item>)
  {
    forall k, l | 0 <= k < l < |items| :: items[k].listIndex != items[l].listIndex
  }

  lemma {:induction false} WithinDistinct(a: seq<Item>, b: seq<Item>)
    requires Within(a, b) && Distinct(b)
    ensures Distinct(a)
    decreases |b|
  {
    if a != [] {
      var b' := b[..|b| - 1];
      if Within(a, b') {
        WithinDistinct(a, b');
      } else {
        WithinDistinct(a[..|a| - 1], b');
        forall k | 0 <= k < |a| - 1 ensures a[k].listIndex != a[|a| - 1].listIndex {
          var m := WithinMember(a[..|a| - 1], b', k);
        }
      }
    }
  }

  lemma {:induction false} AppliedOfPrefix(toc: Toc, a: seq<Result>, b: seq<Result>, n: nat)
    requires n <= |a| <= |b| && a == b[..|a|]
    ensures Applied(toc, a, n) == Applied(toc, b, n)
  {
    if n > 0 { AppliedOfPrefix(toc, a, b, n - 1); }
  }

  /** One more result. */
  lemma ResultsSnoc(toc: Toc, a: seq<Result>, r: Result)
    ensures Applied(toc, a + [r], |a| + 1) ==
              if r.valid && 0 <= r.item.listIndex < |toc|
              then Applied(toc, a, |a|)[r.item.listIndex := r.item.physicalIndex]
              else Applied(toc, a, |a|)
    ensures Invalid(|toc|, a + [r], |a| + 1) ==
              if r.valid && 0 <= r.item.listIndex < |toc|
              then Invalid(|toc|, a, |a|)
              else Invalid(|toc|, a, |a|) + [r.item]
  {
    assert (a + [r])[..|a|] == a && (a + [r])[|a|] == r;
    AppliedOfPrefix(toc, a, a + [r], |a|);
    InvalidOfPrefix(|toc|, a, a + [r], |a|);
  }

  lemma IndicesSnoc(a: seq<Item>, x: Item)
    ensures Indices(a + [x]) == Indices(a) + {x.listIndex}
  {
    assert forall i | 0 <= i < |a| :: (a + [x])[i] == a[i];
    assert (a + [x])[|a|] == x;
  }

  /** What the first n items of a round leave behind. */
  function Left(toc: Toc, items: seq<Item>, n: nat, span: Span, round: nat, checker: Checker): (r: (Toc, seq<Item>))
    requires n <= |items|
    ensures |r.0| == |toc|
  {
    var results := Results(toc, items, n, span, round, checker);
    (Applied(toc, results, |results|), Invalid(|toc|, results, |results|))
  }

  /** One more item's result, if its check did not raise. */
  function Taken(t: Toc, rest: seq<Item>, p: Option<Result>): (Toc, seq<Item>)
  {
    if p.None? then (t, rest)
    else if p.value.valid && 0 <= p.value.item.listIndex < |t|
    then (t[p.value.item.listIndex := p.value.item.physicalIndex], rest)
    else (t, rest + [p.value.item])
  }

  /** The result of an item about another entry. */
  lemma TakenElsewhere(t: Toc, rest: seq<Item>, p: Option<Result>, i: int)
    requires p.Some? ==> p.value.item.listIndex != i
    ensures var (t', rest') := Taken(t, rest, p);
            (i in Indices(rest') <==> i in Indices(rest)) && (0 <= i < |t| ==> t'[i] == t[i])
  {
    if p.Some? { IndicesSnoc(rest, p.value.item); }
  }

  /** The result of the only item about its entry. */
  lemma TakenHere(t: Toc, rest: seq<Item>, p: Option<Result>, i: int)
    requires i !in Indices(rest) && (p.Some? ==> p.value.item.listIndex == i && (p.value.valid ==> 0 <= i < |t|))
    ensures var (t', rest') := Taken(t, rest, p);
            && (i in Indices(rest') <==> p.Some? && !p.value.valid)
            && (p.Some? && p.value.valid ==> t'[i] == p.value.item.physicalIndex)
  {
    if p.Some? { IndicesSnoc(rest, p.value.item); }
  }

  lemma LeftNext(toc: Toc, items: seq<Item>, n: nat, span: Span, round: nat, checker: Checker)
    requires n < |items|
    ensures var (t, rest) := Left(toc, items, n, span, round, checker);
            var p := Process(toc, Indices(items), items[n], span, round, checker);
            Left(toc, items, n + 1, span, round, checker) == Taken(t, rest, p)
  {
    var p := Process(toc, Indices(items), items[n], span, round, checker);
    if p.Some? { ResultsSnoc(toc, Results(toc, items, n, span, round, checker), p.value); }
  }

  lemma ProcessIs(toc: Toc, bad: set<int>, item: Item, span: Span, round: nat, checker: Checker)
    ensures var p := Process(toc, bad, item, span, round, checker);
            && (p.Some? ==> Same(p.value.item, item))
            && (p.Some? && p.value.valid ==> 0 <= item.listIndex < |toc|)
            && (p.None? ==> 0 <= item.listIndex < |toc|)
  {
  }

  /** An entry no item is about. */
  lemma {:induction false} LeftUntouched(toc: Toc, items: seq<Item>, n: nat, span: Span, round: nat, checker: Checker,
                                         i: int)
    requires n <= |items| && forall k | 0 <= k < n :: items[k].listIndex != i
    ensures var (t, rest) := Left(toc, items, n, span, round, checker);
            i !in Indices(rest) && (0 <= i < |toc| ==> t[i] == toc[i])
  {
    if n > 0 {
      var (t, rest) := Left(toc, items, n - 1, span, round, checker);
      LeftUntouched(toc, items, n - 1, span, round, checker, i);
      LeftNext(toc, items, n - 1, span, round, checker);
      ProcessIs(toc, Indices(items), items[n - 1], span, round, checker);
      TakenElsewhere(t, rest, Process(toc, Indices(items), items[n - 1], span, round, checker), i);
    }
  }

  /** The three ways a round can go for an item whose entry no other item is about. */
  lemma {:induction false} LeftOf(toc: Toc, items: seq<Item>, n: nat, span: Span, round: nat, checker: Checker, k: nat)
    requires k < n <= |items| && Distinct(items)
    ensures var (t, rest) := Left(toc, items, n, span, round, checker);
            var p, i := Process(toc, Indices(items), items[k], span, round, checker), items[k].listIndex;
            && (i in Indices(rest) <==> p.Some? && !p.value.valid)
            && (p.Some? && p.value.valid ==> 0 <= i < |toc| && t[i] == p.value.item.physicalIndex)
  {
    var i := items[k].listIndex;
    var (t, rest) := Left(toc, items, n - 1, span, round, checker);
    var p := Process(toc, Indices(items), items[n - 1], span, round, checker);
    LeftNext(toc, items, n - 1, span, round, checker);
    ProcessIs(toc, Indices(items), items[n - 1], span, round, checker);
    if k == n - 1 {
      LeftUntouched(toc, items, n - 1, span, round, checker, i);
      TakenHere(t, rest, p, i);
    } else {
      TakenElsewhere(t, rest, p, i);
      LeftOf(toc, items, n - 1, span, round, checker, k);
      ProcessIs(toc, Indices(items), items[k], span, round, checker);
    }
  }

  /** The item that is alone about its entry is the one whose verdict a round goes by. */
  lemma SaidOfOne(toc: Toc, items: seq<Item>, span: Span, round: nat, checker: Checker, k: nat, x: Item)
    requires k < |items| && Distinct(items) && Same(items[k], x)
    ensures var p := Process(toc, Indices(items), items[k], span, round, checker);
            && (RaisedIn(toc, items, span, round, checker, x) <==> p.None?)
            && (forall v :: AcceptedIn(toc, items, span, round, checker, x.listIndex, v) <==>
                              p.Some? && p.value.valid && v == p.value.item.physicalIndex)
  {
    var i := x.listIndex;
    if 0 <= i < |toc| {
      SaidIs(toc, items, span, round, checker, k, Raised);
      forall v ensures AcceptedIn(toc, items, span, round, checker, i, v) <==>
                         Answer(v, true) == Ask(toc, Indices(items), items[k], span, round, checker)
      {
        SaidIs(toc, items, span, round, checker, k, Answer(v, true));
      }
    }
  }

  lemma RoundIsLeft(toc: Toc, items: seq<Item>, span: Span, round: nat, checker: Checker)
    ensures Round(toc, items, span, round, checker) == Left(toc, items, |items|, span, round, checker)
  {
  }

  /** A round decides between three things for such an item: its check raises and it is dropped, an index
      is accepted and written, or it stays. */
  lemma RoundDecides(toc: Toc, items: seq<Item>, span: Span, round: nat, checker: Checker, x: Item)
    requires Distinct(items) && Listed(items, x)
    ensures var (toc', items') := Round(toc, items, span, round, checker);
            var i := x.listIndex;
            && (RaisedIn(toc, items, span, round, checker, x) ==>
                  i !in Indices(items') && forall v :: !AcceptedIn(toc, items, span, round, checker, i, v))
            && (i in Indices(items') ==> forall v :: !AcceptedIn(toc, items, span, round, checker, i, v))
            && (i !in Indices(items') && !RaisedIn(toc, items, span, round, checker, x) ==>
                  0 <= i < |toc| && AcceptedIn(toc, items, span, round, checker, i, toc'[i]))
  {
    var k: nat :| k < |items| && Same(items[k], x);
    RoundIsLeft(toc, items, span, round, checker);
    LeftOf(toc, items, |items|, span, round, checker, k);
    SaidOfOne(toc, items, span, round, checker, k, x);
    ProcessIs(toc, Indices(items), items[k], span, round, checker);
  }

  /** Once an entry is in nobody's list, nothing happens to it. */
  lemma {:induction false} GoneForever(toc: Toc, items: seq<Item>, span: Span, round: nat, maxAttempts: int,
                                       checker: Checker, x: Item)
    requires x.listIndex !in Indices(items)
    ensures var o := Retries(toc, items, span, round, maxAttempts, checker);
            && o.rounds >= round && x.listIndex !in Indices(o.remaining)
            && (0 <= x.listIndex < |toc| ==> o.toc[x.listIndex] == toc[x.listIndex])
            && !RaisedDuring(toc, items, span, round, o.rounds - round, checker, x)
            && NeverAccepted(toc, items, span, round, o.rounds - round, checker, x.listIndex)
    decreases maxAttempts - round
  {
    RoundsBounded(toc, items, span, round, maxAttempts, checker);
    if items != [] {
      var (toc', items') := Round(toc, items, span, round, checker);
      RoundIsLeft(toc, items, span, round, checker);
      LeftUntouched(toc, items, |items|, span, round, checker, x.listIndex);
      forall v ensures !AcceptedIn(toc, items, span, round, checker, x.listIndex, v) {}
      if round + 1 < maxAttempts {
        RoundsBounded(toc', items', span, round + 1, maxAttempts, checker);
        GoneForever(toc', items', span, round + 1, maxAttempts, checker, x);
      }
      NeverNext(toc, items, span, round, Retries(toc, items, span, round, maxAttempts, checker).rounds - round,
                checker, x.listIndex);
    }
  }

  /** The entry of the item holds an index that one of the rounds accepted for it. */
  ghost predicate Fixed(o: Outcome, toc: Toc, items: seq<Item>, span: Span, base: nat, checker: Checker, x: Item)
    requires |o.toc| == |toc| && o.rounds >= base
  {
    0 <= x.listIndex < |toc| && Accepted(toc, items, span, base, o.rounds - base, checker, x.listIndex,
                                         o.toc[x.listIndex])
  }

  /** Exactly one of three things has become of x by the end: it remains, its entry holds an accepted index,
      or its own check raised in a round in which it was listed. */
  ghost predicate OneFate(o: Outcome, toc: Toc, items: seq<Item>, span: Span, base: nat, checker: Checker, x: Item)
    requires |o.toc| == |toc| && o.rounds >= base
  {
    var n, listed := o.rounds - base, x.listIndex in Indices(o.remaining);
    var raised := RaisedDuring(toc, items, span, base, n, checker, x);
    var fixed := Fixed(o, toc, items, span, base, checker, x);
    && (listed || fixed || raised) && !(listed && fixed) && !(listed && raised) && !(fixed && raised)
    && (listed || raised ==> NeverAccepted(toc, items, span, base, n, checker, x.listIndex))
  }

  /** The item leaves the list in this round, and nothing happens to its entry afterwards. */
  lemma FateNow(o: Outcome, toc: Toc, items: seq<Item>, span: Span, base: nat, checker: Checker, x: Item)
    requires |o.toc| == |toc| && o.rounds > base && Distinct(items) && Listed(items, x)
    requires x.listIndex !in Indices(Round(toc, items, span, base, checker).1) && x.listIndex !in Indices(o.remaining)
    requires var (toc', items') := Round(toc, items, span, base, checker);
             && (0 <= x.listIndex < |toc| ==> o.toc[x.listIndex] == toc'[x.listIndex])
             && !RaisedDuring(toc', items', span, base + 1, o.rounds - base - 1, checker, x)
             && NeverAccepted(toc', items', span, base + 1, o.rounds - base - 1, checker, x.listIndex)
    ensures OneFate(o, toc, items, span, base, checker, x)
  {
    RoundDecides(toc, items, span, base, checker, x);
    NeverNext(toc, items, span, base, o.rounds - base, checker, x.listIndex);
  }

  /** The item stays in the list in this round. */
  lemma FateLater(o: Outcome, toc: Toc, items: seq<Item>, span: Span, base: nat, checker: Checker, x: Item)
    requires |o.toc| == |toc| && o.rounds > base && Distinct(items) && Listed(items, x)
    requires x.listIndex in Indices(Round(toc, items, span, base, checker).1)
    requires var (toc', items') := Round(toc, items, span, base, checker);
             OneFate(o, toc', items', span, base + 1, checker, x)
    ensures OneFate(o, toc, items, span, base, checker, x)
  {
    RoundDecides(toc, items, span, base, checker, x);
    NeverNext(toc, items, span, base, o.rounds - base, checker, x.listIndex);
  }

  lemma RoundDistinct(toc: Toc, items: seq<Item>, span: Span, round: nat, checker: Checker, x: Item)
    requires Distinct(items) && Listed(items, x) && x.listIndex in Indices(Round(toc, items, span, round, checker).1)
    ensures Distinct(Round(toc, items, span, round, checker).1) && Listed(Round(toc, items, span, round, checker).1, x)
  {
    var items' := Round(toc, items, span, round, checker).1;
    RoundWithin(toc, items, span, round, checker);
    WithinDistinct(items', items);
    var k: nat :| k < |items'| && items'[k].listIndex == x.listIndex;
    var m := WithinMember(items', items, k);
    var l: nat :| l < |items| && Same(items[l], x);
    assert l == m;
    assert Same(items'[k], x);
  }

  /** When the items are about different entries, exactly one of three things becomes of each: it remains,
      its entry holds an index that was accepted when the loop asked about it, or its own check raised in
      a round in which it was listed.  So an item is lost exactly when its check raised. */
  lemma {:induction false} ItemFate(toc: Toc, items: seq<Item>, span: Span, round: nat, maxAttempts: int,
                                    checker: Checker, x: Item)
    requires Distinct(items) && Listed(items, x)
    ensures Retries(toc, items, span, round, maxAttempts, checker).rounds > round
    ensures OneFate(Retries(toc, items, span, round, maxAttempts, checker), toc, items, span, round, checker, x)
    decreases maxAttempts - round
  {
    var (toc', items') := Round(toc, items, span, round, checker);
    var o := Retries(toc, items, span, round, maxAttempts, checker);
    RoundsBounded(toc, items, span, round, maxAttempts, checker);
    if x.listIndex in Indices(items') {
      if round + 1 < maxAttempts {
        RoundDistinct(toc, items, span, round, checker, x);
        ItemFate(toc', items', span, round + 1, maxAttempts, checker, x);
      }
      FateLater(o, toc, items, span, round, checker, x);
    } else {
      if round + 1 < maxAttempts { GoneForever(toc', items', span, round + 1, maxAttempts, checker, x); }
      FateNow(o, toc, items, span, round, checker, x);
    }
  }

  /** The property without any condition on the list: an item that neither remains nor has its entry fixed
      was dropped by its own check raising. */
  lemma {:induction false} NothingLost(toc: Toc, items: seq<Item>, span: Span, round: nat, maxAttempts: int,
                                       checker: Checker, x: Item)
    requires Listed(items, x)
    ensures var o := Retries(toc, items, span, round, maxAttempts, checker);
            && o.rounds > round
            && (Listed(o.remaining, x) || Fixed(o, toc, items, span, round, checker, x)
                || RaisedDuring(toc, items, span, round, o.rounds - round, checker, x))
    decreases maxAttempts - round
  {
    var (toc', items') := Round(toc, items, span, round, checker);
    RoundsBounded(toc, items, span, round, maxAttempts, checker);
    ListedOrFixed(toc, items, span, round, checker, x);
    if round + 1 < maxAttempts {
      RoundsBounded(toc', items', span, round + 1, maxAttempts, checker);
      if Listed(items', x) {
        NothingLost(toc', items', span, round + 1, maxAttempts, checker, x);
      } else if 0 <= x.listIndex < |toc| {
        OnlyAcceptedChanges(toc', items', span, round + 1, maxAttempts, checker, x.listIndex);
      }
    }
  }

  lemma {:induction false} ResultOf(toc: Toc, items: seq<Item>, n: nat, span: Span, round: nat, checker: Checker,
                                    k: nat) returns (m: nat)
    requires k < n <= |items| && Process(toc, Indices(items), items[k], span, round, checker).Some?
    ensures var results := Results(toc, items, n, span, round, checker);
            m < |results| && Same(results[m].item, items[k])
  {
    if k == n - 1 {
      m := |Results(toc, items, n, span, round, checker)| - 1;
    } else {
      m := ResultOf(toc, items, n - 1, span, round, checker, k);
    }
  }

  /** A result either leaves its item in the list or its entry with an index accepted in this round. */
  lemma {:induction false} InvalidOrApplied(toc: Toc, items: seq<Item>, span: Span, results: seq<Result>, n: nat,
                                            m: nat, round: nat, checker: Checker)
    requires m < n <= |results| && forall k | 0 <= k < |results| :: Sound(toc, items, span, results[k], round, checker)
    ensures var x, t := results[m].item, Applied(toc, results, n);
            || Listed(Invalid(|toc|, results, n), x)
            || (0 <= x.listIndex < |toc| && AcceptedIn(toc, items, span, round, checker, x.listIndex, t[x.listIndex]))
  {
    var x := results[m].item;
    assert Sound(toc, items, span, results[n - 1], round, checker);
    if m == n - 1 {
      var inv := Invalid(|toc|, results, n);
      if !results[m].valid { assert Same(inv[|inv| - 1], x); }
    } else {
      InvalidOrApplied(toc, items, span, results, n - 1, m, round, checker);
      var inv, inv' := Invalid(|toc|, results, n - 1), Invalid(|toc|, results, n);
      if k :| 0 <= k < |inv| && Same(inv[k], x) { assert inv'[k] == inv[k]; }
    }
  }

  lemma ListedOrFixed(toc: Toc, items: seq<Item>, span: Span, round: nat, checker: Checker, x: Item)
    requires Listed(items, x)
    ensures var (toc', items') := Round(toc, items, span, round, checker);
            || Listed(items', x) || RaisedIn(toc, items, span, round, checker, x)
            || (0 <= x.listIndex < |toc| && AcceptedIn(toc, items, span, round, checker, x.listIndex,
                                                       toc'[x.listIndex]))
  {
    var k: nat :| k < |items| && Same(items[k], x);
    var results := Results(toc, items, |items|, span, round, checker);
    if Process(toc, Indices(items), items[k], span, round, checker).Some? {
      var m := ResultOf(toc, items, |items|, span, round, checker, k);
      ResultsSound(toc, items, |items|, span, round, checker);
      InvalidOrApplied(toc, items, span, results, |results|, m, round, checker);
    } else {
      SaidIs(toc, items, span, round, checker, k, Raised);
    }
  }

  /** What a result that leaves its item in the list says: the item has no entry, or it was asked about and
      the proposed index was not accepted. */
  ghost predicate Rejected(toc: Toc, items: seq<Item>, span: Span, round: nat, checker: Checker, x: Item)
  {
    exists k ::
      && 0 <= k < |items| && Same(items[k], x)
      && if 0 <= x.listIndex < |toc| then Said(toc, items, span, round, checker, k, Answer(x.physicalIndex, false))
         else x == items[k]
  }

  ghost predicate KeptRejected(toc: Toc, items: seq<Item>, span: Span, round: nat, checker: Checker, r: Result)
  {
    (r.valid ==> 0 <= r.item.listIndex < |toc|) && (!r.valid ==> Rejected(toc, items, span, round, checker, r.item))
  }

  lemma ProcessRejected(toc: Toc, items: seq<Item>, k: nat, span: Span, round: nat, checker: Checker)
    requires k < |items|
    ensures var r := Process(toc, Indices(items), items[k], span, round, checker);
            r.Some? ==> KeptRejected(toc, items, span, round, checker, r.value)
  {
    var r := Process(toc, Indices(items), items[k], span, round, checker);
    if 0 <= items[k].listIndex < |toc| {
      SaidIs(toc, items, span, round, checker, k, Ask(toc, Indices(items), items[k], span, round, checker));
    }
    if r.Some? { assert Same(items[k], r.value.item); }
  }

  lemma {:induction false} ResultsRejected(toc: Toc, items: seq<Item>, n: nat, span: Span, round: nat, checker: Checker)
    requires n <= |items|
    ensures forall r | r in Results(toc, items, n, span, round, checker) ::
              KeptRejected(toc, items, span, round, checker, r)
  {
    if n > 0 {
      ResultsRejected(toc, items, n - 1, span, round, checker);
      ProcessRejected(toc, items, n - 1, span, round, checker);
    }
  }

  lemma {:induction false} InvalidRejected(toc: Toc, items: seq<Item>, span: Span, round: nat, checker: Checker,
                                           results: seq<Result>, n: nat)
    requires n <= |results| && forall r | r in results :: KeptRejected(toc, items, span, round, checker, r)
    ensures forall x | x in Invalid(|toc|, results, n) :: Rejected(toc, items, span, round, checker, x)
  {
    if n > 0 {
      InvalidRejected(toc, items, span, round, checker, results, n - 1);
      assert results[n - 1] in results;
    }
  }

  /** What a round does: an entry keeps its index or gets one accepted for it, the items that stay are some of
      the items in their order, each with the index that was rejected for it, and no item leaves the list
      unless its check raised or its entry holds an accepted index. */
  ghost predicate RoundDone(toc: Toc, items: seq<Item>, span: Span, round: nat, checker: Checker, toc': Toc,
                            items': seq<Item>)
  {
    && |toc'| == |toc|
    && (forall i | 0 <= i < |toc| ::
          toc'[i] == toc[i] || AcceptedIn(toc, items, span, round, checker, i, toc'[i]))
    && Within(items', items)
    && (forall x | x in items' :: Rejected(toc, items, span, round, checker, x))
    && (forall x | x in items ::
          || Listed(items', x) || RaisedIn(toc, items, span, round, checker, x)
          || (0 <= x.listIndex < |toc|
              && AcceptedIn(toc, items, span, round, checker, x.listIndex, toc'[x.listIndex])))
  }

  lemma RoundIsDone(toc: Toc, items: seq<Item>, span: Span, round: nat, checker: Checker)
    ensures var (toc', items') := Round(toc, items, span, round, checker);
            RoundDone(toc, items, span, round, checker, toc', items')
  {
    var results := Results(toc, items, |items|, span, round, checker);
    forall i | 0 <= i < |toc| ensures
      var x := Round(toc, items, span, round, checker).0[i];
      x == toc[i] || AcceptedIn(toc, items, span, round, checker, i, x)
    {
      RoundAccepted(toc, items, span, round, checker, i);
    }
    RoundWithin(toc, items, span, round, checker);
    ResultsRejected(toc, items, |items|, span, round, checker);
    InvalidRejected(toc, items, span, round, checker, results, |results|);
    forall x | x in items ensures
      var (toc', items') := Round(toc, items, span, round, checker);
      || Listed(items', x) || RaisedIn(toc, items, span, round, checker, x)
      || (0 <= x.listIndex < |toc| && AcceptedIn(toc, items, span, round, checker, x.listIndex, toc'[x.listIndex]))
    {
      var k :| 0 <= k < |items| && items[k] == x;
      assert Same(items[k], x);
      ListedOrFixed(toc, items, span, round, checker, x);
    }
  }

  lemma {:induction false} AllRaise(toc: Toc, items: seq<Item>, n: nat, span: Span, round: nat, checker: Checker)
    requires n <= |items|
    requires forall k | 0 <= k < |items| :: Said(toc, items, span, round, checker, k, Raised)
    ensures Results(toc, items, n, span, round, checker) == []
  {
    if n > 0 {
      AllRaise(toc, items, n - 1, span, round, checker);
      assert Said(toc, items, span, round, checker, n - 1, Raised);
      SaidIs(toc, items, span, round, checker, n - 1, Raised);
    }
  }

  /** When every question of the first round raises, the loop ends after that round, reports nothing as
      incorrect and has fixed nothing. */
  lemma RaisedItemsVanish(toc: Toc, items: seq<Item>, span: Span, maxAttempts: int, checker: Checker)
    requires items != [] && forall k | 0 <= k < |items| :: Said(toc, items, span, 0, checker, k, Raised)
    ensures Retries(toc, items, span, 0, maxAttempts, checker) == Outcome(toc, [], 1)
  {
    AllRaise(toc, items, |items|, span, 0, checker);
  }
}
