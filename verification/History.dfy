// `_load_session_history`: the part of a session's transcript that goes into the next prompt.
module History {
  import opened ChatData
  import Filters
  import Text

  datatype Config = Config(includeHistory: bool, includeAssistant: bool, maxTurns: nat, budget: nat)

  datatype Info = Info(used: bool, messages: nat, turns: nat, tokens: nat)

  /** count_tokens for the model in use. */
  type Tokenizer = string -> nat

  predicate Asks(m: Message, question: string) { m.role.User? && Text.Strip(m.content) == Text.Strip(question) }

  /** The transcript, without the answers if they are not wanted. */
  function Kept(t: seq<Message>, includeAssistant: bool): seq<Message>
  {
    Filters.Filter(t, Wanted(includeAssistant))
  }

  function Wanted(includeAssistant: bool): Message -> bool { (m: Message) => includeAssistant || !m.role.Assistant? }

  predicate EndsWithQuestion(ms: seq<Message>, question: string) { ms != [] && Asks(ms[|ms| - 1], question) }

  function WithoutQuestion(ms: seq<Message>, question: string): seq<Message>
  {
    if EndsWithQuestion(ms, question) then ms[..|ms| - 1] else ms
  }

  function UserMessages(ms: seq<Message>): seq<Message> { Filters.Filter(ms, IsUser) }

  predicate IsUser(m: Message) { m.role.User? }

  function Since(ms: seq<Message>, seqNo: nat): seq<Message> { Filters.Filter(ms, NotBefore(seqNo)) }

  function NotBefore(seqNo: nat): Message -> bool { (m: Message) => m.seqNo >= seqNo }

  /** The user message that opens the maxTurns-th last turn; the first one when there are fewer turns. */
  function Cutoff(users: seq<Message>, maxTurns: nat): Message
    requires users != [] && maxTurns > 0
  {
    if |users| >= maxTurns then users[|users| - maxTurns] else users[0]
  }

  function TurnsSince(ms: seq<Message>, users: seq<Message>, maxTurns: nat): seq<Message>
    requires maxTurns > 0
  {
    if users == [] then [] else Since(ms, Cutoff(users, maxTurns).seqNo)
  }

  function TurnWindow(ms: seq<Message>, maxTurns: nat): seq<Message>
    requires maxTurns > 0
  {
    TurnsSince(ms, UserMessages(ms), maxTurns)
  }

  function Total(ms: seq<Message>, tokens: Tokenizer): nat
  {
    if ms == [] then 0 else tokens(ms[0].content) + Total(ms[1..], tokens)
  }

  /** Where the selected part starts, given that ms[i..] is already selected. */
  function FillFrom(ms: seq<Message>, i: nat, budget: nat, tokens: Tokenizer): (s: nat)
    requires i <= |ms|
    ensures s <= i
  {
    if i == 0 || (i < |ms| && Total(ms[i..], tokens) + tokens(ms[i - 1].content) > budget) then i
    else FillFrom(ms, i - 1, budget, tokens)
  }

  function Filled(window: seq<Message>, budget: nat, tokens: Tokenizer): seq<Message>
  {
    window[FillFrom(window, |window|, budget, tokens)..]
  }

  function Chosen(ms: seq<Message>, config: Config, tokens: Tokenizer): seq<Message>
    requires config.maxTurns > 0
  {
    Filled(TurnWindow(ms, config.maxTurns), config.budget, tokens)
  }

  function History(t: seq<Message>, config: Config, question: string, tokens: Tokenizer): seq<Message>
    requires config.maxTurns > 0
  {
    if !config.includeHistory then []
    else Chosen(WithoutQuestion(Kept(t, config.includeAssistant), question), config, tokens)
  }

  function Counts(selected: seq<Message>, tokens: Tokenizer): Info
  {
    Info(selected != [], |selected|, |UserMessages(selected)|, Total(selected, tokens))
  }

  // ---- What the history is, without the functions that compute it ------------------------------------

  /** a and b are the same text once whitespace is off their ends. */
  ghost predicate SameStripped(a: string, b: string)
  {
    exists c :: Text.Trims(a, c) && Text.Trims(b, c) && Text.Tight(c)
  }

  /** The questions, and the answers if they are wanted, in order. */
  ghost predicate WantedOf(t: seq<Message>, includeAssistant: bool, kept: seq<Message>)
  {
    Filters.Kept(t, (m: Message) => includeAssistant || m.role == User, kept)
  }

  ghost predicate QuestionsOf(ms: seq<Message>, users: seq<Message>)
  {
    Filters.Kept(ms, (m: Message) => m.role == User, users)
  }

  /** The question itself is left out if it stands at the end. */
  ghost predicate Dropped(kept: seq<Message>, question: string, ms: seq<Message>)
  {
    ms == if EndsAs(kept, question) then kept[..|kept| - 1] else kept
  }

  ghost predicate EndsAs(kept: seq<Message>, question: string)
  {
    kept != [] && kept[|kept| - 1].role == User && SameStripped(kept[|kept| - 1].content, question)
  }

  /** The last wanted message is the question. */
  ghost predicate AskedLast(t: seq<Message>, includeAssistant: bool, question: string)
  {
    exists kept: seq<Message> :: WantedOf(t, includeAssistant, kept) && EndsAs(kept, question)
  }

  /** The messages the choice is made from: the wanted ones, in order, without the question at the end. */
  ghost predicate Considered(t: seq<Message>, config: Config, question: string, ms: seq<Message>)
  {
    exists kept: seq<Message> ::
      WantedOf(t, config.includeAssistant, kept) && Dropped(kept, question, ms)
  }

  /** There are n user messages among them. */
  ghost predicate Turns(ms: seq<Message>, n: nat)
  {
    exists users: seq<Message> :: QuestionsOf(ms, users) && |users| == n
  }

  /** The selected messages are ms[s..], where w is the user message that opens the last maxTurns turns (or all
      there are): s lies at or after w, the selection fits the budget unless it is a single message, and one
      message more would not fit or would leave the turns. */
  ghost predicate Selects(ms: seq<Message>, config: Config, tokens: Tokenizer, w: nat, s: nat, selected: seq<Message>)
  {
    && w <= s < |ms| && selected == ms[s..] && ms[w].role == User
    && (exists n: nat :: Turns(ms, n) && Turns(ms[w..], if n >= config.maxTurns then config.maxTurns else n))
    && (s == |ms| - 1 || Total(ms[s..], tokens) <= config.budget)
    && (s == w || Total(ms[s - 1..], tokens) > config.budget)
  }

  /** The selection out of ms: nothing where no question is, or the end of ms within the limits. */
  ghost predicate SelectedFrom(ms: seq<Message>, config: Config, tokens: Tokenizer, selected: seq<Message>)
  {
    if Turns(ms, 0) then selected == [] else exists w: nat, s: nat :: Selects(ms, config, tokens, w, s, selected)
  }

  ghost predicate IsHistory(t: seq<Message>, config: Config, question: string, tokens: Tokenizer,
                            selected: seq<Message>)
  {
    exists ms :: Considered(t, config, question, ms) && SelectedFrom(ms, config, tokens, selected)
  }

  /** What is returned: the history of a transcript with rising sequence numbers, if any is wanted, and the
      counts of what was selected. */
  ghost predicate Loaded(t: seq<Message>, config: Config, question: string, tokens: Tokenizer, selected: seq<Message>,
                         info: Info)
  {
    && (config.includeHistory && Rising(t) ==> IsHistory(t, config, question, tokens, selected))
    && (!config.includeHistory ==> selected == [])
    && info == Info(selected != [], |selected|, info.turns, Total(selected, tokens)) && Turns(selected, info.turns)
  }

  // ---- The code ------------------------------------------------------------------------------------

  method FilterTranscript(t: seq<Message>, includeAssistant: bool) returns (ms: seq<Message>)
    ensures ms == Kept(t, includeAssistant)
  {
    ms := [];
    for i := 0 to |t|
      invariant ms == Kept(t[..i], includeAssistant)
    {
      assert t[..i + 1][..i] == t[..i];
      if includeAssistant || !t[i].role.Assistant? { ms := ms + [t[i]]; }
    }
    assert t[..|t|] == t;
  }

  method CutToTurns(ms: seq<Message>, maxTurns: nat) returns (window: seq<Message>)
    requires maxTurns > 0
    ensures window == TurnWindow(ms, maxTurns)
  {
    var users: seq<Message> := [];
    for i := 0 to |ms|
      invariant users == UserMessages(ms[..i])
    {
      assert ms[..i + 1][..i] == ms[..i];
      if ms[i].role.User? { users := users + [ms[i]]; }
    }
    assert ms[..|ms|] == ms;
    if users == [] { return []; }
    var cutoff := if |users| >= maxTurns then users[|users| - maxTurns] else users[0];
    window := [];
    for i := 0 to |ms|
      invariant window == Since(ms[..i], cutoff.seqNo)
    {
      assert ms[..i + 1][..i] == ms[..i];
      if ms[i].seqNo >= cutoff.seqNo { window := window + [ms[i]]; }
    }
  }

  lemma TotalStep(ms: seq<Message>, i: nat, tokens: Tokenizer)
    requires 0 < i <= |ms|
    ensures ms[i - 1..] == [ms[i - 1]] + ms[i..]
    ensures Total(ms[i - 1..], tokens) == tokens(ms[i - 1].content) + Total(ms[i..], tokens)
  {
    assert ms[i - 1..][0] == ms[i - 1] && ms[i - 1..][1..] == ms[i..];
  }

  /** The backward loop over the window. */
  method FillBudget(window: seq<Message>, budget: nat, tokens: Tokenizer) returns (selected: seq<Message>, total: nat)
    ensures selected == Filled(window, budget, tokens)
    ensures total == Total(selected, tokens)
  {
    selected, total := [], 0;
    var i := |window|;
    while i > 0
      invariant 0 <= i <= |window| && selected == window[i..] && total == Total(window[i..], tokens)
      invariant FillFrom(window, |window|, budget, tokens) == FillFrom(window, i, budget, tokens)
    {
      var estimated := tokens(window[i - 1].content);
      if selected != [] && total + estimated > budget { break; }
      TotalStep(window, i, tokens);
      i := i - 1;
      selected := [window[i]] + selected;
      total := total + estimated;
    }
  }

  method LoadSessionHistory(t: seq<Message>, config: Config, question: string, tokens: Tokenizer)
      returns (selected: seq<Message>, info: Info)
    requires config.maxTurns > 0
    ensures selected == History(t, config, question, tokens)
    ensures info == Counts(selected, tokens)
  {
    if !config.includeHistory { return [], Info(false, 0, 0, 0); }
    var ms := FilterTranscript(t, config.includeAssistant);
    if ms != [] && Asks(ms[|ms| - 1], question) { ms := ms[..|ms| - 1]; }
    var window := CutToTurns(ms, config.maxTurns);
    var total;
    selected, total := FillBudget(window, config.budget, tokens);
    info := Info(selected != [], |selected|, |UserMessages(selected)|, total);
  }

  // ---- What is selected ------------------------------------------------------------------------------

  predicate Rising(ms: seq<Message>) { forall i, j | 0 <= i < j < |ms| :: ms[i].seqNo < ms[j].seqNo }

  lemma {:induction false} KeptRises(t: seq<Message>, includeAssistant: bool)
    requires Rising(t)
    ensures Rising(Kept(t, includeAssistant))
    ensures forall m | m in Kept(t, includeAssistant) :: m in t
  {
    if t != [] {
      var init, last := t[..|t| - 1], t[|t| - 1];
      KeptRises(init, includeAssistant);
      forall m | m in Kept(init, includeAssistant) ensures m.seqNo < last.seqNo {
        assert m in init;
      }
    }
  }

  /** The total is the sum over the messages. */
  lemma {:induction false} TotalConcat(a: seq<Message>, b: seq<Message>, tokens: Tokenizer)
    ensures Total(a + b, tokens) == Total(a, tokens) + Total(b, tokens)
    ensures |a| == 1 ==> Total(a, tokens) == tokens(a[0].content)
  {
    if a == [] {
      assert a + b == b;
    } else {
      TotalConcat(a[1..], b, tokens);
      assert (a + b)[0] == a[0] && (a + b)[1..] == a[1..] + b;
    }
  }

  function Users(ms: seq<Message>): nat { |UserMessages(ms)| }

  /** Index of the k-th last user message. */
  function Cut(ms: seq<Message>, k: nat): (w: nat)
    requires 0 < k <= Users(ms)
    ensures w < |ms|
  {
    var n := |ms| - 1;
    if !ms[n].role.User? then Cut(ms[..n], k) else if k == 1 then n else Cut(ms[..n], k - 1)
  }

  lemma UsersSnoc(init: seq<Message>, m: Message)
    ensures UserMessages(init + [m]) == if m.role.User? then UserMessages(init) + [m] else UserMessages(init)
  {
    assert (init + [m])[..|init|] == init;
  }

  lemma EndSnoc(ms: seq<Message>, w: nat)
    requires w < |ms|
    ensures ms[w..] == ms[..|ms| - 1][w..] + [ms[|ms| - 1]]
  {
  }

  lemma {:induction false} CutIs(ms: seq<Message>, k: nat)
    requires 0 < k <= Users(ms)
    ensures ms[Cut(ms, k)] == UserMessages(ms)[Users(ms) - k] && ms[Cut(ms, k)].role.User?
    ensures Users(ms[Cut(ms, k)..]) == k
  {
    var n, w := |ms| - 1, Cut(ms, k);
    var k' := if ms[n].role.User? then k - 1 else k;
    EndSnoc(ms, w);
    UsersSnoc(ms[..n][w..], ms[n]);
    if k' > 0 {
      CutIs(ms[..n], k');
    } else {
      assert ms[..n][w..] == [];
    }
  }

  lemma {:induction false} SinceIsSuffix(ms: seq<Message>, w: nat)
    requires Rising(ms) && w < |ms|
    ensures Since(ms, ms[w].seqNo) == ms[w..]
  {
    var n := |ms| - 1;
    if w < n {
      SinceIsSuffix(ms[..n], w);
      assert ms[w..] == ms[..n][w..] + [ms[n]];
    } else {
      SinceOfEarlier(ms[..n], ms[n].seqNo);
    }
  }

  lemma {:induction false} SinceOfEarlier(ms: seq<Message>, seqNo: nat)
    requires forall i | 0 <= i < |ms| :: ms[i].seqNo < seqNo
    ensures Since(ms, seqNo) == []
  {
    if ms != [] { SinceOfEarlier(ms[..|ms| - 1], seqNo); }
  }

  lemma WindowFrom(ms: seq<Message>, users: seq<Message>, maxTurns: nat, w: nat)
    requires Rising(ms) && maxTurns > 0 && users != [] && w < |ms|
    requires ms[w] == users[if |users| >= maxTurns then |users| - maxTurns else 0]
    ensures TurnsSince(ms, users, maxTurns) == ms[w..]
  {
    SinceIsSuffix(ms, w);
  }

  /** ms[s..] fits the budget or is a single message, and ms[s - 1..] does not fit. */
  predicate Fills(ms: seq<Message>, s: nat, budget: nat, tokens: Tokenizer)
  {
    && s < |ms|
    && (s == |ms| - 1 || Total(ms[s..], tokens) <= budget)
    && (s == 0 || Total(ms[s - 1..], tokens) > budget)
  }

  lemma {:induction false} FillIs(ms: seq<Message>, i: nat, budget: nat, tokens: Tokenizer)
    requires i <= |ms| && ms != [] && (i < |ms| - 1 ==> Total(ms[i..], tokens) <= budget)
    ensures Fills(ms, FillFrom(ms, i, budget, tokens), budget, tokens)
  {
    if i > 0 {
      TotalStep(ms, i, tokens);
      if i < |ms| && Total(ms[i..], tokens) + tokens(ms[i - 1].content) > budget {
        assert FillFrom(ms, i, budget, tokens) == i;
      } else {
        FillIs(ms, i - 1, budget, tokens);
      }
    }
  }

  lemma Ends<X>(ms: seq<X>, w: nat, s: nat)
    requires w + s <= |ms|
    ensures ms[w..][s..] == ms[w + s..]
  {
  }

  /** Filling the budget from the end of ms[w..]. */
  lemma FilledFrom(ms: seq<Message>, w: nat, budget: nat, tokens: Tokenizer) returns (s: nat)
    requires w < |ms|
    ensures w <= s < |ms| && Filled(ms[w..], budget, tokens) == ms[s..]
    ensures s == |ms| - 1 || Total(ms[s..], tokens) <= budget
    ensures s == w || Total(ms[s - 1..], tokens) > budget
  {
    var window := ms[w..];
    FillIs(window, |window|, budget, tokens);
    var s' := FillFrom(window, |window|, budget, tokens);
    s := w + s';
    Ends(ms, w, s');
    if s' > 0 { Ends(ms, w, s' - 1); }
  }

  /** The choice once the start of the turns is known. */
  lemma ChosenFrom(ms: seq<Message>, config: Config, tokens: Tokenizer, users: seq<Message>, w: nat) returns (s: nat)
    requires Rising(ms) && config.maxTurns > 0 && users != [] && w < |ms|
    requires ms[w] == users[if |users| >= config.maxTurns then |users| - config.maxTurns else 0]
    ensures w <= s < |ms| && Filled(TurnsSince(ms, users, config.maxTurns), config.budget, tokens) == ms[s..]
    ensures s == |ms| - 1 || Total(ms[s..], tokens) <= config.budget
    ensures s == w || Total(ms[s - 1..], tokens) > config.budget
  {
    WindowFrom(ms, users, config.maxTurns, w);
    s := FilledFrom(ms, w, config.budget, tokens);
  }

  lemma TurnsStart(ms: seq<Message>, maxTurns: nat) returns (w: nat)
    requires maxTurns > 0 && Users(ms) > 0
    ensures w < |ms| && ms[w].role.User?
    ensures ms[w] == UserMessages(ms)[if Users(ms) >= maxTurns then Users(ms) - maxTurns else 0]
    ensures Users(ms[w..]) == if Users(ms) >= maxTurns then maxTurns else Users(ms)
  {
    var k := if Users(ms) >= maxTurns then maxTurns else Users(ms);
    CutIs(ms, k);
    w := Cut(ms, k);
  }

  lemma QuestionsAre(ms: seq<Message>, users: seq<Message>)
    ensures QuestionsOf(ms, users) <==> users == UserMessages(ms)
  {
    if users == UserMessages(ms) {
      Filters.FilterIs(ms, IsUser);
      Filters.SameKept(ms, IsUser, (m: Message) => m.role == User, users);
    }
    if QuestionsOf(ms, users) {
      Filters.SameKept(ms, (m: Message) => m.role == User, IsUser, users);
      Filters.OnlyFilter(ms, IsUser, users);
    }
  }

  lemma TurnsAre(ms: seq<Message>, n: nat)
    ensures Turns(ms, n) <==> n == Users(ms)
  {
    QuestionsAre(ms, UserMessages(ms));
    if users: seq<Message> :| QuestionsOf(ms, users) && |users| == n { QuestionsAre(ms, users); }
  }

  lemma ChosenIs(ms: seq<Message>, config: Config, tokens: Tokenizer) returns (w: nat, s: nat)
    requires Rising(ms) && config.maxTurns > 0 && Users(ms) > 0
    ensures Selects(ms, config, tokens, w, s, Chosen(ms, config, tokens))
    ensures Users(ms[w..]) <= config.maxTurns
  {
    w := TurnsStart(ms, config.maxTurns);
    s := ChosenFrom(ms, config, tokens, UserMessages(ms), w);
    TurnsAre(ms, Users(ms));
    TurnsAre(ms[w..], Users(ms[w..]));
  }

  lemma {:induction false} FewerUsers(ms: seq<Message>, s: nat)
    requires s <= |ms|
    ensures Users(ms[s..]) <= Users(ms)
  {
    if s < |ms| {
      var n := |ms| - 1;
      FewerUsers(ms[..n], s);
      assert ms[s..][..n - s] == ms[..n][s..];
    }
  }

  lemma ChosenTurns(ms: seq<Message>, w: nat, s: nat, turns: nat)
    requires w <= s <= |ms| && Users(ms[w..]) <= turns
    ensures Users(ms[s..]) <= turns
  {
    FewerUsers(ms[w..], s - w);
    Ends(ms, w, s - w);
  }

  lemma ChosenWithin(ms: seq<Message>, config: Config, tokens: Tokenizer)
    requires Rising(ms) && config.maxTurns > 0
    ensures Users(Chosen(ms, config, tokens)) <= config.maxTurns
    ensures SelectedFrom(ms, config, tokens, Chosen(ms, config, tokens))
  {
    TurnsAre(ms, 0);
    if Users(ms) > 0 {
      var w, s := ChosenIs(ms, config, tokens);
      ChosenTurns(ms, w, s, config.maxTurns);
    }
  }

  lemma SameStrippedIs(a: string, b: string)
    ensures SameStripped(a, b) <==> Text.Strip(a) == Text.Strip(b)
  {
    Text.StripIs(a);
    Text.StripIs(b);
    if c :| Text.Trims(a, c) && Text.Trims(b, c) && Text.Tight(c) {
      Text.OnlyStrip(a, c);
      Text.OnlyStrip(b, c);
    }
  }

  lemma WantedAre(t: seq<Message>, includeAssistant: bool)
    ensures forall kept :: WantedOf(t, includeAssistant, kept) <==> kept == Kept(t, includeAssistant)
  {
    forall kept | WantedOf(t, includeAssistant, kept) ensures kept == Kept(t, includeAssistant) {
      Filters.SameKept(t, (m: Message) => includeAssistant || m.role == User, Wanted(includeAssistant), kept);
      Filters.OnlyFilter(t, Wanted(includeAssistant), kept);
    }
    Filters.FilterIs(t, Wanted(includeAssistant));
    Filters.SameKept(t, Wanted(includeAssistant), (m: Message) => includeAssistant || m.role == User,
                     Kept(t, includeAssistant));
  }

  lemma WithoutQuestionIs(kept: seq<Message>, question: string)
    ensures Dropped(kept, question, WithoutQuestion(kept, question))
    ensures EndsAs(kept, question) <==> EndsWithQuestion(kept, question)
  {
    if kept != [] { SameStrippedIs(kept[|kept| - 1].content, question); }
  }

  lemma ConsideredIs(t: seq<Message>, config: Config, question: string)
    ensures Considered(t, config, question, WithoutQuestion(Kept(t, config.includeAssistant), question))
  {
    var kept := Kept(t, config.includeAssistant);
    WantedAre(t, config.includeAssistant);
    WithoutQuestionIs(kept, question);
  }

  /** The history is a contiguous end piece of the filtered transcript, within the turn limit, within
      the budget unless it is a single message, and as long as those limits allow. */
  lemma HistoryIsWindow(t: seq<Message>, config: Config, question: string, tokens: Tokenizer)
    requires Rising(t) && config.maxTurns > 0 && config.includeHistory
    ensures var h := History(t, config, question, tokens);
            IsHistory(t, config, question, tokens, h) && forall n: nat :: Turns(h, n) ==> n <= config.maxTurns
  {
    var ms := WithoutQuestion(Kept(t, config.includeAssistant), question);
    KeptRises(t, config.includeAssistant);
    ChosenWithin(ms, config, tokens);
    HistoryFrom(t, config, question, tokens, ms, Chosen(ms, config, tokens)) by { ConsideredIs(t, config, question); }
    forall n: nat | Turns(Chosen(ms, config, tokens), n) ensures n <= config.maxTurns {
      TurnsAre(Chosen(ms, config, tokens), n);
    }
  }

  lemma HistoryFrom(t: seq<Message>, config: Config, question: string, tokens: Tokenizer, ms: seq<Message>,
                    h: seq<Message>)
    requires Considered(t, config, question, ms) && SelectedFrom(ms, config, tokens, h)
    ensures IsHistory(t, config, question, tokens, h)
  {
  }

  /** What the code returns has these properties. */
  lemma LoadedIs(t: seq<Message>, config: Config, question: string, tokens: Tokenizer)
    requires config.maxTurns > 0
    ensures var h := History(t, config, question, tokens);
            Loaded(t, config, question, tokens, h, Counts(h, tokens))
  {
    var h := History(t, config, question, tokens);
    TurnsAre(h, Users(h));
    if config.includeHistory && Rising(t) { HistoryIsWindow(t, config, question, tokens); }
  }

  // ---- Running again after the question has been stored --------------------------------------------

  lemma KeptAppendUser(t: seq<Message>, m: Message, includeAssistant: bool)
    requires m.role.User?
    ensures Kept(t + [m], includeAssistant) == Kept(t, includeAssistant) + [m]
  {
    assert (t + [m])[..|t|] == t;
  }

  // `m` is the message the run itself stored; its content is the run's question.
  /** The history of a run does not change by re-execution, where its question already is the last
      message, exactly when the filtered transcript did not end with that question before. */
  lemma RerunSelectsSame(t: seq<Message>, config: Config, m: Message, tokens: Tokenizer)
    requires Rising(t + [m]) && m.role.User? && config.maxTurns > 0 && config.includeHistory
    ensures History(t + [m], config, m.content, tokens) == History(t, config, m.content, tokens)
            <==> !AskedLast(t, config.includeAssistant, m.content)
  {
    AskedLastIs(t, config.includeAssistant, m.content);
    RerunHistory(t, config, m, tokens);
    FrontRises(t, m);
    KeptRises(t, config.includeAssistant);
    DropChangesChoice(Kept(t, config.includeAssistant), config, m.content, tokens);
  }

  lemma AskedLastIs(t: seq<Message>, includeAssistant: bool, question: string)
    ensures AskedLast(t, includeAssistant, question) <==> EndsWithQuestion(Kept(t, includeAssistant), question)
  {
    WantedAre(t, includeAssistant);
    WithoutQuestionIs(Kept(t, includeAssistant), question);
  }

  /** A rerun selects from the whole filtered transcript. */
  lemma RerunHistory(t: seq<Message>, config: Config, m: Message, tokens: Tokenizer)
    requires m.role.User? && config.maxTurns > 0 && config.includeHistory
    ensures History(t + [m], config, m.content, tokens) == Chosen(Kept(t, config.includeAssistant), config, tokens)
  {
    KeptAppendUser(t, m, config.includeAssistant);
    QuestionDropped(Kept(t, config.includeAssistant), m);
  }

  lemma FrontRises(t: seq<Message>, m: Message)
    requires Rising(t + [m])
    ensures Rising(t)
  {
    assert (t + [m])[..|t|] == t;
  }

  lemma DropChangesChoice(ms: seq<Message>, config: Config, question: string, tokens: Tokenizer)
    requires Rising(ms) && config.maxTurns > 0
    ensures Chosen(ms, config, tokens) == Chosen(WithoutQuestion(ms, question), config, tokens) <==>
              !EndsWithQuestion(ms, question)
  {
    if EndsWithQuestion(ms, question) { ShorterChoice(ms, config, tokens); }
  }

  lemma QuestionDropped(ms: seq<Message>, m: Message)
    requires m.role.User?
    ensures WithoutQuestion(ms + [m], m.content) == ms
  {
  }

  lemma ShorterChoice(ms: seq<Message>, config: Config, tokens: Tokenizer)
    requires Rising(ms) && ms != [] && ms[|ms| - 1].role.User? && config.maxTurns > 0
    ensures Chosen(ms, config, tokens) != Chosen(ms[..|ms| - 1], config, tokens)
  {
    var n := |ms| - 1;
    LastIsChosen(ms, config, tokens);
    if Users(ms[..n]) > 0 { var w, s := ChosenIs(ms[..n], config, tokens); }
    assert ms[n] !in ms[..n];
    assert forall x | x in Chosen(ms[..n], config, tokens) :: x in ms[..n];
  }

  lemma LastIsChosen(ms: seq<Message>, config: Config, tokens: Tokenizer)
    requires Rising(ms) && ms != [] && ms[|ms| - 1].role.User? && config.maxTurns > 0
    ensures ms[|ms| - 1] in Chosen(ms, config, tokens)
  {
    var w, s := ChosenIs(ms, config, tokens);
    assert ms[s..][|ms| - 1 - s] == ms[|ms| - 1];
  }
}
