// `RunReuseCache.load_once`: concurrent callers share one loader run per key.  The cache's lock
// makes each critical section one step; between the steps of one call any other call may run.
module SingleFlight {
  import opened Common

  type Key = nat
  type Value = nat
  type Error = nat
  type CallId = nat

  datatype Outcome = Ok(value: Value) | Raised(error: Error)

  /** A future belongs to the call that created it and is pending until that call resolves it. */
  datatype Future = Future(key: Key, creator: CallId, outcome: Option<Outcome>)

  datatype Shared = Shared(values: map<Key, Value>, inflight: map<Key, nat>, futures: seq<Future>, closed: bool)

  /** Where one call of load_once stands. */
  datatype Pc =
    | Start(key: Key)                                 // about to read the closed flag
    | Uncached(key: Key)                              // found it set: runs its own loader
    | Look(key: Key)                                  // found it unset: about to look the key up
    | Wait(key: Key, future: nat)                     // waits for another call's future
    | Loading(key: Key, future: nat)                  // runs the loader
    | Loaded(key: Key, future: nat, value: Value)     // about to store the value
    | Stored(key: Key, future: nat, value: Value)     // about to resolve the future with it
    | Failing(key: Key, future: nat, error: Error)    // about to resolve the future with the error
    | Failed(key: Key, future: nat, error: Error)     // about to take the key out of flight
    | Done(key: Key, outcome: Outcome, own: bool)     // `own`: its own cached loader run succeeded

  datatype State = State(shared: Shared, calls: seq<Pc>)

  // ---- The critical sections --------------------------------------------------------------------

  datatype Found = Hit(value: Value) | Join(future: nat) | Create(future: nat)

  function LookUp(s: Shared, k: Key, caller: CallId): (Shared, Found)
  {
    if k in s.values then (s, Hit(s.values[k]))
    else if k in s.inflight then (s, Join(s.inflight[k]))
    else
      (s.(futures := s.futures + [Future(k, caller, None)], inflight := s.inflight[k := |s.futures|]),
       Create(|s.futures|))
  }

  function StoreValue(s: Shared, k: Key, v: Value): Shared
  {
    s.(values := s.values[k := v], inflight := s.inflight - {k})
  }

  function DropKey(s: Shared, k: Key): Shared { s.(inflight := s.inflight - {k}) }

  function Resolve(s: Shared, f: nat, outcome: Outcome): Shared
    requires f < |s.futures|
  {
    s.(futures := s.futures[f := s.futures[f].(outcome := Some(outcome))])
  }

  // ---- Steps ------------------------------------------------------------------------------------

  /** One step of a call (the outcome is the loader's, where it runs), or one of close's two. */
  datatype Action = Step(call: CallId, loaded: Outcome) | SetClosed | Clear

  predicate Enabled(st: State, a: Action)
  {
    match a
    case SetClosed => true
    case Clear => st.shared.closed
    case Step(i, _) =>
      && i < |st.calls|
      && match st.calls[i]
         case Done(_, _, _) => false
         case Wait(_, f) => f < |st.shared.futures| && st.shared.futures[f].outcome.Some?
         case Stored(_, f, _) => f < |st.shared.futures|
         case Failing(_, f, _) => f < |st.shared.futures|
         case _ => true
  }

  function StepCall(s: Shared, i: CallId, pc: Pc, loaded: Outcome): (Shared, Pc)
    requires pc.Wait? ==> pc.future < |s.futures| && s.futures[pc.future].outcome.Some?
    requires pc.Stored? || pc.Failing? ==> pc.future < |s.futures|
  {
    match pc
    case Start(k) => (s, if s.closed then Uncached(k) else Look(k))
    case Uncached(k) => (s, Done(k, loaded, false))
    case Look(k) =>
      var (s', found) := LookUp(s, k, i);
      (s', match found
           case Hit(v) => Done(k, Ok(v), false)
           case Join(f) => Wait(k, f)
           case Create(f) => Loading(k, f))
    case Wait(k, f) => (s, Done(k, s.futures[f].outcome.value, false))
    case Loading(k, f) => (s, if loaded.Ok? then Loaded(k, f, loaded.value) else Failing(k, f, loaded.error))
    case Loaded(k, f, v) => (StoreValue(s, k, v), Stored(k, f, v))
    case Stored(k, f, v) => (Resolve(s, f, Ok(v)), Done(k, Ok(v), true))
    case Failing(k, f, e) => (Resolve(s, f, Raised(e)), Failed(k, f, e))
    case Failed(k, f, e) => (DropKey(s, k), Done(k, Raised(e), false))
    case Done(_, _, _) => (s, pc)
  }

  function Next(st: State, a: Action): State
    requires Enabled(st, a)
  {
    match a
    case SetClosed => st.(shared := st.shared.(closed := true))
    case Clear => st.(shared := st.shared.(values := map[], inflight := map[]))
    case Step(i, loaded) =>
      var (s, pc) := StepCall(st.shared, i, st.calls[i], loaded);
      State(s, st.calls[i := pc])
  }

  predicate Initial(st: State)
  {
    st.shared == Shared(map[], map[], [], false) && forall i | 0 <= i < |st.calls| :: st.calls[i].Start?
  }

  ghost predicate Behaviour(tr: seq<State>, acts: seq<Action>)
  {
    && |tr| == |acts| + 1 && Initial(tr[0])
    && forall i | 0 <= i < |acts| :: Enabled(tr[i], acts[i]) && tr[i + 1] == Next(tr[i], acts[i])
  }

  // ---- What every step keeps, closed or not --------------------------------------------------------

  /** The call still has to resolve its future. */
  predicate Owes(pc: Pc) { pc.Loading? || pc.Loaded? || pc.Stored? || pc.Failing? }

  /** The call's key is in flight on its behalf (as long as the cache is not closed). */
  predicate Flying(pc: Pc) { pc.Loading? || pc.Loaded? || pc.Failing? || pc.Failed? }

  predicate InflightSound(s: Shared)
  {
    forall k | k in s.inflight :: s.inflight[k] < |s.futures| && s.futures[s.inflight[k]].key == k
  }

  predicate CallSound(s: Shared, i: CallId, pc: Pc)
  {
    && (Owes(pc) || Flying(pc) ==>
          pc.future < |s.futures| && s.futures[pc.future].creator == i && s.futures[pc.future].key == pc.key)
    && (pc.Wait? ==> pc.future < |s.futures| && s.futures[pc.future].key == pc.key)
  }

  /** Every pending future is owed by the call that created it, and every owed future is pending. */
  predicate FutureSound(s: Shared, calls: seq<Pc>, f: nat)
    requires f < |s.futures|
  {
    var x := s.futures[f];
    && x.creator < |calls|
    && (x.outcome.None? <==> Owes(calls[x.creator]) && calls[x.creator].future == f)
  }

  ghost predicate FuturesSound(st: State)
  {
    && InflightSound(st.shared)
    && (forall i | 0 <= i < |st.calls| :: CallSound(st.shared, i, st.calls[i]))
    && (forall f: nat | f < |st.shared.futures| :: FutureSound(st.shared, st.calls, f))
  }

  /** Futures are only ever added, and keep their key and creator. */
  predicate Grows(s: Shared, s': Shared)
  {
    && |s.futures| <= |s'.futures|
    && forall f | 0 <= f < |s.futures| ::
         s'.futures[f].key == s.futures[f].key && s'.futures[f].creator == s.futures[f].creator
  }

  lemma LookUpGrows(s: Shared, k: Key, i: CallId)
    requires InflightSound(s)
    ensures var (s', found) := LookUp(s, k, i);
            && Grows(s, s') && InflightSound(s')
            && (found.Join? ==> found.future < |s'.futures| && s'.futures[found.future].key == k)
            && (found.Create? ==> found.future < |s'.futures| && s'.futures[found.future] == Future(k, i, None))
  {
  }

  lemma StepGrows(s: Shared, i: CallId, pc: Pc, loaded: Outcome)
    requires InflightSound(s) && CallSound(s, i, pc)
    requires pc.Wait? ==> s.futures[pc.future].outcome.Some?
    ensures var (s', pc') := StepCall(s, i, pc, loaded);
            Grows(s, s') && InflightSound(s') && CallSound(s', i, pc') && pc'.key == pc.key
  {
    if pc.Look? { LookUpGrows(s, pc.key, i); }
  }

  lemma StepFuture(st: State, i: CallId, loaded: Outcome, f: nat)
    requires Enabled(st, Step(i, loaded)) && CallSound(st.shared, i, st.calls[i])
    requires f < |Next(st, Step(i, loaded)).shared.futures|
    requires f < |st.shared.futures| ==> FutureSound(st.shared, st.calls, f)
    ensures FutureSound(Next(st, Step(i, loaded)).shared, Next(st, Step(i, loaded)).calls, f)
  {
    var st' := Next(st, Step(i, loaded));
    if f < |st.shared.futures| {
      if st.shared.futures[f].creator != i {
        assert st'.calls[st.shared.futures[f].creator] == st.calls[st.shared.futures[f].creator];
      }
    }
  }

  lemma FuturesStep(st: State, a: Action)
    requires FuturesSound(st) && Enabled(st, a)
    ensures FuturesSound(Next(st, a))
  {
    var st' := Next(st, a);
    match a
    case Step(i, loaded) =>
      assert CallSound(st.shared, i, st.calls[i]);
      StepGrows(st.shared, i, st.calls[i], loaded);
      forall j | 0 <= j < |st'.calls| ensures CallSound(st'.shared, j, st'.calls[j]) {
        assert CallSound(st.shared, j, st.calls[j]);
      }
      forall f: nat | f < |st'.shared.futures| ensures FutureSound(st'.shared, st'.calls, f) {
        StepFuture(st, i, loaded, f);
      }
    case _ =>
      forall i | 0 <= i < |st'.calls| ensures CallSound(st'.shared, i, st'.calls[i]) {
        assert CallSound(st.shared, i, st.calls[i]);
      }
      forall f: nat | f < |st'.shared.futures| ensures FutureSound(st'.shared, st'.calls, f) {
        assert FutureSound(st.shared, st.calls, f);
      }
  }

  /** A step changes the outcome of a future only from pending, and only if it is the step in which
      the creating call resolves it. */
  lemma ResolvedByCreator(st: State, a: Action, f: nat)
    requires FuturesSound(st) && Enabled(st, a) && f < |st.shared.futures|
    ensures f < |Next(st, a).shared.futures|
    ensures var x, x' := st.shared.futures[f], Next(st, a).shared.futures[f];
            && x'.key == x.key && x'.creator == x.creator
            && (x'.outcome != x.outcome ==> x.outcome.None? && x'.outcome.Some? && a.Step? && a.call == x.creator)
  {
    assert FutureSound(st.shared, st.calls, f);
    if a.Step? {
      assert CallSound(st.shared, a.call, st.calls[a.call]);
      if Owes(st.calls[a.call]) { assert FutureSound(st.shared, st.calls, st.calls[a.call].future); }
    }
  }

  lemma {:induction false} ReachableFutures(tr: seq<State>, acts: seq<Action>, n: nat)
    requires Behaviour(tr, acts) && n <= |acts|
    ensures FuturesSound(tr[n]) && |tr[n].calls| == |tr[0].calls|
  {
    if n > 0 {
      ReachableFutures(tr, acts, n - 1);
      FuturesStep(tr[n - 1], acts[n - 1]);
    }
  }

  /** A resolved future holds what its creator returns or is about to return. */
  predicate HoldsOutcome(s: Shared, calls: seq<Pc>, f: nat)
    requires f < |s.futures|
  {
    var x := s.futures[f];
    x.outcome.Some? ==>
      && x.creator < |calls| && calls[x.creator].key == x.key
      && match calls[x.creator]
         case Done(_, outcome, _) => outcome == x.outcome.value
         case Failed(_, g, e) => g == f && x.outcome.value == Raised(e)
         case _ => false
  }

  ghost predicate OutcomesHeld(st: State)
  {
    forall f: nat | f < |st.shared.futures| :: HoldsOutcome(st.shared, st.calls, f)
  }

  /** A step of another call, or of close, leaves the future and its creator alone. */
  lemma OutcomeOfOthers(st: State, a: Action, f: nat)
    requires FuturesSound(st) && Enabled(st, a) && f < |st.shared.futures| && HoldsOutcome(st.shared, st.calls, f)
    requires a.Step? ==> a.call != st.shared.futures[f].creator
    ensures HoldsOutcome(Next(st, a).shared, Next(st, a).calls, f)
  {
    ResolvedByCreator(st, a, f);
  }

  /** The creator's own steps. */
  lemma OutcomeOfCreator(st: State, i: CallId, loaded: Outcome, f: nat)
    requires Enabled(st, Step(i, loaded)) && CallSound(st.shared, i, st.calls[i])
    requires f < |st.shared.futures| && st.shared.futures[f].creator == i
    requires HoldsOutcome(st.shared, st.calls, f) && FutureSound(st.shared, st.calls, f)
    ensures HoldsOutcome(Next(st, Step(i, loaded)).shared, Next(st, Step(i, loaded)).calls, f)
  {
  }

  lemma OutcomeStep(st: State, a: Action, f: nat)
    requires FuturesSound(st) && OutcomesHeld(st) && Enabled(st, a) && f < |Next(st, a).shared.futures|
    ensures HoldsOutcome(Next(st, a).shared, Next(st, a).calls, f)
  {
    if f < |st.shared.futures| {
      assert HoldsOutcome(st.shared, st.calls, f) && FutureSound(st.shared, st.calls, f);
      if a.Step? && a.call == st.shared.futures[f].creator {
        assert CallSound(st.shared, a.call, st.calls[a.call]);
        OutcomeOfCreator(st, a.call, a.loaded, f);
      } else {
        OutcomeOfOthers(st, a, f);
      }
    }
  }

  /** Whenever close happens: every future that has an outcome has the one its creator returns, so a
      waiter gets exactly what the call that ran the loader gets, value or error. */
  lemma {:induction false} WaitersGetCreatorsOutcome(tr: seq<State>, acts: seq<Action>, n: nat)
    requires Behaviour(tr, acts) && n <= |acts|
    ensures OutcomesHeld(tr[n])
  {
    if n > 0 {
      WaitersGetCreatorsOutcome(tr, acts, n - 1);
      ReachableFutures(tr, acts, n - 1);
      forall f: nat | f < |tr[n].shared.futures| ensures HoldsOutcome(tr[n].shared, tr[n].calls, f) {
        OutcomeStep(tr[n - 1], acts[n - 1], f);
      }
    }
  }

  predicate Pending(st: State, f: nat) { f >= |st.shared.futures| || st.shared.futures[f].outcome.None? }

  /** How many of the first n steps resolve future f. */
  function Resolutions(tr: seq<State>, f: nat, n: nat): nat
    requires n < |tr|
  {
    if n == 0 then 0 else Resolutions(tr, f, n - 1) + if Pending(tr[n - 1], f) && !Pending(tr[n], f) then 1 else 0
  }

  lemma {:induction false} ResolutionsCount(tr: seq<State>, acts: seq<Action>, f: nat, n: nat)
    requires Behaviour(tr, acts) && n <= |acts|
    ensures Resolutions(tr, f, n) == if Pending(tr[n], f) then 0 else 1
  {
    if n > 0 {
      ResolutionsCount(tr, acts, f, n - 1);
      ReachableFutures(tr, acts, n - 1);
      if f < |tr[n - 1].shared.futures| { ResolvedByCreator(tr[n - 1], acts[n - 1], f); }
    }
  }

  /** Whenever close happens: every future is resolved at most once, and exactly once in every behaviour
      at whose end the call that created it has returned. */
  lemma ResolvedExactlyOnce(tr: seq<State>, acts: seq<Action>, f: nat)
    requires Behaviour(tr, acts) && f < |tr[|acts|].shared.futures|
    ensures Resolutions(tr, f, |acts|) <= 1
    ensures var x := tr[|acts|].shared.futures[f];
            x.creator < |tr[|acts|].calls| && (tr[|acts|].calls[x.creator].Done? ==> Resolutions(tr, f, |acts|) == 1)
  {
    ResolutionsCount(tr, acts, f, |acts|);
    ReachableFutures(tr, acts, |acts|);
    assert FutureSound(tr[|acts|].shared, tr[|acts|].calls, f);
  }

  // ---- Nobody is stranded ---------------------------------------------------------------------------

  predicate Finished(st: State) { forall i | 0 <= i < |st.calls| :: st.calls[i].Done? }

  /** Whatever close does and whenever: while some call has not returned, some call can step. */
  lemma SomeCallCanStep(tr: seq<State>, acts: seq<Action>)
    requires Behaviour(tr, acts) && !Finished(tr[|acts|])
    ensures exists i: CallId {:trigger tr[|acts|].calls[i]} ::
              i < |tr[|acts|].calls| && forall r: Outcome :: Enabled(tr[|acts|], Step(i, r))
  {
    var st := tr[|acts|];
    ReachableFutures(tr, acts, |acts|);
    var i: nat :| i < |st.calls| && !st.calls[i].Done?;
    assert CallSound(st.shared, i, st.calls[i]);
    if st.calls[i].Wait? && st.shared.futures[st.calls[i].future].outcome.None? {
      assert FutureSound(st.shared, st.calls, st.calls[i].future);
      var c := st.shared.futures[st.calls[i].future].creator;
      assert CallSound(st.shared, c, st.calls[c]);
      assert forall r: Outcome :: Enabled(st, Step(c, r));
    } else {
      assert forall r: Outcome :: Enabled(st, Step(i, r));
    }
  }

  function Rank(pc: Pc): nat
  {
    match pc
    case Start(_) => 6
    case Look(_) => 5
    case Loading(_, _) => 4
    case Loaded(_, _, _) => 3
    case Failing(_, _, _) => 3
    case Stored(_, _, _) => 2
    case Failed(_, _, _) => 2
    case Wait(_, _) => 1
    case Uncached(_) => 1
    case Done(_, _, _) => 0
  }

  function Work(calls: seq<Pc>): nat
  {
    if calls == [] then 0 else Work(calls[..|calls| - 1]) + Rank(calls[|calls| - 1])
  }

  lemma {:induction false} WorkDrops(calls: seq<Pc>, i: nat, pc: Pc)
    requires i < |calls| && Rank(pc) < Rank(calls[i])
    ensures Work(calls[i := pc]) < Work(calls)
  {
    var n := |calls| - 1;
    if i == n {
      assert calls[i := pc][..n] == calls[..n];
    } else {
      assert calls[i := pc][..n] == calls[..n][i := pc];
      WorkDrops(calls[..n], i, pc);
    }
  }

  lemma {:induction false} WorkBound(calls: seq<Pc>)
    ensures Work(calls) <= 6 * |calls|
  {
    if calls != [] { WorkBound(calls[..|calls| - 1]); }
  }

  function CallSteps(acts: seq<Action>): nat
  {
    if acts == [] then 0
    else CallSteps(acts[..|acts| - 1]) + (if acts[|acts| - 1].Step? then 1 else 0)
  }

  lemma StepLowersRank(s: Shared, i: CallId, pc: Pc, loaded: Outcome)
    requires !pc.Done? && (pc.Wait? ==> pc.future < |s.futures| && s.futures[pc.future].outcome.Some?)
    requires pc.Stored? || pc.Failing? ==> pc.future < |s.futures|
    ensures Rank(StepCall(s, i, pc, loaded).1) < Rank(pc)
  {
  }

  lemma WorkStep(st: State, a: Action)
    requires Enabled(st, a)
    ensures Work(Next(st, a).calls) + (if a.Step? then 1 else 0) <= Work(st.calls)
  {
    if a.Step? {
      StepLowersRank(st.shared, a.call, st.calls[a.call], a.loaded);
      WorkDrops(st.calls, a.call, StepCall(st.shared, a.call, st.calls[a.call], a.loaded).1);
    }
  }

  lemma {:induction false} WorkSpent(tr: seq<State>, acts: seq<Action>, n: nat)
    requires Behaviour(tr, acts) && n <= |acts|
    ensures CallSteps(acts[..n]) + Work(tr[n].calls) <= Work(tr[0].calls)
  {
    if n > 0 {
      WorkSpent(tr, acts, n - 1);
      assert acts[..n][..n - 1] == acts[..n - 1];
      WorkStep(tr[n - 1], acts[n - 1]);
    }
  }

  /** No run takes more than six call steps per call; with SomeCallCanStep, every run in which the
      calls that can step keep stepping ends with every call returned. */
  lemma RunsAreShort(tr: seq<State>, acts: seq<Action>)
    requires Behaviour(tr, acts)
    ensures CallSteps(acts) <= 6 * |tr[0].calls|
  {
    WorkSpent(tr, acts, |acts|);
    assert acts[..|acts|] == acts;
    WorkBound(tr[0].calls);
  }

  // ---- Before close ---------------------------------------------------------------------------------

  /** The loader of the call has returned a value. */
  predicate Succeeded(pc: Pc) { pc.Loaded? || pc.Stored? || (pc.Done? && pc.own) }

  predicate ReturnedOrStored(pc: Pc) { pc.Stored? || (pc.Done? && pc.outcome.Ok?) }

  function ValueOf(pc: Pc): Value
    requires ReturnedOrStored(pc)
  {
    if pc.Stored? then pc.value else pc.outcome.value
  }

  predicate CallShares(s: Shared, pc: Pc)
  {
    && !pc.Uncached?
    && (pc.Done? && pc.own ==> pc.outcome.Ok?)
    && (Flying(pc) ==> pc.key in s.inflight && s.inflight[pc.key] == pc.future)
    && (ReturnedOrStored(pc) ==> pc.key in s.values && s.values[pc.key] == ValueOf(pc))
  }

  predicate FutureShares(s: Shared, x: Future)
  {
    x.outcome.Some? && x.outcome.value.Ok? ==>
      x.key in s.values && s.values[x.key] == x.outcome.value.value
  }

  /** An in-flight key belongs to one call, and has no value yet. */
  predicate KeyShares(st: State, k: Key)
    requires k in st.shared.inflight
  {
    && k !in st.shared.values
    && var f := st.shared.inflight[k];
    && f < |st.shared.futures| && st.shared.futures[f].creator < |st.calls|
    && var pc := st.calls[st.shared.futures[f].creator];
       Flying(pc) && pc.key == k && pc.future == f
  }

  ghost predicate OneStore(calls: seq<Pc>)
  {
    forall i, j | 0 <= i < j < |calls| && calls[i].key == calls[j].key ::
      !((calls[i].Stored? || (calls[i].Done? && calls[i].own))
        && (calls[j].Stored? || (calls[j].Done? && calls[j].own)))
  }

  ghost predicate Sharing(st: State)
  {
    && FuturesSound(st)
    && (forall i | 0 <= i < |st.calls| :: CallShares(st.shared, st.calls[i]))
    && (forall f | 0 <= f < |st.shared.futures| :: FutureShares(st.shared, st.shared.futures[f]))
    && (forall k | k in st.shared.inflight :: KeyShares(st, k))
    && OneStore(st.calls)
  }

  lemma SharingCalls(st: State, i: CallId, loaded: Outcome, j: nat)
    requires Sharing(st) && !st.shared.closed && Enabled(st, Step(i, loaded)) && j < |st.calls|
    ensures CallShares(Next(st, Step(i, loaded)).shared, Next(st, Step(i, loaded)).calls[j])
  {
    var pc := st.calls[i];
    assert CallSound(st.shared, i, pc) && CallShares(st.shared, pc);
    assert CallSound(st.shared, j, st.calls[j]) && CallShares(st.shared, st.calls[j]);
    if pc.Wait? { assert FutureShares(st.shared, st.shared.futures[pc.future]); }
    if Flying(pc) { assert KeyShares(st, pc.key); }
  }

  lemma SharingFutures(st: State, i: CallId, loaded: Outcome, f: nat)
    requires Sharing(st) && !st.shared.closed && Enabled(st, Step(i, loaded))
    requires f < |Next(st, Step(i, loaded)).shared.futures|
    ensures FutureShares(Next(st, Step(i, loaded)).shared, Next(st, Step(i, loaded)).shared.futures[f])
  {
    var pc := st.calls[i];
    assert CallSound(st.shared, i, pc) && CallShares(st.shared, pc);
    if f < |st.shared.futures| { assert FutureShares(st.shared, st.shared.futures[f]); }
    if Flying(pc) { assert KeyShares(st, pc.key); }
  }

  /** A key that stays in flight keeps its owner. */
  lemma SharingOldKey(st: State, i: CallId, loaded: Outcome, k: Key)
    requires Sharing(st) && !st.shared.closed && Enabled(st, Step(i, loaded)) && k in st.shared.inflight
    requires k in Next(st, Step(i, loaded)).shared.inflight
    ensures KeyShares(Next(st, Step(i, loaded)), k)
  {
    var pc := st.calls[i];
    assert CallSound(st.shared, i, pc) && CallShares(st.shared, pc) && KeyShares(st, k);
  }

  lemma SharingNewKey(st: State, i: CallId, loaded: Outcome, k: Key)
    requires FuturesSound(st) && Enabled(st, Step(i, loaded)) && k !in st.shared.inflight
    requires k in Next(st, Step(i, loaded)).shared.inflight
    ensures KeyShares(Next(st, Step(i, loaded)), k)
  {
  }

  lemma SharingKeys(st: State, i: CallId, loaded: Outcome, k: Key)
    requires Sharing(st) && !st.shared.closed && Enabled(st, Step(i, loaded))
    requires k in Next(st, Step(i, loaded)).shared.inflight
    ensures KeyShares(Next(st, Step(i, loaded)), k)
  {
    if k in st.shared.inflight { SharingOldKey(st, i, loaded, k); } else { SharingNewKey(st, i, loaded, k); }
  }

  lemma SharingStores(st: State, i: CallId, loaded: Outcome)
    requires Sharing(st) && !st.shared.closed && Enabled(st, Step(i, loaded))
    ensures OneStore(Next(st, Step(i, loaded)).calls)
  {
    var pc := st.calls[i];
    assert CallSound(st.shared, i, pc) && CallShares(st.shared, pc);
    if pc.Loaded? { assert KeyShares(st, pc.key); }
    forall j | 0 <= j < |st.calls| ensures CallShares(st.shared, st.calls[j]) {}
  }

  lemma SharingStep(st: State, a: Action)
    requires Sharing(st) && Enabled(st, a) && !Next(st, a).shared.closed
    ensures Sharing(Next(st, a))
  {
    FuturesStep(st, a);
    match a
    case Step(i, loaded) =>
      var st' := Next(st, a);
      forall j | 0 <= j < |st'.calls| ensures CallShares(st'.shared, st'.calls[j]) {
        SharingCalls(st, i, loaded, j);
      }
      forall f | 0 <= f < |st'.shared.futures| ensures FutureShares(st'.shared, st'.shared.futures[f]) {
        SharingFutures(st, i, loaded, f);
      }
      forall k | k in st'.shared.inflight ensures KeyShares(st', k) {
        SharingKeys(st, i, loaded, k);
      }
      SharingStores(st, i, loaded);
  }

  lemma ClosedStays(st: State, a: Action)
    requires Enabled(st, a) && st.shared.closed
    ensures Next(st, a).shared.closed
  {
  }

  lemma InitialSharing(st: State)
    requires Initial(st)
    ensures Sharing(st)
  {
  }

  lemma {:induction false} ReachableSharing(tr: seq<State>, acts: seq<Action>, n: nat)
    requires Behaviour(tr, acts) && n <= |acts| && !tr[n].shared.closed
    ensures Sharing(tr[n])
  {
    if n > 0 {
      if tr[n - 1].shared.closed { ClosedStays(tr[n - 1], acts[n - 1]); }
      ReachableSharing(tr, acts, n - 1);
      SharingStep(tr[n - 1], acts[n - 1]);
    } else {
      InitialSharing(tr[0]);
    }
  }

  /** While the cache has not been closed: at most one loader per key runs, and none once one has
      succeeded; at most one ever succeeds. */
  lemma OneLoaderPerKey(tr: seq<State>, acts: seq<Action>, i: nat, j: nat)
    requires Behaviour(tr, acts) && !tr[|acts|].shared.closed
    requires i < j < |tr[|acts|].calls| && tr[|acts|].calls[i].key == tr[|acts|].calls[j].key
    ensures var p, q := tr[|acts|].calls[i], tr[|acts|].calls[j];
            && !(p.Loading? && q.Loading?)
            && !(p.Loading? && Succeeded(q)) && !(Succeeded(p) && q.Loading?)
            && !(Succeeded(p) && Succeeded(q))
  {
    var st := tr[|acts|];
    ReachableSharing(tr, acts, |acts|);
    assert CallShares(st.shared, st.calls[i]) && CallShares(st.shared, st.calls[j]);
    if Flying(st.calls[i]) || Flying(st.calls[j]) { assert KeyShares(st, st.calls[i].key); }
  }

  /** While the cache has not been closed: all calls of a key that return normally return one value. */
  lemma OneValuePerKey(tr: seq<State>, acts: seq<Action>, i: nat, j: nat)
    requires Behaviour(tr, acts) && !tr[|acts|].shared.closed
    requires i < |tr[|acts|].calls| && j < |tr[|acts|].calls|
    requires var p, q := tr[|acts|].calls[i], tr[|acts|].calls[j];
             p.key == q.key && p.Done? && q.Done? && p.outcome.Ok? && q.outcome.Ok?
    ensures tr[|acts|].calls[i].outcome == tr[|acts|].calls[j].outcome
  {
    var st := tr[|acts|];
    ReachableSharing(tr, acts, |acts|);
    assert CallShares(st.shared, st.calls[i]) && CallShares(st.shared, st.calls[j]);
  }

  // ---- What does not hold ----------------------------------------------------------------------------

  ghost predicate Reachable(st: State)
  {
    exists tr: seq<State>, acts: seq<Action> :: Behaviour(tr, acts) && tr[|acts|] == st
  }

  lemma ReachableTo(st: State, a: Action, st': State)
    requires Reachable(st) && Enabled(st, a) && st' == Next(st, a)
    ensures Reachable(st')
  {
    var tr: seq<State>, acts: seq<Action> :| Behaviour(tr, acts) && tr[|acts|] == st;
    var tr', acts' := tr + [st'], acts + [a];
    assert Behaviour(tr', acts') && tr'[|acts'|] == st';
  }

  /** Two calls of one key: the first has begun to load, the second has yet to look. */
  function LateCaller(k: Key): State
  {
    State(Shared(map[], map[k := 0], [Future(k, 0, None)], false), [Loading(k, 0), Look(k)])
  }

  lemma LateCallerReachable(k: Key)
    ensures Reachable(LateCaller(k))
  {
    var t0 := State(Shared(map[], map[], [], false), [Start(k), Start(k)]);
    var none: seq<Action> := [];
    assert Behaviour([t0], none) && [t0][|none|] == t0;
    var t1 := State(t0.shared, [Look(k), Start(k)]);
    var t2 := State(t0.shared, [Look(k), Look(k)]);
    ReachableTo(t0, Step(0, Ok(0)), t1);
    ReachableTo(t1, Step(1, Ok(0)), t2);
    ReachableTo(t2, Step(0, Ok(0)), LateCaller(k));
  }

  /** After close the promise ends: two calls that overlap the close load the same key side by side. */
  lemma CloseEndsSharing(k: Key)
    ensures exists st: State ::
              && Reachable(st) && |st.calls| == 2 && st.calls[0].key == st.calls[1].key == k
              && st.calls[0].Loading? && st.calls[1].Loading?
  {
    LateCallerReachable(k);
    var t0 := LateCaller(k);
    var t1 := t0.(shared := t0.shared.(closed := true));
    var t2 := t0.(shared := Shared(map[], map[], [Future(k, 0, None)], true));
    var t3 := State(Shared(map[], map[k := 1], [Future(k, 0, None), Future(k, 1, None)], true),
                    [Loading(k, 0), Loading(k, 1)]);
    ReachableTo(t0, SetClosed, t1);
    ReachableTo(t1, Clear, t2);
    ReachableTo(t2, Step(1, Ok(0)), t3);
  }

  /** Every key a call has put in flight and not yet taken out is in flight for that call's future. */
  ghost predicate Tracked(st: State)
  {
    forall i | 0 <= i < |st.calls| && Flying(st.calls[i]) ::
      st.calls[i].key in st.shared.inflight && st.shared.inflight[st.calls[i].key] == st.calls[i].future
  }

  lemma FlyingKeysDiffer(st: State, i: CallId, j: CallId)
    requires FuturesSound(st) && Tracked(st) && i < |st.calls| && j < |st.calls| && i != j
    requires Flying(st.calls[i]) && Flying(st.calls[j])
    ensures st.calls[i].key != st.calls[j].key
  {
    assert CallSound(st.shared, i, st.calls[i]) && CallSound(st.shared, j, st.calls[j]);
  }

  /** Only the clearing of the cache loses track. */
  lemma TrackedStep(st: State, a: Action)
    requires FuturesSound(st) && Tracked(st) && Enabled(st, a) && !a.Clear?
    ensures Tracked(Next(st, a))
  {
    if a.Step? && Flying(st.calls[a.call]) {
      forall j | 0 <= j < |st.calls| && j != a.call && Flying(st.calls[j])
        ensures st.calls[j].key != st.calls[a.call].key
      {
        FlyingKeysDiffer(st, a.call, j);
      }
    }
  }

  lemma {:induction false} TrackedUntilClear(tr: seq<State>, acts: seq<Action>, n: nat)
    requires Behaviour(tr, acts) && n <= |acts| && forall p | 0 <= p < n :: !acts[p].Clear?
    ensures Tracked(tr[n])
  {
    if n > 0 {
      TrackedUntilClear(tr, acts, n - 1);
      ReachableFutures(tr, acts, n - 1);
      TrackedStep(tr[n - 1], acts[n - 1]);
    }
  }

  /** But not before the cache has been cleared, whether or not it has been closed. */
  lemma TwoLoadersNeedClear(tr: seq<State>, acts: seq<Action>, i: CallId, j: CallId)
    requires Behaviour(tr, acts) && i < j < |tr[|acts|].calls|
    requires var p, q := tr[|acts|].calls[i], tr[|acts|].calls[j]; p.Loading? && q.Loading? && p.key == q.key
    ensures exists n :: 0 <= n < |acts| && acts[n].Clear?
  {
    if forall n | 0 <= n < |acts| :: !acts[n].Clear? {
      TrackedUntilClear(tr, acts, |acts|);
      ReachableFutures(tr, acts, |acts|);
      FlyingKeysDiffer(tr[|acts|], i, j);
    }
  }

  /** In step n the key leaves flight: the cache is cleared, or a call other than i that has loaded the key
      stores its value or gives up. */
  ghost predicate TakenOut(tr: seq<State>, acts: seq<Action>, n: nat, k: Key, i: CallId)
    requires n < |acts| < |tr|
  {
    && k in tr[n].shared.inflight && k !in tr[n + 1].shared.inflight
    && (acts[n].Clear? ||
        (acts[n].Step? && acts[n].call != i && acts[n].call < |tr[n].calls| && tr[n].calls[acts[n].call].key == k
         && (tr[n].calls[acts[n].call].Loaded? || tr[n].calls[acts[n].call].Failed?)))
  }

  lemma LeavingIsTakenOut(st: State, a: Action, k: Key, i: CallId)
    requires Enabled(st, a) && i < |st.calls| && st.calls[i].Loading?
    requires k in st.shared.inflight && k !in Next(st, a).shared.inflight
    ensures a.Clear? || (a.Step? && a.call != i && st.calls[a.call].key == k
                         && (st.calls[a.call].Loaded? || st.calls[a.call].Failed?))
  {
  }

  /** A call that was loading before and is loading now has been loading all the time. */
  lemma {:induction false} LoadsThroughout(tr: seq<State>, acts: seq<Action>, i: CallId, a: nat, n: nat, b: nat)
    requires Behaviour(tr, acts) && a <= n <= b <= |acts| && i < |tr[a].calls| && tr[a].calls[i].Loading?
    requires i < |tr[b].calls| && tr[b].calls[i].Loading?
    ensures i < |tr[n].calls| && tr[n].calls[i] == tr[a].calls[i]
    decreases n
  {
    ReachableFutures(tr, acts, a);
    ReachableFutures(tr, acts, n);
    ReachableFutures(tr, acts, b);
    if a < n {
      LoadsThroughout(tr, acts, i, a, n - 1, b);
      if tr[n].calls[i] != tr[a].calls[i] { NotLoadingAgain(tr, acts, i, n, b); }
    }
  }

  lemma {:induction false} NotLoadingAgain(tr: seq<State>, acts: seq<Action>, i: CallId, n: nat, b: nat)
    requires Behaviour(tr, acts) && n <= b <= |acts| && i < |tr[n].calls| && Rank(tr[n].calls[i]) < 4
    ensures i < |tr[b].calls| && Rank(tr[b].calls[i]) < 4
    decreases b
  {
    if n < b {
      NotLoadingAgain(tr, acts, i, n, b - 1);
      var st, act := tr[b - 1], acts[b - 1];
      if act.Step? && act.call == i { StepLowersRank(st.shared, i, st.calls[i], act.loaded); }
    }
  }

  lemma {:induction false} LeavesFlight(tr: seq<State>, acts: seq<Action>, k: Key, i: CallId, a: nat, b: nat)
    requires Behaviour(tr, acts) && a <= b <= |acts| && k in tr[a].shared.inflight && k !in tr[b].shared.inflight
    requires forall n | a <= n <= b :: i < |tr[n].calls| && tr[n].calls[i].Loading?
    ensures exists n: nat :: a <= n < b && TakenOut(tr, acts, n, k, i)
    decreases b
  {
    assert a < b;
    if k in tr[b - 1].shared.inflight {
      LeavingIsTakenOut(tr[b - 1], acts[b - 1], k, i);
      assert TakenOut(tr, acts, b - 1, k, i);
    } else {
      LeavesFlight(tr, acts, k, i, a, b - 1);
    }
  }

  /** And only after the key has been taken out of flight behind the first loader's back: if call j begins to
      load a key (step b) that call i began to load earlier (step a) and still loads, then in between the cache
      was cleared, or a third call that had loaded the key stored it or gave up. */
  lemma SecondLoaderNeedsRemoval(tr: seq<State>, acts: seq<Action>, i: CallId, j: CallId, a: nat, b: nat, k: Key)
    requires Behaviour(tr, acts) && a < b < |acts| && acts[a].Step? && acts[a].call == i && acts[b].Step?
             && acts[b].call == j
    requires i < |tr[a].calls| && tr[a].calls[i] == Look(k) && i < |tr[a + 1].calls| && tr[a + 1].calls[i].Loading?
    requires j < |tr[b].calls| && tr[b].calls[j] == Look(k) && j < |tr[b + 1].calls| && tr[b + 1].calls[j].Loading?
    requires i < |tr[b].calls| && tr[b].calls[i].Loading?
    ensures exists n: nat :: a < n < b && TakenOut(tr, acts, n, k, i)
  {
    forall n | a + 1 <= n <= b ensures i < |tr[n].calls| && tr[n].calls[i].Loading? {
      LoadsThroughout(tr, acts, i, a + 1, n, b);
    }
    LeavesFlight(tr, acts, k, i, a + 1, b);
  }

  // ---- One call by itself ----------------------------------------------------------------------------

  /** The state after call i has taken its steps, without any of the others, until it has returned or waits for
      the future of another. */
  function Alone(st: State, i: CallId, loaded: Outcome): State
    requires i < |st.calls|
    decreases Rank(st.calls[i])
  {
    if !Enabled(st, Step(i, loaded)) then st
    else
      StepLowersRank(st.shared, i, st.calls[i], loaded);
      Alone(Next(st, Step(i, loaded)), i, loaded)
  }

  lemma AloneNext(st: State, i: CallId, loaded: Outcome, shared: Shared, pc: Pc)
    requires Enabled(st, Step(i, loaded)) && StepCall(st.shared, i, st.calls[i], loaded) == (shared, pc)
    ensures Alone(st, i, loaded) == Alone(State(shared, st.calls[i := pc]), i, loaded)
  {
  }

  lemma AloneEnds(shared: Shared, calls: seq<Pc>, i: CallId, loaded: Outcome, pc: Pc)
    requires i < |calls| && (pc.Done? || (pc.Wait? && pc.future < |shared.futures|))
    ensures Alone(State(shared, calls[i := pc]), i, loaded) ==
              if pc.Wait? && shared.futures[pc.future].outcome.Some?
              then State(shared, calls[i := Done(pc.key, shared.futures[pc.future].outcome.value, false)])
              else State(shared, calls[i := pc])
  {
    var st := State(shared, calls[i := pc]);
    if pc.Wait? && shared.futures[pc.future].outcome.Some? {
      var done := Done(pc.key, shared.futures[pc.future].outcome.value, false);
      AloneNext(st, i, loaded, shared, done);
      assert calls[i := pc][i := done] == calls[i := done];
    }
  }

  /** The steps of a call that has registered its future. */
  lemma AloneLoads(s: Shared, calls: seq<Pc>, i: CallId, loaded: Outcome, k: Key, f: nat)
    requires i < |calls| && f < |s.futures|
    ensures Alone(State(s, calls[i := Loading(k, f)]), i, loaded) ==
              if loaded.Ok?
              then State(Resolve(StoreValue(s, k, loaded.value), f, loaded), calls[i := Done(k, loaded, true)])
              else State(DropKey(Resolve(s, f, loaded), k), calls[i := Done(k, loaded, false)])
  {
    if loaded.Ok? {
      var v, stored := loaded.value, StoreValue(s, k, loaded.value);
      AloneMoves(s, calls, i, loaded, Loading(k, f), s, Loaded(k, f, v));
      AloneMoves(s, calls, i, loaded, Loaded(k, f, v), stored, Stored(k, f, v));
      AloneMoves(stored, calls, i, loaded, Stored(k, f, v), Resolve(stored, f, loaded), Done(k, loaded, true));
      AloneEnds(Resolve(stored, f, loaded), calls, i, loaded, Done(k, loaded, true));
    } else {
      var e, failed := loaded.error, Resolve(s, f, loaded);
      AloneMoves(s, calls, i, loaded, Loading(k, f), s, Failing(k, f, e));
      AloneMoves(s, calls, i, loaded, Failing(k, f, e), failed, Failed(k, f, e));
      AloneMoves(failed, calls, i, loaded, Failed(k, f, e), DropKey(failed, k), Done(k, loaded, false));
      AloneEnds(DropKey(failed, k), calls, i, loaded, Done(k, loaded, false));
    }
  }

  lemma AloneMoves(s: Shared, calls: seq<Pc>, i: CallId, loaded: Outcome, pc: Pc, s': Shared, pc': Pc)
    requires i < |calls| && Enabled(State(s, calls[i := pc]), Step(i, loaded))
    requires StepCall(s, i, pc, loaded) == (s', pc')
    ensures Alone(State(s, calls[i := pc]), i, loaded) == Alone(State(s', calls[i := pc']), i, loaded)
  {
    AloneNext(State(s, calls[i := pc]), i, loaded, s', pc');
    assert calls[i := pc][i := pc'] == calls[i := pc'];
  }

  /** Where a call stands that went as far as it gets: returned with this outcome, or waiting for this future. */
  predicate StandsAt(pc: Pc, k: Key, result: Option<Outcome>, future: nat)
  {
    match result
    case Some(o) => pc.Done? && pc.key == k && pc.outcome == o
    case None => pc == Wait(k, future)
  }

  /** What the call has done to the cache and where it stands: a closed cache is left alone, a stored value is
      returned, the future of a key in flight is joined, and otherwise the loader's outcome is returned, its
      value stored, its future resolved and the key in flight no more. */
  ghost predicate AsAlone(st: State, i: CallId, loaded: Outcome, k: Key)
    requires i < |st.calls| && InflightSound(st.shared)
  {
    var s, end := st.shared, Alone(st, i, loaded);
    && |end.calls| == |st.calls| && (forall j | 0 <= j < |st.calls| && j != i :: end.calls[j] == st.calls[j])
    && if s.closed then end.shared == s && StandsAt(end.calls[i], k, Some(loaded), 0)
       else if k in s.values then end.shared == s && StandsAt(end.calls[i], k, Some(Ok(s.values[k])), 0)
       else if k in s.inflight then
         && end.shared == s
         && StandsAt(end.calls[i], k, s.futures[s.inflight[k]].outcome, s.inflight[k])
       else
         && end.shared.futures == s.futures + [Future(k, i, Some(loaded))]
         && end.shared.values == (if loaded.Ok? then s.values[k := loaded.value] else s.values)
         && end.shared.inflight == s.inflight && end.shared.closed == s.closed
         && StandsAt(end.calls[i], k, Some(loaded), 0)
  }

  /** An undisturbed call does exactly that. */
  lemma AloneIs(st: State, i: CallId, loaded: Outcome, k: Key)
    requires i < |st.calls| && st.calls[i] == Start(k) && InflightSound(st.shared)
    ensures AsAlone(st, i, loaded, k)
  {
    var s, calls := st.shared, st.calls;
    assert calls[i := Start(k)] == calls;
    if s.closed {
      AloneMoves(s, calls, i, loaded, Start(k), s, Uncached(k));
      AloneMoves(s, calls, i, loaded, Uncached(k), s, Done(k, loaded, false));
      AloneEnds(s, calls, i, loaded, Done(k, loaded, false));
    } else {
      AloneMoves(s, calls, i, loaded, Start(k), s, Look(k));
      if k in s.values {
        AloneMoves(s, calls, i, loaded, Look(k), s, Done(k, Ok(s.values[k]), false));
        AloneEnds(s, calls, i, loaded, Done(k, Ok(s.values[k]), false));
      } else if k in s.inflight {
        AloneMoves(s, calls, i, loaded, Look(k), s, Wait(k, s.inflight[k]));
        AloneEnds(s, calls, i, loaded, Wait(k, s.inflight[k]));
      } else {
        var s' := LookUp(s, k, i).0;
        AloneMoves(s, calls, i, loaded, Look(k), s', Loading(k, |s.futures|));
        AloneLoads(s', calls, i, loaded, k, |s.futures|);
        assert s'.inflight - {k} == s.inflight;
        assert s'.futures[|s.futures| := Future(k, i, Some(loaded))] == s.futures + [Future(k, i, Some(loaded))];
      }
    }
  }

  // ---- The cache object ------------------------------------------------------------------------------

  /** The object itself: one method per critical section.  A future is a cell of `futures`. */
  class RunReuseCache {
    var values: map<Key, Value>
    var inflight: map<Key, nat>
    var futures: seq<Future>
    var closed: bool

    function View(): Shared reads this { Shared(values, inflight, futures, closed) }

    constructor ()
      ensures View() == Shared(map[], map[], [], false)
    {
      values, inflight, futures, closed := map[], map[], [], false;
    }

    /** close, first half: answers false when an earlier close got there first. */
    method MarkClosed() returns (first: bool)
      modifies `closed
      ensures View() == old(View()).(closed := true) && first == !old(closed)
    {
      first := !closed;
      if closed { return; }
      closed := true;
    }

    method ClearAll()
      modifies this
      ensures View() == old(View()).(values := map[], inflight := map[])
    {
      values := map[];
      inflight := map[];
    }

    method FindOrCreate(k: Key, caller: CallId) returns (found: Found)
      modifies this
      ensures (View(), found) == LookUp(old(View()), k, caller)
      ensures found == if k in old(values) then Hit(old(values)[k])
                       else if k in old(inflight) then Join(old(inflight)[k])
                       else Create(|old(futures)|)
      ensures values == old(values) && closed == old(closed)
      ensures inflight == if found.Create? then old(inflight)[k := found.future] else old(inflight)
      ensures futures == if found.Create? then old(futures) + [Future(k, caller, None)] else old(futures)
    {
      if k in values { return Hit(values[k]); }
      if k in inflight { return Join(inflight[k]); }
      var future := |futures|;
      futures := futures + [Future(k, caller, None)];
      inflight := inflight[k := future];
      return Create(future);
    }

    method Publish(k: Key, v: Value)
      modifies this
      ensures View() == StoreValue(old(View()), k, v)
      ensures values == old(values)[k := v] && inflight == old(inflight) - {k}
      ensures futures == old(futures) && closed == old(closed)
    {
      values := values[k := v];
      inflight := inflight - {k};
    }

    method Unregister(k: Key)
      modifies this
      ensures View() == DropKey(old(View()), k)
      ensures inflight == old(inflight) - {k}
      ensures values == old(values) && futures == old(futures) && closed == old(closed)
    {
      inflight := inflight - {k};
    }

    method SetOutcome(f: nat, outcome: Outcome)
      requires f < |futures|
      modifies this
      ensures View() == Resolve(old(View()), f, outcome)
      ensures futures == old(futures)[f := old(futures)[f].(outcome := Some(outcome))]
      ensures values == old(values) && inflight == old(inflight) && closed == old(closed)
    {
      futures := futures[f := futures[f].(outcome := Some(outcome))];
    }

    /** load_once, carried on as far as it gets without the other calls.  The loader runs exactly when
        `ran` says so, and its result is kept only when it is a value.  A key in flight is joined: the call
        returns what its future holds, or waits for it. */
    method LoadOnce(k: Key, caller: CallId, loader: Outcome) returns (result: Option<Outcome>, ran: bool)
      requires InflightSound(View())
      modifies this
      ensures ran == (old(closed) || (k !in old(values) && k !in old(inflight)))
      ensures result == if ran then Some(loader)
                        else if k in old(values) then Some(Ok(old(values)[k]))
                        else old(futures)[old(inflight)[k]].outcome
      ensures closed == old(closed) && inflight == old(inflight)
      ensures values == if !old(closed) && ran && loader.Ok? then old(values)[k := loader.value] else old(values)
      ensures futures == if old(closed) || !ran then old(futures) else old(futures) + [Future(k, caller, Some(loader))]
      // The steps of one call, with none of the others in between, do the same.
      ensures forall st: State | st.shared == old(View()) && caller < |st.calls| && st.calls[caller] == Start(k) ::
                var end := Alone(st, caller, loader);
                && end.shared == View() && |end.calls| == |st.calls|
                && StandsAt(end.calls[caller], k, result, if k in old(inflight) then old(inflight)[k] else 0)
                && forall j | 0 <= j < |st.calls| && j != caller :: end.calls[j] == st.calls[j]
    {
      forall st: State | st.shared == View() && caller < |st.calls| && st.calls[caller] == Start(k)
        ensures AsAlone(st, caller, loader, k)
      {
        AloneIs(st, caller, loader, k);
      }
      if closed { return Some(loader), true; }
      var found := FindOrCreate(k, caller);
      match found
      case Hit(v) => return Some(Ok(v)), false;
      case Join(f) => return futures[f].outcome, false;
      case Create(f) =>
        if loader.Raised? {
          SetOutcome(f, loader);
          Unregister(k);
          return Some(loader), true;
        }
        Publish(k, loader.value);
        SetOutcome(f, loader);
        return Some(loader), true;
    }
  }
}
