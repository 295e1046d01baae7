// Loaders of `load_once` that end with an exception `except Exception` does not catch, such as
// KeyboardInterrupt: their futures are never resolved.  Which calls that strands, exactly, however many
// loaders end like that.
module SingleFlightAborts {
  import opened SingleFlight

  /** A step of the cache, or the loader of a call aborts. */
  datatype Event = Do(action: Action) | Abort(call: CallId, error: Error)

  predicate Possible(st: State, ev: Event)
  {
    match ev
    case Do(a) => Enabled(st, a)
    case Abort(i, _) => i < |st.calls| && st.calls[i].Loading?
  }

  /** The call of an aborted loader is over and nothing else happens. */
  function After(st: State, ev: Event): State
    requires Possible(st, ev)
  {
    match ev
    case Do(a) => Next(st, a)
    case Abort(i, e) => st.(calls := st.calls[i := Done(st.calls[i].key, Raised(e), false)])
  }

  ghost predicate StepAt(tr: seq<State>, evs: seq<Event>, m: nat)
    requires m < |evs| < |tr|
  {
    Possible(tr[m], evs[m]) && tr[m + 1] == After(tr[m], evs[m])
  }

  ghost predicate Runs(tr: seq<State>, evs: seq<Event>)
  {
    |tr| == |evs| + 1 && Initial(tr[0]) && forall m: nat | m < |evs| :: StepAt(tr, evs, m)
  }

  // ---- The same run without the aborts -------------------------------------------------------------

  /** The calls whose loaders have aborted, with where they stood. */
  function Gone(tr: seq<State>, evs: seq<Event>, n: nat): map<CallId, Pc>
    requires n <= |evs| < |tr|
  {
    if n == 0 then map[]
    else
      var before := Gone(tr, evs, n - 1);
      if evs[n - 1].Abort? && evs[n - 1].call < |tr[n - 1].calls|
      then before[evs[n - 1].call := tr[n - 1].calls[evs[n - 1].call]]
      else before
  }

  /** As if those calls still ran their loaders. */
  function Revived(st: State, gone: map<CallId, Pc>): State
  {
    st.(calls := seq(|st.calls|, i requires 0 <= i < |st.calls| => if i in gone then gone[i] else st.calls[i]))
  }

  ghost predicate GoneSound(st: State, gone: map<CallId, Pc>)
  {
    forall i | i in gone :: i < |st.calls| && gone[i].Loading? && st.calls[i].Done?
  }

  lemma ReviveDo(st: State, gone: map<CallId, Pc>, a: Action)
    requires GoneSound(st, gone) && Enabled(st, a)
    ensures Enabled(Revived(st, gone), a) && Next(Revived(st, gone), a) == Revived(Next(st, a), gone)
    ensures GoneSound(Next(st, a), gone)
  {
    assert Next(Revived(st, gone), a).calls == Revived(Next(st, a), gone).calls;
  }

  /** An abort is no step of the revived run. */
  lemma ReviveAbort(st: State, gone: map<CallId, Pc>, i: CallId, e: Error)
    requires GoneSound(st, gone) && Possible(st, Abort(i, e))
    ensures var st', gone' := After(st, Abort(i, e)), gone[i := st.calls[i]];
            i !in gone && GoneSound(st', gone') && Revived(st', gone') == Revived(st, gone)
  {
    var st', gone' := After(st, Abort(i, e)), gone[i := st.calls[i]];
    assert Revived(st', gone').calls == Revived(st, gone).calls;
  }

  lemma InitialSound(st: State)
    requires Initial(st)
    ensures GoneSound(st, map[]) && Revived(st, map[]) == st && FuturesSound(st) && Sharing(st)
  {
    assert Revived(st, map[]).calls == st.calls;
  }

  ghost predicate Sound(st: State, gone: map<CallId, Pc>)
  {
    && GoneSound(st, gone) && FuturesSound(Revived(st, gone))
    && (!st.shared.closed ==> Sharing(Revived(st, gone)))
  }

  lemma DoSound(st: State, gone: map<CallId, Pc>, a: Action)
    requires Sound(st, gone) && Enabled(st, a)
    ensures Sound(Next(st, a), gone)
  {
    ReviveDo(st, gone, a);
    FuturesStep(Revived(st, gone), a);
    if !Next(st, a).shared.closed {
      if st.shared.closed { ClosedStays(st, a); }
      SharingStep(Revived(st, gone), a);
    }
  }

  lemma {:induction false} RunSound(tr: seq<State>, evs: seq<Event>, n: nat)
    requires Runs(tr, evs) && n <= |evs|
    ensures Sound(tr[n], Gone(tr, evs, n)) && |tr[n].calls| == |tr[0].calls|
  {
    if n == 0 {
      InitialSound(tr[0]);
    } else {
      RunSound(tr, evs, n - 1);
      assert StepAt(tr, evs, n - 1);
      match evs[n - 1]
      case Do(a) => DoSound(tr[n - 1], Gone(tr, evs, n - 1), a);
      case Abort(i, e) => ReviveAbort(tr[n - 1], Gone(tr, evs, n - 1), i, e);
    }
  }

  // ---- Who is stranded -------------------------------------------------------------------------------

  predicate WaitsFor(pc: Pc, f: nat) { pc.Wait? && pc.future == f }

  /** In this step call c looks its key up, finds no value, and finds the key in flight for f. */
  predicate Joins(st: State, ev: Event, c: CallId, f: nat)
  {
    && ev.Do? && ev.action.Step? && ev.action.call == c && c < |st.calls| && st.calls[c].Look?
    && st.calls[c].key !in st.shared.values && st.calls[c].key in st.shared.inflight
    && st.shared.inflight[st.calls[c].key] == f
  }

  predicate Unresolved(s: Shared, f: nat) { f < |s.futures| && s.futures[f].outcome.None? }

  /** The future of an aborted loader stays pending. */
  lemma GoneUnresolved(st: State, gone: map<CallId, Pc>, i: CallId)
    requires GoneSound(st, gone) && FuturesSound(Revived(st, gone)) && i in gone
    ensures Unresolved(st.shared, gone[i].future)
  {
    var rv := Revived(st, gone);
    assert rv.calls[i] == gone[i] && CallSound(rv.shared, i, rv.calls[i]);
    assert FutureSound(rv.shared, rv.calls, gone[i].future);
  }

  lemma {:induction false} GoneStays(tr: seq<State>, evs: seq<Event>, m: nat, n: nat)
    requires Runs(tr, evs) && m < n <= |evs| && evs[m].Abort?
    ensures evs[m].call < |tr[m].calls|
    ensures evs[m].call in Gone(tr, evs, n) && Gone(tr, evs, n)[evs[m].call] == tr[m].calls[evs[m].call]
    decreases n
  {
    assert StepAt(tr, evs, m);
    if m + 1 < n {
      GoneStays(tr, evs, m, n - 1);
      RunSound(tr, evs, n - 1);
      assert StepAt(tr, evs, n - 1);
    }
  }

  /** A call waits for an unresolved future after a step exactly when it did before or joins it now. */
  lemma WaitsStep(st: State, ev: Event, f: nat, c: CallId)
    requires Unresolved(st.shared, f) && Possible(st, ev) && c < |st.calls|
    ensures |After(st, ev).calls| == |st.calls|
    ensures WaitsFor(After(st, ev).calls[c], f) <==> WaitsFor(st.calls[c], f) || Joins(st, ev, c, f)
  {
  }

  /** Some of the steps from m to n is a look-up in which call c joins f. */
  predicate JoinedBetween(tr: seq<State>, evs: seq<Event>, c: CallId, f: nat, m: nat, n: nat)
    requires n <= |evs| < |tr|
    decreases n
  {
    m < n && (JoinedBetween(tr, evs, c, f, m, n - 1) || Joins(tr[n - 1], evs[n - 1], c, f))
  }

  /** For each aborted loader: stranded on its future are exactly the calls that waited for it at the abort
      and those that have looked the key up since while it was in flight for that future. */
  lemma {:induction false} StrandedExactly(tr: seq<State>, evs: seq<Event>, m: nat, n: nat, c: CallId)
    requires Runs(tr, evs) && m < n <= |evs| && evs[m].Abort? && c < |tr[0].calls|
    ensures |tr[m].calls| == |tr[n].calls| == |tr[0].calls| && Possible(tr[m], evs[m])
    ensures var f := tr[m].calls[evs[m].call].future;
            WaitsFor(tr[n].calls[c], f) <==> WaitsFor(tr[m].calls[c], f) || JoinedBetween(tr, evs, c, f, m, n)
    decreases n
  {
    RunSound(tr, evs, m);
    RunSound(tr, evs, n);
    assert StepAt(tr, evs, m);
    if m + 1 < n {
      var f := tr[m].calls[evs[m].call].future;
      StrandedExactly(tr, evs, m, n - 1, c);
      RunSound(tr, evs, n - 1);
      GoneStays(tr, evs, m, n - 1);
      GoneUnresolved(tr[n - 1], Gone(tr, evs, n - 1), evs[m].call);
      assert StepAt(tr, evs, n - 1);
      WaitsStep(tr[n - 1], evs[n - 1], f, c);
    }
  }

  // ---- All others return -----------------------------------------------------------------------------

  /** The call waits for the future of an aborted loader. */
  ghost predicate Stranded(pc: Pc, gone: map<CallId, Pc>)
  {
    pc.Wait? && exists i :: i in gone && gone[i].Loading? && gone[i].future == pc.future
  }

  /** The call has not returned and is not stranded. */
  ghost predicate Unserved(st: State, gone: map<CallId, Pc>, c: CallId)
  {
    c < |st.calls| && !st.calls[c].Done? && !Stranded(st.calls[c], gone)
  }

  ghost predicate CanStep(st: State, c: CallId) { forall r: Outcome :: Enabled(st, Step(c, r)) }

  lemma StrandedStandsStill(st: State, gone: map<CallId, Pc>, c: CallId, r: Outcome)
    requires Sound(st, gone) && c < |st.calls| && Stranded(st.calls[c], gone)
    ensures !Enabled(st, Step(c, r))
  {
    var i :| i in gone && gone[i].Loading? && gone[i].future == st.calls[c].future;
    GoneUnresolved(st, gone, i);
  }

  lemma OneCanStep(st: State, gone: map<CallId, Pc>, c: CallId) returns (d: CallId)
    requires Sound(st, gone) && Unserved(st, gone, c)
    ensures CanStep(st, d)
  {
    d := c;
    var rv := Revived(st, gone);
    assert rv.calls[c] == st.calls[c] && CallSound(rv.shared, c, rv.calls[c]);
    if st.calls[c].Wait? && st.shared.futures[st.calls[c].future].outcome.None? {
      var f := st.calls[c].future;
      assert FutureSound(rv.shared, rv.calls, f);
      d := st.shared.futures[f].creator;
      assert CallSound(rv.shared, d, rv.calls[d]);
    }
  }

  /** Steps of calls and aborts; only the two steps of close are left out. */
  function CallEvents(evs: seq<Event>): nat
  {
    if evs == [] then 0
    else
      var ev := evs[|evs| - 1];
      CallEvents(evs[..|evs| - 1]) + if ev.Abort? || ev.action.Step? then 1 else 0
  }

  lemma EventWork(st: State, ev: Event)
    requires Possible(st, ev)
    ensures Work(After(st, ev).calls) + (if ev.Abort? || ev.action.Step? then 1 else 0) <= Work(st.calls)
  {
    match ev
    case Do(a) => WorkStep(st, a);
    case Abort(i, e) => WorkDrops(st.calls, i, Done(st.calls[i].key, Raised(e), false));
  }

  lemma {:induction false} EventsSpent(tr: seq<State>, evs: seq<Event>, n: nat)
    requires Runs(tr, evs) && n <= |evs|
    ensures CallEvents(evs[..n]) + Work(tr[n].calls) <= Work(tr[0].calls)
  {
    if n > 0 {
      EventsSpent(tr, evs, n - 1);
      assert evs[..n][..n - 1] == evs[..n - 1];
      assert StepAt(tr, evs, n - 1);
      EventWork(tr[n - 1], evs[n - 1]);
    }
  }

  lemma EventsBounded(tr: seq<State>, evs: seq<Event>)
    requires Runs(tr, evs)
    ensures CallEvents(evs) <= 6 * |tr[0].calls|
  {
    EventsSpent(tr, evs, |evs|);
    assert evs[..|evs|] == evs;
    WorkBound(tr[0].calls);
  }

  /** However many loaders abort: a stranded call never steps again, and every other call returns, because
      as long as one of them has not some call can step, and no run has more than six steps per call. */
  lemma OthersReturn(tr: seq<State>, evs: seq<Event>)
    requires Runs(tr, evs)
    ensures CallEvents(evs) <= 6 * |tr[0].calls|
    ensures var end, gone := tr[|evs|], Gone(tr, evs, |evs|);
            && (forall c: CallId, r: Outcome | c < |end.calls| && Stranded(end.calls[c], gone) ::
                  !Enabled(end, Step(c, r)))
            && ((exists c :: Unserved(end, gone, c)) ==> exists c :: CanStep(end, c))
  {
    var end, gone := tr[|evs|], Gone(tr, evs, |evs|);
    RunSound(tr, evs, |evs|);
    forall c: CallId, r: Outcome | c < |end.calls| && Stranded(end.calls[c], gone) ensures !Enabled(end, Step(c, r)) {
      StrandedStandsStill(end, gone, c, r);
    }
    if c :| Unserved(end, gone, c) {
      var d := OneCanStep(end, gone, c);
    }
    EventsBounded(tr, evs);
  }

  // ---- While the cache is open ------------------------------------------------------------------------

  /** The key is in flight for f, has no value, and no call is left that would take it out of flight. */
  ghost predicate Stuck(st: State, k: Key, f: nat)
  {
    && k in st.shared.inflight && st.shared.inflight[k] == f && k !in st.shared.values
    && forall j | 0 <= j < |st.calls| && Flying(st.calls[j]) :: st.calls[j].key != k
  }

  lemma AbortSticks(st: State, gone: map<CallId, Pc>, i: CallId, e: Error)
    requires GoneSound(st, gone) && Sharing(Revived(st, gone)) && Possible(st, Abort(i, e))
    ensures Stuck(After(st, Abort(i, e)), st.calls[i].key, st.calls[i].future)
  {
    var k, rv := st.calls[i].key, Revived(st, gone);
    assert rv.calls[i] == st.calls[i] && CallShares(rv.shared, rv.calls[i]) && KeyShares(rv, k);
    assert CallSound(rv.shared, i, rv.calls[i]);
    forall j | 0 <= j < |st.calls| && j != i && Flying(st.calls[j]) ensures st.calls[j].key != k {
      assert rv.calls[j] == st.calls[j] && CallShares(rv.shared, rv.calls[j]) && CallSound(rv.shared, j, rv.calls[j]);
    }
  }

  /** Only the clearing of a closed cache ends that. */
  lemma StuckStep(st: State, ev: Event, k: Key, f: nat)
    requires Stuck(st, k, f) && Possible(st, ev) && ev != Do(Clear)
    ensures Stuck(After(st, ev), k, f)
  {
  }

  /** After an abort in an open cache, until close clears it, every call that looks the key up joins the
      orphaned future: the key is lost to all of them. */
  lemma {:induction false} KeyIsLost(tr: seq<State>, evs: seq<Event>, m: nat, n: nat)
    requires Runs(tr, evs) && m < n <= |evs| && evs[m].Abort? && !tr[m].shared.closed
    requires forall p | m < p < n :: evs[p] != Do(Clear)
    ensures Possible(tr[m], evs[m])
    ensures var pc := tr[m].calls[evs[m].call];
            && Stuck(tr[n], pc.key, pc.future)
            && forall c: CallId, r: Outcome | c < |tr[n].calls| && tr[n].calls[c] == Look(pc.key) ::
                 Joins(tr[n], Do(Step(c, r)), c, pc.future)
    decreases n
  {
    assert StepAt(tr, evs, m);
    if m + 1 == n {
      RunSound(tr, evs, m);
      AbortSticks(tr[m], Gone(tr, evs, m), evs[m].call, evs[m].error);
    } else {
      KeyIsLost(tr, evs, m, n - 1);
      assert StepAt(tr, evs, n - 1);
      StuckStep(tr[n - 1], evs[n - 1], tr[m].calls[evs[m].call].key, tr[m].calls[evs[m].call].future);
    }
  }

  // ---- A run in which a call is stranded ----------------------------------------------------------------

  function Steps(acts: seq<Action>): (evs: seq<Event>)
    ensures |evs| == |acts|
  {
    seq(|acts|, i requires 0 <= i < |acts| => Do(acts[i]))
  }

  /** Runs without aborts are the behaviours of the cache. */
  lemma BehavioursRun(tr: seq<State>, acts: seq<Action>)
    requires Behaviour(tr, acts)
    ensures Runs(tr, Steps(acts))
  {
    forall m: nat | m < |acts| ensures StepAt(tr, Steps(acts), m) {}
  }

  lemma Snoc(tr: seq<State>, evs: seq<Event>, ev: Event)
    requires Runs(tr, evs) && Possible(tr[|evs|], ev)
    ensures Runs(tr + [After(tr[|evs|], ev)], evs + [ev])
  {
    var tr', evs' := tr + [After(tr[|evs|], ev)], evs + [ev];
    forall m: nat | m < |evs'| ensures StepAt(tr', evs', m) {
      if m < |evs| { assert StepAt(tr, evs, m) && tr'[m] == tr[m] && tr'[m + 1] == tr[m + 1]; }
    }
  }

  lemma LateCallerStranded(k: Key, e: Error)
    ensures var st := LateCaller(k);
            && Possible(st, Abort(0, e))
            && var st' := After(st, Abort(0, e));
            && Possible(st', Do(Step(1, Ok(0)))) && Joins(st', Do(Step(1, Ok(0))), 1, 0)
            && WaitsFor(After(st', Do(Step(1, Ok(0)))).calls[1], 0)
  {
  }

  /** Call 0, which loads key k for future 0, aborts at step m, and call c does not wait for that future
      then but does at the end. */
  ghost predicate StrandedLater(tr: seq<State>, evs: seq<Event>, m: nat, c: CallId, k: Key, e: Error)
  {
    && Runs(tr, evs) && m + 1 < |evs| && evs[m] == Abort(0, e) && tr[m].calls != [] && tr[m].calls[0] == Loading(k, 0)
    && c < |tr[m].calls| && !WaitsFor(tr[m].calls[c], 0) && c < |tr[|evs|].calls| && WaitsFor(tr[|evs|].calls[c], 0)
  }

  lemma StrandedRun(tr: seq<State>, evs: seq<Event>, k: Key, e: Error)
    requires Runs(tr, evs) && tr[|evs|] == LateCaller(k)
    ensures exists tr': seq<State>, evs': seq<Event> :: StrandedLater(tr', evs', |evs|, 1, k, e)
  {
    LateCallerStranded(k, e);
    var st1 := After(LateCaller(k), Abort(0, e));
    var st2 := After(st1, Do(Step(1, Ok(0))));
    Snoc(tr, evs, Abort(0, e));
    Snoc(tr + [st1], evs + [Abort(0, e)], Do(Step(1, Ok(0))));
    assert StrandedLater(tr + [st1] + [st2], evs + [Abort(0, e)] + [Do(Step(1, Ok(0)))], |evs|, 1, k, e);
  }

  /** There is a run in which a loader aborts and another call of the key, which only then looks it up, is
      stranded. */
  lemma StrandingReachable(k: Key, e: Error)
    ensures exists tr: seq<State>, evs: seq<Event>, m: nat, c: CallId :: StrandedLater(tr, evs, m, c, k, e)
  {
    LateCallerReachable(k);
    var tr: seq<State>, acts: seq<Action> :| Behaviour(tr, acts) && tr[|acts|] == LateCaller(k);
    BehavioursRun(tr, acts);
    StrandedRun(tr, Steps(acts), k, e);
  }
}
