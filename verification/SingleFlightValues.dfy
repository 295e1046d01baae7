// Whose values `load_once` hands out: every outcome a call returns, every value in the cache and every
// resolved future is what some loader of that key returned, whatever close does in between.
module SingleFlightValues {
  import opened Common
  import opened SingleFlight

  /** In this step a loader of call i, run for key k, returns the outcome. */
  predicate Returns(st: State, a: Action, i: CallId, k: Key, o: Outcome)
  {
    && a == Step(i, o) && i < |st.calls| && st.calls[i].key == k
    && (st.calls[i].Loading? || st.calls[i].Uncached?)
  }

  /** One of the first n steps is of this kind, by call i. */
  ghost predicate ReturnedBy(tr: seq<State>, acts: seq<Action>, n: nat, i: CallId, k: Key, o: Outcome)
    requires n <= |acts| < |tr|
  {
    exists m: nat :: m < n && Returns(tr[m], acts[m], i, k, o)
  }

  ghost predicate Returned(tr: seq<State>, acts: seq<Action>, n: nat, k: Key, o: Outcome)
    requires n <= |acts| < |tr|
  {
    exists i :: ReturnedBy(tr, acts, n, i, k, o)
  }

  /** The outcome a call has got hold of. */
  function Got(pc: Pc): Option<Outcome>
  {
    match pc
    case Loaded(_, _, v) => Some(Ok(v))
    case Stored(_, _, v) => Some(Ok(v))
    case Failing(_, _, e) => Some(Raised(e))
    case Failed(_, _, e) => Some(Raised(e))
    case Done(_, o, _) => Some(o)
    case _ => None
  }

  /** Everything that is handed on comes from a loader of its key. */
  ghost predicate FromLoaders(tr: seq<State>, acts: seq<Action>, n: nat)
    requires n <= |acts| < |tr|
  {
    && (forall i | 0 <= i < |tr[n].calls| && Got(tr[n].calls[i]).Some? ::
          Returned(tr, acts, n, tr[n].calls[i].key, Got(tr[n].calls[i]).value))
    && (forall k | k in tr[n].shared.values :: Returned(tr, acts, n, k, Ok(tr[n].shared.values[k])))
    && (forall f | 0 <= f < |tr[n].shared.futures| && tr[n].shared.futures[f].outcome.Some? ::
          Returned(tr, acts, n, tr[n].shared.futures[f].key, tr[n].shared.futures[f].outcome.value))
  }

  lemma ReturnedStays(tr: seq<State>, acts: seq<Action>, n: nat)
    requires n < |acts| < |tr|
    ensures forall k, o :: Returned(tr, acts, n, k, o) ==> Returned(tr, acts, n + 1, k, o)
    ensures forall i, k, o :: ReturnedBy(tr, acts, n, i, k, o) ==> ReturnedBy(tr, acts, n + 1, i, k, o)
  {
    forall k, o | Returned(tr, acts, n, k, o) ensures Returned(tr, acts, n + 1, k, o) {
      var i :| ReturnedBy(tr, acts, n, i, k, o);
      assert ReturnedBy(tr, acts, n + 1, i, k, o);
    }
  }

  /** What a step lets a call get hold of is what its loader returns, or what it had, or what a cached value or
      a future of its key holds. */
  lemma GotFrom(st: State, i: CallId, loaded: Outcome)
    requires FuturesSound(st) && Enabled(st, Step(i, loaded))
    ensures var pc, pc' := st.calls[i], Next(st, Step(i, loaded)).calls[i];
            && pc'.key == pc.key
            && (Got(pc').Some? ==>
                  || Returns(st, Step(i, loaded), i, pc.key, Got(pc').value)
                  || Got(pc) == Got(pc')
                  || (pc.key in st.shared.values && Got(pc').value == Ok(st.shared.values[pc.key]))
                  || exists f: nat :: f < |st.shared.futures| && st.shared.futures[f].key == pc.key
                                      && st.shared.futures[f].outcome == Got(pc'))
  {
    assert CallSound(st.shared, i, st.calls[i]);
    StepGrows(st.shared, i, st.calls[i], loaded);
  }

  /** What a step stores or resolves is what the stepping call has got hold of, under its key. */
  lemma StoredFrom(st: State, a: Action)
    requires FuturesSound(st) && Enabled(st, a)
    ensures forall k | k in Next(st, a).shared.values ::
              || (k in st.shared.values && Next(st, a).shared.values[k] == st.shared.values[k])
              || (a.Step? && st.calls[a.call].key == k
                  && Got(st.calls[a.call]) == Some(Ok(Next(st, a).shared.values[k])))
    ensures forall f: nat | f < |Next(st, a).shared.futures| && Next(st, a).shared.futures[f].outcome.Some? ::
              || (f < |st.shared.futures| && st.shared.futures[f] == Next(st, a).shared.futures[f])
              || (a.Step? && st.calls[a.call].key == Next(st, a).shared.futures[f].key
                  && Got(st.calls[a.call]) == Next(st, a).shared.futures[f].outcome)
  {
    if a.Step? { assert CallSound(st.shared, a.call, st.calls[a.call]); }
  }

  lemma FromLoadersCalls(tr: seq<State>, acts: seq<Action>, n: nat, i: nat)
    requires Behaviour(tr, acts) && n < |acts| && FromLoaders(tr, acts, n)
    requires i < |tr[n + 1].calls| && Got(tr[n + 1].calls[i]).Some?
    ensures Returned(tr, acts, n + 1, tr[n + 1].calls[i].key, Got(tr[n + 1].calls[i]).value)
  {
    var st, a := tr[n], acts[n];
    ReachableFutures(tr, acts, n);
    ReturnedStays(tr, acts, n);
    if a.Step? && a.call == i {
      GotFrom(st, i, a.loaded);
      if Returns(st, a, i, st.calls[i].key, Got(tr[n + 1].calls[i]).value) {
        assert ReturnedBy(tr, acts, n + 1, i, st.calls[i].key, Got(tr[n + 1].calls[i]).value);
      }
    }
  }

  /** Over every behaviour, closed or not: an outcome that a call returns, a value in the cache and the outcome
      of a future each come from a loader of their key. */
  lemma {:induction false} OutcomesFromLoaders(tr: seq<State>, acts: seq<Action>, n: nat)
    requires Behaviour(tr, acts) && n <= |acts|
    ensures FromLoaders(tr, acts, n)
  {
    if n > 0 {
      OutcomesFromLoaders(tr, acts, n - 1);
      ReachableFutures(tr, acts, n - 1);
      ReturnedStays(tr, acts, n - 1);
      StoredFrom(tr[n - 1], acts[n - 1]);
      forall i | 0 <= i < |tr[n].calls| && Got(tr[n].calls[i]).Some?
        ensures Returned(tr, acts, n, tr[n].calls[i].key, Got(tr[n].calls[i]).value)
      {
        FromLoadersCalls(tr, acts, n - 1, i);
      }
    }
  }

  /** The call has no loader of its own to run any more, or got this from it. */
  predicate KeepsOwn(pc: Pc, k: Key, o: Outcome) { pc.key == k && Got(pc) == Some(o) }

  lemma OwnStep(st: State, a: Action, i: CallId, k: Key, o: Outcome)
    requires Enabled(st, a) && i < |st.calls|
    requires KeepsOwn(st.calls[i], k, o) || Returns(st, a, i, k, o)
    ensures KeepsOwn(Next(st, a).calls[i], k, o)
  {
  }

  /** A call that runs its own loader returns what that loader returned. */
  lemma {:induction false} OwnLoaderDecides(tr: seq<State>, acts: seq<Action>, m: nat, n: nat, i: CallId, k: Key,
                                            o: Outcome)
    requires Behaviour(tr, acts) && m < n <= |acts| && Returns(tr[m], acts[m], i, k, o)
    ensures i < |tr[n].calls| && KeepsOwn(tr[n].calls[i], k, o)
    decreases n
  {
    ReachableFutures(tr, acts, m);
    ReachableFutures(tr, acts, n - 1);
    if m < n - 1 { OwnLoaderDecides(tr, acts, m, n - 1, i, k, o); }
    OwnStep(tr[n - 1], acts[n - 1], i, k, o);
  }

  /** In every behaviour, also across a close: a call that has returned returns what a loader of its key
      returned, its own loader if it ran one. */
  lemma ReturnsALoadersOutcome(tr: seq<State>, acts: seq<Action>, i: CallId)
    requires Behaviour(tr, acts) && i < |tr[|acts|].calls| && tr[|acts|].calls[i].Done?
    ensures var done := tr[|acts|].calls[i];
            && Returned(tr, acts, |acts|, done.key, done.outcome)
            && forall k, o :: ReturnedBy(tr, acts, |acts|, i, k, o) ==> k == done.key && o == done.outcome
  {
    OutcomesFromLoaders(tr, acts, |acts|);
    var done := tr[|acts|].calls[i];
    assert Got(done) == Some(done.outcome);
    forall k, o | ReturnedBy(tr, acts, |acts|, i, k, o) ensures k == done.key && o == done.outcome {
      var m: nat :| m < |acts| && Returns(tr[m], acts[m], i, k, o);
      OwnLoaderDecides(tr, acts, m, |acts|, i, k, o);
    }
  }
}
