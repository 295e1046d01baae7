// Paths of the chat-run protocol on which nothing fails: no crash, no cancellation, no exception, and runs
// end as completed.
module ChatPaths {
  import opened Common
  import opened ChatData
  import opened ChatProtocol
  import opened ChatSafety
  import opened ChatTheorems
  import opened ChatRecovery

  predicate Smooth(a: Action)
  {
    !a.Crash? && !a.Cancel? && !a.Fail? && (a.Finish? ==> a.status.Completed?)
  }

  ghost predicate SmoothPath(tr: seq<State>, acts: seq<Action>)
  {
    Path(tr, acts) && forall i: nat | i < |acts| :: Smooth(acts[i])
  }

  ghost predicate Leads(start: State, end: State)
  {
    exists tr: seq<State>, acts: seq<Action> :: SmoothPath(tr, acts) && tr[0] == start && tr[|acts|] == end
  }

  ghost predicate Reachable(st: State)
  {
    exists tr: seq<State>, acts: seq<Action> :: Behaviour(tr, acts) && tr[|acts|] == st
  }

  lemma LeadsReaches(lease: nat, st: State)
    requires Leads(Init(lease), st)
    ensures Reachable(st)
  {
    var tr: seq<State>, acts: seq<Action> :| SmoothPath(tr, acts) && tr[0] == Init(lease) && tr[|acts|] == st;
    assert Behaviour(tr, acts);
  }

  lemma ReachableSound(st: State)
    requires Reachable(st)
    ensures Inv(st)
  {
    var tr: seq<State>, acts: seq<Action> :| Behaviour(tr, acts) && tr[|acts|] == st;
    ReachableInv(tr, acts, |acts|);
  }

  lemma LeadsNowhere(st: State)
    ensures Leads(st, st)
  {
    var tr, acts: seq<Action> := [st], [];
    assert SmoothPath(tr, acts) && tr[0] == st && tr[|acts|] == st;
  }

  lemma LeadsOn(start: State, st: State, a: Action, next: State)
    requires Leads(start, st) && Enabled(st, a) && Smooth(a) && next == Next(st, a)
    ensures Leads(start, next)
  {
    var tr: seq<State>, acts: seq<Action> :| SmoothPath(tr, acts) && tr[0] == start && tr[|acts|] == st;
    Snoc(tr, acts, a);
    var tr', acts' := tr + [Next(tr[|acts|], a)], acts + [a];
    assert SmoothPath(tr', acts') && tr'[0] == start && tr'[|acts'|] == next;
  }

  lemma NothingStale(db: Db)
    requires forall r | r in db.runs :: !Stale(db, r)
    ensures Sweep(db) == db
  {
  }

  // ---- Steps in general ------------------------------------------------------------------------------

  lemma LeadsToPopped(start: State, st: State, w: WorkerId)
    requires Leads(start, st) && At(st, w).Idle? && st.db.queue != []
    ensures Leads(start, State(st.db.(queue := st.db.queue[1..]), st.workers[w := Popped(st.db.queue[0])]))
  {
    LeadsOn(start, st, Pop(w), State(st.db.(queue := st.db.queue[1..]), st.workers[w := Popped(st.db.queue[0])]));
  }

  /** A worker takes a message, sweeps, finds nothing stale, and is about to start the run. */
  lemma LeadsToReady(start: State, st: State, w: WorkerId, r: RunId)
    requires Leads(start, st) && At(st, w) == Popped(r) && forall q | q in st.db.runs :: !Stale(st.db, q)
    ensures Leads(start, State(st.db, st.workers[w := Ready(r)]))
  {
    var swept := State(st.db, st.workers[w := Pushing([], Some(r))]);
    NothingStale(st.db);
    LeadsOn(start, st, SweepRuns(w, []), swept);
    LeadsOn(start, swept, Push(w), State(st.db, swept.workers[w := Ready(r)]));
    assert swept.workers[w := Ready(r)] == st.workers[w := Ready(r)];
  }

  lemma LeadsToMarked(start: State, st: State, r: RunId)
    requires Leads(start, st) && r in st.db.runs
    ensures Leads(start, State(MarkQueued(st.db, r), st.workers))
  {
    LeadsOn(start, st, Mark(r), State(MarkQueued(st.db, r), st.workers));
  }

  lemma LeadsToPushed(start: State, st: State, w: WorkerId, r: RunId)
    requires Leads(start, st) && At(st, w) == Pushing([r], None)
    ensures Leads(start, State(Enqueue(st.db, r), st.workers[w := Idle]))
  {
    var pushed := State(Enqueue(st.db, r), st.workers[w := Pushing([], None)]);
    assert [r][1..] == [];
    LeadsOn(start, st, Push(w), pushed);
    LeadsOn(start, pushed, Push(w), State(pushed.db, pushed.workers[w := Idle]));
    assert pushed.workers[w := Idle] == st.workers[w := Idle];
  }

  /** A worker starts a run it can claim. */
  lemma LeadsToWorking(start: State, st: State, w: WorkerId, r: RunId)
    requires Leads(start, st) && At(st, w) == Ready(r) && r in st.db.runs && CanClaim(st.db, r)
    requires !Terminal(st.db.runs[r].status) && !st.db.runs[r].cancelRequested
    ensures Leads(start, State(Touch(ClaimSlot(st.db, r), r, Retrieving), st.workers[w := Working(r, Fresh)]))
  {
    LeadsOn(start, st, Begin(w), State(Touch(ClaimSlot(st.db, r), r, Retrieving), st.workers[w := Working(r, Fresh)]));
  }

  lemma LeadsToAsked(start: State, st: State, w: WorkerId, r: RunId, db: Db)
    requires Leads(start, st) && At(st, w) == Working(r, Fresh) && r in st.db.runs
    requires db == Say(st.db, r, User, st.db.runs[r].question)
    ensures Leads(start, State(db, st.workers[w := Working(r, Asked)]))
  {
    LeadsOn(start, st, WriteUser(w), State(db, st.workers[w := Working(r, Asked)]));
  }

  lemma LeadsToAnswered(start: State, st: State, w: WorkerId, r: RunId, text: string, db: Db)
    requires Leads(start, st) && At(st, w) == Working(r, Asked) && r in st.db.runs
    requires db == Say(st.db, r, Assistant, text)
    ensures Leads(start, State(db, st.workers[w := Working(r, Answered)]))
  {
    LeadsOn(start, st, WriteAssistant(w, text), State(db, st.workers[w := Working(r, Answered)]));
  }
}
