// Which runs are never lost, and exactly where the protocol's guarantees end.
module ChatRecovery {
  import opened Common
  import opened ChatData
  import opened ChatProtocol
  import opened ChatSafety
  import opened ChatTheorems

  // ---- No queued run is lost ----------------------------------------------------------------

  ghost predicate Requeued(st: State, r: RunId)
  {
    r in st.db.runs && st.db.runs[r].status.Queued? && r in st.db.queue && !HoldsSlot(st.db, r)
  }

  lemma {:induction false} ListOf(s: set<RunId>) returns (ids: seq<RunId>)
    ensures forall r :: r in ids <==> r in s
  {
    ids := [];
    if s != {} {
      var r :| r in s;
      var rest := ListOf(s - {r});
      ids := [r] + rest;
    }
  }

  lemma Snoc(tr: seq<State>, acts: seq<Action>, a: Action)
    requires Path(tr, acts) && Enabled(tr[|acts|], a)
    ensures Path(tr + [Next(tr[|acts|], a)], acts + [a])
  {
    var tr', acts' := tr + [Next(tr[|acts|], a)], acts + [a];
    forall i: nat | i < |acts'| ensures StepAt(tr', acts', i) {
      if i < |acts| { assert StepAt(tr, acts, i) && tr'[i] == tr[i] && tr'[i + 1] == tr[i + 1]; }
    }
  }

  /** A worker that is left alone pushes everything its sweep found. */
  lemma {:induction false} PushAll(tr: seq<State>, acts: seq<Action>, w: WorkerId)
      returns (tr': seq<State>, acts': seq<Action>)
    requires Path(tr, acts) && At(tr[|acts|], w).Pushing?
    ensures Path(tr', acts') && tr <= tr' && acts <= acts'
    ensures var st, st' := tr[|acts|], tr'[|acts'|]; st'.db == st.db.(queue := st.db.queue + At(st, w).ids)
    decreases |At(tr[|acts|], w).ids|
  {
    var st := tr[|acts|];
    var ids := At(st, w).ids;
    if ids == [] {
      assert st.db.queue + ids == st.db.queue;
      return tr, acts;
    }
    Snoc(tr, acts, Push(w));
    tr', acts' := PushAll(tr + [Next(st, Push(w))], acts + [Push(w)], w);
    assert st.db.queue + [ids[0]] + ids[1..] == st.db.queue + ids;
  }

  /** From any reachable state, once the lease of an unfinished queued or active run has passed
      (which the clock allows only when no live worker executes it), one sweep by any idle worker
      leaves the run queued, pushed and without the slot. */
  lemma NoRunIsLost(tr: seq<State>, acts: seq<Action>, w: WorkerId, r: RunId, t: nat)
      returns (tr': seq<State>, acts': seq<Action>)
    requires Behaviour(tr, acts)
    requires var st := tr[|acts|];
             && r in st.db.runs && (st.db.runs[r].status.Queued? || Active(st.db.runs[r].status))
             && At(st, w).Idle? && Enabled(st, Tick(t)) && !Leased(st.db, r, t)
    ensures Behaviour(tr', acts') && tr <= tr' && acts + [Tick(t)] <= acts'
    ensures Requeued(tr'[|acts'|], r)
  {
    var st := tr[|acts|];
    Snoc(tr, acts, Tick(t));
    var tr1, acts1, st1 := tr + [Next(st, Tick(t))], acts + [Tick(t)], Next(st, Tick(t));
    StaleAfterTick(tr, acts, r, t);
    var ids := ListOf(set q | q in st1.db.runs && Stale(st1.db, q));
    Snoc(tr1, acts1, SweepRuns(w, ids));
    tr', acts' := PushAll(tr1 + [Next(st1, SweepRuns(w, ids))], acts1 + [SweepRuns(w, ids)], w);
    SweepRequeues(st1.db, r);
  }

  lemma StaleAfterTick(tr: seq<State>, acts: seq<Action>, r: RunId, t: nat)
    requires Behaviour(tr, acts)
    requires var db := tr[|acts|].db;
             r in db.runs && (db.runs[r].status.Queued? || Active(db.runs[r].status)) && !Leased(db, r, t)
    ensures Stale(tr[|acts|].db.(now := t), r)
  {
    ReachableInv(tr, acts, |acts|);
  }

  lemma SweepRequeues(db: Db, r: RunId)
    requires Stale(db, r)
    ensures Sweep(db).runs[r].status.Queued? && !HoldsSlot(Sweep(db), r)
  {
    if HoldsSlot(db, r) { assert FreedBySweep(db, db.runs[r].session.value); }
  }

  /** The same when the first sweeper dies after committing the sweep and before pushing. */
  lemma LostPushIsRecovered(tr: seq<State>, acts: seq<Action>, w: WorkerId, ids: seq<RunId>, v: WorkerId, r: RunId,
                            t: nat)
      returns (tr': seq<State>, acts': seq<Action>)
    requires Behaviour(tr, acts) && Enabled(tr[|acts|], SweepRuns(w, ids)) && r in ids
    requires var st := Next(Next(tr[|acts|], SweepRuns(w, ids)), Crash(w));
             At(st, v).Idle? && Enabled(st, Tick(t)) && st.db.now + st.db.lease < t
    ensures Behaviour(tr', acts') && acts + [SweepRuns(w, ids), Crash(w), Tick(t)] <= acts'
    ensures Requeued(tr'[|acts'|], r)
  {
    var st := tr[|acts|];
    Snoc(tr, acts, SweepRuns(w, ids));
    var st1 := Next(st, SweepRuns(w, ids));
    Snoc(tr + [st1], acts + [SweepRuns(w, ids)], Crash(w));
    var tr2, acts2 := tr + [st1] + [Next(st1, Crash(w))], acts + [SweepRuns(w, ids)] + [Crash(w)];
    tr', acts' := NoRunIsLost(tr2, acts2, v, r, t);
    assert acts2 + [Tick(t)] == acts + [SweepRuns(w, ids), Crash(w), Tick(t)];
  }

  // ---- A run that was created but never queued ------------------------------------------------

  ghost predicate Mentions(pc: Pc, r: RunId)
  {
    match pc
    case Idle => false
    case Pushing(ids, next) => r in ids || next == Some(r)
    case Popped(q) => q == r
    case Ready(q) => q == r
    case Waiting(q) => q == r
    case Working(q, _) => q == r
    case Closing(q) => q == r
  }

  ghost predicate Known(st: State, r: RunId)
  {
    r in st.db.queue || exists w | w in st.workers :: Mentions(st.workers[w], r)
  }

  ghost predicate Unqueued(db: Db, r: RunId) { r in db.runs ==> db.runs[r].status.Accepted? }

  /** Only runs that have left the accepted state are named by messages and workers. */
  ghost predicate KnownRunsQueued(st: State)
  {
    forall r | Known(st, r) :: !Unqueued(st.db, r)
  }

  lemma StepUnqueued(st: State, a: Action, r: RunId)
    requires Enabled(st, a) && !Unqueued(st.db, r)
    ensures !Unqueued(Next(st, a).db, r)
  {
  }

  lemma StepKnown(st: State, a: Action, r: RunId)
    requires Enabled(st, a) && Known(Next(st, a), r) && !Known(st, r)
    ensures !Unqueued(Next(st, a).db, r)
  {
    var st' := Next(st, a);
    if a.SweepRuns? && r in a.ids { assert Stale(st.db, r); }
    if r !in st'.db.queue {
      var w :| w in st'.workers && Mentions(st'.workers[w], r);
      assert w in st.workers ==> !Mentions(st.workers[w], r);
    }
  }

  lemma {:induction false} ReachableKnown(tr: seq<State>, acts: seq<Action>, i: nat)
    requires Behaviour(tr, acts) && i < |tr|
    ensures KnownRunsQueued(tr[i])
  {
    if i > 0 {
      ReachableKnown(tr, acts, i - 1);
      assert StepAt(tr, acts, i - 1);
      forall r | Known(tr[i], r) ensures !Unqueued(tr[i].db, r) {
        if Known(tr[i - 1], r) {
          StepUnqueued(tr[i - 1], acts[i - 1], r);
        } else {
          StepKnown(tr[i - 1], acts[i - 1], r);
        }
      }
    }
  }

  ghost predicate Moves(a: Action, r: RunId) { a == Mark(r) || (a.Cancel? && a.r == r) }

  lemma StepAccepted(st: State, a: Action, r: RunId)
    requires Enabled(st, a) && r in st.db.runs && st.db.runs[r].status.Accepted? && !Known(st, r) && !Moves(a, r)
    ensures r in Next(st, a).db.runs && Next(st, a).db.runs[r] == st.db.runs[r]
  {
    if a.Begin? || a.Heartbeat? || a.WriteUser? || a.WriteAnswering? || a.WriteAssistant? || a.Finish? || a.Fail? {
      assert a.w in st.workers && !Mentions(st.workers[a.w], r);
    }
  }

  /** A run whose creator died before queueing it has no heartbeat and is invisible to the sweep:
      until someone queues or cancels it, it stays accepted and no younger run of its session is
      ever claimed.  So the guarantee of `NoRunIsLost` starts with queueing, not with creation. */
  lemma {:induction false} AcceptedRunBlocksSession(tr: seq<State>, acts: seq<Action>, i: nat, j: nat, r: RunId,
                                                    q: RunId)
    requires Behaviour(tr, acts) && i <= j < |tr|
    requires Bound(tr[i].db, r) && tr[i].db.runs[r].status.Accepted?
    requires forall k | i <= k < j :: !Moves(acts[k], r)
    ensures r in tr[j].db.runs && tr[j].db.runs[r] == tr[i].db.runs[r]
    ensures InSession(tr[j].db, q, SessionOf(tr[j].db, r)) && Older(tr[j].db, r, q) ==> !Claims(tr, acts, j, q)
    decreases j
  {
    if i < j {
      AcceptedRunBlocksSession(tr, acts, i, j - 1, r, q);
      ReachableKnown(tr, acts, j - 1);
      assert StepAt(tr, acts, j - 1);
      StepAccepted(tr[j - 1], acts[j - 1], r);
    }
    if j < |acts| && InSession(tr[j].db, q, SessionOf(tr[j].db, r)) && Older(tr[j].db, r, q) && Claims(tr, acts, j, q) {
      ClaimFindsOlderFinished(tr, acts, j, q, r);
    }
  }

  lemma StepMoves(st: State, a: Action, r: RunId)
    requires Enabled(st, a) && r in st.db.runs && st.db.runs[r].status.Accepted? && Moves(a, r)
    ensures !Unqueued(Next(st, a).db, r)
  {
  }

  ghost predicate MovedBetween(acts: seq<Action>, i: nat, j: nat, r: RunId)
    requires j <= |acts|
  {
    i < j && (MovedBetween(acts, i, j - 1, r) || Moves(acts[j - 1], r))
  }

  /** A run stays accepted exactly until someone queues or cancels it, and is never accepted again. */
  lemma {:induction false} AcceptedExactly(tr: seq<State>, acts: seq<Action>, i: nat, j: nat, r: RunId)
    requires Behaviour(tr, acts) && i <= j < |tr|
    requires r in tr[i].db.runs && tr[i].db.runs[r].status.Accepted?
    ensures r in tr[j].db.runs
    ensures tr[j].db.runs[r].status.Accepted? <==> !MovedBetween(acts, i, j, r)
    decreases j
  {
    if i < j {
      AcceptedExactly(tr, acts, i, j - 1, r);
      AcceptedStep(tr, acts, j - 1, r);
    }
  }

  lemma AcceptedStep(tr: seq<State>, acts: seq<Action>, k: nat, r: RunId)
    requires Behaviour(tr, acts) && k < |acts| && r in tr[k].db.runs
    ensures r in tr[k + 1].db.runs
    ensures tr[k + 1].db.runs[r].status.Accepted? <==> tr[k].db.runs[r].status.Accepted? && !Moves(acts[k], r)
  {
    assert StepAt(tr, acts, k);
    if tr[k].db.runs[r].status.Accepted? {
      if Moves(acts[k], r) {
        StepMoves(tr[k], acts[k], r);
      } else {
        ReachableKnown(tr, acts, k);
        StepAccepted(tr[k], acts[k], r);
      }
    } else {
      StepUnqueued(tr[k], acts[k], r);
    }
    ExtendsBetween(tr, acts, k, k + 1);
  }

  // ---- Why starting and finalizing must be single steps ----------------------------------------

  /** r is finished and nobody executes it. */
  ghost predicate Over(st: State, r: RunId)
  {
    Bound(st.db, r) && Terminal(st.db.runs[r].status) && !Executed(st, r)
  }

  /** The slot of session `s` is held by a finished run nobody executes. */
  ghost predicate Leaked(st: State, s: SessionId, r: RunId)
  {
    Over(st, r) && HoldsSlot(st.db, r) && SessionOf(st.db, r) == s
  }

  /** No step starts executing a finished session-bound run. */
  lemma StepExecutes(st: State, a: Action, r: RunId, w: WorkerId)
    requires Enabled(st, a) && Bound(st.db, r) && Terminal(st.db.runs[r].status)
    requires Executes(Next(st, a), w, r)
    ensures Executes(st, w, r)
  {
  }

  lemma StepOver(st: State, a: Action, r: RunId)
    requires Over(st, r) && Enabled(st, a)
    ensures Over(Next(st, a), r) && SessionOf(Next(st, a).db, r) == SessionOf(st.db, r)
  {
    StepStatus(st, a, r);
    forall w | w in Next(st, a).workers ensures !Executes(Next(st, a), w, r) {
      if Executes(Next(st, a), w, r) { StepExecutes(st, a, r, w); }
    }
    StepSession(st, a, r);
  }

  lemma StepSession(st: State, a: Action, r: RunId)
    requires Enabled(st, a) && r in st.db.runs
    ensures r in Next(st, a).db.runs && Next(st, a).db.runs[r].session == st.db.runs[r].session
  {
  }

  lemma ExecutingKeepsSlot(st: State, a: Action, r: RunId)
    requires Over(st, r) && Enabled(st, a)
    requires a.Heartbeat? || a.WriteUser? || a.WriteAnswering? || a.WriteAssistant? || a.Finish?
    ensures HoldsSlot(Next(st, a).db, r) <==> HoldsSlot(st.db, r)
  {
    assert !Executes(st, a.w, r);
  }

  lemma StartKeepsSlot(db: Db, q: RunId, r: RunId)
    requires Bound(db, r) && Terminal(db.runs[r].status)
    ensures HoldsSlot(Start(db, q).0, r) <==> HoldsSlot(db, r)
  {
  }

  lemma FinalizeFreesOwnSlot(db: Db, q: RunId, r: RunId)
    requires q in db.runs && Bound(db, r)
    ensures HoldsSlot(Finalize(db, q, Failed), r) <==> HoldsSlot(db, r) && q != r
  {
  }

  /** The slot of a finished run is kept or freed as a failure handler of that run decides, and is never
      taken again. */
  lemma StepSlot(st: State, a: Action, r: RunId)
    requires Over(st, r) && Enabled(st, a)
    ensures HoldsSlot(Next(st, a).db, r) <==> HoldsSlot(st.db, r) && !Fails(st, a, r)
  {
    if a.Heartbeat? || a.WriteUser? || a.WriteAnswering? || a.WriteAssistant? || a.Finish? {
      ExecutingKeepsSlot(st, a, r);
    } else if a.Begin? {
      StartKeepsSlot(st.db, At(st, a.w).run, r);
    } else if a.Fail? {
      FinalizeFreesOwnSlot(st.db, Handles(At(st, a.w)).value, r);
    }
  }

  lemma OverStep(tr: seq<State>, acts: seq<Action>, r: RunId, k: nat)
    requires Path(tr, acts) && k < |acts| && Over(tr[k], r)
    ensures Over(tr[k + 1], r) && SessionOf(tr[k + 1].db, r) == SessionOf(tr[k].db, r)
    ensures HoldsSlot(tr[k + 1].db, r) <==> HoldsSlot(tr[k].db, r) && !Fails(tr[k], acts[k], r)
  {
    assert StepAt(tr, acts, k);
    StepOver(tr[k], acts[k], r);
    StepSlot(tr[k], acts[k], r);
  }

  lemma {:induction false} OverForever(tr: seq<State>, acts: seq<Action>, r: RunId, i: nat)
    requires Path(tr, acts) && Over(tr[0], r) && i < |tr|
    ensures Over(tr[i], r) && SessionOf(tr[i].db, r) == SessionOf(tr[0].db, r)
    ensures HoldsSlot(tr[i].db, r) <==> HoldsSlot(tr[0].db, r) && !FailedBetween(tr, acts, 0, i, r)
  {
    if i > 0 {
      OverForever(tr, acts, r, i - 1);
      OverStep(tr, acts, r, i - 1);
    }
  }

  /** A leaked slot stays leaked exactly as long as no failure handler of some duplicate message
      finalizes that run again; meanwhile no run of the session is claimed. */
  lemma LeakEndsExactly(tr: seq<State>, acts: seq<Action>, s: SessionId, r: RunId, i: nat, q: RunId)
    requires Path(tr, acts) && Leaked(tr[0], s, r) && i < |tr|
    ensures Leaked(tr[i], s, r) <==> !FailedBetween(tr, acts, 0, i, r)
    ensures Leaked(tr[i], s, r) && InSession(tr[i].db, q, s) ==> !Claims(tr, acts, i, q)
  {
    OverForever(tr, acts, r, i);
  }

  /** If a cancellation is committed between the worker's status check and its slot claim, then the slot
      leaks exactly when the claim succeeds, and it succeeds exactly when it would have succeeded before
      the cancellation; the worker then sees the final status and returns. */
  lemma CancelInsideStartLeaks(st: State, w: WorkerId, r: RunId, reason: string)
    requires Inv(st) && At(st, w) == Ready(r) && Bound(st.db, r) && !Terminal(st.db.runs[r].status)
    ensures var db' := RequestCancel(st.db, r, reason);
            && (CanClaim(db', r) <==> CanClaim(st.db, r))
            && (Leaked(State(ClaimSlot(db', r), st.workers[w := Idle]), SessionOf(st.db, r), r) <==> CanClaim(st.db, r))
  {
    var db' := RequestCancel(st.db, r, reason);
    var st' := State(ClaimSlot(db', r), st.workers[w := Idle]);
    if CanClaim(st.db, r) {
      forall v | v in st'.workers ensures !Executes(st', v, r) {
        WaitingNotExecuted(st, v, r);
      }
    }
    CancelKeepsOrder(st.db, r, reason);
  }

  lemma WaitingNotExecuted(st: State, v: WorkerId, r: RunId)
    requires Inv(st) && Bound(st.db, r) && !Active(st.db.runs[r].status)
    ensures !Executes(st, v, r)
  {
  }

  lemma CancelKeepsOrder(db: Db, r: RunId, reason: string)
    requires SlotsSound(db) && Bound(db, r) && !Terminal(db.runs[r].status)
    ensures var db' := RequestCancel(db, r, reason);
            && (CanClaim(db', r) <==> CanClaim(db, r)) && SessionOf(db', r) == SessionOf(db, r)
            && (!CanClaim(db, r) && Terminal(db'.runs[r].status) ==> !HoldsSlot(db', r))
  {
    var db', s := RequestCancel(db, r, reason), SessionOf(db, r);
    assert OlderUnfinishedExists(db', r, s) <==> OlderUnfinishedExists(db, r, s) by {
      if q :| q in db.runs && InSession(db, q, s) && !Terminal(db.runs[q].status) && Older(db, q, r) {
        assert InSession(db', q, s) && Older(db', q, r) && !Terminal(db'.runs[q].status);
      }
      if q :| q in db'.runs && InSession(db', q, s) && !Terminal(db'.runs[q].status) && Older(db', q, r) {
        assert InSession(db, q, s) && Older(db, q, r);
      }
    }
    if db.sessions[s].active == Some(r) { assert Active(db.runs[r].status); }
  }

  /** If a worker dies between the two commits of finalizing a run that nobody else executes, the slot
      leaks exactly when the run held it: always for an executing worker, never for a run cancelled
      before its claim or failed after it was finished. */
  lemma CrashInsideFinalizeLeaks(st: State, w: WorkerId, r: RunId, status: Status)
    requires Inv(st) && Bound(st.db, r) && Terminal(status)
    requires forall v | v != w :: !Executes(st, v, r)
    ensures Leaked(State(Touch(st.db, r, status), st.workers[w := Idle]), SessionOf(st.db, r), r) <==>
              HoldsSlot(st.db, r)
    ensures Executes(st, w, r) ==> HoldsSlot(st.db, r)
    ensures !Active(st.db.runs[r].status) ==> !HoldsSlot(st.db, r)
  {
    var st' := State(Touch(st.db, r, status), st.workers[w := Idle]);
    forall v | v in st'.workers ensures !Executes(st', v, r) {
      assert v != w ==> !Executes(st, v, r);
    }
    if Executes(st, w, r) { assert WorkerSound(st.db, r, st.workers[w].phase); }
  }

  // ---- Why a sweep and a cancellation must be single steps --------------------------------------------

  ghost function StaleRuns(db: Db): set<RunId> { set r | r in db.runs && Stale(db, r) }

  /** What the sweep commits for the runs it has selected. */
  ghost function Requeueing(db: Db, ids: set<RunId>): Db
  {
    db.(runs := map r | r in db.runs ::
          if r in ids then db.runs[r].(status := Queued, heartbeat := Some(db.now)) else db.runs[r],
        sessions := map s | s in db.sessions ::
          if db.sessions[s].active.Some? && db.sessions[s].active.value in ids
             && InSession(db, db.sessions[s].active.value, s)
          then db.sessions[s].(active := None) else db.sessions[s])
  }

  lemma SweepIsRequeueing(db: Db)
    ensures Sweep(db) == Requeueing(db, StaleRuns(db))
  {
    forall s | s in db.sessions
      ensures FreedBySweep(db, s) <==>
              && db.sessions[s].active.Some? && db.sessions[s].active.value in StaleRuns(db)
              && InSession(db, db.sessions[s].active.value, s)
    {
    }
    assert Sweep(db).runs == Requeueing(db, StaleRuns(db)).runs;
    assert Sweep(db).sessions == Requeueing(db, StaleRuns(db)).sessions;
  }

  lemma SweepKeepsCore(st: State)
    requires Core(st)
    ensures Core(State(Sweep(st.db), st.workers)) && Extends(st.db, Sweep(st.db))
  {
    SweepSound(st.db);
    forall v | v in st.workers && st.workers[v].Working?
      ensures WorkerSound(Sweep(st.db), st.workers[v].run, st.workers[v].phase)
    {
      SweepKeepsWorker(st.db, st.workers[v].run, st.workers[v].phase);
    }
  }

  lemma ClaimFreshens(db: Db, r: RunId)
    requires Bound(db, r) && Start(db, r).1.Claimed? && !Stale(db, r)
    ensures StaleRuns(Start(db, r).0) == StaleRuns(db)
  {
    var db' := Start(db, r).0;
    forall q ensures q in StaleRuns(db') <==> q in StaleRuns(db) {}
  }

  /** The sweep commits what it has selected at an earlier state, in which r was stale. */
  lemma LateSweepBreaks(st: State, w: WorkerId, r: RunId, ids: set<RunId>)
    requires Executes(st, w, r) && Bound(st.db, r) && r in ids
    ensures var st' := State(Requeueing(st.db, ids), st.workers);
            !Core(st') && Executes(st', w, r) && !HoldsSlot(st'.db, r)
  {
    var st' := State(Requeueing(st.db, ids), st.workers);
    assert st'.db.runs[r].status.Queued?;
    assert !WorkerSound(st'.db, r, st'.workers[w].phase);
  }

  lemma LateSweepKeepsSlot(db: Db, r: RunId, ids: set<RunId>)
    requires HoldsSlot(db, r) && r !in ids
    ensures HoldsSlot(Requeueing(db, ids), r)
  {
  }

  lemma ClaimExecutes(st: State, w: WorkerId, r: RunId)
    requires Inv(st) && At(st, w) == Ready(r) && Bound(st.db, r) && Start(st.db, r).1.Claimed?
    ensures var begun := Next(st, Begin(w));
            Executes(begun, w, r) && HoldsSlot(begun.db, r) && Bound(begun.db, r) && begun.db == Start(st.db, r).0
  {
  }

  /** If a claim is committed between the select and the commit of another worker's sweep, the invariant
      holds on exactly when the sweep has not selected the claimed run; if it has, the run is executed as
      queued and without its slot. */
  lemma ClaimInsideSweep(st: State, w: WorkerId, r: RunId)
    requires Inv(st) && At(st, w) == Ready(r) && Bound(st.db, r) && Start(st.db, r).1.Claimed?
    ensures var begun := Next(st, Begin(w));
            var st' := State(Requeueing(begun.db, StaleRuns(st.db)), begun.workers);
            && (Core(st') && Extends(st.db, st'.db) <==> !Stale(st.db, r))
            && (Executes(st', w, r) && !HoldsSlot(st'.db, r) <==> Stale(st.db, r))
  {
    var begun := Next(st, Begin(w));
    ClaimExecutes(st, w, r);
    if Stale(st.db, r) {
      LateSweepBreaks(begun, w, r, StaleRuns(st.db));
    } else {
      StepSound(st, Begin(w));
      LateSweepKeepsSlot(begun.db, r, StaleRuns(st.db));
      ClaimFreshens(st.db, r);
      SweepIsRequeueing(begun.db);
      SweepKeepsCore(begun);
      ExtendsCompose(st.db, begun.db, Sweep(begun.db));
    }
  }

  /** What request_run_cancel commits once it has read the run as waiting. */
  function LateCancel(db: Db, r: RunId, reason: string): Db
    requires r in db.runs
  {
    var flagged := db.(runs := db.runs[r := db.runs[r].(cancelRequested := true, cancelReason := reason)]);
    Finalize(flagged, r, CancelledAs(reason))
  }

  lemma LateCancelRow(db: Db, r: RunId, reason: string)
    requires DbSound(db) && Bound(db, r)
    ensures var db' := LateCancel(db, r, reason);
            && OneRow(db, db', r) && db'.now == db.now && db'.lease == db.lease
            && Terminal(db'.runs[r].status)
  {
  }

  lemma LateCancelExactly(st: State, r: RunId, reason: string)
    requires Inv(st) && Bound(st.db, r)
    ensures var st' := State(LateCancel(st.db, r, reason), st.workers);
            && (Core(st') <==> !Executed(st, r)) && (!Executed(st, r) ==> Extends(st.db, st'.db))
  {
    var st' := State(LateCancel(st.db, r, reason), st.workers);
    LateCancelRow(st.db, r, reason);
    if Executed(st, r) {
      var w :| w in st.workers && Executes(st, w, r);
      assert !WorkerSound(st'.db, r, st'.workers[w].phase);
    } else {
      forall v | v in st.workers && st.workers[v].Working? ensures st.workers[v].run != r {
        assert !Executes(st, v, r);
      }
      RowStepSound(st.db, st'.db, st.workers, r);
    }
  }

  lemma RefusedNotExecuted(st: State, w: WorkerId, r: RunId)
    requires Inv(st) && At(st, w) == Ready(r) && Bound(st.db, r) && !Active(st.db.runs[r].status)
    ensures Executed(Next(st, Begin(w)), r) <==> Start(st.db, r).1.Claimed?
  {
    var begun := Next(st, Begin(w));
    if Start(st.db, r).1.Claimed? {
      assert Executes(begun, w, r);
    } else {
      forall v | v in begun.workers ensures !Executes(begun, v, r) {
        if v != w { WaitingNotExecuted(st, v, r); }
      }
    }
  }

  /** If a claim is committed between the read and the write of a cancellation that has found the run
      waiting, the invariant holds on exactly when the claim was refused. */
  lemma ClaimInsideCancel(st: State, w: WorkerId, r: RunId, reason: string)
    requires Inv(st) && At(st, w) == Ready(r) && Bound(st.db, r)
    requires st.db.runs[r].status.Accepted? || st.db.runs[r].status.Queued?
    ensures var begun := Next(st, Begin(w));
            r in begun.db.runs
            && var st' := State(LateCancel(begun.db, r, reason), begun.workers);
               Core(st') && Extends(st.db, st'.db) <==> !Start(st.db, r).1.Claimed?
  {
    var begun := Next(st, Begin(w));
    StepSound(st, Begin(w));
    RefusedNotExecuted(st, w, r);
    LateCancelExactly(begun, r, reason);
    if !Start(st.db, r).1.Claimed? { ExtendsCompose(st.db, begun.db, LateCancel(begun.db, r, reason)); }
  }

  // ---- Why a worker must not fail a run it has not claimed ---------------------------------------------

  /** The state after the handler of a worker that is not executing has finalized r as failed. */
  ghost function Failing(st: State, v: WorkerId, r: RunId): State
    requires r in st.db.runs
  {
    State(Finalize(st.db, r, Failed), st.workers[v := Idle])
  }

  /** Wherever a worker raises before its claim (while it sweeps, pushes, checks, claims or puts the run
      back) or after it has finalized: its handler keeps the invariant exactly when no worker executes
      that run.  This is the guard of `Fail`; a closing worker meets it by itself. */
  lemma FailureIsSafeExactly(st: State, v: WorkerId, r: RunId)
    requires Inv(st) && Bound(st.db, r) && Handles(At(st, v)) == Some(r)
    ensures Inv(Failing(st, v, r)) && Extends(st.db, Failing(st, v, r).db) <==> !Executed(st, r)
    ensures At(st, v).Closing? ==> !Executed(st, r)
  {
    var st' := Failing(st, v, r);
    if At(st, v).Closing? { FinishedNotExecuted(st, r); }
    if Executed(st, r) {
      var w :| w in st.workers && Executes(st, w, r);
      assert Executes(st', w, r) && !Active(st'.db.runs[r].status);
      assert !WorkerSound(st'.db, r, st'.workers[w].phase);
    } else {
      assert Enabled(st, Fail(v)) && st' == Next(st, Fail(v));
      StepSound(st, Fail(v));
    }
  }

  /** Once r is failed nothing is left in front of the next queued run of the session. */
  lemma FailureOpensSession(db: Db, r: RunId, q: RunId)
    requires DbSound(db) && Bound(db, r) && HoldsSlot(db, r)
    requires InSession(db, q, SessionOf(db, r)) && q != r && db.runs[q].status.Queued? && !db.runs[q].cancelRequested
    requires forall p | InSession(db, p, SessionOf(db, r)) && Older(db, p, q) && p != r :: Terminal(db.runs[p].status)
    ensures Start(Finalize(db, r, Failed), q).1.Claimed?
  {
    var db', s := Finalize(db, r, Failed), SessionOf(db, r);
    forall p | p in db'.runs && InSession(db', p, s) && Older(db', p, q) ensures Terminal(db'.runs[p].status) {
      assert p != r ==> InSession(db, p, s) && Older(db, p, q);
    }
  }

  lemma ExecutionGoesOn(st: State, w: WorkerId, v: WorkerId, r: RunId)
    requires Executes(st, w, r) && st.workers[w].phase.Asked? && v != w && r in st.db.runs
    ensures var st' := Failing(st, v, r);
            && Executes(st', w, r) && Enabled(st', WriteAnswering(w))
            && Active(Next(st', WriteAnswering(w)).db.runs[r].status)
  {
    var st' := Failing(st, v, r);
    assert At(st', w) == st.workers[w];
  }

  /** What follows when a run is failed while another worker executes it: the session opens for the next
      run beside that worker, whose next progress write turns the finished run active again. */
  lemma UnownedFailureBreaksSerialization(st: State, w: WorkerId, v: WorkerId, r: RunId, q: RunId)
    requires Inv(st) && Executes(st, w, r) && st.workers[w].phase.Asked? && Handles(At(st, v)) == Some(r)
             && Bound(st.db, r)
    requires InSession(st.db, q, SessionOf(st.db, r)) && q != r && st.db.runs[q].status.Queued?
             && !st.db.runs[q].cancelRequested
    requires forall p | InSession(st.db, p, SessionOf(st.db, r)) && Older(st.db, p, q) && p != r ::
               Terminal(st.db.runs[p].status)
    ensures var st' := Failing(st, v, r);
            && Start(st'.db, q).1.Claimed?
            && Executes(st', w, r) && Enabled(st', WriteAnswering(w))
            && Active(Next(st', WriteAnswering(w)).db.runs[r].status)
  {
    assert WorkerSound(st.db, r, st.workers[w].phase);
    assert HoldsSlot(st.db, r);
    FailureOpensSession(st.db, r, q);
    ExecutionGoesOn(st, w, v, r);
  }
}
