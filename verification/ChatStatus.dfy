// How the status of a run moves: which step takes it where, and what a completed run leaves behind.
module ChatStatus {
  import opened Common
  import opened ChatData
  import opened ChatProtocol
  import opened ChatSafety
  import opened ChatTheorems
  import opened ChatMessages

  /** A worker is about to start this run. */
  ghost predicate Starting(st: State, a: Action, r: RunId)
  {
    a.Begin? && a.w in st.workers && st.workers[a.w] == Ready(r)
  }

  ghost predicate Waits(s: Status) { s == Accepted || s == Queued }

  /** The move of a step, if it moves the status of this run at all:
      queueing an accepted run, a cancellation of a waiting one, a sweep over an expired one, a start, the
      progress and the end of its execution, or a failure handler. */
  ghost predicate Moves(st: State, a: Action, r: RunId, next: Status)
    requires r in st.db.runs
  {
    var run := st.db.runs[r];
    || (a == Mark(r) && run.status == Accepted && next == Queued)
    || (a.Cancel? && a.r == r && Waits(run.status)
        && next == if a.reason == CLIENT_ABORTED then Failed else Cancelled)
    || (a.SweepRuns? && run.status in {Queued, Retrieving, Answering} && run.heartbeat.Some?
        && st.db.now - run.heartbeat.value > st.db.lease && next == Queued)
    || (Starting(st, a, r) && Waits(run.status) && run.cancelRequested
        && next == if run.cancelReason == CLIENT_ABORTED then Failed else Cancelled)
    || (Starting(st, a, r) && (Waits(run.status) ==> !run.cancelRequested)
        && run.status !in {Completed, Failed, Cancelled} && CanClaim(st.db, r) && next == Retrieving)
    || (a.WriteAnswering? && Executes(st, a.w, r) && next == Answering)
    || (a.Finish? && Executes(st, a.w, r) && next == a.status)
    || (Fails(st, a, r) && next == Failed)
  }

  lemma CancelMoves(db: Db, r: RunId, q: RunId, reason: string)
    requires r in db.runs && q in db.runs
    ensures r in RequestCancel(db, q, reason).runs
    ensures RequestCancel(db, q, reason).runs[r].status ==
              if q == r && Waits(db.runs[r].status) then (if reason == CLIENT_ABORTED then Failed else Cancelled)
              else db.runs[r].status
  {
  }

  lemma StartMoves(db: Db, r: RunId, q: RunId)
    requires r in db.runs
    ensures r in Start(db, q).0.runs
    ensures Start(db, q).0.runs[r].status ==
              if q != r || Terminal(db.runs[r].status) then db.runs[r].status
              else if Waits(db.runs[r].status) && db.runs[r].cancelRequested
              then (if db.runs[r].cancelReason == CLIENT_ABORTED then Failed else Cancelled)
              else if CanClaim(db, r) then Retrieving else db.runs[r].status
  {
  }

  /** The status is the one a move leads to, or stays if there is none. */
  ghost predicate Moved(st: State, a: Action, r: RunId)
    requires Enabled(st, a) && r in st.db.runs
  {
    && r in Next(st, a).db.runs
    && (forall next :: Moves(st, a, r, next) ==> Next(st, a).db.runs[r].status == next)
    && (Next(st, a).db.runs[r].status == st.db.runs[r].status || Moves(st, a, r, Next(st, a).db.runs[r].status))
  }

  lemma RequestMoves(st: State, a: Action, r: RunId)
    requires Enabled(st, a) && r in st.db.runs && (a.Cancel? || a.Begin?)
    ensures Moved(st, a, r)
  {
    if a.Cancel? {
      CancelMoves(st.db, r, a.r, a.reason);
    } else {
      StartMoves(st.db, r, st.workers[a.w].run);
    }
  }

  lemma WorkMoves(st: State, a: Action, r: RunId)
    requires Enabled(st, a) && r in st.db.runs
    requires a.Heartbeat? || a.WriteUser? || a.WriteAnswering? || a.WriteAssistant? || a.Finish? || a.Fail?
    ensures Moved(st, a, r)
  {
  }

  lemma OtherMoves(st: State, a: Action, r: RunId)
    requires Enabled(st, a) && r in st.db.runs && !a.Cancel? && !a.Begin?
    requires !(a.Heartbeat? || a.WriteUser? || a.WriteAnswering? || a.WriteAssistant? || a.Finish? || a.Fail?)
    ensures Moved(st, a, r)
  {
  }

  /** A step takes the status of a run exactly along these moves, and leaves it alone otherwise. */
  lemma StatusMoves(st: State, a: Action, r: RunId)
    requires Enabled(st, a) && r in st.db.runs
    ensures Moved(st, a, r)
  {
    if a.Cancel? || a.Begin? {
      RequestMoves(st, a, r);
    } else if a.Heartbeat? || a.WriteUser? || a.WriteAnswering? || a.WriteAssistant? || a.Finish? || a.Fail? {
      WorkMoves(st, a, r);
    } else {
      OtherMoves(st, a, r);
    }
  }

  // ---- Completed runs -------------------------------------------------------------------------------

  lemma BecomesCompleted(st: State, a: Action, r: RunId)
    requires Enabled(st, a) && r in Next(st, a).db.runs && Next(st, a).db.runs[r].status.Completed?
    requires r in st.db.runs ==> !st.db.runs[r].status.Completed?
    ensures r in st.db.runs && a.Finish? && Executes(st, a.w, r) && st.workers[a.w].phase.Answered?
  {
    if r !in st.db.runs {
      NewRun(st, a, r);
    } else {
      StatusMoves(st, a, r);
    }
  }

  lemma AnswerIsThere(st: State, r: RunId, w: WorkerId, s: SessionId)
    requires Inv(st) && Executes(st, w, r) && st.workers[w].phase.Answered? && InSession(st.db, r, s)
    ensures HasMessage(Transcript(st.db, s), r, Assistant)
  {
    assert WorkerSound(st.db, r, st.workers[w].phase);
    var t := Transcript(st.db, s);
    assert EndsWith(t, r, Assistant);
    assert t[|t| - 1].run == r && t[|t| - 1].role == Assistant;
  }

  lemma {:induction false} CompletedHasMessage(tr: seq<State>, acts: seq<Action>, i: nat, s: SessionId, r: RunId)
    requires Behaviour(tr, acts) && i < |tr| && InSession(tr[i].db, r, s) && tr[i].db.runs[r].status.Completed?
    ensures HasMessage(Transcript(tr[i].db, s), r, Assistant)
  {
    if i > 0 {
      assert StepAt(tr, acts, i - 1);
      var st, a := tr[i - 1], acts[i - 1];
      if !(r in st.db.runs && st.db.runs[r].status.Completed?) { BecomesCompleted(st, a, r); }
      ExtendsBetween(tr, acts, i - 1, i);
      ReachableInv(tr, acts, i - 1);
      if st.db.runs[r].status.Completed? {
        CompletedHasMessage(tr, acts, i - 1, s, r);
      } else {
        AnswerIsThere(st, r, a.w, s);
      }
      TranscriptOnlyGrows(tr, acts, i - 1, i, s);
      StillThere(Transcript(st.db, s), Transcript(tr[i].db, s), r, Assistant);
    }
  }

  /** In every reachable state the transcript of a session shows an answer for each of its completed runs, and
      a worker executing the run has written it. */
  lemma CompletedIsAnswered(tr: seq<State>, acts: seq<Action>, i: nat, s: SessionId, r: RunId)
    requires Behaviour(tr, acts) && i < |tr| && InSession(tr[i].db, r, s) && tr[i].db.runs[r].status.Completed?
    ensures exists text :: Shows(Transcript(tr[i].db, s), r, Assistant, text)
                           && WrittenBefore(tr, acts, i, r, Assistant, text)
  {
    CompletedHasMessage(tr, acts, i, s, r);
    HasShows(Transcript(tr[i].db, s), r, Assistant);
    var text :| Shows(Transcript(tr[i].db, s), r, Assistant, text);
    ShownWasWritten(tr, acts, i, s, r, Assistant, text);
  }
}
