// The service functions of the chat-run lifecycle as they update the database rows in place.
// Each is proved to take the stored rows exactly where the function of `ChatData` takes them,
// which is what the protocol of `ChatProtocol` interleaves.
module ChatStore {
  import opened Common
  import D = ChatData

  /** The rows when the sweep has handled exactly the runs in `done`. */
  ghost predicate PartlySwept(rows: D.Db, runs: map<D.RunId, D.Run>, sessions: map<D.SessionId, D.Session>,
                              done: set<D.RunId>)
  {
    && runs.Keys == rows.runs.Keys && sessions.Keys == rows.sessions.Keys
    && (forall r | r in rows.runs ::
          runs[r] == if r in done then rows.runs[r].(status := D.Queued, heartbeat := Some(rows.now)) else rows.runs[r])
    && (forall s | s in rows.sessions ::
          sessions[s] == if D.FreedBySweep(rows, s) && rows.sessions[s].active.value in done
                         then rows.sessions[s].(active := None) else rows.sessions[s])
  }

  lemma PartlySweptStep(rows: D.Db, runs: map<D.RunId, D.Run>, sessions: map<D.SessionId, D.Session>,
                        done: set<D.RunId>,
                        r: D.RunId, runs': map<D.RunId, D.Run>, sessions': map<D.SessionId, D.Session>)
    requires PartlySwept(rows, runs, sessions, done) && D.Stale(rows, r) && r !in done
    requires runs' == runs[r := runs[r].(status := D.Queued, heartbeat := Some(rows.now))]
    requires sessions' == D.ReleaseSlot(rows.(runs := runs, sessions := sessions), r).sessions
    ensures PartlySwept(rows, runs', sessions', done + {r})
  {
  }

  lemma SweptAll(rows: D.Db, runs: map<D.RunId, D.Run>, sessions: map<D.SessionId, D.Session>, stale: set<D.RunId>)
    requires PartlySwept(rows, runs, sessions, stale) && forall r :: r in stale <==> D.Stale(rows, r)
    ensures rows.(runs := runs, sessions := sessions) == D.Sweep(rows)
  {
    var swept := D.Sweep(rows);
    assert runs == swept.runs;
    assert sessions == swept.sessions;
  }

  /** The sessions after the run has let go of its own slot, if it had it. */
  ghost predicate Freed(before: map<D.SessionId, D.Session>, after: map<D.SessionId, D.Session>, r: D.RunId,
                        session: Option<D.SessionId>)
  {
    && after.Keys == before.Keys
    && forall s | s in before ::
         && after[s].transcript == before[s].transcript
         && after[s].active == if session == Some(s) && before[s].active == Some(r) then None else before[s].active
  }

  /** q was created before r, or at the same time under a smaller id, in the same session, and has no final
      status. */
  ghost predicate HoldsBack(runs: map<D.RunId, D.Run>, q: D.RunId, r: D.RunId)
    requires r in runs
  {
    && q in runs && runs[q].session == runs[r].session
    && runs[q].status !in {D.Completed, D.Failed, D.Cancelled}
    && (runs[q].createdAt < runs[r].createdAt || (runs[q].createdAt == runs[r].createdAt && q < r))
  }

  /** The slot of the run's session is free and nothing of the session holds the run back; a run outside any
      session needs no slot. */
  ghost predicate MayClaim(runs: map<D.RunId, D.Run>, sessions: map<D.SessionId, D.Session>, r: D.RunId)
    requires r in runs
  {
    runs[r].session.Some? ==>
      && runs[r].session.value in sessions && sessions[runs[r].session.value].active == None
      && !exists q :: HoldsBack(runs, q, r)
  }

  lemma MayClaimIs(rows: D.Db, r: D.RunId)
    requires r in rows.runs
    ensures MayClaim(rows.runs, rows.sessions, r) <==> D.CanClaim(rows, r)
  {
    if rows.runs[r].session.Some? {
      var s := rows.runs[r].session.value;
      forall q ensures HoldsBack(rows.runs, q, r) <==>
                         q in rows.runs && D.InSession(rows, q, s) && !D.Terminal(rows.runs[q].status)
                         && D.Older(rows, q, r)
      {}
    }
  }

  /** The sessions after the slot of the run's session has been given to the run. */
  ghost predicate Given(before: map<D.SessionId, D.Session>, after: map<D.SessionId, D.Session>, r: D.RunId,
                        session: Option<D.SessionId>)
  {
    && after.Keys == before.Keys
    && forall s | s in before ::
         && after[s].transcript == before[s].transcript
         && after[s].active == if session == Some(s) then Some(r) else before[s].active
  }

  /** The run is queued or being executed and its last heartbeat is longer ago than the lease. */
  ghost predicate Expired(runs: map<D.RunId, D.Run>, lease: nat, now: nat, r: D.RunId)
  {
    && r in runs && runs[r].status in {D.Queued, D.Retrieving, D.Answering}
    && runs[r].heartbeat.Some? && now - runs[r].heartbeat.value > lease
  }

  ghost predicate SlotExpired(runs: map<D.RunId, D.Run>, lease: nat, now: nat, slot: Option<D.RunId>, s: D.SessionId)
  {
    slot.Some? && Expired(runs, lease, now, slot.value) && runs[slot.value].session == Some(s)
  }

  /** The message of this run and role, or none. */
  ghost predicate Posted(t: seq<D.Message>, r: D.RunId, role: D.Role, m: D.Message)
  {
    m in t && m.run == r && m.role == role
  }

  /** The number follows the largest one in use, starting from one. */
  ghost predicate NextNumber(t: seq<D.Message>, n: nat)
  {
    && n > 0 && (forall m | m in t :: m.seqNo < n)
    && (n == 1 || exists m | m in t :: m.seqNo + 1 == n)
  }

  lemma {:induction false} MaxSeqNoNext(t: seq<D.Message>)
    ensures NextNumber(t, D.MaxSeqNo(t) + 1)
  {
    if t != [] {
      var before, last := t[..|t| - 1], t[|t| - 1];
      MaxSeqNoNext(before);
      assert last in t && forall m | m in t :: m in before || m == last;
    }
  }

  /** The query for the message of this run and role. */
  method ExistingMessage(t: seq<D.Message>, r: D.RunId, role: D.Role) returns (message: Option<D.Message>)
    ensures message.Some? ==> Posted(t, r, role, message.value)
    ensures message.None? ==> forall m :: !Posted(t, r, role, m)
    ensures message.Some? <==> D.HasMessage(t, r, role)
  {
    for i := 0 to |t|
      invariant forall k | 0 <= k < i :: t[k].run != r || t[k].role != role
    {
      if t[i].run == r && t[i].role == role { return Some(t[i]); }
    }
    message := None;
  }

  /** The query for the largest number in the session. */
  method LargestSeqNo(t: seq<D.Message>) returns (top: nat)
    ensures top == D.MaxSeqNo(t)
  {
    top := 0;
    for i := 0 to |t|
      invariant top == D.MaxSeqNo(t[..i])
    {
      assert t[..i + 1][..i] == t[..i];
      top := if t[i].seqNo > top then t[i].seqNo else top;
    }
    assert t[..|t|] == t;
  }

  class Store {
    const lease: nat
    var now: nat
    var runs: map<D.RunId, D.Run>
    var sessions: map<D.SessionId, D.Session>
    var queue: seq<D.RunId>

    ghost function Rows(): D.Db
      reads this
    {
      D.Db(lease, now, runs, sessions, queue)
    }

    constructor (lease: nat)
      ensures Rows() == D.Db(lease, 0, map[], map[], [])
    {
      this.lease := lease;
      now, runs, sessions, queue := 0, map[], map[], [];
    }

    /** `_create_pending_run` */
    method CreatePendingRun(r: D.RunId, session: Option<D.SessionId>, createdAt: nat, question: string)
      requires r !in runs
      modifies this
      ensures Rows() == D.CreateRun(old(Rows()), r, session, createdAt, question)
      ensures runs == old(runs)[r := D.Run(session, createdAt, question, D.Accepted, None, false, "")]
      ensures now == old(now) && sessions == old(sessions) && queue == old(queue)
    {
      runs := runs[r := D.Run(session, createdAt, question, D.Accepted, None, false, "")];
    }

    /** `_mark_run_queued`; false stands for the 404 of a missing run. */
    method MarkRunQueued(r: D.RunId) returns (found: bool)
      modifies this
      ensures found <==> r in old(runs)
      ensures Rows() == if found then D.MarkQueued(old(Rows()), r) else old(Rows())
      ensures now == old(now) && sessions == old(sessions)
      ensures !found ==> runs == old(runs) && queue == old(queue)
      ensures found ==>
                && queue == old(queue) + [r]
                && runs.Keys == old(runs).Keys && (forall q | q in runs && q != r :: runs[q] == old(runs)[q])
                && runs[r] == old(runs)[r].(status := runs[r].status, heartbeat := Some(now))
                && runs[r].status == if old(runs)[r].status == D.Accepted then D.Queued else old(runs)[r].status
    {
      found := r in runs;
      if found {
        if runs[r].status.Accepted? {
          runs := runs[r := runs[r].(status := D.Queued)];
        }
        runs := runs[r := runs[r].(heartbeat := Some(now))];
        queue := queue + [r];
      }
    }

    /** `_claim_session_slot`: one conditional update. */
    method ClaimSessionSlot(r: D.RunId) returns (claimed: bool)
      requires r in runs
      modifies this`sessions
      ensures claimed == D.CanClaim(old(Rows()), r)
      ensures Rows() == D.ClaimSlot(old(Rows()), r)
      ensures claimed <==> MayClaim(runs, old(sessions), r)
      ensures if claimed then Given(old(sessions), sessions, r, runs[r].session) else sessions == old(sessions)
    {
      MayClaimIs(Rows(), r);
      if runs[r].session == None { return true; }
      var s := runs[r].session.value;
      var olderExists := exists q | q in runs ::
        && runs[q].session == Some(s) && !D.Terminal(runs[q].status)
        && D.KeyBefore(runs[q].createdAt, q, runs[r].createdAt, r);
      ghost var rows := Rows();
      assert olderExists == D.OlderUnfinishedExists(rows, r, s) by {
        if olderExists {
          var q :| q in runs && runs[q].session == Some(s) && !D.Terminal(runs[q].status)
                   && D.KeyBefore(runs[q].createdAt, q, runs[r].createdAt, r);
          assert D.InSession(rows, q, s) && D.Older(rows, q, r);
        }
      }
      claimed := s in sessions && sessions[s].active == None && !olderExists;
      if claimed {
        sessions := sessions[s := sessions[s].(active := Some(r))];
      }
    }

    /** `_release_session_slot`: frees the slot only if it names this run. */
    method ReleaseSessionSlot(r: D.RunId)
      requires r in runs
      modifies this`sessions
      ensures Rows() == D.ReleaseSlot(old(Rows()), r)
      ensures Freed(old(sessions), sessions, r, runs[r].session)
    {
      if runs[r].session == None { return; }
      var s := runs[r].session.value;
      if s in sessions && sessions[s].active == Some(r) {
        sessions := sessions[s := sessions[s].(active := None)];
      }
    }

    /** `_finalize_run` */
    method FinalizeRun(r: D.RunId, status: D.Status)
      requires r in runs
      modifies this`runs, this`sessions
      ensures Rows() == D.Finalize(old(Rows()), r, status)
      ensures runs == old(runs)[r := old(runs)[r].(status := status, heartbeat := Some(now))]
      ensures Freed(old(sessions), sessions, r, old(runs)[r].session)
    {
      runs := runs[r := runs[r].(status := status)];
      runs := runs[r := runs[r].(heartbeat := Some(now))];
      ReleaseSessionSlot(r);
    }

    /** `request_run_cancel` for an existing run. */
    method RequestRunCancel(r: D.RunId, reason: string)
      requires r in runs
      modifies this`runs, this`sessions
      ensures Rows() == D.RequestCancel(old(Rows()), r, reason)
      ensures old(runs)[r].status in {D.Completed, D.Failed, D.Cancelled} ==>
                runs == old(runs) && sessions == old(sessions)
      ensures old(runs)[r].status in {D.Retrieving, D.Answering} ==>
                && runs == old(runs)[r := old(runs)[r].(cancelRequested := true, cancelReason := reason)]
                && sessions == old(sessions)
      ensures old(runs)[r].status in {D.Accepted, D.Queued} ==>
                && runs == old(runs)[r := old(runs)[r].(
                             status := if reason == D.CLIENT_ABORTED then D.Failed else D.Cancelled,
                             heartbeat := Some(now), cancelRequested := true, cancelReason := reason)]
                && Freed(old(sessions), sessions, r, old(runs)[r].session)
    {
      if D.Terminal(runs[r].status) { return; }
      runs := runs[r := runs[r].(cancelRequested := true)];
      runs := runs[r := runs[r].(cancelReason := reason)];
      if runs[r].status.Accepted? || runs[r].status.Queued? {
        FinalizeRun(r, if reason == D.CLIENT_ABORTED then D.Failed else D.Cancelled);
      }
    }

    /** The guards of `run_chat_run` up to the status write that opens the execution. */
    method StartRun(r: D.RunId) returns (outcome: D.StartOutcome)
      modifies this`runs, this`sessions
      ensures (Rows(), outcome) == D.Start(old(Rows()), r)
      ensures r !in old(runs) || old(runs)[r].status in {D.Completed, D.Failed, D.Cancelled} ==>
                outcome == D.Skip && runs == old(runs) && sessions == old(sessions)
      ensures r in old(runs) && old(runs)[r].status in {D.Accepted, D.Queued} && old(runs)[r].cancelRequested ==>
                && outcome == D.Skip
                && runs == old(runs)[r := old(runs)[r].(
                             status := if old(runs)[r].cancelReason == D.CLIENT_ABORTED then D.Failed else D.Cancelled,
                             heartbeat := Some(now))]
                && Freed(old(sessions), sessions, r, old(runs)[r].session)
      ensures r in old(runs)
              && (old(runs)[r].status in {D.Retrieving, D.Answering}
                  || (old(runs)[r].status in {D.Accepted, D.Queued} && !old(runs)[r].cancelRequested)) ==>
                if MayClaim(old(runs), old(sessions), r) then
                  && outcome == D.Claimed
                  && runs == old(runs)[r := old(runs)[r].(status := D.Retrieving, heartbeat := Some(now))]
                  && Given(old(sessions), sessions, r, old(runs)[r].session)
                else outcome == D.Busy && runs == old(runs) && sessions == old(sessions)
    {
      if r !in runs || D.Terminal(runs[r].status) { return D.Skip; }
      if runs[r].cancelRequested && (runs[r].status.Accepted? || runs[r].status.Queued?) {
        FinalizeRun(r, D.CancelledAs(runs[r].cancelReason));
        return D.Skip;
      }
      var claimed := ClaimSessionSlot(r);
      if !claimed { return D.Busy; }
      runs := runs[r := runs[r].(status := D.Retrieving)];
      runs := runs[r := runs[r].(heartbeat := Some(now))];
      assert runs == old(runs)[r := old(runs)[r].(status := D.Retrieving, heartbeat := Some(now))];
      return D.Claimed;
    }

    /** One row of the sweep: back to queued, slot freed if this run holds it. */
    method RequeueRow(r: D.RunId)
      requires r in runs
      modifies this`runs, this`sessions
      ensures runs == old(runs)[r := old(runs)[r].(status := D.Queued, heartbeat := Some(now))]
      ensures sessions == D.ReleaseSlot(old(Rows()), r).sessions
    {
      runs := runs[r := runs[r].(status := D.Queued)];
      runs := runs[r := runs[r].(heartbeat := Some(now))];
      ReleaseSessionSlot(r);
    }

    /** `mark_orphaned_chat_runs_for_retry`: requeues every run whose lease has expired, row by
        row, and returns their ids for the queue. */
    method MarkOrphanedForRetry() returns (ids: seq<D.RunId>)
      modifies this`runs, this`sessions
      ensures Rows() == D.Sweep(old(Rows()))
      ensures forall r :: r in ids <==> Expired(old(runs), lease, now, r)
      ensures forall i, j | 0 <= i < j < |ids| :: ids[i] != ids[j]
      ensures runs.Keys == old(runs).Keys && sessions.Keys == old(sessions).Keys
      ensures forall r | r in runs ::
                runs[r] == if Expired(old(runs), lease, now, r)
                           then old(runs)[r].(status := D.Queued, heartbeat := Some(now)) else old(runs)[r]
      ensures forall s | s in sessions ::
                && sessions[s].transcript == old(sessions)[s].transcript
                && sessions[s].active == if SlotExpired(old(runs), lease, now, old(sessions)[s].active, s)
                                         then None else old(sessions)[s].active
    {
      ghost var rows := Rows();
      var stale := set r | r in runs
        && (D.Active(runs[r].status) || runs[r].status.Queued?)
        && runs[r].heartbeat.Some? && runs[r].heartbeat.value + lease < now;
      ids := RequeueAll(stale);
      SweptAll(rows, runs, sessions, stale);
    }

    /** The loop over the rows the query found. */
    method RequeueAll(stale: set<D.RunId>) returns (ids: seq<D.RunId>)
      requires forall r | r in stale :: D.Stale(Rows(), r)
      modifies this`runs, this`sessions
      ensures forall r :: r in ids <==> r in stale
      ensures forall i, j | 0 <= i < j < |ids| :: ids[i] != ids[j]
      ensures PartlySwept(old(Rows()), runs, sessions, stale)
    {
      ghost var rows, done := Rows(), {};
      ids := [];
      var todo := stale;
      while todo != {}
        invariant todo <= stale && done == stale - todo
        invariant forall r :: r in ids <==> r in done
        invariant forall i, j | 0 <= i < j < |ids| :: ids[i] != ids[j]
        invariant PartlySwept(rows, runs, sessions, done)
      {
        var r :| r in todo;
        ghost var runs0, sessions0 := runs, sessions;
        RequeueRow(r);
        PartlySweptStep(rows, runs0, sessions0, done, r, runs, sessions);
        ids := ids + [r];
        todo := todo - {r};
        done := done + {r};
      }
      assert done == stale;
    }

    /** `append_message`: at most one message per run and role, numbered after the largest number
        in the session.  None stands for the 404 of a missing session. */
    method AppendMessage(s: D.SessionId, r: D.RunId, role: D.Role, content: string) returns (message: Option<D.Message>)
      modifies this`sessions
      ensures message.Some? <==> s in old(sessions)
      ensures message.None? ==> Rows() == old(Rows())
      ensures message.Some? ==>
                && Rows() == D.AppendMessage(old(Rows()), s, r, role, content)
                && message.value in sessions[s].transcript
                && message.value.run == r && message.value.role == role
      ensures message.Some? ==>
                var t, t' := old(sessions)[s].transcript, sessions[s].transcript;
                && sessions == old(sessions)[s := D.Session(old(sessions)[s].active, t')]
                && if exists m :: Posted(t, r, role, m) then t' == t && Posted(t, r, role, message.value)
                   else t' == t + [D.Message(r, role, content, message.value.seqNo)]
                        && message.value == t'[|t|] && NextNumber(t, message.value.seqNo)
    {
      if s !in sessions { return None; }
      var t := sessions[s].transcript;
      message := ExistingMessage(t, r, role);
      if message.Some? { return; }
      var top := LargestSeqNo(t);
      MaxSeqNoNext(t);
      message := Some(D.Message(r, role, content, top + 1));
      sessions := sessions[s := sessions[s].(transcript := t + [message.value])];
    }
  }
}
