// The rows the chat-run lifecycle lives in (chat_runs, chat_sessions, chat_messages and the
// work queue) and, for every service function that changes them, the change as a function from
// one database value to the next.  `ChatStore` carries the same operations out in place;
// `ChatProtocol` interleaves them.
module ChatData {
  import opened Common

  type RunId = nat
  type SessionId = nat

  datatype Status = Accepted | Queued | Retrieving | Answering | Completed | Failed | Cancelled

  predicate Terminal(s: Status) { s.Completed? || s.Failed? || s.Cancelled? }

  predicate Active(s: Status) { s.Retrieving? || s.Answering? }

  /** One chat_runs row. `session` is None for runs started outside a session. */
  datatype Run = Run(session: Option<SessionId>, createdAt: nat, question: string, status: Status,
                     heartbeat: Option<nat>, cancelRequested: bool, cancelReason: string)

  datatype Role = User | Assistant

  datatype Message = Message(run: RunId, role: Role, content: string, seqNo: nat)

  /** One chat_sessions row together with its messages in sequence order. */
  datatype Session = Session(active: Option<RunId>, transcript: seq<Message>)

  datatype Db = Db(lease: nat, now: nat, runs: map<RunId, Run>, sessions: map<SessionId, Session>,
                   queue: seq<RunId>)

  const CLIENT_ABORTED := "client aborted stream"

  /** The order in which runs of one session must be served: by creation time, then by id. */
  predicate KeyBefore(t0: nat, r0: RunId, t1: nat, r1: RunId)
  {
    t0 < t1 || (t0 == t1 && r0 < r1)
  }

  predicate Older(db: Db, r0: RunId, r1: RunId)
    requires r0 in db.runs && r1 in db.runs
  {
    KeyBefore(db.runs[r0].createdAt, r0, db.runs[r1].createdAt, r1)
  }

  predicate InSession(db: Db, r: RunId, s: SessionId)
  {
    r in db.runs && db.runs[r].session == Some(s)
  }

  /** `_session_ordering_filter`: some other unfinished run of the same session is older. */
  predicate OlderUnfinishedExists(db: Db, r: RunId, s: SessionId)
    requires r in db.runs
  {
    exists q | q in db.runs :: InSession(db, q, s) && !Terminal(db.runs[q].status) && Older(db, q, r)
  }

  function CreateRun(db: Db, r: RunId, session: Option<SessionId>, createdAt: nat, question: string): Db
  {
    db.(runs := db.runs[r := Run(session, createdAt, question, Accepted, None, false, "")])
  }

  function MarkQueued(db: Db, r: RunId): Db
    requires r in db.runs
  {
    var run := db.runs[r];
    var queued := run.(status := if run.status.Accepted? then Queued else run.status, heartbeat := Some(db.now));
    db.(runs := db.runs[r := queued], queue := db.queue + [r])
  }

  function CancelledAs(reason: string): Status
  {
    if reason == CLIENT_ABORTED then Failed else Cancelled
  }

  predicate HoldsSlot(db: Db, r: RunId)
  {
    && r in db.runs && db.runs[r].session.Some?
    && db.runs[r].session.value in db.sessions
    && db.sessions[db.runs[r].session.value].active == Some(r)
  }

  function ReleaseSlot(db: Db, r: RunId): Db
  {
    if HoldsSlot(db, r) then
      var s := db.runs[r].session.value;
      db.(sessions := db.sessions[s := db.sessions[s].(active := None)])
    else db
  }

  function Finalize(db: Db, r: RunId, status: Status): Db
    requires r in db.runs
  {
    ReleaseSlot(db.(runs := db.runs[r := db.runs[r].(status := status, heartbeat := Some(db.now))]), r)
  }

  function RequestCancel(db: Db, r: RunId, reason: string): Db
    requires r in db.runs
  {
    var run := db.runs[r];
    if Terminal(run.status) then db
    else
      var flagged := db.(runs := db.runs[r := run.(cancelRequested := true, cancelReason := reason)]);
      if Active(run.status) then flagged else Finalize(flagged, r, CancelledAs(reason))
  }

  /** The condition of the slot-claiming update; a run without a session always passes. */
  predicate CanClaim(db: Db, r: RunId)
    requires r in db.runs
  {
    match db.runs[r].session
    case None => true
    case Some(s) => s in db.sessions && db.sessions[s].active == None && !OlderUnfinishedExists(db, r, s)
  }

  function ClaimSlot(db: Db, r: RunId): Db
    requires r in db.runs
  {
    if CanClaim(db, r) && db.runs[r].session.Some? then
      var s := db.runs[r].session.value;
      db.(sessions := db.sessions[s := db.sessions[s].(active := Some(r))])
    else db
  }

  datatype StartOutcome = Skip | Busy | Claimed

  /** What a worker does with a popped run before it executes it. */
  function Start(db: Db, r: RunId): (Db, StartOutcome)
  {
    if r !in db.runs || Terminal(db.runs[r].status) then (db, Skip)
    else if db.runs[r].cancelRequested && !Active(db.runs[r].status) then
      (Finalize(db, r, CancelledAs(db.runs[r].cancelReason)), Skip)
    else if !CanClaim(db, r) then (db, Busy)
    else (Touch(ClaimSlot(db, r), r, Retrieving), Claimed)
  }

  /** A worker's progress write: new status, fresh heartbeat. */
  function Touch(db: Db, r: RunId, status: Status): Db
    requires r in db.runs
  {
    db.(runs := db.runs[r := db.runs[r].(status := status, heartbeat := Some(db.now))])
  }

  /** The lease of an unfinished, already queued run has run out. */
  predicate Stale(db: Db, r: RunId)
  {
    && r in db.runs
    && (Active(db.runs[r].status) || db.runs[r].status.Queued?)
    && db.runs[r].heartbeat.Some?
    && db.runs[r].heartbeat.value + db.lease < db.now
  }

  predicate FreedBySweep(db: Db, s: SessionId)
    requires s in db.sessions
  {
    && db.sessions[s].active.Some?
    && Stale(db, db.sessions[s].active.value)
    && db.runs[db.sessions[s].active.value].session == Some(s)
  }

  function Sweep(db: Db): Db
  {
    db.(runs := map r | r in db.runs ::
          if Stale(db, r) then db.runs[r].(status := Queued, heartbeat := Some(db.now)) else db.runs[r],
        sessions := map s | s in db.sessions ::
          if FreedBySweep(db, s) then db.sessions[s].(active := None) else db.sessions[s])
  }

  predicate HasMessage(t: seq<Message>, r: RunId, role: Role)
  {
    exists i | 0 <= i < |t| :: t[i].run == r && t[i].role == role
  }

  function MaxSeqNo(t: seq<Message>): nat
  {
    if t == [] then 0
    else
      var m := MaxSeqNo(t[..|t| - 1]);
      if t[|t| - 1].seqNo > m then t[|t| - 1].seqNo else m
  }

  function Append(t: seq<Message>, r: RunId, role: Role, content: string): seq<Message>
  {
    if HasMessage(t, r, role) then t else t + [Message(r, role, content, MaxSeqNo(t) + 1)]
  }

  function AppendMessage(db: Db, s: SessionId, r: RunId, role: Role, content: string): Db
    requires s in db.sessions
  {
    var session := db.sessions[s];
    db.(sessions := db.sessions[s := session.(transcript := Append(session.transcript, r, role, content))])
  }

  function Enqueue(db: Db, r: RunId): Db { db.(queue := db.queue + [r]) }
}
