// Workers, crashes and the clock around the rows of `ChatData`: the chat-run lifecycle as a
// state machine.  One step is one committed transaction of the source, with two exceptions the
// claims depend on: starting a run (guards, slot claim, status write) and finalizing one
// (status write, slot release) are single steps.
module ChatProtocol {
  import opened Common
  import opened ChatData

  type WorkerId = nat

  /** How far an executing worker has come: nothing written, question written, answer written. */
  datatype Phase = Fresh | Asked | Answered

  datatype Pc =
    | Idle
    | Pushing(ids: seq<RunId>, next: Option<RunId>)  // sweep committed, ids still to be pushed
    | Popped(run: RunId)                             // message taken, stale runs not yet swept
    | Ready(run: RunId)                              // about to start the run
    | Waiting(run: RunId)                            // claim refused, about to put the run back
    | Working(run: RunId, phase: Phase)              // between start and finalize
    | Closing(run: RunId)                            // finalized inside the try block, still publishing

  datatype State = State(db: Db, workers: map<WorkerId, Pc>)

  datatype Action =
    | NewSession(s: SessionId)
    | Create(r: RunId, session: Option<SessionId>, createdAt: nat, question: string)
    | Mark(r: RunId)
    | Cancel(r: RunId, reason: string)
    | Tick(t: nat)
    | Pop(w: WorkerId)
    | SweepRuns(w: WorkerId, ids: seq<RunId>)
    | Push(w: WorkerId)
    | Begin(w: WorkerId)
    | PutBack(w: WorkerId)
    | Heartbeat(w: WorkerId)
    | WriteUser(w: WorkerId)
    | WriteAnswering(w: WorkerId)
    | WriteAssistant(w: WorkerId, text: string)
    | Finish(w: WorkerId, status: Status)
    | Close(w: WorkerId)
    | Fail(w: WorkerId)
    | Crash(w: WorkerId)

  function At(st: State, w: WorkerId): Pc
  {
    if w in st.workers then st.workers[w] else Idle
  }

  predicate Bound(db: Db, r: RunId) { r in db.runs && db.runs[r].session.Some? }

  function SessionOf(db: Db, r: RunId): SessionId
    requires Bound(db, r)
  {
    db.runs[r].session.value
  }

  ghost predicate Executes(st: State, w: WorkerId, r: RunId)
  {
    w in st.workers && st.workers[w].Working? && st.workers[w].run == r
  }

  ghost predicate Executed(st: State, r: RunId) { exists w | w in st.workers :: Executes(st, w, r) }

  /** The run the outer exception handler finalizes as failed when a worker that is not executing
      raises: before its claim, or while it publishes a final status. */
  function Handles(pc: Pc): Option<RunId>
  {
    match pc
    case Popped(r) => Some(r)
    case Pushing(_, next) => next
    case Ready(r) => Some(r)
    case Waiting(r) => Some(r)
    case Closing(r) => Some(r)
    case _ => None
  }

  /** The heartbeat of `r` is recent enough at time `t` for its lease to hold. */
  predicate Leased(db: Db, r: RunId, t: nat)
    requires r in db.runs
  {
    db.runs[r].heartbeat.Some? && t <= db.runs[r].heartbeat.value + db.lease
  }

  ghost predicate Enabled(st: State, a: Action)
  {
    var db := st.db;
    match a
    case NewSession(s) => s !in db.sessions
    case Create(r, session, t, _) =>
      && r !in db.runs
      && (session.Some? ==> session.value in db.sessions)
      // Keys grow in creation order within a session.
      && (session.Some? ==> forall q | InSession(db, q, session.value) :: KeyBefore(db.runs[q].createdAt, q, t, r))
    case Mark(r) => r in db.runs
    case Cancel(r, _) => r in db.runs
    case Tick(t) =>
      && db.now <= t
      // A lease runs out only after its worker has died.
      && forall w | w in st.workers && st.workers[w].Working? && Bound(db, st.workers[w].run) ::
           Leased(db, st.workers[w].run, t)
    case Pop(w) => At(st, w) == Idle && db.queue != []
    case SweepRuns(w, ids) =>
      && (At(st, w).Idle? || At(st, w).Popped?)
      && forall r :: r in ids <==> Stale(db, r)
    case Push(w) => At(st, w).Pushing?
    case Begin(w) => At(st, w).Ready?
    case PutBack(w) => At(st, w).Waiting?
    case Heartbeat(w) => At(st, w).Working? && At(st, w).run in db.runs
    case WriteUser(w) => At(st, w).Working? && At(st, w).phase.Fresh? && At(st, w).run in db.runs
    case WriteAnswering(w) => At(st, w).Working? && At(st, w).phase.Asked? && At(st, w).run in db.runs
    case WriteAssistant(w, _) => At(st, w).Working? && At(st, w).phase.Asked? && At(st, w).run in db.runs
    case Finish(w, status) =>
      && At(st, w).Working? && At(st, w).run in db.runs
      && Terminal(status)
      && (status.Completed? ==> At(st, w).phase.Answered?)
    case Close(w) => At(st, w).Closing?
    case Fail(w) =>
      && Handles(At(st, w)).Some? && Handles(At(st, w)).value in db.runs
      // A worker that fails before its own claim does not fail a run that is being executed.
      && (At(st, w).Closing? || !Bound(db, Handles(At(st, w)).value) || !Executed(st, Handles(At(st, w)).value))
    case Crash(w) => true
  }

  /** The message write of an executing worker; a run outside any session writes none. */
  function Say(db: Db, r: RunId, role: Role, content: string): Db
    requires r in db.runs
  {
    if Bound(db, r) && SessionOf(db, r) in db.sessions
    then AppendMessage(db, SessionOf(db, r), r, role, content)
    else db
  }

  ghost function Next(st: State, a: Action): State
    requires Enabled(st, a)
  {
    var db := st.db;
    match a
    case NewSession(s) => st.(db := db.(sessions := db.sessions[s := Session(None, [])]))
    case Create(r, session, t, q) => st.(db := CreateRun(db, r, session, t, q))
    case Mark(r) => st.(db := MarkQueued(db, r))
    case Cancel(r, reason) => st.(db := RequestCancel(db, r, reason))
    case Tick(t) => st.(db := db.(now := t))
    case Pop(w) => State(db.(queue := db.queue[1..]), st.workers[w := Popped(db.queue[0])])
    case SweepRuns(w, ids) =>
      State(Sweep(db), st.workers[w := Pushing(ids, if At(st, w).Popped? then Some(At(st, w).run) else None)])
    case Push(w) =>
      var pc := At(st, w);
      if pc.ids == [] then
        st.(workers := st.workers[w := if pc.next.Some? then Ready(pc.next.value) else Idle])
      else State(Enqueue(db, pc.ids[0]), st.workers[w := pc.(ids := pc.ids[1..])])
    case Begin(w) =>
      var r := At(st, w).run;
      var (db', outcome) := Start(db, r);
      State(db', st.workers[w :=
        match outcome
        case Skip => if r in st.db.runs && !Terminal(st.db.runs[r].status) then Closing(r) else Idle
        case Busy => Waiting(r)
        case Claimed => Working(r, Fresh)])
    case PutBack(w) => State(Enqueue(db, At(st, w).run), st.workers[w := Idle])
    case Heartbeat(w) => var r := At(st, w).run; st.(db := Touch(db, r, db.runs[r].status))
    case WriteUser(w) =>
      var r := At(st, w).run;
      State(Say(db, r, User, db.runs[r].question), st.workers[w := Working(r, Asked)])
    case WriteAnswering(w) => st.(db := Touch(db, At(st, w).run, Answering))
    case WriteAssistant(w, text) =>
      var r := At(st, w).run;
      State(Say(db, r, Assistant, text), st.workers[w := Working(r, Answered)])
    case Finish(w, status) =>
      var r := At(st, w).run;
      State(Finalize(db, r, status), st.workers[w := if status.Completed? then Closing(r) else Idle])
    case Close(w) => st.(workers := st.workers[w := Idle])
    case Fail(w) => State(Finalize(db, Handles(At(st, w)).value, Failed), st.workers[w := Idle])
    case Crash(w) => st.(workers := st.workers[w := Idle])
  }

  function Init(lease: nat): State { State(Db(lease, 0, map[], map[], []), map[]) }

  ghost predicate StepAt(tr: seq<State>, acts: seq<Action>, i: nat)
    requires i < |acts| < |tr|
  {
    Enabled(tr[i], acts[i]) && tr[i + 1] == Next(tr[i], acts[i])
  }

  /** States tr[0..n] linked by the actions acts[0..n-1]. */
  ghost predicate Path(tr: seq<State>, acts: seq<Action>)
  {
    |tr| == |acts| + 1 && forall i: nat | i < |acts| :: StepAt(tr, acts, i)
  }

  /** A run of the protocol from the empty database. */
  ghost predicate Behaviour(tr: seq<State>, acts: seq<Action>)
  {
    Path(tr, acts) && tr[0] == Init(tr[0].db.lease)
  }
}
