// What every step of the chat-run protocol keeps, and the safety theorems over whole behaviours.
module ChatSafety {
  import opened Common
  import opened ChatData
  import opened ChatProtocol

  // ---- The invariant ----------------------------------------------------------------------

  /** A session's slot names exactly its active run. */
  ghost predicate SlotsSound(db: Db)
  {
    && (forall r | r in db.runs && Bound(db, r) :: SessionOf(db, r) in db.sessions)
    && (forall s | s in db.sessions && db.sessions[s].active.Some? ::
          InSession(db, db.sessions[s].active.value, s) && Active(db.runs[db.sessions[s].active.value].status))
    && (forall r | r in db.runs && Bound(db, r) && Active(db.runs[r].status) :: HoldsSlot(db, r))
  }

  /** Every run of a session older than its active run is finished. */
  ghost predicate OlderDone(db: Db)
  {
    forall r, q | r in db.runs && Bound(db, r) && Active(db.runs[r].status) && q in db.runs
           && InSession(db, q, SessionOf(db, r)) && Older(db, q, r) ::
      Terminal(db.runs[q].status)
  }

  ghost predicate HeartbeatsSet(db: Db)
  {
    forall r | r in db.runs && (Active(db.runs[r].status) || db.runs[r].status.Queued?) :: db.runs[r].heartbeat.Some?
  }

  /** A user message starts its run's block; an assistant message follows its own user message. */
  ghost predicate Alternates(t: seq<Message>)
  {
    && (t != [] ==> t[0].role.User?)
    && forall i | 0 < i < |t| ::
         if t[i].role.User? then t[i - 1].run != t[i].run
         else t[i - 1].role.User? && t[i - 1].run == t[i].run
  }

  ghost predicate Numbered(t: seq<Message>)
  {
    forall i | 0 <= i < |t| :: t[i].seqNo == i + 1
  }

  ghost predicate Sourced(db: Db, s: SessionId, t: seq<Message>)
  {
    forall i | 0 <= i < |t| ::
      InSession(db, t[i].run, s) && (t[i].role.User? ==> t[i].content == db.runs[t[i].run].question)
  }

  /** Messages follow the order of their runs, and no unfinished run is older than a message. */
  ghost predicate Ordered(db: Db, s: SessionId, t: seq<Message>)
    requires Sourced(db, s, t)
  {
    && (forall i, j | 0 <= i < j < |t| :: !Older(db, t[j].run, t[i].run))
    && (forall i, r | 0 <= i < |t| && r in db.runs && InSession(db, r, s) && !Terminal(db.runs[r].status) ::
          !Older(db, r, t[i].run))
  }

  ghost predicate TranscriptSound(db: Db, s: SessionId, t: seq<Message>)
  {
    Numbered(t) && Alternates(t) && Sourced(db, s, t) && Ordered(db, s, t)
  }

  ghost predicate TranscriptsSound(db: Db)
  {
    forall s | s in db.sessions :: TranscriptSound(db, s, db.sessions[s].transcript)
  }

  ghost predicate DbSound(db: Db)
  {
    SlotsSound(db) && OlderDone(db) && HeartbeatsSet(db) && TranscriptsSound(db)
  }

  /** The last message is the one of `r`: its user message, or already its answer. */
  ghost predicate EndsWith(t: seq<Message>, r: RunId, role: Role)
  {
    t != [] && t[|t| - 1].run == r && (role.Assistant? ==> t[|t| - 1].role.Assistant?)
  }

  /** What an executing worker of a session-bound run may rely on. */
  ghost predicate WorkerSound(db: Db, r: RunId, phase: Phase)
  {
    r in db.runs && (Bound(db, r) ==>
      && SessionOf(db, r) in db.sessions
      && Active(db.runs[r].status)
      && Leased(db, r, db.now)
      && var t := db.sessions[SessionOf(db, r)].transcript;
         (!phase.Fresh? ==> EndsWith(t, r, if phase.Answered? then Assistant else User)))
  }

  ghost predicate WorkersSound(db: Db, workers: map<WorkerId, Pc>)
  {
    && (forall w | w in workers && workers[w].Working? :: WorkerSound(db, workers[w].run, workers[w].phase))
    && (forall w, v | w in workers && v in workers && w != v && workers[w].Working? && workers[v].Working? ::
          Bound(db, workers[w].run) ==> workers[w].run != workers[v].run)
  }

  ghost predicate Core(st: State) { DbSound(st.db) && WorkersSound(st.db, st.workers) }

  /** A worker that still publishes a final status has finished its run. */
  ghost predicate ClosersDone(st: State)
  {
    forall w | w in st.workers && st.workers[w].Closing? && Bound(st.db, st.workers[w].run) ::
      Terminal(st.db.runs[st.workers[w].run].status)
  }

  /** The second half of ClosersDone: the run exists. */
  ghost predicate ClosersKnown(st: State)
  {
    forall w | w in st.workers && st.workers[w].Closing? :: st.workers[w].run in st.db.runs
  }

  ghost predicate Inv(st: State) { Core(st) && ClosersDone(st) && ClosersKnown(st) }

  /** Rows persist, a finished session-bound run stays finished, and new runs come later. */
  ghost predicate Extends(db: Db, db': Db)
  {
    && (forall s | s in db.sessions :: s in db'.sessions)
    && (forall r | r in db.runs ::
          && r in db'.runs && db'.runs[r].session == db.runs[r].session
          && db'.runs[r].createdAt == db.runs[r].createdAt && db'.runs[r].question == db.runs[r].question
          && (Bound(db, r) && Terminal(db.runs[r].status) ==> Terminal(db'.runs[r].status)))
    && (forall r, q | r in db.runs && Bound(db, r) && q in db'.runs && q !in db.runs
        && InSession(db', q, SessionOf(db, r)) :: Older(db', r, q))
  }

  // ---- Single operations ------------------------------------------------------------------

  /** Keys of distinct runs are comparable. */
  lemma OlderTotal(db: Db, r: RunId, q: RunId)
    requires r in db.runs && q in db.runs && !Older(db, r, q) && !Older(db, q, r)
    ensures r == q
  {
  }

  /** Rows may change and runs may be added, as long as `Extends` holds: what is said about a
      transcript carries over. */
  lemma TranscriptFrame(db: Db, db': Db, s: SessionId, t: seq<Message>)
    requires Extends(db, db') && TranscriptSound(db, s, t)
    requires forall r | r in db.runs && InSession(db, r, s) ::
               Terminal(db.runs[r].status) ==> Terminal(db'.runs[r].status)
    ensures TranscriptSound(db', s, t)
  {
    assert Sourced(db', s, t);
    forall i, r | 0 <= i < |t| && r in db'.runs && InSession(db', r, s) && !Terminal(db'.runs[r].status)
      ensures !Older(db', r, t[i].run)
    {
      assert InSession(db, t[i].run, s);
      if r in db.runs { assert InSession(db, r, s); }
    }
    forall i, j | 0 <= i < j < |t| ensures !Older(db', t[j].run, t[i].run) {
      assert !Older(db, t[j].run, t[i].run);
    }
  }

  lemma TranscriptsFrame(db: Db, db': Db)
    requires TranscriptsSound(db) && Extends(db, db')
    requires db'.sessions.Keys == db.sessions.Keys
    requires forall s | s in db.sessions :: db'.sessions[s].transcript == db.sessions[s].transcript
    ensures TranscriptsSound(db')
  {
    forall s | s in db'.sessions ensures TranscriptSound(db', s, db'.sessions[s].transcript) {
      assert TranscriptSound(db, s, db.sessions[s].transcript);
      TranscriptFrame(db, db', s, db.sessions[s].transcript);
    }
  }

  /** `db'` differs from `db` in the row of `r` and in whether `r` holds its session's slot. */
  ghost predicate OneRow(db: Db, db': Db, r: RunId)
  {
    && r in db.runs && r in db'.runs && db'.runs == db.runs[r := db'.runs[r]]
    && var run, run' := db.runs[r], db'.runs[r];
    && run'.session == run.session && run'.createdAt == run.createdAt && run'.question == run.question
    && match run.session
       case None => db'.sessions == db.sessions
       case Some(s) =>
         && s in db.sessions && s in db'.sessions
         && db'.sessions == db.sessions[s := db.sessions[s].(active := db'.sessions[s].active)]
         && (Terminal(run.status) ==> Terminal(run'.status))
         && if Active(run'.status) then
              && db'.sessions[s].active == Some(r)
              && (Active(run.status) || CanClaim(db, r))
            else db'.sessions[s].active == if db.sessions[s].active == Some(r) then None else db.sessions[s].active
  }

  lemma OneRowSlots(db: Db, db': Db, r: RunId)
    requires SlotsSound(db) && OneRow(db, db', r)
    ensures SlotsSound(db')
  {
    forall q | q in db'.runs && Bound(db', q) && Active(db'.runs[q].status) ensures HoldsSlot(db', q) {
      if q != r { assert HoldsSlot(db, q); }
    }
  }

  lemma OneRowOlderDone(db: Db, db': Db, r: RunId)
    requires SlotsSound(db) && OlderDone(db) && OneRow(db, db', r)
    ensures OlderDone(db')
  {
    forall p, q | p in db'.runs && Bound(db', p) && Active(db'.runs[p].status)
                  && q in db'.runs && InSession(db', q, SessionOf(db', p)) && Older(db', q, p)
      ensures Terminal(db'.runs[q].status)
    {
      assert InSession(db, q, SessionOf(db, p)) && Older(db, q, p);
    }
  }

  lemma OneRowExtends(db: Db, db': Db, r: RunId)
    requires OneRow(db, db', r)
    ensures Extends(db, db') && db'.sessions.Keys == db.sessions.Keys
    ensures forall s | s in db.sessions :: db'.sessions[s].transcript == db.sessions[s].transcript
  {
  }

  lemma OneRowSound(db: Db, db': Db, r: RunId)
    requires DbSound(db) && OneRow(db, db', r)
    requires Active(db'.runs[r].status) || db'.runs[r].status.Queued? ==> db'.runs[r].heartbeat.Some?
    ensures DbSound(db') && Extends(db, db')
  {
    OneRowSlots(db, db', r);
    OneRowOlderDone(db, db', r);
    OneRowExtends(db, db', r);
    TranscriptsFrame(db, db');
  }

  lemma SweepSlots(db: Db)
    requires SlotsSound(db) && OlderDone(db)
    ensures SlotsSound(Sweep(db)) && OlderDone(Sweep(db))
  {
    var db' := Sweep(db);
    forall r | r in db'.runs && Bound(db', r) && Active(db'.runs[r].status) ensures HoldsSlot(db', r) {
      assert HoldsSlot(db, r);
    }
    forall p, q | p in db'.runs && Bound(db', p) && Active(db'.runs[p].status)
                  && q in db'.runs && InSession(db', q, SessionOf(db', p)) && Older(db', q, p)
      ensures Terminal(db'.runs[q].status)
    {
      assert InSession(db, q, SessionOf(db, p)) && Older(db, q, p);
    }
  }

  lemma SweepRows(db: Db)
    ensures HeartbeatsSet(db) ==> HeartbeatsSet(Sweep(db))
    ensures Extends(db, Sweep(db)) && Sweep(db).sessions.Keys == db.sessions.Keys
    ensures forall s | s in db.sessions :: Sweep(db).sessions[s].transcript == db.sessions[s].transcript
  {
  }

  lemma SweepSound(db: Db)
    requires DbSound(db)
    ensures DbSound(Sweep(db)) && Extends(db, Sweep(db))
  {
    SweepSlots(db);
    SweepRows(db);
    TranscriptsFrame(db, Sweep(db));
  }

  lemma CreateSlots(db: Db, r: RunId, session: Option<SessionId>, t: nat, question: string)
    requires SlotsSound(db) && OlderDone(db)
    requires Enabled(State(db, map[]), Create(r, session, t, question))
    ensures SlotsSound(CreateRun(db, r, session, t, question)) && OlderDone(CreateRun(db, r, session, t, question))
  {
    var db' := CreateRun(db, r, session, t, question);
    forall p, q | p in db'.runs && Bound(db', p) && Active(db'.runs[p].status)
                  && q in db'.runs && InSession(db', q, SessionOf(db', p)) && Older(db', q, p)
      ensures Terminal(db'.runs[q].status)
    {
      assert p != r && InSession(db, p, SessionOf(db, p));
    }
  }

  lemma CreateExtends(db: Db, r: RunId, session: Option<SessionId>, t: nat, question: string)
    requires Enabled(State(db, map[]), Create(r, session, t, question))
    ensures Extends(db, CreateRun(db, r, session, t, question))
    ensures HeartbeatsSet(db) ==> HeartbeatsSet(CreateRun(db, r, session, t, question))
  {
  }

  lemma CreateSound(db: Db, r: RunId, session: Option<SessionId>, t: nat, question: string)
    requires DbSound(db)
    requires Enabled(State(db, map[]), Create(r, session, t, question))
    ensures DbSound(CreateRun(db, r, session, t, question)) && Extends(db, CreateRun(db, r, session, t, question))
  {
    CreateSlots(db, r, session, t, question);
    CreateExtends(db, r, session, t, question);
    TranscriptsFrame(db, CreateRun(db, r, session, t, question));
  }

  lemma {:induction false} MaxSeqNoIsLength(t: seq<Message>)
    requires Numbered(t)
    ensures MaxSeqNo(t) == |t|
  {
    if t != [] { MaxSeqNoIsLength(t[..|t| - 1]); }
  }

  /** In a sound transcript the messages of an unfinished run are the last ones. */
  lemma UnfinishedRunIsLast(db: Db, s: SessionId, t: seq<Message>, r: RunId, role: Role)
    requires TranscriptSound(db, s, t) && InSession(db, r, s) && !Terminal(db.runs[r].status)
    requires HasMessage(t, r, role)
    ensures t[|t| - 1].run == r
    ensures role.Assistant? ==> t[|t| - 1].role.Assistant?
  {
    var i :| 0 <= i < |t| && t[i].run == r && t[i].role == role;
    var last := |t| - 1;
    if i < last {
      assert !Older(db, t[last].run, t[i].run);
      assert !Older(db, r, t[last].run);
      OlderTotal(db, r, t[last].run);
      assert !Older(db, t[i + 1].run, t[i].run) && !Older(db, r, t[i + 1].run);
      OlderTotal(db, r, t[i + 1].run);
    }
  }

  /** The new message fits behind the last one. */
  lemma AppendAlternates(db: Db, s: SessionId, t: seq<Message>, r: RunId, role: Role, content: string)
    requires TranscriptSound(db, s, t) && InSession(db, r, s) && !Terminal(db.runs[r].status) && !HasMessage(t, r, role)
    requires role.Assistant? ==> EndsWith(t, r, User)
    ensures Alternates(t + [Message(r, role, content, |t| + 1)])
  {
    if t != [] {
      var last := t[|t| - 1];
      assert !(last.run == r && last.role == role);
      if role.User? && last.run == r { UserBefore(db, s, t, r); }
    }
  }

  /** An answer follows its question. */
  lemma UserBefore(db: Db, s: SessionId, t: seq<Message>, r: RunId)
    requires TranscriptSound(db, s, t) && t != [] && t[|t| - 1].run == r
    ensures HasMessage(t, r, User)
  {
    var n := |t| - 1;
    if t[n].role.Assistant? && n > 0 { assert t[n - 1].role.User? && t[n - 1].run == r; }
  }

  lemma AppendOrdered(db: Db, s: SessionId, t: seq<Message>, r: RunId, role: Role, content: string)
    requires TranscriptSound(db, s, t) && InSession(db, r, s) && !Terminal(db.runs[r].status)
    requires forall q | q in db.runs && InSession(db, q, s) && Older(db, q, r) :: Terminal(db.runs[q].status)
    requires role.User? ==> content == db.runs[r].question
    ensures Sourced(db, s, t + [Message(r, role, content, |t| + 1)])
    ensures Ordered(db, s, t + [Message(r, role, content, |t| + 1)])
  {
  }

  /** Appending a message of an unfinished run, when its own earlier message is in place. */
  lemma AppendTranscript(db: Db, s: SessionId, t: seq<Message>, r: RunId, role: Role, content: string)
    requires TranscriptSound(db, s, t) && InSession(db, r, s) && !Terminal(db.runs[r].status)
    requires forall q | q in db.runs && InSession(db, q, s) && Older(db, q, r) :: Terminal(db.runs[q].status)
    requires role.User? ==> content == db.runs[r].question
    requires role.Assistant? ==> EndsWith(t, r, User)
    ensures TranscriptSound(db, s, Append(t, r, role, content))
    ensures EndsWith(Append(t, r, role, content), r, role)
  {
    if HasMessage(t, r, role) {
      UnfinishedRunIsLast(db, s, t, r, role);
    } else {
      MaxSeqNoIsLength(t);
      AppendAlternates(db, s, t, r, role, content);
      AppendOrdered(db, s, t, r, role, content);
    }
  }

  lemma AppendSound(db: Db, s: SessionId, r: RunId, role: Role, content: string)
    requires DbSound(db) && InSession(db, r, s) && s in db.sessions && Active(db.runs[r].status)
    requires role.User? ==> content == db.runs[r].question
    requires role.Assistant? ==> EndsWith(db.sessions[s].transcript, r, User)
    ensures DbSound(AppendMessage(db, s, r, role, content)) && Extends(db, AppendMessage(db, s, r, role, content))
    ensures EndsWith(AppendMessage(db, s, r, role, content).sessions[s].transcript, r, role)
  {
    var db' := AppendMessage(db, s, r, role, content);
    var t := db.sessions[s].transcript;
    AppendTranscript(db, s, t, r, role, content);
    SameRowsSound(db, db');
  }

  lemma SameRowsOlderDone(db: Db, db': Db)
    requires OlderDone(db) && db'.runs == db.runs
    ensures OlderDone(db')
  {
    forall p, q | p in db'.runs && Bound(db', p) && Active(db'.runs[p].status)
                  && q in db'.runs && InSession(db', q, SessionOf(db', p)) && Older(db', q, p)
      ensures Terminal(db'.runs[q].status)
    {
      assert InSession(db, q, SessionOf(db, p)) && Older(db, q, p);
    }
  }

  lemma SameRowsTranscripts(db: Db, db': Db)
    requires TranscriptsSound(db) && db'.runs == db.runs
    requires forall s | s in db'.sessions ::
               TranscriptSound(db, s, db'.sessions[s].transcript)
    ensures TranscriptsSound(db')
  {
    forall s | s in db'.sessions ensures TranscriptSound(db', s, db'.sessions[s].transcript) {
      SameRunsTranscript(db, db', s, db'.sessions[s].transcript);
    }
  }

  lemma SameRunsTranscript(db: Db, db': Db, s: SessionId, t: seq<Message>)
    requires db'.runs == db.runs && TranscriptSound(db, s, t)
    ensures TranscriptSound(db', s, t)
  {
    assert Sourced(db', s, t);
    forall i, j | 0 <= i < j < |t| ensures !Older(db', t[j].run, t[i].run) {
      assert !Older(db, t[j].run, t[i].run);
    }
    forall i, r | 0 <= i < |t| && r in db'.runs && InSession(db', r, s) && !Terminal(db'.runs[r].status)
      ensures !Older(db', r, t[i].run)
    {
      assert InSession(db, r, s) && !Older(db, r, t[i].run);
    }
  }

  // ---- Steps --------------------------------------------------------------------------------

  lemma OneActivePerSession(db: Db, r: RunId, q: RunId)
    requires SlotsSound(db) && Bound(db, r) && Bound(db, q) && SessionOf(db, r) == SessionOf(db, q)
    requires Active(db.runs[r].status) && Active(db.runs[q].status)
    ensures r == q
  {
    assert HoldsSlot(db, r) && HoldsSlot(db, q);
  }

  /** A change of one row leaves the other executing workers alone, and its own if it stays active. */
  lemma OneRowKeepsWorker(db: Db, db': Db, r: RunId, q: RunId, phase: Phase)
    requires OneRow(db, db', r) && WorkerSound(db, q, phase) && db'.now == db.now && db'.lease == db.lease
    requires r == q && Bound(db, r) ==> Active(db'.runs[r].status) && Leased(db', r, db.now)
    ensures WorkerSound(db', q, phase)
  {
  }

  lemma SweepKeepsWorker(db: Db, q: RunId, phase: Phase)
    requires WorkerSound(db, q, phase)
    ensures WorkerSound(Sweep(db), q, phase)
  {
  }

  lemma AppendKeepsWorker(db: Db, s: SessionId, r: RunId, role: Role, content: string, q: RunId, phase: Phase)
    requires SlotsSound(db) && InSession(db, r, s) && s in db.sessions && Active(db.runs[r].status)
    requires WorkerSound(db, q, phase) && q != r
    ensures WorkerSound(AppendMessage(db, s, r, role, content), q, phase)
  {
    if Bound(db, q) && SessionOf(db, q) == s { OneActivePerSession(db, r, q); }
  }

  lemma CreateKeepsWorker(db: Db, r: RunId, session: Option<SessionId>, t: nat, question: string, q: RunId,
                          phase: Phase)
    requires r !in db.runs && WorkerSound(db, q, phase)
    ensures WorkerSound(CreateRun(db, r, session, t, question), q, phase)
  {
  }

  ghost predicate Preserved(st: State, st': State) { Core(st') && Extends(st.db, st'.db) }

  /** A change of the row of `r` is harmless when no executing worker of `r` loses its claim. */
  lemma RowStepSound(db: Db, db': Db, workers: map<WorkerId, Pc>, r: RunId)
    requires DbSound(db) && WorkersSound(db, workers) && OneRow(db, db', r)
    requires db'.now == db.now && db'.lease == db.lease
    requires Active(db'.runs[r].status) || db'.runs[r].status.Queued? ==> db'.runs[r].heartbeat.Some?
    requires Bound(db, r) && (exists w | w in workers :: workers[w].Working? && workers[w].run == r) ==>
               Active(db'.runs[r].status) && Leased(db', r, db.now)
    ensures DbSound(db') && Extends(db, db') && WorkersSound(db', workers)
  {
    forall w | w in workers && workers[w].Working? ensures WorkerSound(db', workers[w].run, workers[w].phase) {
      assert WorkerSound(db, workers[w].run, workers[w].phase);
      OneRowKeepsWorker(db, db', r, workers[w].run, workers[w].phase);
    }
    OneRowSound(db, db', r);
  }

  lemma MoveWorker(db: Db, workers: map<WorkerId, Pc>, w: WorkerId, pc: Pc)
    requires WorkersSound(db, workers)
    requires pc.Working? ==> WorkerSound(db, pc.run, pc.phase)
    requires pc.Working? ==> (w in workers && workers[w].Working? && workers[w].run == pc.run)
                             || (Bound(db, pc.run) ==> forall v | v in workers && workers[v].Working? ::
                                   workers[v].run != pc.run)
    ensures WorkersSound(db, workers[w := pc])
  {
  }

  /** An operation that leaves every row of runs and every slot alone. */
  lemma SameRowsSound(db: Db, db': Db)
    requires DbSound(db) && db'.runs == db.runs
    requires forall s | s in db.sessions :: s in db'.sessions && db'.sessions[s].active == db.sessions[s].active
    requires forall s | s in db'.sessions && s !in db.sessions :: db'.sessions[s].active == None
    requires forall s | s in db'.sessions :: TranscriptSound(db, s, db'.sessions[s].transcript)
    ensures DbSound(db') && Extends(db, db')
  {
    assert SlotsSound(db') by {
      forall r | r in db'.runs && Bound(db', r) && Active(db'.runs[r].status) ensures HoldsSlot(db', r) {
        assert HoldsSlot(db, r);
      }
    }
    SameRowsOlderDone(db, db');
    SameRowsTranscripts(db, db');
  }

  lemma NewSessionDb(db: Db, s: SessionId, db': Db)
    requires DbSound(db) && s !in db.sessions && db' == db.(sessions := db.sessions[s := Session(None, [])])
    ensures DbSound(db') && Extends(db, db')
  {
    forall q | q in db'.sessions ensures TranscriptSound(db, q, db'.sessions[q].transcript) {
      if q != s { assert TranscriptSound(db, q, db.sessions[q].transcript); }
    }
    SameRowsSound(db, db');
  }

  lemma NewSessionWorker(db: Db, s: SessionId, db': Db, r: RunId, phase: Phase)
    requires WorkerSound(db, r, phase) && s !in db.sessions
             && db' == db.(sessions := db.sessions[s := Session(None, [])])
    ensures WorkerSound(db', r, phase)
  {
  }

  lemma NewSessionWorkers(db: Db, s: SessionId, db': Db, workers: map<WorkerId, Pc>)
    requires WorkersSound(db, workers) && s !in db.sessions
             && db' == db.(sessions := db.sessions[s := Session(None, [])])
    ensures WorkersSound(db', workers)
  {
    forall w | w in workers && workers[w].Working? ensures WorkerSound(db', workers[w].run, workers[w].phase) {
      NewSessionWorker(db, s, db', workers[w].run, workers[w].phase);
    }
  }

  lemma NewSessionSound(st: State, s: SessionId)
    requires Core(st) && Enabled(st, NewSession(s))
    ensures Preserved(st, Next(st, NewSession(s)))
  {
    var db' := Next(st, NewSession(s)).db;
    NewSessionDb(st.db, s, db');
    NewSessionWorkers(st.db, s, db', st.workers);
  }

  lemma CreateStepSound(st: State, r: RunId, session: Option<SessionId>, t: nat, question: string)
    requires Core(st) && Enabled(st, Create(r, session, t, question))
    ensures Preserved(st, Next(st, Create(r, session, t, question)))
  {
    var db' := CreateRun(st.db, r, session, t, question);
    forall w | w in st.workers && st.workers[w].Working?
      ensures WorkerSound(db', st.workers[w].run, st.workers[w].phase)
    {
      CreateKeepsWorker(st.db, r, session, t, question, st.workers[w].run, st.workers[w].phase);
    }
    CreateSound(st.db, r, session, t, question);
  }

  lemma MarkStepSound(st: State, r: RunId)
    requires Core(st) && Enabled(st, Mark(r))
    ensures Preserved(st, Next(st, Mark(r)))
  {
    RowStepSound(st.db, MarkQueued(st.db, r), st.workers, r);
  }

  lemma CancelRow(db: Db, r: RunId, reason: string)
    requires DbSound(db) && r in db.runs && !Terminal(db.runs[r].status)
    ensures var db' := RequestCancel(db, r, reason);
            && OneRow(db, db', r) && db'.now == db.now && db'.lease == db.lease
            && (Active(db'.runs[r].status) || db'.runs[r].status.Queued? ==> db'.runs[r].heartbeat.Some?)
            && (Active(db.runs[r].status) ==>
                  Active(db'.runs[r].status) && db'.runs[r].heartbeat == db.runs[r].heartbeat)
  {
  }

  /** Whoever executes a run keeps its lease when the row only is flagged. */
  lemma CancelKeepsLease(db: Db, workers: map<WorkerId, Pc>, r: RunId, reason: string)
    requires DbSound(db) && WorkersSound(db, workers) && r in db.runs && !Terminal(db.runs[r].status) && Bound(db, r)
    requires exists w | w in workers :: workers[w].Working? && workers[w].run == r
    ensures var db' := RequestCancel(db, r, reason); Active(db'.runs[r].status) && Leased(db', r, db.now)
  {
    var w :| w in workers && workers[w].Working? && workers[w].run == r;
    assert WorkerSound(db, r, workers[w].phase);
    CancelRow(db, r, reason);
  }

  lemma CancelStepSound(st: State, r: RunId, reason: string)
    requires Core(st) && Enabled(st, Cancel(r, reason))
    ensures Preserved(st, Next(st, Cancel(r, reason)))
  {
    if !Terminal(st.db.runs[r].status) {
      CancelRow(st.db, r, reason);
      if Bound(st.db, r) && exists w | w in st.workers :: st.workers[w].Working? && st.workers[w].run == r {
        CancelKeepsLease(st.db, st.workers, r, reason);
      }
      RowStepSound(st.db, RequestCancel(st.db, r, reason), st.workers, r);
    }
  }

  lemma TickStepSound(st: State, t: nat)
    requires Core(st) && Enabled(st, Tick(t))
    ensures Preserved(st, Next(st, Tick(t)))
  {
    SameRowsSound(st.db, st.db.(now := t));
  }

  lemma QueueKeepsDb(db: Db, queue: seq<RunId>)
    requires DbSound(db)
    ensures DbSound(db.(queue := queue)) && Extends(db, db.(queue := queue))
  {
    SameRowsSound(db, db.(queue := queue));
  }

  lemma QueueKeepsWorkers(db: Db, workers: map<WorkerId, Pc>, queue: seq<RunId>)
    requires WorkersSound(db, workers)
    ensures WorkersSound(db.(queue := queue), workers)
  {
    forall w | w in workers && workers[w].Working?
      ensures WorkerSound(db.(queue := queue), workers[w].run, workers[w].phase)
    {
      assert WorkerSound(db, workers[w].run, workers[w].phase);
    }
  }

  /** What the queue steps have in common: the queue changes, one worker moves on without executing. */
  lemma QueueStepSound(st: State, a: Action)
    requires Core(st) && Enabled(st, a)
    requires a.Pop? || a.Push? || a.PutBack? || a.Close? || a.Crash?
    ensures Preserved(st, Next(st, a))
  {
    QueueKeepsDb(st.db, Next(st, a).db.queue);
    QueueKeepsWorkers(st.db, st.workers, Next(st, a).db.queue);
    QueueMove(st, a, Next(st, a).db.queue, Next(st, a).workers[a.w]);
    MoveWorker(Next(st, a).db, st.workers, a.w, Next(st, a).workers[a.w]);
  }

  lemma QueueMove(st: State, a: Action, queue: seq<RunId>, pc: Pc)
    requires Enabled(st, a) && (a.Pop? || a.Push? || a.PutBack? || a.Close? || a.Crash?)
    requires queue == Next(st, a).db.queue && pc == Next(st, a).workers[a.w]
    ensures Next(st, a) == State(st.db.(queue := queue), st.workers[a.w := pc]) && !pc.Working?
  {
  }

  lemma SweepStepSound(st: State, w: WorkerId, ids: seq<RunId>)
    requires Core(st) && Enabled(st, SweepRuns(w, ids))
    ensures Preserved(st, Next(st, SweepRuns(w, ids)))
  {
    var db' := Sweep(st.db);
    forall v | v in st.workers && st.workers[v].Working?
      ensures WorkerSound(db', st.workers[v].run, st.workers[v].phase)
    {
      SweepKeepsWorker(st.db, st.workers[v].run, st.workers[v].phase);
    }
    SweepSound(st.db);
    MoveWorker(db', st.workers, w, Next(st, SweepRuns(w, ids)).workers[w]);
  }

  predicate Starts(db: Db, r: RunId)
  {
    r in db.runs && !Terminal(db.runs[r].status) && !Start(db, r).1.Busy?
  }

  lemma StartRow(db: Db, r: RunId)
    requires DbSound(db) && Starts(db, r)
    ensures var (db', outcome) := Start(db, r);
            && OneRow(db, db', r) && db'.now == db.now && db'.lease == db.lease
            && (Active(db'.runs[r].status) || db'.runs[r].status.Queued? ==> db'.runs[r].heartbeat.Some?)
            && (outcome.Claimed? ==> WorkerSound(db', r, Fresh))
  {
  }

  /** The slot check keeps a second worker away from a run that is being executed. */
  lemma StartNotExecuted(db: Db, r: RunId, q: RunId, phase: Phase)
    requires SlotsSound(db) && Starts(db, r) && Bound(db, r) && WorkerSound(db, q, phase)
    ensures q != r
  {
  }

  lemma StartSound(db: Db, workers: map<WorkerId, Pc>, r: RunId)
    requires DbSound(db) && WorkersSound(db, workers)
    ensures var (db', outcome) := Start(db, r);
            && DbSound(db') && Extends(db, db') && WorkersSound(db', workers)
            && (outcome.Claimed? ==> WorkerSound(db', r, Fresh))
            && (outcome.Claimed? && Bound(db, r) ==> forall v | v in workers && workers[v].Working? ::
                  workers[v].run != r)
  {
    if Starts(db, r) {
      StartRow(db, r);
      forall v | v in workers && workers[v].Working? ensures Bound(db, r) ==> workers[v].run != r {
        assert WorkerSound(db, workers[v].run, workers[v].phase);
        if Bound(db, r) { StartNotExecuted(db, r, workers[v].run, workers[v].phase); }
      }
      RowStepSound(db, Start(db, r).0, workers, r);
    }
  }

  lemma BeginStepSound(st: State, w: WorkerId)
    requires Core(st) && Enabled(st, Begin(w))
    ensures Preserved(st, Next(st, Begin(w)))
  {
    var r := At(st, w).run;
    var (db', outcome) := Start(st.db, r);
    StartSound(st.db, st.workers, r);
    MoveWorker(db', st.workers, w, Next(st, Begin(w)).workers[w]);
  }

  lemma ProgressStepSound(st: State, a: Action)
    requires Core(st) && Enabled(st, a)
    requires a.Heartbeat? || a.WriteAnswering?
    ensures Preserved(st, Next(st, a))
  {
    var r := st.workers[a.w].run;
    assert WorkerSound(st.db, r, st.workers[a.w].phase);
    RowStepSound(st.db, Next(st, a).db, st.workers, r);
  }

  lemma FinishSound(db: Db, workers: map<WorkerId, Pc>, w: WorkerId, r: RunId, status: Status, pc: Pc)
    requires DbSound(db) && WorkersSound(db, workers) && w in workers && workers[w].Working? && workers[w].run == r
    requires r in db.runs && Terminal(status) && !pc.Working?
    ensures var db' := Finalize(db, r, status);
            DbSound(db') && Extends(db, db') && WorkersSound(db', workers[w := pc])
  {
    MoveWorker(db, workers, w, pc);
    RowStepSound(db, Finalize(db, r, status), workers[w := pc], r);
  }

  lemma FinishStepSound(st: State, w: WorkerId, status: Status)
    requires Core(st) && Enabled(st, Finish(w, status))
    ensures Preserved(st, Next(st, Finish(w, status)))
  {
    var r := st.workers[w].run;
    assert WorkerSound(st.db, r, st.workers[w].phase);
    FinishSound(st.db, st.workers, w, r, status, if status.Completed? then Closing(r) else Idle);
  }

  /** Failing a run that nobody executes. */
  lemma FailSound(db: Db, workers: map<WorkerId, Pc>, w: WorkerId, r: RunId)
    requires DbSound(db) && WorkersSound(db, workers) && r in db.runs
    requires Bound(db, r) ==> forall v | v in workers && workers[v].Working? :: workers[v].run != r
    ensures var db' := Finalize(db, r, Failed);
            DbSound(db') && Extends(db, db') && WorkersSound(db', workers[w := Idle])
  {
    RowStepSound(db, Finalize(db, r, Failed), workers, r);
    MoveWorker(Finalize(db, r, Failed), workers, w, Idle);
  }

  /** A finished run is executed by nobody. */
  lemma FinishedNotExecuted(st: State, r: RunId)
    requires Core(st) && Bound(st.db, r) && Terminal(st.db.runs[r].status)
    ensures !Executed(st, r)
  {
  }

  lemma FailStepSound(st: State, w: WorkerId)
    requires Core(st) && ClosersDone(st) && Enabled(st, Fail(w))
    ensures Preserved(st, Next(st, Fail(w)))
  {
    var r := Handles(At(st, w)).value;
    if At(st, w).Closing? && Bound(st.db, r) { FinishedNotExecuted(st, r); }
    forall v | v in st.workers && st.workers[v].Working? && Bound(st.db, r) ensures st.workers[v].run != r {
      assert !Executes(st, v, r);
    }
    FailSound(st.db, st.workers, w, r);
  }

  lemma OthersKeptByAppend(db: Db, workers: map<WorkerId, Pc>, r: RunId, role: Role, content: string)
    requires SlotsSound(db) && WorkersSound(db, workers) && Bound(db, r) && Active(db.runs[r].status)
    requires SessionOf(db, r) in db.sessions
    requires forall v | v in workers && workers[v].Working? :: workers[v].run != r
    ensures WorkersSound(AppendMessage(db, SessionOf(db, r), r, role, content), workers)
  {
    var db' := AppendMessage(db, SessionOf(db, r), r, role, content);
    forall v | v in workers && workers[v].Working? ensures WorkerSound(db', workers[v].run, workers[v].phase) {
      AppendKeepsWorker(db, SessionOf(db, r), r, role, content, workers[v].run, workers[v].phase);
    }
  }

  lemma SayWorkers(db: Db, workers: map<WorkerId, Pc>, w: WorkerId, r: RunId, role: Role, content: string, pc: Pc)
    requires SlotsSound(db) && WorkersSound(db, workers) && Bound(db, r) && Active(db.runs[r].status)
    requires w in workers && workers[w].Working? && workers[w].run == r && SessionOf(db, r) in db.sessions
    requires pc.Working? && pc.run == r
    requires WorkerSound(AppendMessage(db, SessionOf(db, r), r, role, content), r, pc.phase)
    ensures WorkersSound(AppendMessage(db, SessionOf(db, r), r, role, content), workers[w := pc])
  {
    MoveWorker(db, workers, w, Idle);
    OthersKeptByAppend(db, workers[w := Idle], r, role, content);
    MoveWorker(AppendMessage(db, SessionOf(db, r), r, role, content), workers[w := Idle], w, pc);
    assert workers[w := Idle][w := pc] == workers[w := pc];
  }

  lemma SaySound(db: Db, workers: map<WorkerId, Pc>, w: WorkerId, r: RunId, role: Role, content: string)
    requires DbSound(db) && WorkersSound(db, workers) && r in db.runs
    requires w in workers && workers[w].Working? && workers[w].run == r
    requires role.User? ==> content == db.runs[r].question
    requires role.Assistant? ==> !workers[w].phase.Fresh?
    ensures var db' := Say(db, r, role, content);
            && DbSound(db') && Extends(db, db')
            && WorkersSound(db', workers[w := Working(r, if role.User? then Asked else Answered)])
  {
    var pc := Working(r, if role.User? then Asked else Answered);
    assert WorkerSound(db, r, workers[w].phase);
    if Bound(db, r) {
      SayWorkers(db, workers, w, r, role, content, pc) by { AppendSound(db, SessionOf(db, r), r, role, content); }
      AppendSound(db, SessionOf(db, r), r, role, content);
    } else {
      MoveWorker(db, workers, w, pc);
    }
  }

  lemma StepCore(st: State, a: Action)
    requires Core(st) && ClosersDone(st) && Enabled(st, a)
    ensures Preserved(st, Next(st, a))
  {
    match a
    case NewSession(s) => NewSessionSound(st, s);
    case Create(r, session, t, q) => CreateStepSound(st, r, session, t, q);
    case Mark(r) => MarkStepSound(st, r);
    case Cancel(r, reason) => CancelStepSound(st, r, reason);
    case Tick(t) => TickStepSound(st, t);
    case SweepRuns(w, ids) => SweepStepSound(st, w, ids);
    case Begin(w) => BeginStepSound(st, w);
    case Heartbeat(w) => ProgressStepSound(st, a);
    case WriteAnswering(w) => ProgressStepSound(st, a);
    case Finish(w, status) => FinishStepSound(st, w, status);
    case WriteUser(w) =>
      SaySound(st.db, st.workers, w, st.workers[w].run, User, st.db.runs[st.workers[w].run].question);
    case WriteAssistant(w, text) =>
      SaySound(st.db, st.workers, w, st.workers[w].run, Assistant, text);
    case Fail(w) => FailStepSound(st, w);
    case Pop(w) => QueueStepSound(st, a);
    case Push(w) => QueueStepSound(st, a);
    case PutBack(w) => QueueStepSound(st, a);
    case Close(w) => QueueStepSound(st, a);
    case Crash(w) => QueueStepSound(st, a);
  }

  lemma StepKeepsFinished(st: State, a: Action, r: RunId)
    requires Enabled(st, a) && Extends(st.db, Next(st, a).db) && Bound(Next(st, a).db, r) && r in st.db.runs
    requires Bound(st.db, r) ==> Terminal(st.db.runs[r].status)
    ensures Terminal(Next(st, a).db.runs[r].status)
  {
  }

  /** A worker starts to close only in the step that finishes its run. */
  lemma StepClosers(st: State, a: Action, w: WorkerId)
    requires Enabled(st, a) && w in Next(st, a).workers && Next(st, a).workers[w].Closing?
    requires !(w in st.workers && st.workers[w] == Next(st, a).workers[w])
    ensures Next(st, a).workers[w].run in Next(st, a).db.runs
    ensures Terminal(Next(st, a).db.runs[Next(st, a).workers[w].run].status)
  {
  }

  lemma StepSound(st: State, a: Action)
    requires Inv(st) && Enabled(st, a)
    ensures Inv(Next(st, a)) && Extends(st.db, Next(st, a).db)
  {
    var st' := Next(st, a);
    StepCore(st, a);
    forall w | w in st'.workers && st'.workers[w].Closing?
      ensures st'.workers[w].run in st'.db.runs
      ensures Bound(st'.db, st'.workers[w].run) ==> Terminal(st'.db.runs[st'.workers[w].run].status)
    {
      if w in st.workers && st.workers[w] == st'.workers[w] {
        if Bound(st'.db, st'.workers[w].run) { StepKeepsFinished(st, a, st'.workers[w].run); }
      } else {
        StepClosers(st, a, w);
      }
    }
  }
}
