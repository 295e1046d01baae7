// Concrete behaviours of the chat-run protocol: the states in which the guarantees end are reachable.
// One session 0 with an older run 1 and a younger run 2, and a lease of 0, so that a single tick makes
// a sweep push run 1 a second time.
module ChatWitness {
  import opened Common
  import opened ChatData
  import opened ChatProtocol
  import opened ChatSafety
  import opened ChatTheorems
  import opened ChatRecovery
  import opened ChatPaths

  function Older1(status: Status, heartbeat: Option<nat>): Run { Run(Some(0), 0, "a", status, heartbeat, false, "") }

  function Younger(status: Status, heartbeat: Option<nat>): Run { Run(Some(0), 1, "b", status, heartbeat, false, "") }

  function World(now: nat, older: Run, younger: Run, active: Option<RunId>, t: seq<Message>, queue: seq<RunId>): Db
  {
    Db(0, now, map[1 := older, 2 := younger], map[0 := Session(active, t)], queue)
  }

  const ASKED := [Message(1, User, "a", 1)]

  // ---- Both runs created -----------------------------------------------------------------------------

  function Created(): State { State(World(0, Older1(Accepted, None), Younger(Accepted, None), None, [], []), map[]) }

  lemma CreatedReachable()
    ensures Leads(Init(0), Created())
  {
    var s0 := Init(0);
    var s1 := State(Db(0, 0, map[], map[0 := Session(None, [])], []), map[]);
    var s2 := State(Db(0, 0, map[1 := Older1(Accepted, None)], map[0 := Session(None, [])], []), map[]);
    LeadsNowhere(s0);
    LeadsOn(s0, s0, NewSession(0), s1);
    LeadsOn(s0, s1, Create(1, Some(0), 0, "a"), s2);
    LeadsOn(s0, s2, Create(2, Some(0), 1, "b"), Created());
  }

  // ---- An accepted run in the way ----------------------------------------------------------------------

  function Blocked(): State
  {
    State(World(0, Older1(Accepted, None), Younger(Queued, Some(0)), None, [], []), map[1 := Ready(2)])
  }

  lemma BlockedIsBusy()
    ensures Start(Blocked().db, 2).1.Busy?
  {
    var db := Blocked().db;
    assert InSession(db, 1, 0) && Older(db, 1, 2) && OlderUnfinishedExists(db, 2, 0);
  }

  lemma BlockedPopped()
    ensures Leads(Init(0), State(Blocked().db, map[1 := Popped(2)]))
  {
    var s0, db := Init(0), Blocked().db;
    CreatedReachable();
    LeadsToMarked(s0, Created(), 2);
    assert MarkQueued(Created().db, 2) == db.(queue := [2]);
    LeadsToPopped(s0, State(db.(queue := [2]), map[]), 1);
    assert db.(queue := [2]).(queue := [2][1..]) == db;
  }

  /** A worker about to start the younger run finds the older one, which was never queued, in its way. */
  lemma BlockedReachable()
    ensures Reachable(Blocked()) && Start(Blocked().db, 2).1.Busy?
  {
    BlockedPopped();
    LeadsToReady(Init(0), State(Blocked().db, map[1 := Popped(2)]), 1, 2);
    BlockedIsBusy();
    LeadsReaches(0, Blocked());
  }

  // ---- One run, two messages ------------------------------------------------------------------------------

  /** The sweep has pushed the older run a second time; both its messages and the younger run's wait. */
  function Pushed(): State
  {
    State(World(1, Older1(Queued, Some(1)), Younger(Queued, Some(1)), None, [], [1, 1, 2]), map[1 := Idle])
  }

  function Late(now: nat): Db { World(now, Older1(Queued, Some(0)), Younger(Accepted, None), None, [], [1]) }

  function Swept1(): Db { World(1, Older1(Queued, Some(1)), Younger(Accepted, None), None, [], [1]) }

  lemma LateReachable()
    ensures Leads(Init(0), State(Late(1), map[]))
  {
    CreatedReachable();
    LeadsToMarked(Init(0), Created(), 1);
    assert MarkQueued(Created().db, 1) == Late(0);
    LeadsOn(Init(0), State(Late(0), map[]), Tick(1), State(Late(1), map[]));
  }

  lemma SweepOfLate()
    ensures Sweep(Late(1)) == Swept1() && forall r :: r in [1] <==> Stale(Late(1), r)
  {
  }

  lemma SweptReachable()
    ensures Leads(Init(0), State(Swept1(), map[1 := Pushing([1], None)]))
  {
    LateReachable();
    SweepOfLate();
    LeadsOn(Init(0), State(Late(1), map[]), SweepRuns(1, [1]), State(Swept1(), map[1 := Pushing([1], None)]));
  }

  lemma PushedReachable()
    ensures Leads(Init(0), Pushed())
  {
    var s0 := Init(0);
    var swept := Swept1();
    var twice := swept.(queue := [1, 1]);
    SweptReachable();
    LeadsToPushed(s0, State(swept, map[1 := Pushing([1], None)]), 1, 1);
    assert Enqueue(swept, 1) == twice && map[1 := Pushing([1], None)][1 := Idle] == map[1 := Idle];
    LeadsToMarked(s0, State(twice, map[1 := Idle]), 2);
    assert MarkQueued(twice, 2) == Pushed().db;
  }

  function Waiting1(): Db { World(1, Older1(Queued, Some(1)), Younger(Queued, Some(1)), None, [], [1, 2]) }

  /** Worker 1 is about to start the older run. */
  lemma ReadyReachable()
    ensures Reachable(State(Waiting1(), map[1 := Ready(1)]))
    ensures Leads(Init(0), State(Waiting1(), map[1 := Ready(1)]))
  {
    PushedReachable();
    LeadsToPopped(Init(0), Pushed(), 1);
    assert Pushed().db.(queue := Pushed().db.queue[1..]) == Waiting1();
    assert Pushed().workers[1 := Popped(1)] == map[1 := Popped(1)];
    LeadsToReady(Init(0), State(Waiting1(), map[1 := Popped(1)]), 1, 1);
    LeadsReaches(0, State(Waiting1(), map[1 := Ready(1)]));
  }

  function Claimed1(t: seq<Message>, queue: seq<RunId>): Db
  {
    World(1, Older1(Retrieving, Some(1)), Younger(Queued, Some(1)), Some(1), t, queue)
  }

  /** Worker 1 executes the older run. */
  lemma WorkingReachable()
    ensures Reachable(State(Claimed1([], [1, 2]), map[1 := Working(1, Fresh)]))
    ensures Leads(Init(0), State(Claimed1([], [1, 2]), map[1 := Working(1, Fresh)]))
  {
    ReadyReachable();
    OlderCanClaim();
    LeadsToWorking(Init(0), State(Waiting1(), map[1 := Ready(1)]), 1, 1);
    assert map[1 := Ready(1)][1 := Working(1, Fresh)] == map[1 := Working(1, Fresh)];
    LeadsReaches(0, State(Claimed1([], [1, 2]), map[1 := Working(1, Fresh)]));
  }

  lemma OlderCanClaim()
    ensures CanClaim(Waiting1(), 1) && Touch(ClaimSlot(Waiting1(), 1), 1, Retrieving) == Claimed1([], [1, 2])
  {
    assert !OlderUnfinishedExists(Waiting1(), 1, 0);
  }

  /** Worker 1 has written the question of the older run, worker 2 holds the duplicate message. */
  function Duplicate(): State { State(Claimed1(ASKED, [2]), map[1 := Working(1, Asked), 2 := Popped(1)]) }

  lemma DuplicateReachable()
    ensures Reachable(Duplicate()) && Leads(Init(0), Duplicate())
  {
    var s0 := Init(0);
    var asked := State(Claimed1(ASKED, [1, 2]), map[1 := Working(1, Asked)]);
    WorkingReachable();
    assert Append([], 1, User, "a") == ASKED;
    LeadsOn(s0, State(Claimed1([], [1, 2]), map[1 := Working(1, Fresh)]), WriteUser(1), asked);
    LeadsToPopped(s0, asked, 2);
    assert asked.db.(queue := [1, 2][1..]) == Claimed1(ASKED, [2]);
    LeadsReaches(0, Duplicate());
  }

  // ---- A slot leaks ------------------------------------------------------------------------------------------

  /** Both ways to leak a slot start in reachable states: a cancellation inside the start ... */
  lemma CancelLeakReachable(reason: string)
    ensures exists st: State, w: WorkerId, r: RunId ::
              && Reachable(st) && At(st, w) == Ready(r) && Bound(st.db, r) && !Terminal(st.db.runs[r].status)
              && Leaked(State(ClaimSlot(RequestCancel(st.db, r, reason), r), st.workers[w := Idle]),
                        SessionOf(st.db, r), r)
  {
    var st := State(Waiting1(), map[1 := Ready(1)]);
    ReadyReachable();
    ReachableSound(st);
    OlderCanClaim();
    CancelInsideStartLeaks(st, 1, 1, reason);
  }

  /** ... and a crash inside the finalization. */
  lemma CrashLeakReachable()
    ensures exists st: State, w: WorkerId, r: RunId ::
              && Reachable(st) && Executes(st, w, r) && Bound(st.db, r)
              && Leaked(State(Touch(st.db, r, Completed), st.workers[w := Idle]), SessionOf(st.db, r), r)
  {
    var st := State(Claimed1([], [1, 2]), map[1 := Working(1, Fresh)]);
    WorkingReachable();
    ReachableSound(st);
    CrashInsideFinalizeLeaks(st, 1, 1, Completed);
    assert Executes(st, 1, 1);
  }

  function Later(): Db { Waiting1().(now := Waiting1().now + 1) }

  lemma LaterReachable()
    ensures Reachable(State(Later(), map[1 := Ready(1)]))
  {
    ReadyReachable();
    LeadsOn(Init(0), State(Waiting1(), map[1 := Ready(1)]), Tick(Later().now), State(Later(), map[1 := Ready(1)]));
    LeadsReaches(0, State(Later(), map[1 := Ready(1)]));
  }

  lemma LaterIsStale()
    ensures Bound(Later(), 1) && Stale(Later(), 1) && Start(Later(), 1).1.Claimed?
  {
    OlderCanClaim();
    assert CanClaim(Later(), 1);
  }

  /** A reachable state in which a worker can still claim a run that a sweep selects. */
  lemma SweepRaceReachable()
    ensures exists st: State, w: WorkerId, r: RunId ::
              && Reachable(st) && At(st, w) == Ready(r) && Bound(st.db, r)
              && Start(st.db, r).1.Claimed? && Stale(st.db, r)
  {
    LaterReachable();
    LaterIsStale();
    var st := State(Later(), map[1 := Ready(1)]);
    assert At(st, 1) == Ready(1);
  }

  // ---- A completed run becomes failed ------------------------------------------------------------------------

  /** Worker 1 has finalized the older run as completed and still publishes; worker 2 still holds the
      duplicate message. */
  function Completed1(): State
  {
    State(World(1, Older1(Completed, Some(1)), Younger(Queued, Some(1)), None,
                ASKED + [Message(1, Assistant, "x", 2)], [2]),
          map[1 := Closing(1), 2 := Popped(1)])
  }

  function Answered1(): State
  {
    State(Claimed1(ASKED + [Message(1, Assistant, "x", 2)], [2]), map[1 := Working(1, Answered), 2 := Popped(1)])
  }

  lemma AnsweredReachable()
    ensures Leads(Init(0), Answered1())
  {
    DuplicateReachable();
    AnswerAppended();
    LeadsToAnswered(Init(0), Duplicate(), 1, 1, "x", Answered1().db);
    assert Duplicate().workers[1 := Working(1, Answered)] == Answered1().workers;
  }

  lemma CompletedReachable()
    ensures Reachable(Completed1())
  {
    AnsweredReachable();
    LeadsOn(Init(0), Answered1(), Finish(1, Completed), Completed1());
    LeadsReaches(0, Completed1());
  }

  lemma AnswerAppended()
    ensures Append(ASKED, 1, Assistant, "x") == ASKED + [Message(1, Assistant, "x", 2)]
  {
    assert MaxSeqNo(ASKED[..0]) == 0;
    assert MaxSeqNo(ASKED) == 1;
    assert !HasMessage(ASKED, 1, Assistant);
  }

  /** Each of the two workers of such a state can fail the finished run. */
  lemma BothCanFail(st: State, w: WorkerId, v: WorkerId, r: RunId)
    requires Inv(st) && Bound(st.db, r) && Terminal(st.db.runs[r].status) && At(st, w) == Closing(r)
             && At(st, v) == Popped(r)
    ensures Enabled(st, Fail(w)) && Next(st, Fail(w)).db.runs[r].status.Failed?
    ensures Enabled(st, Fail(v)) && Next(st, Fail(v)).db.runs[r].status.Failed?
  {
    FinishedNotExecuted(st, r);
  }

  /** In a reachable state a completed run is turned into a failed one, by its own worker or by the holder
      of a duplicate message. */
  lemma CompletedCanFail()
    ensures exists st: State, w: WorkerId, v: WorkerId, r: RunId ::
              && Reachable(st) && Bound(st.db, r) && st.db.runs[r].status.Completed?
              && At(st, w) == Closing(r) && At(st, v) == Popped(r)
              && Enabled(st, Fail(w)) && Next(st, Fail(w)).db.runs[r].status.Failed?
              && Enabled(st, Fail(v)) && Next(st, Fail(v)).db.runs[r].status.Failed?
  {
    var st := Completed1();
    CompletedReachable();
    ReachableSound(st);
    assert At(st, 1) == Closing(1) && At(st, 2) == Popped(1);
    BothCanFail(st, 1, 2, 1);
  }

  // ---- A transcript that is not serial ------------------------------------------------------------------------

  /** The handler of worker 2 fails the run that worker 1 executes; worker 3 starts the younger run. */
  function Opened(): State
  {
    State(World(1, Older1(Failed, Some(1)), Younger(Retrieving, Some(1)), Some(2), ASKED, []),
          map[1 := Working(1, Asked), 2 := Idle, 3 := Working(2, Fresh)])
  }

  function Freed(queue: seq<RunId>): Db
  {
    World(1, Older1(Failed, Some(1)), Younger(Queued, Some(1)), None, ASKED, queue)
  }

  lemma FailedState()
    ensures Failing(Duplicate(), 2, 1) == State(Freed([2]), map[1 := Working(1, Asked), 2 := Idle])
  {
  }

  lemma ReadyAfterFailure()
    ensures Leads(Failing(Duplicate(), 2, 1), State(Freed([]), map[1 := Working(1, Asked), 2 := Idle, 3 := Ready(2)]))
  {
    var start := State(Freed([2]), map[1 := Working(1, Asked), 2 := Idle]);
    FailedState();
    LeadsNowhere(start);
    LeadsToPopped(start, start, 3);
    assert Freed([2]).(queue := [2][1..]) == Freed([]);
    LeadsToReady(start, State(Freed([]), start.workers[3 := Popped(2)]), 3, 2);
    assert start.workers[3 := Popped(2)][3 := Ready(2)] == map[1 := Working(1, Asked), 2 := Idle, 3 := Ready(2)];
  }

  lemma OpenedAfterFailure()
    ensures Leads(Failing(Duplicate(), 2, 1), Opened())
  {
    var ready := State(Freed([]), map[1 := Working(1, Asked), 2 := Idle, 3 := Ready(2)]);
    ReadyAfterFailure();
    YoungerCanClaim(Freed([]));
    LeadsToWorking(Failing(Duplicate(), 2, 1), ready, 3, 2);
    assert ready.workers[3 := Working(2, Fresh)] == Opened().workers;
  }

  lemma YoungerCanClaim(db: Db)
    requires db == World(1, Older1(Failed, Some(1)), Younger(Queued, Some(1)), None, ASKED, [])
    ensures CanClaim(db, 2) && Touch(ClaimSlot(db, 2), 2, Retrieving) == Opened().db
  {
    assert !OlderUnfinishedExists(db, 2, 0);
  }

  const MIXED := [Message(1, User, "a", 1), Message(2, User, "b", 2), Message(1, Assistant, "x", 3)]

  lemma MixedAppended()
    ensures Append(ASKED, 2, User, "b") == MIXED[..2] && Append(MIXED[..2], 1, Assistant, "x") == MIXED
  {
    assert MaxSeqNo(ASKED[..0]) == 0;
    assert MaxSeqNo(ASKED) == 1;
    assert MIXED[..2][..1] == ASKED;
    assert MaxSeqNo(MIXED[..2]) == 2;
  }

  lemma MixedIsNotSerial()
    ensures Render(BlocksOf(MIXED), 1) != MIXED
  {
    var blocks := BlocksOf(MIXED);
    assert LastCut(MIXED) == 1 && LastBlock(MIXED) == Block(2, "b", Some("x"));
    assert MIXED[..1] == ASKED;
    assert LastCut(ASKED) == 0 && ASKED[..0] == [] && BlocksOf(ASKED) == [Block(1, "a", None)];
    assert blocks == [Block(1, "a", None)] + [Block(2, "b", Some("x"))];
    RenderAppend([Block(1, "a", None)], Block(2, "b", Some("x")), 1);
    assert Render([Block(1, "a", None)], 1) == ASKED by {
      assert [Block(1, "a", None)][1..] == [];
    }
    assert Render(blocks, 1)[2] == Message(2, Assistant, "x", 3);
  }

  /** The younger run's question has come between the older run's question and its answer. */
  function Mixed(n: nat, younger: Phase, older: Phase): State
    requires n <= |MIXED|
  {
    State(Opened().db.(sessions := map[0 := Session(Some(2), MIXED[..n])]),
          map[1 := Working(1, older), 2 := Idle, 3 := Working(2, younger)])
  }

  lemma MixedQuestion()
    ensures Say(Opened().db, 2, User, "b") == Mixed(2, Asked, Asked).db
  {
    MixedAppended();
  }

  lemma MixedAnswer()
    ensures Say(Mixed(2, Asked, Asked).db, 1, Assistant, "x") == Mixed(3, Asked, Answered).db
  {
    MixedAppended();
    assert MIXED[..3] == MIXED;
  }

  lemma QuestionInBetween(start: State)
    requires Leads(start, Opened())
    ensures Leads(start, Mixed(2, Asked, Asked))
  {
    MixedQuestion();
    LeadsToAsked(start, Opened(), 3, 2, Mixed(2, Asked, Asked).db);
    assert Opened().workers[3 := Working(2, Asked)] == Mixed(2, Asked, Asked).workers;
  }

  lemma AnswerBehind(start: State)
    requires Leads(start, Mixed(2, Asked, Asked))
    ensures Leads(start, Mixed(3, Asked, Answered))
  {
    MixedAnswer();
    LeadsToAnswered(start, Mixed(2, Asked, Asked), 1, 1, "x", Mixed(3, Asked, Answered).db);
    assert Mixed(2, Asked, Asked).workers[1 := Working(1, Answered)] == Mixed(3, Asked, Answered).workers;
  }

  lemma AnsweredAfterFailure()
    ensures Leads(Failing(Duplicate(), 2, 1), Mixed(3, Asked, Answered))
  {
    var start := Failing(Duplicate(), 2, 1);
    OpenedAfterFailure();
    QuestionInBetween(start);
    AnswerBehind(start);
  }

  /** The guard of `Fail` is needed: from a reachable state in which a worker executes a run, the handler
      of the holder of a duplicate message leads to a transcript that is no concatenation of blocks. */
  lemma FailureBreaksTranscript()
    ensures exists st: State, v: WorkerId, r: RunId, end: State ::
              && Reachable(st) && r in st.db.runs && Handles(At(st, v)) == Some(r) && Executed(st, r)
              && Leads(Failing(st, v, r), end) && 0 in end.db.sessions
              && Render(BlocksOf(end.db.sessions[0].transcript), 1) != end.db.sessions[0].transcript
  {
    var end := Mixed(3, Asked, Answered);
    DuplicateReachable();
    AnsweredAfterFailure();
    MixedIsNotSerial();
    assert Executes(Duplicate(), 1, 1);
    assert end.db.sessions[0].transcript == MIXED;
  }
}
