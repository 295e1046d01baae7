// What one idle worker can do for a session: from every reachable state there is a path without crashes,
// cancellations and failures on which all its runs reach a final status.
module ChatProgress {
  import opened Common
  import opened ChatData
  import opened ChatProtocol
  import opened ChatSafety
  import T = ChatTheorems
  import opened ChatRecovery
  import opened ChatPaths

  // ---- The oldest unfinished run -------------------------------------------------------------------

  ghost predicate First(db: Db, s: SessionId, r: RunId)
  {
    && s in db.sessions && InSession(db, r, s) && !Terminal(db.runs[r].status)
    && forall q | InSession(db, q, s) && Older(db, q, r) :: Terminal(db.runs[q].status)
  }

  /** A held slot is held by the oldest unfinished run. */
  lemma HolderIsFirst(db: Db, s: SessionId, r: RunId)
    requires SlotsSound(db) && OlderDone(db) && First(db, s, r) && db.sessions[s].active.Some?
    ensures db.sessions[s].active.value == r
  {
    var h := db.sessions[s].active.value;
    assert InSession(db, h, s) && Active(db.runs[h].status) && SessionOf(db, h) == s;
    assert !Older(db, h, r) && !Older(db, r, h);
    OlderTotal(db, h, r);
  }

  ghost function Unfinished(db: Db, s: SessionId): set<RunId>
  {
    set r | r in db.runs && InSession(db, r, s) && !Terminal(db.runs[r].status)
  }

  lemma {:induction false} Oldest(db: Db, s: SessionId, rest: set<RunId>) returns (r: RunId)
    requires rest != {} && rest <= Unfinished(db, s)
    ensures r in rest && forall q | q in rest :: !Older(db, q, r)
  {
    var p :| p in rest;
    r := p;
    if rest != {p} {
      var q := Oldest(db, s, rest - {p});
      if !Older(db, p, q) { r := q; }
      forall o | o in rest ensures !Older(db, o, r) {
        if o != p { assert !Older(db, o, q); }
      }
    }
  }

  lemma FirstExists(db: Db, s: SessionId) returns (r: RunId)
    requires s in db.sessions && Unfinished(db, s) != {}
    ensures First(db, s, r)
  {
    r := Oldest(db, s, Unfinished(db, s));
    forall q | InSession(db, q, s) && Older(db, q, r) ensures Terminal(db.runs[q].status) {
      assert q !in Unfinished(db, s);
    }
  }

  // ---- What a worker does with a run -----------------------------------------------------------------

  /** An executing worker writes what is missing and completes the run. */
  function Concluded(db: Db, r: RunId, phase: Phase, text: string): Db
    requires r in db.runs
  {
    var asked := if phase.Fresh? then Say(db, r, User, db.runs[r].question) else db;
    var answered := if phase.Answered? then asked else Say(asked, r, Assistant, text);
    Finalize(answered, r, Completed)
  }

  lemma LeadsToCompleted(start: State, st: State, v: WorkerId, r: RunId)
    requires Leads(start, st) && At(st, v) == Working(r, Answered) && r in st.db.runs
    ensures Leads(start, State(Finalize(st.db, r, Completed), st.workers[v := Idle]))
  {
    var closing := State(Finalize(st.db, r, Completed), st.workers[v := Closing(r)]);
    LeadsOn(start, st, Finish(v, Completed), closing);
    LeadsOn(start, closing, Close(v), State(closing.db, closing.workers[v := Idle]));
    assert closing.workers[v := Idle] == st.workers[v := Idle];
  }

  lemma LeadsToFinished(start: State, st: State, v: WorkerId, r: RunId, text: string)
    requires Leads(start, st) && At(st, v) == Working(r, Asked) && r in st.db.runs
    ensures Leads(start, State(Finalize(Say(st.db, r, Assistant, text), r, Completed), st.workers[v := Idle]))
  {
    var db := Say(st.db, r, Assistant, text);
    LeadsToAnswered(start, st, v, r, text, db);
    LeadsToCompleted(start, State(db, st.workers[v := Working(r, Answered)]), v, r);
    assert st.workers[v := Working(r, Answered)][v := Idle] == st.workers[v := Idle];
  }

  lemma LeadsToConcluded(start: State, st: State, v: WorkerId, r: RunId, phase: Phase, text: string)
    requires Leads(start, st) && At(st, v) == Working(r, phase) && r in st.db.runs
    ensures Leads(start, State(Concluded(st.db, r, phase, text), st.workers[v := Idle]))
  {
    match phase
    case Answered => LeadsToCompleted(start, st, v, r);
    case Asked => LeadsToFinished(start, st, v, r, text);
    case Fresh =>
      var db := Say(st.db, r, User, st.db.runs[r].question);
      LeadsToAsked(start, st, v, r, db);
      LeadsToFinished(start, State(db, st.workers[v := Working(r, Asked)]), v, r, text);
      assert st.workers[v := Working(r, Asked)][v := Idle] == st.workers[v := Idle];
  }

  lemma ConcludedIs(db: Db, r: RunId, phase: Phase, text: string)
    requires r in db.runs
    ensures var db' := Concluded(db, r, phase, text);
            && db'.runs == db.runs[r := db.runs[r].(status := Completed, heartbeat := Some(db.now))]
            && db'.queue == db.queue && db'.now == db.now && db'.lease == db.lease
            && db'.sessions.Keys == db.sessions.Keys
            && forall s | s in db.sessions && db.runs[r].session != Some(s) :: db'.sessions[s] == db.sessions[s]
  {
  }

  // ---- What a worker does with a message ---------------------------------------------------------------

  ghost predicate NoneStale(db: Db) { forall r | r in db.runs :: !Stale(db, r) }

  /** The tables after a worker has dealt with a message for run q. */
  function Served(db: Db, q: RunId, text: string): Db
  {
    var (db', outcome) := Start(db, q);
    match outcome
    case Skip => db'
    case Busy => Enqueue(db', q)
    case Claimed => Concluded(db', q, Fresh, text)
  }

  lemma LeadsToServedReady(start: State, st: State, w: WorkerId, q: RunId, text: string)
    requires Leads(start, st) && At(st, w) == Ready(q)
    ensures Leads(start, State(Served(st.db, q, text), st.workers[w := Idle]))
  {
    var (db, outcome) := Start(st.db, q);
    var begun := Next(st, Begin(w));
    LeadsOn(start, st, Begin(w), begun);
    match outcome
    case Skip =>
      if At(begun, w).Closing? {
        LeadsOn(start, begun, Close(w), State(db, begun.workers[w := Idle]));
      }
      assert begun.workers[w := Idle] == st.workers[w := Idle];
    case Busy =>
      LeadsOn(start, begun, PutBack(w), State(Enqueue(db, q), begun.workers[w := Idle]));
      assert begun.workers[w := Idle] == st.workers[w := Idle];
    case Claimed =>
      LeadsToConcluded(start, begun, w, q, Fresh, text);
      assert begun.workers[w := Idle] == st.workers[w := Idle];
  }

  lemma LeadsToServed(start: State, st: State, w: WorkerId, text: string)
    requires Leads(start, st) && At(st, w).Idle? && st.db.queue != [] && NoneStale(st.db)
    ensures Leads(start, State(Served(st.db.(queue := st.db.queue[1..]), st.db.queue[0], text), st.workers[w := Idle]))
  {
    var q, db := st.db.queue[0], st.db.(queue := st.db.queue[1..]);
    LeadsToPopped(start, st, w);
    var popped := State(db, st.workers[w := Popped(q)]);
    forall r | r in db.runs ensures !Stale(db, r) { assert !Stale(st.db, r); }
    LeadsToReady(start, popped, w, q);
    var ready := State(db, popped.workers[w := Ready(q)]);
    LeadsToServedReady(start, ready, w, q, text);
    assert ready.workers[w := Idle] == st.workers[w := Idle];
  }

  // ---- The oldest unfinished run in the queue ------------------------------------------------------------

  /** r is the oldest unfinished run of its session, is queued, and finds the slot free. */
  ghost predicate Lined(db: Db, s: SessionId, r: RunId)
  {
    First(db, s, r) && db.runs[r].status.Queued? && db.sessions[s].active.None? && NoneStale(db)
  }

  /** What a message for another run leaves alone. */
  ghost predicate Spares(db: Db, db': Db, q: RunId, s: SessionId)
  {
    && s in db.sessions && s in db'.sessions && db'.runs.Keys == db.runs.Keys
    && db'.sessions[s].active == db.sessions[s].active
    && db'.now == db.now && db'.lease == db.lease
    && (forall p | p in db.runs && p != q :: db'.runs[p] == db.runs[p])
    && (q in db.runs ==>
          && db'.runs[q].session == db.runs[q].session && db'.runs[q].createdAt == db.runs[q].createdAt
          && (Terminal(db.runs[q].status) ==> Terminal(db'.runs[q].status))
          && (db'.runs[q] == db.runs[q] || db'.runs[q].heartbeat == Some(db.now)))
  }

  lemma SparesLined(db: Db, db': Db, q: RunId, s: SessionId, r: RunId)
    requires Lined(db, s, r) && Spares(db, db', q, s) && q != r
    ensures Lined(db', s, r)
  {
    forall p | InSession(db', p, s) && Older(db', p, r) ensures Terminal(db'.runs[p].status) {
      assert InSession(db, p, s) && Older(db, p, r);
    }
    forall p | p in db'.runs ensures !Stale(db', p) {
      assert !Stale(db, p);
    }
  }

  /** The oldest unfinished run keeps every other run of the session from being claimed. */
  lemma OtherWaits(db: Db, q: RunId, s: SessionId, r: RunId)
    requires Lined(db, s, r) && q != r && InSession(db, q, s)
    ensures !Start(db, q).1.Claimed?
  {
    if !Terminal(db.runs[q].status) {
      assert !Older(db, q, r) && Older(db, r, q);
      assert OlderUnfinishedExists(db, q, s);
    }
  }

  lemma StartSpares(db: Db, q: RunId, s: SessionId, r: RunId)
    requires Lined(db, s, r) && q != r
    ensures var (db', outcome) := Start(db, q);
            db'.queue == db.queue && (!outcome.Claimed? ==> Spares(db, db', q, s)) && (outcome.Busy? ==> q in db.runs)
  {
  }

  lemma ClaimedSpares(db: Db, q: RunId, s: SessionId, r: RunId, text: string)
    requires Lined(db, s, r) && q != r && Start(db, q).1.Claimed?
    ensures var db' := Concluded(Start(db, q).0, q, Fresh, text); Spares(db, db', q, s) && db'.queue == db.queue
  {
    var claimed := Start(db, q).0;
    if InSession(db, q, s) { OtherWaits(db, q, s, r); }
    ConcludedIs(claimed, q, Fresh, text);
  }

  lemma ServedOther(db: Db, q: RunId, s: SessionId, r: RunId, text: string)
    requires Lined(db, s, r) && q != r
    ensures var db' := Served(db, q, text);
            && Lined(db', s, r) && db'.runs.Keys == db.runs.Keys && db'.lease == db.lease
            && (db'.queue == db.queue || db'.queue == db.queue + [q])
  {
    StartSpares(db, q, s, r);
    if Start(db, q).1.Claimed? { ClaimedSpares(db, q, s, r, text); }
    var db' := Served(db, q, text);
    assert Spares(db, db', q, s);
    SparesLined(db, db', q, s, r);
  }

  lemma LinedCanClaim(db: Db, s: SessionId, r: RunId)
    requires Lined(db, s, r)
    ensures CanClaim(db, r)
  {
  }

  lemma ServedSelf(db: Db, s: SessionId, r: RunId, text: string)
    requires Lined(db, s, r)
    ensures var db' := Served(db, r, text); db'.runs.Keys == db.runs.Keys && Terminal(db'.runs[r].status)
  {
    LinedCanClaim(db, s, r);
    if Start(db, r).1.Claimed? { ConcludedIs(Start(db, r).0, r, Fresh, text); }
  }

  lemma LinedPopped(db: Db, s: SessionId, r: RunId, queue: seq<RunId>)
    requires Lined(db, s, r)
    ensures Lined(db.(queue := queue), s, r)
  {
    var db' := db.(queue := queue);
    forall p | InSession(db', p, s) && Older(db', p, r) ensures Terminal(db'.runs[p].status) {
      assert InSession(db, p, s) && Older(db, p, r);
    }
    forall p | p in db'.runs ensures !Stale(db', p) { assert !Stale(db, p); }
  }

  /** The worker takes one message after the other until it comes to r's. */
  lemma {:induction false} ServeUntil(start: State, st: State, w: WorkerId, s: SessionId, r: RunId, k: nat,
                                      text: string)
      returns (end: State)
    requires Leads(start, st) && At(st, w).Idle? && Lined(st.db, s, r) && k < |st.db.queue| && st.db.queue[k] == r
    ensures Leads(start, end) && At(end, w).Idle? && end.db.runs.Keys == st.db.runs.Keys
    ensures r in end.db.runs && Terminal(end.db.runs[r].status)
    decreases k
  {
    var q, popped := st.db.queue[0], st.db.(queue := st.db.queue[1..]);
    LeadsToServed(start, st, w, text);
    LinedPopped(st.db, s, r, st.db.queue[1..]);
    var next := State(Served(popped, q, text), st.workers[w := Idle]);
    if q == r {
      ServedSelf(popped, s, r, text);
      end := next;
    } else {
      ServedOther(popped, q, s, r, text);
      assert popped.queue[k - 1] == r && next.db.queue[k - 1] == r;
      end := ServeUntil(start, next, w, s, r, k - 1, text);
    }
  }

  // ---- Waiting for a lease to run out ---------------------------------------------------------------------

  /** Time has passed and executing workers have renewed their leases; the row of r is as it was. */
  ghost predicate Aged(db: Db, db': Db, r: RunId)
  {
    && db'.sessions == db.sessions && db'.queue == db.queue && db'.lease == db.lease && db'.runs.Keys == db.runs.Keys
    && (forall q | q in db.runs :: db'.runs[q] == db.runs[q].(heartbeat := db'.runs[q].heartbeat))
    && (r in db.runs ==> db'.runs[r] == db.runs[r])
  }

  lemma AgedOn(a: Db, b: Db, c: Db, r: RunId)
    requires Aged(a, b, r) && Aged(b, c, r)
    ensures Aged(a, c, r)
  {
  }

  /** The workers execute existing runs, and none of them r. */
  ghost predicate Others(st: State, ws: set<WorkerId>, r: RunId)
  {
    forall w | w in ws ::
      w in st.workers && st.workers[w].Working? && st.workers[w].run in st.db.runs && st.workers[w].run != r
  }

  ghost predicate Renewed(st: State, ws: set<WorkerId>)
  {
    forall w | w in ws ::
      && w in st.workers && st.workers[w].Working? && st.workers[w].run in st.db.runs
      && st.db.runs[st.workers[w].run].heartbeat == Some(st.db.now)
  }

  lemma BeatRenews(st: State, w: WorkerId, ws: set<WorkerId>, r: RunId)
    requires Renewed(st, ws) && Enabled(st, Heartbeat(w)) && st.workers[w].run != r
    ensures var end := Next(st, Heartbeat(w));
            end.workers == st.workers && Aged(st.db, end.db, r) && end.db.now == st.db.now && Renewed(end, ws + {w})
  {
  }

  lemma {:induction false} Renew(start: State, st: State, ws: set<WorkerId>, r: RunId) returns (end: State)
    requires Leads(start, st) && Others(st, ws, r)
    ensures Leads(start, end) && end.workers == st.workers && Aged(st.db, end.db, r) && end.db.now == st.db.now
    ensures Renewed(end, ws)
    decreases |ws|
  {
    if ws == {} {
      end := st;
    } else {
      var w :| w in ws;
      var before := Renew(start, st, ws - {w}, r);
      assert st.workers[w].run in before.db.runs;
      end := Next(before, Heartbeat(w));
      LeadsOn(start, before, Heartbeat(w), end);
      BeatRenews(before, w, ws - {w}, r);
      AgedOn(st.db, before.db, end.db, r);
      assert ws == ws - {w} + {w};
    }
  }

  ghost function Executing(st: State): set<WorkerId> { set w | w in st.workers && st.workers[w].Working? }

  lemma {:induction false} Wait(start: State, st: State, t: nat, r: RunId) returns (end: State)
    requires Leads(start, st) && Others(st, Executing(st), r) && st.db.lease > 0 && st.db.now <= t
    ensures Leads(start, end) && end.workers == st.workers && Aged(st.db, end.db, r) && end.db.now == t
    decreases t - st.db.now
  {
    if st.db.now == t {
      end := st;
    } else {
      var renewed := Renew(start, st, Executing(st), r);
      var next := State(renewed.db.(now := renewed.db.now + 1), renewed.workers);
      forall w | w in renewed.workers && renewed.workers[w].Working? && Bound(renewed.db, renewed.workers[w].run)
        ensures Leased(renewed.db, renewed.workers[w].run, renewed.db.now + 1)
      {
        assert w in Executing(st);
      }
      LeadsOn(start, renewed, Tick(renewed.db.now + 1), next);
      AgedOn(st.db, renewed.db, next.db, r);
      assert Executing(next) == Executing(st);
      end := Wait(start, next, t, r);
      AgedOn(st.db, next.db, end.db, r);
    }
  }

  // ---- The sweep --------------------------------------------------------------------------------------------

  lemma {:induction false} LeadsToAllPushed(start: State, st: State, w: WorkerId)
    requires Leads(start, st) && At(st, w).Pushing? && At(st, w).next.None?
    ensures Leads(start, State(st.db.(queue := st.db.queue + At(st, w).ids), st.workers[w := Idle]))
    decreases |At(st, w).ids|
  {
    var ids := At(st, w).ids;
    var next := Next(st, Push(w));
    LeadsOn(start, st, Push(w), next);
    if ids == [] {
      assert st.db.queue + ids == st.db.queue;
    } else {
      LeadsToAllPushed(start, next, w);
      assert st.db.queue + [ids[0]] + ids[1..] == st.db.queue + ids;
      assert next.workers[w := Idle] == st.workers[w := Idle];
    }
  }

  lemma SweepLines(db: Db, s: SessionId, r: RunId, queue: seq<RunId>)
    requires First(db, s, r) && Stale(db, r) && (db.sessions[s].active.None? || db.sessions[s].active == Some(r))
    ensures Lined(Sweep(db).(queue := queue), s, r) && Sweep(db).runs.Keys == db.runs.Keys
  {
    var db' := Sweep(db).(queue := queue);
    forall p | InSession(db', p, s) && Older(db', p, r) ensures Terminal(db'.runs[p].status) {
      assert InSession(db, p, s) && Older(db, p, r);
    }
  }

  lemma AgedFirst(db: Db, db': Db, s: SessionId, r: RunId)
    requires First(db, s, r) && Aged(db, db', r)
    ensures First(db', s, r)
  {
    forall q | InSession(db', q, s) && Older(db', q, r) ensures Terminal(db'.runs[q].status) {
      assert InSession(db, q, s) && Older(db, q, r);
    }
  }

  /** The idle worker waits until the lease of r has run out, sweeps and pushes. */
  lemma Requeue(st: State, w: WorkerId, s: SessionId, r: RunId) returns (end: State)
    requires Inv(st) && st.db.lease > 0 && At(st, w).Idle?
    requires First(st.db, s, r) && !st.db.runs[r].status.Accepted? && !Executed(st, r)
    ensures Leads(st, end) && At(end, w).Idle? && end.db.runs.Keys == st.db.runs.Keys
    ensures Lined(end.db, s, r) && r in end.db.queue
  {
    LeadsNowhere(st);
    forall v | v in Executing(st) ensures st.workers[v].run in st.db.runs && st.workers[v].run != r {
      assert WorkerSound(st.db, st.workers[v].run, st.workers[v].phase) && !Executes(st, v, r);
    }
    var t := st.db.now + st.db.runs[r].heartbeat.value + st.db.lease + 1;
    var waited := Wait(st, st, t, r);
    AgedFirst(st.db, waited.db, s, r);
    if st.db.sessions[s].active.Some? { HolderIsFirst(st.db, s, r); }
    assert At(waited, w) == At(st, w);
    end := SweptAndPushed(st, waited, w, s, r);
  }

  lemma SweptAndPushed(start: State, st: State, w: WorkerId, s: SessionId, r: RunId) returns (end: State)
    requires Leads(start, st) && At(st, w).Idle? && First(st.db, s, r) && Stale(st.db, r)
    requires st.db.sessions[s].active.None? || st.db.sessions[s].active == Some(r)
    ensures Leads(start, end) && At(end, w).Idle? && end.db.runs.Keys == st.db.runs.Keys
    ensures Lined(end.db, s, r) && r in end.db.queue
  {
    var ids := ListOf(set q | q in st.db.runs && Stale(st.db, q));
    var swept := State(Sweep(st.db), st.workers[w := Pushing(ids, None)]);
    LeadsOn(start, st, SweepRuns(w, ids), swept);
    LeadsToAllPushed(start, swept, w);
    end := State(swept.db.(queue := swept.db.queue + ids), swept.workers[w := Idle]);
    SweepLines(st.db, s, r, swept.db.queue + ids);
  }

  // ---- Progress -----------------------------------------------------------------------------------------------

  lemma ExecutedEnds(st: State, w: WorkerId, v: WorkerId, r: RunId, text: string) returns (end: State)
    requires At(st, w).Idle? && Executes(st, v, r) && r in st.db.runs
    ensures Leads(st, end) && At(end, w).Idle? && end.db.runs.Keys == st.db.runs.Keys
    ensures r in end.db.runs && Terminal(end.db.runs[r].status)
  {
    var phase := st.workers[v].phase;
    LeadsNowhere(st);
    LeadsToConcluded(st, st, v, r, phase, text);
    ConcludedIs(st.db, r, phase, text);
    end := State(Concluded(st.db, r, phase, text), st.workers[v := Idle]);
  }

  /** From every reachable state (all of them satisfy Inv) the oldest unfinished run of a session, once it
      has been queued, can be brought to a final status: by the worker that executes it, or else by any idle
      worker alone, which waits for the lease, sweeps, and serves the queue. */
  lemma SessionProgress(st: State, w: WorkerId, s: SessionId, r: RunId, text: string) returns (end: State)
    requires Inv(st) && st.db.lease > 0 && At(st, w).Idle? && First(st.db, s, r) && !st.db.runs[r].status.Accepted?
    ensures Leads(st, end) && At(end, w).Idle? && end.db.runs.Keys == st.db.runs.Keys
    ensures r in end.db.runs && Terminal(end.db.runs[r].status)
  {
    if v :| v in st.workers && Executes(st, v, r) {
      end := ExecutedEnds(st, w, v, r, text);
    } else {
      var lined := Requeue(st, w, s, r);
      var k: nat :| k < |lined.db.queue| && lined.db.queue[k] == r;
      end := ServeUntil(st, lined, w, s, r, k, text);
    }
  }

  // ---- All runs of a session ---------------------------------------------------------------------------------

  ghost predicate Keeps(start: State, st: State)
  {
    && Inv(st) && Extends(start.db, st.db) && st.db.lease == start.db.lease
    && forall r | r in start.db.runs && !Unqueued(start.db, r) :: !Unqueued(st.db, r)
  }

  lemma StepLease(st: State, a: Action)
    requires Enabled(st, a)
    ensures Next(st, a).db.lease == st.db.lease
  {
  }

  lemma ExtendsItself(db: Db)
    ensures Extends(db, db)
  {
  }

  lemma {:induction false} PathKeeps(tr: seq<State>, acts: seq<Action>, n: nat)
    requires Path(tr, acts) && Inv(tr[0]) && n <= |acts|
    ensures Keeps(tr[0], tr[n])
  {
    if n == 0 {
      ExtendsItself(tr[0].db);
    } else {
      PathKeeps(tr, acts, n - 1);
      assert StepAt(tr, acts, n - 1);
      KeepsOn(tr[0], tr[n - 1], acts[n - 1]);
    }
  }

  lemma KeepsOn(start: State, st: State, a: Action)
    requires Keeps(start, st) && Enabled(st, a)
    ensures Keeps(start, Next(st, a))
  {
    StepSound(st, a);
    StepLease(st, a);
    T.ExtendsCompose(start.db, st.db, Next(st, a).db);
    forall r | r in start.db.runs && !Unqueued(start.db, r) ensures !Unqueued(Next(st, a).db, r) {
      StepUnqueued(st, a, r);
    }
  }

  lemma LeadsKeeps(start: State, st: State)
    requires Inv(start) && Leads(start, st)
    ensures Keeps(start, st)
  {
    var tr: seq<State>, acts: seq<Action> :| SmoothPath(tr, acts) && tr[0] == start && tr[|acts|] == st;
    PathKeeps(tr, acts, |acts|);
  }

  lemma LeadsTrans(a: State, b: State, c: State)
    requires Leads(a, b) && Leads(b, c)
    ensures Leads(a, c)
  {
    var tr: seq<State>, acts: seq<Action> :| SmoothPath(tr, acts) && tr[0] == b && tr[|acts|] == c;
    LeadsAlong(a, tr, acts, |acts|);
  }

  lemma {:induction false} LeadsAlong(start: State, tr: seq<State>, acts: seq<Action>, n: nat)
    requires SmoothPath(tr, acts) && Leads(start, tr[0]) && n <= |acts|
    ensures Leads(start, tr[n])
  {
    if n > 0 {
      LeadsAlong(start, tr, acts, n - 1);
      assert StepAt(tr, acts, n - 1);
      LeadsOn(start, tr[n - 1], acts[n - 1], tr[n]);
    }
  }

  ghost predicate AllQueued(db: Db, s: SessionId)
  {
    forall r | InSession(db, r, s) :: !db.runs[r].status.Accepted?
  }

  lemma FewerUnfinished(st: State, end: State, s: SessionId, r: RunId)
    requires Keeps(st, end) && end.db.runs.Keys == st.db.runs.Keys && s in st.db.sessions && AllQueued(st.db, s)
    requires r in Unfinished(st.db, s) && Terminal(end.db.runs[r].status)
    ensures s in end.db.sessions && AllQueued(end.db, s) && Unfinished(end.db, s) < Unfinished(st.db, s)
  {
    forall q | InSession(end.db, q, s) ensures InSession(st.db, q, s) && !end.db.runs[q].status.Accepted? {
      assert q in st.db.runs && !Unqueued(st.db, q);
    }
    forall q | q in Unfinished(end.db, s) ensures q in Unfinished(st.db, s) {
      assert InSession(st.db, q, s);
    }
    assert r !in Unfinished(end.db, s);
  }

  /** From every reachable state in which all runs of a session have been queued, any idle worker can bring
      all of them to a final status, on a path on which nothing fails and no run is added. */
  lemma {:induction false} SessionDrains(st: State, w: WorkerId, s: SessionId, text: string) returns (end: State)
    requires Inv(st) && st.db.lease > 0 && At(st, w).Idle? && s in st.db.sessions && AllQueued(st.db, s)
    ensures Leads(st, end) && end.db.runs.Keys == st.db.runs.Keys && Unfinished(end.db, s) == {}
    decreases |Unfinished(st.db, s)|
  {
    if Unfinished(st.db, s) == {} {
      LeadsNowhere(st);
      end := st;
    } else {
      var r := FirstExists(st.db, s);
      var next := SessionProgress(st, w, s, r, text);
      LeadsKeeps(st, next);
      FewerUnfinished(st, next, s, r);
      SmallerSet(Unfinished(next.db, s), Unfinished(st.db, s));
      end := SessionDrains(next, w, s, text);
      LeadsTrans(st, next, end);
    }
  }

  lemma {:induction false} SmallerSet<X>(a: set<X>, b: set<X>)
    requires a < b
    ensures |a| < |b|
  {
    assert b == a + (b - a) && b - a != {};
  }
}
