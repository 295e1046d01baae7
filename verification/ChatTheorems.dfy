// Theorems about whole behaviours of the chat-run protocol.
module ChatTheorems {
  import opened Common
  import opened ChatData
  import opened ChatProtocol
  import opened ChatSafety

  // ---- Every reachable state --------------------------------------------------------------

  lemma {:induction false} ReachableInv(tr: seq<State>, acts: seq<Action>, i: nat)
    requires Behaviour(tr, acts) && i < |tr|
    ensures Inv(tr[i])
  {
    if i > 0 {
      ReachableInv(tr, acts, i - 1);
      assert StepAt(tr, acts, i - 1);
      StepSound(tr[i - 1], acts[i - 1]);
    }
  }

  /** Over any number of steps rows persist, finished session-bound runs stay finished, and
      every run created on the way comes after all runs its session had. */
  lemma {:induction false} ExtendsBetween(tr: seq<State>, acts: seq<Action>, i: nat, j: nat)
    requires Behaviour(tr, acts) && i <= j < |tr|
    ensures Extends(tr[i].db, tr[j].db)
    decreases j - i
  {
    if i < j {
      ReachableInv(tr, acts, i);
      assert StepAt(tr, acts, i);
      StepSound(tr[i], acts[i]);
      ExtendsBetween(tr, acts, i + 1, j);
      ExtendsCompose(tr[i].db, tr[i + 1].db, tr[j].db);
    }
  }

  lemma ExtendsCompose(a: Db, b: Db, c: Db)
    requires Extends(a, b) && Extends(b, c)
    ensures Extends(a, c)
  {
    forall r, q | r in a.runs && Bound(a, r) && q in c.runs && q !in a.runs && InSession(c, q, SessionOf(a, r))
      ensures Older(c, r, q)
    {
      if q in b.runs { assert InSession(b, q, SessionOf(a, r)) && Older(b, r, q); }
    }
  }

  /** The outer exception handler finalizes r, by a worker that is not executing it. */
  ghost predicate Fails(st: State, a: Action, r: RunId)
  {
    a.Fail? && Handles(At(st, a.w)) == Some(r)
  }

  /** A session-bound run that has reached a final status never leaves the final statuses. */
  lemma FinishedStaysFinished(tr: seq<State>, acts: seq<Action>, i: nat, j: nat, r: RunId)
    requires Behaviour(tr, acts) && i <= j < |tr|
    requires Bound(tr[i].db, r) && Terminal(tr[i].db.runs[r].status)
    ensures Bound(tr[j].db, r) && Terminal(tr[j].db.runs[r].status)
  {
    ExtendsBetween(tr, acts, i, j);
  }

  lemma ExecutingKeepsStatus(st: State, a: Action, r: RunId)
    requires Enabled(st, a) && r in st.db.runs && !Executed(st, r)
    requires a.Heartbeat? || a.WriteUser? || a.WriteAnswering? || a.WriteAssistant? || a.Finish?
    ensures r in Next(st, a).db.runs && Next(st, a).db.runs[r] == st.db.runs[r]
  {
    assert !Executes(st, a.w, r);
  }

  /** What one step does to the status of a finished run that nobody executes. */
  lemma StepStatus(st: State, a: Action, r: RunId)
    requires Enabled(st, a) && r in st.db.runs && Terminal(st.db.runs[r].status) && !Executed(st, r)
    ensures r in Next(st, a).db.runs
    ensures Next(st, a).db.runs[r].status == if Fails(st, a, r) then Failed else st.db.runs[r].status
  {
    if a.Heartbeat? || a.WriteUser? || a.WriteAnswering? || a.WriteAssistant? || a.Finish? {
      ExecutingKeepsStatus(st, a, r);
    }
  }

  lemma StatusAfterStep(tr: seq<State>, acts: seq<Action>, i: nat, k: nat, r: RunId)
    requires Behaviour(tr, acts) && i <= k < |acts|
    requires Bound(tr[i].db, r) && Terminal(tr[i].db.runs[r].status)
    ensures Bound(tr[k].db, r) && Bound(tr[k + 1].db, r)
    ensures tr[k + 1].db.runs[r].status == if Fails(tr[k], acts[k], r) then Failed else tr[k].db.runs[r].status
  {
    FinishedStaysFinished(tr, acts, i, k, r);
    FinishedStaysFinished(tr, acts, i, k + 1, r);
    ReachableInv(tr, acts, k);
    FinishedNotExecuted(tr[k], r);
    assert StepAt(tr, acts, k);
    StepStatus(tr[k], acts[k], r);
  }

  /** Some step from i on and before j finalizes r as failed. */
  ghost predicate FailedBetween(tr: seq<State>, acts: seq<Action>, i: nat, j: nat, r: RunId)
    requires j <= |acts| < |tr|
  {
    i < j && (FailedBetween(tr, acts, i, j - 1, r) || Fails(tr[j - 1], acts[j - 1], r))
  }

  /** The status itself changes exactly when a failure handler finalizes the run again, and then from
      whatever it was to failed: a completed or cancelled run can still become failed, a failed one
      stays failed. */
  lemma {:induction false} FinalStatusExactly(tr: seq<State>, acts: seq<Action>, i: nat, j: nat, r: RunId)
    requires Behaviour(tr, acts) && i <= j < |tr|
    requires Bound(tr[i].db, r) && Terminal(tr[i].db.runs[r].status)
    ensures Bound(tr[j].db, r)
    ensures tr[j].db.runs[r].status == if FailedBetween(tr, acts, i, j, r) then Failed else tr[i].db.runs[r].status
    decreases j - i
  {
    if i < j {
      FinalStatusExactly(tr, acts, i, j - 1, r);
      StatusAfterStep(tr, acts, i, j - 1, r);
    }
  }

  /** However many messages name a run, two workers never execute in one session, and the
      session's slot names the run that is executed. */
  lemma OneWorkerPerSession(tr: seq<State>, acts: seq<Action>, i: nat, w: WorkerId, v: WorkerId, r: RunId, q: RunId)
    requires Behaviour(tr, acts) && i < |tr|
    requires Executes(tr[i], w, r) && Executes(tr[i], v, q)
    requires Bound(tr[i].db, r) && Bound(tr[i].db, q) && SessionOf(tr[i].db, r) == SessionOf(tr[i].db, q)
    ensures w == v && r == q && HoldsSlot(tr[i].db, r)
  {
    ReachableInv(tr, acts, i);
    assert WorkerSound(tr[i].db, r, tr[i].workers[w].phase) && WorkerSound(tr[i].db, q, tr[i].workers[v].phase);
    OneActivePerSession(tr[i].db, r, q);
  }

  /** A held slot names an unfinished run of its session. */
  lemma SlotNamesUnfinishedRun(tr: seq<State>, acts: seq<Action>, i: nat, s: SessionId)
    requires Behaviour(tr, acts) && i < |tr| && s in tr[i].db.sessions && tr[i].db.sessions[s].active.Some?
    ensures InSession(tr[i].db, tr[i].db.sessions[s].active.value, s)
    ensures !Terminal(tr[i].db.runs[tr[i].db.sessions[s].active.value].status)
  {
    ReachableInv(tr, acts, i);
  }

  // ---- Claims -------------------------------------------------------------------------------

  /** Step `i` claims the slot of `r`'s session for `r`. */
  ghost predicate Claims(tr: seq<State>, acts: seq<Action>, i: nat, r: RunId)
    requires |tr| == |acts| + 1
  {
    && i < |acts| && acts[i].Begin? && At(tr[i], acts[i].w) == Ready(r)
    && Bound(tr[i].db, r) && Start(tr[i].db, r).1.Claimed?
  }

  lemma ClaimFindsOlderFinished(tr: seq<State>, acts: seq<Action>, i: nat, r: RunId, q: RunId)
    requires Behaviour(tr, acts) && Claims(tr, acts, i, r)
    requires InSession(tr[i].db, q, SessionOf(tr[i].db, r)) && Older(tr[i].db, q, r)
    ensures Terminal(tr[i].db.runs[q].status)
  {
    ReachableInv(tr, acts, i);
  }

  /** Within a session claims never go back to an older run, also after crashes and requeues. */
  lemma ClaimsNeverGoBack(tr: seq<State>, acts: seq<Action>, i: nat, j: nat, q: RunId, r: RunId)
    requires Behaviour(tr, acts) && i <= j && Claims(tr, acts, i, q) && Claims(tr, acts, j, r)
    requires SessionOf(tr[i].db, q) == SessionOf(tr[j].db, r)
    ensures q in tr[j].db.runs && !Older(tr[j].db, r, q)
  {
    ExtendsBetween(tr, acts, i, j);
    if r in tr[i].db.runs && Older(tr[i].db, r, q) {
      ClaimFindsOlderFinished(tr, acts, i, q, r);
    }
  }

  // ---- Transcripts --------------------------------------------------------------------------

  /** What one run leaves in its session: its question, and the answer once there is one. */
  datatype Block = Block(run: RunId, question: string, answer: Option<string>)

  function BlockMessages(b: Block, n: nat): seq<Message>
  {
    [Message(b.run, User, b.question, n)]
    + match b.answer
      case None => []
      case Some(a) => [Message(b.run, Assistant, a, n + 1)]
  }

  /** The messages of the blocks one after the other, numbered from `n`. */
  function Render(blocks: seq<Block>, n: nat): seq<Message>
  {
    if blocks == [] then []
    else var first := BlockMessages(blocks[0], n); first + Render(blocks[1..], n + |first|)
  }

  lemma {:induction false} RenderAppend(blocks: seq<Block>, b: Block, n: nat)
    ensures Render(blocks + [b], n) == Render(blocks, n) + BlockMessages(b, n + |Render(blocks, n)|)
  {
    if blocks == [] {
      assert blocks + [b] == [b];
      assert [b][1..] == [];
    } else {
      RenderAppend(blocks[1..], b, n + |BlockMessages(blocks[0], n)|);
      assert (blocks + [b])[1..] == blocks[1..] + [b];
    }
  }

  /** Blocks of distinct runs of session `s`, oldest run first, each with its run's question. */
  ghost predicate BlocksInOrder(db: Db, s: SessionId, blocks: seq<Block>)
  {
    && (forall i | 0 <= i < |blocks| ::
          InSession(db, blocks[i].run, s) && blocks[i].question == db.runs[blocks[i].run].question)
    && (forall i, j | 0 <= i < j < |blocks| :: Older(db, blocks[i].run, blocks[j].run))
  }

  /** Where the last block of a transcript begins. */
  function LastCut(t: seq<Message>): (cut: nat)
    requires t != []
    ensures cut < |t|
  {
    if t[|t| - 1].role.Assistant? && |t| > 1 then |t| - 2 else |t| - 1
  }

  function LastBlock(t: seq<Message>): Block
    requires t != []
  {
    var cut, last := LastCut(t), |t| - 1;
    Block(t[cut].run, t[cut].content, if cut < last then Some(t[last].content) else None)
  }

  /** Reading a transcript as blocks. */
  function BlocksOf(t: seq<Message>): seq<Block>
  {
    if t == [] then [] else BlocksOf(t[..LastCut(t)]) + [LastBlock(t)]
  }

  lemma LastBlockMessages(t: seq<Message>)
    requires t != [] && Numbered(t) && Alternates(t)
    ensures BlockMessages(LastBlock(t), LastCut(t) + 1) == t[LastCut(t)..]
  {
    var cut := LastCut(t);
    assert t[cut] == Message(LastBlock(t).run, User, LastBlock(t).question, cut + 1);
    if cut < |t| - 1 {
      assert t[cut + 1] == Message(LastBlock(t).run, Assistant, LastBlock(t).answer.value, cut + 2);
      assert t[cut..] == [t[cut], t[cut + 1]];
    } else {
      assert t[cut..] == [t[cut]];
    }
  }

  lemma {:induction false} RenderBlocksOf(t: seq<Message>)
    requires Numbered(t) && Alternates(t)
    ensures Render(BlocksOf(t), 1) == t
  {
    if t != [] {
      var cut := LastCut(t);
      PrefixAlternates(t, cut);
      RenderBlocksOf(t[..cut]);
      RenderAppend(BlocksOf(t[..cut]), LastBlock(t), 1);
      LastBlockMessages(t);
    }
  }

  lemma PrefixAlternates(t: seq<Message>, n: nat)
    requires Alternates(t) && n <= |t|
    ensures Alternates(t[..n])
  {
    var p := t[..n];
    forall i | 0 < i < |p|
      ensures if p[i].role.User? then p[i - 1].run != p[i].run
              else p[i - 1].role.User? && p[i - 1].run == p[i].run
    {
      assert p[i] == t[i] && p[i - 1] == t[i - 1];
    }
  }

  /** Every block of a prefix of a sound transcript is the block of some message in it. */
  lemma {:induction false} BlocksOfInOrder(db: Db, s: SessionId, t: seq<Message>)
    requires TranscriptSound(db, s, t)
    ensures BlocksInOrder(db, s, BlocksOf(t))
    ensures t != [] ==> BlocksOf(t)[|BlocksOf(t)| - 1].run == t[|t| - 1].run
  {
    if t != [] {
      var cut := LastCut(t);
      PrefixAlternates(t, cut);
      BlocksOfInOrder(db, s, t[..cut]);
      AddBlock(db, s, BlocksOf(t[..cut]), BlocksOf(t)[|BlocksOf(t)| - 1]) by {
        if cut > 0 { assert !Older(db, t[cut].run, t[cut - 1].run); }
      }
    }
  }

  lemma AddBlock(db: Db, s: SessionId, before: seq<Block>, b: Block)
    requires BlocksInOrder(db, s, before)
    requires InSession(db, b.run, s) && b.question == db.runs[b.run].question
    requires before != [] ==> Older(db, before[|before| - 1].run, b.run)
    ensures BlocksInOrder(db, s, before + [b])
  {
    forall i | 0 <= i < |before| ensures Older(db, before[i].run, b.run) {
      assert i < |before| - 1 ==> Older(db, before[i].run, before[|before| - 1].run);
    }
  }

  /** In every reachable state the transcript of every session is the concatenation, in creation
      order of the runs, of one block per run, numbered 1, 2, 3, ... */
  lemma TranscriptIsSerial(tr: seq<State>, acts: seq<Action>, i: nat, s: SessionId)
    requires Behaviour(tr, acts) && i < |tr| && s in tr[i].db.sessions
    ensures var t := tr[i].db.sessions[s].transcript;
            BlocksInOrder(tr[i].db, s, BlocksOf(t)) && Render(BlocksOf(t), 1) == t
  {
    ReachableInv(tr, acts, i);
    RenderBlocksOf(tr[i].db.sessions[s].transcript);
    BlocksOfInOrder(tr[i].db, s, tr[i].db.sessions[s].transcript);
  }

  lemma StepAppends(st: State, a: Action, s: SessionId)
    requires Enabled(st, a) && s in st.db.sessions
    ensures s in Next(st, a).db.sessions
    ensures st.db.sessions[s].transcript <= Next(st, a).db.sessions[s].transcript
  {
  }

  /** Messages are only ever added at the end: nothing is rewritten or removed. */
  lemma {:induction false} TranscriptOnlyGrows(tr: seq<State>, acts: seq<Action>, i: nat, j: nat, s: SessionId)
    requires Behaviour(tr, acts) && i <= j < |tr| && s in tr[i].db.sessions
    ensures s in tr[j].db.sessions && tr[i].db.sessions[s].transcript <= tr[j].db.sessions[s].transcript
    decreases j - i
  {
    if i < j {
      assert StepAt(tr, acts, i);
      StepAppends(tr[i], acts[i], s);
      TranscriptOnlyGrows(tr, acts, i + 1, j, s);
    }
  }
}
