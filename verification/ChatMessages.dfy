// Where the texts of a transcript come from: every message of a reachable transcript is the first one an
// executing worker wrote for its run and role, and every question is the one the run was created with.
module ChatMessages {
  import opened Common
  import opened ChatData
  import opened ChatProtocol
  import opened ChatSafety
  import opened ChatTheorems

  /** A worker that executes the run writes this text for it: the question stored with the run, or an answer. */
  ghost predicate Writes(st: State, a: Action, r: RunId, role: Role, text: string)
  {
    match role
    case User => a.WriteUser? && Executes(st, a.w, r) && r in st.db.runs && text == st.db.runs[r].question
    case Assistant => a.WriteAssistant? && Executes(st, a.w, r) && text == a.text
  }

  /** Step n writes the text, and no step before it wrote anything for this run and role. */
  ghost predicate FirstWrite(tr: seq<State>, acts: seq<Action>, n: nat, r: RunId, role: Role, text: string)
  {
    && n < |acts| < |tr| && Writes(tr[n], acts[n], r, role, text)
    && forall k: nat, earlier | k < n :: !Writes(tr[k], acts[k], r, role, earlier)
  }

  ghost predicate WrittenBefore(tr: seq<State>, acts: seq<Action>, i: nat, r: RunId, role: Role, text: string)
  {
    exists n: nat :: n < i && FirstWrite(tr, acts, n, r, role, text)
  }

  ghost predicate Shows(t: seq<Message>, r: RunId, role: Role, text: string)
  {
    exists i :: 0 <= i < |t| && t[i].run == r && t[i].role == role && t[i].content == text
  }

  // ---- One step -------------------------------------------------------------------------------------

  lemma AppendShows(t: seq<Message>, r: RunId, role: Role, content: string, q: RunId, role': Role, text: string)
    ensures Shows(Append(t, r, role, content), q, role', text) <==>
              Shows(t, q, role', text) || (!HasMessage(t, r, role) && (q, role', text) == (r, role, content))
  {
    var t' := Append(t, r, role, content);
    if Shows(t, q, role', text) {
      var i :| 0 <= i < |t| && t[i].run == q && t[i].role == role' && t[i].content == text;
      assert t'[i] == t[i];
    }
    if !HasMessage(t, r, role) { assert t'[|t|] == Message(r, role, content, MaxSeqNo(t) + 1); }
  }

  function Transcript(db: Db, s: SessionId): seq<Message>
  {
    if s in db.sessions then db.sessions[s].transcript else []
  }

  lemma OthersAddNothing(st: State, a: Action, s: SessionId)
    requires Enabled(st, a)
    ensures a.WriteUser? || a.WriteAssistant? || Transcript(Next(st, a).db, s) == Transcript(st.db, s)
  {
  }

  /** A message that a step adds is written in this step, and there was none for its run and role. */
  lemma AddedIsWritten(st: State, a: Action, s: SessionId, r: RunId, role: Role, text: string)
    requires Enabled(st, a) && Shows(Transcript(Next(st, a).db, s), r, role, text)
    requires !Shows(Transcript(st.db, s), r, role, text)
    ensures Writes(st, a, r, role, text) && !HasMessage(Transcript(st.db, s), r, role)
  {
    OthersAddNothing(st, a, s);
    if a.WriteUser? || a.WriteAssistant? {
      var q, role', content := At(st, a.w).run, if a.WriteUser? then User else Assistant,
          if a.WriteUser? then st.db.runs[At(st, a.w).run].question else a.text;
      AppendShows(Transcript(st.db, s), q, role', content, r, role, text);
    }
  }

  /** After such a step there is one, and it is the written one if there was none. */
  lemma WrittenIsThere(st: State, a: Action, s: SessionId, r: RunId, role: Role, text: string)
    requires Enabled(st, a) && Writes(st, a, r, role, text) && InSession(st.db, r, s) && s in st.db.sessions
    ensures HasMessage(Transcript(Next(st, a).db, s), r, role)
    ensures !HasMessage(Transcript(st.db, s), r, role) ==> Shows(Transcript(Next(st, a).db, s), r, role, text)
  {
    var t := Transcript(st.db, s);
    assert Transcript(Next(st, a).db, s) == Append(t, r, role, text);
    if !HasMessage(t, r, role) {
      AppendShows(t, r, role, text, r, role, text);
      assert Append(t, r, role, text)[|t|].run == r;
    }
  }

  // ---- Whole runs -----------------------------------------------------------------------------------

  lemma StillThere(t: seq<Message>, t': seq<Message>, r: RunId, role: Role)
    requires t <= t'
    ensures HasMessage(t, r, role) ==> HasMessage(t', r, role)
    ensures forall text :: Shows(t, r, role, text) ==> Shows(t', r, role, text)
  {
    assert forall i | 0 <= i < |t| :: t[i] == t'[i];
  }

  /** A worker writes only for a run of the session the run still belongs to later. */
  lemma WriterInSession(tr: seq<State>, acts: seq<Action>, k: nat, i: nat, s: SessionId, r: RunId, role: Role,
                        text: string)
    requires Behaviour(tr, acts) && k <= i < |tr| && k < |acts| && Writes(tr[k], acts[k], r, role, text)
    requires InSession(tr[i].db, r, s)
    ensures InSession(tr[k].db, r, s) && s in tr[k].db.sessions
  {
    ReachableInv(tr, acts, k);
    assert WorkerSound(tr[k].db, r, tr[k].workers[acts[k].w].phase);
    ExtendsBetween(tr, acts, k, i);
  }

  /** Once something was written for a run and role, the transcript holds a message for them. */
  lemma WrittenStays(tr: seq<State>, acts: seq<Action>, k: nat, i: nat, s: SessionId, r: RunId, role: Role,
                     text: string)
    requires Behaviour(tr, acts) && k < i < |tr| && Writes(tr[k], acts[k], r, role, text)
    requires InSession(tr[i].db, r, s)
    ensures HasMessage(Transcript(tr[i].db, s), r, role)
    ensures !HasMessage(Transcript(tr[k].db, s), r, role) ==> Shows(Transcript(tr[i].db, s), r, role, text)
  {
    WriterInSession(tr, acts, k, i, s, r, role, text);
    assert StepAt(tr, acts, k);
    WrittenIsThere(tr[k], acts[k], s, r, role, text);
    TranscriptOnlyGrows(tr, acts, k, i, s);
    StepAppends(tr[k], acts[k], s);
    TranscriptOnlyGrows(tr, acts, k + 1, i, s);
    StillThere(Transcript(tr[k + 1].db, s), Transcript(tr[i].db, s), r, role);
  }

  lemma MessageInSession(tr: seq<State>, acts: seq<Action>, i: nat, s: SessionId, r: RunId, role: Role)
    requires Behaviour(tr, acts) && i < |tr| && HasMessage(Transcript(tr[i].db, s), r, role)
    ensures InSession(tr[i].db, r, s)
  {
    ReachableInv(tr, acts, i);
    assert TranscriptSound(tr[i].db, s, tr[i].db.sessions[s].transcript);
  }

  /** A message that is there was written, before anything else was for its run and role. */
  lemma {:induction false} ShownWasWritten(tr: seq<State>, acts: seq<Action>, i: nat, s: SessionId, r: RunId,
                                           role: Role, text: string)
    requires Behaviour(tr, acts) && i < |tr| && Shows(Transcript(tr[i].db, s), r, role, text)
    ensures WrittenBefore(tr, acts, i, r, role, text)
  {
    if i > 0 {
      assert StepAt(tr, acts, i - 1);
      if Shows(Transcript(tr[i - 1].db, s), r, role, text) {
        ShownWasWritten(tr, acts, i - 1, s, r, role, text);
      } else {
        AddedIsWritten(tr[i - 1], acts[i - 1], s, r, role, text);
        MessageInSession(tr, acts, i, s, r, role);
        WriterInSession(tr, acts, i - 1, i, s, r, role, text);
        forall k: nat, earlier | k < i - 1 ensures !Writes(tr[k], acts[k], r, role, earlier) {
          if Writes(tr[k], acts[k], r, role, earlier) { WrittenStays(tr, acts, k, i - 1, s, r, role, earlier); }
        }
        assert FirstWrite(tr, acts, i - 1, r, role, text);
      }
    }
  }

  lemma HasShows(t: seq<Message>, r: RunId, role: Role)
    ensures HasMessage(t, r, role) <==> exists text :: Shows(t, r, role, text)
  {
    if i :| 0 <= i < |t| && t[i].run == r && t[i].role == role { assert Shows(t, r, role, t[i].content); }
  }

  /** In every reachable state the transcript of a session shows a text for one of its runs exactly if a
      worker executing that run wrote it, and wrote nothing else for this role before: answers and questions
      are stored as they were given, and a second attempt does not replace them. */
  lemma MessagesAreFirstWrites(tr: seq<State>, acts: seq<Action>, i: nat, s: SessionId, r: RunId, role: Role,
                               text: string)
    requires Behaviour(tr, acts) && i < |tr| && InSession(tr[i].db, r, s)
    ensures Shows(Transcript(tr[i].db, s), r, role, text) <==> WrittenBefore(tr, acts, i, r, role, text)
  {
    if Shows(Transcript(tr[i].db, s), r, role, text) { ShownWasWritten(tr, acts, i, s, r, role, text); }
    if WrittenBefore(tr, acts, i, r, role, text) {
      var n: nat :| n < i && FirstWrite(tr, acts, n, r, role, text);
      if HasMessage(Transcript(tr[n].db, s), r, role) {
        HasShows(Transcript(tr[n].db, s), r, role);
        var earlier :| Shows(Transcript(tr[n].db, s), r, role, earlier);
        ShownWasWritten(tr, acts, n, s, r, role, earlier);
      }
      WrittenStays(tr, acts, n, i, s, r, role, text);
    }
  }

  /** Every run of a reachable state was created with the question it has. */
  lemma {:induction false} QuestionWasAsked(tr: seq<State>, acts: seq<Action>, i: nat, r: RunId)
    requires Behaviour(tr, acts) && i < |tr| && r in tr[i].db.runs
    ensures var run := tr[i].db.runs[r];
            exists n: nat :: n < i && acts[n] == Create(r, run.session, run.createdAt, run.question)
  {
    if i > 0 {
      assert StepAt(tr, acts, i - 1);
      ExtendsBetween(tr, acts, i - 1, i);
      if r in tr[i - 1].db.runs { QuestionWasAsked(tr, acts, i - 1, r); } else { NewRun(tr[i - 1], acts[i - 1], r); }
    }
  }

  lemma NewRun(st: State, a: Action, r: RunId)
    requires Enabled(st, a) && r in Next(st, a).db.runs && r !in st.db.runs
    ensures var run := Next(st, a).db.runs[r]; a == Create(r, run.session, run.createdAt, run.question)
  {
  }

  // ---- Blocks ---------------------------------------------------------------------------------------

  /** One of the blocks is the run's, with this question or this answer. */
  ghost predicate BlockSays(blocks: seq<Block>, r: RunId, role: Role, text: string)
  {
    exists k :: 0 <= k < |blocks| && blocks[k].run == r
                && if role.User? then blocks[k].question == text else blocks[k].answer == Some(text)
  }

  lemma LastBlockSays(t: seq<Message>, r: RunId, role: Role, text: string)
    requires t != [] && Alternates(t)
    ensures Shows(t[LastCut(t)..], r, role, text) <==> BlockSays([LastBlock(t)], r, role, text)
  {
    var cut := LastCut(t);
    var last := t[cut..];
    assert last[0] == t[cut] && t[cut].role.User?;
    if cut < |t| - 1 {
      assert last == [t[cut], t[cut + 1]] && t[cut + 1].role.Assistant?;
    } else {
      assert last == [t[cut]];
    }
    assert [LastBlock(t)][0] == LastBlock(t);
    if Shows(last, r, role, text) {
      var i :| 0 <= i < |last| && last[i].run == r && last[i].role == role && last[i].content == text;
    }
    if BlockSays([LastBlock(t)], r, role, text) {
      assert last[if role.User? then 0 else 1].role == role;
    }
  }

  lemma ShowsConcat(a: seq<Message>, b: seq<Message>, r: RunId, role: Role, text: string)
    ensures Shows(a + b, r, role, text) <==> Shows(a, r, role, text) || Shows(b, r, role, text)
  {
    var c := a + b;
    assert forall i | 0 <= i < |a| :: c[i] == a[i];
    assert forall i | 0 <= i < |b| :: c[|a| + i] == b[i];
  }

  lemma BlockSaysConcat(a: seq<Block>, b: seq<Block>, r: RunId, role: Role, text: string)
    ensures BlockSays(a + b, r, role, text) <==> BlockSays(a, r, role, text) || BlockSays(b, r, role, text)
  {
    var c := a + b;
    assert forall i | 0 <= i < |a| :: c[i] == a[i];
    assert forall i | 0 <= i < |b| :: c[|a| + i] == b[i];
  }

  lemma {:induction false} BlocksSayMessages(t: seq<Message>, r: RunId, role: Role, text: string)
    requires Alternates(t)
    ensures BlockSays(BlocksOf(t), r, role, text) <==> Shows(t, r, role, text)
  {
    if t != [] {
      var cut := LastCut(t);
      PrefixAlternates(t, cut);
      BlocksSayMessages(t[..cut], r, role, text);
      LastBlockSays(t, r, role, text);
      ShowsConcat(t[..cut], t[cut..], r, role, text);
      assert t[..cut] + t[cut..] == t;
      BlockSaysConcat(BlocksOf(t[..cut]), [LastBlock(t)], r, role, text);
    }
  }

  /** The blocks of a reachable transcript hold exactly what was asked and answered: the answer of a run's
      block is the first text a worker executing the run wrote as its answer, its question is the one the
      run was created with. */
  lemma BlocksAreGiven(tr: seq<State>, acts: seq<Action>, i: nat, s: SessionId, r: RunId, text: string)
    requires Behaviour(tr, acts) && i < |tr| && InSession(tr[i].db, r, s)
    ensures var blocks := BlocksOf(Transcript(tr[i].db, s));
            && (BlockSays(blocks, r, Assistant, text) <==> WrittenBefore(tr, acts, i, r, Assistant, text))
            && (BlockSays(blocks, r, User, text) <==> WrittenBefore(tr, acts, i, r, User, text))
            && (BlockSays(blocks, r, User, text) ==>
                  exists n: nat, createdAt :: n < i && acts[n] == Create(r, Some(s), createdAt, text))
  {
    var t := Transcript(tr[i].db, s);
    ReachableInv(tr, acts, i);
    assert TranscriptSound(tr[i].db, s, t);
    BlocksSayMessages(t, r, Assistant, text);
    BlocksSayMessages(t, r, User, text);
    MessagesAreFirstWrites(tr, acts, i, s, r, Assistant, text);
    MessagesAreFirstWrites(tr, acts, i, s, r, User, text);
    if Shows(t, r, User, text) {
      QuestionWasAsked(tr, acts, i, r);
      assert tr[i].db.runs[r].question == text;
    }
  }
}
