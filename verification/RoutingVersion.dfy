// The revision counter of a document version's routing index, over any history of parse jobs.
module RoutingVersion {
  import opened Common
  import D = Decimal
  import Text

  // ---- _next_routing_index_version ------------------------------------------------------------------

  const FIRST := "v1"
  const MARKER := "-r"
  const MAX_LENGTH := 32

  /** Position of the last "-r", or -1 (rpartition). */
  function LastMarker(s: string): (i: int)
    ensures -1 <= i <= |s|
    ensures i >= 0 ==> i + 2 <= |s| && s[i..i + 2] == MARKER
  {
    if |s| < 2 then -1 else if s[|s| - 2..] == MARKER then |s| - 2 else LastMarker(s[..|s| - 1])
  }

  function Current(current: Option<string>): string
  {
    var value := Text.Strip(if current.Some? && current.value != "" then current.value else FIRST);
    if value == "" then FIRST else value
  }

  function Bumped(value: string): string
  {
    var i := LastMarker(value);
    if i >= 0 && i + 2 < |value| && D.AllDigits(value[i + 2..])
    then value[..i] + MARKER + D.Render(D.Parse(value[i + 2..]) + 1)
    else value + MARKER + "2"
  }

  function Cut(s: string): string { if |s| <= MAX_LENGTH then s else s[..MAX_LENGTH] }

  function NextVersion(current: Option<string>): string { Cut(Bumped(Current(current))) }

  /** The value is a base, "-r" and a number. */
  predicate Numbered(value: string, base: string, digits: string)
  {
    digits != "" && D.AllDigits(digits) && value == base + "-r" + digits
  }

  /** The number behind "-r" is raised by one; without one, "-r2" is added. */
  ghost predicate Raised(value: string, bumped: string)
  {
    || (bumped == value + "-r2" && forall base, digits :: !Numbered(value, base, digits))
    || exists base, digits :: Numbered(value, base, digits) && bumped == base + "-r" + D.Render(D.Parse(digits) + 1)
  }

  /** The stripped version, or "v1" where nothing is left. */
  ghost predicate Taken(current: string, value: string)
  {
    exists stripped :: Text.Trims(current, stripped) && Text.Tight(stripped)
                       && value == if stripped == "" then "v1" else stripped
  }

  /** The version after this one: raised, and cut to its first 32 characters. */
  ghost predicate Follows(current: string, next: string)
  {
    exists value, bumped :: Taken(current, value) && Raised(value, bumped)
                            && next == if |bumped| <= 32 then bumped else bumped[..32]
  }

  lemma BumpedIs(value: string)
    ensures Raised(value, Bumped(value))
  {
    forall base, digits ensures Numbered(value, base, digits) ==> LastMarker(value) == |base| {
      if Numbered(value, base, digits) { NoMarkerInDigits(base, digits); }
    }
    var i := LastMarker(value);
    if i >= 0 && i + 2 < |value| && D.AllDigits(value[i + 2..]) {
      assert value == value[..i] + value[i..i + 2] + value[i + 2..];
      assert Numbered(value, value[..i], value[i + 2..]);
    } else {
      forall base, digits ensures !Numbered(value, base, digits) { NotNumbered(value, base, digits); }
      assert MARKER + "2" == "-r2";
      assert value + MARKER + "2" == value + "-r2";
    }
  }

  lemma NotNumbered(value: string, base: string, digits: string)
    requires var i := LastMarker(value); !(i >= 0 && i + 2 < |value| && D.AllDigits(value[i + 2..]))
    ensures !Numbered(value, base, digits)
  {
    if digits != "" && D.AllDigits(digits) {
      NoMarkerInDigits(base, digits);
      assert (base + MARKER + digits)[|base| + 2..] == digits;
    }
  }

  lemma TakenIs(current: string)
    ensures Taken(current, Current(Some(current)))
  {
    Text.StripIs(current);
    assert Text.Strip(FIRST) == FIRST;
    if current == "" { assert Text.Strip(current) == ""; }
  }

  lemma FollowsBy(current: string, value: string, bumped: string)
    requires Taken(current, value) && Raised(value, bumped)
    ensures Follows(current, Cut(bumped))
  {
  }

  /** The next version, for any current one; no version counts as an empty one. */
  lemma NextFollows(current: Option<string>)
    ensures Follows(if current.Some? then current.value else "", NextVersion(current))
  {
    var text := if current.Some? then current.value else "";
    TakenIs(text);
    BumpedIs(Current(Some(text)));
    FollowsBy(text, Current(Some(text)), Bumped(Current(Some(text))));
  }

  // ---- Revisions --------------------------------------------------------------------------------------

  /** v1, v1-r2, v1-r3, ... */
  function Revision(n: nat): string
  {
    if n <= 1 then FIRST else FIRST + MARKER + D.Render(n)
  }

  function Pow10(k: nat): (p: nat)
    ensures p > 0
  {
    if k == 0 then 1 else 10 * Pow10(k - 1)
  }

  lemma {:induction false} RenderLength(n: nat, k: nat)
    requires k > 0
    ensures |D.Render(n)| <= k <==> n < Pow10(k)
  {
    if n < 10 {
      Pow10Grows(k);
    } else if k > 1 {
      RenderLength(n / 10, k - 1);
    } else {
      D.ParseOfRender(n / 10);
      assert Pow10(1) == 10 * Pow10(0);
    }
  }

  lemma {:induction false} Pow10Grows(k: nat)
    requires k > 0
    ensures Pow10(k) >= 10
  {
    if k > 1 { Pow10Grows(k - 1); }
  }

  lemma {:induction false} NoMarkerInDigits(front: string, digits: string)
    requires D.AllDigits(digits)
    ensures LastMarker(front + MARKER + digits) == |front|
  {
    var s := front + MARKER + digits;
    if digits == "" {
      assert s[|s| - 2..] == MARKER;
    } else {
      var init := digits[..|digits| - 1];
      assert s[|s| - 1] == digits[|digits| - 1];
      assert s[|s| - 2..][1] == digits[|digits| - 1];
      assert s[..|s| - 1] == front + MARKER + init;
      NoMarkerInDigits(front, init);
    }
  }

  lemma BumpedRevision(n: nat)
    requires n > 0
    ensures Bumped(Revision(n)) == Revision(n + 1)
  {
    if n == 1 {
      assert LastMarker(FIRST) == -1 by { assert LastMarker(FIRST[..1]) == -1; }
      assert D.Render(2) == "2";
    } else {
      D.ParseOfRender(n);
      NoMarkerInDigits(FIRST, D.Render(n));
      assert Revision(n)[..2] == FIRST && Revision(n)[4..] == D.Render(n);
    }
  }

  lemma RevisionStripped(n: nat)
    ensures Current(Some(Revision(n))) == Revision(n)
  {
    var s := Revision(n);
    if n > 1 {
      D.ParseOfRender(n);
      assert s[|s| - 1] == D.Render(n)[|D.Render(n)| - 1];
    }
    assert s[0] == 'v' && !Text.IsSpace(s[0]) && !Text.IsSpace(s[|s| - 1]);
  }

  /** The next revision is the next number exactly as long as that has at most 28 digits. */
  lemma NextIsSuccessor(n: nat)
    requires n > 0
    ensures NextVersion(Some(Revision(n))) == Revision(n + 1) <==> n + 1 < Pow10(28)
  {
    NextIsCut(n);
    RenderLength(n + 1, 28);
  }

  lemma NextIsCut(n: nat)
    requires n > 0
    ensures NextVersion(Some(Revision(n))) == Cut(Revision(n + 1))
  {
    RevisionStripped(n);
    BumpedRevision(n);
  }

  /** What is left of a revision number after "v1-r" in 32 characters. */
  const DIGITS := 28

  predicate Fits(n: nat) { |D.Render(n)| <= DIGITS }

  /** The first 28 digits of n. */
  function Leading(n: nat): nat { if Fits(n) then n else Leading(n / 10) }

  lemma CutShort(n: nat)
    requires Fits(n)
    ensures Cut(Revision(n)) == Revision(n)
  {
  }

  lemma CutLong(n: nat)
    requires !Fits(n)
    ensures n >= 100 && Cut(Revision(n)) == Cut(Revision(n / 10))
  {
    assert |D.Render(n)| == |D.Render(n / 10)| + 1;
    var front := FIRST + MARKER;
    assert front + (D.Render(n / 10) + [D.Digit(n % 10)]) == (front + D.Render(n / 10)) + [D.Digit(n % 10)];
  }

  lemma {:induction false} CutIsLeading(n: nat)
    ensures Cut(Revision(n)) == Revision(Leading(n)) && Leading(n) <= n
  {
    if Fits(n) {
      CutShort(n);
    } else {
      CutLong(n);
      CutIsLeading(n / 10);
    }
  }

  /** After that the cut to 32 characters turns the counter back: the next revision is the first 28 digits
      of the next number, a tenth of it at most. */
  lemma CounterTurnsBack(n: nat)
    requires n + 1 >= Pow10(DIGITS)
    ensures NextVersion(Some(Revision(n))) == Revision(Leading(n + 1)) && Leading(n + 1) <= (n + 1) / 10
  {
    RenderLength(n + 1, DIGITS);
    LeadingFollows(n);
  }

  lemma LeadingFollows(n: nat)
    requires !Fits(n + 1)
    ensures NextVersion(Some(Revision(n))) == Revision(Leading(n + 1)) && Leading(n + 1) <= (n + 1) / 10
  {
    CutLong(n + 1);
    NextIsCut(n);
    CutIsLeading(n + 1);
    CutIsLeading((n + 1) / 10);
  }

  lemma LeadingTenth(p: nat, q: nat)
    requires p / 10 == q && Fits(q) && !Fits(p)
    ensures Leading(p) == q
  {
  }

  lemma LimitNumbers(k: nat)
    requires k == DIGITS
    ensures var p, q := Pow10(k), Pow10(k - 1); p / 10 == q && Fits(q) && !Fits(p)
  {
    Pow10Grows(k);
    RenderLength(Pow10(k), k);
    RenderLength(Pow10(k - 1), k);
  }

  lemma NextAtTenth(n: nat, p: nat, q: nat)
    requires n + 1 == p && p / 10 == q && Fits(q) && !Fits(p)
    ensures NextVersion(Some(Revision(n))) == Revision(q)
  {
    LeadingTenth(p, q);
    LeadingFollows(n);
  }

  /** Revision 10^28 - 1 is followed by revision 10^27, from which NextIsSuccessor counts up to it again. */
  lemma CounterCycles(n: nat, m: nat, k: nat)
    requires k == DIGITS && n + 1 == Pow10(k) && m == Pow10(k - 1)
    ensures NextVersion(Some(Revision(n))) == Revision(m)
  {
    LimitNumbers(k);
    NextAtTenth(n, n + 1, m);
  }

  lemma {:induction false} RevisionsDiffer(m: nat, n: nat)
    requires 0 < m < n
    ensures Revision(m) != Revision(n)
  {
    D.ParseOfRender(n);
    if m > 1 {
      D.ParseOfRender(m);
      assert Revision(m)[4..] == D.Render(m) && Revision(n)[4..] == D.Render(n);
    }
  }

  // ---- One document version, one parse job at a time ------------------------------------------------

  datatype IndexStatus = Uploaded | Queued | Parsing | Ready | Failed

  /** What the jobs of one version write: its routing columns, the number of its document_routing_nodes
      rows, its parse columns and the status of its document. */
  datatype Row = Row(version: string, status: IndexStatus, path: Option<string>, error: Option<string>, nodes: nat,
                     parse: IndexStatus, parseError: Option<string>, document: IndexStatus)

  const NEW_ROW := Row(FIRST, Uploaded, None, None, 0, Uploaded, None, Uploaded)

  /** An exception: str(exc), and its text with the type in front. */
  datatype Failure = Failure(text: string, formatted: string)

  /** Why a later job takes a new revision. */
  predicate Marked(r: Row) { (r.path.Some? && r.path.value != "") || r.status.Ready? || r.nodes > 0 }

  /** The row after the first commit of a job ... */
  function Begin(r: Row): Row
  {
    r.(version := if Marked(r) then NextVersion(Some(r.version)) else r.version,
       status := Queued, path := None, error := None, parse := Queued, document := Queued)
  }

  /** ... after the second ... */
  function StartParsing(r: Row): Row
  {
    r.(status := Parsing, path := None, error := None, parse := Parsing, document := Parsing)
  }

  /** ... and when the document has been parsed. */
  function FinishParsing(r: Row): Row { r.(parse := Ready, parseError := None, document := Ready) }

  /** The index file carries the version; the row is committed with it. */
  function Persist(r: Row, path: string, nodes: nat): Row
  {
    r.(status := Ready, path := Some(path), error := None, nodes := nodes)
  }

  /** The inner handler: `path` is what _persist_routing_index_build returned, if it did. */
  function RoutingFailed(r: Row, path: Option<string>, failure: Failure): Row
  {
    r.(status := Failed, path := path, error := Some(failure.formatted))
  }

  /** The outer handler. */
  function JobFailed(r: Row, failure: Failure): Row
  {
    r.(status := Failed, path := None, error := Some(failure.formatted),
       parse := Failed, parseError := Some(failure.text), document := Failed)
  }

  /** How many of its commits a job that begins gets through. */
  datatype Reached = AtQueue | AtParsing | AtParsed | AtIndex(path: string, nodes: nat)

  datatype Ending = Done | OuterFailure(failure: Failure) | Crash

  /** What becomes of a job: it dies before its first commit, fails before it, or begins, gets through
      some commits, perhaps fails in the routing part behind the parsing, and ends in one of three ways. */
  datatype Job =
    | Lost
    | Refused(failure: Failure)
    | Begun(reached: Reached, routing: Option<Failure>, ending: Ending)

  function AfterCommits(r: Row, reached: Reached): Row
  {
    match reached
    case AtQueue => Begin(r)
    case AtParsing => StartParsing(Begin(r))
    case AtParsed => FinishParsing(StartParsing(Begin(r)))
    case AtIndex(path, nodes) => Persist(FinishParsing(StartParsing(Begin(r))), path, nodes)
  }

  function AfterRouting(r: Row, reached: Reached, routing: Option<Failure>): Row
  {
    if routing.None? then r
    else
      match reached
      case AtParsed => RoutingFailed(r, None, routing.value)
      case AtIndex(path, _) => RoutingFailed(r, Some(path), routing.value)
      case _ => r
  }

  function Finish(r: Row, ending: Ending): Row
  {
    match ending
    case OuterFailure(failure) => JobFailed(r, failure)
    case _ => r
  }

  function Run(r: Row, job: Job): Row
  {
    match job
    case Lost => r
    case Refused(failure) => JobFailed(r, failure)
    case Begun(reached, routing, ending) => Finish(AfterRouting(AfterCommits(r, reached), reached, routing), ending)
  }

  /** The job writes a routing index. */
  predicate Builds(job: Job) { job.Begun? && job.reached.AtIndex? }

  function Written(r: Row, job: Job): seq<string> { if Builds(job) then [Begin(r).version] else [] }

  /** The version strings of the indexes the jobs persist. */
  function Persisted(r: Row, jobs: seq<Job>): seq<string>
    decreases |jobs|
  {
    if jobs == [] then [] else Written(r, jobs[0]) + Persisted(Run(r, jobs[0]), jobs[1..])
  }

  ghost predicate NodesFound(jobs: seq<Job>)
  {
    forall i | 0 <= i < |jobs| && Builds(jobs[i]) :: jobs[i].reached.nodes > 0
  }

  ghost predicate Climbs(versions: seq<string>, numbers: seq<nat>, above: nat)
  {
    && |numbers| == |versions|
    && (forall k | 0 <= k < |versions| :: versions[k] == Revision(numbers[k]) && numbers[k] > above)
    && forall k, l | 0 <= k < l < |numbers| :: numbers[k] < numbers[l]
  }

  lemma ClimbsCons(versions: seq<string>, numbers: seq<nat>, n: nat, above: nat)
    requires Climbs(versions, numbers, n) && n > above
    ensures Climbs([Revision(n)] + versions, [n] + numbers, above)
  {
  }

  lemma ClimbsFrom(versions: seq<string>, numbers: seq<nat>, n: nat, above: nat)
    requires Climbs(versions, numbers, n) && n >= above
    ensures Climbs(versions, numbers, above)
  {
  }

  lemma BeginRevision(r: Row, n: nat)
    requires r.version == Revision(n) && 0 < n && n + 1 < Pow10(28)
    ensures Begin(r).version == Revision(if Marked(r) then n + 1 else n)
  {
    NextIsSuccessor(n);
  }

  lemma RunKeeps(r: Row, job: Job)
    ensures Run(r, job).version == if job.Begun? then Begin(r).version else r.version
    ensures Run(r, job).nodes == if Builds(job) then job.reached.nodes else r.nodes
  {
  }

  /** What the revisions persisted from here on lie above: the current one, if it may already be in use. */
  function Floor(r: Row, n: nat): nat
    requires n > 0
  {
    if r.nodes > 0 then n else n - 1
  }

  /** The number of the current revision after a job. */
  function Number(r: Row, n: nat, job: Job): nat { if job.Begun? && Marked(r) then n + 1 else n }

  lemma ClimbStep(r: Row, n: nat, job: Job, versions: seq<string>, later: seq<nat>) returns (numbers: seq<nat>)
    requires 0 < n && Begin(r).version == Revision(if Marked(r) then n + 1 else n)
    requires Builds(job) ==> job.reached.nodes > 0
    requires Climbs(versions, later, Floor(Run(r, job), Number(r, n, job)))
    ensures Climbs(Written(r, job) + versions, numbers, Floor(r, n))
  {
    var n' := Number(r, n, job);
    RunKeeps(r, job);
    if Builds(job) {
      numbers := [n'] + later;
      ClimbsCons(versions, later, n', Floor(r, n));
    } else {
      numbers := later;
      assert [] + versions == versions;
      ClimbsFrom(versions, later, Floor(Run(r, job), n'), Floor(r, n));
    }
  }

  /** Whatever becomes of the jobs, the revisions persisted from here on climb. */
  lemma {:induction false} JobsClimb(r: Row, n: nat, jobs: seq<Job>) returns (numbers: seq<nat>)
    requires r.version == Revision(n) && 0 < n && n + |jobs| < Pow10(28) && NodesFound(jobs)
    ensures Climbs(Persisted(r, jobs), numbers, Floor(r, n))
    decreases |jobs|
  {
    if jobs == [] {
      numbers := [];
    } else {
      BeginRevision(r, n);
      RunKeeps(r, jobs[0]);
      var later := JobsClimb(Run(r, jobs[0]), Number(r, n, jobs[0]), jobs[1..]);
      numbers := ClimbStep(r, n, jobs[0], Persisted(Run(r, jobs[0]), jobs[1..]), later);
    }
  }

  /** Every routing index a document version ever gets carries a strictly larger revision than all
      earlier ones, if every persisted index has a node and the revisions keep within 28 digits. */
  lemma RevisionsClimb(jobs: seq<Job>) returns (numbers: seq<nat>)
    requires NodesFound(jobs) && 1 + |jobs| < Pow10(28)
    ensures Climbs(Persisted(NEW_ROW, jobs), numbers, 0)
  {
    numbers := JobsClimb(NEW_ROW, 1, jobs);
  }

  // ---- Without nodes ---------------------------------------------------------------------------------------

  function RunAll(r: Row, jobs: seq<Job>): Row
    decreases |jobs|
  {
    if jobs == [] then r else RunAll(Run(r, jobs[0]), jobs[1..])
  }

  ghost predicate NeverBegan(jobs: seq<Job>) { forall i | 0 <= i < |jobs| :: !jobs[i].Begun? }

  lemma RefusedFirst(jobs: seq<Job>)
    requires jobs != []
    ensures SomeRefused(jobs) <==> jobs[0].Refused? || SomeRefused(jobs[1..])
  {
    if i :| 0 <= i < |jobs| && jobs[i].Refused? { assert i > 0 ==> jobs[1..][i - 1].Refused?; }
    if i :| 0 <= i < |jobs[1..]| && jobs[1..][i].Refused? { assert jobs[i + 1].Refused?; }
  }

  lemma {:induction false} IdleJobs(r: Row, jobs: seq<Job>)
    requires NeverBegan(jobs)
    ensures var after := RunAll(r, jobs);
            && after.version == r.version && after.nodes == r.nodes
            && if SomeRefused(jobs) then after.status.Failed? && after.path.None? else after == r
    decreases |jobs|
  {
    if jobs != [] {
      IdleJobs(Run(r, jobs[0]), jobs[1..]);
      RefusedFirst(jobs);
    }
  }

  ghost predicate SomeRefused(jobs: seq<Job>) { exists i :: 0 <= i < |jobs| && jobs[i].Refused? }

  /** The row after a job that persisted an index and some jobs that never began. */
  lemma MarkedAfter(r: Row, job: Job, between: seq<Job>)
    requires NeverBegan(between) && Builds(job) && job.reached.path != ""
    ensures var after := RunAll(Run(r, job), between);
            && after.version == Begin(r).version
            && (Marked(after) <==> job.reached.nodes > 0 || !(job.ending.OuterFailure? || SomeRefused(between)))
  {
    IdleJobs(Run(r, job), between);
  }

  /** The next job that begins after one that persisted an index reuses that index's version exactly
      when the index has no node and a failure in between went through the outer handler, be it in the
      persisting job itself or in a later one that failed before its first commit. */
  lemma ReuseExactly(r: Row, n: nat, job: Job, between: seq<Job>)
    requires Begin(r).version == Revision(n) && 0 < n && n + 1 < Pow10(28)
    requires Builds(job) && job.reached.path != "" && NeverBegan(between)
    ensures var after := RunAll(Run(r, job), between);
            Begin(after).version == Begin(r).version <==>
              job.reached.nodes == 0 && (job.ending.OuterFailure? || SomeRefused(between))
  {
    MarkedAfter(r, job, between);
    BeginRevision(RunAll(Run(r, job), between), n);
    RevisionsDiffer(n, n + 1);
  }

  // ---- What the columns say together -------------------------------------------------------------------

  /** The document stands where its parsing stands; an index is ready only behind a finished parsing and
      with its path; a routing error is there exactly after a failure, a parse error after a failed parsing
      and never after a finished one. */
  predicate ColumnsAgree(r: Row)
  {
    && r.document == r.parse
    && (r.status.Ready? ==> r.path.Some? && r.parse.Ready?)
    && (r.path.Some? ==> r.status.Ready? || (r.status.Failed? && r.parse.Ready?))
    && (r.error.Some? <==> r.status.Failed?)
    && (r.parse.Failed? ==> r.parseError.Some? && r.status.Failed?)
    && (r.parse.Ready? ==> r.parseError.None?)
  }

  lemma BeginAgrees(r: Row)
    requires ColumnsAgree(r)
    ensures ColumnsAgree(Begin(r)) && Begin(r).parse.Queued?
  {
  }

  lemma CommitsAgree(r: Row, reached: Reached)
    requires ColumnsAgree(r)
    ensures ColumnsAgree(AfterCommits(r, reached))
    ensures reached.AtParsed? || reached.AtIndex? ==> AfterCommits(r, reached).parse.Ready?
  {
    BeginAgrees(r);
    ParsingAgrees(Begin(r), reached);
  }

  lemma ParsingAgrees(begun: Row, reached: Reached)
    requires ColumnsAgree(begun)
    ensures var r := StartParsing(begun);
            && ColumnsAgree(r) && ColumnsAgree(FinishParsing(r)) && FinishParsing(r).parse.Ready?
            && (reached.AtIndex? ==> ColumnsAgree(Persist(FinishParsing(r), reached.path, reached.nodes)))
  {
  }

  lemma FailuresAgree(r: Row, reached: Reached, routing: Option<Failure>, ending: Ending)
    requires ColumnsAgree(r) && (reached.AtParsed? || reached.AtIndex? ==> r.parse.Ready?)
    ensures ColumnsAgree(Finish(AfterRouting(r, reached, routing), ending))
  {
  }

  lemma RunAgrees(r: Row, job: Job)
    requires ColumnsAgree(r)
    ensures ColumnsAgree(Run(r, job))
  {
    if job.Begun? {
      CommitsAgree(r, job.reached);
      FailuresAgree(AfterCommits(r, job.reached), job.reached, job.routing, job.ending);
    }
  }

  /** The columns agree after any jobs, wherever each of them ended. */
  lemma {:induction false} ColumnsAlwaysAgree(r: Row, jobs: seq<Job>)
    requires ColumnsAgree(r)
    ensures ColumnsAgree(RunAll(r, jobs))
    decreases |jobs|
  {
    if jobs != [] {
      RunAgrees(r, jobs[0]);
      ColumnsAlwaysAgree(Run(r, jobs[0]), jobs[1..]);
    }
  }

  // ---- The row, updated in place ---------------------------------------------------------------------------

  /** An earlier job left something the next one must not share a version with. */
  predicate Bumps(path: Option<string>, status: IndexStatus, nodes: nat)
  {
    (path != None && path != Some("")) || status == Ready || nodes > 0
  }

  predicate FailedRow(r: Row, failure: Failure)
  {
    && r.status == Failed && r.path == None && r.error == Some(failure.formatted)
    && r.parse == Failed && r.parseError == Some(failure.text) && r.document == Failed
  }

  /** The row of a job whose outer handler did not run: as far as its commits, or as far as its routing part. */
  predicate StoppedRow(r: Row, parseError: Option<string>, reached: Reached, routing: Option<Failure>)
  {
    r.document == r.parse
    && match reached
       case AtQueue =>
         && r.parse == r.status == Queued && r.parseError == parseError && r.path == None && r.error == None
       case AtParsing =>
         && r.parse == r.status == Parsing && r.parseError == parseError && r.path == None && r.error == None
       case AtParsed =>
         && r.parse == Ready && r.parseError == None && r.path == None
         && (if routing.Some? then r.status == Failed && r.error == Some(routing.value.formatted)
             else r.status == Parsing && r.error == None)
       case AtIndex(path, _) =>
         && r.parse == Ready && r.parseError == None && r.path == Some(path)
         && (if routing.Some? then r.status == Failed && r.error == Some(routing.value.formatted)
             else r.status == Ready && r.error == None)
  }

  /** What a job makes of a row, by how far it got and how it ended. */
  predicate LeftBehind(r: Row, r': Row, reached: Reached, routing: Option<Failure>, ending: Ending)
  {
    && r'.version == (if Bumps(r.path, r.status, r.nodes) then NextVersion(Some(r.version)) else r.version)
    && r'.nodes == (if reached.AtIndex? then reached.nodes else r.nodes)
    && if ending.OuterFailure? then FailedRow(r', ending.failure) else StoppedRow(r', r.parseError, reached, routing)
  }

  lemma CommitsLeave(r: Row, reached: Reached)
    ensures var c := AfterCommits(r, reached);
            && c.version == (if Bumps(r.path, r.status, r.nodes) then NextVersion(Some(r.version)) else r.version)
            && c.nodes == (if reached.AtIndex? then reached.nodes else r.nodes)
            && StoppedRow(c, r.parseError, reached, None)
  {
  }

  lemma FailuresLeave(c: Row, parseError: Option<string>, reached: Reached, routing: Option<Failure>, ending: Ending)
    requires StoppedRow(c, parseError, reached, None)
    ensures var r := Finish(AfterRouting(c, reached, routing), ending);
            && r.version == c.version && r.nodes == c.nodes
            && if ending.OuterFailure? then FailedRow(r, ending.failure)
               else StoppedRow(r, parseError, reached, routing)
  {
  }

  lemma RunLeaves(r: Row, reached: Reached, routing: Option<Failure>, ending: Ending)
    ensures LeftBehind(r, Run(r, Begun(reached, routing, ending)), reached, routing, ending)
    ensures Begin(r).version == Run(r, Begun(reached, routing, ending)).version
  {
    CommitsLeave(r, reached);
    FailuresLeave(AfterCommits(r, reached), r.parseError, reached, routing, ending);
  }

  class DocumentVersion {
    var version: string
    var status: IndexStatus
    var path: Option<string>
    var error: Option<string>
    var nodes: nat
    var parse: IndexStatus
    var parseError: Option<string>
    var document: IndexStatus

    function View(): Row reads this { Row(version, status, path, error, nodes, parse, parseError, document) }

    constructor ()
      ensures View() == NEW_ROW
    {
      version, status, path, error, nodes := FIRST, Uploaded, None, None, 0;
      parse, parseError, document := Uploaded, None, Uploaded;
    }

    /** run_parse_job up to its first commit. */
    method BeginJob()
      modifies this
      ensures View() == Begin(old(View()))
      ensures parse == Queued && status == Queued && document == Queued && path == None && error == None
      ensures parseError == old(parseError) && nodes == old(nodes)
      ensures if Bumps(old(path), old(status), old(nodes)) then version == NextVersion(Some(old(version)))
              else version == old(version)
    {
      var bump := (path.Some? && path.value != "") || status.Ready? || nodes > 0;
      parse := Queued;
      status := Queued;
      error := None;
      path := None;
      if bump { version := NextVersion(Some(version)); }
      document := Queued;
    }

    method MarkParsing()
      modifies this
      ensures View() == StartParsing(old(View()))
      ensures parse == Parsing && status == Parsing && document == Parsing && path == None && error == None
      ensures version == old(version) && parseError == old(parseError) && nodes == old(nodes)
    {
      parse := Parsing;
      status := Parsing;
      error := None;
      path := None;
      document := Parsing;
    }

    method MarkParsed()
      modifies this
      ensures View() == FinishParsing(old(View()))
      ensures parse == Ready && parseError == None && document == Ready
      ensures version == old(version) && status == old(status) && path == old(path) && error == old(error)
      ensures nodes == old(nodes)
    {
      parse := Ready;
      parseError := None;
      document := Ready;
    }

    /** _persist_routing_index_build: the node rows are replaced and the row is committed with them. */
    method PersistBuild(indexPath: string, nodeCount: nat)
      modifies this
      ensures View() == Persist(old(View()), indexPath, nodeCount)
      ensures nodes == nodeCount && status == Ready && path == Some(indexPath) && error == None
      ensures version == old(version) && parse == old(parse) && parseError == old(parseError)
      ensures document == old(document)
    {
      nodes := nodeCount;
      status := Ready;
      path := Some(indexPath);
      error := None;
    }

    method HandleRoutingFailure(indexPath: Option<string>, failure: Failure)
      modifies this
      ensures View() == RoutingFailed(old(View()), indexPath, failure)
      ensures status == Failed && path == indexPath && error == Some(failure.formatted)
      ensures version == old(version) && nodes == old(nodes)
      ensures parse == old(parse) && parseError == old(parseError) && document == old(document)
    {
      status := Failed;
      path := indexPath;
      error := Some(failure.formatted);
    }

    method HandleJobFailure(failure: Failure)
      modifies this
      ensures View() == JobFailed(old(View()), failure)
      ensures status == Failed && path == None && error == Some(failure.formatted)
      ensures parse == Failed && parseError == Some(failure.text) && document == Failed
      ensures version == old(version) && nodes == old(nodes)
    {
      parse := Failed;
      parseError := Some(failure.text);
      status := Failed;
      path := None;
      error := Some(failure.formatted);
      document := Failed;
    }

    /** The commits a job gets through. */
    method Advance(reached: Reached) returns (written: seq<string>)
      modifies this
      ensures View() == AfterCommits(old(View()), reached)
      ensures written == if reached.AtIndex? then [Begin(old(View())).version] else []
    {
      BeginJob();
      if reached.AtQueue? { return []; }
      MarkParsing();
      if reached.AtParsing? { return []; }
      MarkParsed();
      if reached.AtParsed? { return []; }
      PersistBuild(reached.path, reached.nodes);
      written := [version];
    }

    /** The routing part raised; before its two commits there is none. */
    method FailRouting(reached: Reached, failure: Failure)
      modifies this
      ensures View() == AfterRouting(old(View()), reached, Some(failure))
    {
      if reached.AtParsed? { HandleRoutingFailure(None, failure); }
      if reached.AtIndex? { HandleRoutingFailure(Some(reached.path), failure); }
    }

    /** The whole of one job that begins. */
    method RunParseJob(reached: Reached, routing: Option<Failure>, ending: Ending) returns (written: seq<string>)
      modifies this
      ensures View() == Run(old(View()), Begun(reached, routing, ending))
      ensures written == Written(old(View()), Begun(reached, routing, ending))
      ensures written == if reached.AtIndex? then [version] else []
      ensures LeftBehind(old(View()), View(), reached, routing, ending)
    {
      RunLeaves(View(), reached, routing, ending);
      written := Advance(reached);
      if routing.Some? { FailRouting(reached, routing.value); }
      if ending.OuterFailure? { HandleJobFailure(ending.failure); }
    }
  }
}
