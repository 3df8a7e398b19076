/** What every saved state, every call and every situation of a run satisfies. */
module RunInvariant {
  import opened Schema
  import opened Conflicts
  import opened Contracts
  import opened RunMachine

  // ---------- The stored results ----------

  function ResearchOf(results: map<Role, Ref>, v: Role): Option<ResearchResult> {
    if v in results && results[v].digest.ResearchPayload? then Some(results[v].digest.research) else None
  }

  function ReportOf(ref: Option<Ref>): Option<ReportResult> {
    if ref.Some? && ref.value.digest.ReportPayload? then Some(ref.value.digest.report) else None
  }

  function DocumentOf(ref: Option<Ref>): Option<Document> {
    if ReportOf(ref).Some? then ReportOf(ref).value.document else None
  }

  function EvaluationOf(ref: Option<Ref>): Option<EvaluationResult> {
    if ref.Some? && ref.value.digest.EvaluationPayload? then Some(ref.value.digest.evaluation) else None
  }

  /** The reference names an artifact of the role, and it resolves. */
  ghost predicate Stored(disk: Disk, role: Role, ref: Ref) {
    ref.key.role == role && Fetch(disk, ref) == Some(ref.digest)
  }

  ghost predicate ResultOk(cfg: Config, disk: Disk, s: State, v: Role) {
    && v in s.results && IsView(v) && Stored(disk, v, s.results[v]) && ResearchOf(s.results, v).Some?
    && var r := ResearchOf(s.results, v).value;
       && r.common == CommonFor(cfg, v, s.results[v].key.attempt) && r.view == v && ConsistentResearch(r)
       && v in s.summaries && s.summaries[v].status == r.status
  }

  ghost predicate ResultsOk(cfg: Config, disk: Disk, s: State) {
    s.summaries.Keys == s.results.Keys && forall v :: v in s.results ==> ResultOk(cfg, disk, s, v)
  }

  ghost predicate OkResult(results: map<Role, Ref>, v: Role) {
    ResearchOf(results, v).Some? && ResearchOf(results, v).value.status.Ok?
  }

  /** The result was computed against the technical research now in the state, and that is ok. */
  ghost predicate Derived(asked: map<Key, Request>, results: map<Role, Ref>, v: Role) {
    && OkResult(results, Research) && v in results && results[v].key in asked
    && asked[results[v].key].ResearchRequest?
    && asked[results[v].key].context == ResearchOf(results, Research)
  }

  ghost predicate Lineage(asked: map<Key, Request>, results: map<Role, Ref>) {
    forall v :: v in results && v != Research ==> Derived(asked, results, v)
  }

  /** The results listed in the given order of views. */
  ghost predicate Gathers(results: map<Role, Ref>, order: seq<Role>, rs: seq<ResearchResult>) {
    |rs| == |order| && forall k :: 0 <= k < |order| ==> ResearchOf(results, order[k]) == Some(rs[k])
  }

  ghost predicate MatchesIn(names: Naming, results: map<Role, Ref>, r: ReportResult, order: seq<Role>,
          rs: seq<ResearchResult>) {
    Enumerates(order, results.Keys) && Gathers(results, order, rs) && InputsMatch(r, rs, names)
  }

  /** The report matches the results now in the state, all four of them ok. */
  ghost predicate Current(names: Naming, results: map<Role, Ref>, r: ReportResult) {
    && (forall v :: IsView(v) ==> OkResult(results, v))
    && exists order, rs :: MatchesIn(names, results, r, order, rs)
  }

  ghost predicate ReportOk(cfg: Config, disk: Disk, s: State) {
    s.report.Some? ==>
      && Stored(disk, Writer, s.report.value) && ReportOf(s.report).Some?
      && var r := ReportOf(s.report).value;
         && r.common == CommonFor(cfg, Writer, s.report.value.key.attempt) && ConsistentReport(r)
         && (r.document.Some? ==> Current(cfg.names, s.results, r))
         && (s.status.Running? ==> r.document.Some?)
  }

  /** The verdict is about the report now in the state, and a positive one about a sound report. */
  ghost predicate VerdictOk(cfg: Config, disk: Disk, s: State) {
    s.evaluation.Some? ==>
      && Stored(disk, Evaluator, s.evaluation.value) && EvaluationOf(s.evaluation).Some? && DocumentOf(s.report).Some?
      && var e, r := EvaluationOf(s.evaluation).value, ReportOf(s.report).value;
         && e.common == CommonFor(cfg, Evaluator, s.evaluation.value.key.attempt) && ConsistentEvaluation(e)
         && e.reportRequestId == r.common.requestId && VerdictKnown(e, r.document.value)
         && (e.passed ==> StructureSound(r))
  }

  ghost predicate RepairOk(disk: Disk, s: State) {
    s.repairSource.Some? ==>
      Fetch(disk, s.repairSource.value) == Some(s.repairSource.value.digest) && EvaluationOf(s.repairSource).Some?
  }

  ghost predicate PublicationOk(disk: Disk, s: State) {
    s.publication.Some? ==>
      var ref := s.publication.value;
      && !s.status.Running? && Fetch(disk, ref) == Some(ref.digest) && ref.digest.PublishPayload?
      && (ref.digest.publication.files.Some? ==>
            Verifies(disk, ref.digest.publication.files.value.markdown)
            && Verifies(disk, ref.digest.publication.files.value.pdf))
  }

  /** The evaluation in the state is ok and passed. */
  ghost predicate Passing(s: State) {
    EvaluationOf(s.evaluation).Some? && EvaluationOf(s.evaluation).value.error.None? && EvaluationOf(s.evaluation).value.passed
  }

  /** Only a passed report is published, and exactly its Markdown. */
  ghost predicate CompletedOk(disk: Disk, s: State) {
    s.status.Completed? ==>
      && Passing(s) && DocumentOf(s.report).Some?
      && s.publication.Some? && s.publication.value.digest.PublishPayload?
      && var p := s.publication.value.digest.publication;
         p.files.Some? && Verifies(disk, p.files.value.markdown)
         && disk.files[p.files.value.markdown.path] == DocumentOf(s.report).value.markdown
  }

  ghost predicate Content(cfg: Config, disk: Disk, asked: map<Key, Request>, s: State) {
    && s.identity == cfg.identity
    && ResultsOk(cfg, disk, s) && Lineage(asked, s.results) && ReportOk(cfg, disk, s) && VerdictOk(cfg, disk, s)
    && RepairOk(disk, s) && PublicationOk(disk, s) && CompletedOk(disk, s)
  }

  // ---------- Counting ----------

  /** The number of role executions other than the Supervisor's own. */
  function Calls(s: State): nat {
    Attempts(s, Research) + Attempts(s, Market) + Attempts(s, Stakeholder) + Attempts(s, Domain)
    + Attempts(s, Writer) + Attempts(s, Evaluator) + Attempts(s, Publisher)
  }

  ghost predicate Bounds(cfg: Config, s: State) {
    && (forall v :: IsView(v) ==> Attempts(s, v) <= cfg.limits.workerAttempts)
    && Attempts(s, Writer) <= cfg.limits.writerAttempts
    && Attempts(s, Evaluator) <= Attempts(s, Writer)
    && Attempts(s, Publisher) <= 1
    && s.steps <= cfg.limits.supervisorSteps
    && Calls(s) <= s.steps <= Calls(s) + 1
  }

  function Unjudged(s: State): nat { if s.report.Some? && s.evaluation.None? then 1 else 0 }

  /** At rest the Supervisor has decided once for every call, and once more when a role is due. */
  ghost predicate RestCounts(s: State) {
    && s.steps == Calls(s) + (if s.next == Go(Supervisor) then 0 else 1)
    && Attempts(s, Publisher) == 0
    && Attempts(s, Evaluator) + Unjudged(s) <= Attempts(s, Writer)
  }

  /** During a call the role's attempt is already counted. */
  ghost predicate CallCounts(s: State, role: Role) {
    && s.steps == Calls(s)
    && Attempts(s, Publisher) == (if role.Publisher? then 1 else 0)
    && Attempts(s, Evaluator) + (if role.Evaluator? then 0 else Unjudged(s)) + (if role.Writer? then 1 else 0)
       <= Attempts(s, Writer)
  }

  /** What a role needs before it is called. */
  ghost predicate Due(s: State, role: Role) {
    match role
    case Supervisor => true
    case Writer => s.sufficient && forall v :: IsView(v) ==> Ready(s, v)
    case Evaluator => s.report.Some? && s.evaluation.None?
    case Publisher => Passing(s)
    case _ => role != Research ==> Ready(s, Research)
  }

  ghost predicate Room(cfg: Config, s: State, role: Role) {
    && (role.Writer? ==> Attempts(s, Writer) < cfg.limits.writerAttempts)
    && (IsView(role) ==> Attempts(s, role) < cfg.limits.workerAttempts)
  }

  /** The last attempt of a role whose request may already have been made. */
  function Used(s: State, role: Role): int {
    if s.pending.Some? && s.pending.value.role == role then s.pending.value.attempt - 1
    else if role.Supervisor? then s.steps else Attempts(s, role)
  }

  ghost predicate Fresh(disk: Disk, used: set<Key>, s: State) {
    forall k :: k in disk.artifacts || k in used ==> k.attempt <= Used(s, k.role)
  }

  // ---------- Situations ----------

  /** A running state at rest between two nodes. */
  ghost predicate RestOk(cfg: Config, disk: Disk, used: set<Key>, asked: map<Key, Request>, s: State) {
    && s.status.Running? && s.lastError.None? && s.pending.None? && s.next.Go?
    && Content(cfg, disk, asked, s) && Due(s, s.next.role) && Room(cfg, s, s.next.role)
    && RestCounts(s) && Bounds(cfg, s) && Fresh(disk, used, s)
  }

  function Mark(cfg: Config, s: State, role: Role): Pending {
    var attempt := if role.Supervisor? then s.steps + 1 else Attempts(s, role);
    Pending(role, RequestId(cfg.identity, role, attempt), attempt)
  }

  /** A state saved before a call. */
  ghost predicate CallOk(cfg: Config, disk: Disk, used: set<Key>, asked: map<Key, Request>, s: State) {
    && s.status.Running? && s.lastError.None? && s.next.Go? && s.pending == Some(Mark(cfg, s, s.next.role))
    && Content(cfg, disk, asked, s) && Due(s, s.next.role)
    && CallCounts(s, s.next.role) && Bounds(cfg, s) && Fresh(disk, used, s)
  }

  /** Any saved state: running at rest, ended, or marked pending. */
  ghost predicate SavedOk(cfg: Config, disk: Disk, used: set<Key>, asked: map<Key, Request>, s: State) {
    && Content(cfg, disk, asked, s) && Bounds(cfg, s)
    && (s.pending.None? && s.status.Running? ==> RestOk(cfg, disk, used, asked, s))
  }

  // ---------- Requests in terms of the state ----------

  ghost predicate ResearchAsked(cfg: Config, s: State, view: Role, request: Request) {
    && request.ResearchRequest? && request.view == view && request.common == CommonFor(cfg, view, Attempts(s, view))
    && request.previous == ResearchOf(s.results, view)
    && request.context == (if view.Research? then None else ResearchOf(s.results, Research))
    && (!view.Research? ==> OkResult(s.results, Research))
  }

  ghost predicate WriteAskedIn(cfg: Config, s: State, request: Request, order: seq<Role>) {
    && request.WriteRequest? && request.common == CommonFor(cfg, Writer, Attempts(s, Writer))
    && Enumerates(order, s.results.Keys) && Gathers(s.results, order, request.results)
    && (forall v :: IsView(v) ==> OkResult(s.results, v))
    && request.previousReport == ReportOf(s.report)
  }

  ghost predicate EvaluateAsked(cfg: Config, s: State, request: Request) {
    && request.EvaluateRequest? && request.common == CommonFor(cfg, Evaluator, Attempts(s, Evaluator))
    && ReportOf(s.report) == Some(request.report) && request.report.document.Some?
  }

  ghost predicate PublishAsked(cfg: Config, s: State, request: Request) {
    && request.PublishRequest? && request.common == CommonFor(cfg, Publisher, Attempts(s, Publisher))
    && ReportOf(s.report) == Some(request.report) && request.report.document.Some?
    && EvaluationOf(s.evaluation) == Some(request.evaluation) && Passing(s)
    && request.evaluation.reportRequestId == request.report.common.requestId
  }

  /** The request is the one the role makes in this state. */
  ghost predicate Asked(cfg: Config, s: State, role: Role, request: Request) {
    match role
    case Supervisor => request.DecideRequest? && request.common == CommonFor(cfg, Supervisor, s.steps + 1)
    case Writer => exists order :: WriteAskedIn(cfg, s, request, order)
    case Evaluator => EvaluateAsked(cfg, s, request)
    case Publisher => PublishAsked(cfg, s, request)
    case _ => ResearchAsked(cfg, s, role, request)
  }

  // ---------- The machine ----------

  ghost predicate AwaitOk(cfg: Config, disk: Disk, trace: seq<Key>, asked: map<Key, Request>, s: State,
          request: Request) {
    && trace != [] && trace[|trace| - 1] == PendingKey(s)
    && CallOk(cfg, disk, ToSet(trace[..|trace| - 1]), asked, s)
    && PendingKey(s) in asked && asked[PendingKey(s)] == request
    && Asked(cfg, s, s.next.role, request)
  }

  ghost predicate BetweenOk(cfg: Config, disk: Disk, used: set<Key>, asked: map<Key, Request>, s: State, at: Action) {
    && disk.snapshot == Some(s) && SavedOk(cfg, disk, used, asked, s)
    && (if s.status.Running? then s.pending.None? && at == s.next else at == Go(Supervisor) || at == Stop)
  }

  ghost predicate Inv(cfg: Config, m: Machine) {
    && Distinct(m.trace) && m.asked.Keys == ToSet(m.trace)
    && match m.proc
       case Dead =>
         if m.disk.snapshot.None? then m.trace == [] && m.disk.artifacts == map[]
         else SavedOk(cfg, m.disk, ToSet(m.trace), m.asked, m.disk.snapshot.value)
       case Between(s, at) => BetweenOk(cfg, m.disk, ToSet(m.trace), m.asked, s, at)
       case Calling(s) => m.disk.snapshot == Some(s) && CallOk(cfg, m.disk, ToSet(m.trace), m.asked, s)
       case Awaiting(s, request) =>
         m.disk.snapshot == Some(s) && AwaitOk(cfg, m.disk, m.trace, m.asked, s, request)
  }

  // ---------- Keeping the content ----------

  /** The disk keeps every artifact. */
  ghost predicate Grows(disk: Disk, more: Disk) {
    forall k :: k in disk.artifacts ==> k in more.artifacts && more.artifacts[k] == disk.artifacts[k]
  }

  ghost predicate Extends(asked: map<Key, Request>, more: map<Key, Request>) {
    forall k :: k in asked ==> k in more && more[k] == asked[k]
  }

  lemma {:induction false} ResultsKept(cfg: Config, disk: Disk, more: Disk, s: State, t: State)
    requires ResultsOk(cfg, disk, s) && Grows(disk, more) && t.results == s.results && t.summaries == s.summaries
    ensures ResultsOk(cfg, more, t)
  {
    hide ConsistentResearch, CommonFor;
    forall v | v in t.results ensures ResultOk(cfg, more, t, v) {
      assert ResultOk(cfg, disk, s, v);
    }
  }

  lemma {:induction false} LineageKept(asked: map<Key, Request>, more: map<Key, Request>, results: map<Role, Ref>)
    requires Lineage(asked, results) && Extends(asked, more)
    ensures Lineage(more, results)
  {
    forall v | v in results && v != Research ensures Derived(more, results, v) {
      assert Derived(asked, results, v);
    }
  }

  ghost predicate SameContent(s: State, t: State) {
    && t.identity == s.identity && t.results == s.results && t.summaries == s.summaries
    && t.report == s.report && t.evaluation == s.evaluation && t.repairSource == s.repairSource
    && t.publication == s.publication
    && (t.status.Running? ==> s.status.Running?)
  }

  lemma {:induction false} ReportsKept(cfg: Config, disk: Disk, more: Disk, s: State, t: State)
    requires SameContent(s, t) && Grows(disk, more)
    ensures ReportOk(cfg, disk, s) ==> ReportOk(cfg, more, t)
    ensures VerdictOk(cfg, disk, s) ==> VerdictOk(cfg, more, t)
    ensures RepairOk(disk, s) ==> RepairOk(more, t)
  {
    hide ConsistentReport, ConsistentEvaluation, Current, VerdictKnown, StructureSound, CommonFor;
  }

  lemma {:induction false} NothingPublished(disk: Disk, t: State)
    requires t.publication.None? && !t.status.Completed?
    ensures PublicationOk(disk, t) && CompletedOk(disk, t)
  {
  }

  /** A state with the same references, not yet published, keeps its content on a disk that only grows. */
  lemma {:induction false} ContentKept(cfg: Config, disk: Disk, more: Disk, asked: map<Key, Request>,
          later: map<Key, Request>, s: State, t: State)
    requires Content(cfg, disk, asked, s) && SameContent(s, t) && Grows(disk, more) && Extends(asked, later)
    requires t.publication.None? && !t.status.Completed?
    ensures Content(cfg, more, later, t)
  {
    hide ResultsOk, Lineage, ReportOk, VerdictOk, RepairOk, PublicationOk, CompletedOk;
    ResultsKept(cfg, disk, more, s, t);
    LineageKept(asked, later, s.results);
    ReportsKept(cfg, disk, more, s, t);
    NothingPublished(more, t);
  }

  lemma {:induction false} RunningUnpublished(cfg: Config, disk: Disk, asked: map<Key, Request>, s: State)
    requires Content(cfg, disk, asked, s) && s.status.Running?
    ensures s.publication.None?
  {
    hide ResultsOk, Lineage, ReportOk, VerdictOk, RepairOk, CompletedOk;
  }

  /** A running state's content does not depend on its bookkeeping, nor on the published files. */
  lemma {:induction false} RunningContent(cfg: Config, disk: Disk, more: Disk, asked: map<Key, Request>,
          later: map<Key, Request>, s: State, t: State)
    requires Content(cfg, disk, asked, s) && s.status.Running? && SameContent(s, t) && !t.status.Completed?
    requires Grows(disk, more) && Extends(asked, later)
    ensures Content(cfg, more, later, t)
  {
    hide Content;
    RunningUnpublished(cfg, disk, asked, s);
    ContentKept(cfg, disk, more, asked, later, s, t);
  }

  // ---------- Entering a call ----------

  lemma {:induction false} EnteredAttempts(cfg: Config, b: State, role: Role, v: Role)
    ensures Attempts(Entered(cfg, b, role), v) ==
              Attempts(b, v) + (if v == role && !role.Supervisor? then 1 else 0)
  {
    hide RequestId;
  }

  lemma {:induction false} EnterCounts(cfg: Config, b: State, role: Role)
    requires RestCounts(b) && Bounds(cfg, b) && Room(cfg, b, role) && Due(b, role) && b.next == Go(role)
    ensures CallCounts(Entered(cfg, b, role), role) && Bounds(cfg, Entered(cfg, b, role))
  {
    hide RequestId, Attempts, Ready, Passing;
    var s := Entered(cfg, b, role);
    assert s.steps == b.steps && Unjudged(s) == Unjudged(b);
    hide Entered;
    forall v ensures Attempts(s, v) == Attempts(b, v) + (if v == role && !role.Supervisor? then 1 else 0) {
      EnteredAttempts(cfg, b, role, v);
    }
  }

  lemma {:induction false} EnterFresh(cfg: Config, disk: Disk, used: set<Key>, b: State, role: Role)
    requires Fresh(disk, used, b) && b.pending.None?
    ensures Fresh(disk, used, Entered(cfg, b, role))
  {
    hide RequestId;
    var s := Entered(cfg, b, role);
    forall v ensures Used(s, v) >= Used(b, v) {
    }
  }

  lemma {:induction false} EnterDue(cfg: Config, b: State, role: Role)
    requires Due(b, role)
    ensures Due(Entered(cfg, b, role), role)
  {
    hide RequestId;
    assert forall v :: Ready(Entered(cfg, b, role), v) <==> Ready(b, v);
  }

  lemma {:induction false} EnterOk(cfg: Config, disk: Disk, more: Disk, used: set<Key>, asked: map<Key, Request>,
          b: State)
    requires RestOk(cfg, disk, used, asked, b) && more.artifacts == disk.artifacts
    ensures CallOk(cfg, more, used, asked, Entered(cfg, b, b.next.role))
  {
    hide Content, RestCounts, CallCounts, Bounds, Room, RequestId, Due, Fresh;
    var role := b.next.role;
    var s := Entered(cfg, b, role);
    EnterCounts(cfg, b, role);
    EnterFresh(cfg, disk, used, b, role);
    FreshSame(disk, more, used, s);
    RunningContent(cfg, disk, more, asked, asked, b, s);
    EnteredAttempts(cfg, b, role, role);
    EnterDue(cfg, b, role);
  }

  lemma {:induction false} FreshSame(disk: Disk, more: Disk, used: set<Key>, s: State)
    requires Fresh(disk, used, s) && more.artifacts == disk.artifacts
    ensures Fresh(more, used, s)
  {
  }

  /** The key of a call has never been stored or dispatched. */
  lemma {:induction false} KeyIsFresh(cfg: Config, disk: Disk, used: set<Key>, asked: map<Key, Request>, s: State)
    requires CallOk(cfg, disk, used, asked, s)
    ensures PendingKey(s) !in disk.artifacts && PendingKey(s) !in used
  {
    hide Content, Due, CallCounts, Bounds, RequestId;
  }
}
