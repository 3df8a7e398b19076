/** The Supervisor's run as a state machine over a run directory that survives crashes
    (agents/supervisor.py, agents/store.py, agents/state.py). */
module RunMachine {
  import opened Schema
  import opened Texts
  import opened Ids
  import opened Conflicts
  import opened Contracts

  // ---------- State ----------

  /** `Limits`; every bound is at least one. */
  datatype LimitsData = Limits(workerAttempts: nat, writerAttempts: nat, supervisorSteps: nat)
  type Limits = l: LimitsData | l.workerAttempts >= 1 && l.writerAttempts >= 1 && l.supervisorSteps >= 1
    witness Limits(2, 3, 24)

  /** What is fixed for the whole run: the bound identity, the context, the limits and the naming of claims. */
  datatype Config = Config(identity: string, runId: string, context: RunContext, limits: Limits, names: Naming)

  const VERSION := "agent-contract-v1"

  datatype Payload =
    | DecisionPayload(decision: Decision)
    | ResearchPayload(research: ResearchResult)
    | ReportPayload(report: ReportResult)
    | EvaluationPayload(evaluation: EvaluationResult)
    | PublishPayload(publication: PublishResult)

  /** `artifacts/<role>/<attempt>.json`. */
  datatype Key = Key(role: Role, attempt: nat)

  /** An artifact reference: the path and the digest of what was written there. */
  datatype Ref = Ref(key: Key, digest: Payload)

  datatype RunStatus = Running | Incomplete | NeedsAttention | Completed

  datatype StopCode = LimitExceeded | FatalError | EvidenceGap | Fault(code: ErrorCode)

  datatype Pending = Pending(role: Role, requestId: string, attempt: nat)

  /** The part of a result summary that steers the run. */
  datatype Summary = Summary(status: Status, requestId: string)

  datatype State = State(
    identity: string, status: RunStatus, next: Action, steps: nat, attempts: map<Role, nat>,
    pending: Option<Pending>, lastError: Option<StopCode>, feedback: map<Role, seq<string>>,
    sufficient: bool, summaries: map<Role, Summary>, results: map<Role, Ref>,
    report: Option<Ref>, evaluation: Option<Ref>, publication: Option<Ref>, repairSource: Option<Ref>)

  function Initial(cfg: Config): State {
    State(cfg.identity, Running, Go(Supervisor), 0, map[], None, None, map[], false, map[], map[], None, None, None, None)
  }

  /** The run directory: the snapshot, the write-once artifacts and the published files. */
  datatype Disk = Disk(snapshot: Option<State>, artifacts: map<Key, Payload>, files: map<string, string>)

  function Attempts(s: State, r: Role): nat { if r in s.attempts then s.attempts[r] else 0 }

  function Fetch(disk: Disk, ref: Ref): Option<Payload> {
    if ref.key in disk.artifacts && disk.artifacts[ref.key] == ref.digest then Some(ref.digest) else None
  }

  function RequestId(identity: string, role: Role, attempt: nat): string {
    Numbered((if |identity| <= 16 then identity else identity[..16]) + ['-'] + RoleName(role), attempt)
  }

  function CommonFor(cfg: Config, role: Role, attempt: nat): Common {
    Common(VERSION, cfg.runId, RequestId(cfg.identity, role, attempt), attempt, cfg.context)
  }

  function Stopped(s: State, code: StopCode): State {
    s.(status := if code == Fault(UncertainRequest) then NeedsAttention else Incomplete,
       next := Stop, lastError := Some(code))
  }

  // ---------- Choosing the next role ----------

  /** The roles on offer, at least one, or the reason why there is none. */
  datatype Menu = Offer(first: Role, others: seq<Role>) | Deny(code: StopCode)

  predicate Offers(menu: Menu, r: Role) { menu.Offer? && (r == menu.first || r in menu.others) }

  predicate OffersOnly(menu: Menu, r: Role) { menu == Offer(r, []) }

  function Filter(views: seq<Role>, p: Role -> bool): (r: seq<Role>)
    ensures forall x :: x in r ==> x in views && p(x)
    ensures forall x :: x in views && p(x) ==> x in r
  {
    if views == [] then []
    else (if p(views[0]) then [views[0]] else []) + Filter(views[1..], p)
  }

  predicate Ready(s: State, v: Role) { v in s.summaries && s.summaries[v].status.Ok? }

  function Targets(s: State): seq<Role> {
    if !Ready(s, Research) || Research in s.feedback then [Research]
    else
      var asked := Filter(VIEWS, v => v in s.feedback);
      if asked != [] then asked else Filter(VIEWS, v => !Ready(s, v))
  }

  function AfterVerdict(cfg: Config, s: State): Menu {
    var targets := Targets(s);
    if targets != [] then
      if exists v :: v in targets && Attempts(s, v) >= cfg.limits.workerAttempts then Deny(LimitExceeded)
      else Offer(targets[0], targets[1..])
    else if Attempts(s, Writer) >= cfg.limits.writerAttempts then Deny(LimitExceeded)
    else if Writer in s.feedback && s.feedback[Writer] != [] then Offer(Writer, [])
    else Offer(Writer, Filter(VIEWS, v => Attempts(s, v) < cfg.limits.workerAttempts))
  }

  /** `choices`. */
  function Choices(cfg: Config, disk: Disk, s: State): Outcome<Menu> {
    if !s.status.Running? || s.lastError.Some? then Done(Deny(FatalError))
    else if s.steps >= cfg.limits.supervisorSteps then Done(Deny(LimitExceeded))
    else if s.evaluation.Some? then
      var e := Fetch(disk, s.evaluation.value);
      if e.None? || !e.value.EvaluationPayload? then Raised(InvalidResponse)
      else if e.value.evaluation.error.None? && e.value.evaluation.passed then Done(Offer(Publisher, []))
      else Done(AfterVerdict(cfg, s))
    else if s.report.Some? then Done(Offer(Evaluator, []))
    else Done(AfterVerdict(cfg, s))
  }

  // ---------- Requests ----------

  datatype Request =
    | DecideRequest(common: Common, allowed: seq<Role>)
    | ResearchRequest(common: Common, view: Role, feedback: seq<string>,
                      previous: Option<ResearchResult>, context: Option<ResearchResult>)
    | WriteRequest(common: Common, results: seq<ResearchResult>, feedback: seq<string>, previousReport: Option<ReportResult>)
    | EvaluateRequest(common: Common, report: ReportResult)
    | PublishRequest(common: Common, report: ReportResult, evaluation: EvaluationResult)

  function FetchResearch(disk: Disk, s: State, v: Role): Option<ResearchResult> {
    if v !in s.results then None
    else
      var p := Fetch(disk, s.results[v]);
      if p.Some? && p.value.ResearchPayload? then Some(p.value.research) else None
  }

  function FetchReport(disk: Disk, ref: Option<Ref>): Option<ReportResult> {
    if ref.None? then None
    else
      var p := Fetch(disk, ref.value);
      if p.Some? && p.value.ReportPayload? then Some(p.value.report) else None
  }

  function FetchEvaluation(disk: Disk, ref: Option<Ref>): Option<EvaluationResult> {
    if ref.None? then None
    else
      var p := Fetch(disk, ref.value);
      if p.Some? && p.value.EvaluationPayload? then Some(p.value.evaluation) else None
  }

  /** The stored results, read in the given order of views. */
  function ResultsIn(disk: Disk, s: State, order: seq<Role>): Option<seq<ResearchResult>> {
    if order == [] then Some([])
    else
      var head := ResultsIn(disk, s, order[..|order| - 1]);
      var last := FetchResearch(disk, s, order[|order| - 1]);
      if head.None? || last.None? then None else Some(head.value + [last.value])
  }

  /** A list of the dictionary's keys in some insertion order. */
  predicate Enumerates(order: seq<Role>, keys: set<Role>) { Distinct(order) && ToSet(order) == keys }

  function Cut(s: string, n: nat): string { if |s| <= n then s else s[..n] }

  function CutAll(notes: seq<string>, most: nat, n: nat): (r: seq<string>)
    ensures |r| == if |notes| <= most then |notes| else most
  {
    var kept := if |notes| <= most then notes else notes[..most];
    seq(|kept|, i requires 0 <= i < |kept| => Cut(kept[i], n))
  }

  /** The ids in single quotes, separated by commas. */
  function Listing(ids: seq<string>): string {
    if ids == [] then ""
    else (if |ids| == 1 then "" else Listing(ids[..|ids| - 1]) + ", ") + "'" + ids[|ids| - 1] + "'"
  }

  function RepairNote(r: RepairRequest): string {
    r.reason + " | claim_ids=[" + Listing(r.claimIds) + "] | gap_ids=[" + Listing(r.gapIds) + "]"
  }

  function RepairNotes(repairs: seq<RepairRequest>, role: Role): seq<string> {
    if repairs == [] then []
    else RepairNotes(repairs[..|repairs| - 1], role)
         + (if repairs[|repairs| - 1].target == role then [RepairNote(repairs[|repairs| - 1])] else [])
  }

  /** `_feedback`: reading a missing artifact is an error. */
  function Notes(disk: Disk, s: State, role: Role): Outcome<seq<string>> {
    if role !in s.feedback then Done([])
    else
      var source := FetchEvaluation(disk, s.repairSource);
      if s.repairSource.Some? && source.None? then Raised(InvalidResponse)
      else
        var repairs := if source.Some? then RepairNotes(source.value.repairs, role) else [];
        if role !in s.results then Done(Unique(s.feedback[role] + repairs))
        else
          var earlier := FetchResearch(disk, s, role);
          if earlier.None? then Raised(InvalidResponse)
          else Done(Unique(s.feedback[role] + repairs + AllGaps(earlier.value.assessments)))
  }

  predicate NoBlank(notes: seq<string>) { forall k :: 0 <= k < |notes| ==> !Blank(notes[k]) }

  predicate SameRun(a: Common, b: Common) { a.runId == b.runId && a.context == b.context }

  predicate PreviousFits(request: Common, view: Role, previous: ResearchResult) {
    && ConsistentResearch(previous) && SameRun(request, previous.common)
    && previous.view == view && previous.common.attempt < request.attempt
  }

  predicate ContextFits(request: Common, context: ResearchResult) {
    && ConsistentResearch(context) && SameRun(request, context.common)
    && context.view.Research? && context.status.Ok?
  }

  function BuildResearch(cfg: Config, disk: Disk, s: State, view: Role): Outcome<Option<Request>> {
    var common := CommonFor(cfg, view, Attempts(s, view));
    var notes := Notes(disk, s, view);
    var previous := FetchResearch(disk, s, view);
    var context := if view.Research? then None else FetchResearch(disk, s, Research);
    if notes.Raised? || !NoBlank(notes.value) then Raised(InvalidResponse)
    else if view in s.results && (previous.None? || !PreviousFits(common, view, previous.value)) then Raised(InvalidResponse)
    else if !view.Research? && (context.None? || !ContextFits(common, context.value)) then Raised(InvalidResponse)
    else Done(Some(ResearchRequest(common, view, notes.value, previous, context)))
  }

  predicate WriteInputFits(request: Common, view: Role, result: ResearchResult) {
    ConsistentResearch(result) && SameRun(request, result.common) && result.view == view && result.status.Ok?
  }

  function BuildWrite(cfg: Config, disk: Disk, s: State, order: seq<Role>): Outcome<Option<Request>> {
    var common := CommonFor(cfg, Writer, Attempts(s, Writer));
    var results := ResultsIn(disk, s, order);
    var notes := Notes(disk, s, Writer);
    var previous := FetchReport(disk, s.report);
    if !s.sufficient || results.None? || |results.value| != |order| then Raised(InvalidResponse)
    else if notes.Raised? || !NoBlank(notes.value) then Raised(InvalidResponse)
    else if ToSet(order) != ToSet(VIEWS)
      || exists k :: 0 <= k < |order| && !WriteInputFits(common, order[k], results.value[k]) then Raised(InvalidResponse)
    else if s.report.Some? && (previous.None? || !ConsistentReport(previous.value)
                               || !SameRun(common, previous.value.common)
                               || previous.value.common.attempt >= common.attempt) then Raised(InvalidResponse)
    else Done(Some(WriteRequest(common, results.value, notes.value, previous)))
  }

  function BuildEvaluate(cfg: Config, disk: Disk, s: State): Outcome<Option<Request>> {
    var common := CommonFor(cfg, Evaluator, Attempts(s, Evaluator));
    var report := FetchReport(disk, s.report);
    if report.None? || !ConsistentReport(report.value) || !SameRun(common, report.value.common)
       || report.value.document.None? then Raised(InvalidResponse)
    else Done(Some(EvaluateRequest(common, report.value)))
  }

  function BuildPublish(cfg: Config, disk: Disk, s: State): Outcome<Option<Request>> {
    var common := CommonFor(cfg, Publisher, Attempts(s, Publisher));
    var report, evaluation := FetchReport(disk, s.report), FetchEvaluation(disk, s.evaluation);
    if report.None? || evaluation.None? then Raised(InvalidResponse)
    else if !ConsistentReport(report.value) || !SameRun(common, report.value.common) || report.value.document.None?
      || !ConsistentEvaluation(evaluation.value) || !SameRun(common, evaluation.value.common)
      || evaluation.value.error.Some? then Raised(InvalidResponse)
    else if !evaluation.value.passed || evaluation.value.reportRequestId != report.value.common.requestId
      then Raised(InvalidResponse)
    else Done(Some(PublishRequest(common, report.value, evaluation.value)))
  }

  /** The code decides by itself when the menu is empty or holds the evaluator or the publisher alone. */
  function BuildDecide(cfg: Config, disk: Disk, s: State): Outcome<Option<Request>> {
    var menu := Choices(cfg, disk, s);
    if menu.Raised? then Raised(menu.code)
    else if menu.value.Deny? || OffersOnly(menu.value, Evaluator) || OffersOnly(menu.value, Publisher) then Done(None)
    else if exists v :: v in s.results.Keys && FetchResearch(disk, s, v).None? then Raised(InvalidResponse)
    else Done(Some(DecideRequest(CommonFor(cfg, Supervisor, s.steps + 1), [menu.value.first] + menu.value.others)))
  }

  /** The request the role makes in the checkpointed state, if it makes one. */
  function Build(cfg: Config, disk: Disk, s: State, role: Role, order: seq<Role>): Outcome<Option<Request>> {
    match role
    case Supervisor => BuildDecide(cfg, disk, s)
    case Writer => BuildWrite(cfg, disk, s, order)
    case Evaluator => BuildEvaluate(cfg, disk, s)
    case Publisher => BuildPublish(cfg, disk, s)
    case _ => BuildResearch(cfg, disk, s, role)
  }

  // ---------- What a role makes of the reply ----------

  /** A callback raises, or returns a value and may have written files. */
  datatype Reply = Throws(code: ErrorCode) | Returns(payload: Payload)

  /** A role's effect: the artifact it stores, if any, and the next state. */
  datatype Effect = Effect(stored: Option<Payload>, state: State)

  function CodeDecision(cfg: Config, s: State, role: Role): Decision {
    Decision(CommonFor(cfg, Supervisor, s.steps + 1), Go(role), true, "현재 보고서의 평가·출력 선행 조건을 확인했습니다.", [])
  }

  function Decided(s: State, d: Decision): State {
    var told := if d.feedback != [] && d.action.Go?
                then s.feedback[d.action.role := CutAll(d.feedback, 8, 500)] else s.feedback;
    var again := d.action.Go? && IsView(d.action.role) && Attempts(s, d.action.role) > 0 && d.action.role !in told;
    var feedback := if again then told[d.action.role := [Cut(d.reason, 500)]] else told;
    var next := s.(next := d.action, steps := s.steps + 1, feedback := feedback, sufficient := d.sufficient);
    if d.action.Stop? then Stopped(next, EvidenceGap) else next
  }

  predicate Allowed(menu: Menu, d: Decision) {
    d.action.Go? ==> Offers(menu, d.action.role) && (d.action.role.Writer? ==> d.sufficient)
  }

  function AfterDecide(cfg: Config, disk: Disk, s: State, request: Option<Request>, reply: Reply): Outcome<Effect> {
    var menu := Choices(cfg, disk, s);
    if menu.Raised? then Raised(menu.code)
    else if menu.value.Deny? then Done(Effect(None, Stopped(s, menu.value.code)))
    else
      var made :=
        if request.None? then Done(CodeDecision(cfg, s, menu.value.first))
        else if reply.Throws? then Raised(reply.code)
        else if !reply.payload.DecisionPayload? || !ConsistentDecision(reply.payload.decision)
          || reply.payload.decision.common != request.value.common then Raised(InvalidResponse)
        else Done(reply.payload.decision);
      if made.Raised? then Raised(made.code)
      else if !Allowed(menu.value, made.value) then Raised(InvalidResponse)
      else Done(Effect(Some(DecisionPayload(made.value)), Decided(s, made.value)))
  }

  const MORE_EVIDENCE := "필수 근거를 보완하고 기존 gaps 각각에 답하세요."

  function Without<K, V>(m: map<K, V>, k: K): map<K, V> { m - {k} }

  function Kept(s: State, view: Role): map<Role, Ref> {
    if view.Research? then map[] else Without(s.results, view)
  }

  function Researched(s: State, view: Role, r: ResearchResult): State {
    var ref := Ref(Key(view, Attempts(s, view)), ResearchPayload(r));
    var cleared := Without(s.feedback, view);
    var next := s.(
      results := Kept(s, view)[view := ref],
      summaries := (if view.Research? then map[] else s.summaries)[view := Summary(r.status, r.common.requestId)],
      feedback := if r.status.Partial? then cleared[view := [MORE_EVIDENCE]] else cleared,
      report := None, evaluation := None, publication := None, sufficient := false, next := Go(Supervisor));
    if r.status.Failed? && r.error.Some? then Stopped(next, Fault(r.error.value)) else next
  }

  function KeptViews(s: State, view: Role): seq<Role> { Filter(VIEWS, v => v in Kept(s, view)) }

  /** The results that stay beside a new one, read in the order of the views. */
  function Beside(disk: Disk, s: State, view: Role): Option<seq<ResearchResult>> {
    ResultsIn(disk, s, KeptViews(s, view))
  }

  function AfterResearch(disk: Disk, s: State, view: Role, request: Request, reply: Reply): Outcome<Effect> {
    if reply.Throws? then Raised(reply.code)
    else if !reply.payload.ResearchPayload? || !ConsistentResearch(reply.payload.research)
      || reply.payload.research.common != request.common || reply.payload.research.view != view then Raised(InvalidResponse)
    else
      var beside := Beside(disk, s, view);
      if beside.None? then Raised(InvalidResponse)
      else
        var merged := Merge(beside.value + [reply.payload.research]);
        if merged.Raised? then Raised(ArtifactMismatch)
        else Done(Effect(Some(reply.payload), Researched(s, view, reply.payload.research)))
  }

  function Written(s: State, r: ReportResult): State {
    var ref := Ref(Key(Writer, Attempts(s, Writer)), ReportPayload(r));
    var next := s.(report := Some(ref), evaluation := None, publication := None, repairSource := None,
                   feedback := map[], next := Go(Supervisor));
    if r.document.None? && r.error.Some? then Stopped(next, Fault(r.error.value)) else next
  }

  function AfterWrite(cfg: Config, s: State, request: Request, reply: Reply): Outcome<Effect>
    requires request.WriteRequest?
  {
    if reply.Throws? then Raised(reply.code)
    else if !reply.payload.ReportPayload? || !ConsistentReport(reply.payload.report)
      || reply.payload.report.common != request.common then Raised(InvalidResponse)
    else if reply.payload.report.document.Some? && !InputsMatch(reply.payload.report, request.results, cfg.names)
      then Raised(if Merge(request.results).Raised? then ArtifactMismatch else InvalidResponse)
    else Done(Effect(Some(reply.payload), Written(s, reply.payload.report)))
  }

  function Reasons(repairs: seq<RepairRequest>, role: Role): seq<string> {
    if repairs == [] then []
    else Reasons(repairs[..|repairs| - 1], role)
         + (if repairs[|repairs| - 1].target == role then [Cut(repairs[|repairs| - 1].reason, 300)] else [])
  }

  function RepairFeedback(repairs: seq<RepairRequest>): map<Role, seq<string>> {
    map role | role in ToSet(VIEWS + [Writer]) && Reasons(repairs, role) != [] :: CutAll(Reasons(repairs, role), 8, 300)
  }

  function Evaluated(s: State, e: EvaluationResult): State {
    var ref := Ref(Key(Evaluator, Attempts(s, Evaluator)), EvaluationPayload(e));
    var next := s.(evaluation := Some(ref), repairSource := if e.repairs != [] then Some(ref) else None,
                   feedback := RepairFeedback(e.repairs), next := Go(Supervisor));
    if e.error.Some? then Stopped(next, Fault(e.error.value)) else next
  }

  function AfterEvaluate(s: State, request: Request, reply: Reply): Outcome<Effect>
    requires request.EvaluateRequest? && request.report.document.Some?
  {
    if reply.Throws? then Raised(reply.code)
    else if !reply.payload.EvaluationPayload? then Raised(InvalidResponse)
    else
      var e := reply.payload.evaluation;
      if !ConsistentEvaluation(e) || e.common != request.common
        || e.reportRequestId != request.report.common.requestId
        || !VerdictKnown(e, request.report.document.value)
        || (e.passed && !StructureSound(request.report)) then Raised(InvalidResponse)
      else Done(Effect(Some(reply.payload), Evaluated(s, e)))
  }

  predicate Verifies(disk: Disk, f: FileRef) { f.path in disk.files && disk.files[f.path] == f.digest }

  function Published(s: State, p: PublishResult): State {
    var ref := Ref(Key(Publisher, Attempts(s, Publisher)), PublishPayload(p));
    var next := s.(publication := Some(ref));
    if p.error.Some? then Stopped(next, Fault(p.error.value)) else next.(status := Completed, next := Stop)
  }

  function AfterPublish(disk: Disk, s: State, request: Request, reply: Reply): Outcome<Effect>
    requires request.PublishRequest? && request.report.document.Some?
  {
    if reply.Throws? then Raised(reply.code)
    else if !reply.payload.PublishPayload? then Raised(InvalidResponse)
    else
      var p := reply.payload.publication;
      if !ConsistentPublication(p) || p.common != request.common then Raised(InvalidResponse)
      else if p.files.Some? && (!Verifies(disk, p.files.value.markdown) || !Verifies(disk, p.files.value.pdf)
        || disk.files[p.files.value.markdown.path] != request.report.document.value.markdown) then Raised(InvalidResponse)
      else Done(Effect(Some(reply.payload), Published(s, p)))
  }

  predicate RequestOf(role: Role, request: Option<Request>) {
    match role
    case Supervisor => request.Some? ==> request.value.DecideRequest?
    case Writer => request.Some? && request.value.WriteRequest?
    case Evaluator => request.Some? && request.value.EvaluateRequest? && request.value.report.document.Some?
    case Publisher => request.Some? && request.value.PublishRequest? && request.value.report.document.Some?
    case _ => request.Some? && request.value.ResearchRequest?
  }

  function After(cfg: Config, disk: Disk, s: State, role: Role, request: Option<Request>, reply: Reply): Outcome<Effect>
    requires RequestOf(role, request)
  {
    match role
    case Supervisor => AfterDecide(cfg, disk, s, request, reply)
    case Writer => AfterWrite(cfg, s, request.value, reply)
    case Evaluator => AfterEvaluate(s, request.value, reply)
    case Publisher => AfterPublish(disk, s, request.value, reply)
    case _ => AfterResearch(disk, s, role, request.value, reply)
  }

  // ---------- One node execution ----------

  function NextAttempt(s: State, role: Role): nat {
    if role.Supervisor? then s.steps + 1 else Attempts(s, role) + 1
  }

  /** The state saved before the call: the attempt is counted and the request is marked pending. */
  function Entered(cfg: Config, s: State, role: Role): State {
    var attempt := NextAttempt(s, role);
    var counted := if role.Supervisor? then s else s.(attempts := s.attempts[role := attempt]);
    counted.(pending := Some(Pending(role, RequestId(cfg.identity, role, attempt), attempt)))
  }

  /** The key of the call a state is marked with. */
  function PendingKey(s: State): Key {
    if s.pending.Some? then Key(s.pending.value.role, s.pending.value.attempt) else Key(Supervisor, 0)
  }

  /** An exclusive write: an artifact that exists is never replaced. */
  function Put(disk: Disk, key: Key, payload: Payload): Outcome<Disk> {
    if key in disk.artifacts then Raised(InvalidResponse)
    else Done(disk.(artifacts := disk.artifacts[key := payload]))
  }

  /** The role's own work and its write-once artifact; an exception leaves the disk as it was. */
  function Perform(cfg: Config, disk: Disk, s: State, request: Option<Request>, reply: Reply): Outcome<(Disk, State)>
    requires s.pending.Some? && RequestOf(s.pending.value.role, request)
  {
    var effect := After(cfg, disk, s, s.pending.value.role, request, reply);
    if effect.Raised? then Raised(effect.code)
    else if effect.value.stored.None? then Done((disk, effect.value.state))
    else
      var stored := Put(disk, PendingKey(s), effect.value.stored.value);
      if stored.Raised? then Raised(stored.code) else Done((stored.value, effect.value.state))
  }

  /** The state checkpointed after the call: an error stops the run; the pending mark is kept
      when the provider could not confirm completion. */
  function Settled(s: State, done: Outcome<(Disk, State)>): State {
    var next := if done.Raised? then Stopped(s, Fault(done.code)) else done.value.1;
    if next.status.NeedsAttention? then next else next.(pending := None)
  }

  function Save(disk: Disk, s: State): Disk { disk.(snapshot := Some(s)) }

  // ---------- The machine ----------

  /** The process: not running, between two nodes, before the dispatch of a call, or waiting for its reply. */
  datatype Proc =
    | Dead
    | Between(state: State, at: Action)
    | Calling(state: State)
    | Awaiting(state: State, request: Request)

  /** The directory, the process, and what has left the process so far: dispatched requests in order
      and the number of node executions of the current process. */
  datatype Machine = Machine(
    disk: Disk, proc: Proc, trace: seq<Key>, asked: map<Key, Request>, nodes: nat)

  datatype Event =
    | Start                                        // a new run
    | Resume(identity: string)                     // a new process on an existing directory
    | Pause                                        // the process ends between two nodes
    | Crash(files: map<string, string>)            // the process is lost; a publisher may have written files
    | Begin                                        // the graph enters the next node
    | Dispatch(order: seq<Role>)                   // the request is handed to the callback
    | Complete(reply: Reply, files: map<string, string>)  // the node finishes and is checkpointed
    | Lose(reply: Reply, files: map<string, string>)      // the artifact is stored, the completing checkpoint is not

  /** `load`: every reference of the snapshot still resolves. */
  predicate Loads(disk: Disk, s: State) {
    && (forall v :: v in s.results ==> Fetch(disk, s.results[v]).Some?)
    && (s.report.Some? ==> Fetch(disk, s.report.value).Some?)
    && (s.evaluation.Some? ==> Fetch(disk, s.evaluation.value).Some?)
    && (s.repairSource.Some? ==> Fetch(disk, s.repairSource.value).Some?)
    && (s.publication.Some? ==>
          var p := Fetch(disk, s.publication.value);
          p.Some? && p.value.PublishPayload?
          && (p.value.publication.files.Some? ==>
                Verifies(disk, p.value.publication.files.value.markdown)
                && Verifies(disk, p.value.publication.files.value.pdf)))
  }

  function Resumed(m: Machine, identity: string): Machine {
    if m.disk.snapshot.None? then m
    else
      var s := m.disk.snapshot.value;
      if s.identity != identity || !Loads(m.disk, s) then m
      else if s.pending.Some? then m.(disk := Save(m.disk, Stopped(s, Fault(UncertainRequest))))
      else if !s.status.Running? then m
      else m.(proc := Between(s, s.next), nodes := 0)
  }

  function Begun(cfg: Config, m: Machine): Machine
    requires m.proc.Between?
  {
    var s := m.proc.state;
    if m.proc.at.Stop? then m.(proc := Dead)
    else if m.proc.at.role.Supervisor? && !s.status.Running? then
      m.(disk := Save(m.disk, s.(next := Stop)), proc := Dead, nodes := m.nodes + 1)
    else
      var entered := Entered(cfg, s, m.proc.at.role);
      m.(disk := Save(m.disk, entered), proc := Calling(entered), nodes := m.nodes + 1)
  }

  function Dispatched(cfg: Config, m: Machine, order: seq<Role>): Machine
    requires m.proc.Calling? && m.proc.state.pending.Some?
  {
    var s := m.proc.state;
    var built := Build(cfg, m.disk, s, s.pending.value.role, order);
    if built.Raised? || built.value.None? || !Enumerates(order, s.results.Keys) then m
    else
      var key := PendingKey(s);
      m.(proc := Awaiting(s, built.value.value), trace := m.trace + [key], asked := m.asked[key := built.value.value])
  }

  /** After a node the graph follows the Supervisor's choice, or returns to the Supervisor. */
  function Onward(s: State, role: Role): Action { if role.Supervisor? then s.next else Go(Supervisor) }

  function Finished(m: Machine, s: State, done: Outcome<(Disk, State)>): Machine
    requires s.pending.Some?
  {
    var next := Settled(s, done);
    var disk := if done.Done? then done.value.0 else m.disk;
    m.(disk := Save(disk, next), proc := Between(next, Onward(next, s.pending.value.role)))
  }

  /** The views with a result, in their fixed order. */
  function Listed(s: State): seq<Role> { Filter(VIEWS, v => v in s.results) }

  /** The outcome of a node that has no request to dispatch: it raises, or the code decides. */
  function Alone(cfg: Config, m: Machine): Option<Outcome<(Disk, State)>>
    requires m.proc.Calling? && m.proc.state.pending.Some?
  {
    var s := m.proc.state;
    var role := s.pending.value.role;
    var built := Build(cfg, m.disk, s, role, Listed(s));
    if built.Raised? then Some(Raised(built.code))
    else if built.value.None? && role.Supervisor? then Some(Perform(cfg, m.disk, s, None, Throws(InvalidResponse)))
    else None
  }

  function WithFiles(disk: Disk, files: map<string, string>): Disk { disk.(files := disk.files + files) }

  function Answered(cfg: Config, m: Machine, reply: Reply, files: map<string, string>): Outcome<(Disk, State)>
    requires m.proc.Awaiting? && m.proc.state.pending.Some?
    requires RequestOf(m.proc.state.pending.value.role, Some(m.proc.request))
  {
    Perform(cfg, WithFiles(m.disk, files), m.proc.state, Some(m.proc.request), reply)
  }

  predicate CanAnswer(m: Machine) {
    m.proc.Awaiting? && m.proc.state.pending.Some?
    && RequestOf(m.proc.state.pending.value.role, Some(m.proc.request))
  }

  /** One step; an event that is not possible in the current situation changes nothing. */
  function Step(cfg: Config, m: Machine, e: Event): Machine {
    match e
    case Start =>
      if m.proc.Dead? && m.disk.snapshot.None?
      then m.(disk := Save(m.disk, Initial(cfg)), proc := Between(Initial(cfg), Go(Supervisor)), nodes := 0)
      else m
    case Resume(identity) => if m.proc.Dead? then Resumed(m, identity) else m
    case Pause => if m.proc.Between? then m.(proc := Dead) else m
    case Crash(files) =>
      if m.proc.Awaiting? then m.(disk := WithFiles(m.disk, files), proc := Dead) else m.(proc := Dead)
    case Begin => if m.proc.Between? then Begun(cfg, m) else m
    case Dispatch(order) => if m.proc.Calling? && m.proc.state.pending.Some? then Dispatched(cfg, m, order) else m
    case Complete(reply, files) =>
      if m.proc.Calling? && m.proc.state.pending.Some? then
        var alone := Alone(cfg, m);
        if alone.Some? then Finished(m, m.proc.state, alone.value) else m
      else if CanAnswer(m) then
        Finished(m.(disk := WithFiles(m.disk, files)), m.proc.state, Answered(cfg, m, reply, files))
      else m
    case Lose(reply, files) =>
      if m.proc.Calling? && m.proc.state.pending.Some? then
        var alone := Alone(cfg, m);
        if alone.Some? && alone.value.Done? then m.(disk := alone.value.value.0, proc := Dead) else m.(proc := Dead)
      else if CanAnswer(m) then
        var done := Answered(cfg, m, reply, files);
        m.(disk := if done.Done? then done.value.0 else WithFiles(m.disk, files), proc := Dead)
      else m
  }

  function Steps(cfg: Config, m: Machine, es: seq<Event>): Machine {
    if es == [] then m else Step(cfg, Steps(cfg, m, es[..|es| - 1]), es[|es| - 1])
  }

  const EMPTY := Machine(Disk(None, map[], map[]), Dead, [], map[], 0)
}
