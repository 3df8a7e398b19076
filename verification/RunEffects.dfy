/** What a call leaves behind for the ones after it: which notes are left and which are dropped, what a request
    tells, when a view is due again, and why a run ends (`supervise`, `worker`, `writer`, `evaluate`, `publish` and
    `node` in agents/supervisor.py). */
module RunEffects {
  import opened Schema
  import opened Texts
  import opened Contracts
  import opened RunMachine
  import opened RunInvariant
  import opened RunCalls
  import opened RunSafety
  import opened RunChoices

  // ---------- What each role leaves ----------

  /** The same notes for every role but one. */
  ghost predicate OthersKeepNotes(s: State, t: State, role: Role) {
    forall r :: r != role ==> (r in t.feedback <==> r in s.feedback) && (r in t.feedback ==> t.feedback[r] == s.feedback[r])
  }

  /** The run goes on to the Supervisor, or ends with the error of the result. */
  ghost predicate GoesOnUnless(s: State, t: State, error: Option<ErrorCode>) {
    if error.Some? then
      && t.next.Stop? && t.lastError == Some(Fault(error.value))
      && t.status == (if error.value.UncertainRequest? then NeedsAttention else Incomplete)
    else t.next == Go(Supervisor) && t.lastError == s.lastError && t.status == s.status
  }

  ghost predicate SameCounters(s: State, t: State) {
    t.identity == s.identity && t.attempts == s.attempts && t.steps == s.steps && t.pending == s.pending
  }

  /** The view's result is the new one; all others are gone when it is the research they rest on, and else kept. */
  ghost predicate ResultsLeft(s: State, t: State, view: Role, r: ResearchResult) {
    && view in t.results && t.results[view] == Ref(Key(view, Attempts(s, view)), ResearchPayload(r))
    && (forall v :: v != view ==> (v in t.results <==> v in s.results && !view.Research?))
    && (forall v :: v != view && v in t.results ==> t.results[v] == s.results[v])
  }

  ghost predicate SummariesLeft(s: State, t: State, view: Role, r: ResearchResult) {
    && view in t.summaries && t.summaries[view].status == r.status && t.summaries[view].requestId == r.common.requestId
    && (forall v :: v != view ==> (v in t.summaries <==> v in s.summaries && !view.Research?))
    && (forall v :: v != view && v in t.summaries ==> t.summaries[v] == s.summaries[v])
  }

  /** Notes for the view are dropped, and one is left exactly when the evidence was insufficient. */
  ghost predicate NotesLeft(s: State, t: State, view: Role, r: ResearchResult) {
    && (view in t.feedback <==> r.status.Partial?) && (r.status.Partial? ==> t.feedback[view] == [MORE_EVIDENCE])
    && OthersKeepNotes(s, t, view)
  }

  lemma {:induction false} ResultReplaced(s: State, view: Role, r: ResearchResult)
    ensures ResultsLeft(s, Researched(s, view, r), view, r)
  {
    hide Attempts, MORE_EVIDENCE;
    var t := Researched(s, view, r);
    assert t.results == Kept(s, view)[view := Ref(Key(view, Attempts(s, view)), ResearchPayload(r))];
  }

  lemma {:induction false} SummaryReplaced(s: State, view: Role, r: ResearchResult)
    ensures SummariesLeft(s, Researched(s, view, r), view, r)
  {
    hide Attempts, Kept, Without, MORE_EVIDENCE;
    var t := Researched(s, view, r);
    assert t.summaries == (if view.Research? then map[] else s.summaries)[view := Summary(r.status, r.common.requestId)];
  }

  lemma {:induction false} ResearchedNotes(s: State, view: Role, r: ResearchResult)
    ensures NotesLeft(s, Researched(s, view, r), view, r)
  {
    hide Attempts, Kept, MORE_EVIDENCE;
  }

  lemma {:induction false} ResearchedRest(s: State, view: Role, r: ResearchResult)
    ensures var t := Researched(s, view, r);
            && t.report.None? && t.evaluation.None? && t.publication.None? && !t.sufficient
            && t.repairSource == s.repairSource && SameCounters(s, t)
            && GoesOnUnless(s, t, if r.status.Failed? then r.error else None)
  {
    hide Attempts, Kept, Without, MORE_EVIDENCE;
  }

  lemma {:induction false} WorkerAccepted(disk: Disk, s: State, view: Role, request: Request, reply: Reply)
    requires AfterResearch(disk, s, view, request, reply).Done?
    ensures reply.Returns? && reply.payload.ResearchPayload?
    ensures var r := reply.payload.research;
            && AfterResearch(disk, s, view, request, reply) == Done(Effect(Some(reply.payload), Researched(s, view, r)))
            && r.view == view && r.common == request.common && ConsistentResearch(r)
  {
    hide ConsistentResearch, Merge, Beside, Researched;
  }

  /** A result that is accepted replaces the view's own, and all the others when it is the research they rest on. Notes
      for the view are dropped, and one is left exactly when the evidence was insufficient; every other role keeps
      its notes. The report and all that rests on it are gone. */
  lemma {:induction false} WorkerLeaves(disk: Disk, s: State, view: Role, request: Request, reply: Reply)
    requires IsView(view) && AfterResearch(disk, s, view, request, reply).Done?
    ensures reply.Returns? && reply.payload.ResearchPayload?
    ensures var effect, r := AfterResearch(disk, s, view, request, reply).value, reply.payload.research;
            var t := effect.state;
            && effect.stored == Some(reply.payload) && r.view == view && r.common == request.common && ConsistentResearch(r)
            && NotesLeft(s, t, view, r) && ResultsLeft(s, t, view, r) && SummariesLeft(s, t, view, r)
            && t.report.None? && t.evaluation.None? && t.publication.None? && !t.sufficient
            && t.repairSource == s.repairSource && SameCounters(s, t)
            && GoesOnUnless(s, t, if r.status.Failed? then r.error else None)
  {
    hide ConsistentResearch, AfterResearch, Researched, NotesLeft, ResultsLeft, SummariesLeft, GoesOnUnless,
         SameCounters;
    WorkerAccepted(disk, s, view, request, reply);
    ResultReplaced(s, view, reply.payload.research);
    SummaryReplaced(s, view, reply.payload.research);
    ResearchedNotes(s, view, reply.payload.research);
    ResearchedRest(s, view, reply.payload.research);
  }

  lemma {:induction false} WriterAccepted(cfg: Config, s: State, request: Request, reply: Reply)
    requires request.WriteRequest? && AfterWrite(cfg, s, request, reply).Done?
    ensures reply.Returns? && reply.payload.ReportPayload?
    ensures var r := reply.payload.report;
            && AfterWrite(cfg, s, request, reply) == Done(Effect(Some(reply.payload), Written(s, r)))
            && r.common == request.common && ConsistentReport(r)
            && (r.document.Some? ==> InputsMatch(r, request.results, cfg.names))
  {
    hide ConsistentReport, InputsMatch, Merge, Written;
  }

  lemma {:induction false} StoppedKeeps(s: State, code: StopCode)
    ensures var t := Stopped(s, code);
            && t.report == s.report && t.evaluation == s.evaluation && t.publication == s.publication
            && t.repairSource == s.repairSource && t.feedback == s.feedback && t.results == s.results
            && t.summaries == s.summaries
  {
  }

  lemma {:induction false} WrittenRest(s: State, r: ReportResult)
    ensures var t := Written(s, r);
            && t.report == Some(Ref(Key(Writer, Attempts(s, Writer)), ReportPayload(r)))
            && t.evaluation.None? && t.publication.None? && t.repairSource.None? && t.feedback == map[]
            && t.results == s.results && t.summaries == s.summaries
  {
    var ref := Ref(Key(Writer, Attempts(s, Writer)), ReportPayload(r));
    hide Attempts, Stopped;
    var next := s.(report := Some(ref), evaluation := None, publication := None, repairSource := None,
                   feedback := map[], next := Go(Supervisor));
    if r.document.None? && r.error.Some? { StoppedKeeps(next, Fault(r.error.value)); }
  }

  lemma {:induction false} WrittenNext(s: State, r: ReportResult)
    ensures var t := Written(s, r);
            && t.sufficient == s.sufficient && SameCounters(s, t)
            && GoesOnUnless(s, t, if r.document.None? then r.error else None)
  {
    hide Attempts;
  }

  /** A report that is accepted stands alone: nothing judges it yet, and no note is left for anybody. */
  lemma {:induction false} WriterLeaves(cfg: Config, s: State, request: Request, reply: Reply)
    requires request.WriteRequest? && AfterWrite(cfg, s, request, reply).Done?
    ensures reply.Returns? && reply.payload.ReportPayload?
    ensures var effect, r := AfterWrite(cfg, s, request, reply).value, reply.payload.report;
            var t := effect.state;
            && effect.stored == Some(reply.payload) && r.common == request.common && ConsistentReport(r)
            && (r.document.Some? ==> InputsMatch(r, request.results, cfg.names))
            && t.report == Some(Ref(Key(Writer, Attempts(s, Writer)), reply.payload))
            && t.evaluation.None? && t.publication.None? && t.repairSource.None? && t.feedback == map[]
            && t.results == s.results && t.summaries == s.summaries && t.sufficient == s.sufficient && SameCounters(s, t)
            && GoesOnUnless(s, t, if r.document.None? then r.error else None)
  {
    hide ConsistentReport, InputsMatch, AfterWrite, Written, GoesOnUnless, SameCounters, Attempts;
    WriterAccepted(cfg, s, request, reply);
    WrittenRest(s, reply.payload.report);
    WrittenNext(s, reply.payload.report);
  }

  lemma {:induction false} EvaluatorAccepted(s: State, request: Request, reply: Reply)
    requires request.EvaluateRequest? && request.report.document.Some? && AfterEvaluate(s, request, reply).Done?
    ensures reply.Returns? && reply.payload.EvaluationPayload?
    ensures var e := reply.payload.evaluation;
            && AfterEvaluate(s, request, reply) == Done(Effect(Some(reply.payload), Evaluated(s, e)))
            && e.common == request.common && ConsistentEvaluation(e)
            && e.reportRequestId == request.report.common.requestId && VerdictKnown(e, request.report.document.value)
            && (e.passed ==> StructureSound(request.report))
  {
    hide ConsistentEvaluation, VerdictKnown, StructureSound, Evaluated;
  }

  lemma {:induction false} EvaluatedRefs(s: State, e: EvaluationResult)
    ensures var t := Evaluated(s, e);
            && t.evaluation == Some(Ref(Key(Evaluator, Attempts(s, Evaluator)), EvaluationPayload(e)))
            && t.repairSource == (if e.repairs == [] then None else t.evaluation)
            && GoesOnUnless(s, t, e.error)
  {
    hide RepairFeedback, Attempts;
  }

  lemma {:induction false} EvaluatedRest(s: State, e: EvaluationResult)
    ensures var t := Evaluated(s, e);
            && t.report == s.report && t.publication == s.publication && t.results == s.results
            && t.summaries == s.summaries && t.sufficient == s.sufficient && SameCounters(s, t)
  {
    hide RepairFeedback, Attempts;
  }

  /** Exactly the roles that the repairs name are left notes: the first eight reasons meant for each, cut to three
      hundred characters. */
  ghost predicate ReasonsLeft(t: State, repairs: seq<RepairRequest>) {
    && (forall role :: role in t.feedback <==>
          (IsView(role) || role.Writer?) && exists k :: 0 <= k < |repairs| && repairs[k].target == role)
    && (forall role :: role in t.feedback ==>
          |t.feedback[role]| == Least(8, |MeantFor(repairs, role)|)
          && forall k :: 0 <= k < |t.feedback[role]| ==>
               t.feedback[role][k] == Cut(MeantFor(repairs, role)[k].reason, 300))
  }

  lemma {:induction false} EvaluatedNotes(s: State, e: EvaluationResult)
    ensures ReasonsLeft(Evaluated(s, e), e.repairs)
  {
    hide RepairFeedback, MeantFor, Cut, Attempts;
    var t := Evaluated(s, e);
    assert t.feedback == RepairFeedback(e.repairs);
    forall role ensures role in t.feedback <==>
      (IsView(role) || role.Writer?) && exists k :: 0 <= k < |e.repairs| && e.repairs[k].target == role
    {
      AskedByVerdict(s, e, role);
    }
    forall role | role in t.feedback
      ensures |t.feedback[role]| == Least(8, |MeantFor(e.repairs, role)|)
      ensures forall k :: 0 <= k < |t.feedback[role]| ==> t.feedback[role][k] == Cut(MeantFor(e.repairs, role)[k].reason, 300)
    {
      ReasonsMeant(e.repairs, role);
    }
  }

  /** A verdict is kept, and with it the notes for the roles that have to act. */
  lemma {:induction false} EvaluatorLeaves(s: State, request: Request, reply: Reply)
    requires request.EvaluateRequest? && request.report.document.Some? && AfterEvaluate(s, request, reply).Done?
    ensures reply.Returns? && reply.payload.EvaluationPayload?
    ensures var effect, e := AfterEvaluate(s, request, reply).value, reply.payload.evaluation;
            var t := effect.state;
            && effect.stored == Some(reply.payload) && e.common == request.common && ConsistentEvaluation(e)
            && e.reportRequestId == request.report.common.requestId && VerdictKnown(e, request.report.document.value)
            && (e.passed ==> StructureSound(request.report))
            && t.evaluation == Some(Ref(Key(Evaluator, Attempts(s, Evaluator)), reply.payload))
            && t.repairSource == (if e.repairs == [] then None else t.evaluation)
            && ReasonsLeft(t, e.repairs)
            && t.report == s.report && t.publication == s.publication && t.results == s.results
            && t.summaries == s.summaries && t.sufficient == s.sufficient && SameCounters(s, t)
            && GoesOnUnless(s, t, e.error)
  {
    hide ConsistentEvaluation, VerdictKnown, StructureSound, AfterEvaluate, Evaluated, ReasonsLeft, GoesOnUnless,
         SameCounters, Attempts;
    EvaluatorAccepted(s, request, reply);
    EvaluatedRefs(s, reply.payload.evaluation);
    EvaluatedRest(s, reply.payload.evaluation);
    EvaluatedNotes(s, reply.payload.evaluation);
  }

  function Least(a: nat, b: nat): nat { if a <= b then a else b }

  /** The repairs meant for a role, in order. */
  function MeantFor(repairs: seq<RepairRequest>, role: Role): seq<RepairRequest> {
    Pick(repairs, (r: RepairRequest) => r.target == role)
  }

  lemma {:induction false} ReasonsAlign(repairs: seq<RepairRequest>, role: Role)
    ensures |Reasons(repairs, role)| == |MeantFor(repairs, role)|
    ensures forall k :: 0 <= k < |Reasons(repairs, role)| ==> Reasons(repairs, role)[k] == Cut(MeantFor(repairs, role)[k].reason, 300)
  {
    hide Cut;
    if repairs != [] {
      ReasonsAlign(repairs[..|repairs| - 1], role);
    }
  }

  /** The reasons that are kept are short already. */
  lemma {:induction false} ReasonsMeant(repairs: seq<RepairRequest>, role: Role)
    requires role in RepairFeedback(repairs)
    ensures |RepairFeedback(repairs)[role]| == Least(8, |MeantFor(repairs, role)|)
    ensures forall k :: 0 <= k < |RepairFeedback(repairs)[role]| ==>
              RepairFeedback(repairs)[role][k] == Cut(MeantFor(repairs, role)[k].reason, 300)
  {
    hide MeantFor, Reasons, VIEWS, Cut;
    ReasonsAlign(repairs, role);
    var rs := Reasons(repairs, role);
    ReasonsCut(repairs, role);
    assert RepairFeedback(repairs)[role] == CutAll(rs, 8, 300);
    forall k | 0 <= k < |CutAll(rs, 8, 300)| ensures CutAll(rs, 8, 300)[k] == rs[k] { CutShort(rs[k], 300); }
  }

  lemma {:induction false} ReasonsCut(repairs: seq<RepairRequest>, role: Role)
    ensures forall k :: 0 <= k < |Reasons(repairs, role)| ==> |Reasons(repairs, role)[k]| <= 300
  {
    if repairs != [] { ReasonsCut(repairs[..|repairs| - 1], role); }
  }

  lemma {:induction false} CutShort(s: string, n: nat)
    requires |s| <= n
    ensures Cut(s, n) == s
  {
  }

  /** Publishing completes the run exactly when the files are there: both read back, the Markdown as it was judged. */
  lemma {:induction false} PublisherLeaves(disk: Disk, s: State, request: Request, reply: Reply)
    requires request.PublishRequest? && request.report.document.Some? && AfterPublish(disk, s, request, reply).Done?
    ensures reply.Returns? && reply.payload.PublishPayload?
    ensures var effect, p := AfterPublish(disk, s, request, reply).value, reply.payload.publication;
            var t := effect.state;
            && effect.stored == Some(reply.payload) && p.common == request.common && ConsistentPublication(p)
            && (p.files.Some? ==>
                  && Verifies(disk, p.files.value.markdown) && Verifies(disk, p.files.value.pdf)
                  && disk.files[p.files.value.markdown.path] == request.report.document.value.markdown)
            && t.publication == Some(Ref(Key(Publisher, Attempts(s, Publisher)), reply.payload))
            && t.report == s.report && t.evaluation == s.evaluation && t.repairSource == s.repairSource
            && t.results == s.results && t.summaries == s.summaries && t.feedback == s.feedback
            && t.sufficient == s.sufficient && SameCounters(s, t)
            && (if p.error.Some? then GoesOnUnless(s, t, p.error) else t.status.Completed? && t.next.Stop? && t.lastError == s.lastError)
  {
    hide ConsistentPublication;
  }

  /** The decision that the code makes by itself: to go on, with sufficient evidence and nothing to tell. */
  ghost predicate OwnDecision(cfg: Config, s: State, role: Role, d: Decision) {
    d.common == CommonFor(cfg, Supervisor, s.steps + 1) && d.action == Go(role) && d.sufficient && d.feedback == []
    && !AllSpace(d.reason)
  }

  lemma {:induction false} CodeDecisionIs(cfg: Config, s: State, role: Role)
    ensures OwnDecision(cfg, s, role, CodeDecision(cfg, s, role))
  {
    var reason := CodeDecision(cfg, s, role).reason;
    assert reason[0] == '현' && !IsSpace(reason[0]);
  }

  /** The Supervisor's model is asked exactly when a view or the writer is on offer; where nothing is, or the
      evaluator or the publisher alone, the code decides. */
  lemma {:induction false} CodeDecides(cfg: Config, disk: Disk, s: State)
    requires Choices(cfg, disk, s).Done?
    ensures BuildDecide(cfg, disk, s) == Done(None) <==>
            forall r :: Offers(Choices(cfg, disk, s).value, r) ==> r.Evaluator? || r.Publisher?
  {
    var menu := Choices(cfg, disk, s).value;
    OffersWhole(cfg, disk, s);
    hide Choices;
    if menu.Offer? { assert Offers(menu, menu.first); }
  }

  lemma {:induction false} OffersWhole(cfg: Config, disk: Disk, s: State)
    requires Choices(cfg, disk, s).Done?
    ensures var menu := Choices(cfg, disk, s).value;
            menu.Offer? && (menu.first.Evaluator? || menu.first.Publisher?) ==> menu.others == []
  {
    var menu := Choices(cfg, disk, s).value;
    ChoicesAre(cfg, disk, s);
    hide Choices, AfterVerdict, MayFollow;
    if menu.Offer? && menu == AfterVerdict(cfg, s) {
      assert Offers(menu, menu.first);
      AfterVerdictExactly(cfg, s, menu.first);
      FollowersWork(cfg, s, menu.first);
    }
  }

  lemma {:induction false} ChoicesAre(cfg: Config, disk: Disk, s: State)
    requires Choices(cfg, disk, s).Done?
    ensures var menu := Choices(cfg, disk, s).value;
            menu.Deny? || menu == Offer(Publisher, []) || menu == Offer(Evaluator, []) || menu == AfterVerdict(cfg, s)
  {
    hide AfterVerdict, Fetch;
  }

  lemma {:induction false} FollowersWork(cfg: Config, s: State, r: Role)
    ensures MayFollow(cfg, s, r) ==> IsView(r) || r.Writer?
  {
    hide Ready, Attempts;
  }

  lemma {:induction false} SupervisorAccepted(cfg: Config, disk: Disk, s: State, request: Option<Request>, reply: Reply,
          menu: Menu)
    returns (d: Decision)
    requires request.Some? ==> request.value.DecideRequest?
    requires Choices(cfg, disk, s) == Done(menu) && menu.Offer? && AfterDecide(cfg, disk, s, request, reply).Done?
    ensures AfterDecide(cfg, disk, s, request, reply) == Done(Effect(Some(DecisionPayload(d)), Decided(s, d)))
    ensures if request.None? then OwnDecision(cfg, s, menu.first, d)
            else reply == Returns(DecisionPayload(d)) && d.common == request.value.common && ConsistentDecision(d)
    ensures d.action.Go? ==> Offers(menu, d.action.role) && (d.action.role.Writer? ==> d.sufficient)
  {
    hide Choices, ConsistentDecision, CodeDecision, Decided, Offers;
    CodeDecisionIs(cfg, s, menu.first);
    hide OwnDecision;
    d := if request.None? then CodeDecision(cfg, s, menu.first) else reply.payload.decision;
  }

  /** A stop keeps the notes; any other decision tells the role it names and leaves the others theirs. */
  ghost predicate NotesTold(s: State, t: State, d: Decision) {
    if d.action.Stop? then t.feedback == s.feedback
    else OthersKeepNotes(s, t, d.action.role) && Told(s, t, d, d.action.role)
  }

  lemma {:induction false} DecidedNotes(s: State, d: Decision)
    ensures NotesTold(s, Decided(s, d), d)
  {
    hide CutAll, Cut, Attempts;
  }

  lemma {:induction false} DecidedRest(s: State, d: Decision)
    ensures var t := Decided(s, d);
            && t.steps == s.steps + 1 && t.sufficient == d.sufficient && t.next == d.action
            && (if d.action.Stop? then t.status.Incomplete? && t.lastError == Some(EvidenceGap)
                else t.status == s.status && t.lastError == s.lastError)
            && t.identity == s.identity && t.attempts == s.attempts && t.pending == s.pending
            && t.results == s.results && t.summaries == s.summaries && t.report == s.report
            && t.evaluation == s.evaluation && t.repairSource == s.repairSource && t.publication == s.publication
  {
    hide CutAll, Cut, Attempts;
  }

  /** A decision is one of those on offer; it is counted, its judgment of the evidence is kept, and its notes, or its
      reason when a view has to be done again without any, are told to the role it names and to no other. */
  lemma {:induction false} SupervisorLeaves(cfg: Config, disk: Disk, s: State, request: Option<Request>, reply: Reply,
          menu: Menu)
    returns (d: Decision)
    requires request.Some? ==> request.value.DecideRequest?
    requires Choices(cfg, disk, s) == Done(menu) && menu.Offer? && AfterDecide(cfg, disk, s, request, reply).Done?
    ensures if request.None? then OwnDecision(cfg, s, menu.first, d)
            else reply == Returns(DecisionPayload(d)) && d.common == request.value.common && ConsistentDecision(d)
    ensures d.action.Go? ==> Offers(menu, d.action.role) && (d.action.role.Writer? ==> d.sufficient)
    ensures AfterDecide(cfg, disk, s, request, reply).value.stored == Some(DecisionPayload(d))
    ensures var t := AfterDecide(cfg, disk, s, request, reply).value.state;
            && NotesTold(s, t, d)
            && t.steps == s.steps + 1 && t.sufficient == d.sufficient && t.next == d.action
            && (if d.action.Stop? then t.status.Incomplete? && t.lastError == Some(EvidenceGap)
                else t.status == s.status && t.lastError == s.lastError)
            && t.identity == s.identity && t.attempts == s.attempts && t.pending == s.pending
            && t.results == s.results && t.summaries == s.summaries && t.report == s.report
            && t.evaluation == s.evaluation && t.repairSource == s.repairSource && t.publication == s.publication
  {
    hide AfterDecide, Choices, ConsistentDecision, CodeDecision, Decided, Offers, NotesTold;
    d := SupervisorAccepted(cfg, disk, s, request, reply, menu);
    DecidedNotes(s, d);
    DecidedRest(s, d);
  }

  /** The notes that the role finds after the decision. */
  ghost predicate Told(s: State, t: State, d: Decision, role: Role) {
    if d.feedback != [] then role in t.feedback && t.feedback[role] == CutAll(d.feedback, 8, 500)
    else if role in s.feedback then role in t.feedback && t.feedback[role] == s.feedback[role]
    else if IsView(role) && Attempts(s, role) > 0 then role in t.feedback && t.feedback[role] == [Cut(d.reason, 500)]
    else role !in t.feedback
  }

  /** Cutting keeps the first notes and their beginnings, and everything that is short enough. */
  lemma {:induction false} CutsExactly(notes: seq<string>, most: nat, n: nat)
    ensures var r := CutAll(notes, most, n);
            && |r| == Least(most, |notes|)
            && forall k :: 0 <= k < |r| ==> r[k] <= notes[k] && |r[k]| == Least(n, |notes[k]|)
  {
    var r := CutAll(notes, most, n);
    forall k | 0 <= k < |r| ensures r[k] <= notes[k] && |r[k]| == Least(n, |notes[k]|) { CutOne(notes[k], n); }
  }

  lemma {:induction false} CutOne(s: string, n: nat)
    ensures Cut(s, n) <= s && |Cut(s, n)| == Least(n, |s|)
  {
  }

  lemma {:induction false} DenyCode(cfg: Config, disk: Disk, s: State)
    requires Choices(cfg, disk, s).Done? && Choices(cfg, disk, s).value.Deny?
    ensures Choices(cfg, disk, s).value.code == if s.status.Running? && s.lastError.None? then LimitExceeded else FatalError
  {
    hide Filter, Targets, Attempts;
  }

  /** With nothing on offer the run ends, at a limit unless it had ended already. */
  lemma {:induction false} NothingOffered(cfg: Config, disk: Disk, s: State, request: Option<Request>, reply: Reply)
    requires Choices(cfg, disk, s).Done? && Choices(cfg, disk, s).value.Deny?
    ensures var code := if s.status.Running? && s.lastError.None? then LimitExceeded else FatalError;
            AfterDecide(cfg, disk, s, request, reply)
            == Done(Effect(None, s.(status := Incomplete, next := Stop, lastError := Some(code))))
  {
    hide Choices;
    DenyCode(cfg, disk, s);
  }

  // ---------- Why a call leaves the run in need of attention ----------

  /** The error that a reply reports, as an exception or in its result. */
  function ErrorOf(reply: Reply): Option<ErrorCode> {
    match reply
    case Throws(code) => Some(code)
    case Returns(ResearchPayload(r)) => if r.status.Failed? then r.error else None
    case Returns(ReportPayload(r)) => if r.document.None? then r.error else None
    case Returns(EvaluationPayload(e)) => e.error
    case Returns(PublishPayload(p)) => p.error
    case Returns(DecisionPayload(_)) => None
  }

  /** An exception of the role itself is never an uncertain request: only the callback can raise one. */
  lemma {:induction false} RaisesAre(cfg: Config, disk: Disk, s: State, role: Role, request: Option<Request>,
          reply: Reply)
    requires RequestOf(role, request) && After(cfg, disk, s, role, request, reply).Raised?
    ensures var code := After(cfg, disk, s, role, request, reply).code;
            code in {InvalidResponse, ArtifactMismatch} || reply == Throws(code)
  {
    hide ConsistentResearch, ConsistentReport, ConsistentEvaluation, ConsistentPublication, ConsistentDecision, Merge,
         Beside, InputsMatch, VerdictKnown, StructureSound, Verifies, Researched, Written, Evaluated, Published,
         Decided, AfterVerdict, CodeDecision, Allowed;
  }

  lemma {:induction false} ErrorsTell(cfg: Config, disk: Disk, s: State, role: Role, request: Option<Request>,
          reply: Reply)
    requires RequestOf(role, request) && After(cfg, disk, s, role, request, reply).Done? && s.status.Running?
    requires request.Some? && (role.Supervisor? ==> Choices(cfg, disk, s).Done? && Choices(cfg, disk, s).value.Offer?)
    ensures After(cfg, disk, s, role, request, reply).value.state.status.NeedsAttention? <==>
              ErrorOf(reply) == Some(UncertainRequest) && reply.Returns?
  {
    hide AfterDecide, AfterResearch, AfterWrite, AfterEvaluate, AfterPublish, Choices, NotesTold, ReasonsLeft,
         ResultsLeft, SummariesLeft, NotesLeft, ConsistentResearch, ConsistentReport, ConsistentEvaluation,
         ConsistentPublication, ConsistentDecision, InputsMatch, VerdictKnown, StructureSound, SameCounters,
         CodeDecision;
    match role
    case Supervisor =>
      var d := SupervisorLeaves(cfg, disk, s, request, reply, Choices(cfg, disk, s).value);
    case Writer => WriterLeaves(cfg, s, request.value, reply);
    case Evaluator => EvaluatorLeaves(s, request.value, reply);
    case Publisher => PublisherLeaves(disk, s, request.value, reply);
    case _ => WorkerLeaves(disk, s, role, request.value, reply);
  }

  /** What the process waits for is the request of the role in the saved state, with the directory as it was. */
  ghost predicate AwaitsBuilt(cfg: Config, m: Machine) {
    m.proc.Awaiting? && m.proc.state.pending.Some? ==>
      exists order :: Enumerates(order, m.proc.state.results.Keys)
        && Build(cfg, m.disk, m.proc.state, m.proc.state.pending.value.role, order) == Done(Some(m.proc.request))
  }

  lemma {:induction false} AwaitsBuiltStep(cfg: Config, m: Machine, e: Event)
    requires AwaitsBuilt(cfg, m)
    ensures AwaitsBuilt(cfg, Step(cfg, m, e))
  {
    hide Build, Enumerates, Loads, Entered, Alone, Answered, RequestOf, Finished, Resumed;
    if e.Resume? && m.proc.Dead? { ResumedNotAwaiting(m, e.identity); }
    if e.Complete? { CompletedNotAwaiting(cfg, m, e.reply, e.files); }
  }

  lemma {:induction false} ResumedNotAwaiting(m: Machine, identity: string)
    requires m.proc.Dead?
    ensures !Resumed(m, identity).proc.Awaiting?
  {
    hide Loads;
  }

  lemma {:induction false} CompletedNotAwaiting(cfg: Config, m: Machine, reply: Reply, files: map<string, string>)
    ensures var n := Step(cfg, m, Complete(reply, files)); n == m || !n.proc.Awaiting?
  {
    hide Alone, Answered, RequestOf;
  }

  lemma {:induction false} AlwaysBuilt(cfg: Config, es: seq<Event>)
    ensures AwaitsBuilt(cfg, Steps(cfg, EMPTY, es))
  {
    if es != [] {
      hide AwaitsBuilt, Step;
      AlwaysBuilt(cfg, es[..|es| - 1]);
      AwaitsBuiltStep(cfg, Steps(cfg, EMPTY, es[..|es| - 1]), es[|es| - 1]);
    }
  }

  /** The roles that take notes: the views and the writer. */
  function NotesOf(request: Request): seq<string> {
    match request
    case ResearchRequest(_, _, feedback, _, _) => feedback
    case WriteRequest(_, _, feedback, _) => feedback
    case _ => []
  }

  lemma {:induction false} BuiltTells(cfg: Config, disk: Disk, s: State, role: Role, order: seq<Role>, request: Request)
    requires Build(cfg, disk, s, role, order) == Done(Some(request))
    ensures request.ResearchRequest? || request.WriteRequest? ==> Notes(disk, s, role) == Done(NotesOf(request))
    ensures request.DecideRequest? ==>
              && Choices(cfg, disk, s).Done? && Choices(cfg, disk, s).value.Offer?
              && request.allowed == [Choices(cfg, disk, s).value.first] + Choices(cfg, disk, s).value.others
              && request.common == CommonFor(cfg, Supervisor, s.steps + 1)
    ensures role.Supervisor? <==> request.DecideRequest?
  {
    hide Choices, Notes, FetchResearch, FetchReport, FetchEvaluation, ResultsIn, CommonFor, ConsistentReport,
         ConsistentResearch, ConsistentEvaluation;
  }

  /** The reference was made for this result. */
  ghost predicate Stored(refs: map<Role, Ref>, role: Role, r: ResearchResult) {
    role in refs && refs[role].digest == ResearchPayload(r)
  }

  /** A request carries what the state refers to: for a view its own earlier result and, unless it is the research, the
      research it rests on; for the writer the four results and the earlier report; for the evaluator the report, and
      for the publisher the report and its verdict. */
  ghost predicate CarriesStored(s: State, role: Role, request: Request) {
    match request
    case DecideRequest(_, _) => role.Supervisor?
    case ResearchRequest(_, view, _, previous, context) =>
      && view == role && (previous.Some? <==> role in s.results)
      && (previous.Some? ==> Stored(s.results, role, previous.value))
      && (context.Some? <==> !role.Research?) && (context.Some? ==> Stored(s.results, Research, context.value))
    case WriteRequest(_, results, _, earlier) =>
      && role.Writer? && |results| == |s.results|
      && (forall r :: r in results ==> Stored(s.results, r.view, r))
      && (earlier.Some? <==> s.report.Some?) && (earlier.Some? ==> s.report.value.digest == ReportPayload(earlier.value))
    case EvaluateRequest(_, report) =>
      role.Evaluator? && s.report.Some? && s.report.value.digest == ReportPayload(report)
    case PublishRequest(_, report, evaluation) =>
      && role.Publisher? && s.report.Some? && s.report.value.digest == ReportPayload(report)
      && s.evaluation.Some? && s.evaluation.value.digest == EvaluationPayload(evaluation)
  }

  lemma {:induction false} GatheredStored(disk: Disk, s: State, order: seq<Role>, rs: seq<ResearchResult>)
    requires ResultsIn(disk, s, order) == Some(rs)
    ensures |rs| == |order| && forall k :: 0 <= k < |rs| ==> Stored(s.results, order[k], rs[k])
  {
    hide Stored, FetchResearch;
    if order != [] {
      var n := |order| - 1;
      var head := ResultsIn(disk, s, order[..n]);
      GatheredStored(disk, s, order[..n], head.value);
      FetchedStored(disk, s, order[n]);
      assert rs == head.value + [rs[n]];
      forall k | 0 <= k < |order| ensures Stored(s.results, order[k], rs[k]) {
        if k < n { assert order[k] == order[..n][k] && rs[k] == head.value[k]; }
      }
    }
  }

  lemma {:induction false} FetchedStored(disk: Disk, s: State, v: Role)
    ensures FetchResearch(disk, s, v).Some? ==> Stored(s.results, v, FetchResearch(disk, s, v).value)
  {
  }

  lemma {:induction false} WriteCarries(cfg: Config, disk: Disk, s: State, order: seq<Role>, request: Request)
    requires Enumerates(order, s.results.Keys) && BuildWrite(cfg, disk, s, order) == Done(Some(request))
    ensures CarriesStored(s, Writer, request)
  {
    hide Notes, FetchResearch, ResultsIn, CommonFor, ConsistentReport, ConsistentResearch, Stored, NoBlank;
    var rs := ResultsIn(disk, s, order).value;
    GatheredStored(disk, s, order, rs);
    DistinctCard(order);
    forall r | r in request.results ensures Stored(s.results, r.view, r) {
      var k :| 0 <= k < |rs| && rs[k] == r;
      assert WriteInputFits(CommonFor(cfg, Writer, Attempts(s, Writer)), order[k], rs[k]);
    }
  }

  lemma {:induction false} BuiltCarries(cfg: Config, disk: Disk, s: State, role: Role, order: seq<Role>,
          request: Request)
    requires Enumerates(order, s.results.Keys) && Build(cfg, disk, s, role, order) == Done(Some(request))
    ensures CarriesStored(s, role, request)
  {
    hide Choices, Notes, ResultsIn, CommonFor, ConsistentReport, ConsistentResearch, ConsistentEvaluation, Enumerates,
         BuildWrite;
    if role.Writer? { WriteCarries(cfg, disk, s, order, request); }
  }

  /** In every run the request that has been sent carries what the saved state refers to. */
  lemma {:induction false} RequestCarries(cfg: Config, es: seq<Event>)
    requires Steps(cfg, EMPTY, es).proc.Awaiting?
    ensures var m := Steps(cfg, EMPTY, es);
            m.proc.state.pending.Some? && CarriesStored(m.proc.state, m.proc.state.pending.value.role, m.proc.request)
  {
    Reachable(cfg, es);
    AlwaysBuilt(cfg, es);
    var m := Steps(cfg, EMPTY, es);
    hide Steps, Inv, Enumerates, Build;
    AwaitedCall(cfg, m);
    var s, request := m.proc.state, m.proc.request;
    var order :| Enumerates(order, s.results.Keys)
                 && Build(cfg, m.disk, s, s.pending.value.role, order) == Done(Some(request));
    hide InCall, CarriesStored;
    BuiltCarries(cfg, m.disk, s, s.pending.value.role, order, request);
  }

  /** In every run: the request that a view or the writer receives tells it, each once, exactly the notes it was left,
      every repair the stored evaluation asks of it and every gap of its earlier result; and the Supervisor is given
      exactly the roles that are on offer. */
  lemma {:induction false} RequestTells(cfg: Config, es: seq<Event>, n: string, r: Role)
    requires Steps(cfg, EMPTY, es).proc.Awaiting?
    ensures var m := Steps(cfg, EMPTY, es);
            var s, request := m.proc.state, m.proc.request;
            && s.pending.Some? && var role := s.pending.value.role;
            && Distinct(NotesOf(request))
            && (request.ResearchRequest? || request.WriteRequest? ==>
                  (n in NotesOf(request) <==>
                     role in s.feedback
                     && (n in s.feedback[role] || RepairAsked(m.disk, s, role, n) || GapLeft(m.disk, s, role, n))))
            && (request.DecideRequest? ==>
                  (r in request.allowed <==>
                     && s.steps < cfg.limits.supervisorSteps
                     && if StoredPass(m.disk, s) then r.Publisher?
                        else if s.evaluation.None? && s.report.Some? then r.Evaluator?
                        else MayFollow(cfg, s, r)))
  {
    Reachable(cfg, es);
    AlwaysBuilt(cfg, es);
    var m := Steps(cfg, EMPTY, es);
    hide Steps, Inv, Enumerates, Build;
    AwaitedCall(cfg, m);
    var s, request := m.proc.state, m.proc.request;
    var role := s.pending.value.role;
    var order :| Enumerates(order, s.results.Keys) && Build(cfg, m.disk, s, role, order) == Done(Some(request));
    BuiltTells(cfg, m.disk, s, role, order, request);
    AwaitedRuns(cfg, m);
    hide InCall, RequestOf, MayFollow, StoredPass, RepairAsked, GapLeft, Notes, Choices, CommonFor;
    if request.ResearchRequest? || request.WriteRequest? { NotesExactly(m.disk, s, role, n); }
    if request.DecideRequest? { OffersExactly(cfg, m.disk, s, r); }
  }

  lemma {:induction false} AwaitedRuns(cfg: Config, m: Machine)
    requires Inv(cfg, m) && m.proc.Awaiting?
    ensures m.proc.state.status.Running? && m.proc.state.lastError.None?
  {
    hide Content, CallCounts, Bounds, Fresh, Due, Mark, Asked, Distinct;
  }

  /** In every run: when the call that a process waits for completes, the run needs attention exactly if the reply is an
      uncertain request, raised by the callback or reported in a result that the role accepts; and an exception ends
      the run with its code. */
  lemma {:induction false} AttentionExactly(cfg: Config, es: seq<Event>, reply: Reply, files: map<string, string>)
    requires Steps(cfg, EMPTY, es).proc.Awaiting?
    ensures var m := Steps(cfg, EMPTY, es);
            && CanAnswer(m)
            && var n, done := Step(cfg, m, Complete(reply, files)), Answered(cfg, m, reply, files);
               && n.proc.Between?
               && (n.proc.state.status.NeedsAttention? <==>
                     ErrorOf(reply) == Some(UncertainRequest) && (reply.Throws? || done.Done?))
               && (reply.Throws? ==> done == Raised(reply.code))
               && (done.Raised? ==> n.proc.state.lastError == Some(Fault(done.code)) && n.proc.state.next.Stop?)
  {
    Reachable(cfg, es);
    AlwaysBuilt(cfg, es);
    var m := Steps(cfg, EMPTY, es);
    hide Steps, Inv;
    AwaitedCall(cfg, m);
    AwaitedRuns(cfg, m);
    AttentionAt(cfg, m, reply, files);
  }

  lemma {:induction false} AnsweredTells(cfg: Config, m: Machine, reply: Reply, files: map<string, string>)
    requires CanAnswer(m) && m.proc.state.status.Running? && AwaitsBuilt(cfg, m)
    ensures var done := Answered(cfg, m, reply, files);
            && (done.Done? ==> (done.value.1.status.NeedsAttention? <==> ErrorOf(reply) == Some(UncertainRequest) && reply.Returns?))
            && (done.Raised? ==> done.code in {InvalidResponse, ArtifactMismatch} || reply == Throws(done.code))
            && (reply.Throws? ==> done == Raised(reply.code))
  {
    var s, request, disk := m.proc.state, m.proc.request, WithFiles(m.disk, files);
    var role := s.pending.value.role;
    var order :| Enumerates(order, s.results.Keys) && Build(cfg, m.disk, s, role, order) == Done(Some(request));
    BuiltTells(cfg, m.disk, s, role, order, request);
    FilesAside(cfg, m.disk, files, s);
    hide Build, Enumerates, Choices, RequestOf, After, ErrorOf, PendingKey, Put;
    if After(cfg, disk, s, role, Some(request), reply).Done? {
      ErrorsTell(cfg, disk, s, role, Some(request), reply);
    } else {
      RaisesAre(cfg, disk, s, role, Some(request), reply);
    }
    if reply.Throws? { ThrowsAre(cfg, disk, s, role, request, reply); }
    PutRaises(disk, PendingKey(s));
  }

  lemma {:induction false} PutRaises(disk: Disk, key: Key)
    ensures forall p :: Put(disk, key, p).Raised? ==> Put(disk, key, p).code == InvalidResponse
  {
  }

  lemma {:induction false} AttentionAt(cfg: Config, m: Machine, reply: Reply, files: map<string, string>)
    requires CanAnswer(m) && m.proc.state.status.Running? && AwaitsBuilt(cfg, m)
    ensures var n, done := Step(cfg, m, Complete(reply, files)), Answered(cfg, m, reply, files);
            && n.proc.Between?
            && (n.proc.state.status.NeedsAttention? <==>
                  ErrorOf(reply) == Some(UncertainRequest) && (reply.Throws? || done.Done?))
            && (reply.Throws? ==> done == Raised(reply.code))
            && (done.Raised? ==> n.proc.state.lastError == Some(Fault(done.code)) && n.proc.state.next.Stop?)
  {
    hide AwaitsBuilt;
    AnsweredTells(cfg, m, reply, files);
    ThrownError(reply);
    hide Answered, RequestOf, ErrorOf;
  }

  lemma {:induction false} ThrownError(reply: Reply)
    ensures reply.Throws? ==> ErrorOf(reply) == Some(reply.code)
  {
  }

  lemma {:induction false} ThrowsAre(cfg: Config, disk: Disk, s: State, role: Role, request: Request, reply: Reply)
    requires RequestOf(role, Some(request)) && reply.Throws?
    requires role.Supervisor? ==> Choices(cfg, disk, s).Done? && Choices(cfg, disk, s).value.Offer?
    ensures After(cfg, disk, s, role, Some(request), reply) == Raised(reply.code)
  {
    hide Choices;
  }

  lemma {:induction false} FilesAside(cfg: Config, disk: Disk, files: map<string, string>, s: State)
    ensures Choices(cfg, WithFiles(disk, files), s) == Choices(cfg, disk, s)
  {
    hide AfterVerdict;
  }

  // ---------- A view answered well is not due again ----------

  lemma {:induction false} AnsweredIsNotDue(disk: Disk, s: State, view: Role, request: Request, reply: Reply)
    requires IsView(view) && AfterResearch(disk, s, view, request, reply).Done?
    requires reply.Returns? && reply.payload.ResearchPayload? && reply.payload.research.status.Ok?
    ensures !ViewDue(AfterResearch(disk, s, view, request, reply).value.state, view)
  {
    hide AfterResearch, ConsistentResearch;
    WorkerLeaves(disk, s, view, request, reply);
  }

  /** The view is due neither in the saved state nor in that of the process. */
  ghost predicate Rested(m: Machine, view: Role) {
    && m.disk.snapshot.Some? && !ViewDue(m.disk.snapshot.value, view)
    && (!m.proc.Dead? ==> !ViewDue(m.proc.state, view))
  }

  lemma {:induction false} RestedResume(m: Machine, view: Role, identity: string)
    requires Rested(m, view) && m.proc.Dead?
    ensures Rested(Resumed(m, identity), view)
  {
    hide ViewDue, Loads;
    var s := m.disk.snapshot.value;
    SameDueIf(s, Stopped(s, Fault(UncertainRequest)), view);
  }

  lemma {:induction false} RestedBegin(cfg: Config, m: Machine, view: Role)
    requires Rested(m, view) && m.proc.Between?
    ensures Rested(Begun(cfg, m), view)
  {
    hide ViewDue, RequestId;
    var s := m.proc.state;
    SameDueIf(s, s.(next := Stop), view);
    if m.proc.at.Go? { SameDueIf(s, Entered(cfg, s, m.proc.at.role), view); }
  }

  /** No event but the completion of a call makes a view due. */
  lemma {:induction false} RestedStep(cfg: Config, m: Machine, view: Role, e: Event)
    requires Rested(m, view) && !e.Complete? && !e.Lose?
    ensures Rested(Step(cfg, m, e), view)
  {
    hide ViewDue, Resumed, Begun, Build, Enumerates;
    if e.Resume? && m.proc.Dead? { RestedResume(m, view, e.identity); }
    if e.Begin? && m.proc.Between? { RestedBegin(cfg, m, view); }
  }

  predicate SameNotes(s: State, t: State) { t.feedback == s.feedback && t.summaries == s.summaries }

  lemma {:induction false} SameDueIf(s: State, t: State, view: Role)
    ensures SameNotes(s, t) ==> (ViewDue(t, view) <==> ViewDue(s, view))
  {
  }

  lemma {:induction false} RestedSteps(cfg: Config, m: Machine, view: Role, es: seq<Event>)
    requires Rested(m, view) && forall k :: 0 <= k < |es| ==> !es[k].Complete? && !es[k].Lose?
    ensures Rested(Steps(cfg, m, es), view)
  {
    if es != [] {
      hide Rested, Step;
      var n := |es| - 1;
      assert forall k :: 0 <= k < n ==> es[..n][k] == es[k];
      RestedSteps(cfg, m, view, es[..n]);
      RestedStep(cfg, Steps(cfg, m, es[..n]), view, es[n]);
    }
  }

  /** The process waits for a view, and is answered with a result that the role accepts. */
  ghost predicate AnswersWell(cfg: Config, m: Machine, view: Role, e: Event) {
    && CanAnswer(m) && m.proc.state.pending.value.role == view && IsView(view) && e.Complete?
    && e.reply.Returns? && e.reply.payload.ResearchPayload? && e.reply.payload.research.status.Ok?
    && Answered(cfg, m, e.reply, e.files).Done?
  }

  lemma {:induction false} AnswerRests(cfg: Config, m: Machine, view: Role, e: Event)
    requires AnswersWell(cfg, m, view, e)
    ensures Rested(Step(cfg, m, e), view)
  {
    hide AfterResearch, ViewDue, RequestOf;
    var disk, s := WithFiles(m.disk, e.files), m.proc.state;
    var done := Answered(cfg, m, e.reply, e.files);
    AnsweredIsNotDue(disk, s, view, m.proc.request, e.reply);
    SameDueIf(done.value.1, Settled(s, done), view);
  }

  /** In every run: a view that was asked and answered well is not due again until the next call completes, whatever
      pauses, crashes and resumes come in between; so the Supervisor's next menu asks for other views. */
  lemma {:induction false} AnsweredRests(cfg: Config, es: seq<Event>, view: Role, e: Event, later: seq<Event>)
    requires AnswersWell(cfg, Steps(cfg, EMPTY, es), view, e)
    requires forall k :: 0 <= k < |later| ==> !later[k].Complete? && !later[k].Lose?
    ensures Rested(Steps(cfg, Step(cfg, Steps(cfg, EMPTY, es), e), later), view)
  {
    hide AnswersWell, Rested, Step;
    AnswerRests(cfg, Steps(cfg, EMPTY, es), view, e);
    RestedSteps(cfg, Step(cfg, Steps(cfg, EMPTY, es), e), view, later);
  }
}
