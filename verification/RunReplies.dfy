/** Which replies a role takes over, what the requests it makes promise, and which snapshots are resumed
    (agents/supervisor.py, agents/contracts.py, agents/store.py). */
module RunReplies {
  import opened Schema
  import opened Texts
  import opened Contracts
  import opened RunMachine

  // ---------- What is taken over ----------

  ghost predicate TakesResearch(disk: Disk, s: State, view: Role, request: Request, reply: Reply) {
    && reply.Returns? && reply.payload.ResearchPayload?
    && var r := reply.payload.research;
       && ConsistentResearch(r) && r.common == request.common && r.view == view
       && Beside(disk, s, view).Some? && Merge(Beside(disk, s, view).value + [r]).Done?
  }

  ghost predicate TakesReport(cfg: Config, request: Request, reply: Reply)
    requires request.WriteRequest?
  {
    && reply.Returns? && reply.payload.ReportPayload?
    && var r := reply.payload.report;
       && ConsistentReport(r) && r.common == request.common
       && (r.document.Some? ==> InputsMatch(r, request.results, cfg.names))
  }

  ghost predicate TakesVerdict(request: Request, reply: Reply)
    requires request.EvaluateRequest? && request.report.document.Some?
  {
    && reply.Returns? && reply.payload.EvaluationPayload?
    && var e := reply.payload.evaluation;
       && ConsistentEvaluation(e) && e.common == request.common && e.reportRequestId == request.report.common.requestId
       && VerdictKnown(e, request.report.document.value) && (e.passed ==> StructureSound(request.report))
  }

  ghost predicate TakesPublication(disk: Disk, request: Request, reply: Reply)
    requires request.PublishRequest? && request.report.document.Some?
  {
    && reply.Returns? && reply.payload.PublishPayload?
    && var p := reply.payload.publication;
       && ConsistentPublication(p) && p.common == request.common
       && (p.files.Some? ==>
             var f := p.files.value;
             && f.markdown.path in disk.files && disk.files[f.markdown.path] == f.markdown.digest
             && f.pdf.path in disk.files && disk.files[f.pdf.path] == f.pdf.digest
             && f.markdown.digest == request.report.document.value.markdown)
  }

  ghost predicate TakesDecision(menu: Menu, request: Request, reply: Reply) {
    && reply.Returns? && reply.payload.DecisionPayload?
    && var d := reply.payload.decision;
       && ConsistentDecision(d) && d.common == request.common
       && (d.action.Go? ==> Offers(menu, d.action.role) && (d.action.role == Writer ==> d.sufficient))
  }

  /** What is thrown is the failure; anything else that is not taken over is an invalid response, unless the registries
      conflict. */
  ghost predicate FailsWith<T>(r: Outcome<T>, reply: Reply, conflict: bool) {
    r.Raised? ==> r.code == if reply.Throws? then reply.code else if conflict then ArtifactMismatch else InvalidResponse
  }

  /** Exactly which results a view's answer is taken over for. */
  lemma {:induction false} ResearchTaken(disk: Disk, s: State, view: Role, request: Request, reply: Reply)
    ensures AfterResearch(disk, s, view, request, reply).Done? <==> TakesResearch(disk, s, view, request, reply)
    ensures FailsWith(AfterResearch(disk, s, view, request, reply), reply,
                      && reply.Returns? && reply.payload.ResearchPayload? && ConsistentResearch(reply.payload.research)
                      && reply.payload.research.common == request.common && reply.payload.research.view == view
                      && Beside(disk, s, view).Some? && Merge(Beside(disk, s, view).value + [reply.payload.research]).Raised?)
  {
    hide ConsistentResearch, Beside, Merge, Researched;
  }

  lemma {:induction false} ReportTaken(cfg: Config, s: State, request: Request, reply: Reply)
    requires request.WriteRequest?
    ensures AfterWrite(cfg, s, request, reply).Done? <==> TakesReport(cfg, request, reply)
    ensures FailsWith(AfterWrite(cfg, s, request, reply), reply,
                      && reply.Returns? && reply.payload.ReportPayload? && ConsistentReport(reply.payload.report)
                      && reply.payload.report.common == request.common && reply.payload.report.document.Some?
                      && Merge(request.results).Raised?)
  {
    MatchMerges(cfg, request, reply);
    hide ConsistentReport, InputsMatch, Merge, Written;
  }

  lemma {:induction false} MatchMerges(cfg: Config, request: Request, reply: Reply)
    requires request.WriteRequest?
    ensures reply.Returns? && reply.payload.ReportPayload? && InputsMatch(reply.payload.report, request.results, cfg.names) ==>
              Merge(request.results).Done?
  {
    hide Merge;
  }

  lemma {:induction false} VerdictTaken(s: State, request: Request, reply: Reply)
    requires request.EvaluateRequest? && request.report.document.Some?
    ensures AfterEvaluate(s, request, reply).Done? <==> TakesVerdict(request, reply)
    ensures FailsWith(AfterEvaluate(s, request, reply), reply, false)
  {
    hide ConsistentEvaluation, VerdictKnown, StructureSound, Evaluated;
  }

  lemma {:induction false} PublicationTaken(disk: Disk, s: State, request: Request, reply: Reply)
    requires request.PublishRequest? && request.report.document.Some?
    ensures AfterPublish(disk, s, request, reply).Done? <==> TakesPublication(disk, request, reply)
    ensures FailsWith(AfterPublish(disk, s, request, reply), reply, false)
  {
    hide ConsistentPublication, Published;
  }

  lemma {:induction false} DecisionTaken(cfg: Config, disk: Disk, s: State, request: Request, reply: Reply)
    requires request.DecideRequest? && Choices(cfg, disk, s).Done? && Choices(cfg, disk, s).value.Offer?
    ensures AfterDecide(cfg, disk, s, Some(request), reply).Done? <==> TakesDecision(Choices(cfg, disk, s).value, request, reply)
    ensures FailsWith(AfterDecide(cfg, disk, s, Some(request), reply), reply, false)
  {
    hide Choices, ConsistentDecision, Decided, Offers;
  }

  // ---------- What a request promises, and what a snapshot refers to ----------

  ghost predicate OfRun(cfg: Config, c: Common) { c.runId == cfg.runId && c.context == cfg.context }

  /** Results that a request hands on are consistent, of this run, and good for what is asked. */
  ghost predicate Promises(cfg: Config, request: Request) {
    match request
    case DecideRequest(_, allowed) => allowed != []
    case ResearchRequest(common, view, notes, previous, context) =>
      && (forall n :: n in notes ==> !AllSpace(n))
      && (previous.Some? ==> ConsistentResearch(previous.value) && OfRun(cfg, previous.value.common)
                             && previous.value.view == view && previous.value.common.attempt < common.attempt)
      && (context.Some? ==> ConsistentResearch(context.value) && OfRun(cfg, context.value.common)
                            && context.value.view == Research && context.value.status == Ok)
    case WriteRequest(common, results, notes, earlier) =>
      && (forall n :: n in notes ==> !AllSpace(n))
      && (forall v :: v in [Research, Market, Stakeholder, Domain] ==> exists r :: r in results && r.view == v)
      && (forall r :: r in results ==> ConsistentResearch(r) && OfRun(cfg, r.common) && r.status == Ok)
      && (earlier.Some? ==> ConsistentReport(earlier.value) && OfRun(cfg, earlier.value.common)
                            && earlier.value.common.attempt < common.attempt)
    case EvaluateRequest(_, report) =>
      ConsistentReport(report) && OfRun(cfg, report.common) && report.document.Some?
    case PublishRequest(_, report, verdict) =>
      && ConsistentReport(report) && OfRun(cfg, report.common) && report.document.Some?
      && ConsistentEvaluation(verdict) && OfRun(cfg, verdict.common) && verdict.error.None? && verdict.passed
      && verdict.reportRequestId == report.common.requestId
  }

  lemma {:induction false} InkedNotes(notes: seq<string>)
    ensures NoBlank(notes) ==> forall n :: n in notes ==> !AllSpace(n)
  {
    if NoBlank(notes) {
      forall n | n in notes ensures !AllSpace(n) { var k :| 0 <= k < |notes| && notes[k] == n; }
    }
  }

  lemma {:induction false} WritePromises(cfg: Config, disk: Disk, s: State, order: seq<Role>, request: Request)
    requires BuildWrite(cfg, disk, s, order) == Done(Some(request))
    ensures Promises(cfg, request)
  {
    InkedNotes(request.feedback);
    hide Notes, FetchResearch, FetchReport, ResultsIn, RequestId, ConsistentReport, ConsistentResearch, NoBlank,
         AllSpace;
    var common, rs := CommonFor(cfg, Writer, Attempts(s, Writer)), ResultsIn(disk, s, order).value;
    forall r | r in rs ensures ConsistentResearch(r) && OfRun(cfg, r.common) && r.status == Ok {
      var k :| 0 <= k < |rs| && rs[k] == r;
      assert WriteInputFits(common, order[k], rs[k]);
    }
    forall v | v in [Research, Market, Stakeholder, Domain] ensures exists r :: r in rs && r.view == v {
      assert v in VIEWS && v in ToSet(order);
      var k :| 0 <= k < |order| && order[k] == v;
      assert WriteInputFits(common, order[k], rs[k]);
      assert rs[k] in rs;
    }
  }

  /** Whatever the directory holds: a request that is made meets its contract. */
  lemma {:induction false} BuiltPromises(cfg: Config, disk: Disk, s: State, role: Role, order: seq<Role>,
          request: Request)
    requires Build(cfg, disk, s, role, order) == Done(Some(request))
    ensures Promises(cfg, request)
  {
    if request.ResearchRequest? { InkedNotes(request.feedback); }
    hide Choices, Notes, FetchResearch, FetchReport, FetchEvaluation, ResultsIn, RequestId, ConsistentReport,
         ConsistentResearch, ConsistentEvaluation, BuildWrite, NoBlank, AllSpace;
    if role.Writer? { WritePromises(cfg, disk, s, order, request); }
  }

  ghost predicate Refers(s: State, ref: Ref) {
    || (exists v :: v in s.results && s.results[v] == ref)
    || s.report == Some(ref) || s.evaluation == Some(ref) || s.repairSource == Some(ref) || s.publication == Some(ref)
  }

  /** A snapshot can be resumed exactly when all that it refers to is there with that very content, its publication and
      the published files included. */
  lemma {:induction false} LoadsExactly(disk: Disk, s: State)
    ensures Loads(disk, s) <==>
            && (forall ref :: Refers(s, ref) ==> ref.key in disk.artifacts && disk.artifacts[ref.key] == ref.digest)
            && (s.publication.Some? ==>
                  && s.publication.value.digest.PublishPayload?
                  && var files := s.publication.value.digest.publication.files;
                     files.Some? ==>
                       forall f :: f == files.value.markdown || f == files.value.pdf ==>
                                     f.path in disk.files && disk.files[f.path] == f.digest)
  {
    if Loads(disk, s) {
      forall ref | Refers(s, ref) ensures ref.key in disk.artifacts && disk.artifacts[ref.key] == ref.digest {
        if v :| v in s.results && s.results[v] == ref { assert Fetch(disk, s.results[v]).Some?; }
      }
    }
    assert forall v :: v in s.results ==> Refers(s, s.results[v]);
    assert s.report.Some? ==> Refers(s, s.report.value);
    assert s.evaluation.Some? ==> Refers(s, s.evaluation.value);
    assert s.repairSource.Some? ==> Refers(s, s.repairSource.value);
    assert s.publication.Some? ==> Refers(s, s.publication.value);
  }
}
