/** One call from its request to the state it leaves behind, whatever the callback answers. */
module RunCalls {
  import opened Schema
  import opened Contracts
  import opened RunMachine
  import opened RunInvariant
  import opened RunRoles

  // ---------- Requests ----------

  lemma {:induction false} FetchedResearch(cfg: Config, disk: Disk, s: State, v: Role)
    requires ResultsOk(cfg, disk, s)
    ensures FetchResearch(disk, s, v) == ResearchOf(s.results, v)
    ensures v in s.results ==> ResearchOf(s.results, v).Some?
  {
    hide ConsistentResearch, CommonFor;
    if v in s.results { assert ResultOk(cfg, disk, s, v); }
  }

  lemma {:induction false} FetchedResults(cfg: Config, disk: Disk, s: State, order: seq<Role>, rs: seq<ResearchResult>)
    requires ResultsOk(cfg, disk, s) && ResultsIn(disk, s, order) == Some(rs)
    ensures Gathers(s.results, order, rs)
  {
    hide ResultsOk, FetchResearch, ResearchOf;
    if order != [] {
      var n := |order| - 1;
      var head := ResultsIn(disk, s, order[..n]);
      FetchedResults(cfg, disk, s, order[..n], head.value);
      FetchedResearch(cfg, disk, s, order[n]);
      assert rs == head.value + [rs[n]];
      forall k | 0 <= k < |order| ensures ResearchOf(s.results, order[k]) == Some(rs[k]) {
        if k < n { assert order[k] == order[..n][k] && rs[k] == head.value[k]; }
      }
    }
  }

  lemma {:induction false} ResearchBuilds(cfg: Config, disk: Disk, s: State, view: Role, request: Request)
    requires ResultsOk(cfg, disk, s) && IsView(view)
    requires BuildResearch(cfg, disk, s, view) == Done(Some(request))
    ensures ResearchAsked(cfg, s, view, request)
  {
    hide ResultsOk, FetchResearch, ResearchOf, ConsistentResearch, CommonFor, Notes;
    FetchedResearch(cfg, disk, s, view);
    FetchedResearch(cfg, disk, s, Research);
  }

  lemma {:induction false} AllOk(results: map<Role, Ref>, order: seq<Role>, rs: seq<ResearchResult>, common: Common)
    requires Gathers(results, order, rs) && ToSet(order) == ToSet(VIEWS)
    requires forall k :: 0 <= k < |order| ==> WriteInputFits(common, order[k], rs[k])
    ensures forall v :: IsView(v) ==> OkResult(results, v)
  {
    hide ConsistentResearch, ResearchOf;
    forall v | IsView(v) ensures OkResult(results, v) {
      assert v in VIEWS;
      assert v in ToSet(order);
      var k :| 0 <= k < |order| && order[k] == v;
      assert ResearchOf(results, order[k]) == Some(rs[k]);
    }
  }

  lemma {:induction false} FetchedReport(cfg: Config, disk: Disk, s: State)
    requires ReportOk(cfg, disk, s)
    ensures FetchReport(disk, s.report) == ReportOf(s.report)
    ensures s.report.Some? ==> ReportOf(s.report).Some?
  {
    hide ConsistentReport, CommonFor, Current;
  }

  lemma {:induction false} FetchedEvaluation(cfg: Config, disk: Disk, s: State)
    requires VerdictOk(cfg, disk, s)
    ensures FetchEvaluation(disk, s.evaluation) == EvaluationOf(s.evaluation)
    ensures s.evaluation.Some? ==> EvaluationOf(s.evaluation).Some?
  {
    hide ConsistentEvaluation, CommonFor, VerdictKnown, StructureSound;
  }

  lemma {:induction false} WriteBuilds(cfg: Config, disk: Disk, s: State, order: seq<Role>, request: Request)
    requires ResultsOk(cfg, disk, s) && ReportOk(cfg, disk, s) && Enumerates(order, s.results.Keys)
    requires BuildWrite(cfg, disk, s, order) == Done(Some(request))
    ensures WriteAskedIn(cfg, s, request, order)
  {
    hide ResultsOk, ReportOk, FetchReport, ReportOf, ResultsIn, Gathers, ConsistentReport, CommonFor, Notes, Enumerates,
         WriteInputFits;
    FetchedReport(cfg, disk, s);
    FetchedResults(cfg, disk, s, order, request.results);
    AllOk(s.results, order, request.results, request.common);
  }

  lemma {:induction false} EvaluateBuilds(cfg: Config, disk: Disk, s: State, request: Request)
    requires ReportOk(cfg, disk, s) && BuildEvaluate(cfg, disk, s) == Done(Some(request))
    ensures EvaluateAsked(cfg, s, request)
  {
    hide ReportOk, FetchReport, ReportOf, ConsistentReport, CommonFor;
    FetchedReport(cfg, disk, s);
  }

  lemma {:induction false} PublishBuilds(cfg: Config, disk: Disk, s: State, request: Request)
    requires ReportOk(cfg, disk, s) && VerdictOk(cfg, disk, s) && BuildPublish(cfg, disk, s) == Done(Some(request))
    ensures PublishAsked(cfg, s, request)
  {
    hide ReportOk, VerdictOk, FetchReport, FetchEvaluation, ReportOf, EvaluationOf, ConsistentReport,
         ConsistentEvaluation, CommonFor;
    FetchedReport(cfg, disk, s);
    FetchedEvaluation(cfg, disk, s);
  }

  lemma {:induction false} Builds(cfg: Config, disk: Disk, asked: map<Key, Request>, s: State, role: Role,
          order: seq<Role>, request: Request)
    requires Content(cfg, disk, asked, s) && Enumerates(order, s.results.Keys)
    requires Build(cfg, disk, s, role, order) == Done(Some(request))
    ensures Asked(cfg, s, role, request)
  {
    hide ResultsOk, Lineage, ReportOk, VerdictOk, RepairOk, PublicationOk, CompletedOk, Enumerates, BuildWrite,
         BuildEvaluate, BuildPublish, BuildResearch, WriteAskedIn, EvaluateAsked, PublishAsked, ResearchAsked,
         CommonFor, Choices;
    match role
    case Supervisor =>
    case Writer => WriteBuilds(cfg, disk, s, order, request);
    case Evaluator => EvaluateBuilds(cfg, disk, s, request);
    case Publisher => PublishBuilds(cfg, disk, s, request);
    case _ => ResearchBuilds(cfg, disk, s, role, request);
  }

  lemma {:induction false} AskedIsAnswerable(cfg: Config, s: State, role: Role, request: Request)
    requires Asked(cfg, s, role, request)
    ensures RequestOf(role, Some(request))
  {
    hide CommonFor, Gathers, OkResult, ResearchOf, EvaluationOf, ReportOf, Passing;
  }

  // ---------- Landing ----------

  /** The state a call leaves: content and bounds hold; a running state is at rest and goes on through
      the Supervisor, any other has no next role. */
  ghost predicate Landed(cfg: Config, more: Disk, now: set<Key>, asked: map<Key, Request>, from: Role, t: State) {
    && Content(cfg, more, asked, t) && Bounds(cfg, t)
    && if t.status.Running? then
         RestOk(cfg, more, now, asked, t.(pending := None)) && (from.Supervisor? || t.next == Go(Supervisor))
       else t.next.Stop?
  }

  ghost predicate Keeps(disk: Disk, more: Disk, used: set<Key>, now: set<Key>, s: State) {
    && (forall k :: k in more.artifacts ==> k in disk.artifacts || k == PendingKey(s))
    && now <= used + {PendingKey(s)}
  }

  lemma {:induction false} ContentAtRest(cfg: Config, disk: Disk, asked: map<Key, Request>, t: State)
    requires Content(cfg, disk, asked, t) && t.status.Running?
    ensures Content(cfg, disk, asked, t.(pending := None))
  {
    hide Content;
    RunningContent(cfg, disk, disk, asked, asked, t, t.(pending := None));
  }

  lemma {:induction false} Lands(cfg: Config, disk: Disk, more: Disk, used: set<Key>, now: set<Key>,
          asked: map<Key, Request>, s: State, t: State)
    requires s.next.Go? && CallOk(cfg, disk, used, asked, s) && Keeps(disk, more, used, now, s)
    requires s.next.role != Supervisor && s.next.role != Publisher
    requires Content(cfg, more, asked, t) && t.attempts == s.attempts && t.steps == s.steps
    requires t.status.Running? || t.next.Stop?
    requires t.status.Running? ==> t.next == Go(Supervisor) && t.lastError.None?
                                   && (t.report.Some? && t.evaluation.None? ==> s.next.role.Writer?)
    ensures Landed(cfg, more, now, asked, s.next.role, t)
  {
    hide Content, CallCounts, RestCounts, Bounds, Fresh, Due, Room, RequestId, Mark;
    CountsKept(cfg, s, t);
    if t.status.Running? {
      var u := t.(pending := None);
      CountsKept(cfg, s, u);
      CountsAfterCall(cfg, s, u, s.next.role);
      FreshAfter(cfg, disk, more, used, now, s, u);
      ContentAtRest(cfg, more, asked, t);
    }
  }

  /** The facts about a call in progress that the landing lemmas start from. */
  ghost predicate InCall(cfg: Config, disk: Disk, used: set<Key>, asked: map<Key, Request>, s: State, role: Role,
          request: Request) {
    && CallOk(cfg, disk, used, asked, s) && s.next == Go(role) && Asked(cfg, s, role, request)
    && PendingKey(s) in asked && asked[PendingKey(s)] == request
  }

  lemma {:induction false} CallKey(cfg: Config, disk: Disk, used: set<Key>, asked: map<Key, Request>, s: State,
          role: Role)
    requires CallOk(cfg, disk, used, asked, s) && s.next == Go(role)
    ensures Content(cfg, disk, asked, s) && s.status.Running? && Bounds(cfg, s)
    ensures PendingKey(s) == Key(role, if role.Supervisor? then s.steps + 1 else Attempts(s, role))
    ensures PendingKey(s) !in disk.artifacts
  {
    KeyIsFresh(cfg, disk, used, asked, s);
    hide Content, CallCounts, Bounds, Fresh, Due, RequestId, Attempts;
  }

  lemma {:induction false} ResearchLands(cfg: Config, disk: Disk, files: Disk, more: Disk, used: set<Key>,
          now: set<Key>, asked: map<Key, Request>, s: State, view: Role, request: Request, reply: Reply, p: Payload,
          t: State)
    requires InCall(cfg, disk, used, asked, s, view, request) && IsView(view)
    requires Keeps(disk, more, used, now, s) && more.artifacts == disk.artifacts[PendingKey(s) := p]
    requires AfterResearch(files, s, view, request, reply) == Done(Effect(Some(p), t))
    ensures Landed(cfg, more, now, asked, view, t)
  {
    hide CallOk, Content, ConsistentResearch, CommonFor, Landed, Keeps, Merge, Beside, OkResult, ResearchOf;
    CallKey(cfg, disk, used, asked, s, view);
    var r := p.research;
    assert t == Researched(s, view, r) && ConsistentResearch(r) && r.common == request.common && r.view == view;
    ResearchedContent(cfg, disk, more, asked, s, view, request, r, t);
    ResearchedRefers(s, view, r);
    hide Researched;
    CallRuns(cfg, disk, used, asked, s);
    Lands(cfg, disk, more, used, now, asked, s, t);
  }

  lemma {:induction false} CallRuns(cfg: Config, disk: Disk, used: set<Key>, asked: map<Key, Request>, s: State)
    requires CallOk(cfg, disk, used, asked, s)
    ensures s.lastError.None? && s.next.Go? && s.pending == Some(Mark(cfg, s, s.next.role))
  {
    hide Content, CallCounts, Bounds, Fresh, Due, Mark;
  }

  lemma {:induction false} WriteLands(cfg: Config, disk: Disk, more: Disk, used: set<Key>, now: set<Key>,
          asked: map<Key, Request>, s: State, request: Request, reply: Reply, p: Payload, t: State)
    requires request.WriteRequest? && InCall(cfg, disk, used, asked, s, Writer, request)
    requires Keeps(disk, more, used, now, s) && more.artifacts == disk.artifacts[PendingKey(s) := p]
    requires AfterWrite(cfg, s, request, reply) == Done(Effect(Some(p), t))
    ensures Landed(cfg, more, now, asked, Writer, t)
  {
    hide CallOk, Content, ConsistentReport, CommonFor, Landed, Keeps, Merge, Gathers, InputsMatch, OkResult, ResearchOf,
         ReportOf;
    CallKey(cfg, disk, used, asked, s, Writer);
    var r := p.report;
    assert t == Written(s, r);
    var order :| WriteAskedIn(cfg, s, request, order);
    WrittenContent(cfg, disk, more, asked, s, request, r, t);
    WrittenRefers(s, r);
    hide Written;
    CallRuns(cfg, disk, used, asked, s);
    Lands(cfg, disk, more, used, now, asked, s, t);
  }

  lemma {:induction false} EvaluateLands(cfg: Config, disk: Disk, more: Disk, used: set<Key>, now: set<Key>,
          asked: map<Key, Request>, s: State, request: Request, reply: Reply, p: Payload, t: State)
    requires request.EvaluateRequest? && request.report.document.Some? && InCall(cfg, disk, used, asked, s, Evaluator, request)
    requires Keeps(disk, more, used, now, s) && more.artifacts == disk.artifacts[PendingKey(s) := p]
    requires AfterEvaluate(s, request, reply) == Done(Effect(Some(p), t))
    ensures Landed(cfg, more, now, asked, Evaluator, t)
  {
    hide CallOk, Content, ConsistentEvaluation, CommonFor, Landed, Keeps, VerdictKnown, StructureSound, ReportOf;
    CallKey(cfg, disk, used, asked, s, Evaluator);
    var e := p.evaluation;
    assert t == Evaluated(s, e);
    EvaluatedContent(cfg, disk, more, asked, s, request, e, t);
    EvaluatedRefers(s, e);
    hide Evaluated;
    CallRuns(cfg, disk, used, asked, s);
    Lands(cfg, disk, more, used, now, asked, s, t);
  }

  lemma {:induction false} PublishLands(cfg: Config, disk: Disk, files: Disk, more: Disk, used: set<Key>, now: set<Key>,
          asked: map<Key, Request>, s: State, request: Request, reply: Reply, p: Payload, t: State)
    requires request.PublishRequest? && request.report.document.Some? && InCall(cfg, disk, used, asked, s, Publisher, request)
    requires more.artifacts == disk.artifacts[PendingKey(s) := p] && more.files == files.files
    requires AfterPublish(files, s, request, reply) == Done(Effect(Some(p), t))
    ensures Landed(cfg, more, now, asked, Publisher, t)
  {
    hide CallOk, Content, CommonFor, RestOk, ReportOf, EvaluationOf, Passing, Bounds;
    CallKey(cfg, disk, used, asked, s, Publisher);
    var r := p.publication;
    assert t == Published(s, r);
    assert r.files.Some? ==> Wrote(more, r.files.value, request.report.document.value.markdown);
    PublishedContent(cfg, disk, more, asked, s, request, r, t);
    PublishedRefers(s, r);
    hide Published;
    CountsKept(cfg, s, t);
  }

  lemma {:induction false} OffersWithinSteps(cfg: Config, disk: Disk, s: State)
    requires Choices(cfg, disk, s).Done? && Choices(cfg, disk, s).value.Offer?
    ensures s.steps < cfg.limits.supervisorSteps
  {
    hide AfterVerdict;
  }

  lemma {:induction false} StopRefers(s: State, d: Decision)
    requires d.action.Stop?
    ensures var t := Decided(s, d);
            SameContent(s, t) && t.attempts == s.attempts && t.steps == s.steps + 1
            && !t.status.Running? && !t.status.Completed? && t.next.Stop?
  {
    hide CutAll, Cut, Attempts;
  }

  lemma {:induction false} StepBounds(cfg: Config, s: State, t: State)
    requires Bounds(cfg, s) && CallCounts(s, Supervisor) && s.steps < cfg.limits.supervisorSteps
    requires t.attempts == s.attempts && t.steps == s.steps + 1
    ensures Bounds(cfg, t)
  {
    assert forall v :: Attempts(t, v) == Attempts(s, v);
    hide Attempts;
  }

  lemma {:induction false} DecideStops(cfg: Config, disk: Disk, more: Disk, used: set<Key>, now: set<Key>,
          asked: map<Key, Request>, s: State, d: Decision)
    requires CallOk(cfg, disk, used, asked, s) && s.next == Go(Supervisor) && d.action.Stop?
    requires Grows(disk, more) && s.steps < cfg.limits.supervisorSteps
    ensures Landed(cfg, more, now, asked, Supervisor, Decided(s, d))
  {
    hide Content, CallCounts, Bounds, Fresh, Due, Mark, RestOk;
    StopRefers(s, d);
    hide Decided;
    RunningContent(cfg, disk, more, asked, asked, s, Decided(s, d));
    StepBounds(cfg, s, Decided(s, d));
  }

  lemma {:induction false} DecideGoes(cfg: Config, disk: Disk, files: Disk, more: Disk, used: set<Key>, now: set<Key>,
          asked: map<Key, Request>, s: State, d: Decision, menu: Menu)
    requires CallOk(cfg, disk, used, asked, s) && s.next == Go(Supervisor) && d.action.Go?
    requires files.artifacts == disk.artifacts && Choices(cfg, files, s) == Done(menu) && Allowed(menu, d)
    requires Keeps(disk, more, used, now, s) && Grows(disk, more)
    ensures Landed(cfg, more, now, asked, Supervisor, Decided(s, d))
  {
    hide Content, CallCounts, RestCounts, Bounds, Fresh, Due, Room, Mark, Choices, VerdictOk, SameContent, Chooses,
         Keeps;
    var r := d.action.role;
    var t := Decided(s, d);
    var u := t.(pending := None);
    DecidedRefers(s, d, r);
    hide Decided;
    OffersWithinSteps(cfg, files, s);
    VerdictOnFiles(cfg, disk, files, asked, s);
    PendingAside(s, t, r);
    MenuSound(cfg, files, s, u, r, menu);
    CountsAfterChoice(cfg, s, u, r);
    StepBounds(cfg, s, t);
    RunningContent(cfg, disk, more, asked, asked, s, t);
    ContentAtRest(cfg, more, asked, t);
    GoesFresh(cfg, disk, more, used, now, s, t, r);
  }

  lemma {:induction false} VerdictOnFiles(cfg: Config, disk: Disk, files: Disk, asked: map<Key, Request>, s: State)
    requires Content(cfg, disk, asked, s) && files.artifacts == disk.artifacts
    ensures VerdictOk(cfg, files, s)
  {
    hide ResultsOk, Lineage, ReportOk, RepairOk, PublicationOk, CompletedOk, ConsistentEvaluation, VerdictKnown,
         StructureSound, CommonFor;
  }

  lemma {:induction false} PendingAside(s: State, t: State, r: Role)
    requires Chooses(s, t, r)
    ensures Chooses(s, t.(pending := None), r)
  {
  }

  lemma {:induction false} GoesFresh(cfg: Config, disk: Disk, more: Disk, used: set<Key>, now: set<Key>, s: State,
          t: State, r: Role)
    requires Chooses(s, t, r) && t.steps == s.steps + 1 && s.next == Go(Supervisor)
    requires Fresh(disk, used, s) && s.pending == Some(Mark(cfg, s, s.next.role))
    requires Keeps(disk, more, used, now, s)
    ensures Fresh(more, now, t.(pending := None))
  {
    hide Fresh, Mark;
    FreshAfter(cfg, disk, more, used, now, s, t.(pending := None));
  }

  lemma {:induction false} DecideMade(cfg: Config, disk: Disk, s: State, request: Option<Request>, reply: Reply,
          p: Payload, t: State)
    requires RequestOf(Supervisor, request)
    requires AfterDecide(cfg, disk, s, request, reply) == Done(Effect(Some(p), t))
    ensures p.DecisionPayload? && t == Decided(s, p.decision)
    ensures Choices(cfg, disk, s).Done? && Choices(cfg, disk, s).value.Offer?
    ensures Allowed(Choices(cfg, disk, s).value, p.decision)
  {
    hide Choices, CommonFor, ConsistentDecision, Decided, Stopped;
  }

  lemma {:induction false} DecideLands(cfg: Config, disk: Disk, files: Disk, more: Disk, used: set<Key>, now: set<Key>,
          asked: map<Key, Request>, s: State, request: Option<Request>, reply: Reply, p: Payload, t: State)
    requires RequestOf(Supervisor, request)
    requires CallOk(cfg, disk, used, asked, s) && s.next == Go(Supervisor)
    requires files.artifacts == disk.artifacts
    requires Keeps(disk, more, used, now, s) && more.artifacts == disk.artifacts[PendingKey(s) := p]
    requires AfterDecide(cfg, files, s, request, reply) == Done(Effect(Some(p), t))
    ensures Landed(cfg, more, now, asked, Supervisor, t)
  {
    hide CallOk, Content, CommonFor, Landed, Keeps, Choices, ConsistentDecision, AfterDecide, Decided;
    DecideMade(cfg, files, s, request, reply, p, t);
    CallKey(cfg, disk, used, asked, s, Supervisor);
    OffersWithinSteps(cfg, files, s);
    if p.decision.action.Stop? {
      DecideStops(cfg, disk, more, used, now, asked, s, p.decision);
    } else {
      DecideGoes(cfg, disk, files, more, used, now, asked, s, p.decision, Choices(cfg, files, s).value);
    }
  }
}
