/** What each role's reply makes of a run: every branch keeps the stored content, the counts and
    the prerequisites of the next role. */
module RunRoles {
  import opened Schema
  import opened Contracts
  import opened RunMachine
  import opened RunInvariant

  // ---------- The content a reply leaves behind ----------

  /** The disk gains the artifact of this call, and nothing was stored there before. */
  ghost predicate Adds(disk: Disk, more: Disk, key: Key, payload: Payload) {
    key !in disk.artifacts && more.artifacts == disk.artifacts[key := payload]
  }

  lemma {:induction false} AddsGrows(disk: Disk, more: Disk, key: Key, payload: Payload)
    requires Adds(disk, more, key, payload)
    ensures Grows(disk, more) && Fetch(more, Ref(key, payload)) == Some(payload)
  {
  }

  /** A stop changes no reference. */
  lemma {:induction false} StoppedReferences(s: State, code: StopCode)
    ensures var t := Stopped(s, code);
            SameContent(s, t) && t.attempts == s.attempts && t.steps == s.steps && t.pending == s.pending
            && !t.status.Running? && !t.status.Completed? && t.next.Stop?
  {
  }

  lemma {:induction false} ResearchedRefers(s: State, view: Role, r: ResearchResult)
    ensures var t := Researched(s, view, r);
            && t.results == Kept(s, view)[view := Ref(Key(view, Attempts(s, view)), ResearchPayload(r))]
            && t.summaries == (if view.Research? then map[] else s.summaries)[view := Summary(r.status, r.common.requestId)]
            && t.identity == s.identity && t.attempts == s.attempts && t.steps == s.steps && t.pending == s.pending
            && t.report.None? && t.evaluation.None? && t.publication.None? && t.repairSource == s.repairSource
            && (t.status.Running? ==> s.status.Running? && t.next == Go(Supervisor) && t.lastError == s.lastError)
            && (t.status.Completed? ==> s.status.Completed?)
            && (s.status.Running? && !t.status.Running? ==> t.next.Stop?)
  {
  }

  lemma {:induction false} OtherResult(cfg: Config, disk: Disk, more: Disk, s: State, t: State, v: Role)
    requires ResultOk(cfg, disk, s, v) && Grows(disk, more)
    requires v in t.results && t.results[v] == s.results[v]
    requires v in s.summaries ==> v in t.summaries && t.summaries[v] == s.summaries[v]
    ensures ResultOk(cfg, more, t, v)
  {
    hide ConsistentResearch, CommonFor;
  }

  lemma {:induction false} ResearchedResults(cfg: Config, disk: Disk, more: Disk, s: State, view: Role,
          r: ResearchResult, t: State)
    requires ResultsOk(cfg, disk, s) && IsView(view) && t == Researched(s, view, r)
    requires Adds(disk, more, Key(view, Attempts(s, view)), ResearchPayload(r))
    requires ConsistentResearch(r) && r.common == CommonFor(cfg, view, Attempts(s, view)) && r.view == view
    ensures ResultsOk(cfg, more, t)
  {
    hide ConsistentResearch, CommonFor, Researched, Attempts;
    ResearchedRefers(s, view, r);
    AddsGrows(disk, more, Key(view, Attempts(s, view)), ResearchPayload(r));
    forall v | v in t.results ensures ResultOk(cfg, more, t, v) {
      if v == view {
        assert Stored(more, view, t.results[view]);
      } else {
        OtherResult(cfg, disk, more, s, t, v);
      }
    }
  }

  /** New technical research drops every other result; any other view keeps its sources. */
  lemma {:induction false} ResearchedLineage(cfg: Config, asked: map<Key, Request>, s: State, view: Role,
          request: Request, r: ResearchResult, t: State)
    requires Lineage(asked, s.results) && IsView(view) && t == Researched(s, view, r)
    requires ResearchAsked(cfg, s, view, request)
    requires Key(view, Attempts(s, view)) in asked && asked[Key(view, Attempts(s, view))] == request
    ensures Lineage(asked, t.results)
  {
    hide CommonFor, Researched;
    ResearchedRefers(s, view, r);
    forall v | v in t.results && v != Research ensures Derived(asked, t.results, v) {
      if v != view { assert Derived(asked, s.results, v); }
    }
  }

  lemma {:induction false} ResearchedContent(cfg: Config, disk: Disk, more: Disk, asked: map<Key, Request>, s: State,
          view: Role, request: Request, r: ResearchResult, t: State)
    requires Content(cfg, disk, asked, s) && s.status.Running? && IsView(view) && t == Researched(s, view, r)
    requires ResearchAsked(cfg, s, view, request)
    requires Key(view, Attempts(s, view)) in asked && asked[Key(view, Attempts(s, view))] == request
    requires Adds(disk, more, Key(view, Attempts(s, view)), ResearchPayload(r))
    requires ConsistentResearch(r) && r.common == request.common && r.view == view
    ensures Content(cfg, more, asked, t)
  {
    hide ResultsOk, Lineage, ConsistentResearch, CommonFor, Researched, PublicationOk, CompletedOk;
    ResearchedRefers(s, view, r);
    ResearchedResults(cfg, disk, more, s, view, r, t);
    ResearchedLineage(cfg, asked, s, view, request, r, t);
    AddsGrows(disk, more, Key(view, Attempts(s, view)), ResearchPayload(r));
    NothingPublished(more, t);
    assert RepairOk(more, t);
  }

  lemma {:induction false} WrittenRefers(s: State, r: ReportResult)
    ensures var t := Written(s, r);
            && t.results == s.results && t.summaries == s.summaries && t.identity == s.identity
            && t.attempts == s.attempts && t.steps == s.steps && t.pending == s.pending
            && t.report == Some(Ref(Key(Writer, Attempts(s, Writer)), ReportPayload(r)))
            && t.evaluation.None? && t.publication.None? && t.repairSource.None?
            && (t.status.Running? ==> s.status.Running? && t.next == Go(Supervisor) && t.lastError == s.lastError
                                      && (r.document.Some? || r.error.None?))
            && (t.status.Completed? ==> s.status.Completed?)
            && (s.status.Running? && !t.status.Running? ==> t.next.Stop?)
  {
    hide Attempts;
    assert forall u, code :: !Stopped(u, code).status.Running? && !Stopped(u, code).status.Completed? && Stopped(u, code).next.Stop?;
  }

  lemma {:induction false} FailureExplained(r: ReportResult)
    requires ConsistentReport(r)
    ensures r.document.None? ==> r.error.Some?
  {
    hide Distinct, RegistrySound, RecordConsistent, EvidenceResolves;
  }

  lemma {:induction false} WrittenReport(cfg: Config, disk: Disk, more: Disk, s: State, request: Request,
          r: ReportResult, t: State)
    requires t == Written(s, r) && (exists order :: WriteAskedIn(cfg, s, request, order))
    requires Adds(disk, more, Key(Writer, Attempts(s, Writer)), ReportPayload(r))
    requires ConsistentReport(r) && r.common == request.common
    requires r.document.Some? ==> InputsMatch(r, request.results, cfg.names)
    ensures ReportOk(cfg, more, t)
  {
    hide ConsistentReport, CommonFor, Written, InputsMatch, Gathers, OkResult, Attempts;
    FailureExplained(r);
    WrittenRefers(s, r);
    AddsGrows(disk, more, Key(Writer, Attempts(s, Writer)), ReportPayload(r));
    var order :| WriteAskedIn(cfg, s, request, order);
    if r.document.Some? {
      assert MatchesIn(cfg.names, t.results, r, order, request.results);
    }
  }

  lemma {:induction false} WrittenContent(cfg: Config, disk: Disk, more: Disk, asked: map<Key, Request>, s: State,
          request: Request, r: ReportResult, t: State)
    requires Content(cfg, disk, asked, s) && s.status.Running? && t == Written(s, r)
    requires exists order :: WriteAskedIn(cfg, s, request, order)
    requires Adds(disk, more, Key(Writer, Attempts(s, Writer)), ReportPayload(r))
    requires ConsistentReport(r) && r.common == request.common
    requires r.document.Some? ==> InputsMatch(r, request.results, cfg.names)
    ensures Content(cfg, more, asked, t)
  {
    hide ResultsOk, Lineage, ConsistentReport, CommonFor, Written, ReportOk, InputsMatch, WriteAskedIn, PublicationOk,
         CompletedOk;
    WrittenRefers(s, r);
    WrittenReport(cfg, disk, more, s, request, r, t);
    AddsGrows(disk, more, Key(Writer, Attempts(s, Writer)), ReportPayload(r));
    ResultsKept(cfg, disk, more, s, t);
    NothingPublished(more, t);
  }

  lemma {:induction false} EvaluatedRefers(s: State, e: EvaluationResult)
    ensures var t, ref := Evaluated(s, e), Ref(Key(Evaluator, Attempts(s, Evaluator)), EvaluationPayload(e));
            && t.results == s.results && t.summaries == s.summaries && t.identity == s.identity
            && t.attempts == s.attempts && t.steps == s.steps && t.pending == s.pending
            && t.report == s.report && t.evaluation == Some(ref) && t.publication == s.publication
            && t.repairSource in {None, Some(ref)}
            && (t.status.Running? ==> s.status.Running? && t.next == Go(Supervisor) && t.lastError == s.lastError)
            && (t.status.Completed? ==> s.status.Completed?)
            && (s.status.Running? && !t.status.Running? ==> t.next.Stop?)
  {
    hide RepairFeedback, Attempts;
  }

  lemma {:induction false} EvaluatedReports(cfg: Config, disk: Disk, more: Disk, s: State, request: Request,
          e: EvaluationResult, t: State)
    requires ReportOk(cfg, disk, s) && t == Evaluated(s, e) && EvaluateAsked(cfg, s, request)
    requires Adds(disk, more, Key(Evaluator, Attempts(s, Evaluator)), EvaluationPayload(e))
    requires ConsistentEvaluation(e) && e.common == request.common
    requires e.reportRequestId == request.report.common.requestId
    requires VerdictKnown(e, request.report.document.value) && (e.passed ==> StructureSound(request.report))
    ensures ReportOk(cfg, more, t) && VerdictOk(cfg, more, t) && RepairOk(more, t)
  {
    hide ConsistentReport, ConsistentEvaluation, CommonFor, Evaluated, VerdictKnown, StructureSound, Current;
    EvaluatedRefers(s, e);
    AddsGrows(disk, more, Key(Evaluator, Attempts(s, Evaluator)), EvaluationPayload(e));
  }

  lemma {:induction false} EvaluatedContent(cfg: Config, disk: Disk, more: Disk, asked: map<Key, Request>, s: State,
          request: Request, e: EvaluationResult, t: State)
    requires Content(cfg, disk, asked, s) && s.status.Running? && t == Evaluated(s, e) && EvaluateAsked(cfg, s, request)
    requires Adds(disk, more, Key(Evaluator, Attempts(s, Evaluator)), EvaluationPayload(e))
    requires ConsistentEvaluation(e) && e.common == request.common
    requires e.reportRequestId == request.report.common.requestId
    requires VerdictKnown(e, request.report.document.value) && (e.passed ==> StructureSound(request.report))
    ensures Content(cfg, more, asked, t)
  {
    hide ResultsOk, Lineage, ConsistentEvaluation, CommonFor, Evaluated, ReportOk, VerdictOk, RepairOk,
         VerdictKnown, StructureSound, CompletedOk;
    EvaluatedRefers(s, e);
    EvaluatedReports(cfg, disk, more, s, request, e, t);
    AddsGrows(disk, more, Key(Evaluator, Attempts(s, Evaluator)), EvaluationPayload(e));
    ResultsKept(cfg, disk, more, s, t);
    NothingPublished(more, t);
  }

  lemma {:induction false} PublishedRefers(s: State, p: PublishResult)
    ensures var t := Published(s, p);
            && t.results == s.results && t.summaries == s.summaries && t.identity == s.identity
            && t.attempts == s.attempts && t.steps == s.steps && t.pending == s.pending
            && t.report == s.report && t.evaluation == s.evaluation && t.repairSource == s.repairSource
            && t.publication == Some(Ref(Key(Publisher, Attempts(s, Publisher)), PublishPayload(p)))
            && !t.status.Running? && t.next.Stop? && (t.status.Completed? ==> p.error.None?)
  {
    hide Stopped, Attempts;
    if p.error.Some? {
      var ref := Ref(Key(Publisher, Attempts(s, Publisher)), PublishPayload(p));
      StoppedReferences(s.(publication := Some(ref)), Fault(p.error.value));
    }
  }

  /** Both files are as referenced, and the Markdown is the given text. */
  ghost predicate Wrote(disk: Disk, p: Publication, markdown: string) {
    Verifies(disk, p.markdown) && Verifies(disk, p.pdf) && disk.files[p.markdown.path] == markdown
  }

  lemma {:induction false} PublishedOutcome(cfg: Config, disk: Disk, more: Disk, s: State, request: Request,
          p: PublishResult, t: State)
    requires t == Published(s, p) && PublishAsked(cfg, s, request)
    requires Adds(disk, more, Key(Publisher, Attempts(s, Publisher)), PublishPayload(p))
    requires ConsistentPublication(p)
    requires p.files.Some? ==> Wrote(more, p.files.value, request.report.document.value.markdown)
    ensures PublicationOk(more, t) && CompletedOk(more, t)
  {
    hide CommonFor, Published;
    PublishedRefers(s, p);
    AddsGrows(disk, more, Key(Publisher, Attempts(s, Publisher)), PublishPayload(p));
  }

  lemma {:induction false} PublishedContent(cfg: Config, disk: Disk, more: Disk, asked: map<Key, Request>, s: State,
          request: Request, p: PublishResult, t: State)
    requires Content(cfg, disk, asked, s) && s.status.Running? && t == Published(s, p) && PublishAsked(cfg, s, request)
    requires Adds(disk, more, Key(Publisher, Attempts(s, Publisher)), PublishPayload(p))
    requires ConsistentPublication(p)
    requires p.files.Some? ==> Wrote(more, p.files.value, request.report.document.value.markdown)
    ensures Content(cfg, more, asked, t)
  {
    hide ResultsOk, Lineage, CommonFor, Published, ReportOk, VerdictOk, RepairOk, PublicationOk, CompletedOk,
         ConsistentPublication, PublishAsked, Wrote;
    PublishedRefers(s, p);
    PublishedOutcome(cfg, disk, more, s, request, p, t);
    AddsGrows(disk, more, Key(Publisher, Attempts(s, Publisher)), PublishPayload(p));
    ResultsKept(cfg, disk, more, s, t);
    var u := t.(publication := s.publication, status := Incomplete);
    ReportsKept(cfg, disk, more, s, u);
    assert ReportOk(cfg, more, t) && VerdictOk(cfg, more, t) && RepairOk(more, t) by { PublicationAside(cfg, more, u, t); }
  }

  lemma {:induction false} PublicationAside(cfg: Config, disk: Disk, u: State, t: State)
    requires u.results == t.results && u.report == t.report && u.evaluation == t.evaluation
    requires u.repairSource == t.repairSource && !t.status.Running?
    ensures ReportOk(cfg, disk, u) ==> ReportOk(cfg, disk, t)
    ensures VerdictOk(cfg, disk, u) ==> VerdictOk(cfg, disk, t)
    ensures RepairOk(disk, u) ==> RepairOk(disk, t)
  {
    hide ConsistentReport, ConsistentEvaluation, Current, VerdictKnown, StructureSound, CommonFor;
  }

  // ---------- The Supervisor's choice ----------

  lemma {:induction false} TargetsSound(s: State)
    ensures forall v :: v in Targets(s) ==> IsView(v) && (v != Research ==> Ready(s, Research))
    ensures Targets(s) == [] ==> forall v :: IsView(v) ==> Ready(s, v)
  {
    hide Ready;
    assert forall v :: v in VIEWS <==> IsView(v);
  }

  /** Whatever is on offer after the verdict has its prerequisites and an attempt left. */
  lemma {:induction false} AfterVerdictSound(cfg: Config, s: State, r: Role)
    requires Offers(AfterVerdict(cfg, s), r)
    ensures r == Writer || IsView(r)
    ensures r == Writer ==> (forall v :: IsView(v) ==> Ready(s, v))
    ensures IsView(r) && r != Research ==> Ready(s, Research)
    ensures Room(cfg, s, r)
  {
    TargetsSound(s);
    var targets := Targets(s);
    hide Targets, Ready, Attempts;
    assert forall v :: v in VIEWS ==> IsView(v);
    if targets != [] {
      assert targets == [targets[0]] + targets[1..];
      assert r in targets;
    }
  }

  /** `t` is `s` with the role `r` chosen. */
  ghost predicate Chooses(s: State, t: State, r: Role) {
    && t.next == Go(r) && (r.Writer? ==> t.sufficient)
    && t.attempts == s.attempts && t.summaries == s.summaries && t.report == s.report && t.evaluation == s.evaluation
  }

  lemma {:induction false} ChosenSame(cfg: Config, s: State, t: State, r: Role)
    requires Chooses(s, t, r)
    ensures forall v :: Attempts(t, v) == Attempts(s, v) && (Ready(t, v) <==> Ready(s, v))
    ensures Passing(t) == Passing(s) && Unjudged(t) == Unjudged(s) && (Room(cfg, t, r) <==> Room(cfg, s, r))
  {
  }

  lemma {:induction false} MenuSound(cfg: Config, disk: Disk, s: State, t: State, r: Role, menu: Menu)
    requires VerdictOk(cfg, disk, s) && Chooses(s, t, r) && Choices(cfg, disk, s) == Done(menu) && Offers(menu, r)
    ensures r != Supervisor && s.steps < cfg.limits.supervisorSteps && Due(t, r) && Room(cfg, t, r)
  {
    hide ConsistentEvaluation, VerdictKnown, StructureSound, CommonFor, AfterVerdict, Ready, Attempts;
    ChosenSame(cfg, s, t, r);
    if menu == AfterVerdict(cfg, s) {
      AfterVerdictSound(cfg, s, r);
    }
  }

  lemma {:induction false} DecidedRefers(s: State, d: Decision, r: Role)
    requires d.action == Go(r) && (r.Writer? ==> d.sufficient)
    ensures var t := Decided(s, d);
            Chooses(s, t, r) && SameContent(s, t) && t.steps == s.steps + 1 && t.status == s.status
            && t.lastError == s.lastError && t.pending == s.pending
  {
    hide CutAll, Cut;
  }

  // ---------- Counts and freshness after a reply ----------

  lemma {:induction false} CountsKept(cfg: Config, s: State, t: State)
    requires t.attempts == s.attempts && t.steps == s.steps
    ensures Bounds(cfg, s) ==> Bounds(cfg, t)
    ensures Calls(t) == Calls(s) && forall v :: Attempts(t, v) == Attempts(s, v)
  {
    assert forall v :: Attempts(t, v) == Attempts(s, v);
    hide Attempts;
  }

  lemma {:induction false} CountsAfterCall(cfg: Config, s: State, t: State, role: Role)
    requires CallCounts(s, role) && role != Supervisor && role != Publisher
    requires t.attempts == s.attempts && t.steps == s.steps && t.next == Go(Supervisor)
    requires t.report.Some? && t.evaluation.None? ==> role.Writer?
    ensures RestCounts(t) && Due(t, Supervisor) && Room(cfg, t, Supervisor)
  {
    CountsKept(cfg, s, t);
    hide Attempts, Calls;
  }

  lemma {:induction false} CountsAfterChoice(cfg: Config, s: State, t: State, r: Role)
    requires CallCounts(s, Supervisor) && Bounds(cfg, s) && Chooses(s, t, r) && r != Supervisor
    requires s.steps < cfg.limits.supervisorSteps && t.steps == s.steps + 1
    ensures RestCounts(t) && Bounds(cfg, t)
  {
    ChosenSame(cfg, s, t, r);
    hide Attempts;
  }

  lemma {:induction false} FreshAfter(cfg: Config, disk: Disk, more: Disk, used: set<Key>, now: set<Key>, s: State,
          t: State)
    requires Fresh(disk, used, s) && s.next.Go? && s.pending == Some(Mark(cfg, s, s.next.role))
    requires forall k :: k in more.artifacts ==> k in disk.artifacts || k == PendingKey(s)
    requires now <= used + {PendingKey(s)}
    requires t.pending.None? && t.attempts == s.attempts
    requires t.steps == s.steps + (if s.next.role.Supervisor? then 1 else 0)
    ensures Fresh(more, now, t)
  {
    hide RequestId;
    forall v ensures Used(t, v) >= Used(s, v) {}
  }
}
