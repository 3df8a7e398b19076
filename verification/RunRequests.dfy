/** Every prerequisite of every request holds whenever the Supervisor's state calls the role: building a
    request fails exactly when a note is blank. */
module RunRequests {
  import opened Schema
  import opened Texts
  import opened Contracts
  import opened RunMachine
  import opened RunInvariant
  import opened RunCalls
  import opened RunSafety

  lemma {:induction false} NotesRead(cfg: Config, disk: Disk, s: State, role: Role)
    requires ResultsOk(cfg, disk, s) && RepairOk(disk, s)
    ensures Notes(disk, s, role).Done?
  {
    hide ResultsOk, FetchResearch, AllGaps, RepairNotes;
    FetchedResearch(cfg, disk, s, role);
  }

  lemma {:induction false} EarlierAttempt(cfg: Config, disk: Disk, used: set<Key>, asked: map<Key, Request>, s: State,
          ref: Ref)
    requires CallOk(cfg, disk, used, asked, s) && s.next == Go(ref.key.role) && !ref.key.role.Supervisor?
    requires Fetch(disk, ref).Some?
    ensures ref.key.attempt < Attempts(s, ref.key.role)
  {
    hide Content, CallCounts, Bounds, Due, RequestId, Attempts;
  }

  lemma {:induction false} StoredResult(cfg: Config, disk: Disk, s: State, v: Role)
    requires ResultsOk(cfg, disk, s) && v in s.results
    ensures ResearchOf(s.results, v).Some? && Fetch(disk, s.results[v]).Some? && s.results[v].key.role == v && IsView(v)
    ensures var r := ResearchOf(s.results, v).value;
            r.common == CommonFor(cfg, v, s.results[v].key.attempt) && r.view == v && ConsistentResearch(r)
            && v in s.summaries && s.summaries[v].status == r.status
  {
    hide ConsistentResearch, CommonFor;
    assert ResultOk(cfg, disk, s, v);
  }

  lemma {:induction false} ReadyResult(cfg: Config, disk: Disk, s: State, v: Role)
    requires ResultsOk(cfg, disk, s) && Ready(s, v)
    ensures v in s.results && OkResult(s.results, v)
  {
    StoredResult(cfg, disk, s, v);
    hide ConsistentResearch, CommonFor;
  }

  lemma {:induction false} ResearchFails(cfg: Config, disk: Disk, used: set<Key>, asked: map<Key, Request>, s: State,
          view: Role)
    requires CallOk(cfg, disk, used, asked, s) && s.next == Go(view) && IsView(view)
    requires ResultsOk(cfg, disk, s) && RepairOk(disk, s) && Due(s, view)
    ensures Notes(disk, s, view).Done?
    ensures BuildResearch(cfg, disk, s, view).Raised? <==> !NoBlank(Notes(disk, s, view).value)
  {
    hide CallOk, ResultsOk, RepairOk, FetchResearch, Notes, ConsistentResearch, RequestId, Attempts;
    NotesRead(cfg, disk, s, view);
    FetchedResearch(cfg, disk, s, view);
    FetchedResearch(cfg, disk, s, Research);
    if view in s.results {
      StoredResult(cfg, disk, s, view);
      EarlierAttempt(cfg, disk, used, asked, s, s.results[view]);
    }
    if view != Research {
      ReadyResult(cfg, disk, s, Research);
      StoredResult(cfg, disk, s, Research);
    }
  }

  lemma {:induction false} ResultsRead(cfg: Config, disk: Disk, s: State, order: seq<Role>)
    requires ResultsOk(cfg, disk, s) && forall k :: 0 <= k < |order| ==> order[k] in s.results
    ensures ResultsIn(disk, s, order).Some?
  {
    hide ResultsOk, FetchResearch, ResearchOf;
    if order != [] {
      ResultsRead(cfg, disk, s, order[..|order| - 1]);
      FetchedResearch(cfg, disk, s, order[|order| - 1]);
    }
  }

  lemma {:induction false} AllViews(cfg: Config, disk: Disk, s: State)
    requires ResultsOk(cfg, disk, s) && forall v :: IsView(v) ==> Ready(s, v)
    ensures s.results.Keys == ToSet(VIEWS)
  {
    hide ResultsOk, Ready;
    forall v ensures v in s.results.Keys <==> v in ToSet(VIEWS) {
      assert v in VIEWS <==> IsView(v);
      if v in s.results { StoredResult(cfg, disk, s, v); }
      if IsView(v) { ReadyResult(cfg, disk, s, v); }
    }
  }

  lemma {:induction false} WriteInput(cfg: Config, disk: Disk, s: State, v: Role, common: Common)
    requires ResultsOk(cfg, disk, s) && IsView(v) && Ready(s, v) && SameRun(common, CommonFor(cfg, v, 0))
    ensures v in s.results && OkResult(s.results, v) && WriteInputFits(common, v, ResearchOf(s.results, v).value)
  {
    hide ResultsOk, ConsistentResearch, RequestId;
    ReadyResult(cfg, disk, s, v);
    StoredResult(cfg, disk, s, v);
  }

  lemma {:induction false} WriteInputsFit(cfg: Config, disk: Disk, s: State, order: seq<Role>, common: Common)
    requires ResultsOk(cfg, disk, s) && Enumerates(order, s.results.Keys) && Due(s, Writer)
    requires SameRun(common, CommonFor(cfg, Writer, 0))
    ensures ToSet(order) == ToSet(VIEWS)
    ensures ResultsIn(disk, s, order).Some? && |ResultsIn(disk, s, order).value| == |order|
    ensures forall k :: 0 <= k < |order| ==> WriteInputFits(common, order[k], ResultsIn(disk, s, order).value[k])
  {
    hide ResultsOk, Distinct, WriteInputFits, RequestId, Ready;
    AllViews(cfg, disk, s);
    assert forall k :: 0 <= k < |order| ==> order[k] in ToSet(order);
    ResultsRead(cfg, disk, s, order);
    var rs := ResultsIn(disk, s, order).value;
    FetchedResults(cfg, disk, s, order, rs);
    forall k | 0 <= k < |order| ensures WriteInputFits(common, order[k], rs[k]) {
      StoredResult(cfg, disk, s, order[k]);
      WriteInput(cfg, disk, s, order[k], common);
    }
  }

  lemma {:induction false} StoredReport(cfg: Config, disk: Disk, s: State)
    requires ReportOk(cfg, disk, s) && s.report.Some?
    ensures ReportOf(s.report).Some? && Fetch(disk, s.report.value).Some? && s.report.value.key.role == Writer
    ensures var r := ReportOf(s.report).value;
            r.common == CommonFor(cfg, Writer, s.report.value.key.attempt) && ConsistentReport(r)
            && (s.status.Running? ==> r.document.Some?)
  {
    hide ConsistentReport, CommonFor, Current;
  }

  lemma {:induction false} WriteFails(cfg: Config, disk: Disk, used: set<Key>, asked: map<Key, Request>, s: State,
          order: seq<Role>)
    requires CallOk(cfg, disk, used, asked, s) && s.next == Go(Writer) && Enumerates(order, s.results.Keys)
    requires ResultsOk(cfg, disk, s) && RepairOk(disk, s) && ReportOk(cfg, disk, s) && Due(s, Writer)
    ensures Notes(disk, s, Writer).Done?
    ensures BuildWrite(cfg, disk, s, order).Raised? <==> !NoBlank(Notes(disk, s, Writer).value)
  {
    hide CallOk, ResultsOk, RepairOk, ReportOk, FetchReport, Notes, ConsistentReport, RequestId, Attempts,
         WriteInputFits, ResultsIn, Enumerates, Ready, ReportOf;
    NotesRead(cfg, disk, s, Writer);
    FetchedReport(cfg, disk, s);
    WriteInputsFit(cfg, disk, s, order, CommonFor(cfg, Writer, Attempts(s, Writer)));
    if s.report.Some? {
      StoredReport(cfg, disk, s);
      EarlierAttempt(cfg, disk, used, asked, s, s.report.value);
    }
  }

  lemma {:induction false} EvaluateNeverFails(cfg: Config, disk: Disk, s: State)
    requires ReportOk(cfg, disk, s) && Due(s, Evaluator) && s.status.Running?
    ensures BuildEvaluate(cfg, disk, s).Done?
  {
    hide ReportOk, FetchReport, ReportOf, ConsistentReport, RequestId, Attempts;
    StoredReport(cfg, disk, s);
    FetchedReport(cfg, disk, s);
  }

  lemma {:induction false} JudgedReport(cfg: Config, disk: Disk, s: State)
    requires VerdictOk(cfg, disk, s) && s.evaluation.Some?
    ensures EvaluationOf(s.evaluation).Some? && s.report.Some? && DocumentOf(s.report).Some?
    ensures var e, r := EvaluationOf(s.evaluation).value, ReportOf(s.report).value;
            e.common == CommonFor(cfg, Evaluator, s.evaluation.value.key.attempt) && ConsistentEvaluation(e)
            && e.reportRequestId == r.common.requestId
  {
    hide ConsistentEvaluation, CommonFor, VerdictKnown, StructureSound;
  }

  lemma {:induction false} PublishNeverFails(cfg: Config, disk: Disk, s: State)
    requires ReportOk(cfg, disk, s) && VerdictOk(cfg, disk, s) && Due(s, Publisher)
    ensures BuildPublish(cfg, disk, s).Done?
  {
    hide ReportOk, VerdictOk, FetchReport, FetchEvaluation, ConsistentReport, ConsistentEvaluation, RequestId, Attempts;
    JudgedReport(cfg, disk, s);
    StoredReport(cfg, disk, s);
    FetchedReport(cfg, disk, s);
    FetchedEvaluation(cfg, disk, s);
  }

  lemma {:induction false} DecideNeverFails(cfg: Config, disk: Disk, s: State)
    requires ResultsOk(cfg, disk, s) && VerdictOk(cfg, disk, s)
    ensures BuildDecide(cfg, disk, s).Done?
  {
    hide ResultsOk, AfterVerdict, CommonFor, FetchResearch, ResearchOf, ConsistentEvaluation, VerdictKnown,
         StructureSound;
    forall v | v in s.results.Keys ensures FetchResearch(disk, s, v).Some? {
      FetchedResearch(cfg, disk, s, v);
    }
    if s.evaluation.Some? { FetchedEvaluation(cfg, disk, s); }
  }

  /** A role that takes notes, and has a blank one. */
  predicate BlankNote(disk: Disk, s: State, role: Role) {
    (IsView(role) || role.Writer?) && Notes(disk, s, role).Done? && !NoBlank(Notes(disk, s, role).value)
  }

  lemma {:induction false} CallFails(cfg: Config, disk: Disk, used: set<Key>, asked: map<Key, Request>, s: State,
          role: Role, order: seq<Role>)
    requires CallOk(cfg, disk, used, asked, s) && s.next == Go(role) && Enumerates(order, s.results.Keys)
    ensures Build(cfg, disk, s, role, order).Raised? <==> BlankNote(disk, s, role)
  {
    hide CallOk, ResultsOk, RepairOk, ReportOk, VerdictOk, Lineage, PublicationOk, CompletedOk, Enumerates, NoBlank,
         Notes, BuildWrite, BuildResearch, BuildDecide, BuildEvaluate, BuildPublish, Due;
    CallRole(cfg, disk, used, asked, s);
    CallDue(cfg, disk, used, asked, s);
    match role
    case Supervisor => DecideNeverFails(cfg, disk, s);
    case Writer => WriteFails(cfg, disk, used, asked, s, order);
    case Evaluator => EvaluateNeverFails(cfg, disk, s);
    case Publisher => PublishNeverFails(cfg, disk, s);
    case _ => ResearchFails(cfg, disk, used, asked, s, role);
  }

  lemma {:induction false} CallDue(cfg: Config, disk: Disk, used: set<Key>, asked: map<Key, Request>, s: State)
    requires CallOk(cfg, disk, used, asked, s)
    ensures s.next.Go? && Due(s, s.next.role)
  {
    hide Content, CallCounts, Bounds, Due, Fresh, Mark;
  }

  /** In every reachable call, for every order of the results, building the request fails if and only if
      the role takes notes and one of them is blank. */
  lemma {:induction false} OnlyBlankNotesFail(cfg: Config, es: seq<Event>, order: seq<Role>)
    requires var m := Steps(cfg, EMPTY, es);
             m.proc.Calling? && m.proc.state.pending.Some? && Enumerates(order, m.proc.state.results.Keys)
    ensures var m := Steps(cfg, EMPTY, es);
            var role := m.proc.state.pending.value.role;
            Build(cfg, m.disk, m.proc.state, role, order).Raised? <==> BlankNote(m.disk, m.proc.state, role)
  {
    Reachable(cfg, es);
    var m := Steps(cfg, EMPTY, es);
    hide Steps, Build, BlankNote, Enumerates;
    CallingState(cfg, m);
    CallFails(cfg, m.disk, ToSet(m.trace), m.asked, m.proc.state, m.proc.state.next.role, order);
  }

  lemma {:induction false} CallingState(cfg: Config, m: Machine)
    requires Inv(cfg, m) && m.proc.Calling?
    ensures CallOk(cfg, m.disk, ToSet(m.trace), m.asked, m.proc.state)
    ensures m.proc.state.next.Go? && m.proc.state.pending.Some? && m.proc.state.pending.value.role == m.proc.state.next.role
  {
    hide CallOk, Distinct;
    CallRole(cfg, m.disk, ToSet(m.trace), m.asked, m.proc.state);
  }

  // ---------- A run that meets one ----------

  /** Five hundred spaces and a word: a sound note, and blank once it is cut to five hundred characters. */
  function LongNote(): string { seq(500, k requires 0 <= k < 500 => ' ') + "x" }

  lemma {:induction false} LongNoteCut()
    ensures !Blank(LongNote()) && Blank(Cut(LongNote(), 500))
  {
    assert LongNote()[500] == 'x';
    assert forall k :: 0 <= k < 500 ==> LongNote()[..500][k] == ' ';
  }

  function FirstDecision(cfg: Config): Decision {
    Decision(CommonFor(cfg, Supervisor, 1), Go(Research), false, "x", [LongNote()])
  }

  lemma {:induction false} StepsSnoc(cfg: Config, m: Machine, es: seq<Event>, e: Event)
    ensures Steps(cfg, m, es + [e]) == Step(cfg, Steps(cfg, m, es), e)
  {
    assert (es + [e])[..|es|] == es;
  }

  function FirstRequest(cfg: Config): Request { DecideRequest(CommonFor(cfg, Supervisor, 1), [Research]) }

  lemma {:induction false} FirstMenu(cfg: Config, disk: Disk)
    ensures Choices(cfg, disk, Entered(cfg, Initial(cfg), Supervisor)) == Done(Offer(Research, []))
    ensures BuildDecide(cfg, disk, Entered(cfg, Initial(cfg), Supervisor)) == Done(Some(FirstRequest(cfg)))
  {
    hide RequestId;
    assert Targets(Entered(cfg, Initial(cfg), Supervisor)) == [Research];
    assert FirstRequest(cfg).allowed == [Research] + [];
  }

  function FirstCall(cfg: Config): State { Entered(cfg, Initial(cfg), Supervisor) }

  /** The new run, up to its first request: the menu holds the research alone. */
  lemma {:induction false} FirstBegun(cfg: Config)
    ensures var m := Step(cfg, Step(cfg, EMPTY, Start), Begin);
            m.disk == Save(EMPTY.disk, FirstCall(cfg)) && m.proc == Calling(FirstCall(cfg))
  {
    hide RequestId, BuildDecide;
  }

  lemma {:induction false} FirstDispatched(cfg: Config, m: Machine)
    requires m.disk == Save(EMPTY.disk, FirstCall(cfg)) && m.proc == Calling(FirstCall(cfg))
    ensures var after := Step(cfg, m, Dispatch([]));
            after.disk == m.disk && after.proc == Awaiting(FirstCall(cfg), FirstRequest(cfg))
  {
    hide RequestId, BuildDecide, FirstRequest;
    FirstMenu(cfg, m.disk);
    assert ToSet<Role>([]) == {};
  }

  /** The decision is accepted, and its note is told to the role cut short. */
  lemma {:induction false} FirstDecided(cfg: Config)
    ensures var s := FirstCall(cfg);
            var done := Perform(cfg, Save(EMPTY.disk, s), s, Some(FirstRequest(cfg)), Returns(DecisionPayload(FirstDecision(cfg))));
            done.Done? && done.value.1 == Decided(s, FirstDecision(cfg))
  {
    hide RequestId, Choices;
    LongNoteCut();
    hide LongNote;
    FirstMenu(cfg, Save(EMPTY.disk, FirstCall(cfg)));
  }

  function BlankRun(cfg: Config): seq<Event> {
    [Start, Begin, Dispatch([]), Complete(Returns(DecisionPayload(FirstDecision(cfg))), map[]), Begin]
  }

  lemma {:induction false} FirstCompleted(cfg: Config, m: Machine)
    requires m.disk == Save(EMPTY.disk, FirstCall(cfg)) && m.proc == Awaiting(FirstCall(cfg), FirstRequest(cfg))
    ensures var after := Step(cfg, m, Complete(Returns(DecisionPayload(FirstDecision(cfg))), map[]));
            after.proc == Between(Decided(FirstCall(cfg), FirstDecision(cfg)).(pending := None), Go(Research))
  {
    hide RequestId, Perform, LongNote, Cut, CutAll;
    FirstDecided(cfg);
    assert WithFiles(m.disk, map[]) == m.disk;
  }

  lemma {:induction false} SecondBegun(cfg: Config, m: Machine)
    requires m.proc == Between(Decided(FirstCall(cfg), FirstDecision(cfg)).(pending := None), Go(Research))
    ensures var after := Step(cfg, m, Begin);
            && after.proc.Calling? && after.proc.state.pending.Some? && after.proc.state.pending.value.role == Research
            && after.proc.state.feedback == map[Research := [Cut(LongNote(), 500)]]
            && after.proc.state.results == map[] && after.proc.state.repairSource.None?
  {
    hide RequestId, LongNote, Cut;
    assert CutAll([LongNote()], 8, 500) == [Cut(LongNote(), 500)];
  }

  lemma {:induction false} FiveSteps(cfg: Config, m: Machine, a: Event, b: Event, c: Event, d: Event, e: Event)
    ensures Steps(cfg, m, [a, b, c, d, e])
         == Step(cfg, Step(cfg, Step(cfg, Step(cfg, Step(cfg, m, a), b), c), d), e)
  {
    hide Step;
    assert [a, b, c, d, e] == [a, b, c, d] + [e] && [a, b, c, d] == [a, b, c] + [d];
    assert [a, b, c] == [a, b] + [c] && [a, b] == [a] + [b] && [a] == [] + [a];
    StepsSnoc(cfg, m, [], a);
    StepsSnoc(cfg, m, [a], b);
    StepsSnoc(cfg, m, [a, b], c);
    StepsSnoc(cfg, m, [a, b, c], d);
    StepsSnoc(cfg, m, [a, b, c, d], e);
  }

  lemma {:induction false} FirstCalled(cfg: Config)
    ensures var m := Steps(cfg, EMPTY, BlankRun(cfg));
            && m.proc.Calling? && m.proc.state.pending.Some? && m.proc.state.pending.value.role == Research
            && m.proc.state.feedback == map[Research := [Cut(LongNote(), 500)]]
            && m.proc.state.results == map[] && m.proc.state.repairSource.None?
  {
    hide Step, FirstDecision, LongNote, Cut, Steps, FirstCall, FirstRequest;
    var complete := Complete(Returns(DecisionPayload(FirstDecision(cfg))), map[]);
    FiveSteps(cfg, EMPTY, Start, Begin, Dispatch([]), complete, Begin);
    var asked := Step(cfg, Step(cfg, EMPTY, Start), Begin);
    FirstBegun(cfg);
    FirstDispatched(cfg, asked);
    FirstCompleted(cfg, Step(cfg, asked, Dispatch([])));
    SecondBegun(cfg, Step(cfg, Step(cfg, asked, Dispatch([])), complete));
  }

  /** With any limits there is a run that meets a blank note: the Supervisor's very first decision tells a
      sound note whose first five hundred characters are blank, and the request for the research fails. */
  lemma {:induction false} BlankNoteReached(cfg: Config)
    ensures var m := Steps(cfg, EMPTY, BlankRun(cfg));
            && m.proc.Calling? && m.proc.state.pending.Some? && m.proc.state.pending.value.role == Research
            && BlankNote(m.disk, m.proc.state, Research)
            && Build(cfg, m.disk, m.proc.state, Research, []).Raised?
  {
    FirstCalled(cfg);
    LongNoteCut();
    hide Steps, LongNote;
    var s := Steps(cfg, EMPTY, BlankRun(cfg)).proc.state;
    var note := s.feedback[Research][0];
    assert Unique([note]) == [note];
    assert s.feedback[Research] + [] == [note];
    assert !NoBlank([note]) by { assert Blank([note][0]); }
  }

  /** A rewrite's previous report was computed from the very results it is rewritten from. */
  lemma {:induction false} RewriteSeesSameResults(cfg: Config, es: seq<Event>)
    requires var m := Steps(cfg, EMPTY, es);
             m.proc.Awaiting? && m.proc.request.WriteRequest? && m.proc.request.previousReport.Some?
    ensures var m := Steps(cfg, EMPTY, es);
            var results := m.proc.state.results;
            && (exists order :: Enumerates(order, results.Keys) && Gathers(results, order, m.proc.request.results))
            && Current(cfg.names, results, m.proc.request.previousReport.value)
  {
    Reachable(cfg, es);
    var m := Steps(cfg, EMPTY, es);
    hide Steps;
    AwaitedCall(cfg, m);
    RewriteCurrent(cfg, m.disk, ToSet(m.trace[..|m.trace| - 1]), m.asked, m.proc.state, m.proc.request);
  }

  lemma {:induction false} RewriteCurrent(cfg: Config, disk: Disk, used: set<Key>, asked: map<Key, Request>, s: State,
          request: Request)
    requires s.next.Go? && InCall(cfg, disk, used, asked, s, s.next.role, request)
    requires request.WriteRequest? && request.previousReport.Some?
    ensures exists order :: Enumerates(order, s.results.Keys) && Gathers(s.results, order, request.results)
    ensures Current(cfg.names, s.results, request.previousReport.value)
  {
    hide CallOk, Current, CommonFor, Gathers, Enumerates, OkResult;
    InCallOk(cfg, disk, used, asked, s, s.next.role, request);
    CallRole(cfg, disk, used, asked, s);
    ReportCurrent(cfg, disk, asked, s);
    assert s.next.role.Writer?;
    var order :| WriteAskedIn(cfg, s, request, order);
  }

  lemma {:induction false} ReportCurrent(cfg: Config, disk: Disk, asked: map<Key, Request>, s: State)
    requires Content(cfg, disk, asked, s) && s.status.Running?
    ensures ReportOf(s.report).Some? ==> Current(cfg.names, s.results, ReportOf(s.report).value)
  {
    hide ResultsOk, Lineage, VerdictOk, RepairOk, PublicationOk, CompletedOk, Current, ConsistentReport, CommonFor;
  }
}
