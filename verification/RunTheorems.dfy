/** What the invariant gives over whole runs: dispatch at most once, write-once artifacts, the published
    report, the requests that can be built, and how many calls a run can make. */
module RunTheorems {
  import opened Schema
  import opened Ids
  import opened Evidence
  import opened Conflicts
  import opened Contracts
  import opened RunMachine
  import opened RunInvariant
  import opened RunCalls
  import opened RunSafety

  // ---------- Dispatch at most once ----------

  lemma {:induction false} RequestIdInjective(identity: string, r: Role, a: nat, q: Role, b: nat)
    requires RequestId(identity, r, a) == RequestId(identity, q, b)
    ensures r == q && a == b
  {
    var p := (if |identity| <= 16 then identity else identity[..16]) + ['-'];
    NumberedInjective(p + RoleName(r), a, p + RoleName(q), b);
    PrefixInjective(p, RoleName(r), RoleName(q));
    RoleNameInjective(r, q);
  }

  /** Every dispatched request carries the id of its key. */
  ghost predicate Labelled(cfg: Config, m: Machine) {
    forall k :: k in m.asked ==> m.asked[k].common == CommonFor(cfg, k.role, k.attempt)
  }

  lemma {:induction false} AskedCommon(cfg: Config, s: State, role: Role, request: Request)
    requires Asked(cfg, s, role, request)
    ensures request.common == CommonFor(cfg, role, if role.Supervisor? then s.steps + 1 else Attempts(s, role))
  {
    hide CommonFor, Gathers, OkResult, ResearchOf, EvaluationOf, ReportOf, Passing, Attempts;
  }

  lemma {:induction false} DispatchLabels(cfg: Config, m: Machine, order: seq<Role>)
    requires Inv(cfg, m) && Labelled(cfg, m) && m.proc.Calling? && m.proc.state.pending.Some?
    ensures Labelled(cfg, Dispatched(cfg, m, order))
  {
    hide CallOk, Build, Enumerates, CommonFor, Asked, Distinct;
    var s := m.proc.state;
    var built := Build(cfg, m.disk, s, s.pending.value.role, order);
    if built.Done? && built.value.Some? && Enumerates(order, s.results.Keys) {
      CallRole(cfg, m.disk, ToSet(m.trace), m.asked, s);
      CallKey(cfg, m.disk, ToSet(m.trace), m.asked, s, s.next.role);
      Builds(cfg, m.disk, m.asked, s, s.next.role, order, built.value.value);
      AskedCommon(cfg, s, s.next.role, built.value.value);
    }
  }

  /** Only a dispatch changes what has been asked. */
  lemma {:induction false} AskedOnlyByDispatch(cfg: Config, m: Machine, e: Event)
    requires !e.Dispatch?
    ensures Step(cfg, m, e).asked == m.asked && Step(cfg, m, e).trace == m.trace
  {
    hide Alone, Answered, RequestOf, Loads, Entered, Settled, Stopped, Initial;
  }

  lemma {:induction false} LabelledStep(cfg: Config, m: Machine, e: Event)
    requires Inv(cfg, m) && Labelled(cfg, m)
    ensures Labelled(cfg, Step(cfg, m, e))
  {
    hide Inv, Dispatched, CommonFor;
    if e.Dispatch? {
      if m.proc.Calling? && m.proc.state.pending.Some? { DispatchLabels(cfg, m, e.order); }
    } else {
      AskedOnlyByDispatch(cfg, m, e);
    }
  }

  lemma {:induction false} AllLabelled(cfg: Config, es: seq<Event>)
    ensures Labelled(cfg, Steps(cfg, EMPTY, es))
  {
    if es != [] {
      hide Inv, Step, Labelled;
      AllLabelled(cfg, es[..|es| - 1]);
      Reachable(cfg, es[..|es| - 1]);
      LabelledStep(cfg, Steps(cfg, EMPTY, es[..|es| - 1]), es[|es| - 1]);
    }
  }

  /** Whatever happens to a run, no two dispatches carry the same request id. */
  lemma {:induction false} DispatchedOnce(cfg: Config, es: seq<Event>, i: nat, j: nat)
    requires i < j < |Steps(cfg, EMPTY, es).trace|
    ensures var m := Steps(cfg, EMPTY, es);
            && m.trace[i] in m.asked && m.trace[j] in m.asked
            && m.asked[m.trace[i]].common.requestId != m.asked[m.trace[j]].common.requestId
  {
    var m := Steps(cfg, EMPTY, es);
    Reachable(cfg, es);
    AllLabelled(cfg, es);
    TraceDistinct(cfg, m);
    hide Steps, RequestId;
    var k, l := m.trace[i], m.trace[j];
    assert k in ToSet(m.trace) && l in ToSet(m.trace);
    if RequestId(cfg.identity, k.role, k.attempt) == RequestId(cfg.identity, l.role, l.attempt) {
      RequestIdInjective(cfg.identity, k.role, k.attempt, l.role, l.attempt);
    }
  }

  lemma {:induction false} TraceDistinct(cfg: Config, m: Machine)
    requires Inv(cfg, m)
    ensures Distinct(m.trace) && m.asked.Keys == ToSet(m.trace)
  {
    hide BetweenOk, SavedOk, CallOk, AwaitOk, Distinct, ToSet;
  }

  // ---------- A crash inside a call ----------

  /** A dead process whose snapshot carries this pending mark. */
  ghost predicate Marked(m: Machine, mark: Pending) {
    m.proc.Dead? && m.disk.snapshot.Some? && m.disk.snapshot.value.pending == Some(mark)
  }

  lemma {:induction false} MarkedStep(cfg: Config, m: Machine, mark: Pending, e: Event)
    requires Marked(m, mark)
    ensures Marked(Step(cfg, m, e), mark) && Step(cfg, m, e).trace == m.trace && Step(cfg, m, e).asked == m.asked
    ensures Step(cfg, m, e).disk.artifacts == m.disk.artifacts && Step(cfg, m, e).disk.files == m.disk.files
  {
    hide Alone, Answered, RequestOf, Loads, Entered, Settled, Initial;
  }

  /** After a crash inside a call nothing is ever dispatched or stored again, and the mark stays. */
  lemma {:induction false} MarkedForever(cfg: Config, m: Machine, mark: Pending, es: seq<Event>)
    requires Marked(m, mark)
    ensures var n := Steps(cfg, m, es);
            Marked(n, mark) && n.trace == m.trace && n.asked == m.asked
            && n.disk.artifacts == m.disk.artifacts && n.disk.files == m.disk.files
  {
    if es != [] {
      hide Marked, Step;
      MarkedForever(cfg, m, mark, es[..|es| - 1]);
      MarkedStep(cfg, Steps(cfg, m, es[..|es| - 1]), mark, es[|es| - 1]);
    }
  }

  /** Losing the process of a saved call only empties the process; the snapshot is not written. */
  lemma {:induction false} LossKeepsMark(cfg: Config, m: Machine, e: Event)
    requires m.proc.Awaiting? && m.disk.snapshot == Some(m.proc.state) && m.proc.state.pending.Some?
    requires e.Crash? || (e.Lose? && CanAnswer(m))
    ensures Marked(Step(cfg, m, e), m.proc.state.pending.value)
  {
    hide Answered, RequestOf, CanAnswer, PendingKey, Grows;
    if e.Lose? { LostDiskGrows(cfg, m, e.reply, e.files); }
  }

  lemma {:induction false} CrashMarks(cfg: Config, m: Machine, e: Event)
    requires Inv(cfg, m) && m.proc.Awaiting? && (e.Crash? || (e.Lose? && CanAnswer(m)))
    ensures m.proc.state.pending.Some? && Marked(Step(cfg, m, e), m.proc.state.pending.value)
    ensures m.trace != [] && m.trace[|m.trace| - 1] == PendingKey(m.proc.state) && Step(cfg, m, e).trace == m.trace
  {
    hide Inv, InCall, RequestOf, CanAnswer, PendingKey, Step, Marked, ToSet;
    AwaitedCall(cfg, m);
    AskedOnlyByDispatch(cfg, m, e);
    LastDispatched(cfg, m);
    LossKeepsMark(cfg, m, e);
  }

  lemma {:induction false} LastDispatched(cfg: Config, m: Machine)
    requires Inv(cfg, m) && m.proc.Awaiting?
    ensures m.trace != [] && m.trace[|m.trace| - 1] == PendingKey(m.proc.state)
  {
    hide CallOk, Asked, Distinct;
  }

  /** If the process is lost after a dispatch and before the completing checkpoint, then in every
      continuation that dispatch stays the last one and the snapshot stays marked with it. */
  lemma {:induction false} LostCallNeverRepeats(cfg: Config, es: seq<Event>, e: Event, later: seq<Event>)
    requires Steps(cfg, EMPTY, es).proc.Awaiting?
    requires e.Crash? || (e.Lose? && CanAnswer(Steps(cfg, EMPTY, es)))
    ensures var m, n := Steps(cfg, EMPTY, es), Steps(cfg, Step(cfg, Steps(cfg, EMPTY, es), e), later);
            && n.trace == m.trace && m.trace != []
            && n.disk.snapshot.Some? && n.disk.snapshot.value.pending.Some?
            && PendingKey(n.disk.snapshot.value) == m.trace[|m.trace| - 1]
  {
    var m := Steps(cfg, EMPTY, es);
    Reachable(cfg, es);
    CrashMarks(cfg, m, e);
    MarkedForever(cfg, Step(cfg, m, e), m.proc.state.pending.value, later);
  }

  // ---------- Write-once artifacts ----------

  /** In no run does a role find an artifact under the key it is about to write. */
  lemma {:induction false} PutIsAlwaysNew(cfg: Config, es: seq<Event>)
    ensures var m := Steps(cfg, EMPTY, es);
            && (m.proc.Calling? ==> PendingKey(m.proc.state) !in m.disk.artifacts)
            && (m.proc.Awaiting? ==> PendingKey(m.proc.state) !in m.disk.artifacts)
  {
    var m := Steps(cfg, EMPTY, es);
    Reachable(cfg, es);
    hide Steps;
    if m.proc.Calling? {
      CallingOk(cfg, m);
      KeyIsFresh(cfg, m.disk, ToSet(m.trace), m.asked, m.proc.state);
    } else if m.proc.Awaiting? {
      AwaitedCall(cfg, m);
      var used, s := ToSet(m.trace[..|m.trace| - 1]), m.proc.state;
      InCallOk(cfg, m.disk, used, m.asked, s, s.next.role, m.proc.request);
      KeyIsFresh(cfg, m.disk, used, m.asked, s);
    }
  }

  lemma {:induction false} CallingOk(cfg: Config, m: Machine)
    requires Inv(cfg, m) && m.proc.Calling?
    ensures CallOk(cfg, m.disk, ToSet(m.trace), m.asked, m.proc.state)
  {
    hide CallOk, Distinct;
  }

  // ---------- The published report ----------

  lemma {:induction false} SnapshotSaved(cfg: Config, m: Machine)
    requires Inv(cfg, m) && m.disk.snapshot.Some?
    ensures Content(cfg, m.disk, m.asked, m.disk.snapshot.value) && Bounds(cfg, m.disk.snapshot.value)
  {
    hide Content, Bounds, RestOk, Asked, Distinct, CallCounts, Due, Fresh, Mark;
    if m.proc.Awaiting? {
      CallSaved(cfg, m.disk, m.disk, ToSet(m.trace[..|m.trace| - 1]), ToSet(m.trace), m.asked, m.proc.state);
    }
  }

  /** Whenever a run is completed, its evaluation is ok, passed and about the report in the state; that report
      is sound and current: all four results are ok and its joined data is what they give; and the
      published Markdown is the evaluated report's. */
  lemma {:induction false} CompletedRun(cfg: Config, es: seq<Event>)
    requires var d := Steps(cfg, EMPTY, es).disk; d.snapshot.Some? && d.snapshot.value.status.Completed?
    ensures var d := Steps(cfg, EMPTY, es).disk;
            var s := d.snapshot.value;
            && Passing(s) && DocumentOf(s.report).Some?
            && EvaluationOf(s.evaluation).value.reportRequestId == ReportOf(s.report).value.common.requestId
            && StructureSound(ReportOf(s.report).value) && Current(cfg.names, s.results, ReportOf(s.report).value)
            && s.publication.Some? && s.publication.value.digest.PublishPayload?
            && var p := s.publication.value.digest.publication;
               p.files.Some? && p.files.value.markdown.path in d.files
               && d.files[p.files.value.markdown.path] == DocumentOf(s.report).value.markdown
  {
    Reachable(cfg, es);
    var m := Steps(cfg, EMPTY, es);
    SnapshotSaved(cfg, m);
    hide Steps, Inv;
    CompletedContent(cfg, m.disk, m.asked, m.disk.snapshot.value);
  }

  lemma {:induction false} CompletedContent(cfg: Config, disk: Disk, asked: map<Key, Request>, s: State)
    requires Content(cfg, disk, asked, s) && s.status.Completed?
    ensures Passing(s) && DocumentOf(s.report).Some?
    ensures EvaluationOf(s.evaluation).value.reportRequestId == ReportOf(s.report).value.common.requestId
    ensures StructureSound(ReportOf(s.report).value) && Current(cfg.names, s.results, ReportOf(s.report).value)
    ensures s.publication.Some? && s.publication.value.digest.PublishPayload?
    ensures var p := s.publication.value.digest.publication;
            p.files.Some? && p.files.value.markdown.path in disk.files
            && disk.files[p.files.value.markdown.path] == DocumentOf(s.report).value.markdown
  {
    hide ResultsOk, Lineage, ConsistentReport, ConsistentEvaluation, VerdictKnown, StructureSound, Current, CommonFor;
  }

  /** A completed run's report states exactly the union of the current results' assessments. */
  lemma {:induction false} CompletedAssessments(cfg: Config, es: seq<Event>)
    requires var d := Steps(cfg, EMPTY, es).disk; d.snapshot.Some? && d.snapshot.value.status.Completed?
    ensures var s := Steps(cfg, EMPTY, es).disk.snapshot.value;
            && DocumentOf(s.report).Some? && (forall v :: IsView(v) ==> OkResult(s.results, v))
            && exists order, rs :: Enumerates(order, s.results.Keys) && Gathers(s.results, order, rs)
                 && Dict(DocumentOf(s.report).value.joined.assessments) == Dict(AllAssessments(rs))
  {
    CompletedRun(cfg, es);
    var s := Steps(cfg, EMPTY, es).disk.snapshot.value;
    hide Steps, StructureSound;
    var r := ReportOf(s.report).value;
    var order, rs :| MatchesIn(cfg.names, s.results, r, order, rs);
    assert Dict(r.document.value.joined.assessments) == Dict(AllAssessments(rs)) by { MatchKeepsAssessments(cfg.names, r, rs); }
  }

  lemma {:induction false} MatchKeepsAssessments(names: Naming, r: ReportResult, rs: seq<ResearchResult>)
    requires InputsMatch(r, rs, names)
    ensures Dict(r.document.value.joined.assessments) == Dict(AllAssessments(rs))
  {
    hide SameRegistries, ExactCopies, AllCited, RecordsSound, Dict, AllAssessments, Merge;
  }

  /** Every market, stakeholder or domain result ever saved was asked for with the technical research that is
      saved beside it as context, and that research is ok. */
  lemma {:induction false} ResultsDerived(cfg: Config, es: seq<Event>, v: Role)
    requires var d := Steps(cfg, EMPTY, es).disk;
             d.snapshot.Some? && v in d.snapshot.value.results && v != Research
    ensures Derived(Steps(cfg, EMPTY, es).asked, Steps(cfg, EMPTY, es).disk.snapshot.value.results, v)
  {
    Reachable(cfg, es);
    var m := Steps(cfg, EMPTY, es);
    SnapshotSaved(cfg, m);
    hide Steps, Inv, ResultsOk, ReportOk, VerdictOk, RepairOk, PublicationOk, CompletedOk, Derived;
  }

  /** A run's own directory is never rejected: every reference of every saved snapshot resolves, and the
      snapshot belongs to the run's identity. */
  lemma {:induction false} SnapshotLoads(cfg: Config, es: seq<Event>)
    requires Steps(cfg, EMPTY, es).disk.snapshot.Some?
    ensures var d := Steps(cfg, EMPTY, es).disk; d.snapshot.value.identity == cfg.identity && Loads(d, d.snapshot.value)
  {
    Reachable(cfg, es);
    var m := Steps(cfg, EMPTY, es);
    SnapshotSaved(cfg, m);
    hide Steps, Inv;
    ContentLoads(cfg, m.disk, m.asked, m.disk.snapshot.value);
  }

  lemma {:induction false} ContentLoads(cfg: Config, disk: Disk, asked: map<Key, Request>, s: State)
    requires Content(cfg, disk, asked, s)
    ensures Loads(disk, s)
  {
    hide Lineage, CompletedOk, ConsistentResearch, ConsistentReport, ConsistentEvaluation, VerdictKnown, StructureSound,
         Current, CommonFor;
    forall v | v in s.results ensures Fetch(disk, s.results[v]).Some? {
      assert ResultOk(cfg, disk, s, v);
    }
  }
}
