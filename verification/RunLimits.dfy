/** How many calls and how many node executions a run can make. */
module RunLimits {
  import opened Schema
  import opened Contracts
  import opened RunMachine
  import opened RunInvariant
  import opened RunRoles
  import opened RunSafety
  import opened RunTheorems

  /** The dispatches that are not the Supervisor's own question. */
  function Paid(trace: seq<Key>): nat {
    if trace == [] then 0
    else Paid(trace[..|trace| - 1]) + (if trace[|trace| - 1].role.Supervisor? then 0 else 1)
  }

  lemma {:induction false} PaidPush(trace: seq<Key>, k: Key)
    ensures Paid(trace + [k]) == Paid(trace) + (if k.role.Supervisor? then 0 else 1)
  {
    assert (trace + [k])[..|trace|] == trace;
  }

  function Extra(s: State): nat {
    if s.pending.Some? && s.pending.value.role.Supervisor? then 1 else 0
  }

  /** Every dispatch was counted before it was made, and so was every node execution of the process. */
  ghost predicate Tally(m: Machine) {
    match m.proc
    case Dead =>
      if m.disk.snapshot.None? then m.trace == [] && m.nodes == 0
      else
        var s := m.disk.snapshot.value;
        Paid(m.trace) <= Calls(s) && m.nodes <= s.steps + Calls(s) + 1
    case Between(s, at) =>
      && Paid(m.trace) <= Calls(s) && m.disk.snapshot == Some(s)
      && m.nodes <= s.steps + Calls(s) + (if at.Stop? then 1 else 0)
    case Calling(s) =>
      && s.pending.Some? && Paid(m.trace) + 1 - Extra(s) <= Calls(s) && m.disk.snapshot == Some(s)
      && m.nodes <= s.steps + Calls(s) + Extra(s)
    case Awaiting(s, _) =>
      && s.pending.Some? && Paid(m.trace) <= Calls(s) && m.disk.snapshot == Some(s)
      && m.nodes <= s.steps + Calls(s) + Extra(s)
  }

  lemma {:induction false} EnteredCalls(cfg: Config, b: State, role: Role)
    ensures Calls(Entered(cfg, b, role)) == Calls(b) + (if role.Supervisor? then 0 else 1)
    ensures Entered(cfg, b, role).steps == b.steps && Entered(cfg, b, role).pending.Some?
    ensures Entered(cfg, b, role).pending.value.role == role
  {
    hide RequestId, Attempts;
    var s := Entered(cfg, b, role);
    assert s.steps == b.steps && s.pending.Some? && s.pending.value.role == role;
    hide Entered;
    forall v ensures Attempts(s, v) == Attempts(b, v) + (if v == role && !role.Supervisor? then 1 else 0) {
      EnteredAttempts(cfg, b, role, v);
    }
  }

  lemma {:induction false} BeginTallies(cfg: Config, m: Machine)
    requires Tally(m) && m.proc.Between?
    ensures Tally(Begun(cfg, m))
  {
    var s := m.proc.state;
    if m.proc.at.Go? {
      EnteredCalls(cfg, s, m.proc.at.role);
    }
    CountsKept(cfg, s, s.(next := Stop));
    hide Calls, Paid, Entered;
  }

  /** What the counts are after a role's effect. */
  ghost predicate Counted(s: State, role: Role, t: State) {
    && t.attempts == s.attempts
    && (t.steps == s.steps || t.steps == s.steps + 1)
    && (role.Supervisor? && !t.next.Stop? ==> t.steps == s.steps + 1)
  }

  lemma {:induction false} DecidedCounts(s: State, d: Decision)
    ensures Counted(s, Supervisor, Decided(s, d))
  {
    hide CutAll, Cut, Attempts;
  }

  lemma {:induction false} DecideCounts(cfg: Config, disk: Disk, s: State, request: Option<Request>, reply: Reply)
    requires RequestOf(Supervisor, request)
    ensures var effect := AfterDecide(cfg, disk, s, request, reply);
            effect.Done? ==> Counted(s, Supervisor, effect.value.state)
  {
    hide Choices, ConsistentDecision, CommonFor, Allowed, Decided, Stopped;
    forall d { DecidedCounts(s, d); }
    forall code { StoppedReferences(s, code); }
  }

  lemma {:induction false} ViewCounts(disk: Disk, s: State, view: Role, request: Request, reply: Reply)
    ensures var effect := AfterResearch(disk, s, view, request, reply);
            effect.Done? && IsView(view) ==> Counted(s, view, effect.value.state)
  {
    hide ConsistentResearch, Beside, Merge, Researched;
    if reply.Returns? && reply.payload.ResearchPayload? { ResearchedRefers(s, view, reply.payload.research); }
  }

  lemma {:induction false} WriteCounts(cfg: Config, s: State, request: Request, reply: Reply)
    requires request.WriteRequest?
    ensures var effect := AfterWrite(cfg, s, request, reply);
            effect.Done? ==> Counted(s, Writer, effect.value.state)
  {
    hide ConsistentReport, InputsMatch, Merge, Written;
    if reply.Returns? && reply.payload.ReportPayload? { WrittenRefers(s, reply.payload.report); }
  }

  lemma {:induction false} EvaluateCounts(s: State, request: Request, reply: Reply)
    requires request.EvaluateRequest? && request.report.document.Some?
    ensures var effect := AfterEvaluate(s, request, reply);
            effect.Done? ==> Counted(s, Evaluator, effect.value.state)
  {
    hide ConsistentEvaluation, VerdictKnown, StructureSound, Evaluated;
    if reply.Returns? && reply.payload.EvaluationPayload? { EvaluatedRefers(s, reply.payload.evaluation); }
  }

  lemma {:induction false} PublishCounts(disk: Disk, s: State, request: Request, reply: Reply)
    requires request.PublishRequest? && request.report.document.Some?
    ensures var effect := AfterPublish(disk, s, request, reply);
            effect.Done? ==> Counted(s, Publisher, effect.value.state)
  {
    hide ConsistentPublication, Verifies, Published;
    if reply.Returns? && reply.payload.PublishPayload? { PublishedRefers(s, reply.payload.publication); }
  }

  lemma {:induction false} EffectCounts(cfg: Config, disk: Disk, s: State, role: Role, request: Option<Request>,
          reply: Reply)
    requires RequestOf(role, request)
    ensures var effect := After(cfg, disk, s, role, request, reply);
            effect.Done? ==> Counted(s, role, effect.value.state)
  {
    hide AfterDecide, AfterWrite, AfterEvaluate, AfterPublish, AfterResearch, Counted;
    match role
    case Supervisor => DecideCounts(cfg, disk, s, request, reply);
    case Writer => WriteCounts(cfg, s, request.value, reply);
    case Evaluator => EvaluateCounts(s, request.value, reply);
    case Publisher => PublishCounts(disk, s, request.value, reply);
    case _ => ViewCounts(disk, s, role, request.value, reply);
  }

  lemma {:induction false} PerformCounts(cfg: Config, disk: Disk, s: State, request: Option<Request>, reply: Reply)
    requires s.pending.Some? && RequestOf(s.pending.value.role, request)
    ensures var done := Perform(cfg, disk, s, request, reply);
            done.Done? ==> Counted(s, s.pending.value.role, done.value.1)
  {
    hide After, Counted;
    EffectCounts(cfg, disk, s, s.pending.value.role, request, reply);
  }

  lemma {:induction false} FinishTallies(m: Machine, s: State, done: Outcome<(Disk, State)>)
    requires s.pending.Some? && Paid(m.trace) <= Calls(s) && m.nodes <= s.steps + Calls(s) + Extra(s)
    requires done.Done? ==> Counted(s, s.pending.value.role, done.value.1)
    ensures Tally(Finished(m, s, done))
  {
    hide Paid, Attempts;
    var t := if done.Raised? then Stopped(s, Fault(done.code)) else done.value.1;
    var next := Settled(s, done);
    assert t.attempts == s.attempts && next.steps == t.steps && next.next == t.next && next.attempts == s.attempts;
    CallsSame(s, next);
    hide Calls;
  }

  lemma {:induction false} CallsSame(s: State, t: State)
    requires t.attempts == s.attempts
    ensures Calls(t) == Calls(s)
  {
    assert forall v :: Attempts(t, v) == Attempts(s, v);
    hide Attempts;
  }

  lemma {:induction false} AloneCounts(cfg: Config, m: Machine)
    requires m.proc.Calling? && m.proc.state.pending.Some? && Alone(cfg, m).Some?
    ensures var done := Alone(cfg, m).value; done.Done? ==> Counted(m.proc.state, m.proc.state.pending.value.role, done.value.1)
  {
    hide Build, Perform, Filter, Counted;
    if m.proc.state.pending.value.role.Supervisor? {
      PerformCounts(cfg, m.disk, m.proc.state, None, Throws(InvalidResponse));
    }
  }

  lemma {:induction false} DispatchTallies(cfg: Config, m: Machine, order: seq<Role>)
    requires Tally(m) && m.proc.Calling? && m.proc.state.pending.Some?
    ensures Tally(Dispatched(cfg, m, order))
  {
    PaidPush(m.trace, PendingKey(m.proc.state));
    hide Build, Enumerates, Paid, Calls;
  }

  lemma {:induction false} CompleteTallies(cfg: Config, m: Machine, reply: Reply, files: map<string, string>)
    requires Tally(m)
    ensures Tally(Step(cfg, m, Complete(reply, files)))
  {
    hide Finished, Alone, Perform, RequestOf, Paid, Calls, Counted;
    if m.proc.Calling? && m.proc.state.pending.Some? {
      if Alone(cfg, m).Some? {
        AloneCounts(cfg, m);
        FinishTallies(m, m.proc.state, Alone(cfg, m).value);
      }
    } else if CanAnswer(m) {
      PerformCounts(cfg, WithFiles(m.disk, files), m.proc.state, Some(m.proc.request), reply);
      FinishTallies(m.(disk := WithFiles(m.disk, files)), m.proc.state, Answered(cfg, m, reply, files));
    }
  }

  lemma {:induction false} LoseTallies(cfg: Config, m: Machine, reply: Reply, files: map<string, string>)
    requires Tally(m)
    ensures Tally(Step(cfg, m, Lose(reply, files)))
  {
    hide Alone, Perform, RequestOf, Paid, Calls, Answered;
    if m.proc.Calling? && m.proc.state.pending.Some? {
      if Alone(cfg, m).Some? { AloneKeepsSnapshot(cfg, m); }
    } else if CanAnswer(m) {
      LostDiskGrows(cfg, m, reply, files);
    }
  }

  lemma {:induction false} RestartTallies(cfg: Config, m: Machine, e: Event)
    requires Tally(m) && (e.Start? || e.Resume? || e.Pause? || e.Crash?)
    ensures Tally(Step(cfg, m, e))
  {
    hide Loads, Paid, Attempts;
    if e.Resume? && m.disk.snapshot.Some? {
      CallsSame(m.disk.snapshot.value, Stopped(m.disk.snapshot.value, Fault(UncertainRequest)));
    }
    hide Calls;
    assert Paid([]) == 0 by { NothingPaid(); }
  }

  lemma {:induction false} NothingPaid()
    ensures Paid([]) == 0
  {
  }

  lemma {:induction false} StepTallies(cfg: Config, m: Machine, e: Event)
    requires Tally(m)
    ensures Tally(Step(cfg, m, e))
  {
    hide Tally, Begun, Dispatched;
    match e
    case Begin => if m.proc.Between? { BeginTallies(cfg, m); }
    case Dispatch(order) => if m.proc.Calling? && m.proc.state.pending.Some? { DispatchTallies(cfg, m, order); }
    case Complete(reply, files) => CompleteTallies(cfg, m, reply, files);
    case Lose(reply, files) => LoseTallies(cfg, m, reply, files);
    case _ => RestartTallies(cfg, m, e);
  }

  lemma {:induction false} AllTallied(cfg: Config, es: seq<Event>)
    ensures Tally(Steps(cfg, EMPTY, es))
  {
    if es != [] {
      hide Tally, Step;
      AllTallied(cfg, es[..|es| - 1]);
      StepTallies(cfg, Steps(cfg, EMPTY, es[..|es| - 1]), es[|es| - 1]);
    }
  }

  // ---------- The bounds ----------

  function MostCalls(l: LimitsData): nat { 4 * l.workerAttempts + 2 * l.writerAttempts + 1 }

  lemma {:induction false} CallsBounded(cfg: Config, s: State)
    requires Bounds(cfg, s)
    ensures Calls(s) <= MostCalls(cfg.limits)
  {
    hide Attempts;
    assert IsView(Research) && IsView(Market) && IsView(Stakeholder) && IsView(Domain);
  }

  /** Through any crashes and resumes a run dispatches at most four times the worker attempts plus twice the
      writer attempts plus one role requests, and no process executes more nodes than the graph allows. */
  lemma {:induction false} RunsAreShort(cfg: Config, es: seq<Event>)
    ensures var m := Steps(cfg, EMPTY, es);
            && Paid(m.trace) <= MostCalls(cfg.limits)
            && m.nodes <= 2 * cfg.limits.supervisorSteps + 1
  {
    Reachable(cfg, es);
    AllTallied(cfg, es);
    var m := Steps(cfg, EMPTY, es);
    hide Steps;
    if m.disk.snapshot.Some? {
      var s := m.disk.snapshot.value;
      SnapshotSaved(cfg, m);
      CallsBounded(cfg, s);
      ShortNow(cfg, m, s);
    } else {
      NothingPaid();
      NoSnapshot(cfg, m);
    }
  }

  lemma {:induction false} NoSnapshot(cfg: Config, m: Machine)
    requires Inv(cfg, m) && m.disk.snapshot.None?
    ensures m.proc.Dead?
  {
    hide SavedOk, CallOk, AwaitOk, Distinct;
  }

  lemma {:induction false} ShortNow(cfg: Config, m: Machine, s: State)
    requires Tally(m) && m.disk.snapshot == Some(s) && Bounds(cfg, s)
    ensures Paid(m.trace) <= Calls(s) && m.nodes <= 2 * cfg.limits.supervisorSteps + 1
  {
  }

  const DEFAULTS := Limits(2, 3, 24)

  /** When the steps allow more decisions than calls can be made, the step limit never decides anything;
      with the default limits there are at most 15 calls and 24 steps. */
  lemma {:induction false} StepLimitNeverReached(cfg: Config, es: seq<Event>)
    requires MostCalls(cfg.limits) < cfg.limits.supervisorSteps
    requires var m := Steps(cfg, EMPTY, es); m.proc.Calling? && m.proc.state.next == Go(Supervisor)
    ensures Steps(cfg, EMPTY, es).proc.state.steps < cfg.limits.supervisorSteps
    ensures MostCalls(DEFAULTS) == 15 < DEFAULTS.supervisorSteps
  {
    Reachable(cfg, es);
    var m := Steps(cfg, EMPTY, es);
    hide Steps;
    CallingOk(cfg, m);
    CallBelow(cfg, m.disk, ToSet(m.trace), m.asked, m.proc.state);
  }

  lemma {:induction false} CallBelow(cfg: Config, disk: Disk, used: set<Key>, asked: map<Key, Request>, s: State)
    requires CallOk(cfg, disk, used, asked, s) && s.next == Go(Supervisor)
    ensures s.steps <= MostCalls(cfg.limits)
  {
    hide Content, Fresh, Due, Mark, Calls;
    CallsBounded(cfg, s);
  }
}
