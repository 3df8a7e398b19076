/** The pending mark tells a reader of the snapshot what it needs to know: a run that needs attention always names the
    call whose outcome is unknown, and a run at rest carries no other mark (`node` and `run` in
    agents/supervisor.py). */
module RunMarks {
  import opened Schema
  import opened Contracts
  import opened RunMachine
  import opened RunInvariant
  import opened RunSafety

  // ---------- A role's work does not touch the mark ----------

  lemma {:induction false} DecideKeepsMark(cfg: Config, disk: Disk, s: State, request: Option<Request>, reply: Reply)
    ensures var e := AfterDecide(cfg, disk, s, request, reply); e.Done? ==> e.value.state.pending == s.pending
  {
    hide Choices, ConsistentDecision, CodeDecision, Allowed, CutAll, Cut;
  }

  lemma {:induction false} ResearchKeepsMark(disk: Disk, s: State, view: Role, request: Request, reply: Reply)
    ensures var e := AfterResearch(disk, s, view, request, reply); e.Done? ==> e.value.state.pending == s.pending
  {
    hide ConsistentResearch, Beside, Merge, Without, Kept;
  }

  lemma {:induction false} WriteKeepsMark(cfg: Config, s: State, request: Request, reply: Reply)
    requires request.WriteRequest?
    ensures var e := AfterWrite(cfg, s, request, reply); e.Done? ==> e.value.state.pending == s.pending
  {
    hide ConsistentReport, InputsMatch, Merge;
  }

  lemma {:induction false} EvaluateKeepsMark(s: State, request: Request, reply: Reply)
    requires request.EvaluateRequest? && request.report.document.Some?
    ensures var e := AfterEvaluate(s, request, reply); e.Done? ==> e.value.state.pending == s.pending
  {
    hide ConsistentEvaluation, VerdictKnown, StructureSound, RepairFeedback;
  }

  lemma {:induction false} PublishKeepsMark(disk: Disk, s: State, request: Request, reply: Reply)
    requires request.PublishRequest? && request.report.document.Some?
    ensures var e := AfterPublish(disk, s, request, reply); e.Done? ==> e.value.state.pending == s.pending
  {
    hide ConsistentPublication, Verifies;
  }

  lemma {:induction false} PerformKeepsMark(cfg: Config, disk: Disk, s: State, request: Option<Request>, reply: Reply)
    requires s.pending.Some? && RequestOf(s.pending.value.role, request)
    ensures var done := Perform(cfg, disk, s, request, reply); done.Done? ==> done.value.1.pending == s.pending
  {
    hide AfterDecide, AfterResearch, AfterWrite, AfterEvaluate, AfterPublish, Put, PendingKey;
    match s.pending.value.role
    case Supervisor => DecideKeepsMark(cfg, disk, s, request, reply);
    case Writer => WriteKeepsMark(cfg, s, request.value, reply);
    case Evaluator => EvaluateKeepsMark(s, request.value, reply);
    case Publisher => PublishKeepsMark(disk, s, request.value, reply);
    case _ => ResearchKeepsMark(disk, s, s.pending.value.role, request.value, reply);
  }

  lemma {:induction false} AloneKeepsMark(cfg: Config, m: Machine)
    requires m.proc.Calling? && m.proc.state.pending.Some? && Alone(cfg, m).Some?
    ensures var done := Alone(cfg, m).value; done.Done? ==> done.value.1.pending == m.proc.state.pending
  {
    hide Build, Perform, Listed;
    if m.proc.state.pending.value.role.Supervisor? {
      PerformKeepsMark(cfg, m.disk, m.proc.state, None, Throws(InvalidResponse));
    }
  }

  // ---------- Over whole runs ----------

  predicate Uncertain(s: State) { s.status.NeedsAttention? }

  /** A state at rest is marked exactly when its last call is uncertain; a saved one that needs attention is marked. */
  ghost predicate MarksTold(m: Machine) {
    && (m.proc.Between? ==> (m.proc.state.pending.Some? <==> Uncertain(m.proc.state)))
    && (m.disk.snapshot.Some? && Uncertain(m.disk.snapshot.value) ==> m.disk.snapshot.value.pending.Some?)
  }

  lemma {:induction false} SettledMark(s: State, done: Outcome<(Disk, State)>)
    requires s.pending.Some? && (done.Done? ==> done.value.1.pending == s.pending)
    ensures var t := Settled(s, done);
            && (t.pending.Some? <==> Uncertain(t)) && (t.pending.Some? ==> t.pending == s.pending)
  {
  }

  lemma {:induction false} FinishedTold(m: Machine, s: State, done: Outcome<(Disk, State)>)
    requires s.pending.Some? && (done.Done? ==> done.value.1.pending == s.pending)
    ensures MarksTold(Finished(m, s, done))
  {
    hide Settled;
    SettledMark(s, done);
  }

  lemma {:induction false} CompleteTold(cfg: Config, m: Machine, reply: Reply, files: map<string, string>)
    requires MarksTold(m)
    ensures MarksTold(Step(cfg, m, Complete(reply, files)))
  {
    hide Alone, Answered, Finished, RequestOf;
    if m.proc.Calling? && m.proc.state.pending.Some? {
      if Alone(cfg, m).Some? {
        AloneKeepsMark(cfg, m);
        FinishedTold(m, m.proc.state, Alone(cfg, m).value);
      }
    } else if CanAnswer(m) {
      AnswerKeepsMark(cfg, m, reply, files);
      FinishedTold(m.(disk := WithFiles(m.disk, files)), m.proc.state, Answered(cfg, m, reply, files));
    }
  }

  lemma {:induction false} AnswerKeepsMark(cfg: Config, m: Machine, reply: Reply, files: map<string, string>)
    requires CanAnswer(m)
    ensures var done := Answered(cfg, m, reply, files); done.Done? ==> done.value.1.pending == m.proc.state.pending
  {
    hide Perform, RequestOf;
    PerformKeepsMark(cfg, WithFiles(m.disk, files), m.proc.state, Some(m.proc.request), reply);
  }

  lemma {:induction false} LoseTold(cfg: Config, m: Machine, reply: Reply, files: map<string, string>)
    requires MarksTold(m)
    ensures MarksTold(Step(cfg, m, Lose(reply, files)))
  {
    hide Alone, Answered, RequestOf, Grows;
    if m.proc.Calling? && m.proc.state.pending.Some? {
      if Alone(cfg, m).Some? { AloneKeepsSnapshot(cfg, m); }
    } else if CanAnswer(m) {
      LostDiskGrows(cfg, m, reply, files);
    }
  }

  lemma {:induction false} OtherTold(cfg: Config, m: Machine, e: Event)
    requires MarksTold(m) && !e.Complete? && !e.Lose?
    ensures MarksTold(Step(cfg, m, e))
  {
    hide Dispatched, Loads, RequestId, Uncertain;
    if e.Dispatch? && m.proc.Calling? && m.proc.state.pending.Some? { DispatchTold(cfg, m, e.order); }
    UncertainIs(m);
  }

  lemma {:induction false} UncertainIs(m: Machine)
    ensures forall s :: Uncertain(s) <==> s.status.NeedsAttention?
  {
  }

  lemma {:induction false} DispatchTold(cfg: Config, m: Machine, order: seq<Role>)
    requires MarksTold(m) && m.proc.Calling? && m.proc.state.pending.Some?
    ensures MarksTold(Dispatched(cfg, m, order))
  {
    hide Build, Enumerates, Uncertain;
  }

  /** In every run: a process between two nodes carries a pending mark exactly when its last call is uncertain, and a
      snapshot that needs attention always names the call. */
  lemma {:induction false} UncertainCallsAreNamed(cfg: Config, es: seq<Event>)
    ensures MarksTold(Steps(cfg, EMPTY, es))
  {
    if es != [] {
      var e, m := es[|es| - 1], Steps(cfg, EMPTY, es[..|es| - 1]);
      UncertainCallsAreNamed(cfg, es[..|es| - 1]);
      hide Step, MarksTold;
      if e.Complete? { CompleteTold(cfg, m, e.reply, e.files); }
      else if e.Lose? { LoseTold(cfg, m, e.reply, e.files); }
      else { OtherTold(cfg, m, e); }
    }
  }
}
