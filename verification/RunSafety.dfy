/** Every reachable situation of a run satisfies the invariant, through crashes and resumes; what follows
    for dispatches, for the published report, for the requests and for the number of calls. */
module RunSafety {
  import opened Schema
  import opened Contracts
  import opened RunMachine
  import opened RunInvariant
  import opened RunRoles
  import opened RunCalls

  // ---------- One call ----------

  lemma {:induction false} AfterLands(cfg: Config, disk: Disk, files: Disk, more: Disk, used: set<Key>, now: set<Key>,
          asked: map<Key, Request>, s: State, role: Role, request: Option<Request>, reply: Reply, p: Payload, t: State)
    requires RequestOf(role, request) && CallOk(cfg, disk, used, asked, s) && s.next == Go(role)
    requires request.Some? ==> InCall(cfg, disk, used, asked, s, role, request.value)
    requires files.artifacts == disk.artifacts && more.files == files.files
    requires Keeps(disk, more, used, now, s) && more.artifacts == disk.artifacts[PendingKey(s) := p]
    requires After(cfg, files, s, role, request, reply) == Done(Effect(Some(p), t))
    ensures Landed(cfg, more, now, asked, role, t)
  {
    hide CallOk, InCall, Keeps, Landed, AfterDecide, AfterWrite, AfterEvaluate, AfterPublish, AfterResearch, Asked;
    match role
    case Supervisor => DecideLands(cfg, disk, files, more, used, now, asked, s, request, reply, p, t);
    case Writer => WriteLands(cfg, disk, more, used, now, asked, s, request.value, reply, p, t);
    case Evaluator => EvaluateLands(cfg, disk, more, used, now, asked, s, request.value, reply, p, t);
    case Publisher => PublishLands(cfg, disk, files, more, used, now, asked, s, request.value, reply, p, t);
    case _ => ResearchLands(cfg, disk, files, more, used, now, asked, s, role, request.value, reply, p, t);
  }

  /** Whatever stops a run in the middle of a call leaves the stored content as it was. */
  lemma {:induction false} StopLands(cfg: Config, disk: Disk, more: Disk, used: set<Key>, now: set<Key>,
          asked: map<Key, Request>, s: State, role: Role, code: StopCode)
    requires CallOk(cfg, disk, used, asked, s) && Grows(disk, more)
    ensures Landed(cfg, more, now, asked, role, Stopped(s, code))
  {
    hide Content, CallCounts, RestCounts, Bounds, Fresh, Due, Mark, RestOk;
    StoppedReferences(s, code);
    hide Stopped;
    RunningContent(cfg, disk, more, asked, asked, s, Stopped(s, code));
    CountsKept(cfg, s, Stopped(s, code));
  }

  /** Only the Supervisor may end a call without an artifact, and then the run is stopped. */
  lemma {:induction false} NothingStored(cfg: Config, disk: Disk, s: State, role: Role, request: Option<Request>,
          reply: Reply, t: State)
    requires RequestOf(role, request)
    requires After(cfg, disk, s, role, request, reply) == Done(Effect(None, t))
    ensures role.Supervisor? && exists code :: t == Stopped(s, code)
  {
    hide Choices, Decided, Written, Researched, Evaluated, Published, Stopped, Merge, Beside, InputsMatch,
         ConsistentDecision, ConsistentResearch, ConsistentReport, ConsistentEvaluation, ConsistentPublication,
         VerdictKnown, StructureSound, CommonFor, Verifies;
    assert role.Supervisor?;
    assert t == Stopped(s, Choices(cfg, disk, s).value.code);
  }

  /** A call that does not raise lands, on a disk that keeps every artifact and adds at most its own;
      the exclusive write never meets an earlier artifact. */
  lemma {:induction false} PerformLands(cfg: Config, disk: Disk, files: Disk, used: set<Key>, now: set<Key>,
          asked: map<Key, Request>, s: State, role: Role, request: Option<Request>, reply: Reply)
    requires s.pending.Some? && s.pending.value.role == role && RequestOf(role, request)
    requires CallOk(cfg, disk, used, asked, s) && s.next == Go(role)
    requires request.Some? ==> InCall(cfg, disk, used, asked, s, role, request.value)
    requires files.artifacts == disk.artifacts && now <= used + {PendingKey(s)}
    ensures var done := Perform(cfg, files, s, request, reply);
            done.Done? ==> Landed(cfg, done.value.0, now, asked, role, done.value.1)
    ensures PendingKey(s) !in files.artifacts
  {
    hide CallOk, InCall, Landed, After;
    CallKey(cfg, disk, used, asked, s, role);
    var effect := After(cfg, files, s, role, request, reply);
    if effect.Done? {
      if effect.value.stored.None? {
        NothingStored(cfg, files, s, role, request, reply, effect.value.state);
        var code :| effect.value.state == Stopped(s, code);
        StopLands(cfg, disk, files, used, now, asked, s, role, code);
      } else {
        var p := effect.value.stored.value;
        var more := files.(artifacts := files.artifacts[PendingKey(s) := p]);
        AfterLands(cfg, disk, files, more, used, now, asked, s, role, request, reply, p, effect.value.state);
      }
    }
  }

  lemma {:induction false} PerformGrows(cfg: Config, files: Disk, s: State, request: Option<Request>, reply: Reply)
    requires s.pending.Some? && RequestOf(s.pending.value.role, request)
    ensures var done := Perform(cfg, files, s, request, reply);
            done.Done? ==> Grows(files, done.value.0)
  {
    hide After;
  }

  // ---------- One step ----------

  /** Content does not depend on the snapshot, on the pending mark or on how a run ended. */
  lemma {:induction false} ContentMoved(cfg: Config, disk: Disk, more: Disk, asked: map<Key, Request>, s: State,
          t: State)
    requires Content(cfg, disk, asked, s) && SameContent(s, t) && (t.status.Completed? ==> s.status.Completed?)
    requires more.artifacts == disk.artifacts && more.files == disk.files
    ensures Content(cfg, more, asked, t)
  {
    hide ResultsOk, Lineage, ReportOk, VerdictOk, RepairOk;
    ResultsKept(cfg, disk, more, s, t);
    ReportsKept(cfg, disk, more, s, t);
  }

  lemma {:induction false} RestMoved(cfg: Config, disk: Disk, more: Disk, used: set<Key>, asked: map<Key, Request>,
          s: State)
    requires RestOk(cfg, disk, used, asked, s) && more.artifacts == disk.artifacts && more.files == disk.files
    ensures RestOk(cfg, more, used, asked, s)
  {
    hide Content, RestCounts, Bounds, Due, Room, Fresh;
    ContentMoved(cfg, disk, more, asked, s, s);
    FreshSame(disk, more, used, s);
  }

  /** The state checkpointed after a call. */
  lemma {:induction false} Settles(cfg: Config, more: Disk, now: set<Key>, asked: map<Key, Request>, role: Role,
          t: State, next: State)
    requires Landed(cfg, more, now, asked, role, t)
    requires next == t.(pending := None) || (next == t && !t.status.Running?)
    ensures BetweenOk(cfg, Save(more, next), now, asked, next, Onward(next, role))
  {
    hide Content, Bounds, RestOk;
    var disk := Save(more, next);
    ContentMoved(cfg, more, disk, asked, t, next);
    CountsKept(cfg, t, next);
    if t.status.Running? {
      RestMoved(cfg, more, disk, now, asked, next);
      RestGoesOn(cfg, disk, now, asked, next);
    }
  }

  lemma {:induction false} RestGoesOn(cfg: Config, disk: Disk, used: set<Key>, asked: map<Key, Request>, s: State)
    requires RestOk(cfg, disk, used, asked, s)
    ensures s.pending.None? && s.status.Running? && s.next.Go?
    ensures SavedOk(cfg, disk, used, asked, s)
  {
    hide Content, RestCounts, Bounds, Due, Room, Fresh;
  }

  lemma {:induction false} FinishKeeps(cfg: Config, m: Machine, disk: Disk, used: set<Key>, s: State, role: Role,
          done: Outcome<(Disk, State)>)
    requires s.pending.Some? && s.pending.value.role == role && s.next == Go(role)
    requires CallOk(cfg, disk, used, m.asked, s) && Grows(disk, m.disk)
    requires done.Done? ==> Landed(cfg, done.value.0, ToSet(m.trace), m.asked, role, done.value.1)
    requires Distinct(m.trace) && m.asked.Keys == ToSet(m.trace)
    ensures Inv(cfg, Finished(m, s, done))
  {
    hide CallOk, Landed, BetweenOk;
    var now := ToSet(m.trace);
    if done.Raised? {
      StopLands(cfg, disk, m.disk, used, now, m.asked, s, role, Fault(done.code));
    }
    var t := if done.Raised? then Stopped(s, Fault(done.code)) else done.value.1;
    var after := if done.Done? then done.value.0 else m.disk;
    var next := Settled(s, done);
    assert Landed(cfg, after, now, m.asked, role, t);
    assert next == t.(pending := None) || (next == t && !t.status.Running?);
    Settles(cfg, after, now, m.asked, role, t, next);
  }

  lemma {:induction false} CallSaved(cfg: Config, disk: Disk, more: Disk, used: set<Key>, now: set<Key>,
          asked: map<Key, Request>, s: State)
    requires CallOk(cfg, disk, used, asked, s) && Grows(disk, more)
    ensures SavedOk(cfg, more, now, asked, s) && s.pending.Some?
  {
    hide Content, CallCounts, Bounds, Fresh, Due, Mark;
    RunningContent(cfg, disk, more, asked, asked, s, s);
  }

  lemma {:induction false} StartKeeps(cfg: Config, m: Machine)
    requires Inv(cfg, m)
    ensures Inv(cfg, Step(cfg, m, Start))
  {
    if m.proc.Dead? && m.disk.snapshot.None? {
      hide Inv, Ready, ConsistentResearch, ConsistentReport, ConsistentEvaluation, Current, StructureSound,
           VerdictKnown, CommonFor, Derived, RestCounts, Bounds;
      var s := Initial(cfg);
      var disk := Save(m.disk, s);
      assert m.trace == [] && m.disk.artifacts == map[] by { NothingYet(cfg, m); }
      assert Content(cfg, disk, m.asked, s);
      StartCounts(cfg, s);
      hide Content;
      assert RestOk(cfg, disk, ToSet(m.trace), m.asked, s);
      StartsInv(cfg, m, s);
    }
  }

  lemma {:induction false} StartCounts(cfg: Config, s: State)
    requires s == Initial(cfg)
    ensures RestCounts(s) && Bounds(cfg, s)
  {
    assert forall v :: Attempts(s, v) == 0;
    hide Attempts;
  }

  lemma {:induction false} NothingYet(cfg: Config, m: Machine)
    requires Inv(cfg, m) && m.proc.Dead? && m.disk.snapshot.None?
    ensures m.trace == [] && m.disk.artifacts == map[] && m.asked.Keys == ToSet(m.trace)
  {
  }

  lemma {:induction false} StartsInv(cfg: Config, m: Machine, s: State)
    requires Inv(cfg, m) && s.status.Running? && RestOk(cfg, Save(m.disk, s), ToSet(m.trace), m.asked, s)
    ensures forall n :: Inv(cfg, m.(disk := Save(m.disk, s), proc := Between(s, s.next), nodes := n))
  {
    hide RestOk;
    RestGoesOn(cfg, Save(m.disk, s), ToSet(m.trace), m.asked, s);
    hide SavedOk, CallOk, AwaitOk;
  }

  lemma {:induction false} ResumeKeeps(cfg: Config, m: Machine, identity: string)
    requires Inv(cfg, m) && m.proc.Dead?
    ensures Inv(cfg, Resumed(m, identity))
  {
    hide Content, Bounds, RestOk, Loads, Stopped;
    if m.disk.snapshot.Some? {
      var s := m.disk.snapshot.value;
      var code := Fault(UncertainRequest);
      StoppedReferences(s, code);
      ContentMoved(cfg, m.disk, Save(m.disk, Stopped(s, code)), m.asked, s, Stopped(s, code));
      CountsKept(cfg, s, Stopped(s, code));
    }
  }

  lemma {:induction false} BeginKeeps(cfg: Config, m: Machine)
    requires Inv(cfg, m) && m.proc.Between?
    ensures Inv(cfg, Begun(cfg, m))
  {
    hide Content, Bounds, RestOk, CallOk, Entered;
    var s := m.proc.state;
    var over := s.(next := Stop);
    if s.status.Running? {
      RestGoesOn(cfg, m.disk, ToSet(m.trace), m.asked, s);
      EnterOk(cfg, m.disk, Save(m.disk, Entered(cfg, s, s.next.role)), ToSet(m.trace), m.asked, s);
    } else {
      ContentMoved(cfg, m.disk, Save(m.disk, over), m.asked, s, over);
      CountsKept(cfg, s, over);
    }
  }

  lemma {:induction false} TracePush(trace: seq<Key>, key: Key)
    requires Distinct(trace) && key !in ToSet(trace)
    ensures Distinct(trace + [key]) && ToSet(trace + [key]) == ToSet(trace) + {key}
    ensures (trace + [key])[..|trace|] == trace
  {
    assert forall k :: 0 <= k < |trace| ==> trace[k] in ToSet(trace);
  }

  lemma {:induction false} CallAsks(cfg: Config, disk: Disk, used: set<Key>, asked: map<Key, Request>, s: State,
          request: Request)
    requires CallOk(cfg, disk, used, asked, s) && PendingKey(s) !in asked
    ensures CallOk(cfg, disk, used, asked[PendingKey(s) := request], s)
  {
    hide Content, CallCounts, Bounds, Fresh, Due, Mark;
    RunningContent(cfg, disk, disk, asked, asked[PendingKey(s) := request], s, s);
  }

  lemma {:induction false} DispatchKeeps(cfg: Config, m: Machine, order: seq<Role>)
    requires Inv(cfg, m) && m.proc.Calling? && m.proc.state.pending.Some?
    ensures Inv(cfg, Dispatched(cfg, m, order))
  {
    hide CallOk, Build, Distinct, ToSet, Asked, Enumerates;
    var s := m.proc.state;
    var built := Build(cfg, m.disk, s, s.pending.value.role, order);
    if built.Done? && built.value.Some? && Enumerates(order, s.results.Keys) {
      var used, key, request := ToSet(m.trace), PendingKey(s), built.value.value;
      CallRole(cfg, m.disk, used, m.asked, s);
      KeyIsFresh(cfg, m.disk, used, m.asked, s);
      Builds(cfg, m.disk, m.asked, s, s.next.role, order, request);
      CallAsks(cfg, m.disk, used, m.asked, s, request);
      TracePush(m.trace, key);
    }
  }

  lemma {:induction false} CallRole(cfg: Config, disk: Disk, used: set<Key>, asked: map<Key, Request>, s: State)
    requires CallOk(cfg, disk, used, asked, s)
    ensures s.pending.Some? && s.next.Go? && s.pending.value.role == s.next.role
    ensures Content(cfg, disk, asked, s) && s.status.Running?
  {
    hide Content, CallCounts, Bounds, Fresh, Due, RequestId;
  }

  /** A call in progress: what the invariant says of it, over the whole trace. */
  lemma {:induction false} AwaitedCall(cfg: Config, m: Machine)
    requires Inv(cfg, m) && m.proc.Awaiting?
    ensures m.trace != [] && var s, used := m.proc.state, ToSet(m.trace[..|m.trace| - 1]);
            && s.next.Go? && s.pending.Some? && s.pending.value.role == s.next.role
            && InCall(cfg, m.disk, used, m.asked, s, s.next.role, m.proc.request)
            && RequestOf(s.next.role, Some(m.proc.request))
            && ToSet(m.trace) <= used + {PendingKey(s)} && m.disk.snapshot == Some(s)
  {
    hide CallOk, Asked, Distinct;
    var s, n := m.proc.state, |m.trace| - 1;
    var used := ToSet(m.trace[..n]);
    CallRole(cfg, m.disk, used, m.asked, s);
    AskedIsAnswerable(cfg, s, s.next.role, m.proc.request);
    assert m.trace == m.trace[..n] + [m.trace[n]];
    assert ToSet(m.trace) <= used + {PendingKey(s)};
  }

  lemma {:induction false} AnswerKeeps(cfg: Config, m: Machine, reply: Reply, files: map<string, string>)
    requires Inv(cfg, m) && m.proc.Awaiting? && CanAnswer(m)
    ensures Inv(cfg, Finished(m.(disk := WithFiles(m.disk, files)), m.proc.state, Answered(cfg, m, reply, files)))
  {
    hide InCall, Landed, RequestOf, Perform, CallOk, Distinct;
    AwaitedCall(cfg, m);
    var s, used, now := m.proc.state, ToSet(m.trace[..|m.trace| - 1]), ToSet(m.trace);
    var role := s.next.role;
    assert CallOk(cfg, m.disk, used, m.asked, s) by { InCallOk(cfg, m.disk, used, m.asked, s, role, m.proc.request); }
    PerformLands(cfg, m.disk, WithFiles(m.disk, files), used, now, m.asked, s, role, Some(m.proc.request), reply);
    FinishKeeps(cfg, m.(disk := WithFiles(m.disk, files)), m.disk, used, s, role, Answered(cfg, m, reply, files));
  }

  lemma {:induction false} InCallOk(cfg: Config, disk: Disk, used: set<Key>, asked: map<Key, Request>, s: State,
          role: Role, request: Request)
    requires InCall(cfg, disk, used, asked, s, role, request)
    ensures CallOk(cfg, disk, used, asked, s)
  {
    hide CallOk, Asked;
  }

  lemma {:induction false} AloneKeeps(cfg: Config, m: Machine)
    requires Inv(cfg, m) && m.proc.Calling? && m.proc.state.pending.Some? && Alone(cfg, m).Some?
    ensures Inv(cfg, Finished(m, m.proc.state, Alone(cfg, m).value))
    ensures var done := Alone(cfg, m).value; done.Done? ==> Grows(m.disk, done.value.0)
  {
    hide CallOk, Landed, Build, Perform, Distinct;
    var s, used := m.proc.state, ToSet(m.trace);
    CallRole(cfg, m.disk, used, m.asked, s);
    if s.next.role.Supervisor? {
      PerformLands(cfg, m.disk, m.disk, used, used, m.asked, s, s.next.role, None, Throws(InvalidResponse));
      PerformGrows(cfg, m.disk, s, None, Throws(InvalidResponse));
    }
    FinishKeeps(cfg, m, m.disk, used, s, s.next.role, Alone(cfg, m).value);
  }

  /** A process that dies inside a call leaves the snapshot marked pending. */
  lemma {:induction false} DeathKeeps(cfg: Config, m: Machine, disk: Disk, used: set<Key>, s: State)
    requires Distinct(m.trace) && m.asked.Keys == ToSet(m.trace)
    requires CallOk(cfg, m.disk, used, m.asked, s) && Grows(m.disk, disk) && disk.snapshot == Some(s)
    ensures Inv(cfg, m.(disk := disk, proc := Dead))
  {
    hide CallOk, SavedOk, Distinct;
    CallSaved(cfg, m.disk, disk, used, ToSet(m.trace), m.asked, s);
  }

  lemma {:induction false} PerformKeepsSnapshot(cfg: Config, files: Disk, s: State, request: Option<Request>,
          reply: Reply)
    requires s.pending.Some? && RequestOf(s.pending.value.role, request)
    ensures var done := Perform(cfg, files, s, request, reply);
            done.Done? ==> done.value.0.snapshot == files.snapshot
  {
    hide After;
  }

  /** The disk on which a process dies after its call. */
  function LostDisk(cfg: Config, m: Machine, reply: Reply, files: map<string, string>): Disk
    requires CanAnswer(m)
  {
    var done := Answered(cfg, m, reply, files);
    if done.Done? then done.value.0 else WithFiles(m.disk, files)
  }

  lemma {:induction false} LostDiskGrows(cfg: Config, m: Machine, reply: Reply, files: map<string, string>)
    requires CanAnswer(m)
    ensures Grows(m.disk, LostDisk(cfg, m, reply, files))
    ensures LostDisk(cfg, m, reply, files).snapshot == m.disk.snapshot
  {
    hide Perform, RequestOf;
    var s := m.proc.state;
    PerformGrows(cfg, WithFiles(m.disk, files), s, Some(m.proc.request), reply);
    PerformKeepsSnapshot(cfg, WithFiles(m.disk, files), s, Some(m.proc.request), reply);
  }

  lemma {:induction false} LoseKeeps(cfg: Config, m: Machine, reply: Reply, files: map<string, string>)
    requires Inv(cfg, m) && CanAnswer(m)
    ensures Inv(cfg, m.(disk := LostDisk(cfg, m, reply, files), proc := Dead))
  {
    hide InCall, RequestOf, CallOk, Distinct, LostDisk;
    AwaitedCall(cfg, m);
    LostDiskGrows(cfg, m, reply, files);
    var s, used := m.proc.state, ToSet(m.trace[..|m.trace| - 1]);
    InCallOk(cfg, m.disk, used, m.asked, s, s.next.role, m.proc.request);
    DeathKeeps(cfg, m, LostDisk(cfg, m, reply, files), used, s);
  }

  lemma {:induction false} LoseAloneKeeps(cfg: Config, m: Machine)
    requires Inv(cfg, m) && m.proc.Calling? && m.proc.state.pending.Some?
    ensures Inv(cfg, m.(proc := Dead))
    ensures var alone := Alone(cfg, m);
            alone.Some? && alone.value.Done? ==> Inv(cfg, m.(disk := alone.value.value.0, proc := Dead))
  {
    var s := m.proc.state;
    DeathKeeps(cfg, m, m.disk, ToSet(m.trace), s);
    if Alone(cfg, m).Some? && Alone(cfg, m).value.Done? {
      AloneKeeps(cfg, m);
      AloneKeepsSnapshot(cfg, m);
      hide CallOk, Alone, Distinct, Finished;
      DeathKeeps(cfg, m, Alone(cfg, m).value.value.0, ToSet(m.trace), s);
    }
  }

  lemma {:induction false} AloneKeepsSnapshot(cfg: Config, m: Machine)
    requires m.proc.Calling? && m.proc.state.pending.Some? && Alone(cfg, m).Some?
    ensures var done := Alone(cfg, m).value; done.Done? ==> done.value.0.snapshot == m.disk.snapshot
  {
    hide Build, Perform, Filter;
    if m.proc.state.pending.value.role.Supervisor? {
      PerformKeepsSnapshot(cfg, m.disk, m.proc.state, None, Throws(InvalidResponse));
    }
  }

  lemma {:induction false} CrashKeeps(cfg: Config, m: Machine, files: map<string, string>)
    requires Inv(cfg, m)
    ensures Inv(cfg, Step(cfg, m, Crash(files)))
  {
    hide InCall, CallOk, SavedOk, RequestOf, Distinct;
    match m.proc
    case Dead =>
    case Between(_, _) =>
    case Calling(s) => DeathKeeps(cfg, m, m.disk, ToSet(m.trace), s);
    case Awaiting(s, request) =>
      AwaitedCall(cfg, m);
      var used := ToSet(m.trace[..|m.trace| - 1]);
      InCallOk(cfg, m.disk, used, m.asked, s, s.next.role, request);
      DeathKeeps(cfg, m, WithFiles(m.disk, files), used, s);
  }

  lemma {:induction false} CompleteKeeps(cfg: Config, m: Machine, reply: Reply, files: map<string, string>)
    requires Inv(cfg, m)
    ensures Inv(cfg, Step(cfg, m, Complete(reply, files)))
  {
    hide Inv, Finished, Answered, RequestOf, Alone;
    if m.proc.Calling? && m.proc.state.pending.Some? {
      if Alone(cfg, m).Some? {
        AloneKeeps(cfg, m);
      }
    } else if CanAnswer(m) {
      AnswerKeeps(cfg, m, reply, files);
    }
  }

  lemma {:induction false} LossKeeps(cfg: Config, m: Machine, reply: Reply, files: map<string, string>)
    requires Inv(cfg, m)
    ensures Inv(cfg, Step(cfg, m, Lose(reply, files)))
  {
    hide Inv, Answered, RequestOf, Alone;
    if m.proc.Calling? && m.proc.state.pending.Some? {
      LoseAloneKeeps(cfg, m);
    } else if CanAnswer(m) {
      LoseKeeps(cfg, m, reply, files);
    }
  }

  /** Every event keeps the invariant. */
  lemma {:induction false} StepKeeps(cfg: Config, m: Machine, e: Event)
    requires Inv(cfg, m)
    ensures Inv(cfg, Step(cfg, m, e))
  {
    hide Inv, Resumed, Begun, Dispatched, Finished, Answered, RequestOf, Alone;
    match e
    case Start => StartKeeps(cfg, m);
    case Resume(identity) => if m.proc.Dead? { ResumeKeeps(cfg, m, identity); }
    case Pause => CrashKeeps(cfg, m, map[]);
    case Crash(files) => CrashKeeps(cfg, m, files);
    case Begin => if m.proc.Between? { BeginKeeps(cfg, m); }
    case Dispatch(order) =>
      if m.proc.Calling? && m.proc.state.pending.Some? { DispatchKeeps(cfg, m, order); }
    case Complete(reply, files) => CompleteKeeps(cfg, m, reply, files);
    case Lose(reply, files) => LossKeeps(cfg, m, reply, files);
  }

  /** Every reachable situation satisfies the invariant. */
  lemma {:induction false} Reachable(cfg: Config, es: seq<Event>)
    ensures Inv(cfg, Steps(cfg, EMPTY, es))
  {
    if es == [] {
    } else {
      hide Inv, Step;
      Reachable(cfg, es[..|es| - 1]);
      StepKeeps(cfg, Steps(cfg, EMPTY, es[..|es| - 1]), es[|es| - 1]);
    }
  }
}
