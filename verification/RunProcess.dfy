/** The run as it is carried out: the run directory and the loop of nodes that change it, step by step,
    exactly as the state machine does. */
module RunProcess {
  import opened Schema
  import opened Contracts
  import opened RunMachine
  import opened RunInvariant
  import opened RunCalls
  import opened RunSafety
  import opened RunRequests
  import opened RunTheorems
  import opened RunLimits
  import opened ReportInputs
  import Reports

  /** `RunStore`. */
  class RunStore {
    var snapshot: Option<State>
    var artifacts: map<Key, Payload>
    var files: map<string, string>

    function Directory(): Disk
      reads this
    {
      Disk(snapshot, artifacts, files)
    }

    constructor ()
      ensures Directory() == EMPTY.disk
    {
      snapshot, artifacts, files := None, map[], map[];
    }

    method Checkpoint(s: State)
      modifies this`snapshot
      ensures Directory() == Save(old(Directory()), s)
    {
      snapshot := Some(s);
    }

    /** An artifact is written at most once; a second attempt raises and changes nothing. */
    method Store(key: Key, payload: Payload) returns (r: Outcome<Ref>)
      modifies this`artifacts
      ensures r.Raised? <==> key in old(artifacts)
      ensures r.Done? ==> r.value == Ref(key, payload) && Put(old(Directory()), key, payload) == Done(Directory())
      ensures r.Done? ==> Fetch(Directory(), r.value) == Some(payload)
      ensures r.Raised? ==> unchanged(this) && Put(old(Directory()), key, payload) == Raised(r.code)
    {
      if key in artifacts {
        return Raised(InvalidResponse);
      }
      artifacts := artifacts[key := payload];
      r := Done(Ref(key, payload));
    }

    method Get(ref: Ref) returns (r: Outcome<Payload>)
      ensures r.Done? <==> Fetch(Directory(), ref).Some?
      ensures r.Done? ==> Fetch(Directory(), ref) == Some(r.value)
    {
      if ref.key !in artifacts {
        return Raised(InvalidResponse);
      }
      var payload := artifacts[ref.key];
      r := if payload == ref.digest then Done(payload) else Raised(InvalidResponse);
    }

    method Resolves(ref: Option<Ref>) returns (ok: bool)
      ensures ok == (ref.None? || Fetch(Directory(), ref.value).Some?)
    {
      if ref.None? {
        return true;
      }
      var found := Get(ref.value);
      ok := found.Done?;
    }

    /** A snapshot is accepted when it belongs to the identity and every reference in it still resolves. */
    method Load(identity: string) returns (r: Outcome<State>)
      ensures r.Done? <==> snapshot.Some? && snapshot.value.identity == identity && Loads(Directory(), snapshot.value)
      ensures r.Done? ==> Some(r.value) == snapshot
    {
      if snapshot.None? || snapshot.value.identity != identity {
        return Raised(InvalidResponse);
      }
      var s := snapshot.value;
      var left := s.results.Keys;
      while left != {}
        invariant left <= s.results.Keys
        invariant forall v :: v in s.results && v !in left ==> Fetch(Directory(), s.results[v]).Some?
        decreases |left|
      {
        var v :| v in left;
        var found := Get(s.results[v]);
        if found.Raised? {
          return Raised(InvalidResponse);
        }
        left := left - {v};
      }
      var report := Resolves(s.report);
      var evaluation := Resolves(s.evaluation);
      var repair := Resolves(s.repairSource);
      if !report || !evaluation || !repair {
        return Raised(InvalidResponse);
      }
      if s.publication.Some? {
        var found := Get(s.publication.value);
        if found.Raised? || !found.value.PublishPayload? {
          return Raised(InvalidResponse);
        }
        var out := found.value.publication.files;
        if out.Some? && (!Verifies(Directory(), out.value.markdown) || !Verifies(Directory(), out.value.pdf)) {
          return Raised(InvalidResponse);
        }
      }
      r := Done(s);
    }
  }

  lemma {:induction false} FilterDistinct(views: seq<Role>, p: Role -> bool)
    requires Distinct(views)
    ensures Distinct(Filter(views, p))
  {
    if views != [] {
      assert forall i, j :: 0 <= i < j < |views[1..]| ==> views[1..][i] == views[i + 1] && views[1..][j] == views[j + 1];
      FilterDistinct(views[1..], p);
      assert forall x :: x in Filter(views[1..], p) ==> x in views[1..] && x != views[0];
    }
  }

  lemma {:induction false} ListedEnumerates(cfg: Config, disk: Disk, s: State)
    requires ResultsOk(cfg, disk, s)
    ensures Enumerates(Listed(s), s.results.Keys)
  {
    hide ConsistentResearch, CommonFor, Filter;
    FilterDistinct(VIEWS, v => v in s.results);
    forall v ensures v in ToSet(Listed(s)) <==> v in s.results.Keys {
      assert IsView(v) <==> v in VIEWS;
      if v in s.results { assert ResultOk(cfg, disk, s, v); }
    }
  }

  lemma {:induction false} AloneStep(cfg: Config, m: Machine, s: State, reply: Reply, files: map<string, string>)
    requires m.proc == Calling(s) && s.pending.Some?
    ensures var built := Build(cfg, m.disk, s, s.pending.value.role, Listed(s));
            && (built.Raised? ==> Step(cfg, m, Complete(reply, files)) == Finished(m, s, Raised(built.code)))
            && (built == Done(None) && s.pending.value.role.Supervisor? ==>
                  Step(cfg, m, Complete(reply, files)) == Finished(m, s, Perform(cfg, m.disk, s, None, Throws(InvalidResponse))))
  {
    hide Build, Listed, Perform, Finished;
  }

  lemma {:induction false} AnswerStep(cfg: Config, m: Machine, s: State, request: Request, order: seq<Role>,
          reply: Reply, files: map<string, string>)
    requires m.proc == Calling(s) && s.pending.Some? && Enumerates(order, s.results.Keys)
    requires Build(cfg, m.disk, s, s.pending.value.role, order) == Done(Some(request))
    requires RequestOf(s.pending.value.role, Some(request))
    ensures var n := Step(cfg, m, Dispatch(order));
            && n.nodes == m.nodes && n.disk == m.disk
            && Step(cfg, n, Complete(reply, files)) ==
               Finished(n.(disk := WithFiles(n.disk, files)), s,
                        Perform(cfg, WithFiles(n.disk, files), s, Some(request), reply))
  {
    hide Build, Enumerates, Perform, Finished, RequestOf;
  }

  /** The result of a role's own work, on the machine and in the process. */
  ghost predicate SameOutcome(outcome: Outcome<(Disk, State)>, done: Outcome<State>, before: Disk, now: Disk) {
    if outcome.Done? then done == Done(outcome.value.1) && now == outcome.value.0
    else done == Raised(outcome.code) && now == before
  }

  /** The artifact and the next state, unless the artifact exists already. */
  function WithArtifact(disk: Disk, key: Key, payload: Payload, next: State): Outcome<(Disk, State)> {
    var stored := Put(disk, key, payload);
    if stored.Raised? then Raised(stored.code) else Done((stored.value, next))
  }

  /** What becomes of a role's effect: nothing but an exception, a new state, or an artifact and a new state. */
  function EffectOn(disk: Disk, s: State, effect: Outcome<Effect>): Outcome<(Disk, State)> {
    if effect.Raised? then Raised(effect.code)
    else if effect.value.stored.None? then Done((disk, effect.value.state))
    else WithArtifact(disk, PendingKey(s), effect.value.stored.value, effect.value.state)
  }

  lemma {:induction false} PerformIs(cfg: Config, disk: Disk, s: State, request: Option<Request>, reply: Reply)
    requires s.pending.Some? && RequestOf(s.pending.value.role, request)
    ensures Perform(cfg, disk, s, request, reply) == EffectOn(disk, s, After(cfg, disk, s, s.pending.value.role, request, reply))
  {
    hide After, RequestOf, PendingKey, Put;
  }

  lemma {:induction false} UnreadPrefix(disk: Disk, s: State, order: seq<Role>, k: nat)
    requires k <= |order| && ResultsIn(disk, s, order[..k]).None?
    ensures ResultsIn(disk, s, order).None?
  {
    hide FetchResearch;
    var n := |order| - 1;
    if k == |order| {
      assert order[..k] == order;
    } else {
      assert order[..n][..k] == order[..k];
      UnreadPrefix(disk, s, order[..n], k);
    }
  }

  method AllIn(ids: seq<string>, known: set<string>) returns (ok: bool)
    ensures ok <==> forall k :: 0 <= k < |ids| ==> ids[k] in known
  {
    for k := 0 to |ids|
      invariant forall i :: 0 <= i < k ==> ids[i] in known
    {
      if ids[k] !in known {
        return false;
      }
    }
    ok := true;
  }

  /** The membership check of `evaluate`: every check and every repair names claims and gaps of the report only. */
  method OnlyKnownIds(e: EvaluationResult, d: Document) returns (ok: bool)
    ensures ok <==> VerdictKnown(e, d)
  {
    hide Dict;
    var claims, gaps := Dict(d.joined.claims).Keys, ToSet(Reports.GapIds(d.joined.gapRecords));
    var left := e.checks.Keys;
    while left != {}
      invariant left <= e.checks.Keys
      invariant forall c :: c in e.checks && c !in left ==> KnownIds(e.checks[c].claimIds, e.checks[c].gapIds, d)
      decreases |left|
    {
      var c :| c in left;
      var knownClaims := AllIn(e.checks[c].claimIds, claims);
      var knownGaps := AllIn(e.checks[c].gapIds, gaps);
      if !knownClaims || !knownGaps {
        return false;
      }
      left := left - {c};
    }
    for k := 0 to |e.repairs|
      invariant forall i :: 0 <= i < k ==> KnownIds(e.repairs[i].claimIds, e.repairs[i].gapIds, d)
    {
      var knownClaims := AllIn(e.repairs[k].claimIds, claims);
      var knownGaps := AllIn(e.repairs[k].gapIds, gaps);
      if !knownClaims || !knownGaps {
        return false;
      }
    }
    ok := true;
  }

  method StructuralErrors(r: ReportResult) returns (some: bool)
    requires r.document.Some?
    ensures some <==> !StructureSound(r)
  {
    hide Reports.ReportSound;
    var d := r.document.value;
    var errors := Reports.ReportErrors(d.report, Dict(d.joined.claims), r.chunks, Some(d.joined.gapRecords));
    some := errors != [];
  }

  /** The repairs' reasons, grouped by target and cut to the first eight of each. */
  method CollectFeedback(repairs: seq<RepairRequest>) returns (feedback: map<Role, seq<string>>)
    requires forall k :: 0 <= k < |repairs| ==> IsView(repairs[k].target) || repairs[k].target.Writer?
    ensures feedback == RepairFeedback(repairs)
  {
    hide Cut;
    feedback := map[];
    for k := 0 to |repairs|
      invariant Collected(repairs[..k], feedback)
    {
      hide Reasons, Collected;
      var target, note := repairs[k].target, Cut(repairs[k].reason, 300);
      CollectedSnoc(repairs, k, feedback);
      feedback := feedback[target := (if target in feedback then feedback[target] else []) + [note]];
    }
    assert repairs[..|repairs|] == repairs;
    feedback := map role | role in feedback :: if |feedback[role]| <= 8 then feedback[role] else feedback[role][..8];
    forall role ensures role in feedback <==> role in RepairFeedback(repairs) {
      assert role in VIEWS + [Writer] <==> role in ToSet(VIEWS + [Writer]);
    }
    forall role | role in feedback ensures feedback[role] == RepairFeedback(repairs)[role] {
      CutTwice(repairs, role);
    }
  }

  /** The reasons so far, by target. */
  ghost predicate Collected(repairs: seq<RepairRequest>, feedback: map<Role, seq<string>>) {
    && (forall role :: role in feedback <==> role in VIEWS + [Writer] && Reasons(repairs, role) != [])
    && (forall role :: role in feedback ==> feedback[role] == Reasons(repairs, role))
  }

  lemma {:induction false} CollectedSnoc(repairs: seq<RepairRequest>, k: nat, feedback: map<Role, seq<string>>)
    requires k < |repairs| && Collected(repairs[..k], feedback)
    requires IsView(repairs[k].target) || repairs[k].target.Writer?
    ensures var t := repairs[k].target;
            var told := (if t in feedback then feedback[t] else []) + [Cut(repairs[k].reason, 300)];
            Collected(repairs[..k + 1], feedback[t := told])
  {
    hide Cut;
    var t := repairs[k].target;
    assert repairs[..k + 1][..k] == repairs[..k];
    assert t in VIEWS + [Writer];
    forall role ensures Reasons(repairs[..k + 1], role) ==
                        Reasons(repairs[..k], role) + (if role == t then [Cut(repairs[k].reason, 300)] else []) {
      assert repairs[..k + 1] != [];
    }
  }

  lemma {:induction false} RepairTargets(e: EvaluationResult)
    requires ConsistentEvaluation(e)
    ensures forall k :: 0 <= k < |e.repairs| ==> IsView(e.repairs[k].target) || e.repairs[k].target.Writer?
  {
  }

  /** Reasons are cut already: cutting them again to the same length changes nothing. */
  lemma {:induction false} CutTwice(repairs: seq<RepairRequest>, role: Role)
    ensures var rs := Reasons(repairs, role); CutAll(rs, 8, 300) == if |rs| <= 8 then rs else rs[..8]
  {
    var rs := Reasons(repairs, role);
    ReasonsShort(repairs, role);
    assert forall k :: 0 <= k < |rs| && k < 8 ==> Cut(rs[k], 300) == rs[k];
  }

  lemma {:induction false} ReasonsShort(repairs: seq<RepairRequest>, role: Role)
    ensures forall k :: 0 <= k < |Reasons(repairs, role)| ==> |Reasons(repairs, role)[k]| <= 300
  {
    if repairs != [] { ReasonsShort(repairs[..|repairs| - 1], role); }
  }

  /** `Supervisor`: the callbacks may answer a request in any way; no two requests of a run are the same. */
  class Process {
    const cfg: Config
    const store: RunStore
    const callback: Request -> Reply
    const writes: Request -> map<string, string>
    var current: State
    var at: Action
    ghost var events: seq<Event>

    ghost function M(): Machine
      reads this`events
    {
      Steps(cfg, EMPTY, events)
    }

    ghost method Happens(e: Event)
      modifies this`events
      ensures events == old(events) + [e] && M() == Step(cfg, old(M()), e)
    {
      StepsSnoc(cfg, EMPTY, events, e);
      events := events + [e];
    }

    constructor (cfg: Config, callback: Request -> Reply, writes: Request -> map<string, string>)
      ensures this.cfg == cfg && this.callback == callback && this.writes == writes && fresh(store)
      ensures M() == EMPTY && store.Directory() == M().disk
    {
      this.cfg, this.callback, this.writes := cfg, callback, writes;
      store := new RunStore();
      current, at, events := Initial(cfg), Stop, [];
    }

    /** Counts the attempt and saves the pending mark before anything is sent. */
    method Enter(role: Role)
      requires M().proc == Between(current, Go(role)) && M().disk == store.Directory()
      requires !role.Supervisor? || current.status.Running?
      modifies this`current, this`events, store`snapshot
      ensures events == old(events) + [Begin]
      ensures M().proc == Calling(current) && M().disk == store.Directory()
      ensures current == Entered(cfg, old(current), role) && M().nodes == old(M().nodes) + 1
      ensures current.pending.Some? && current.pending.value.role == role
    {
      hide RequestId, Steps;
      var attempt := NextAttempt(current, role);
      if !role.Supervisor? {
        current := current.(attempts := current.attempts[role := attempt]);
      }
      current := current.(pending := Some(Pending(role, RequestId(cfg.identity, role, attempt), attempt)));
      store.Checkpoint(current);
      Happens(Begin);
    }

    /** Writes the role's artifact, once. */
    method Keep(payload: Payload, next: State) returns (done: Outcome<State>)
      requires current.pending.Some?
      modifies store`artifacts
      ensures SameOutcome(WithArtifact(old(store.Directory()), PendingKey(current), payload, next), done,
                          old(store.Directory()), store.Directory())
    {
      hide PendingKey;
      var ref := store.Store(PendingKey(current), payload);
      done := if ref.Raised? then Raised(ref.code) else Done(next);
    }

    /** `supervise`. */
    method Supervise(request: Option<Request>, reply: Reply) returns (done: Outcome<State>)
      requires current.pending.Some? && current.pending.value.role.Supervisor?
      requires RequestOf(Supervisor, request)
      modifies store`artifacts
      ensures SameOutcome(Perform(cfg, old(store.Directory()), current, request, reply), done,
                          old(store.Directory()), store.Directory())
    {
      hide Choices, CutAll, Cut, ConsistentDecision, CommonFor, RequestId, Offers, Perform, PendingKey, Put;
      PerformIs(cfg, store.Directory(), current, request, reply);
      var menu := Choices(cfg, store.Directory(), current);
      if menu.Raised? {
        return Raised(menu.code);
      }
      if menu.value.Deny? {
        return Done(Stopped(current, menu.value.code));
      }
      var d := CodeDecision(cfg, current, menu.value.first);
      if request.Some? {
        if reply.Throws? {
          return Raised(reply.code);
        }
        if !reply.payload.DecisionPayload? || !ConsistentDecision(reply.payload.decision)
           || reply.payload.decision.common != request.value.common {
          return Raised(InvalidResponse);
        }
        d := reply.payload.decision;
      }
      if d.action.Go? && (!Offers(menu.value, d.action.role) || (d.action.role.Writer? && !d.sufficient)) {
        return Raised(InvalidResponse);
      }
      var feedback := current.feedback;
      if d.feedback != [] && d.action.Go? {
        feedback := feedback[d.action.role := CutAll(d.feedback, 8, 500)];
      }
      if d.action.Go? && IsView(d.action.role) && Attempts(current, d.action.role) > 0 && d.action.role !in feedback {
        feedback := feedback[d.action.role := [Cut(d.reason, 500)]];
      }
      var next := current.(next := d.action, steps := current.steps + 1, feedback := feedback, sufficient := d.sufficient);
      if d.action.Stop? {
        next := Stopped(next, EvidenceGap);
      }
      done := Keep(DecisionPayload(d), next);
    }

    /** The stored results that a new one has to agree with. */
    method Remaining(view: Role) returns (r: Option<seq<ResearchResult>>)
      ensures r == Beside(store.Directory(), current, view)
    {
      hide FetchResearch, KeptViews;
      var order := KeptViews(current, view);
      var results: seq<ResearchResult> := [];
      for k := 0 to |order|
        invariant ResultsIn(store.Directory(), current, order[..k]) == Some(results)
      {
        assert order[..k + 1][..k] == order[..k];
        var found := Research(order[k]);
        if found.None? {
          UnreadPrefix(store.Directory(), current, order, k + 1);
          return None;
        }
        results := results + [found.value];
      }
      assert order[..|order|] == order;
      r := Some(results);
    }

    method Research(view: Role) returns (r: Option<ResearchResult>)
      ensures r == FetchResearch(store.Directory(), current, view)
    {
      if view !in current.results {
        return None;
      }
      var found := store.Get(current.results[view]);
      r := if found.Done? && found.value.ResearchPayload? then Some(found.value.research) else None;
    }

    /** `worker`, after the callback. */
    method Work(view: Role, request: Request, reply: Reply) returns (done: Outcome<State>)
      requires current.pending.Some? && current.pending.value.role == view && IsView(view)
      requires RequestOf(view, Some(request))
      modifies store`artifacts
      ensures SameOutcome(Perform(cfg, old(store.Directory()), current, Some(request), reply), done,
                          old(store.Directory()), store.Directory())
    {
      hide ConsistentResearch, Merge, Beside, Kept, Without, Perform, PendingKey, Put;
      PerformIs(cfg, store.Directory(), current, Some(request), reply);
      if reply.Throws? {
        return Raised(reply.code);
      }
      if !reply.payload.ResearchPayload? || !ConsistentResearch(reply.payload.research)
         || reply.payload.research.common != request.common || reply.payload.research.view != view {
        return Raised(InvalidResponse);
      }
      var result := reply.payload.research;
      var remaining := Remaining(view);
      if remaining.None? {
        return Raised(InvalidResponse);
      }
      var merged := MergeAll(remaining.value + [result]);
      if merged.Raised? {
        return Raised(ArtifactMismatch);
      }
      var feedback := Without(current.feedback, view);
      if result.status.Partial? {
        feedback := feedback[view := [MORE_EVIDENCE]];
      }
      var summaries := if view.Research? then map[] else current.summaries;
      summaries := summaries[view := Summary(result.status, result.common.requestId)];
      var next := current.(
        results := Kept(current, view)[view := Ref(Key(view, Attempts(current, view)), ResearchPayload(result))],
        summaries := summaries, feedback := feedback, report := None, evaluation := None, publication := None,
        sufficient := false, next := Go(Supervisor));
      if result.status.Failed? && result.error.Some? {
        next := Stopped(next, Fault(result.error.value));
      }
      done := Keep(reply.payload, next);
    }

    /** `writer`, after the callback: a report is stored only when it is what the current results give. */
    method Write(request: Request, reply: Reply) returns (done: Outcome<State>)
      requires current.pending.Some? && current.pending.value.role.Writer?
      requires RequestOf(Writer, Some(request))
      modifies store`artifacts
      ensures SameOutcome(Perform(cfg, old(store.Directory()), current, Some(request), reply), done,
                          old(store.Directory()), store.Directory())
    {
      hide ConsistentReport, InputsMatch, Merge, Perform, PendingKey, Put;
      PerformIs(cfg, store.Directory(), current, Some(request), reply);
      if reply.Throws? {
        return Raised(reply.code);
      }
      if !reply.payload.ReportPayload? || !ConsistentReport(reply.payload.report)
         || reply.payload.report.common != request.common {
        return Raised(InvalidResponse);
      }
      var result := reply.payload.report;
      if result.document.Some? {
        var checked := CheckReportInputs(result, request.results, cfg.names);
        if checked.Raised? {
          return Raised(checked.code);
        }
      }
      var ref := Ref(Key(Writer, Attempts(current, Writer)), ReportPayload(result));
      var next := current.(report := Some(ref), evaluation := None, publication := None, repairSource := None,
                           feedback := map[], next := Go(Supervisor));
      if result.document.None? && result.error.Some? {
        next := Stopped(next, Fault(result.error.value));
      }
      done := Keep(reply.payload, next);
    }

    /** `evaluate`, after the callback. */
    method Judge(request: Request, reply: Reply) returns (done: Outcome<State>)
      requires current.pending.Some? && current.pending.value.role.Evaluator?
      requires RequestOf(Evaluator, Some(request))
      modifies store`artifacts
      ensures SameOutcome(Perform(cfg, old(store.Directory()), current, Some(request), reply), done,
                          old(store.Directory()), store.Directory())
    {
      hide ConsistentEvaluation, VerdictKnown, StructureSound, RepairFeedback, Perform, PendingKey, Put;
      PerformIs(cfg, store.Directory(), current, Some(request), reply);
      if reply.Throws? {
        return Raised(reply.code);
      }
      if !reply.payload.EvaluationPayload? {
        return Raised(InvalidResponse);
      }
      var e := reply.payload.evaluation;
      if !ConsistentEvaluation(e) || e.common != request.common
         || e.reportRequestId != request.report.common.requestId {
        return Raised(InvalidResponse);
      }
      var known := OnlyKnownIds(e, request.report.document.value);
      if !known {
        return Raised(InvalidResponse);
      }
      if e.passed {
        var errors := StructuralErrors(request.report);
        if errors {
          return Raised(InvalidResponse);
        }
      }
      RepairTargets(e);
      var feedback := CollectFeedback(e.repairs);
      var ref := Ref(Key(Evaluator, Attempts(current, Evaluator)), EvaluationPayload(e));
      var next := current.(evaluation := Some(ref), repairSource := if e.repairs != [] then Some(ref) else None,
                           feedback := feedback, next := Go(Supervisor));
      if e.error.Some? {
        next := Stopped(next, Fault(e.error.value));
      }
      done := Keep(reply.payload, next);
    }

    /** `publish`, after the callback: both files are read back before the run is complete. */
    method Publish(request: Request, reply: Reply) returns (done: Outcome<State>)
      requires current.pending.Some? && current.pending.value.role.Publisher?
      requires RequestOf(Publisher, Some(request))
      modifies store`artifacts
      ensures SameOutcome(Perform(cfg, old(store.Directory()), current, Some(request), reply), done,
                          old(store.Directory()), store.Directory())
    {
      hide ConsistentPublication, Attempts, Perform, PendingKey, Put;
      PerformIs(cfg, store.Directory(), current, Some(request), reply);
      if reply.Throws? {
        return Raised(reply.code);
      }
      if !reply.payload.PublishPayload? || !ConsistentPublication(reply.payload.publication)
         || reply.payload.publication.common != request.common {
        return Raised(InvalidResponse);
      }
      var result := reply.payload.publication;
      if result.files.Some? {
        var files := result.files.value;
        if !Verifies(store.Directory(), files.markdown) || !Verifies(store.Directory(), files.pdf) {
          return Raised(InvalidResponse);
        }
        if store.files[files.markdown.path] != request.report.document.value.markdown {
          return Raised(InvalidResponse);
        }
      }
      var ref := Ref(Key(Publisher, Attempts(current, Publisher)), PublishPayload(result));
      var next := current.(publication := Some(ref));
      if result.error.Some? {
        next := Stopped(next, Fault(result.error.value));
      } else {
        next := next.(status := Completed, next := Stop);
      }
      done := Keep(reply.payload, next);
    }

    /** The role's own work on a reply, and its write-once artifact. */
    method Carry(role: Role, request: Option<Request>, reply: Reply) returns (done: Outcome<State>)
      requires current.pending.Some? && current.pending.value.role == role && RequestOf(role, request)
      modifies store`artifacts
      ensures SameOutcome(Perform(cfg, old(store.Directory()), current, request, reply), done,
                          old(store.Directory()), store.Directory())
    {
      hide Perform;
      match role {
        case Supervisor => done := Supervise(request, reply);
        case Writer => done := Write(request.value, reply);
        case Evaluator => done := Judge(request.value, reply);
        case Publisher => done := Publish(request.value, reply);
        case _ => done := Work(role, request.value, reply);
      }
    }

    /** Builds the request, hands it to the callback and carries out what it answers; an exception
        anywhere leaves the directory as the callback left it. */
    method Act(role: Role)
      returns (done: Outcome<State>, ghost base: Machine, ghost outcome: Outcome<(Disk, State)>, ghost last: Event)
      requires current.pending.Some? && current.pending.value.role == role
      requires M().proc == Calling(current) && M().disk == store.Directory()
      modifies this`events, store`artifacts, store`files
      ensures old(events) <= events && base.nodes == old(M().nodes)
      ensures Step(cfg, M(), last) == Finished(base, current, outcome)
      ensures SameOutcome(outcome, done, base.disk, store.Directory())
    {
      hide Steps, Step, Build, RequestOf, Perform, Settled, Enumerates, Listed, Finished;
      ghost var m := M();
      Answerable(cfg, events, role, current);
      var order := Listed(current);
      var built := Build(cfg, store.Directory(), current, role, order);
      last := Complete(Throws(InvalidResponse), map[]);
      base := m;
      AloneStep(cfg, m, current, Throws(InvalidResponse), map[]);
      if built.Raised? {
        done, outcome := Raised(built.code), Raised(built.code);
      } else if built.value.None? {
        outcome := Perform(cfg, store.Directory(), current, None, Throws(InvalidResponse));
        done := Carry(role, None, Throws(InvalidResponse));
      } else {
        var request := built.value.value;
        Happens(Dispatch(order));
        var reply := callback(request);
        AnswerStep(cfg, m, current, request, order, reply, writes(request));
        last := Complete(reply, writes(request));
        store.files := store.files + writes(request);
        base := M().(disk := store.Directory());
        outcome := Perform(cfg, store.Directory(), current, Some(request), reply);
        done := Carry(role, Some(request), reply);
      }
    }

    /** One node: a call with its two checkpoints, or the final acknowledgement. */
    method Node()
      requires at.Go? && M().proc == Between(current, at) && M().disk == store.Directory()
      modifies this`current, this`at, this`events, store
      ensures old(events) <= events && M().nodes == old(M().nodes) + 1
      ensures M().disk == store.Directory() && store.snapshot.Some?
      ensures M().proc == Between(current, at) || (M().proc == Dead && at.Stop?)
    {
      hide Steps, Entered, RequestId, Stopped, Step;
      var role := at.role;
      BeginStep(cfg, M(), current, role);
      if role.Supervisor? && !current.status.Running? {
        current := current.(next := Stop);
        store.Checkpoint(current);
        Happens(Begin);
        at := Stop;
        return;
      }
      Enter(role);
      var done, base, outcome, last := Act(role);
      SettleStep(base, current, role, outcome, done, store.Directory());
      current := if done.Done? then done.value else Stopped(current, Fault(done.code));
      if !current.status.NeedsAttention? {
        current := current.(pending := None);
      }
      store.Checkpoint(current);
      Happens(last);
      at := Onward(current, role);
    }

    /** The run: start or resume, then node after node until the run ends or is paused. The directory it
        leaves can always be loaded again. */
    method Run(resume: bool, identity: string, pauseAfter: Option<nat>) returns (final: Outcome<State>)
      requires M().proc.Dead? && M().disk == store.Directory()
      requires pauseAfter.Some? ==> pauseAfter.value >= 1
      modifies this`current, this`at, this`events, store
      ensures old(events) <= events && M().proc.Dead? && M().disk == store.Directory()
      ensures final.Done? ==> store.Directory().snapshot == Some(final.value)
      ensures final.Done? <==> if resume then old(M().disk.snapshot).Some? && identity == cfg.identity
                               else old(M().disk.snapshot).None?
    {
      hide Steps, Step, Stopped, Loads;
      if resume {
        if store.snapshot.Some? { SnapshotLoads(cfg, events); }
        var loaded := store.Load(identity);
        if loaded.Raised? {
          return Raised(loaded.code);
        }
        ResumeStep(cfg, M(), identity);
        current := loaded.value;
        if current.pending.Some? {
          current := Stopped(current, Fault(UncertainRequest));
          store.Checkpoint(current);
          Happens(Resume(identity));
          return Done(current);
        }
        if !current.status.Running? {
          return Done(current);
        }
        Happens(Resume(identity));
        at := current.next;
      } else {
        if store.snapshot.Some? {
          return Raised(InvalidResponse);
        }
        StartStep(cfg, M());
        current := Initial(cfg);
        store.Checkpoint(current);
        Happens(Start);
        at := Go(Supervisor);
      }
      var count := 0;
      while at.Go? && (pauseAfter.None? || count < pauseAfter.value)
        invariant old(events) <= events && M().disk == store.Directory() && store.snapshot.Some?
        invariant M().proc == Between(current, at) || (M().proc == Dead && at.Stop?)
        decreases 2 * cfg.limits.supervisorSteps + 1 - M().nodes
      {
        Node();
        RunsAreShort(cfg, events);
        count := count + 1;
      }
      PauseStep(cfg, M());
      Happens(Pause);
      SnapshotLoads(cfg, events);
      final := store.Load(cfg.identity);
    }
  }

  lemma {:induction false} BeginStep(cfg: Config, m: Machine, s: State, role: Role)
    requires m.proc == Between(s, Go(role))
    ensures var n := Step(cfg, m, Begin);
            n.nodes == m.nodes + 1
            && (role.Supervisor? && !s.status.Running? ==> n.proc == Dead && n.disk == Save(m.disk, s.(next := Stop)))
  {
    hide Entered;
  }

  lemma {:induction false} SettleStep(base: Machine, s: State, role: Role, outcome: Outcome<(Disk, State)>,
          done: Outcome<State>, now: Disk)
    requires s.pending.Some? && s.pending.value.role == role && SameOutcome(outcome, done, base.disk, now)
    ensures var t := if done.Done? then done.value else Stopped(s, Fault(done.code));
            var next := if t.status.NeedsAttention? then t else t.(pending := None);
            var n := Finished(base, s, outcome);
            n.nodes == base.nodes && n.disk == Save(now, next) && n.proc == Between(next, Onward(next, role))
  {
    hide Stopped;
  }

  lemma {:induction false} ResumeStep(cfg: Config, m: Machine, identity: string)
    requires m.proc.Dead?
    ensures m.disk.snapshot.Some? && m.disk.snapshot.value.identity == identity && Loads(m.disk, m.disk.snapshot.value) ==>
              var n, s := Step(cfg, m, Resume(identity)), m.disk.snapshot.value;
              && (s.pending.Some? ==> n.proc.Dead? && n.disk == Save(m.disk, Stopped(s, Fault(UncertainRequest))))
              && (s.pending.None? && s.status.Running? ==> n.proc == Between(s, s.next) && n.disk == m.disk)
  {
    hide Loads, Stopped;
  }

  lemma {:induction false} StartStep(cfg: Config, m: Machine)
    requires m.proc.Dead? && m.disk.snapshot.None?
    ensures var n := Step(cfg, m, Start); n.proc == Between(Initial(cfg), Go(Supervisor)) && n.disk == Save(m.disk, Initial(cfg))
  {
    hide Initial;
  }

  lemma {:induction false} PauseStep(cfg: Config, m: Machine)
    requires m.proc.Between? || m.proc.Dead?
    ensures Step(cfg, m, Pause) == m.(proc := Dead)
  {
  }

  /** What a run knows when it is about to build a request. */
  lemma {:induction false} Answerable(cfg: Config, es: seq<Event>, role: Role, s: State)
    requires Steps(cfg, EMPTY, es).proc == Calling(s) && s.pending.Some? && s.pending.value.role == role
    ensures Enumerates(Listed(s), s.results.Keys)
    ensures var built := Build(cfg, Steps(cfg, EMPTY, es).disk, s, role, Listed(s));
            built.Done? ==> RequestOf(role, built.value) && (built.value.None? ==> role.Supervisor?)
  {
    hide Steps, CallOk, Enumerates, Listed;
    Reachable(cfg, es);
    CallingState(cfg, Steps(cfg, EMPTY, es));
    var m := Steps(cfg, EMPTY, es);
    CallRole(cfg, m.disk, ToSet(m.trace), m.asked, s);
    ListedFor(cfg, m.disk, m.asked, s);
    var built := Build(cfg, m.disk, s, role, Listed(s));
    if built.Done? && built.value.Some? {
      Builds(cfg, m.disk, m.asked, s, role, Listed(s), built.value.value);
      AskedIsAnswerable(cfg, s, role, built.value.value);
    }
    BuildsNothing(cfg, m.disk, s, role, Listed(s));
  }

  lemma {:induction false} BuildsNothing(cfg: Config, disk: Disk, s: State, role: Role, order: seq<Role>)
    ensures Build(cfg, disk, s, role, order) == Done(None) ==> role.Supervisor?
  {
    hide BuildDecide;
  }

  lemma {:induction false} ListedFor(cfg: Config, disk: Disk, asked: map<Key, Request>, s: State)
    requires Content(cfg, disk, asked, s)
    ensures Enumerates(Listed(s), s.results.Keys)
  {
    ListedEnumerates(cfg, disk, s);
  }
}
