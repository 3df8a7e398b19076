/** Who may be called next, and what it is told: for every role, exactly when the Supervisor may choose it and which
    notes go with its request (`choices` and `_feedback` in agents/supervisor.py). */
module RunChoices {
  import opened Schema
  import opened Conflicts
  import opened Contracts
  import opened RunMachine

  /** A view has to be done, or done again. The technical research goes before the others, and views that were asked to
      be redone before views that were never ready. */
  predicate ViewDue(s: State, v: Role) {
    var researchDue := !Ready(s, Research) || Research in s.feedback;
    if v.Research? then researchDue
    else
      && IsView(v) && !researchDue
      && (v in s.feedback || (!Ready(s, v) && forall w :: IsView(w) ==> w !in s.feedback))
  }

  predicate NoneDue(s: State) { forall v :: IsView(v) ==> !ViewDue(s, v) }

  predicate CanTry(cfg: Config, s: State, v: Role) { Attempts(s, v) < cfg.limits.workerAttempts }

  predicate AllCanTry(cfg: Config, s: State) { forall v :: IsView(v) && ViewDue(s, v) ==> CanTry(cfg, s, v) }

  predicate WriterCanTry(cfg: Config, s: State) { Attempts(s, Writer) < cfg.limits.writerAttempts }

  predicate WriterAsked(s: State) { Writer in s.feedback && s.feedback[Writer] != [] }

  lemma {:induction false} ViewsAre(v: Role)
    ensures v in VIEWS <==> IsView(v)
  {
  }

  lemma {:induction false} FilterEmpty(views: seq<Role>, p: Role -> bool)
    ensures Filter(views, p) == [] <==> forall v :: v in views ==> !p(v)
  {
    hide Filter;
    if Filter(views, p) != [] { assert Filter(views, p)[0] in Filter(views, p); }
  }

  lemma {:induction false} TargetsAreDue(s: State, v: Role)
    ensures v in Targets(s) <==> IsView(v) && ViewDue(s, v)
  {
    hide Ready, Filter, VIEWS, IsView;
    FilterEmpty(VIEWS, w => w in s.feedback);
    forall w ensures w in VIEWS <==> IsView(w) { ViewsAre(w); }
    ViewsAre(Research);
    assert IsView(Research) by { ResearchIsView(); }
  }

  lemma {:induction false} ResearchIsView()
    ensures IsView(Research)
  {
  }

  lemma {:induction false} NoTargets(s: State)
    ensures Targets(s) == [] <==> NoneDue(s)
  {
    hide Targets, ViewDue;
    forall v ensures v in Targets(s) <==> IsView(v) && ViewDue(s, v) { TargetsAreDue(s, v); }
    if Targets(s) != [] { assert Targets(s)[0] in Targets(s); }
  }

  /** Among the roles that produce the report: due views, all at once and only while each has an attempt left; with no
      view due the writer, and beside it any view with an attempt left unless the writer itself was asked to repair. */
  predicate MayFollow(cfg: Config, s: State, r: Role) {
    if IsView(r) && ViewDue(s, r) then AllCanTry(cfg, s)
    else && NoneDue(s) && WriterCanTry(cfg, s)
         && (r.Writer? || (IsView(r) && CanTry(cfg, s, r) && !WriterAsked(s)))
  }

  lemma {:induction false} DueOffered(cfg: Config, s: State, r: Role)
    requires Targets(s) != []
    ensures Offers(AfterVerdict(cfg, s), r) <==> IsView(r) && ViewDue(s, r) && AllCanTry(cfg, s)
  {
    hide Targets, ViewDue, Attempts, IsView, Filter;
    var targets := Targets(s);
    forall v ensures v in targets <==> IsView(v) && ViewDue(s, v) { TargetsAreDue(s, v); }
    assert targets == [targets[0]] + targets[1..] && targets[0] in targets;
    assert r in targets <==> r == targets[0] || r in targets[1..];
    assert AllCanTry(cfg, s) <==> !exists v :: v in targets && Attempts(s, v) >= cfg.limits.workerAttempts;
  }

  lemma {:induction false} WriterOffered(cfg: Config, s: State, r: Role)
    requires Targets(s) == []
    ensures Offers(AfterVerdict(cfg, s), r) <==>
              WriterCanTry(cfg, s) && (r.Writer? || (IsView(r) && CanTry(cfg, s, r) && !WriterAsked(s)))
  {
    hide Targets, Attempts, Filter, VIEWS, IsView;
    ViewsAre(r);
  }

  lemma {:induction false} AfterVerdictExactly(cfg: Config, s: State, r: Role)
    ensures Offers(AfterVerdict(cfg, s), r) <==> MayFollow(cfg, s, r)
  {
    hide Targets, ViewDue, AllCanTry, WriterCanTry, CanTry, WriterAsked, Offers, AfterVerdict, IsView;
    NoTargets(s);
    TargetsAreDue(s, r);
    if Targets(s) != [] { DueOffered(cfg, s, r); } else { WriterOffered(cfg, s, r); }
  }

  /** The evaluation that is stored passed. */
  predicate StoredPass(disk: Disk, s: State) {
    s.evaluation.Some? && var e := FetchEvaluation(disk, s.evaluation);
    e.Some? && e.value.error.None? && e.value.passed
  }

  /** For every role, in every state: the Supervisor may choose it exactly when the run is going on, a step is left,
      and its own turn has come. Only a passed evaluation opens the publisher, only an unjudged report the evaluator;
      and the menu cannot be read exactly when the stored evaluation is missing. */
  lemma {:induction false} OffersExactly(cfg: Config, disk: Disk, s: State, r: Role)
    ensures Choices(cfg, disk, s).Raised? <==>
              s.status.Running? && s.lastError.None? && s.steps < cfg.limits.supervisorSteps
              && s.evaluation.Some? && FetchEvaluation(disk, s.evaluation).None?
    ensures Choices(cfg, disk, s).Done? ==>
              (Offers(Choices(cfg, disk, s).value, r) <==>
                 && s.status.Running? && s.lastError.None? && s.steps < cfg.limits.supervisorSteps
                 && if StoredPass(disk, s) then r.Publisher?
                    else if s.evaluation.None? && s.report.Some? then r.Evaluator?
                    else MayFollow(cfg, s, r))
  {
    AfterVerdictExactly(cfg, s, r);
    hide AfterVerdict, MayFollow;
  }

  // ---------- What a role is told ----------

  lemma {:induction false} RepairNotesAre(repairs: seq<RepairRequest>, role: Role, n: string)
    ensures n in RepairNotes(repairs, role) <==>
              exists k :: 0 <= k < |repairs| && repairs[k].target == role && n == RepairNote(repairs[k])
  {
    if repairs != [] {
      hide RepairNote;
      var last := |repairs| - 1;
      RepairNotesAre(repairs[..last], role, n);
      assert forall k :: 0 <= k < last ==> repairs[..last][k] == repairs[k];
    }
  }

  lemma {:induction false} GapsAre(assessments: Named<Assessment>, n: string)
    ensures n in AllGaps(assessments) <==> exists k :: 0 <= k < |assessments| && n in assessments[k].1.gaps
  {
    if assessments != [] {
      var last := |assessments| - 1;
      GapsAre(assessments[..last], n);
      assert forall k :: 0 <= k < last ==> assessments[..last][k] == assessments[k];
    }
  }

  /** A repair that the stored evaluation asks of the role. */
  predicate RepairAsked(disk: Disk, s: State, role: Role, n: string) {
    var source := FetchEvaluation(disk, s.repairSource);
    source.Some? && exists k :: 0 <= k < |source.value.repairs| && source.value.repairs[k].target == role
                                && n == RepairNote(source.value.repairs[k])
  }

  /** A gap that the role's earlier result left open. */
  predicate GapLeft(disk: Disk, s: State, role: Role, n: string) {
    var earlier := FetchResearch(disk, s, role);
    earlier.Some? && exists k :: 0 <= k < |earlier.value.assessments| && n in earlier.value.assessments[k].1.gaps
  }

  /** A role that was asked to redo its work is told, each once, the notes it was left, every repair that the stored
      evaluation asks of it and every gap of its earlier result; a role that was not asked is told nothing. */
  lemma {:induction false} NotesExactly(disk: Disk, s: State, role: Role, n: string)
    requires Notes(disk, s, role).Done?
    ensures Distinct(Notes(disk, s, role).value)
    ensures n in Notes(disk, s, role).value <==>
              role in s.feedback && (n in s.feedback[role] || RepairAsked(disk, s, role, n) || GapLeft(disk, s, role, n))
  {
    hide RepairNotes, AllGaps, RepairNote, FetchResearch, FetchEvaluation;
    if role in s.feedback {
      var source, earlier := FetchEvaluation(disk, s.repairSource), FetchResearch(disk, s, role);
      NoEvaluation(disk, s);
      NoResult(disk, s, role);
      if source.Some? { RepairNotesAre(source.value.repairs, role, n); }
      if earlier.Some? { GapsAre(earlier.value.assessments, n); }
      var repairs := if source.Some? then RepairNotes(source.value.repairs, role) else [];
      UniqueIn(s.feedback[role] + repairs, n);
      if earlier.Some? { UniqueIn(s.feedback[role] + repairs + AllGaps(earlier.value.assessments), n); }
    }
  }

  function RepairsTold(disk: Disk, s: State, role: Role): seq<string> {
    var source := FetchEvaluation(disk, s.repairSource);
    if source.Some? then RepairNotes(source.value.repairs, role) else []
  }

  lemma {:induction false} ToldAre(disk: Disk, s: State, role: Role, n: string)
    ensures n in RepairsTold(disk, s, role) <==> RepairAsked(disk, s, role, n)
  {
    hide RepairNotes, RepairNote, FetchEvaluation;
    var source := FetchEvaluation(disk, s.repairSource);
    if source.Some? { RepairNotesAre(source.value.repairs, role, n); }
  }

  lemma {:induction false} NotesParts(disk: Disk, s: State, role: Role) returns (gaps: seq<string>)
    requires Notes(disk, s, role).Done? && role in s.feedback
    ensures Notes(disk, s, role).value == Unique(s.feedback[role] + RepairsTold(disk, s, role) + gaps)
  {
    hide RepairNotes, AllGaps, FetchResearch, FetchEvaluation, Unique;
    var result := FetchResearch(disk, s, role);
    NoEvaluation(disk, s);
    NoResult(disk, s, role);
    gaps := if result.Some? then AllGaps(result.value.assessments) else [];
    var told := s.feedback[role] + RepairsTold(disk, s, role);
    assert told + [] == told;
  }

  lemma {:induction false} PartsInOrder(a: seq<string>, b: seq<string>, c: seq<string>, k: nat, l: nat)
    requires k < l < |Unique(a + b + c)|
    ensures var u := Unique(a + b + c);
            && (u[l] in a ==> u[k] in a) && (u[l] in a || u[l] in b ==> u[k] in a || u[k] in b)
  {
    assert a + b + c == a + (b + c);
    UniqueLeads(a, b + c);
    UniqueLeads(a + b, c);
    hide Unique;
    var u := Unique(a + b + c);
    assert Leads(u, a) && Leads(u, a + b);
  }

  /** The notes that were left come first, then the repairs, and the gaps last. */
  lemma {:induction false} NotesInOrder(disk: Disk, s: State, role: Role, k: nat, l: nat)
    requires Notes(disk, s, role).Done? && role in s.feedback && k < l < |Notes(disk, s, role).value|
    ensures var earlier, later := Notes(disk, s, role).value[k], Notes(disk, s, role).value[l];
            && (later in s.feedback[role] ==> earlier in s.feedback[role])
            && (later in s.feedback[role] || RepairAsked(disk, s, role, later) ==>
                  earlier in s.feedback[role] || RepairAsked(disk, s, role, earlier))
  {
    hide Notes, Unique, RepairsTold, RepairAsked;
    var notes := Notes(disk, s, role).value;
    var gaps := NotesParts(disk, s, role);
    ToldAre(disk, s, role, notes[k]);
    ToldAre(disk, s, role, notes[l]);
    PartsInOrder(s.feedback[role], RepairsTold(disk, s, role), gaps, k, l);
  }

  lemma {:induction false} UniqueIn(notes: seq<string>, n: string)
    ensures n in Unique(notes) <==> n in notes
  {
    hide Unique;
    var u := Unique(notes);
    if n in u { var k :| 0 <= k < |u| && u[k] == n; }
    if n in notes { var k :| 0 <= k < |notes| && notes[k] == n; }
  }

  lemma {:induction false} NoEvaluation(disk: Disk, s: State)
    ensures s.repairSource.None? ==> FetchEvaluation(disk, s.repairSource).None?
  {
  }

  lemma {:induction false} NoResult(disk: Disk, s: State, role: Role)
    ensures role !in s.results ==> FetchResearch(disk, s, role).None?
  {
  }

  // ---------- Every repair reaches the role that has to act ----------

  lemma {:induction false} ReasonsAre(repairs: seq<RepairRequest>, role: Role)
    ensures Reasons(repairs, role) != [] <==> exists k :: 0 <= k < |repairs| && repairs[k].target == role
  {
    if repairs != [] {
      hide Cut;
      var last := |repairs| - 1;
      ReasonsAre(repairs[..last], role);
      assert forall k :: 0 <= k < last ==> repairs[..last][k] == repairs[k];
    }
  }

  lemma {:induction false} AskedByVerdict(s: State, e: EvaluationResult, role: Role)
    ensures role in Evaluated(s, e).feedback <==>
              (IsView(role) || role.Writer?) && exists k :: 0 <= k < |e.repairs| && e.repairs[k].target == role
  {
    hide RepairFeedback, Reasons, VIEWS, IsView, ToSet;
    ReasonsAre(e.repairs, role);
    CanRepair(role);
    FeedbackFor(e.repairs, role);
  }

  lemma {:induction false} FeedbackFor(repairs: seq<RepairRequest>, role: Role)
    ensures role in RepairFeedback(repairs) <==> role in ToSet(VIEWS + [Writer]) && Reasons(repairs, role) != []
  {
    hide CutAll, Reasons, VIEWS, ToSet;
  }

  lemma {:induction false} CanRepair(role: Role)
    ensures role in ToSet(VIEWS + [Writer]) <==> IsView(role) || role.Writer?
  {
    assert VIEWS + [Writer] == [Research, Market, Stakeholder, Domain, Writer];
  }

  /** After a verdict exactly the targets of its repairs are asked to act, and each is told every repair meant for
      it. */
  lemma {:induction false} RepairsAreTold(disk: Disk, s: State, e: EvaluationResult, k: nat)
    requires k < |e.repairs| && (IsView(e.repairs[k].target) || e.repairs[k].target.Writer?)
    requires var t := Evaluated(s, e); t.evaluation.Some? && Fetch(disk, t.evaluation.value) == Some(EvaluationPayload(e))
    requires Notes(disk, Evaluated(s, e), e.repairs[k].target).Done?
    ensures RepairNote(e.repairs[k]) in Notes(disk, Evaluated(s, e), e.repairs[k].target).value
    ensures forall role :: role in Evaluated(s, e).feedback <==>
              (IsView(role) || role.Writer?) && exists j :: 0 <= j < |e.repairs| && e.repairs[j].target == role
  {
    hide Notes, RepairNote, RepairFeedback, GapLeft;
    var t, role := Evaluated(s, e), e.repairs[k].target;
    forall r ensures r in t.feedback <==>
      (IsView(r) || r.Writer?) && exists j :: 0 <= j < |e.repairs| && e.repairs[j].target == r { AskedByVerdict(s, e, r); }
    assert FetchEvaluation(disk, t.repairSource) == Some(e);
    assert RepairAsked(disk, t, role, RepairNote(e.repairs[k]));
    NotesExactly(disk, t, role, RepairNote(e.repairs[k]));
  }
}
