/** The quality evaluation: code checks, the Judge's findings, the verdict and the repair requests it
    routes (rag/evaluator.py). */
module Evaluator {
  import opened Schema
  import opened Texts
  import opened Ids
  import opened Evidence
  import opened Reports
  import opened Conflicts
  import opened Contracts
  import opened Render
  import RenderLines

  // ---------- Findings ----------

  datatype Finding = Finding(
    criterion: Criterion, target: string, claimIds: seq<string>, evidenceIds: seq<string>,
    issue: string, request: string, missing: seq<string>)

  datatype Judgement = Judgement(criterion: Criterion, revise: bool, rationale: string, findings: seq<Finding>)

  const CRITERIA := [Groundedness, Neutrality, BiasControl, Coverage]

  function Judged(draft: seq<Judgement>): (cs: seq<Criterion>)
    ensures |cs| == |draft|
  {
    seq(|draft|, k requires 0 <= k < |draft| => draft[k].criterion)
  }

  /** The Judge's draft: each criterion once, and a finding for every verdict to revise. */
  predicate DraftValid(draft: seq<Judgement>) {
    && |draft| == 4 && ToSet(Judged(draft)) == {Groundedness, Neutrality, BiasControl, Coverage}
    && forall k :: 0 <= k < |draft| ==> (draft[k].revise ==> draft[k].findings != [])
  }

  predicate FindingKnown(f: Finding, criterion: Criterion, claimIds: set<string>, evidenceIds: set<string>) {
    f.criterion == criterion && ToSet(f.claimIds) <= claimIds && ToSet(f.evidenceIds) <= evidenceIds
  }

  /** `_validate_judge_references`. */
  predicate JudgeKnown(draft: seq<Judgement>, claimIds: set<string>, evidenceIds: set<string>) {
    forall k, j :: 0 <= k < |draft| && 0 <= j < |draft[k].findings| ==>
      FindingKnown(draft[k].findings[j], draft[k].criterion, claimIds, evidenceIds)
  }

  /** `by_criterion[criterion]`. */
  function ItemFor(draft: seq<Judgement>, c: Criterion): (r: Option<Judgement>)
    ensures r.Some? ==> r.value.criterion == c && r.value in draft
  {
    if draft == [] then None
    else if draft[|draft| - 1].criterion == c then Some(draft[|draft| - 1])
    else ItemFor(draft[..|draft| - 1], c)
  }

  // ---------- Code checks ----------

  const PERSPECTIVES := [MATURITY, MARKET, STAKEHOLDER, DOMAIN]

  /** The messages of the code checks for the two criteria they cover, and the perspectives without a body claim. */
  datatype CodeChecks = CodeChecks(groundedness: seq<string>, coverage: seq<string>, missing: seq<string>)

  /** How messages are worded, and which of them are about citations. */
  datatype Wording = Wording(
    describe: ReportError -> string, aboutClaim: ClaimFailure -> string, citation: string -> bool,
    missingLink: string -> string, noLink: string, wrongLinks: string, absent: string -> string)

  function LabelOf(perspective: string): string {
    var title := SectionFor(perspective);
    if title.Some? then title.value else perspective
  }

  predicate InBody(report: Report, claims: Claims, name: string) {
    exists k :: 0 <= k < |BodyIds(report.sections)| && BodyIds(report.sections)[k] in claims
      && LabelOf(claims[BodyIds(report.sections)[k]].perspective) == name
  }

  function Missing(report: Report, claims: Claims, labels: seq<string>): seq<string> {
    if labels == [] then []
    else
      var l := labels[|labels| - 1];
      Missing(report, claims, labels[..|labels| - 1]) + (if InBody(report, claims, l) then [] else [l])
  }

  /** A perspective is absent exactly when no known claim of any section belongs to it. */
  lemma {:induction false} AbsentExactly(report: Report, claims: Claims, labels: seq<string>, name: string)
    ensures name in Missing(report, claims, labels) <==>
              name in labels
              && forall n, id :: 0 <= n < |report.sections| && id in report.sections[n].claimIds && id in claims ==>
                   !CountsFor(claims[id].perspective, name)
  {
    if labels == [] {
    } else {
      hide InBody, SectionFor;
      AbsentExactly(report, claims, labels[..|labels| - 1], name);
      assert labels == labels[..|labels| - 1] + [labels[|labels| - 1]];
      InBodyMeans(report, claims, name);
    }
  }

  /** The perspective has the section of this title, or has no section and this very name. */
  predicate CountsFor(perspective: string, name: string) {
    SectionFor(perspective) == Some(name) || (SectionFor(perspective).None? && perspective == name)
  }

  lemma {:induction false} InBodyMeans(report: Report, claims: Claims, name: string)
    ensures InBody(report, claims, name) <==>
              exists n, id :: 0 <= n < |report.sections| && id in report.sections[n].claimIds && id in claims
                              && CountsFor(claims[id].perspective, name)
  {
    hide SectionFor;
    var body := BodyIds(report.sections);
    forall id ensures id in body <==> exists n :: 0 <= n < |report.sections| && id in report.sections[n].claimIds {
      BodyHolds(report.sections, id);
    }
    if InBody(report, claims, name) {
      var k :| 0 <= k < |body| && body[k] in claims && LabelOf(claims[body[k]].perspective) == name;
      assert body[k] in body;
    }
    if n, id :| 0 <= n < |report.sections| && id in report.sections[n].claimIds && id in claims
                && CountsFor(claims[id].perspective, name)
    {
      assert id in body;
      var k :| 0 <= k < |body| && body[k] == id;
      assert LabelOf(claims[body[k]].perspective) == name;
    }
  }

  function LinkOf(item: EvidenceRecord): (string, string) { (item.ref.chunkId, Normalized(item.ref.quote)) }

  function RefLinks(refs: seq<Reference>): set<(string, string)> {
    set k | 0 <= k < |refs| :: (refs[k].chunkId, Normalized(refs[k].quote))
  }

  function EvidenceLinks(ids: seq<string>, evidence: map<string, EvidenceRecord>): set<(string, string)> {
    set k | 0 <= k < |ids| && ids[k] in evidence :: LinkOf(evidence[ids[k]])
  }

  function MissingLinks(ids: seq<string>, evidence: map<string, EvidenceRecord>, w: Wording): seq<string> {
    if ids == [] then []
    else
      var id := ids[|ids| - 1];
      MissingLinks(ids[..|ids| - 1], evidence, w) + (if id in evidence then [] else [w.missingLink(id)])
  }

  function Described(failures: seq<ClaimFailure>, w: Wording): (ms: seq<string>)
    ensures |ms| == |failures|
  {
    seq(|failures|, k requires 0 <= k < |failures| => w.aboutClaim(failures[k]))
  }

  /** The messages about one used claim, before the claim id is put in front. */
  function ClaimMessages(r: ClaimRecord, evidence: map<string, EvidenceRecord>, chunks: seq<Chunk>,
          w: Wording): seq<string> {
    var ids := Unique(r.evidenceIds);
    Described(ClaimFailures(r.claim, chunks, None), w) + MissingLinks(ids, evidence, w)
    + (if r.claim.kind !in {Scenario, Unknown} && ids == [] then [w.noLink] else [])
    + (if r.claim.references != [] && EvidenceLinks(ids, evidence) != RefLinks(r.claim.references) then [w.wrongLinks] else [])
  }

  function Prefixed(id: string, messages: seq<string>): (ms: seq<string>)
    ensures |ms| == |messages|
  {
    seq(|messages|, k requires 0 <= k < |messages| => id + ": " + messages[k])
  }

  function GroundMessages(used: seq<string>, joined: Joined, chunks: seq<Chunk>, w: Wording): seq<string> {
    if used == [] then []
    else
      var id := used[|used| - 1];
      GroundMessages(used[..|used| - 1], joined, chunks, w)
      + (if id in Dict(joined.claims) then Prefixed(id, ClaimMessages(Dict(joined.claims)[id], joined.evidence, chunks, w)) else [])
  }

  function Layout(errors: seq<ReportError>, w: Wording): (ms: seq<string>)
    ensures |ms| == |errors|
  {
    seq(|errors|, k requires 0 <= k < |errors| => w.describe(errors[k]))
  }

  function OnCitations(w: Wording): string -> bool { (m: string) => w.citation(m) }

  function OffCitations(w: Wording): string -> bool { (m: string) => !w.citation(m) }

  function Absences(missing: seq<string>, w: Wording): (ms: seq<string>)
    ensures |ms| == |missing| && forall k :: 0 <= k < |missing| ==> ms[k] == w.absent(missing[k])
  {
    seq(|missing|, k requires 0 <= k < |missing| => w.absent(missing[k]))
  }

  /** Every claim the report uses has nothing wrong with it or its links. */
  predicate UsedSound(used: seq<string>, joined: Joined, chunks: seq<Chunk>, w: Wording) {
    forall k :: 0 <= k < |used| && used[k] in Dict(joined.claims) ==>
      ClaimMessages(Dict(joined.claims)[used[k]], joined.evidence, chunks, w) == []
  }

  lemma {:induction false} GroundIffSound(used: seq<string>, joined: Joined, chunks: seq<Chunk>, w: Wording)
    ensures GroundMessages(used, joined, chunks, w) == [] <==> UsedSound(used, joined, chunks, w)
  {
    if used != [] {
      hide ClaimMessages, Dict;
      var n := |used| - 1;
      GroundIffSound(used[..n], joined, chunks, w);
      assert forall k :: 0 <= k < n ==> used[..n][k] == used[k];
    }
  }

  /** A claim draws no message exactly when it is grounded in the chunks, every evidence id is in the registry, and the
      linked evidence is the claim's own references. */
  lemma {:induction false} NoMessageIff(r: ClaimRecord, evidence: map<string, EvidenceRecord>, chunks: seq<Chunk>,
          w: Wording)
    ensures ClaimMessages(r, evidence, chunks, w) == [] <==>
              (ClaimFailures(r.claim, chunks, None) == []
               && (forall k :: 0 <= k < |r.evidenceIds| ==> r.evidenceIds[k] in evidence)
               && (r.claim.kind in {Scenario, Unknown} || r.evidenceIds != [])
               && (r.claim.references == [] || EvidenceLinks(Unique(r.evidenceIds), evidence) == RefLinks(r.claim.references)))
  {
    hide ClaimFailures, EvidenceLinks, RefLinks, Unique;
    var ids := Unique(r.evidenceIds);
    UniqueEmpty(r.evidenceIds);
    LinksKnown(ids, evidence, w);
    forall k | 0 <= k < |ids| ensures ids[k] in r.evidenceIds {}
    assert (forall k :: 0 <= k < |ids| ==> ids[k] in evidence) <==> (forall k :: 0 <= k < |r.evidenceIds| ==> r.evidenceIds[k] in evidence) by {
      forall k | 0 <= k < |r.evidenceIds| ensures exists j :: 0 <= j < |ids| && ids[j] == r.evidenceIds[k] {
        assert r.evidenceIds[k] in ids;
      }
    }
  }

  lemma {:induction false} LinksKnown(ids: seq<string>, evidence: map<string, EvidenceRecord>, w: Wording)
    ensures MissingLinks(ids, evidence, w) == [] <==> forall k :: 0 <= k < |ids| ==> ids[k] in evidence
  {
    if ids != [] {
      var n := |ids| - 1;
      LinksKnown(ids[..n], evidence, w);
      assert forall k :: 0 <= k < n ==> ids[..n][k] == ids[k];
    }
  }

  /** What `_code_checks` must report. `layout` are the structural errors of the report, none exactly when it is
      sound. Every message is reported under one of the two criteria and nothing else is: messages about citations and
      about used claims under groundedness; other layout messages, absent perspectives and schema errors under
      coverage. */
  ghost predicate Checked(checks: CodeChecks, layout: seq<ReportError>, report: Report, joined: Joined,
          chunks: seq<Chunk>, schema: seq<string>, w: Wording) {
    var ground, messages := GroundMessages(UsedClaims(report), joined, chunks, w), Layout(layout, w);
    && (layout == [] <==> ReportSound(report, Dict(joined.claims), chunks, Some(joined.gapRecords)))
    && checks.missing == Missing(report, Dict(joined.claims), PERSPECTIVES)
    && (forall m :: m in checks.groundedness <==> m in ground || (m in messages && w.citation(m)))
    && (forall m :: m in checks.coverage <==>
          (m in messages && !w.citation(m)) || m in Absences(checks.missing, w) || m in schema)
  }

  /** Both criteria are clean exactly when the used claims, the report's structure, its schema and its perspectives
      are. */
  lemma {:induction false} CleanExactly(checks: CodeChecks, layout: seq<ReportError>, report: Report, joined: Joined,
          chunks: seq<Chunk>, schema: seq<string>, w: Wording)
    requires Checked(checks, layout, report, joined, chunks, schema, w)
    ensures checks.groundedness == [] && checks.coverage == [] <==>
              (UsedSound(UsedClaims(report), joined, chunks, w) && schema == [] && checks.missing == []
               && ReportSound(report, Dict(joined.claims), chunks, Some(joined.gapRecords)))
  {
    hide ReportSound, Dict, Missing, UsedSound, UsedClaims, GroundMessages;
    var ground, messages, absences := GroundMessages(UsedClaims(report), joined, chunks, w), Layout(layout, w), Absences(checks.missing, w);
    GroundIffSound(UsedClaims(report), joined, chunks, w);
    assert layout != [] ==> messages[0] in messages;
    assert ground != [] ==> ground[0] in ground;
    assert absences != [] ==> absences[0] in absences;
    assert schema != [] ==> schema[0] in schema;
    assert checks.groundedness != [] ==> checks.groundedness[0] in checks.groundedness;
    assert checks.coverage != [] ==> checks.coverage[0] in checks.coverage;
  }

  /** `_code_checks`: the layout messages are divided between the two criteria. */
  method CheckCode(report: Report, joined: Joined, chunks: seq<Chunk>, schema: seq<string>, w: Wording)
    returns (checks: CodeChecks, layout: seq<ReportError>)
    ensures Checked(checks, layout, report, joined, chunks, schema, w)
  {
    hide ReportSound, Dict, ClaimMessages, Pick, Missing, Unique, UsedSound, UsedClaims;
    var used := UsedClaims(report);
    var ground: seq<string> := [];
    for k := 0 to |used|
      invariant ground == GroundMessages(used[..k], joined, chunks, w)
    {
      var id := used[k];
      assert used[..k + 1][..k] == used[..k];
      if id in Dict(joined.claims) {
        ground := ground + Prefixed(id, ClaimMessages(Dict(joined.claims)[id], joined.evidence, chunks, w));
      } else {
        ground := ground + [];
      }
    }
    assert used[..|used|] == used;
    layout := ReportErrors(report, Dict(joined.claims), chunks, Some(joined.gapRecords));
    var messages := Layout(layout, w);
    var missing := Missing(report, Dict(joined.claims), PERSPECTIVES);
    var coverage := Pick(messages, OffCitations(w)) + Absences(missing, w) + schema;
    checks := CodeChecks(Unique(ground + Pick(messages, OnCitations(w))), Unique(coverage), missing);
    forall m ensures m in checks.groundedness <==> m in ground || (m in messages && w.citation(m)) {
      UniqueMember(ground + Pick(messages, OnCitations(w)), m);
      PickMember(messages, OnCitations(w), m);
    }
    forall m ensures m in checks.coverage <==> (m in messages && !w.citation(m)) || m in Absences(missing, w) || m in schema {
      UniqueMember(coverage, m);
      PickMember(messages, OffCitations(w), m);
    }
  }

  lemma {:induction false} UniqueEmpty<T>(s: seq<T>)
    ensures Unique(s) == [] <==> s == []
  {
    if s != [] { UniqueMember(s, s[0]); }
  }

  // ---------- Routing repairs ----------

  function RoleForLabel(name: string): Option<Role> {
    if name == MATURITY || name == "research" then Some(Research)
    else if name == MARKET || name == "market" then Some(Market)
    else if name == STAKEHOLDER || name == "stakeholder" then Some(Stakeholder)
    else if name == DOMAIN || name == "domain" then Some(Domain)
    else if name == SYNTHESIS || name == "writer" then Some(Writer)
    else None
  }

  function ClaimRole(perspective: string): Role {
    if HasPrefix(perspective, "research_") then Research
    else if perspective == "market" then Market
    else if perspective == "stakeholder" then Stakeholder
    else if perspective == "domain" then Domain
    else Writer
  }

  predicate GapOfRole(g: GapRecord, role: Role) {
    !role.Writer? && ((role.Research? && HasPrefix(g.perspective, "research_")) || g.perspective == RoleName(role))
  }

  function GapIdsFor(gaps: seq<GapRecord>, role: Role): seq<string> {
    if gaps == [] then []
    else GapIdsFor(gaps[..|gaps| - 1], role) + (if GapOfRole(gaps[|gaps| - 1], role) then [gaps[|gaps| - 1].id] else [])
  }

  function KnownIdsOf(claims: Claims): string -> bool { (id: string) => id in claims }

  function OfRole(claims: Claims, role: Role): string -> bool {
    (id: string) => id in claims && ClaimRole(claims[id].perspective) == role
  }

  function LabelRoles(labels: seq<string>): seq<Role> {
    if labels == [] then []
    else
      var role := RoleForLabel(labels[|labels| - 1]);
      LabelRoles(labels[..|labels| - 1]) + (if role.Some? then [role.value] else [])
  }

  function ClaimRoles(ids: seq<string>, claims: Claims): seq<Role> {
    if ids == [] then []
    else
      var id := ids[|ids| - 1];
      ClaimRoles(ids[..|ids| - 1], claims) + (if id in claims then [ClaimRole(claims[id].perspective)] else [])
  }

  /** The roles a finding is routed to; there is always at least one. */
  function RolesFor(f: Finding, claims: Claims): (roles: seq<Role>)
    ensures roles != []
  {
    if f.criterion.Neutrality? then [Writer]
    else
      var named := Unique(LabelRoles(f.missing));
      var target := RoleForLabel(f.target);
      if named != [] then named
      else if target.Some? then [target.value]
      else
        var owners := Unique(ClaimRoles(Pick(f.claimIds, KnownIdsOf(claims)), claims));
        if |owners| == 1 then owners else [Writer]
  }

  function ReasonOf(f: Finding): string { f.issue + " 보완 요청: " + f.request }

  function RepairFor(f: Finding, role: Role, joined: Joined): RepairRequest {
    var claims := Dict(joined.claims);
    var known := Pick(f.claimIds, KnownIdsOf(claims));
    RepairRequest(role, ReasonOf(f), if role.Writer? then known else Pick(known, OfRole(claims, role)),
                  Unique(GapIdsFor(joined.gapRecords, role)))
  }

  function RepairsOf(f: Finding, roles: seq<Role>, joined: Joined): (rs: seq<RepairRequest>)
    ensures |rs| == |roles|
  {
    seq(|roles|, k requires 0 <= k < |roles| => RepairFor(f, roles[k], joined))
  }

  /** Every repair of every finding, repetitions included. */
  function AllRepairs(problems: seq<Finding>, joined: Joined): seq<RepairRequest> {
    if problems == [] then []
    else
      var f := problems[|problems| - 1];
      AllRepairs(problems[..|problems| - 1], joined) + RepairsOf(f, RolesFor(f, Dict(joined.claims)), joined)
  }

  /** The repairs of one finding, each added unless it is already listed. */
  method AddRepairs(f: Finding, joined: Joined, output: seq<RepairRequest>, ghost all: seq<RepairRequest>)
    returns (more: seq<RepairRequest>)
    requires output == Unique(all)
    ensures more == Unique(all + RepairsOf(f, RolesFor(f, Dict(joined.claims)), joined))
  {
    hide RepairFor, RolesFor, Dict, Unique;
    var roles := RolesFor(f, Dict(joined.claims));
    more := output;
    assert all + RepairsOf(f, roles[..0], joined) == all;
    for r := 0 to |roles|
      invariant more == Unique(all + RepairsOf(f, roles[..r], joined))
    {
      var repair := RepairFor(f, roles[r], joined);
      UniqueSnoc(all + RepairsOf(f, roles[..r], joined), repair);
      RepairsSnoc(all, f, roles, r, joined);
      if repair !in more {
        more := more + [repair];
      }
    }
    assert roles[..|roles|] == roles;
  }

  lemma {:induction false} RepairsSnoc(all: seq<RepairRequest>, f: Finding, roles: seq<Role>, r: nat, joined: Joined)
    requires r < |roles|
    ensures all + RepairsOf(f, roles[..r + 1], joined) == all + RepairsOf(f, roles[..r], joined) + [RepairFor(f, roles[r], joined)]
  {
    hide RepairFor;
  }

  /** `_repair_requests`: every repair once, in order of first appearance. */
  method RepairRequests(problems: seq<Finding>, joined: Joined) returns (output: seq<RepairRequest>)
    ensures output == Unique(AllRepairs(problems, joined))
  {
    hide RepairsOf, RolesFor, Dict, Unique;
    output := [];
    assert Unique(AllRepairs([], joined)) == [] by { UniqueEmpty(AllRepairs([], joined)); }
    for k := 0 to |problems|
      invariant output == Unique(AllRepairs(problems[..k], joined))
    {
      assert problems[..k + 1][..k] == problems[..k];
      output := AddRepairs(problems[k], joined, output, AllRepairs(problems[..k], joined));
    }
    assert problems[..|problems|] == problems;
  }

  lemma {:induction false} UniqueSnoc<T>(s: seq<T>, x: T)
    ensures Unique(s + [x]) == if x in Unique(s) then Unique(s) else Unique(s) + [x]
  {
    assert (s + [x])[..|s|] == s;
  }

  /** Every finding is answered: a problem always leads to at least one repair. */
  lemma {:induction false} EveryFindingRepaired(problems: seq<Finding>, joined: Joined, k: nat)
    requires k < |problems|
    ensures exists r :: r in Unique(AllRepairs(problems, joined)) && r.reason == ReasonOf(problems[k])
                        && r.target in RolesFor(problems[k], Dict(joined.claims))
  {
    hide RolesFor, Dict, Unique;
    var role := RolesFor(problems[k], Dict(joined.claims))[0];
    RepairListed(problems, joined, k);
    UniqueMember(AllRepairs(problems, joined), RepairFor(problems[k], role, joined));
  }

  lemma {:induction false} RepairListed(problems: seq<Finding>, joined: Joined, k: nat)
    requires k < |problems|
    ensures RepairFor(problems[k], RolesFor(problems[k], Dict(joined.claims))[0], joined) in AllRepairs(problems, joined)
  {
    hide RolesFor, Dict, RepairFor;
    var n := |problems| - 1;
    if k < n {
      RepairListed(problems[..n], joined, k);
    } else {
      var roles := RolesFor(problems[k], Dict(joined.claims));
      assert RepairsOf(problems[k], roles, joined)[0] == RepairFor(problems[k], roles[0], joined);
    }
  }

  lemma {:induction false} RepairOrigin(problems: seq<Finding>, joined: Joined, r: RepairRequest)
    requires r in AllRepairs(problems, joined)
    ensures exists k, role :: 0 <= k < |problems| && r == RepairFor(problems[k], role, joined)
                              && role in RolesFor(problems[k], Dict(joined.claims))
  {
    hide RolesFor, Dict, RepairFor;
    var n := |problems| - 1;
    var roles := RolesFor(problems[n], Dict(joined.claims));
    var own := RepairsOf(problems[n], roles, joined);
    if r in own {
      var j :| 0 <= j < |own| && own[j] == r;
      assert r == RepairFor(problems[n], roles[j], joined);
    } else {
      RepairOrigin(problems[..n], joined, r);
      var k, role :| 0 <= k < n && r == RepairFor(problems[..n][k], role, joined)
                     && role in RolesFor(problems[..n][k], Dict(joined.claims));
      assert problems[..n][k] == problems[k];
    }
  }

  // ---------- Where a finding goes ----------

  /** The labels of the evaluation, the sections of the report and the assessments of the views name the same roles. */
  lemma {:induction false} LabelsName(p: string)
    requires SectionFor(p).Some?
    ensures RoleForLabel(LabelOf(p)) == Some(ClaimRole(p))
  {
    TitlesApart();
  }

  lemma {:induction false} TitlesApart()
    ensures Distinct(TITLES + ["research", "market", "stakeholder", "domain", "writer"])
  {
    assert MATURITY[0] == '기' && MARKET[0] == '시' && STAKEHOLDER[0] == '이' && DOMAIN[0] == '도' && SYNTHESIS[0] == '관';
    assert "research"[0] == 'r' && "market"[0] == 'm' && "stakeholder"[0] == 's' && "domain"[0] == 'd' && "writer"[0] == 'w';
  }

  lemma {:induction false} RolesName(v: Role)
    requires IsView(v) || v.Writer?
    ensures RoleForLabel(RoleName(v)) == Some(v)
  {
    TitlesApart();
  }

  lemma {:induction false} ViewsOwn(v: Role, name: string)
    requires IsView(v) && name in AssessmentNames(v)
    ensures ClaimRole(name) == v && SectionFor(name).Some?
    ensures forall g: GapRecord :: g.perspective == name ==> forall w :: GapOfRole(g, w) <==> w == v
  {
    assert "research_kivi"[..9] == "research_" && "research_infinigen"[..9] == "research_";
    assert "research"[0] == 'r' && "market"[0] == 'm' && "stakeholder"[0] == 's' && "domain"[0] == 'd' && "research_"[0] == 'r';
    assert "supervisor"[1] == 'u' && "evaluator"[0] == 'e' && "publish"[0] == 'p' && "stakeholder"[1] == 't';
    assert |"research"| == 8 && |"research_kivi"| == 13 && |"research_infinigen"| == 18;
  }

  lemma {:induction false} LabelRolesAre(labels: seq<string>, role: Role)
    ensures role in LabelRoles(labels) <==> exists k :: 0 <= k < |labels| && RoleForLabel(labels[k]) == Some(role)
  {
    if labels != [] {
      hide RoleForLabel;
      var n := |labels| - 1;
      LabelRolesAre(labels[..n], role);
      assert forall k :: 0 <= k < n ==> labels[..n][k] == labels[k];
    }
  }

  lemma {:induction false} ClaimRolesAre(ids: seq<string>, claims: Claims, role: Role)
    ensures role in ClaimRoles(ids, claims) <==>
              exists k :: 0 <= k < |ids| && ids[k] in claims && ClaimRole(claims[ids[k]].perspective) == role
  {
    if ids != [] {
      hide ClaimRole;
      var n := |ids| - 1;
      ClaimRolesAre(ids[..n], claims, role);
      assert forall k :: 0 <= k < n ==> ids[..n][k] == ids[k];
    }
  }

  /** Some absent perspective of the finding names the role. */
  ghost predicate NamesRole(f: Finding, role: Role) {
    exists k :: 0 <= k < |f.missing| && RoleForLabel(f.missing[k]) == Some(role)
  }

  /** Some known claim of the finding belongs to the role. */
  ghost predicate ConcernsRole(f: Finding, claims: Claims, role: Role) {
    exists id :: id in f.claimIds && id in claims && ClaimRole(claims[id].perspective) == role
  }

  /** A matter of neutrality goes to the writer; an absent perspective to the views it names; else a finding goes to the
      role its target names; else to the one role that all its known claims belong to, and to the writer when
      there is no such role. Each role is asked once. */
  lemma {:induction false} RoutesExactly(f: Finding, claims: Claims, role: Role)
    ensures Distinct(RolesFor(f, claims))
    ensures role in RolesFor(f, claims) <==>
              if f.criterion.Neutrality? then role.Writer?
              else if exists r :: NamesRole(f, r) then NamesRole(f, role)
              else if RoleForLabel(f.target).Some? then RoleForLabel(f.target) == Some(role)
              else if exists r :: OnlyRole(f, claims, r) then OnlyRole(f, claims, role)
              else role.Writer?
  {
    hide RoleForLabel, ClaimRole, OnlyRole;
    if !f.criterion.Neutrality? {
      NamedRoles(f);
      OwnerRoles(f, claims);
      hide NamesRole, LabelRoles, ClaimRoles, Unique;
    }
  }

  /** All known claims of the finding belong to the role, and there is one. */
  ghost predicate OnlyRole(f: Finding, claims: Claims, role: Role) {
    ConcernsRole(f, claims, role) && forall r :: ConcernsRole(f, claims, r) ==> r == role
  }

  lemma {:induction false} NamedRoles(f: Finding)
    ensures forall r :: r in Unique(LabelRoles(f.missing)) <==> NamesRole(f, r)
    ensures Unique(LabelRoles(f.missing)) == [] <==> !exists r :: NamesRole(f, r)
  {
    hide RoleForLabel, LabelRoles, Unique;
    var named := Unique(LabelRoles(f.missing));
    forall r ensures r in named <==> NamesRole(f, r) {
      UniqueMember(LabelRoles(f.missing), r);
      LabelRolesAre(f.missing, r);
    }
    if named != [] { assert named[0] in named; }
  }

  lemma {:induction false} OwnerRoles(f: Finding, claims: Claims)
    ensures var owners := Unique(ClaimRoles(Pick(f.claimIds, KnownIdsOf(claims)), claims));
            && (|owners| == 1 ==> OnlyRole(f, claims, owners[0]) && forall r :: OnlyRole(f, claims, r) ==> r == owners[0])
            && (|owners| != 1 ==> forall r :: !OnlyRole(f, claims, r))
  {
    hide ClaimRole, ClaimRoles, Unique, Pick;
    var known := Pick(f.claimIds, KnownIdsOf(claims));
    var owners := Unique(ClaimRoles(known, claims));
    forall r ensures r in owners <==> ConcernsRole(f, claims, r) {
      UniqueMember(ClaimRoles(known, claims), r);
      ClaimRolesAre(known, claims, r);
      forall id ensures id in known <==> id in f.claimIds && id in claims { PickMember(f.claimIds, KnownIdsOf(claims), id); }
    }
    forall r | OnlyRole(f, claims, r) ensures |owners| == 1 && owners[0] == r {
      assert r in owners;
      forall k | 0 <= k < |owners| ensures owners[k] == r { assert owners[k] in owners; }
      assert ToSet(owners) == {r};
      DistinctCard(owners);
    }
    if |owners| == 1 {
      assert owners[0] in owners;
      forall r | ConcernsRole(f, claims, r) ensures r == owners[0] { assert r in owners; }
    }
  }

  /** A finding about an absent perspective is sent exactly to the views whose assessments fill the sections it names.
      */
  lemma {:induction false} AbsentGoesToItsView(f: Finding, claims: Claims, v: Role)
    requires !f.criterion.Neutrality? && f.missing != [] && IsView(v)
    requires forall k :: 0 <= k < |f.missing| ==> f.missing[k] in PERSPECTIVES
    ensures v in RolesFor(f, claims) <==>
              exists k, name :: 0 <= k < |f.missing| && name in AssessmentNames(v) && SectionFor(name) == Some(f.missing[k])
  {
    hide RoleForLabel, ClaimRole, SectionFor, AssessmentNames, RolesFor, PERSPECTIVES;
    RoutesExactly(f, claims, v);
    forall k | 0 <= k < |f.missing|
      ensures RoleForLabel(f.missing[k]) == Some(v) <==> exists name :: name in AssessmentNames(v) && SectionFor(name) == Some(f.missing[k])
      ensures RoleForLabel(f.missing[k]).Some?
    {
      FillsItsSection(f.missing[k], v);
    }
    assert NamesRole(f, RoleForLabel(f.missing[0]).value);
  }

  lemma {:induction false} FillsItsSection(title: string, v: Role)
    requires title in PERSPECTIVES && IsView(v)
    ensures RoleForLabel(title).Some?
    ensures RoleForLabel(title) == Some(v) <==> exists name :: name in AssessmentNames(v) && SectionFor(name) == Some(title)
  {
    hide HasPrefix;
    TitlesApart();
    var name := AssessmentNames(v)[0];
    forall n | n in AssessmentNames(v) ensures SectionFor(n).Some? && RoleForLabel(SectionFor(n).value) == Some(v) {
      ViewsOwn(v, n);
      LabelsName(n);
    }
    assert name in AssessmentNames(v);
  }

  /** A repair carries the finding's own words, of its known claims those of the role it is sent to, or all of them
      when it is sent to the writer, and exactly the gaps of that role's assessments. */
  lemma {:induction false} RepairCarries(f: Finding, role: Role, joined: Joined, id: string)
    ensures var r := RepairFor(f, role, joined);
            && r.target == role && r.reason == f.issue + " 보완 요청: " + f.request
            && (id in r.claimIds <==>
                  && id in f.claimIds && id in Dict(joined.claims)
                  && (role.Writer? || ClaimRole(Dict(joined.claims)[id].perspective) == role))
            && Distinct(r.gapIds)
            && (id in r.gapIds <==>
                  exists k :: 0 <= k < |joined.gapRecords| && joined.gapRecords[k].id == id && GapOfRole(joined.gapRecords[k], role))
  {
    hide ClaimRole, Dict, Unique, GapOfRole, Pick;
    var claims := Dict(joined.claims);
    var known := Pick(f.claimIds, KnownIdsOf(claims));
    PickMember(f.claimIds, KnownIdsOf(claims), id);
    PickMember(known, OfRole(claims, role), id);
    UniqueMember(GapIdsFor(joined.gapRecords, role), id);
    GapIdsAre(joined.gapRecords, role, id);
  }

  lemma {:induction false} GapIdsAre(gaps: seq<GapRecord>, role: Role, id: string)
    ensures id in GapIdsFor(gaps, role) <==> exists k :: 0 <= k < |gaps| && gaps[k].id == id && GapOfRole(gaps[k], role)
  {
    if gaps != [] {
      hide GapOfRole;
      var n := |gaps| - 1;
      GapIdsAre(gaps[..n], role, id);
      assert forall k :: 0 <= k < n ==> gaps[..n][k] == gaps[k];
    }
  }

  // ---------- Combining the Judge and the code ----------

  function AboutId(error: string): string -> bool { (id: string) => HasPrefix(error, id + ":") }

  function NamedInText(error: string): string -> bool { (name: string) => Contains(error, name) }

  /** The used claims that a code message is about. */
  function AboutClaims(error: string, used: seq<string>): seq<string> { Pick(used, AboutId(error)) }

  function CodeFinding(c: Criterion, error: string, checks: CodeChecks, used: seq<string>): Finding {
    var missing := Pick(checks.missing, NamedInText(error));
    Finding(c, if missing != [] then missing[0] else if c.Groundedness? then "인용과 주장" else "보고서 구조",
            AboutClaims(error, used), [], "코드 검사: " + error,
            if missing != [] then missing[0] + " 관점의 주장을 보고서에 추가하거나, 해당 관점 조사 결과의 근거 공백을 명시하세요."
            else "지적된 인용, 보고서 구조 또는 관점 배치 오류를 수정한 뒤 다시 평가하세요.",
            missing)
  }

  /** What the code finds: it quotes the message, is about the used claims that the message begins with, and names the
      absent perspectives that the message speaks of. */
  lemma {:induction false} CodeFindingSays(c: Criterion, error: string, checks: CodeChecks, used: seq<string>,
          x: string)
    ensures var f := CodeFinding(c, error, checks, used);
            && f.criterion == c && f.issue == "코드 검사: " + error && f.evidenceIds == []
            && (x in f.claimIds <==> x in used && |x| < |error| && error[..|x|] == x && error[|x|] == ':')
            && (x in f.missing <==> x in checks.missing && Contains(error, x))
            && (f.missing != [] ==> f.target == f.missing[0])
  {
    hide Pick;
    PickMember(used, AboutId(error), x);
    PickMember(checks.missing, NamedInText(error), x);
    if |x| < |error| {
      assert error[..|x| + 1] == error[..|x|] + [error[|x|]];
      if error[..|x| + 1] == x + ":" { assert (x + ":")[..|x|] == x && (x + ":")[|x|] == ':'; assert error[..|x| + 1][..|x|] == error[..|x|]; }
    }
  }

  function ErrorsFor(c: Criterion, checks: CodeChecks): seq<string> {
    match c
    case Groundedness => checks.groundedness
    case Coverage => checks.coverage
    case _ => []
  }

  function CodeFindings(c: Criterion, checks: CodeChecks, used: seq<string>): (fs: seq<Finding>)
    ensures |fs| == |ErrorsFor(c, checks)|
  {
    var errors := ErrorsFor(c, checks);
    seq(|errors|, k requires 0 <= k < |errors| => CodeFinding(c, errors[k], checks, used))
  }

  /** The final verdict on one criterion. */
  function Final(item: Judgement, checks: CodeChecks, used: seq<string>): Judgement {
    var findings := item.findings + CodeFindings(item.criterion, checks, used);
    item.(revise := item.revise || findings != [], findings := findings)
  }

  function Problems(final: seq<Judgement>): seq<Finding> {
    if final == [] then [] else Problems(final[..|final| - 1]) + final[|final| - 1].findings
  }

  function FindingIds(fs: seq<Finding>): seq<string> {
    if fs == [] then [] else FindingIds(fs[..|fs| - 1]) + fs[|fs| - 1].claimIds
  }

  function ErrorIds(errors: seq<string>, used: seq<string>): seq<string> {
    if errors == [] then [] else ErrorIds(errors[..|errors| - 1], used) + AboutClaims(errors[|errors| - 1], used)
  }

  function FindingGaps(fs: seq<Finding>, joined: Joined): seq<string> {
    if fs == [] then []
    else FindingGaps(fs[..|fs| - 1], joined) + RepairGaps(AllRepairs([fs[|fs| - 1]], joined))
  }

  function RepairGaps(rs: seq<RepairRequest>): seq<string> {
    if rs == [] then [] else RepairGaps(rs[..|rs| - 1]) + rs[|rs| - 1].gapIds
  }

  function CheckFor(item: Judgement, checks: CodeChecks, used: seq<string>, joined: Joined): Check {
    var errors := ErrorsFor(item.criterion, checks);
    Check(!item.revise && errors == [], Unique(FindingIds(item.findings) + ErrorIds(errors, used)),
          Unique(FindingGaps(item.findings, joined)))
  }

  /** A check needs a reason that is not blank: the rationale or the issue of a finding. */
  predicate HasReason(item: Judgement) {
    !Blank(item.rationale) || exists k :: 0 <= k < |item.findings| && !Blank(item.findings[k].issue)
  }

  lemma {:induction false} ReasonMeans(item: Judgement)
    ensures !HasReason(item) <==>
              Blank(item.rationale) && forall j :: 0 <= j < |item.findings| ==> Blank(item.findings[j].issue)
  {
    hide Blank;
  }

  // ---------- The ids of a verdict ----------

  lemma {:induction false} GapIdKnown(gaps: seq<GapRecord>, role: Role, id: string)
    requires id in GapIdsFor(gaps, role)
    ensures id in GapIds(gaps)
  {
    var n := |gaps| - 1;
    assert GapIds(gaps)[n] == gaps[n].id && GapIds(gaps)[..n] == GapIds(gaps[..n]);
    if !(GapOfRole(gaps[n], role) && gaps[n].id == id) {
      GapIdKnown(gaps[..n], role, id);
      assert GapIds(gaps) == GapIds(gaps[..n]) + [gaps[n].id];
    }
  }

  /** Whatever a finding says, its repairs name only known claims and gaps. */
  lemma {:induction false} RepairKnown(f: Finding, role: Role, joined: Joined, d: Document)
    requires d.joined == joined
    ensures KnownIds(RepairFor(f, role, joined).claimIds, RepairFor(f, role, joined).gapIds, d)
  {
    hide Dict, Pick, Unique, GapIdsFor, ClaimRole;
    var r, claims := RepairFor(f, role, joined), Dict(joined.claims);
    var known := Pick(f.claimIds, KnownIdsOf(claims));
    forall k | 0 <= k < |r.claimIds| ensures r.claimIds[k] in claims {
      assert r.claimIds[k] in r.claimIds;
      PickMember(f.claimIds, KnownIdsOf(claims), r.claimIds[k]);
      PickMember(known, OfRole(claims, role), r.claimIds[k]);
    }
    forall k | 0 <= k < |r.gapIds| ensures r.gapIds[k] in GapIds(joined.gapRecords) {
      assert r.gapIds[k] in r.gapIds;
      UniqueMember(GapIdsFor(joined.gapRecords, role), r.gapIds[k]);
      GapIdKnown(joined.gapRecords, role, r.gapIds[k]);
    }
  }

  predicate FindingsKnown(fs: seq<Finding>, claims: Claims) {
    forall k :: 0 <= k < |fs| ==> ToSet(fs[k].claimIds) <= claims.Keys
  }

  lemma {:induction false} FindingIdKnown(fs: seq<Finding>, claims: Claims, id: string)
    requires FindingsKnown(fs, claims) && id in FindingIds(fs)
    ensures id in claims
  {
    var n := |fs| - 1;
    if id in fs[n].claimIds {
      assert id in ToSet(fs[n].claimIds);
    } else {
      assert forall k :: 0 <= k < n ==> fs[..n][k] == fs[k];
      FindingIdKnown(fs[..n], claims, id);
    }
  }

  lemma {:induction false} ErrorIdKnown(errors: seq<string>, used: seq<string>, id: string)
    requires id in ErrorIds(errors, used)
    ensures id in used
  {
    hide Pick;
    var n := |errors| - 1;
    if id in AboutClaims(errors[n], used) {
      PickMember(used, AboutId(errors[n]), id);
    } else {
      ErrorIdKnown(errors[..n], used, id);
    }
  }

  lemma {:induction false} RepairGapOrigin(rs: seq<RepairRequest>, id: string)
    requires id in RepairGaps(rs)
    ensures exists k :: 0 <= k < |rs| && id in rs[k].gapIds
  {
    var n := |rs| - 1;
    if id !in rs[n].gapIds {
      RepairGapOrigin(rs[..n], id);
      var k :| 0 <= k < n && id in rs[..n][k].gapIds;
      assert rs[..n][k] == rs[k];
    }
  }

  lemma {:induction false} FindingGapKnown(fs: seq<Finding>, d: Document, id: string)
    requires id in FindingGaps(fs, d.joined)
    ensures id in GapIds(d.joined.gapRecords)
  {
    hide AllRepairs, RepairFor, Dict, RepairGaps;
    var n := |fs| - 1;
    var rs := AllRepairs([fs[n]], d.joined);
    if id in RepairGaps(rs) {
      RepairGapOrigin(rs, id);
      var k :| 0 <= k < |rs| && id in rs[k].gapIds;
      RepairOrigin([fs[n]], d.joined, rs[k]);
      var j, role :| 0 <= j < 1 && rs[k] == RepairFor([fs[n]][j], role, d.joined) && role in RolesFor([fs[n]][j], Dict(d.joined.claims));
      RepairKnown([fs[n]][j], role, d.joined, d);
      var l :| 0 <= l < |rs[k].gapIds| && rs[k].gapIds[l] == id;
    } else {
      FindingGapKnown(fs[..n], d, id);
    }
  }

  lemma {:induction false} CheckKnown(item: Judgement, checks: CodeChecks, used: seq<string>, d: Document)
    requires FindingsKnown(item.findings, Dict(d.joined.claims))
    requires forall k :: 0 <= k < |used| ==> used[k] in Dict(d.joined.claims)
    ensures var c := CheckFor(item, checks, used, d.joined); KnownIds(c.claimIds, c.gapIds, d)
  {
    hide Dict, Unique, FindingIds, ErrorIds, FindingGaps, FindingsKnown;
    var c := CheckFor(item, checks, used, d.joined);
    var errors := ErrorsFor(item.criterion, checks);
    forall k | 0 <= k < |c.claimIds| ensures c.claimIds[k] in Dict(d.joined.claims) {
      UniqueMember(FindingIds(item.findings) + ErrorIds(errors, used), c.claimIds[k]);
      if c.claimIds[k] in FindingIds(item.findings) {
        FindingIdKnown(item.findings, Dict(d.joined.claims), c.claimIds[k]);
      } else {
        ErrorIdKnown(errors, used, c.claimIds[k]);
        var j :| 0 <= j < |used| && used[j] == c.claimIds[k];
      }
    }
    forall k | 0 <= k < |c.gapIds| ensures c.gapIds[k] in GapIds(d.joined.gapRecords) {
      UniqueMember(FindingGaps(item.findings, d.joined), c.gapIds[k]);
      FindingGapKnown(item.findings, d, c.gapIds[k]);
    }
  }

  /** The claims the Judge is shown are claims of the report. */
  function ShownIds(used: seq<string>, claims: Claims): set<string> {
    set id | id in used && id in claims :: claims[id].id
  }

  function ShownEvidence(used: seq<string>, joined: Joined): set<string> {
    set id, e | id in used && id in Dict(joined.claims) && e in Dict(joined.claims)[id].evidenceIds && e in joined.evidence :: e
  }

  lemma {:induction false} ShownAreClaims(r: ReportResult, used: seq<string>)
    requires ConsistentReport(r) && r.document.Some?
    ensures ShownIds(used, Dict(r.document.value.joined.claims)) <= Dict(r.document.value.joined.claims).Keys
  {
    hide RegistrySound, EvidenceResolves, Grounded, Dict;
    var d := r.document.value;
    var named := d.joined.claims;
    DictFaithful(named);
    forall id | id in Dict(named) ensures Dict(named)[id].id == id {
      assert id in ToSet(Keys(named));
      var k :| 0 <= k < |named| && Keys(named)[k] == id;
      assert RecordConsistent(named[k].0, named[k].1, d, r.chunks);
    }
  }

  lemma {:induction false} FinalKnown(item: Judgement, checks: CodeChecks, used: seq<string>, claims: Claims,
          shown: set<string>, evidence: set<string>)
    requires shown <= claims.Keys && (forall k :: 0 <= k < |used| ==> used[k] in claims)
    requires forall j :: 0 <= j < |item.findings| ==> FindingKnown(item.findings[j], item.criterion, shown, evidence)
    ensures FindingsKnown(Final(item, checks, used).findings, claims)
  {
    hide Pick, CodeFinding;
    var fs := Final(item, checks, used).findings;
    forall k | 0 <= k < |fs| ensures ToSet(fs[k].claimIds) <= claims.Keys {
      if k < |item.findings| {
        assert FindingKnown(item.findings[k], item.criterion, shown, evidence);
      } else {
        var error := ErrorsFor(item.criterion, checks)[k - |item.findings|];
        CodeFindingIds(item.criterion, error, checks, used);
        forall id | id in fs[k].claimIds ensures id in claims {
          PickMember(used, AboutId(error), id);
          var j :| 0 <= j < |used| && used[j] == id;
        }
      }
    }
  }

  lemma {:induction false} CodeFindingIds(c: Criterion, error: string, checks: CodeChecks, used: seq<string>)
    ensures CodeFinding(c, error, checks, used).claimIds == Pick(used, AboutId(error))
  {
    hide Pick, Contains;
  }

  // ---------- The verdict ----------

  function Finals(draft: seq<Judgement>, checks: CodeChecks, used: seq<string>): (finals: seq<Judgement>)
    requires forall c :: c in CRITERIA ==> ItemFor(draft, c).Some?
    ensures |finals| == 4
  {
    seq(4, k requires 0 <= k < 4 => Final(ItemFor(draft, CRITERIA[k]).value, checks, used))
  }

  lemma {:induction false} ItemFound(draft: seq<Judgement>, c: Criterion)
    requires c in Judged(draft)
    ensures ItemFor(draft, c).Some?
  {
    var n := |draft| - 1;
    assert Judged(draft)[n] == draft[n].criterion;
    if draft[n].criterion != c {
      assert Judged(draft) == Judged(draft[..n]) + [draft[n].criterion];
      ItemFound(draft[..n], c);
    }
  }

  lemma {:induction false} ValidHasItems(draft: seq<Judgement>)
    requires DraftValid(draft)
    ensures forall c :: c in CRITERIA ==> ItemFor(draft, c).Some?
  {
    forall c | c in CRITERIA ensures ItemFor(draft, c).Some? {
      assert c in ToSet(Judged(draft));
      ItemFound(draft, c);
    }
  }

  lemma {:induction false} ProblemsEmpty(final: seq<Judgement>)
    ensures Problems(final) == [] <==> forall k :: 0 <= k < |final| ==> final[k].findings == []
  {
    if final != [] {
      var n := |final| - 1;
      ProblemsEmpty(final[..n]);
      assert forall k :: 0 <= k < n ==> final[..n][k] == final[k];
    }
  }

  /** A criterion passes exactly when it has no finding: a code error always brings one. */
  lemma {:induction false} PassesIffNoFinding(item: Judgement, checks: CodeChecks, used: seq<string>, joined: Joined)
    requires item.revise ==> item.findings != []
    ensures CheckFor(Final(item, checks, used), checks, used, joined).passed <==> Final(item, checks, used).findings == []
  {
    hide Unique, FindingIds, ErrorIds, FindingGaps, CodeFinding;
  }

  /** There is a repair exactly when there is a problem. */
  lemma {:induction false} RepairsEmpty(problems: seq<Finding>, joined: Joined)
    ensures Unique(AllRepairs(problems, joined)) == [] <==> problems == []
  {
    if problems == [] {
      UniqueEmpty(AllRepairs(problems, joined));
    } else {
      EveryFindingRepaired(problems, joined, 0);
    }
  }

  function NotWriter(): RepairRequest -> bool { (r: RepairRequest) => !r.target.Writer? }

  function ForWriter(): RepairRequest -> bool { (r: RepairRequest) => r.target.Writer? }

  /** The stable sort that puts the writer's repairs last. */
  function WriterLast(repairs: seq<RepairRequest>): seq<RepairRequest> {
    Pick(repairs, NotWriter()) + Pick(repairs, ForWriter())
  }

  lemma {:induction false} WriterLastSame(repairs: seq<RepairRequest>)
    ensures multiset(WriterLast(repairs)) == multiset(repairs)
  {
    hide Pick;
    forall r: RepairRequest ensures multiset(WriterLast(repairs))[r] == multiset(repairs)[r] {
      PickCount(repairs, NotWriter(), r);
      PickCount(repairs, ForWriter(), r);
    }
  }

  lemma {:induction false} ReasonNotBlank(f: Finding)
    ensures !Blank(ReasonOf(f))
  {
    var s := ReasonOf(f);
    assert " 보완 요청: "[1] == '보' && !IsSpace('보');
    assert s[|f.issue| + 1] == " 보완 요청: "[1];
  }

  lemma {:induction false} RoleIsRepairable(f: Finding, claims: Claims, role: Role)
    requires role in RolesFor(f, claims)
    ensures IsView(role) || role.Writer?
  {
    hide Unique, Pick;
    UniqueMember(LabelRoles(f.missing), role);
    UniqueMember(ClaimRoles(Pick(f.claimIds, KnownIdsOf(claims)), claims), role);
    LabelRolesRepairable(f.missing, role);
    ClaimRolesRepairable(Pick(f.claimIds, KnownIdsOf(claims)), claims, role);
  }

  lemma {:induction false} LabelRolesRepairable(names: seq<string>, role: Role)
    ensures role in LabelRoles(names) ==> IsView(role) || role.Writer?
  {
    if names != [] { LabelRolesRepairable(names[..|names| - 1], role); }
  }

  lemma {:induction false} ClaimRolesRepairable(ids: seq<string>, claims: Claims, role: Role)
    ensures role in ClaimRoles(ids, claims) ==> IsView(role) || role.Writer?
  {
    if ids != [] { ClaimRolesRepairable(ids[..|ids| - 1], claims, role); }
  }

  /** Every repair that is sent has a target that can act, a reason, and ids of this report. */
  lemma {:induction false} RepairsSound(problems: seq<Finding>, d: Document, r: RepairRequest)
    requires r in WriterLast(Unique(AllRepairs(problems, d.joined)))
    ensures (IsView(r.target) || r.target.Writer?) && !Blank(r.reason) && KnownIds(r.claimIds, r.gapIds, d)
  {
    hide Unique, AllRepairs, Pick, RolesFor, Dict, RepairFor, Blank;
    var all := Unique(AllRepairs(problems, d.joined));
    PickMember(all, NotWriter(), r);
    PickMember(all, ForWriter(), r);
    UniqueMember(AllRepairs(problems, d.joined), r);
    RepairOrigin(problems, d.joined, r);
    var k, role :| 0 <= k < |problems| && r == RepairFor(problems[k], role, d.joined)
                   && role in RolesFor(problems[k], Dict(d.joined.claims));
    RepairKnown(problems[k], role, d.joined, d);
    RoleIsRepairable(problems[k], Dict(d.joined.claims), role);
    ReasonNotBlank(problems[k]);
    RepairFields(problems[k], role, d.joined);
  }

  lemma {:induction false} RepairFields(f: Finding, role: Role, joined: Joined)
    ensures RepairFor(f, role, joined).target == role && RepairFor(f, role, joined).reason == ReasonOf(f)
  {
    hide Unique, Pick, Dict;
  }

  function Checks(finals: seq<Judgement>, checks: CodeChecks, used: seq<string>, joined: Joined): map<Criterion, Check>
    requires |finals| == 4
  {
    map[Groundedness := CheckFor(finals[0], checks, used, joined), Neutrality := CheckFor(finals[1], checks, used, joined),
        BiasControl := CheckFor(finals[2], checks, used, joined), Coverage := CheckFor(finals[3], checks, used, joined)]
  }

  function Verdict(common: Common, r: ReportResult, finals: seq<Judgement>, checks: CodeChecks, used: seq<string>,
          joined: Joined): EvaluationResult
    requires |finals| == 4
  {
    var verdicts := Checks(finals, checks, used, joined);
    EvaluationResult(common, r.common.requestId, forall c :: c in verdicts ==> verdicts[c].passed, verdicts,
                     WriterLast(Unique(AllRepairs(Problems(finals), joined))), None)
  }

  lemma {:induction false} FinalsPass(draft: seq<Judgement>, checks: CodeChecks, used: seq<string>, joined: Joined)
    requires DraftValid(draft) && forall c :: c in CRITERIA ==> ItemFor(draft, c).Some?
    ensures forall k :: 0 <= k < 4 ==>
              var f := Finals(draft, checks, used)[k];
              f.criterion == CRITERIA[k] && (CheckFor(f, checks, used, joined).passed <==> f.findings == [])
  {
    hide CheckFor, CodeFindings, Judged, ItemFor;
    forall k | 0 <= k < 4
      ensures var f := Finals(draft, checks, used)[k];
              f.criterion == CRITERIA[k] && (CheckFor(f, checks, used, joined).passed <==> f.findings == [])
    {
      var item := ItemFor(draft, CRITERIA[k]).value;
      var j :| 0 <= j < |draft| && draft[j] == item;
      PassesIffNoFinding(item, checks, used, joined);
    }
  }

  lemma {:induction false} AllPass(finals: seq<Judgement>, checks: CodeChecks, used: seq<string>, joined: Joined)
    requires |finals| == 4
    ensures var verdicts := Checks(finals, checks, used, joined);
            && verdicts.Keys == {Groundedness, Neutrality, BiasControl, Coverage}
            && ((forall c :: c in verdicts ==> verdicts[c].passed) <==>
                  forall k :: 0 <= k < 4 ==> CheckFor(finals[k], checks, used, joined).passed)
  {
    hide CheckFor;
    var verdicts := Checks(finals, checks, used, joined);
    assert verdicts[Groundedness] == CheckFor(finals[0], checks, used, joined);
    assert verdicts[Neutrality] == CheckFor(finals[1], checks, used, joined);
    assert verdicts[BiasControl] == CheckFor(finals[2], checks, used, joined);
    assert verdicts[Coverage] == CheckFor(finals[3], checks, used, joined);
  }

  /** The verdict passes exactly when there is no finding, and exactly then it asks for no repair: it is always
      consistent, and a failing verdict never needs a made-up repair. */
  lemma {:induction false} VerdictConsistent(common: Common, r: ReportResult, d: Document, draft: seq<Judgement>,
          checks: CodeChecks, used: seq<string>)
    requires DraftValid(draft) && forall c :: c in CRITERIA ==> ItemFor(draft, c).Some?
    ensures var finals := Finals(draft, checks, used);
            var e := Verdict(common, r, finals, checks, used, d.joined);
            && ConsistentEvaluation(e)
            && (e.passed <==> Problems(finals) == [])
            && (e.passed ==> checks.groundedness == [] && checks.coverage == [])
  {
    hide Finals, Checks, CheckFor, WriterLast, Unique, AllRepairs, Problems, KnownIds, DraftValid, ItemFor, Blank,
         IsView;
    FinalsPass(draft, checks, used, d.joined);
    var finals := Finals(draft, checks, used);
    var e := Verdict(common, r, finals, checks, used, d.joined);
    AllPass(finals, checks, used, d.joined);
    ProblemsEmpty(finals);
    RepairsEmpty(Problems(finals), d.joined);
    WriterLastEmpty(Unique(AllRepairs(Problems(finals), d.joined)));
    forall k | 0 <= k < |e.repairs| ensures (IsView(e.repairs[k].target) || e.repairs[k].target.Writer?) && !Blank(e.repairs[k].reason) {
      RepairsSound(Problems(finals), d, e.repairs[k]);
    }
    CodePasses(finals[0], checks, used, d.joined);
    CodePasses(finals[3], checks, used, d.joined);
  }

  lemma {:induction false} WriterLastEmpty(repairs: seq<RepairRequest>)
    ensures WriterLast(repairs) == [] <==> repairs == []
  {
    hide Pick;
    WriterLastSame(repairs);
    if repairs != [] { assert repairs[0] in multiset(repairs); }
    if WriterLast(repairs) != [] { assert WriterLast(repairs)[0] in multiset(WriterLast(repairs)); }
  }

  lemma {:induction false} CodePasses(f: Judgement, checks: CodeChecks, used: seq<string>, joined: Joined)
    ensures CheckFor(f, checks, used, joined).passed ==> ErrorsFor(f.criterion, checks) == []
  {
    hide Unique, FindingIds, ErrorIds, FindingGaps;
  }

  /** Every id in the verdict is an id of the report. */
  lemma {:induction false} VerdictIdsKnown(common: Common, r: ReportResult, draft: seq<Judgement>, checks: CodeChecks,
          used: seq<string>, evidence: set<string>)
    requires ConsistentReport(r) && r.document.Some? && forall c :: c in CRITERIA ==> ItemFor(draft, c).Some?
    requires forall k :: 0 <= k < |used| ==> used[k] in Dict(r.document.value.joined.claims)
    requires JudgeKnown(draft, ShownIds(used, Dict(r.document.value.joined.claims)), evidence)
    ensures VerdictKnown(Verdict(common, r, Finals(draft, checks, used), checks, used, r.document.value.joined), r.document.value)
  {
    hide CheckFor, WriterLast, Unique, AllRepairs, Problems, KnownIds, ConsistentReport, FindingKnown, FindingsKnown,
         Final, Dict, ShownIds;
    var d := r.document.value;
    var claims, finals := Dict(d.joined.claims), Finals(draft, checks, used);
    var e := Verdict(common, r, finals, checks, used, d.joined);
    ShownAreClaims(r, used);
    forall k | 0 <= k < 4
      ensures var c := CheckFor(finals[k], checks, used, d.joined); KnownIds(c.claimIds, c.gapIds, d)
    {
      var item := ItemFor(draft, CRITERIA[k]).value;
      var j :| 0 <= j < |draft| && draft[j] == item;
      assert forall i :: 0 <= i < |item.findings| ==>
        FindingKnown(item.findings[i], draft[j].criterion, ShownIds(used, claims), evidence);
      FinalKnown(item, checks, used, claims, ShownIds(used, claims), evidence);
      CheckKnown(finals[k], checks, used, d);
    }
    forall k | 0 <= k < |e.repairs| ensures KnownIds(e.repairs[k].claimIds, e.repairs[k].gapIds, d) {
      RepairsSound(Problems(finals), d, e.repairs[k]);
    }
  }

  // ---------- The evaluator node ----------

  function Failure(common: Common, r: ReportResult, code: ErrorCode): EvaluationResult {
    EvaluationResult(common, r.common.requestId, false, map[], [], Some(code))
  }

  /** The registry's synthesis entries are the report's own synthesis claims. */
  predicate SynthesisLinked(synthesis: seq<Claim>, claims: Claims) {
    forall i :: 0 <= i < |synthesis| ==> Registered(i, synthesis[i], claims)
  }

  predicate Registered(i: nat, claim: Claim, claims: Claims) {
    ClaimId("synthesis", i + 1) in claims && claims[ClaimId("synthesis", i + 1)].claim == claim
  }

  lemma {:induction false} LinkedMeans(synthesis: seq<Claim>, claims: Named<ClaimRecord>)
    requires Distinct(Keys(claims))
    ensures SynthesisLinked(synthesis, Dict(claims)) <==>
              forall i: nat :: i < |synthesis| ==> exists k :: 0 <= k < |claims| && Entered(claims[k], i, synthesis[i])
  {
    hide Dict, Distinct;
    DictFaithful(claims);
    forall i: nat | i < |synthesis|
      ensures Registered(i, synthesis[i], Dict(claims)) <==> exists k :: 0 <= k < |claims| && Entered(claims[k], i, synthesis[i])
    {
      if Registered(i, synthesis[i], Dict(claims)) {
        assert ClaimId("synthesis", i + 1) in ToSet(Keys(claims));
        var k :| 0 <= k < |claims| && Keys(claims)[k] == ClaimId("synthesis", i + 1);
        assert Entered(claims[k], i, synthesis[i]);
      }
    }
  }

  /** The entry is the synthesis claim with this number. */
  predicate Entered(entry: (string, ClaimRecord), i: nat, claim: Claim) {
    entry.0 == ClaimId("synthesis", i + 1) && entry.1.claim == claim
  }

  predicate ChunksListed(used: seq<string>, joined: Joined, chunks: seq<Chunk>) {
    forall c :: c in used && c in Dict(joined.claims) ==>
      forall e :: e in Dict(joined.claims)[c].evidenceIds && e in joined.evidence ==>
        joined.evidence[e].ref.chunkId in ToSet(ChunkIds(chunks))
  }

  predicate SomeBlank(draft: seq<Judgement>) { exists k :: 0 <= k < |draft| && Blank(draft[k].rationale) }

  /** An answer the Supervisor accepts: consistent, about this report, naming only its claims and gaps, and
      positive only about a structurally sound report. */
  ghost predicate Acceptable(e: EvaluationResult, common: Common, r: ReportResult)
    requires r.document.Some?
  {
    && ConsistentEvaluation(e) && e.common == common && e.reportRequestId == r.common.requestId
    && VerdictKnown(e, r.document.value) && (e.passed ==> StructureSound(r))
  }

  predicate DraftAccepted(r: ReportResult, draft: seq<Judgement>, used: seq<string>)
    requires r.document.Some?
  {
    var d := r.document.value;
    DraftValid(draft) && JudgeKnown(draft, ShownIds(used, Dict(d.joined.claims)), ShownEvidence(used, d.joined))
  }

  /** The finding stands under its own criterion, and names only claims that the report uses and their evidence. */
  ghost predicate FindingStands(f: Finding, c: Criterion, joined: Joined, used: seq<string>) {
    && f.criterion == c
    && (forall id :: id in f.claimIds ==>
          exists u :: u in used && u in Dict(joined.claims) && Dict(joined.claims)[u].id == id)
    && (forall e :: e in f.evidenceIds ==>
          e in joined.evidence && exists u :: u in used && u in Dict(joined.claims) && e in Dict(joined.claims)[u].evidenceIds)
  }

  lemma {:induction false} FindingStandsIff(f: Finding, c: Criterion, joined: Joined, used: seq<string>)
    ensures FindingKnown(f, c, ShownIds(used, Dict(joined.claims)), ShownEvidence(used, joined)) <==>
              FindingStands(f, c, joined, used)
  {
    hide Dict;
    var ids, evidence := ShownIds(used, Dict(joined.claims)), ShownEvidence(used, joined);
    assert (ToSet(f.claimIds) <= ids) <==> forall id :: id in f.claimIds ==> id in ids;
    assert (ToSet(f.evidenceIds) <= evidence) <==> forall e :: e in f.evidenceIds ==> e in evidence;
  }

  /** The Judge's draft is accepted exactly when each criterion has one verdict, a verdict to revise has a finding, and
      every finding stands. */
  lemma {:induction false} DraftExactly(r: ReportResult, draft: seq<Judgement>, used: seq<string>)
    requires r.document.Some?
    ensures DraftAccepted(r, draft, used) <==>
              && |draft| == 4 && (forall i, j :: 0 <= i < j < 4 ==> draft[i].criterion != draft[j].criterion)
              && (forall k :: 0 <= k < 4 && draft[k].revise ==> draft[k].findings != [])
              && forall k, j :: 0 <= k < 4 && 0 <= j < |draft[k].findings| ==>
                   FindingStands(draft[k].findings[j], draft[k].criterion, r.document.value.joined, used)
  {
    hide FindingStands, FindingKnown, ShownIds, ShownEvidence, Dict, DraftValid;
    var joined := r.document.value.joined;
    forall k, j | 0 <= k < |draft| && 0 <= j < |draft[k].findings|
      ensures FindingKnown(draft[k].findings[j], draft[k].criterion, ShownIds(used, Dict(joined.claims)), ShownEvidence(used, joined))
              <==> FindingStands(draft[k].findings[j], draft[k].criterion, joined, used)
    {
      FindingStandsIff(draft[k].findings[j], draft[k].criterion, joined, used);
    }
    DraftValidIff(draft);
  }

  lemma {:induction false} DraftValidIff(draft: seq<Judgement>)
    ensures DraftValid(draft) <==>
              && |draft| == 4 && (forall i, j :: 0 <= i < j < 4 ==> draft[i].criterion != draft[j].criterion)
              && (forall k :: 0 <= k < 4 && draft[k].revise ==> draft[k].findings != [])
  {
    if |draft| == 4 {
      var cs, all := Judged(draft), {Groundedness, Neutrality, BiasControl, Coverage};
      CardAtMostLength(cs);
      if ToSet(cs) == all {
        assert |all| == 4;
        forall i, j | 0 <= i < j < 4 ensures draft[i].criterion != draft[j].criterion { assert cs[i] != cs[j]; }
      }
      if forall i, j :: 0 <= i < j < 4 ==> draft[i].criterion != draft[j].criterion {
        forall c: Criterion ensures c in all { match c case Groundedness => case Neutrality => case BiasControl => case Coverage => }
        forall c ensures c in ToSet(cs) <==> c in all {
          assert cs[0] != cs[1] && cs[0] != cs[2] && cs[0] != cs[3] && cs[1] != cs[2] && cs[1] != cs[3] && cs[2] != cs[3];
          assert c == cs[0] || c == cs[1] || c == cs[2] || c == cs[3];
        }
      }
    }
  }

  /** What becomes of the Judge's draft: a failure when it is invalid, else the verdict on the joined findings, unless
      one of the four final items has nothing to say. */
  ghost predicate Concluded(e: Outcome<EvaluationResult>, common: Common, r: ReportResult, checks: CodeChecks,
          draft: seq<Judgement>, used: seq<string>)
    requires r.document.Some?
  {
    if !DraftAccepted(r, draft, used) then e == Done(Failure(common, r, InvalidResponse))
    else
      && (forall c :: c in CRITERIA ==> ItemFor(draft, c).Some?)
      && var finals := Finals(draft, checks, used);
         && (e.Raised? <==>
               exists k :: 0 <= k < |finals| && Blank(finals[k].rationale)
                           && forall j :: 0 <= j < |finals[k].findings| ==> Blank(finals[k].findings[j].issue))
         && (e.Done? ==> e.value == Verdict(common, r, finals, checks, used, r.document.value.joined))
  }

  /** From a valid draft of the Judge to the verdict. */
  method Conclude(common: Common, r: ReportResult, checks: CodeChecks, draft: seq<Judgement>, used: seq<string>)
    returns (e: Outcome<EvaluationResult>)
    requires ConsistentReport(r) && r.document.Some?
    requires forall k :: 0 <= k < |used| ==> used[k] in Dict(r.document.value.joined.claims)
    requires checks.groundedness == [] && checks.coverage == [] ==> StructureSound(r)
    ensures e.Done? ==> Acceptable(e.value, common, r)
    ensures e.Raised? ==> SomeBlank(draft)
    ensures Concluded(e, common, r, checks, draft, used)
  {
    hide ConsistentReport, StructureSound, Dict, DraftValid, JudgeKnown, ItemFor, Finals, Verdict, VerdictKnown,
         ConsistentEvaluation, ShownIds, ShownEvidence, HasReason, SomeBlank, Problems, AllRepairs, Unique;
    var d := r.document.value;
    if !DraftValid(draft) || !JudgeKnown(draft, ShownIds(used, Dict(d.joined.claims)), ShownEvidence(used, d.joined)) {
      FailureSound(common, r, InvalidResponse);
      return Done(Failure(common, r, InvalidResponse));
    }
    ValidHasItems(draft);
    var finals := Finals(draft, checks, used);
    for k := 0 to 4
      invariant forall i :: 0 <= i < k ==> HasReason(finals[i])
      invariant forall i :: 0 <= i < k ==>
                  !(Blank(finals[i].rationale) && forall j :: 0 <= j < |finals[i].findings| ==> Blank(finals[i].findings[j].issue))
    {
      ReasonMeans(finals[k]);
      if !HasReason(finals[k]) {
        UnexplainedRationale(draft, checks, used, k);
        return Raised(InvalidResponse);
      }
    }
    var repairs := RepairRequests(Problems(finals), d.joined);
    VerdictConsistent(common, r, d, draft, checks, used);
    VerdictIdsKnown(common, r, draft, checks, used, ShownEvidence(used, d.joined));
    VerdictFields(common, r, finals, checks, used, d.joined);
    FallbackNeverNeeded(common, r, d, draft, checks, used);
    var verdict := Verdict(common, r, finals, checks, used, d.joined);
    assert !verdict.passed ==> repairs != [];
    e := Done(verdict);
  }

  /** The report renders again to the text it carries, and its registry and chunks belong to it. */
  predicate ArtifactMatches(r: ReportResult, text: seq<Line> -> string, summaryLength: nat, names: Naming)
    requires r.document.Some?
  {
    var d := r.document.value;
    var ink := InkOf(d.report, d.joined);
    && Renders(d.report, d.joined, r.sources.Keys, summaryLength, names)
    && SynthesisLinked(d.report.synthesisClaims, Dict(d.joined.claims))
    && text(DocumentLines(d.report, d.joined, ink)) == d.markdown
    && ChunksListed(UsedClaims(d.report), d.joined, r.chunks)
  }

  /** The registry holds the claim as the `i`th of the synthesis. */
  ghost predicate OwnSynthesis(i: int, claim: Claim, joined: Joined) {
    i >= 0 && ClaimId("synthesis", i + 1) in Dict(joined.claims)
    && Dict(joined.claims)[ClaimId("synthesis", i + 1)].claim == claim
  }

  /** A chunk of the report has the id that the evidence names. */
  ghost predicate HasChunkOf(e: EvidenceRecord, chunks: seq<Chunk>) { exists c :: c in chunks && c.id == e.ref.chunkId }

  /** The report is taken for the written one exactly when its claims can be traced to its own sources, its summary is
      short, no message is due for conflict records that it states, it renders to the very text it carries, its
      synthesis is registered in order, and every chunk behind a used claim is listed. */
  lemma {:induction false} ArtifactExactly(r: ReportResult, text: seq<Line> -> string, summaryLength: nat,
          names: Naming)
    requires r.document.Some?
    ensures var d := r.document.value;
            ArtifactMatches(r, text, summaryLength, names) <==>
              && (forall id :: RenderLines.Uses(d.report, id) ==> RenderLines.Traced(id, d.joined, r.sources.Keys))
              && summaryLength <= 1200
              && (RenderLines.HasLimits(d.report.sections) ==> forall e :: !RenderLines.ConflictDue(e, d.joined, names))
              && text(DocumentLines(d.report, d.joined, InkOf(d.report, d.joined))) == d.markdown
              && (forall i :: 0 <= i < |d.report.synthesisClaims| ==> OwnSynthesis(i, d.report.synthesisClaims[i], d.joined))
              && (forall id, e :: RenderLines.Uses(d.report, id) && id in Dict(d.joined.claims)
                                  && e in Dict(d.joined.claims)[id].evidenceIds && e in d.joined.evidence ==>
                                    HasChunkOf(d.joined.evidence[e], r.chunks))
  {
    hide Renders, Dict, DocumentLines, InkOf, UsedClaims, RenderLines.Uses, RenderLines.Traced, RenderLines.HasLimits,
         RenderLines.ConflictDue;
    var d := r.document.value;
    RenderLines.RendersExactly(d.report, d.joined, r.sources.Keys, summaryLength, names);
    ListedMeans(d.report, d.joined, r.chunks);
  }

  lemma {:induction false} ListedMeans(report: Report, joined: Joined, chunks: seq<Chunk>)
    ensures ChunksListed(UsedClaims(report), joined, chunks) <==>
            forall id, e :: RenderLines.Uses(report, id) && id in Dict(joined.claims)
                            && e in Dict(joined.claims)[id].evidenceIds && e in joined.evidence ==>
                              HasChunkOf(joined.evidence[e], chunks)
  {
    hide Dict, UsedClaims, RenderLines.Uses;
    forall id ensures id in UsedClaims(report) <==> RenderLines.Uses(report, id) { RenderLines.UsedMeans(report, id); }
    forall e: EvidenceRecord ensures HasChunkOf(e, chunks) <==> e.ref.chunkId in ToSet(ChunkIds(chunks)) {
      ChunkOfMeans(e, chunks);
    }
  }

  lemma {:induction false} ChunkOfMeans(e: EvidenceRecord, chunks: seq<Chunk>)
    ensures HasChunkOf(e, chunks) <==> e.ref.chunkId in ToSet(ChunkIds(chunks))
  {
    var ids := ChunkIds(chunks);
    if HasChunkOf(e, chunks) {
      var c :| c in chunks && c.id == e.ref.chunkId;
      var k :| 0 <= k < |chunks| && chunks[k] == c;
      assert ids[k] == e.ref.chunkId;
    }
    if e.ref.chunkId in ids {
      var k :| 0 <= k < |ids| && ids[k] == e.ref.chunkId;
      assert chunks[k] in chunks;
    }
  }

  ghost predicate Followed(e: Outcome<EvaluationResult>, common: Common, r: ReportResult, checks: CodeChecks,
          reply: Outcome<seq<Judgement>>)
    requires r.document.Some?
  {
    if reply.Raised? then e == Done(Failure(common, r, reply.code))
    else Concluded(e, common, r, checks, reply.value, UsedClaims(r.document.value.report))
  }

  /** The evaluator's answer is always acceptable; it raises only when a criterion of the Judge has a blank
      rationale. */
  method EvaluateReport(common: Common, r: ReportResult, judge: CodeChecks -> Outcome<seq<Judgement>>,
          schema: seq<string>, text: seq<Line> -> string, summaryLength: nat, w: Wording, names: Naming)
    returns (e: Outcome<EvaluationResult>)
    requires ConsistentReport(r) && r.document.Some?
    ensures e.Done? ==> Acceptable(e.value, common, r)
    ensures e.Raised? ==> exists checks :: judge(checks).Done? && SomeBlank(judge(checks).value)
    ensures !ArtifactMatches(r, text, summaryLength, names) ==> e == Done(Failure(common, r, ArtifactMismatch))
    ensures ArtifactMatches(r, text, summaryLength, names) ==>
              exists checks, layout :: Checked(checks, layout, r.document.value.report, r.document.value.joined, r.chunks, schema, w)
                                       && Followed(e, common, r, checks, judge(checks))
  {
    hide ConsistentReport, StructureSound, ReportSound, SynthesisLinked, ChunksListed, Dict, VerdictKnown,
         ConsistentEvaluation, Complete, UsedClaims, DocumentLines, InkOf, SomeBlank, UsedEvidence, Missing, Concluded,
         Checked, ConflictsHold, StatesConflicts, UsedSound, GroundMessages;
    var d := r.document.value;
    var page := BuildReportMarkdown(d.report, d.joined, r.sources.Keys, summaryLength, names);
    var used := UsedClaims(d.report);
    if page.Raised? || !SynthesisLinked(d.report.synthesisClaims, Dict(d.joined.claims)) || text(page.value.lines) != d.markdown
      || !ChunksListed(used, d.joined, r.chunks)
    {
      FailureSound(common, r, ArtifactMismatch);
      return Done(Failure(common, r, ArtifactMismatch));
    }
    var checks, layout := CheckCode(d.report, d.joined, r.chunks, schema, w);
    CleanExactly(checks, layout, d.report, d.joined, r.chunks, schema, w);
    var draft := judge(checks);
    if draft.Raised? {
      FailureSound(common, r, draft.code);
      return Done(Failure(common, r, draft.code));
    }
    UsedAreKnown(d.report, d.joined);
    SoundIsStructure(r);
    e := Conclude(common, r, checks, draft.value, used);
  }

  lemma {:induction false} FailureSound(common: Common, r: ReportResult, code: ErrorCode)
    requires r.document.Some?
    ensures Acceptable(Failure(common, r, code), common, r)
  {
  }

  lemma {:induction false} VerdictFields(common: Common, r: ReportResult, finals: seq<Judgement>, checks: CodeChecks,
          used: seq<string>, joined: Joined)
    requires |finals| == 4
    ensures Verdict(common, r, finals, checks, used, joined).common == common
    ensures Verdict(common, r, finals, checks, used, joined).reportRequestId == r.common.requestId
  {
    hide Checks, WriterLast, Unique, AllRepairs, Problems;
  }

  lemma {:induction false} SoundIsStructure(r: ReportResult)
    requires r.document.Some?
    ensures var d := r.document.value;
            ReportSound(d.report, Dict(d.joined.claims), r.chunks, Some(d.joined.gapRecords)) <==> StructureSound(r)
  {
    hide ReportSound, Dict;
  }

  lemma {:induction false} UsedAreKnown(report: Report, joined: Joined)
    requires Complete(report, joined)
    ensures forall k :: 0 <= k < |UsedClaims(report)| ==> UsedClaims(report)[k] in Dict(joined.claims)
  {
    hide UsedClaims, Dict, Backed;
  }

  /** A failing verdict always has a repair request of its own. */
  lemma {:induction false} FallbackNeverNeeded(common: Common, r: ReportResult, d: Document, draft: seq<Judgement>,
          checks: CodeChecks, used: seq<string>)
    requires DraftValid(draft) && forall c :: c in CRITERIA ==> ItemFor(draft, c).Some?
    ensures var finals := Finals(draft, checks, used);
            !Verdict(common, r, finals, checks, used, d.joined).passed ==> Unique(AllRepairs(Problems(finals), d.joined)) != []
  {
    hide Finals, Verdict, Unique, AllRepairs, Problems, DraftValid, ItemFor;
    VerdictConsistent(common, r, d, draft, checks, used);
    RepairsEmpty(Problems(Finals(draft, checks, used)), d.joined);
  }

  lemma {:induction false} UnexplainedRationale(draft: seq<Judgement>, checks: CodeChecks, used: seq<string>, k: nat)
    requires k < 4 && (forall c :: c in CRITERIA ==> ItemFor(draft, c).Some?) && !HasReason(Finals(draft, checks, used)[k])
    ensures SomeBlank(draft)
  {
    hide CodeFindings, Blank;
    var item := ItemFor(draft, CRITERIA[k]).value;
    var j :| 0 <= j < |draft| && draft[j] == item;
  }
}
