/** Structural checks of a report against its claims and gaps (rag/evidence.py). */
module Reports {
  import opened Schema
  import opened Texts
  import opened Evidence

  datatype Section = Section(title: string, claimIds: seq<string>)

  datatype GapDecision = GapDecision(gapId: string, status: string, resolution: string, claimIds: seq<string>)

  datatype GapRecord = GapRecord(id: string, perspective: string, text: string)

  datatype Report = Report(
    summaryClaimIds: seq<string>, sections: seq<Section>, synthesisClaims: seq<Claim>,
    gapDecisions: seq<GapDecision>)

  const MATURITY := "기술 성숙도"
  const MARKET := "시장성"
  const STAKEHOLDER := "이해관계자"
  const DOMAIN := "도메인 적용"
  const SYNTHESIS := "관점 간 상충과 한계"
  const TITLES := [MATURITY, MARKET, STAKEHOLDER, DOMAIN, SYNTHESIS]

  type Claims = map<string, ClaimRecord>

  /** The messages of `report_errors` and `gap_decision_errors`, one constructor per message. */
  datatype ReportError =
    | SummaryCount | SummaryRepeats | SummaryPerspectives | WrongTitles
    | FinalNotSynthesis | EmptySection | OneSidedSection(title: string) | MissingCoreFacets(technology: Technology)
    | MissingFromBody | WrongSection(claimId: string, title: string) | RepeatedInBody
    | GapsNotDecidedOnce | BadGapStatus(gapId: string) | UnexplainedGap(gapId: string)
    | UnknownGapEvidence(gapId: string) | UnsupportedResolution(gapId: string)
    | UnknownClaim(claimId: string) | Ungrounded(error: AssessmentError)

  predicate HasPrefix(s: string, p: string) { |p| <= |s| && s[..|p|] == p }

  /** The section a perspective belongs to; other perspectives are not placed. */
  function SectionFor(perspective: string): Option<string> {
    if HasPrefix(perspective, "research_") then Some(MATURITY)
    else if perspective == "market" then Some(MARKET)
    else if perspective == "stakeholder" then Some(STAKEHOLDER)
    else if perspective == "domain" then Some(DOMAIN)
    else if perspective == "synthesis" then Some(SYNTHESIS)
    else None
  }

  function BodyIds(sections: seq<Section>): seq<string> {
    if sections == [] then [] else BodyIds(sections[..|sections| - 1]) + sections[|sections| - 1].claimIds
  }

  function Titles(sections: seq<Section>): (ts: seq<string>)
    ensures |ts| == |sections|
  {
    seq(|sections|, k requires 0 <= k < |sections| => sections[k].title)
  }

  predicate OfPerspective(claims: Claims, id: string, perspective: string) {
    id in claims && claims[id].perspective == perspective
  }

  // ---------- Summary ----------

  predicate MentionsPerspective(ids: seq<string>, claims: Claims, perspectives: set<string>) {
    exists k :: 0 <= k < |ids| && ids[k] in claims && claims[ids[k]].perspective in perspectives
  }

  predicate SummarySound(ids: seq<string>, claims: Claims) {
    && 2 <= |ids| <= 3 && Distinct(ids)
    && MentionsPerspective(ids, claims, {"synthesis"})
    && MentionsPerspective(ids, claims, {"market", "stakeholder", "domain"})
  }

  /** No listed claim has a perspective that `wanted` asks for. */
  ghost predicate NoneOf(ids: seq<string>, claims: Claims, wanted: string -> bool) {
    forall id :: id in ids && id in claims ==> !wanted(claims[id].perspective)
  }

  /** When a message is due for the summary. */
  ghost predicate SummaryLacks(e: ReportError, ids: seq<string>, claims: Claims) {
    || (e.SummaryCount? && (|ids| < 2 || |ids| > 3))
    || (e.SummaryRepeats? && exists i, j :: 0 <= i < j < |ids| && ids[i] == ids[j])
    || (e.SummaryPerspectives?
        && (NoneOf(ids, claims, p => p == "synthesis") || NoneOf(ids, claims, p => p in ["market", "stakeholder", "domain"])))
  }

  lemma {:induction false} MentionsMeans(ids: seq<string>, claims: Claims, perspectives: set<string>,
          wanted: string -> bool)
    requires forall p :: wanted(p) <==> p in perspectives
    ensures NoneOf(ids, claims, wanted) <==> !MentionsPerspective(ids, claims, perspectives)
  {
    if !NoneOf(ids, claims, wanted) {
      var id :| id in ids && id in claims && wanted(claims[id].perspective);
      var k :| 0 <= k < |ids| && ids[k] == id;
      assert ids[k] in claims && claims[ids[k]].perspective in perspectives;
    }
  }

  method SummaryErrors(ids: seq<string>, claims: Claims) returns (errors: seq<ReportError>)
    ensures errors == [] <==> SummarySound(ids, claims)
    ensures forall e :: e in errors <==> SummaryLacks(e, ids, claims)
  {
    MentionsMeans(ids, claims, {"synthesis"}, p => p == "synthesis");
    MentionsMeans(ids, claims, {"market", "stakeholder", "domain"}, p => p in ["market", "stakeholder", "domain"]);
    hide MentionsPerspective, NoneOf;
    errors := [];
    if !(2 <= |ids| <= 3) {
      errors := errors + [SummaryCount];
    }
    if !Distinct(ids) {
      errors := errors + [SummaryRepeats];
    }
    if !MentionsPerspective(ids, claims, {"synthesis"})
       || !MentionsPerspective(ids, claims, {"market", "stakeholder", "domain"}) {
      errors := errors + [SummaryPerspectives];
    }
  }

  // ---------- Sections ----------

  predicate Covers(ids: seq<string>, claims: Claims, technology: Technology) {
    exists k :: 0 <= k < |ids| && ids[k] in claims && claims[ids[k]].claim.technology == technology
  }

  predicate StatesFacet(ids: seq<string>, claims: Claims, technology: Technology, facet: string) {
    exists k :: 0 <= k < |ids| && ids[k] in claims && claims[ids[k]].claim.technology == technology
                && claims[ids[k]].claim.facet == facet
  }

  predicate HasCoreFacets(ids: seq<string>, claims: Claims, technology: Technology) {
    forall f :: 0 <= f < |CORE_FACETS| ==> StatesFacet(ids, claims, technology, CORE_FACETS[f])
  }

  predicate AllSynthesis(ids: seq<string>, claims: Claims) {
    forall k :: 0 <= k < |ids| ==> OfPerspective(claims, ids[k], "synthesis")
  }

  predicate BothSides(ids: seq<string>, claims: Claims) {
    (Covers(ids, claims, Kivi) && Covers(ids, claims, InfiniGen)) || Covers(ids, claims, Both)
  }

  predicate SectionSound(s: Section, claims: Claims) {
    && s.claimIds != []
    && (s.title == SYNTHESIS ==> AllSynthesis(s.claimIds, claims))
    && (s.title != SYNTHESIS ==> BothSides(s.claimIds, claims))
    && (s.title == MATURITY ==>
          HasCoreFacets(s.claimIds, claims, Kivi) && HasCoreFacets(s.claimIds, claims, InfiniGen))
  }

  /** The section lists a claim about the technology that states the facet. */
  ghost predicate Lists(ids: seq<string>, claims: Claims, technology: Technology, facet: string) {
    exists id :: id in ids && id in claims && claims[id].claim.technology == technology && claims[id].claim.facet == facet
  }

  ghost predicate Mentions(ids: seq<string>, claims: Claims, technology: Technology) {
    exists id :: id in ids && id in claims && claims[id].claim.technology == technology
  }

  /** When a message is due for a section. */
  ghost predicate SectionLacks(e: ReportError, s: Section, claims: Claims) {
    match e
    case FinalNotSynthesis =>
      s.title == "관점 간 상충과 한계"
      && exists id :: id in s.claimIds && (id !in claims || claims[id].perspective != "synthesis")
    case EmptySection => |s.claimIds| == 0
    case OneSidedSection(title) =>
      && s.title == title && title != "관점 간 상충과 한계" && !Mentions(s.claimIds, claims, Both)
      && !(Mentions(s.claimIds, claims, Kivi) && Mentions(s.claimIds, claims, InfiniGen))
    case MissingCoreFacets(technology) =>
      && s.title == "기술 성숙도" && technology != Both
      && exists f :: f in {"mechanism", "limitation", "conditions", "maturity"} && !Lists(s.claimIds, claims, technology, f)
    case _ => false
  }

  lemma {:induction false} CoversMeans(ids: seq<string>, claims: Claims, technology: Technology)
    ensures Covers(ids, claims, technology) <==> Mentions(ids, claims, technology)
  {
  }

  lemma {:induction false} StatesFacetMeans(ids: seq<string>, claims: Claims, technology: Technology, f: string)
    ensures StatesFacet(ids, claims, technology, f) <==> Lists(ids, claims, technology, f)
  {
  }

  lemma {:induction false} CoreFacetsMean(ids: seq<string>, claims: Claims, technology: Technology)
    ensures HasCoreFacets(ids, claims, technology) <==>
            forall f :: f in {"mechanism", "limitation", "conditions", "maturity"} ==> Lists(ids, claims, technology, f)
  {
    hide Lists, StatesFacet;
    forall f ensures StatesFacet(ids, claims, technology, f) <==> Lists(ids, claims, technology, f) {
      StatesFacetMeans(ids, claims, technology, f);
    }
    assert CORE_FACETS[0] == "mechanism" && CORE_FACETS[1] == "limitation" && CORE_FACETS[2] == "conditions"
           && CORE_FACETS[3] == "maturity";
  }

  lemma {:induction false} AllSynthesisMeans(ids: seq<string>, claims: Claims)
    ensures AllSynthesis(ids, claims) <==>
            !exists id :: id in ids && (id !in claims || claims[id].perspective != "synthesis")
  {
    if !AllSynthesis(ids, claims) {
      var k :| 0 <= k < |ids| && !OfPerspective(claims, ids[k], "synthesis");
      assert ids[k] in ids;
    }
  }

  method SectionErrors(s: Section, claims: Claims) returns (errors: seq<ReportError>)
    ensures errors == [] <==> SectionSound(s, claims)
    ensures forall e :: e in errors <==> SectionLacks(e, s, claims)
  {
    AllSynthesisMeans(s.claimIds, claims);
    CoversMeans(s.claimIds, claims, Kivi);
    CoversMeans(s.claimIds, claims, InfiniGen);
    CoversMeans(s.claimIds, claims, Both);
    CoreFacetsMean(s.claimIds, claims, Kivi);
    CoreFacetsMean(s.claimIds, claims, InfiniGen);
    hide AllSynthesis, HasCoreFacets, Covers, Mentions, Lists;
    errors := [];
    if s.title == SYNTHESIS && !AllSynthesis(s.claimIds, claims) {
      errors := errors + [FinalNotSynthesis];
    }
    if s.claimIds == [] {
      errors := errors + [EmptySection];
    }
    if s.title != SYNTHESIS && !BothSides(s.claimIds, claims) {
      errors := errors + [OneSidedSection(s.title)];
    }
    if s.title == MATURITY {
      if !HasCoreFacets(s.claimIds, claims, Kivi) {
        errors := errors + [MissingCoreFacets(Kivi)];
      }
      if !HasCoreFacets(s.claimIds, claims, InfiniGen) {
        errors := errors + [MissingCoreFacets(InfiniGen)];
      }
    }
  }

  predicate Placed(s: Section, id: string, claims: Claims) {
    id in claims ==>
      var expected := SectionFor(claims[id].perspective);
      expected.None? || expected.value == s.title
  }

  predicate SectionPlaced(s: Section, claims: Claims) {
    forall k :: 0 <= k < |s.claimIds| ==> Placed(s, s.claimIds[k], claims)
  }

  /** The title under which the claims of a perspective must stand. */
  ghost predicate Belongs(perspective: string, title: string) {
    || (perspective == "market" && title == "시장성")
    || (perspective == "stakeholder" && title == "이해관계자")
    || (perspective == "domain" && title == "도메인 적용")
    || (perspective == "synthesis" && title == "관점 간 상충과 한계")
    || ("research_" <= perspective && title == "기술 성숙도")
  }

  /** The section lists a claim that must stand under another title. */
  ghost predicate Misplaces(e: ReportError, s: Section, ids: seq<string>, claims: Claims) {
    && e.WrongSection? && e.title == s.title && e.claimId in ids && e.claimId in claims
    && (exists title :: Belongs(claims[e.claimId].perspective, title)) && !Belongs(claims[e.claimId].perspective, s.title)
  }

  lemma {:induction false} SectionForMeans(perspective: string, title: string)
    ensures SectionFor(perspective) == Some(title) <==> Belongs(perspective, title)
  {
    var p := "research_";
    assert p <= perspective <==> HasPrefix(perspective, p);
    assert "market"[0] == 'm' && "stakeholder"[0] == 's' && "domain"[0] == 'd' && "synthesis"[0] == 's' && p[0] == 'r';
    assert p <= perspective ==> perspective[0] == 'r';
  }

  lemma {:induction false} PlacedMeans(s: Section, id: string, claims: Claims)
    ensures !Placed(s, id, claims) <==>
            && id in claims && (exists title :: Belongs(claims[id].perspective, title))
            && !Belongs(claims[id].perspective, s.title)
  {
    hide Belongs, SectionFor;
    if id in claims {
      forall title ensures SectionFor(claims[id].perspective) == Some(title) <==> Belongs(claims[id].perspective, title) {
        SectionForMeans(claims[id].perspective, title);
      }
      var expected := SectionFor(claims[id].perspective);
      if expected.Some? { assert Belongs(claims[id].perspective, expected.value); }
    }
  }

  method PlacementErrors(s: Section, claims: Claims) returns (errors: seq<ReportError>)
    ensures errors == [] <==> SectionPlaced(s, claims)
    ensures forall e :: e in errors <==> Misplaces(e, s, s.claimIds, claims)
  {
    hide Belongs, Placed;
    errors := [];
    for k := 0 to |s.claimIds|
      invariant errors == [] <==> forall i :: 0 <= i < k ==> Placed(s, s.claimIds[i], claims)
      invariant forall e :: e in errors <==> Misplaces(e, s, s.claimIds[..k], claims)
    {
      PlacedMeans(s, s.claimIds[k], claims);
      assert s.claimIds[..k + 1] == s.claimIds[..k] + [s.claimIds[k]];
      if !Placed(s, s.claimIds[k], claims) {
        errors := errors + [WrongSection(s.claimIds[k], s.title)];
      }
    }
    assert s.claimIds[..|s.claimIds|] == s.claimIds;
  }

  // ---------- Gap decisions ----------

  function GapIds(gaps: seq<GapRecord>): (ids: seq<string>)
    ensures |ids| == |gaps|
  {
    seq(|gaps|, k requires 0 <= k < |gaps| => gaps[k].id)
  }

  function DecidedIds(decisions: seq<GapDecision>): (ids: seq<string>)
    ensures |ids| == |decisions|
  {
    seq(|decisions|, k requires 0 <= k < |decisions| => decisions[k].gapId)
  }

  predicate AssessmentClaim(claims: Claims, id: string) {
    id in claims && claims[id].perspective != "synthesis"
  }

  predicate DecisionSound(d: GapDecision, claims: Claims) {
    && d.status in {"resolved", "unresolved"} && !Blank(d.resolution)
    && (forall k :: 0 <= k < |d.claimIds| ==> AssessmentClaim(claims, d.claimIds[k]))
    && (d.status == "resolved" ==>
          exists k :: 0 <= k < |d.claimIds| && KnownEvidence(claims, d.claimIds[k]))
  }

  predicate KnownEvidence(claims: Claims, id: string) { id in claims && claims[id].claim.kind != Unknown }

  predicate DecisionsSound(decisions: seq<GapDecision>, gaps: seq<GapRecord>, claims: Claims) {
    && |decisions| == |ToSet(GapIds(gaps))| && ToSet(DecidedIds(decisions)) == ToSet(GapIds(gaps))
    && forall k :: 0 <= k < |decisions| ==> DecisionSound(decisions[k], claims)
  }

  /** When a message is due for a decision. */
  ghost predicate DecisionLacks(e: ReportError, d: GapDecision, claims: Claims) {
    match e
    case BadGapStatus(id) => id == d.gapId && d.status != "resolved" && d.status != "unresolved"
    case UnexplainedGap(id) => id == d.gapId && AllSpace(d.resolution)
    case UnknownGapEvidence(id) =>
      id == d.gapId && exists c :: c in d.claimIds && (c !in claims || claims[c].perspective == "synthesis")
    case UnsupportedResolution(id) =>
      id == d.gapId && d.status == "resolved" && forall c :: c in d.claimIds && c in claims ==> claims[c].claim.kind.Unknown?
    case _ => false
  }

  /** When a message is due for the decisions on a list of gaps. */
  ghost predicate DecisionsLack(e: ReportError, decisions: seq<GapDecision>, gaps: seq<GapRecord>, claims: Claims) {
    || (e.GapsNotDecidedOnce? && !DecidedOnce(decisions, gaps))
    || (exists k :: 0 <= k < |decisions| && DecisionLacks(e, decisions[k], claims))
  }

  ghost predicate Decides(decisions: seq<GapDecision>, id: string) {
    exists k :: 0 <= k < |decisions| && decisions[k].gapId == id
  }

  ghost predicate IsGap(gaps: seq<GapRecord>, id: string) { exists k :: 0 <= k < |gaps| && gaps[k].id == id }

  /** Exactly the gaps are decided, and no two decisions are about the same one. */
  ghost predicate DecidedOnce(decisions: seq<GapDecision>, gaps: seq<GapRecord>) {
    && (forall id :: Decides(decisions, id) <==> IsGap(gaps, id))
    && (forall i, j :: 0 <= i < j < |decisions| ==> decisions[i].gapId != decisions[j].gapId)
  }

  lemma {:induction false} DecidesMeans(decisions: seq<GapDecision>, id: string)
    ensures Decides(decisions, id) <==> id in ToSet(DecidedIds(decisions))
  {
    var ids := DecidedIds(decisions);
    assert forall k :: 0 <= k < |ids| ==> ids[k] == decisions[k].gapId;
    if id in ids { var k :| 0 <= k < |ids| && ids[k] == id; }
  }

  lemma {:induction false} IsGapMeans(gaps: seq<GapRecord>, id: string)
    ensures IsGap(gaps, id) <==> id in ToSet(GapIds(gaps))
  {
    var ids := GapIds(gaps);
    assert forall k :: 0 <= k < |ids| ==> ids[k] == gaps[k].id;
    if id in ids { var k :| 0 <= k < |ids| && ids[k] == id; }
  }

  lemma {:induction false} DecidedOnceMeans(decisions: seq<GapDecision>, gaps: seq<GapRecord>)
    ensures DecidedOnce(decisions, gaps) <==>
            |decisions| == |ToSet(GapIds(gaps))| && ToSet(DecidedIds(decisions)) == ToSet(GapIds(gaps))
  {
    hide Decides, IsGap, ToSet;
    var decided := DecidedIds(decisions);
    forall id ensures Decides(decisions, id) <==> id in ToSet(decided) { DecidesMeans(decisions, id); }
    forall id ensures IsGap(gaps, id) <==> id in ToSet(GapIds(gaps)) { IsGapMeans(gaps, id); }
    assert DecidedOnce(decisions, gaps) ==> ToSet(decided) == ToSet(GapIds(gaps)) && Distinct(decided);
    if Distinct(decided) { DistinctCard(decided); }
    CardAtMostLength(decided);
    if Distinct(decided) {
      forall i, j | 0 <= i < j < |decisions| ensures decisions[i].gapId != decisions[j].gapId {
        assert decided[i] != decided[j];
      }
    }
  }

  /** `gap_decision_errors`. */
  method GapDecisionErrors(decisions: seq<GapDecision>, gaps: seq<GapRecord>, claims: Claims)
    returns (errors: seq<ReportError>)
    ensures errors == [] <==> DecisionsSound(decisions, gaps, claims)
    ensures forall e :: e in errors <==> DecisionsLack(e, decisions, gaps, claims)
  {
    hide DecisionSound, DecisionLacks, DecidedOnce, ToSet;
    DecidedOnceMeans(decisions, gaps);
    errors := [];
    if |decisions| != |ToSet(GapIds(gaps))| || ToSet(DecidedIds(decisions)) != ToSet(GapIds(gaps)) {
      errors := [GapsNotDecidedOnce];
    }
    ghost var matched := errors == [];
    for k := 0 to |decisions|
      invariant errors == [] <==> matched && forall i :: 0 <= i < k ==> DecisionSound(decisions[i], claims)
      invariant forall e :: e in errors <==>
                  || (e.GapsNotDecidedOnce? && !matched)
                  || (exists i :: 0 <= i < k && DecisionLacks(e, decisions[i], claims))
    {
      var more := DecisionErrors(decisions[k], claims);
      errors := errors + more;
    }
  }

  lemma {:induction false} DecisionMeans(d: GapDecision, claims: Claims)
    ensures (exists k :: 0 <= k < |d.claimIds| && !AssessmentClaim(claims, d.claimIds[k]))
            <==> exists c :: c in d.claimIds && (c !in claims || claims[c].perspective == "synthesis")
    ensures !(exists k :: 0 <= k < |d.claimIds| && KnownEvidence(claims, d.claimIds[k]))
            <==> forall c :: c in d.claimIds && c in claims ==> claims[c].claim.kind.Unknown?
  {
    if exists k :: 0 <= k < |d.claimIds| && !AssessmentClaim(claims, d.claimIds[k]) {
      var k :| 0 <= k < |d.claimIds| && !AssessmentClaim(claims, d.claimIds[k]);
      assert d.claimIds[k] in d.claimIds;
    }
    if exists k :: 0 <= k < |d.claimIds| && KnownEvidence(claims, d.claimIds[k]) {
      var k :| 0 <= k < |d.claimIds| && KnownEvidence(claims, d.claimIds[k]);
      assert d.claimIds[k] in d.claimIds;
    }
  }

  method DecisionErrors(d: GapDecision, claims: Claims) returns (errors: seq<ReportError>)
    ensures errors == [] <==> DecisionSound(d, claims)
    ensures forall e :: e in errors <==> DecisionLacks(e, d, claims)
  {
    DecisionMeans(d, claims);
    hide AssessmentClaim, KnownEvidence;
    errors := [];
    if d.status !in {"resolved", "unresolved"} {
      errors := errors + [BadGapStatus(d.gapId)];
    }
    if Blank(d.resolution) {
      errors := errors + [UnexplainedGap(d.gapId)];
    }
    if exists k :: 0 <= k < |d.claimIds| && !AssessmentClaim(claims, d.claimIds[k]) {
      errors := errors + [UnknownGapEvidence(d.gapId)];
    }
    if d.status == "resolved" && !(exists k :: 0 <= k < |d.claimIds| && KnownEvidence(claims, d.claimIds[k])) {
      errors := errors + [UnsupportedResolution(d.gapId)];
    }
  }

  /** Sound decisions are a permutation of the gaps: each gap is decided once, and nothing else is. */
  lemma {:induction false} DecisionsArePermutation(decisions: seq<GapDecision>, gaps: seq<GapRecord>, claims: Claims)
    requires DecisionsSound(decisions, gaps, claims)
    ensures Distinct(DecidedIds(decisions))
    ensures Distinct(GapIds(gaps)) ==> multiset(DecidedIds(decisions)) == multiset(GapIds(gaps))
  {
    CardAtMostLength(DecidedIds(decisions));
    if Distinct(GapIds(gaps)) {
      SamePermutation(DecidedIds(decisions), GapIds(gaps));
    }
  }

  lemma {:induction false} DistinctCount<T>(s: seq<T>, x: T)
    requires Distinct(s)
    ensures multiset(s)[x] == if x in s then 1 else 0
  {
    if s != [] {
      var t := s[..|s| - 1];
      assert s == t + [s[|s| - 1]];
      DistinctCount(t, x);
    }
  }

  lemma {:induction false} SamePermutation<T(!new)>(s: seq<T>, t: seq<T>)
    requires Distinct(s) && Distinct(t) && ToSet(s) == ToSet(t)
    ensures multiset(s) == multiset(t)
  {
    forall x: T ensures multiset(s)[x] == multiset(t)[x] {
      DistinctCount(s, x);
      DistinctCount(t, x);
      assert x in ToSet(s) <==> x in ToSet(t);
    }
  }

  // ---------- The whole report ----------

  predicate AllKnown(ids: seq<string>, claims: Claims) {
    forall k :: 0 <= k < |ids| ==> ids[k] in claims
  }

  /** What a report must satisfy, stated without the error list. */
  predicate ReportSound(report: Report, claims: Claims, chunks: seq<Chunk>, gaps: Option<seq<GapRecord>>) {
    && SummarySound(report.summaryClaimIds, claims)
    && Titles(report.sections) == TITLES
    && (forall k :: 0 <= k < |report.sections| ==>
          SectionSound(report.sections[k], claims) && SectionPlaced(report.sections[k], claims))
    && claims.Keys <= ToSet(BodyIds(report.sections))
    && Distinct(BodyIds(report.sections))
    && (gaps.Some? ==> DecisionsSound(report.gapDecisions, gaps.value, claims))
    && AllKnown(report.summaryClaimIds, claims) && AllKnown(BodyIds(report.sections), claims)
    && AllGrounded(report.synthesisClaims, chunks, None)
  }

  // ---------- What each message says about the whole report ----------

  ghost predicate ListsClaim(sections: seq<Section>, id: string) { exists k :: 0 <= k < |sections| && id in sections[k].claimIds }

  lemma {:induction false} BodyHolds(sections: seq<Section>, id: string)
    ensures id in BodyIds(sections) <==> ListsClaim(sections, id)
  {
    if sections != [] {
      var n := |sections| - 1;
      BodyHolds(sections[..n], id);
      assert forall k :: 0 <= k < n ==> sections[..n][k] == sections[k];
    }
  }

  /** Two places of the body name the same claim. */
  ghost predicate NamedTwice(sections: seq<Section>) {
    exists k, i, l, j :: PlaceOf(sections, k, i) && PlaceOf(sections, l, j) && (k < l || (k == l && i < j))
                         && sections[k].claimIds[i] == sections[l].claimIds[j]
  }

  ghost predicate PlaceOf(sections: seq<Section>, k: int, i: int) {
    0 <= k < |sections| && 0 <= i < |sections[k].claimIds|
  }

  lemma {:induction false} BodyDistinct(sections: seq<Section>)
    ensures Distinct(BodyIds(sections)) <==> !NamedTwice(sections)
  {
    if sections != [] {
      hide Distinct, BodyIds, NamedTwice;
      var n := |sections| - 1;
      var head, tail := BodyIds(sections[..n]), sections[n].claimIds;
      BodyDistinct(sections[..n]);
      TwiceSnoc(sections);
      BodySnoc(sections);
      DistinctConcat(head, tail);
      if exists x :: x in head && x in tail {
        var x :| x in head && x in tail;
        BodyHolds(sections[..n], x);
      }
      if exists x :: ListsClaim(sections[..n], x) && x in tail {
        var x :| ListsClaim(sections[..n], x) && x in tail;
        BodyHolds(sections[..n], x);
      }
    }
  }

  lemma {:induction false} BodySnoc(sections: seq<Section>)
    requires sections != []
    ensures BodyIds(sections) == BodyIds(sections[..|sections| - 1]) + sections[|sections| - 1].claimIds
  {
  }

  lemma {:induction false} DistinctConcat(a: seq<string>, b: seq<string>)
    ensures Distinct(a + b) <==> Distinct(a) && Distinct(b) && !exists x :: x in a && x in b
  {
    var s := a + b;
    if Distinct(s) {
      DistinctParts(a, b);
      assert forall x :: x in a ==> x in ToSet(a);
    }
    if Distinct(a) && Distinct(b) && !exists x :: x in a && x in b {
      forall i, j | 0 <= i < j < |s| ensures s[i] != s[j] {
        if i < |a| <= j { assert s[i] in a && s[j] in b; }
      }
    }
  }

  lemma {:induction false} TwiceSnoc(sections: seq<Section>)
    requires sections != []
    ensures var n := |sections| - 1;
            NamedTwice(sections) <==>
            || NamedTwice(sections[..n]) || !Distinct(sections[n].claimIds)
            || exists x :: ListsClaim(sections[..n], x) && x in sections[n].claimIds
  {
    var n := |sections| - 1;
    var t := sections[..n];
    if NamedTwice(t) {
      var k, i, l, j :| PlaceOf(t, k, i) && PlaceOf(t, l, j) && (k < l || (k == l && i < j))
                        && t[k].claimIds[i] == t[l].claimIds[j];
      assert PlaceOf(sections, k, i) && PlaceOf(sections, l, j);
    }
    if !Distinct(sections[n].claimIds) {
      var i, j :| 0 <= i < j < |sections[n].claimIds| && sections[n].claimIds[i] == sections[n].claimIds[j];
      assert PlaceOf(sections, n, i) && PlaceOf(sections, n, j);
    }
    if exists x :: ListsClaim(t, x) && x in sections[n].claimIds {
      var x :| ListsClaim(t, x) && x in sections[n].claimIds;
      var k :| 0 <= k < n && x in t[k].claimIds;
      var i :| 0 <= i < |t[k].claimIds| && t[k].claimIds[i] == x;
      var j :| 0 <= j < |sections[n].claimIds| && sections[n].claimIds[j] == x;
      assert PlaceOf(sections, k, i) && PlaceOf(sections, n, j);
    }
    if NamedTwice(sections) { TwiceSplits(sections); }
  }

  lemma {:induction false} TwiceSplits(sections: seq<Section>)
    requires NamedTwice(sections)
    ensures var n := |sections| - 1;
            || NamedTwice(sections[..n]) || !Distinct(sections[n].claimIds)
            || exists x :: ListsClaim(sections[..n], x) && x in sections[n].claimIds
  {
    var n := |sections| - 1;
    var t := sections[..n];
    var k, i, l, j :| PlaceOf(sections, k, i) && PlaceOf(sections, l, j) && (k < l || (k == l && i < j))
                      && sections[k].claimIds[i] == sections[l].claimIds[j];
    if l < n {
      assert PlaceOf(t, k, i) && PlaceOf(t, l, j);
    } else if k < n {
      assert t[k].claimIds[i] in t[k].claimIds;
      assert ListsClaim(t, t[k].claimIds[i]);
    }
  }

  ghost predicate HasTitles(sections: seq<Section>) {
    && |sections| == 5 && sections[0].title == "기술 성숙도" && sections[1].title == "시장성"
    && sections[2].title == "이해관계자" && sections[3].title == "도메인 적용" && sections[4].title == "관점 간 상충과 한계"
  }

  lemma {:induction false} TitlesMean(sections: seq<Section>)
    ensures Titles(sections) == TITLES <==> HasTitles(sections)
  {
    var ts := Titles(sections);
    if ts == TITLES {
      assert |sections| == 5 && forall k :: 0 <= k < 5 ==> sections[k].title == TITLES[k];
    }
    if HasTitles(sections) {
      forall k | 0 <= k < 5 ensures ts[k] == TITLES[k] {}
    }
  }

  /** When a message about the body as a whole is due. */
  ghost predicate BodyLacks(e: ReportError, sections: seq<Section>, claims: Claims) {
    match e
    case WrongTitles => !HasTitles(sections)
    case MissingFromBody => exists id :: id in claims && !ListsClaim(sections, id)
    case RepeatedInBody => NamedTwice(sections)
    case _ => false
  }

  ghost predicate LayoutLacks(e: ReportError, sections: seq<Section>, claims: Claims) {
    || BodyLacks(e, sections, claims)
    || (exists k :: 0 <= k < |sections| && SectionLacks(e, sections[k], claims))
    || (exists k :: 0 <= k < |sections| && Misplaces(e, sections[k], sections[k].claimIds, claims))
  }

  /** When a message is due for a report. */
  ghost predicate Lacks(e: ReportError, report: Report, claims: Claims, chunks: seq<Chunk>,
          gaps: Option<seq<GapRecord>>) {
    || SummaryLacks(e, report.summaryClaimIds, claims)
    || LayoutLacks(e, report.sections, claims)
    || (gaps.Some? && DecisionsLack(e, report.gapDecisions, gaps.value, claims))
    || (e.UnknownClaim? && e.claimId !in claims
        && (e.claimId in report.summaryClaimIds || ListsClaim(report.sections, e.claimId)))
    || (e.Ungrounded? && Warranted(e.error, report.synthesisClaims, chunks, None, false))
  }

  lemma {:induction false} BodyMeans(sections: seq<Section>, claims: Claims)
    ensures !(claims.Keys <= ToSet(BodyIds(sections))) <==> exists id :: id in claims && !ListsClaim(sections, id)
  {
    hide ListsClaim, BodyIds;
    forall id ensures id in BodyIds(sections) <==> ListsClaim(sections, id) { BodyHolds(sections, id); }
  }

  /** The sections one by one; `body` collects the claim ids they name. */
  method BodyErrors(sections: seq<Section>, claims: Claims) returns (errors: seq<ReportError>, body: seq<string>)
    ensures errors == [] <==> forall i :: 0 <= i < |sections| ==> SectionSound(sections[i], claims)
    ensures forall e :: e in errors <==> exists k :: 0 <= k < |sections| && SectionLacks(e, sections[k], claims)
    ensures body == BodyIds(sections)
  {
    hide SectionSound, SectionLacks;
    errors, body := [], [];
    for k := 0 to |sections|
      invariant body == BodyIds(sections[..k])
      invariant errors == [] <==> forall i :: 0 <= i < k ==> SectionSound(sections[i], claims)
      invariant forall e :: e in errors <==> exists i :: 0 <= i < k && SectionLacks(e, sections[i], claims)
    {
      var more := SectionErrors(sections[k], claims);
      errors := errors + more;
      assert sections[..k + 1][..k] == sections[..k];
      body := body + sections[k].claimIds;
    }
    assert sections[..|sections|] == sections;
  }

  method MisplacedErrors(sections: seq<Section>, claims: Claims) returns (errors: seq<ReportError>)
    ensures errors == [] <==> forall i :: 0 <= i < |sections| ==> SectionPlaced(sections[i], claims)
    ensures forall e :: e in errors <==>
              exists k :: 0 <= k < |sections| && Misplaces(e, sections[k], sections[k].claimIds, claims)
  {
    hide SectionPlaced, Misplaces;
    errors := [];
    for k := 0 to |sections|
      invariant errors == [] <==> forall i :: 0 <= i < k ==> SectionPlaced(sections[i], claims)
      invariant forall e :: e in errors <==>
                  exists i :: 0 <= i < k && Misplaces(e, sections[i], sections[i].claimIds, claims)
    {
      var more := PlacementErrors(sections[k], claims);
      errors := errors + more;
    }
  }

  /** The titles, the sections, and the body as a whole. */
  method LayoutErrors(sections: seq<Section>, claims: Claims) returns (errors: seq<ReportError>, body: seq<string>)
    ensures body == BodyIds(sections)
    ensures errors == [] <==>
            && Titles(sections) == TITLES && claims.Keys <= ToSet(BodyIds(sections)) && Distinct(BodyIds(sections))
            && forall k :: 0 <= k < |sections| ==> SectionSound(sections[k], claims) && SectionPlaced(sections[k], claims)
    ensures forall e :: e in errors <==> LayoutLacks(e, sections, claims)
  {
    TitlesMean(sections);
    BodyMeans(sections, claims);
    BodyDistinct(sections);
    hide SectionSound, SectionPlaced, Titles, Distinct, BodyIds, SectionLacks, Misplaces, ListsClaim, NamedTwice,
         HasTitles, ToSet;
    errors := [];
    if Titles(sections) != TITLES {
      errors := errors + [WrongTitles];
    }
    var unsound;
    unsound, body := BodyErrors(sections, claims);
    errors := errors + unsound;
    if !(claims.Keys <= ToSet(body)) {
      errors := errors + [MissingFromBody];
    }
    var misplaced := MisplacedErrors(sections, claims);
    errors := errors + misplaced;
    if !Distinct(body) {
      errors := errors + [RepeatedInBody];
    }
  }

  /** `report_errors`: each message is given exactly when it is due, and none exactly when the report is sound. */
  method ReportErrors(report: Report, claims: Claims, chunks: seq<Chunk>, gaps: Option<seq<GapRecord>>)
    returns (errors: seq<ReportError>)
    ensures errors == [] <==> ReportSound(report, claims, chunks, gaps)
    ensures forall e :: e in errors <==> Lacks(e, report, claims, chunks, gaps)
  {
    forall id ensures id in BodyIds(report.sections) <==> ListsClaim(report.sections, id) {
      BodyHolds(report.sections, id);
    }
    hide SummarySound, SectionSound, SectionPlaced, DecisionsSound, AllGrounded, AllKnown, Titles, Distinct, BodyIds,
         SummaryLacks, LayoutLacks, DecisionsLack, Warranted, ListsClaim, ToSet;
    errors := SummaryErrors(report.summaryClaimIds, claims);
    var layout, body := LayoutErrors(report.sections, claims);
    errors := errors + layout;
    if gaps.Some? {
      var more := GapDecisionErrors(report.gapDecisions, gaps.value, claims);
      errors := errors + more;
    }
    var unknown := UnknownClaims(report.summaryClaimIds + body, claims);
    var ungrounded := ValidateAssessment(report.synthesisClaims, chunks, None, false);
    KnownConcat(report.summaryClaimIds, body, claims);
    var wrapped := Wrapped(ungrounded);
    errors := errors + unknown + wrapped;
  }

  lemma {:induction false} KnownConcat(a: seq<string>, b: seq<string>, claims: Claims)
    ensures AllKnown(a + b, claims) <==> AllKnown(a, claims) && AllKnown(b, claims)
  {
    if AllKnown(a + b, claims) {
      forall k | 0 <= k < |a| ensures a[k] in claims { assert (a + b)[k] == a[k]; }
      forall k | 0 <= k < |b| ensures b[k] in claims { assert (a + b)[|a| + k] == b[k]; }
    }
  }

  function Wrapped(errors: seq<AssessmentError>): (r: seq<ReportError>)
    ensures forall e :: e in r <==> e.Ungrounded? && e.error in errors
    ensures |r| == |errors|
  {
    if errors == [] then []
    else Wrapped(errors[..|errors| - 1]) + [Ungrounded(errors[|errors| - 1])]
  }

  method UnknownClaims(ids: seq<string>, claims: Claims) returns (errors: seq<ReportError>)
    ensures errors == [] <==> AllKnown(ids, claims)
    ensures forall e :: e in errors <==> e.UnknownClaim? && e.claimId in ids && e.claimId !in claims
  {
    errors := [];
    for k := 0 to |ids|
      invariant errors == [] <==> forall i :: 0 <= i < k ==> ids[i] in claims
      invariant forall e :: e in errors <==> e.UnknownClaim? && e.claimId in ids[..k] && e.claimId !in claims
    {
      assert ids[..k + 1] == ids[..k] + [ids[k]];
      if ids[k] !in claims {
        errors := errors + [UnknownClaim(ids[k])];
      }
    }
    assert ids[..|ids|] == ids;
  }

  // ---------- What soundness means for the body ----------

  ghost predicate AllPlaceable(claims: Claims) {
    forall id :: id in claims ==> SectionFor(claims[id].perspective).Some?
  }

  /** A sound report partitions the claims: the body names every claim exactly once and nothing else, and each of the
      five sections names exactly the claims of its own perspectives; only a claim whose perspective belongs to no
      section may stand in any of them. */
  lemma {:induction false} SoundReportPartitions(report: Report, claims: Claims, chunks: seq<Chunk>,
          gaps: Option<seq<GapRecord>>)
    requires ReportSound(report, claims, chunks, gaps)
    ensures multiset(BodyIds(report.sections)) == multiset(claims.Keys)
    ensures |report.sections| == 5
    ensures forall k, id :: 0 <= k < 5 && id in claims && SectionFor(claims[id].perspective).Some? ==>
              (id in report.sections[k].claimIds <==> SectionFor(claims[id].perspective) == Some(TITLES[k]))
    ensures AllPlaceable(claims) ==> forall k, id :: 0 <= k < 5 ==>
              (id in report.sections[k].claimIds <==>
                 id in claims && SectionFor(claims[id].perspective) == Some(TITLES[k]))
  {
    var body := BodyIds(report.sections);
    assert ToSet(body) == claims.Keys by {
      forall id | id in ToSet(body) ensures id in claims {
        var k :| 0 <= k < |body| && body[k] == id;
      }
    }
    forall id: string ensures multiset(body)[id] == multiset(claims.Keys)[id] {
      DistinctCount(body, id);
      assert id in body <==> id in ToSet(body);
    }
    assert |Titles(report.sections)| == |TITLES|;
    forall k, id | 0 <= k < 5 && id in claims && SectionFor(claims[id].perspective).Some?
      ensures id in report.sections[k].claimIds <==> SectionFor(claims[id].perspective) == Some(TITLES[k])
    {
      SectionIsPerspective(report, claims, chunks, gaps, k, id);
    }
    forall k, id | 0 <= k < 5 && id in report.sections[k].claimIds ensures id in claims {
      BodyHolds(report.sections, id);
      assert id in ToSet(body);
    }
  }

  lemma {:induction false} TitlesDistinct()
    ensures Distinct(TITLES)
  {
    assert MATURITY[0] == '기' && MARKET[0] == '시' && STAKEHOLDER[0] == '이' && DOMAIN[0] == '도' && SYNTHESIS[0] == '관';
  }

  lemma {:induction false} SectionIsPerspective(report: Report, claims: Claims, chunks: seq<Chunk>,
          gaps: Option<seq<GapRecord>>, k: nat, id: string)
    requires ReportSound(report, claims, chunks, gaps) && k < |report.sections| == 5
    requires id in claims && SectionFor(claims[id].perspective).Some?
    ensures id in report.sections[k].claimIds <==> SectionFor(claims[id].perspective) == Some(TITLES[k])
  {
    var sections := report.sections;
    TitlesDistinct();
    BodyHolds(sections, id);
    forall j | 0 <= j < 5 && id in sections[j].claimIds ensures SectionFor(claims[id].perspective) == Some(TITLES[j]) {
      assert Titles(sections)[j] == TITLES[j];
      var i :| 0 <= i < |sections[j].claimIds| && sections[j].claimIds[i] == id;
      assert Placed(sections[j], sections[j].claimIds[i], claims);
    }
    if SectionFor(claims[id].perspective) == Some(TITLES[k]) {
      assert id in ToSet(BodyIds(sections));
      var j :| 0 <= j < 5 && id in sections[j].claimIds;
      assert TITLES[j] == TITLES[k];
    }
  }
}
