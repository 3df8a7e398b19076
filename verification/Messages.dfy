/** What the checks of the messages between roles amount to, in terms of the messages that the assessment check would
    give and of the registries they carry (agents/contracts.py). */
module Messages {
  import opened Schema
  import opened Texts
  import opened Ids
  import opened Evidence
  import opened Reports
  import opened Conflicts
  import opened Contracts

  // ---------- Claims ----------

  lemma {:induction false} GroundedMeans(claim: Claim, chunks: seq<Chunk>, technology: Option<Technology>)
    ensures Grounded(claim, chunks, technology) <==> forall f :: !Fails(f, claim, chunks, technology)
  {
    hide Fails, ClaimFailures, Grounded;
    ClaimFailuresEmpty(claim, chunks, technology);
    forall f ensures f in ClaimFailures(claim, chunks, technology) <==> Fails(f, claim, chunks, technology) {
      FailuresAre(claim, chunks, technology, f);
    }
    if ClaimFailures(claim, chunks, technology) != [] {
      assert ClaimFailures(claim, chunks, technology)[0] in ClaimFailures(claim, chunks, technology);
    }
  }

  lemma {:induction false} CoreMeans(claims: seq<Claim>)
    ensures CoreComplete(claims) <==>
            && (forall f :: !FacetMissing(claims, f)) && !NoEstimate(claims)
            && !exists k :: 0 <= k < |claims| && UnsourcedConditions(claims[k])
  {
    hide FacetMissing, HasFacet, ConditionsSourced, UnsourcedConditions, NoEstimate, EstimatesMaturity;
    AllCoreFacets(claims);
    forall f | f in CORE_FACETS ensures FacetMissing(claims, f) <==> !HasFacet(claims, f) { FacetMeans(claims, f); }
    forall k | 0 <= k < |claims| ensures UnsourcedConditions(claims[k]) <==> !ConditionsSourced(claims[k]) {
      ConditionsMean(claims[k]);
    }
    EstimateMeans(claims);
  }

  /** Claims are sound exactly when no message is due for them. */
  ghost predicate Faultless(claims: seq<Claim>, chunks: seq<Chunk>, technology: Option<Technology>, core: bool) {
    forall e :: !Warranted(e, claims, chunks, technology, core)
  }

  lemma {:induction false} FaultlessMeans(claims: seq<Claim>, chunks: seq<Chunk>, technology: Option<Technology>,
          core: bool)
    ensures Faultless(claims, chunks, technology, core)
            <==> AllGrounded(claims, chunks, technology) && (core ==> CoreComplete(claims))
  {
    hide Fails, Grounded, CoreComplete, FacetMissing, UnsourcedConditions, NoEstimate;
    CoreMeans(claims);
    forall k | 0 <= k < |claims|
      ensures Grounded(claims[k], chunks, technology) <==> forall f :: !Fails(f, claims[k], chunks, technology)
    {
      GroundedMeans(claims[k], chunks, technology);
    }
    if Faultless(claims, chunks, technology, core) {
      forall k | 0 <= k < |claims| ensures Grounded(claims[k], chunks, technology) {
        forall f ensures !Fails(f, claims[k], chunks, technology) {
          assert !Warranted(ClaimError(k, f), claims, chunks, technology, core);
        }
      }
      if core {
        assert !Warranted(CoreConditions, claims, chunks, technology, core);
        assert !Warranted(CoreMaturity, claims, chunks, technology, core);
        forall f ensures !FacetMissing(claims, f) { assert !Warranted(MissingFacet(f), claims, chunks, technology, core); }
      }
    }
  }

  // ---------- Research results ----------

  ghost predicate Expects(view: Role, name: string) {
    || (view.Research? && (name == "research_kivi" || name == "research_infinigen"))
    || (view.Market? && name == "market") || (view.Stakeholder? && name == "stakeholder")
    || (view.Domain? && name == "domain")
  }

  ghost predicate RegistryHolds(chunks: seq<Chunk>, sources: map<string, Source>) {
    && (forall c, d :: c in chunks && d in chunks && c.id == d.id ==> c == d)
    && (forall c :: c in chunks ==> c.sourceId in sources)
    && (forall c :: c in chunks && c.sourceId in sources ==> (c.page.None? <==> sources[c.sourceId].kind.ExternalWeb?))
  }

  /** The six claims of an ok view cover what its name asks for; the claims of research are about its technology. */
  ghost predicate Supports(r: ResearchResult, name: string, a: Assessment) {
    match name
    case "research_kivi" => Faultless(a.claims, r.chunks, Some(Kivi), r.status.Ok?)
    case "research_infinigen" => Faultless(a.claims, r.chunks, Some(InfiniGen), r.status.Ok?)
    case _ =>
      && Faultless(a.claims, r.chunks, None, false)
      && (r.status.Ok? ==>
            && |a.claims| == 6
            && forall t, f :: Covered(a.claims, t, f) <==> (t == Kivi || t == InfiniGen) && Asks(name, f))
  }

  ghost predicate GivesReason(a: Assessment) { exists g :: g in a.gaps && !AllSpace(g) }

  ghost predicate Accepted(r: ResearchResult) {
    if r.status.Failed? then r.error.Some? && |r.assessments| == 0 && |r.chunks| == 0 && |r.sources| == 0
    else
      && r.error.None? && RegistryHolds(r.chunks, r.sources)
      && (forall name :: Expects(r.view, name) <==> name in Keys(r.assessments)) && Distinct(Keys(r.assessments))
      && (r.status.Partial? <==> exists k :: 0 <= k < |r.assessments| && r.assessments[k].1.status.Insufficient?)
      && forall k :: 0 <= k < |r.assessments| ==>
           && (r.assessments[k].1.status.Insufficient? ==> GivesReason(r.assessments[k].1))
           && Supports(r, r.assessments[k].0, r.assessments[k].1)
  }

  lemma {:induction false} RegistryMeans(chunks: seq<Chunk>, sources: map<string, Source>)
    ensures RegistrySound(chunks, sources) <==> RegistryHolds(chunks, sources)
  {
    if RegistryHolds(chunks, sources) {
      forall i | 0 <= i < |chunks| ensures Sourced(chunks[i], sources) { assert chunks[i] in chunks; }
      forall i, j | 0 <= i < |chunks| && 0 <= j < |chunks| && chunks[i].id == chunks[j].id ensures chunks[i] == chunks[j] {
        assert chunks[i] in chunks && chunks[j] in chunks;
      }
    }
    if RegistrySound(chunks, sources) {
      forall c | c in chunks ensures Sourced(c, sources) { var i :| 0 <= i < |chunks| && chunks[i] == c; }
    }
  }

  lemma {:induction false} ExpectedNames(view: Role)
    requires IsView(view)
    ensures forall name :: Expects(view, name) <==> name in AssessmentNames(view)
    ensures forall name :: Expects(view, name) ==>
              && (view.Research? <==> name == "research_kivi" || name == "research_infinigen")
              && (!view.Research? ==> name == RoleName(view) && name in ["market", "stakeholder", "domain"])
  {
    assert "market"[0] == 'm' && "stakeholder"[0] == 's' && "domain"[0] == 'd' && "research_kivi"[0] == 'r'
           && "research_infinigen"[0] == 'r';
    if view.Research? {
      assert AssessmentNames(view)[0] == "research_kivi" && AssessmentNames(view)[1] == "research_infinigen";
    } else {
      assert AssessmentNames(view)[0] == RoleName(view);
    }
  }

  lemma {:induction false} SupportsMeans(r: ResearchResult, name: string, a: Assessment)
    requires IsView(r.view) && Expects(r.view, name)
    ensures Assessed(r, name, a) <==> Supports(r, name, a)
  {
    hide Faultless, AllGrounded, CoreComplete, Balanced, Covered, Asks;
    ExpectedNames(r.view);
    FaultlessMeans(a.claims, r.chunks, Some(Kivi), r.status.Ok?);
    FaultlessMeans(a.claims, r.chunks, Some(InfiniGen), r.status.Ok?);
    FaultlessMeans(a.claims, r.chunks, None, false);
    if !r.view.Research? { BalancedMeans(a.claims, name); }
  }

  lemma {:induction false} ReasonMeans(a: Assessment)
    ensures Explained(a) <==> (a.status.Insufficient? ==> GivesReason(a))
  {
    if GivesReason(a) {
      var g :| g in a.gaps && !AllSpace(g);
      var k :| 0 <= k < |a.gaps| && a.gaps[k] == g;
    }
  }

  /** A result is accepted exactly when it is an explained failure that carries nothing, or a sound registry with the
      assessments its view owes: no message is due for a claim, and the status says whether one is insufficient. */
  lemma {:induction false} ResearchAccepted(r: ResearchResult)
    requires IsView(r.view)
    ensures ConsistentResearch(r) <==> Accepted(r)
  {
    hide Assessed, Supports, Explained, GivesReason, RegistrySound, RegistryHolds, Expects, AssessmentNames, ToSet,
         Distinct;
    RegistryMeans(r.chunks, r.sources);
    ExpectedNames(r.view);
    NamesMean(r);
    forall k | 0 <= k < |r.assessments|
      ensures Explained(r.assessments[k].1) <==> (r.assessments[k].1.status.Insufficient? ==> GivesReason(r.assessments[k].1))
    {
      ReasonMeans(r.assessments[k].1);
    }
    forall k | 0 <= k < |r.assessments| && Expects(r.view, r.assessments[k].0)
      ensures Assessed(r, r.assessments[k].0, r.assessments[k].1) <==> Supports(r, r.assessments[k].0, r.assessments[k].1)
    {
      SupportsMeans(r, r.assessments[k].0, r.assessments[k].1);
    }
    forall k | 0 <= k < |r.assessments| ensures r.assessments[k].0 in Keys(r.assessments) {
      assert Keys(r.assessments)[k] == r.assessments[k].0;
    }
  }

  lemma {:induction false} NamesMean(r: ResearchResult)
    requires IsView(r.view)
    ensures ToSet(Keys(r.assessments)) == ToSet(AssessmentNames(r.view))
            <==> forall name :: Expects(r.view, name) <==> name in Keys(r.assessments)
  {
    hide Expects, AssessmentNames;
    ExpectedNames(r.view);
    forall name ensures name in ToSet(Keys(r.assessments)) <==> name in Keys(r.assessments) {}
    forall name ensures name in ToSet(AssessmentNames(r.view)) <==> Expects(r.view, name) {}
  }

  // ---------- Reports ----------

  /** A claim record stands under its own id, draws no message, and its evidence is registered under its own id. */
  ghost predicate Registered(id: string, r: ClaimRecord, d: Document, chunks: seq<Chunk>) {
    && r.id == id && (forall f :: !Fails(f, r.claim, chunks, None))
    && forall e :: e in r.evidenceIds ==> e in d.joined.evidence && d.joined.evidence[e].id == e
  }

  ghost predicate AcceptedReport(r: ReportResult) {
    match r.document
    case None => r.error.Some? && |r.chunks| == 0 && |r.sources| == 0
    case Some(d) =>
      && r.error.None? && RegistryHolds(r.chunks, r.sources)
      && |d.report.synthesisClaims| == 2 && d.report.synthesisClaims[0].kind.TeamInference?
      && d.report.synthesisClaims[1].kind.TeamInference?
      && Distinct(Keys(d.joined.claims)) && Distinct(Keys(d.joined.assessments))
      && (forall k :: 0 <= k < |d.joined.claims| ==> Registered(d.joined.claims[k].0, d.joined.claims[k].1, d, r.chunks))
      && (forall e :: e in d.joined.evidence.Values ==> FromChunk(e, r.chunks))
  }

  ghost predicate FromChunk(e: EvidenceRecord, chunks: seq<Chunk>) {
    exists c :: Supplied(chunks, e.ref.chunkId, c) && c.sourceId == e.sourceId
  }

  lemma {:induction false} RegisteredMeans(id: string, r: ClaimRecord, d: Document, chunks: seq<Chunk>)
    ensures RecordConsistent(id, r, d, chunks) <==> Registered(id, r, d, chunks)
  {
    hide Grounded, Fails;
    GroundedMeans(r.claim, chunks, None);
    if RecordConsistent(id, r, d, chunks) {
      forall e | e in r.evidenceIds ensures e in d.joined.evidence && d.joined.evidence[e].id == e {
        var k :| 0 <= k < |r.evidenceIds| && r.evidenceIds[k] == e;
      }
    }
  }

  lemma {:induction false} FromChunkMeans(e: EvidenceRecord, chunks: seq<Chunk>)
    ensures EvidenceResolves(e, chunks) <==> FromChunk(e, chunks)
  {
    hide Supplied;
    var found := Lookup(chunks, e.ref.chunkId);
    if found.Some? { LookupIs(chunks, e.ref.chunkId, found.value); }
    forall c | Supplied(chunks, e.ref.chunkId, c) ensures found == Some(c) { LookupIs(chunks, e.ref.chunkId, c); }
  }

  /** A report result is accepted exactly when it is an explained failure without a document, or a document whose claims
      draw no message and whose evidence comes from its own chunks. */
  lemma {:induction false} ReportAccepted(r: ReportResult)
    ensures ConsistentReport(r) <==> AcceptedReport(r)
  {
    hide RegistrySound, RegistryHolds, RecordConsistent, Registered, EvidenceResolves, FromChunk, Distinct;
    RegistryMeans(r.chunks, r.sources);
    if r.document.Some? {
      var d := r.document.value;
      forall k | 0 <= k < |d.joined.claims|
        ensures RecordConsistent(d.joined.claims[k].0, d.joined.claims[k].1, d, r.chunks)
                <==> Registered(d.joined.claims[k].0, d.joined.claims[k].1, d, r.chunks)
      {
        RegisteredMeans(d.joined.claims[k].0, d.joined.claims[k].1, d, r.chunks);
      }
      forall e: EvidenceRecord ensures EvidenceResolves(e, r.chunks) <==> FromChunk(e, r.chunks) { FromChunkMeans(e, r.chunks); }
      assert forall id :: id in d.joined.evidence ==> d.joined.evidence[id] in d.joined.evidence.Values;
    }
  }

  // ---------- The structure of a report ----------

  lemma {:induction false} SummaryMeans(ids: seq<string>, claims: Claims)
    ensures SummarySound(ids, claims) <==> forall e :: !SummaryLacks(e, ids, claims)
  {
    MentionsMeans(ids, claims, {"synthesis"}, p => p == "synthesis");
    MentionsMeans(ids, claims, {"market", "stakeholder", "domain"}, p => p in ["market", "stakeholder", "domain"]);
    hide MentionsPerspective, NoneOf;
    if forall e :: !SummaryLacks(e, ids, claims) {
      assert !SummaryLacks(SummaryCount, ids, claims) && !SummaryLacks(SummaryRepeats, ids, claims)
             && !SummaryLacks(SummaryPerspectives, ids, claims);
    }
  }

  lemma {:induction false} SectionMeans(s: Section, claims: Claims)
    ensures SectionSound(s, claims) <==> forall e :: !SectionLacks(e, s, claims)
  {
    AllSynthesisMeans(s.claimIds, claims);
    CoversMeans(s.claimIds, claims, Kivi);
    CoversMeans(s.claimIds, claims, InfiniGen);
    CoversMeans(s.claimIds, claims, Both);
    CoreFacetsMean(s.claimIds, claims, Kivi);
    CoreFacetsMean(s.claimIds, claims, InfiniGen);
    hide AllSynthesis, HasCoreFacets, Covers, Mentions, Lists;
    if forall e :: !SectionLacks(e, s, claims) {
      assert !SectionLacks(FinalNotSynthesis, s, claims) && !SectionLacks(EmptySection, s, claims);
      assert !SectionLacks(OneSidedSection(s.title), s, claims);
      assert !SectionLacks(MissingCoreFacets(Kivi), s, claims) && !SectionLacks(MissingCoreFacets(InfiniGen), s, claims);
    }
  }

  lemma {:induction false} PlacementMeans(s: Section, claims: Claims)
    ensures SectionPlaced(s, claims) <==> forall e :: !Misplaces(e, s, s.claimIds, claims)
  {
    hide Belongs, Placed;
    forall id ensures Placed(s, id, claims) <==> !Misplaces(WrongSection(id, s.title), s, [id], claims) { PlacedMeans(s, id, claims); }
    if forall e :: !Misplaces(e, s, s.claimIds, claims) {
      forall k | 0 <= k < |s.claimIds| ensures Placed(s, s.claimIds[k], claims) {
        assert s.claimIds[k] in s.claimIds && !Misplaces(WrongSection(s.claimIds[k], s.title), s, s.claimIds, claims);
      }
    }
  }

  lemma {:induction false} OneDecisionMeans(d: GapDecision, claims: Claims)
    ensures DecisionSound(d, claims) <==> forall e :: !DecisionLacks(e, d, claims)
  {
    DecisionMeans(d, claims);
    hide AssessmentClaim, KnownEvidence;
    if forall e :: !DecisionLacks(e, d, claims) {
      assert !DecisionLacks(BadGapStatus(d.gapId), d, claims) && !DecisionLacks(UnexplainedGap(d.gapId), d, claims);
      assert !DecisionLacks(UnknownGapEvidence(d.gapId), d, claims);
      assert !DecisionLacks(UnsupportedResolution(d.gapId), d, claims);
    }
  }

  lemma {:induction false} DecisionsMean(decisions: seq<GapDecision>, gaps: seq<GapRecord>, claims: Claims)
    ensures DecisionsSound(decisions, gaps, claims) <==> forall e :: !DecisionsLack(e, decisions, gaps, claims)
  {
    hide DecisionSound, DecisionLacks, DecidedOnce, ToSet;
    DecidedOnceMeans(decisions, gaps);
    forall k | 0 <= k < |decisions|
      ensures DecisionSound(decisions[k], claims) <==> forall e :: !DecisionLacks(e, decisions[k], claims)
    {
      OneDecisionMeans(decisions[k], claims);
    }
    if forall e :: !DecisionsLack(e, decisions, gaps, claims) {
      assert !DecisionsLack(GapsNotDecidedOnce, decisions, gaps, claims);
      forall k, e | 0 <= k < |decisions| ensures !DecisionLacks(e, decisions[k], claims) {
        assert !DecisionsLack(e, decisions, gaps, claims);
      }
    }
  }

  lemma {:induction false} LayoutMeans(sections: seq<Section>, claims: Claims)
    ensures (forall e :: !LayoutLacks(e, sections, claims)) <==>
            && Titles(sections) == TITLES && claims.Keys <= ToSet(BodyIds(sections)) && Distinct(BodyIds(sections))
            && forall k :: 0 <= k < |sections| ==> SectionSound(sections[k], claims) && SectionPlaced(sections[k], claims)
  {
    TitlesMean(sections);
    BodyMeans(sections, claims);
    BodyDistinct(sections);
    hide SectionSound, SectionPlaced, Titles, Distinct, BodyIds, SectionLacks, Misplaces, ListsClaim, NamedTwice,
         HasTitles, ToSet;
    forall k | 0 <= k < |sections|
      ensures SectionSound(sections[k], claims) <==> forall e :: !SectionLacks(e, sections[k], claims)
      ensures SectionPlaced(sections[k], claims) <==> forall e :: !Misplaces(e, sections[k], sections[k].claimIds, claims)
    {
      SectionMeans(sections[k], claims);
      PlacementMeans(sections[k], claims);
    }
    if forall e :: !LayoutLacks(e, sections, claims) {
      assert !LayoutLacks(WrongTitles, sections, claims) && !LayoutLacks(MissingFromBody, sections, claims)
             && !LayoutLacks(RepeatedInBody, sections, claims);
      forall k, e | 0 <= k < |sections|
        ensures !SectionLacks(e, sections[k], claims) && !Misplaces(e, sections[k], sections[k].claimIds, claims)
      {
        assert !LayoutLacks(e, sections, claims);
      }
    }
  }

  ghost predicate NoneUnknown(report: Report, claims: Claims) {
    forall id :: id in report.summaryClaimIds || ListsClaim(report.sections, id) ==> id in claims
  }

  lemma {:induction false} KnownMeans(report: Report, claims: Claims)
    ensures NoneUnknown(report, claims) <==>
            AllKnown(report.summaryClaimIds, claims) && AllKnown(BodyIds(report.sections), claims)
  {
    hide ListsClaim, BodyIds;
    var body := BodyIds(report.sections);
    forall id ensures id in body <==> ListsClaim(report.sections, id) { BodyHolds(report.sections, id); }
    if NoneUnknown(report, claims) {
      assert forall k :: 0 <= k < |body| ==> body[k] in body;
      assert forall k :: 0 <= k < |report.summaryClaimIds| ==> report.summaryClaimIds[k] in report.summaryClaimIds;
    }
  }

  /** A report is sound exactly when no message is due for it. */
  lemma {:induction false} ReportMeans(report: Report, claims: Claims, chunks: seq<Chunk>, gaps: Option<seq<GapRecord>>)
    ensures ReportSound(report, claims, chunks, gaps) <==> forall e :: !Lacks(e, report, claims, chunks, gaps)
  {
    hide SummarySound, SectionSound, SectionPlaced, DecisionsSound, AllGrounded, AllKnown, Titles, Distinct, BodyIds,
         SummaryLacks, LayoutLacks, DecisionsLack, Warranted, ListsClaim, ToSet;
    SummaryMeans(report.summaryClaimIds, claims);
    LayoutMeans(report.sections, claims);
    if gaps.Some? { DecisionsMean(report.gapDecisions, gaps.value, claims); }
    KnownMeans(report, claims);
    FaultlessMeans(report.synthesisClaims, chunks, None, false);
    if forall e :: !Lacks(e, report, claims, chunks, gaps) {
      forall e
        ensures !SummaryLacks(e, report.summaryClaimIds, claims) && !LayoutLacks(e, report.sections, claims)
        ensures gaps.Some? ==> !DecisionsLack(e, report.gapDecisions, gaps.value, claims)
      {
        assert !Lacks(e, report, claims, chunks, gaps);
      }
      forall id | id in report.summaryClaimIds || ListsClaim(report.sections, id) ensures id in claims {
        assert !Lacks(UnknownClaim(id), report, claims, chunks, gaps);
      }
      forall e ensures !Warranted(e, report.synthesisClaims, chunks, None, false) {
        assert !Lacks(Ungrounded(e), report, claims, chunks, gaps);
      }
    }
  }

  // ---------- Verdicts, publications, decisions ----------

  lemma {:induction false} AllCriteria(keys: set<Criterion>)
    ensures keys == {Groundedness, Neutrality, BiasControl, Coverage} <==> forall c: Criterion :: c in keys
  {
    var all := {Groundedness, Neutrality, BiasControl, Coverage};
    forall c: Criterion ensures c in keys ==> c in all {
      match c
      case Groundedness =>
      case Neutrality =>
      case BiasControl =>
      case Coverage =>
    }
    if forall c: Criterion :: c in keys {
      assert Groundedness in keys && Neutrality in keys && BiasControl in keys && Coverage in keys;
      assert keys == all;
    }
    if keys == all {
      forall c: Criterion ensures c in keys {
        match c
        case Groundedness =>
        case Neutrality =>
        case BiasControl =>
        case Coverage =>
      }
    }
  }

  /** A failed evaluation is never a verdict; a verdict passes exactly when all four criteria do, and asks for repairs
      exactly when it does not. */
  lemma {:induction false} VerdictAccepted(e: EvaluationResult)
    ensures ConsistentEvaluation(e) <==>
            match e.error
            case Some(_) => !e.passed && |e.checks| == 0 && |e.repairs| == 0
            case None =>
              && (forall c: Criterion :: c in e.checks)
              && (e.passed <==> |e.repairs| == 0)
              && (e.passed <==> !exists c :: c in e.checks && !e.checks[c].passed)
              && forall q :: q in e.repairs ==>
                   !AllSpace(q.reason) && q.target in {Research, Market, Stakeholder, Domain, Writer}
  {
    AllCriteria(e.checks.Keys);
    if e.error.None? {
      if forall q :: q in e.repairs ==> !AllSpace(q.reason) && q.target in {Research, Market, Stakeholder, Domain, Writer} {
        forall k | 0 <= k < |e.repairs| ensures e.repairs[k] in e.repairs {}
      }
    }
  }

  ghost predicate ListsClaimId(e: EvaluationResult, id: string) {
    || (exists c :: c in e.checks && id in e.checks[c].claimIds)
    || (exists r :: r in e.repairs && id in r.claimIds)
  }

  ghost predicate ListsGapId(e: EvaluationResult, id: string) {
    || (exists c :: c in e.checks && id in e.checks[c].gapIds)
    || (exists r :: r in e.repairs && id in r.gapIds)
  }

  lemma {:induction false} KnownIdsMean(claimIds: seq<string>, gapIds: seq<string>, d: Document)
    ensures KnownIds(claimIds, gapIds, d) <==>
            (forall id :: id in claimIds ==> id in Dict(d.joined.claims))
            && forall id :: id in gapIds ==> IsGap(d.joined.gapRecords, id)
  {
    hide Dict, IsGap;
    forall id ensures id in GapIds(d.joined.gapRecords) <==> IsGap(d.joined.gapRecords, id) {
      IsGapMeans(d.joined.gapRecords, id);
    }
    assert forall k :: 0 <= k < |claimIds| ==> claimIds[k] in claimIds;
    assert forall k :: 0 <= k < |gapIds| ==> gapIds[k] in gapIds;
  }

  ghost predicate NamesKnown(claimIds: seq<string>, gapIds: seq<string>, d: Document) {
    (forall id :: id in claimIds ==> id in Dict(d.joined.claims))
    && forall id :: id in gapIds ==> IsGap(d.joined.gapRecords, id)
  }

  lemma {:induction false} AllNamesKnown(e: EvaluationResult, d: Document)
    ensures VerdictKnown(e, d) <==>
            && (forall c :: c in e.checks ==> NamesKnown(e.checks[c].claimIds, e.checks[c].gapIds, d))
            && (forall r :: r in e.repairs ==> NamesKnown(r.claimIds, r.gapIds, d))
  {
    forall a, b ensures KnownIds(a, b, d) <==> NamesKnown(a, b, d) { KnownIdsMean(a, b, d); }
    hide KnownIds, NamesKnown;
    assert forall k :: 0 <= k < |e.repairs| ==> e.repairs[k] in e.repairs;
  }

  /** A verdict passes the membership check exactly when every claim and every gap that its checks and repairs list is
      one of the report. */
  lemma {:induction false} VerdictNames(e: EvaluationResult, d: Document)
    ensures VerdictKnown(e, d) <==>
            && (forall id :: ListsClaimId(e, id) ==> id in Dict(d.joined.claims))
            && (forall id :: ListsGapId(e, id) ==> IsGap(d.joined.gapRecords, id))
  {
    AllNamesKnown(e, d);
    hide VerdictKnown, Dict, IsGap;
    if (forall id :: ListsClaimId(e, id) ==> id in Dict(d.joined.claims))
       && (forall id :: ListsGapId(e, id) ==> IsGap(d.joined.gapRecords, id)) {
      forall c | c in e.checks ensures NamesKnown(e.checks[c].claimIds, e.checks[c].gapIds, d) {
        assert forall id :: id in e.checks[c].claimIds ==> ListsClaimId(e, id);
        assert forall id :: id in e.checks[c].gapIds ==> ListsGapId(e, id);
      }
      forall r | r in e.repairs ensures NamesKnown(r.claimIds, r.gapIds, d) {
        assert forall id :: id in r.claimIds ==> ListsClaimId(e, id);
        assert forall id :: id in r.gapIds ==> ListsGapId(e, id);
      }
    }
  }

  /** Files and an error exclude each other, one of them is there, and a document has one to ten pages. */
  lemma {:induction false} PublicationAccepted(p: PublishResult)
    ensures ConsistentPublication(p) <==>
            match p.files
            case Some(f) => p.error.None? && f.pages > 0 && f.pages < 11
            case None => p.error.Some?
  {
  }

  lemma {:induction false} DecisionAccepted(d: Decision)
    ensures ConsistentDecision(d) <==>
            && !AllSpace(d.reason) && d.action != Go(Supervisor)
            && forall note :: note in d.feedback ==> !AllSpace(note)
  {
    if forall note :: note in d.feedback ==> !AllSpace(note) {
      forall k | 0 <= k < |d.feedback| ensures d.feedback[k] in d.feedback {}
    }
  }

  // ---------- Merged registries ----------

  ghost function AllChunks(results: seq<ResearchResult>): seq<Chunk> {
    if results == [] then [] else AllChunks(results[..|results| - 1]) + results[|results| - 1].chunks
  }

  ghost predicate Coherent(chunks: seq<Chunk>) { forall c, d :: c in chunks && d in chunks && c.id == d.id ==> c == d }

  ghost predicate SourcesAgree(results: seq<ResearchResult>) {
    forall i, j, id :: 0 <= i < |results| && 0 <= j < |results| && id in results[i].sources && id in results[j].sources ==>
                         results[i].sources[id] == results[j].sources[id]
  }

  /** The source is registered by one of the results. */
  ghost predicate Registers(results: seq<ResearchResult>, id: string, s: Source) {
    exists k :: 0 <= k < |results| && id in results[k].sources && results[k].sources[id] == s
  }

  ghost predicate Gives(sources: map<string, Source>, id: string, s: Source) { id in sources && sources[id] == s }

  lemma {:induction false} CoherentLookup(chunks: seq<Chunk>, c: Chunk)
    requires Coherent(chunks)
    ensures Lookup(chunks, c.id) == Some(c) <==> c in chunks
    ensures Lookup(chunks, c.id).None? <==> forall d :: d in chunks ==> d.id != c.id
  {
    LookupKnown(chunks, c.id);
  }

  lemma {:induction false} MergeChunksAre(merged: seq<Chunk>, more: seq<Chunk>)
    requires Coherent(merged)
    ensures MergeChunks(merged, more).Done? <==> Coherent(merged + more)
    ensures MergeChunks(merged, more).Done? ==>
              forall c :: c in MergeChunks(merged, more).value <==> c in merged || c in more
    decreases |more|
  {
    if more == [] {
      assert merged + more == merged;
    } else {
      var c, rest := more[0], more[1..];
      assert more == [c] + rest;
      CoherentLookup(merged, c);
      var seen := Lookup(merged, c.id);
      hide Lookup;
      assert forall d :: d in merged + more <==> d in merged || d == c || d in rest;
      if seen.None? {
        assert (merged + [c]) + rest == merged + more;
        MergeChunksAre(merged + [c], rest);
      } else if seen.value == c {
        MergeChunksAre(merged, rest);
        assert forall d :: d in merged + rest <==> d in merged + more;
      } else {
        assert seen.value in merged + more && c in merged + more;
      }
    }
  }

  lemma {:induction false} MergeSourcesAre(results: seq<ResearchResult>, merged: map<string, Source>)
    requires results != [] && SourcesAgree(results[..|results| - 1])
    requires forall id, s :: Gives(merged, id, s) <==> Registers(results[..|results| - 1], id, s)
    ensures var sources := MergeSources(merged, results[|results| - 1].sources);
            && (sources.Done? <==> SourcesAgree(results))
            && (sources.Done? ==> forall id, s :: Gives(sources.value, id, s) <==> Registers(results, id, s))
  {
    hide Registers;
    var n := |results| - 1;
    AgreePrefix(results, n);
    var more := results[n].sources;
    forall id, s ensures Registers(results, id, s)
                         <==> Registers(results[..n], id, s) || (id in more && more[id] == s)
    {
      RegistersSnoc(results, id, s);
    }
    if SourcesAgree(results) {
      forall id | id in more && id in merged ensures merged[id] == more[id] {
        assert Gives(merged, id, merged[id]);
        RegistersAt(results[..n], id, merged[id], results, n);
      }
    }
    if MergeSources(merged, more).Done? {
      forall i, id | 0 <= i < n && id in results[i].sources && id in more ensures results[i].sources[id] == more[id] {
        RegistersOwn(results[..n], i, id);
        assert Gives(merged, id, results[i].sources[id]);
      }
      AgreeSnoc(results);
      assert forall id :: id in more && id in merged ==> merged[id] == more[id];
      forall id, s ensures Gives(merged + more, id, s) <==> Registers(results, id, s) {
        assert Gives(merged, id, s) <==> Registers(results[..n], id, s);
      }
    }
  }

  lemma {:induction false} AgreeSnoc(results: seq<ResearchResult>)
    requires results != [] && SourcesAgree(results[..|results| - 1])
    requires var n := |results| - 1;
             forall i, id :: 0 <= i < n && id in results[i].sources && id in results[n].sources ==>
                               results[i].sources[id] == results[n].sources[id]
    ensures SourcesAgree(results)
  {
    var n := |results| - 1;
    forall i, j, id | 0 <= i < |results| && 0 <= j < |results| && id in results[i].sources && id in results[j].sources
      ensures results[i].sources[id] == results[j].sources[id]
    {
      if i < n && j < n { assert results[..n][i].sources[id] == results[..n][j].sources[id]; }
    }
  }

  lemma {:induction false} RegistersOwn(results: seq<ResearchResult>, i: nat, id: string)
    requires i < |results| && id in results[i].sources
    ensures Registers(results, id, results[i].sources[id])
  {
  }

  lemma {:induction false} RegistersSnoc(results: seq<ResearchResult>, id: string, s: Source)
    requires results != []
    ensures var n := |results| - 1;
            Registers(results, id, s)
            <==> Registers(results[..n], id, s) || (id in results[n].sources && results[n].sources[id] == s)
  {
    var n := |results| - 1;
    assert forall k :: 0 <= k < n ==> results[..n][k] == results[k];
  }

  lemma {:induction false} RegistersAt(head: seq<ResearchResult>, id: string, s: Source, results: seq<ResearchResult>,
          n: nat)
    requires n < |results| && head == results[..n] && Registers(head, id, s) && SourcesAgree(results)
    requires id in results[n].sources
    ensures results[n].sources[id] == s
  {
    var k :| 0 <= k < |head| && id in head[k].sources && head[k].sources[id] == s;
    assert results[k] == head[k];
  }

  /** Registries merge exactly when no chunk id and no source id stands for two contents; the merged ones hold every
      chunk and every source of the results and nothing else. */
  lemma {:induction false} MergeIs(results: seq<ResearchResult>)
    ensures Merge(results).Done? <==> Coherent(AllChunks(results)) && SourcesAgree(results)
    ensures Merge(results).Done? ==>
              var m := Merge(results).value;
              && (forall c :: c in m.chunks <==> c in AllChunks(results))
              && (forall id, s :: Gives(m.sources, id, s) <==> Registers(results, id, s))
  {
    hide MergeChunks, MergeSources, Registers, SourcesAgree;
    if results == [] {
      NothingRegistered();
    } else {
      var n := |results| - 1;
      MergeIs(results[..n]);
      AgreePrefix(results, n);
      if Merge(results[..n]).Done? {
        var head := Merge(results[..n]).value;
        MergeChunksAre(head.chunks, results[n].chunks);
        MergeSourcesAre(results, head.sources);
        assert forall c :: c in AllChunks(results) <==> c in head.chunks + results[n].chunks;
      } else {
        assert forall c :: c in AllChunks(results[..n]) ==> c in AllChunks(results);
      }
    }
  }

  lemma {:induction false} NothingRegistered()
    ensures SourcesAgree([]) && forall id, s :: !Registers([], id, s)
  {
  }

  lemma {:induction false} AgreePrefix(results: seq<ResearchResult>, n: nat)
    requires n <= |results|
    ensures SourcesAgree(results) ==> SourcesAgree(results[..n])
  {
  }

  // ---------- Gaps ----------

  /** Which gap of which assessment a record is about. */
  lemma {:induction false} GapRecordOrigin(assessments: Named<Assessment>, k: nat) returns (a: nat, i: nat)
    requires k < |GapRecords(assessments)|
    ensures a < |assessments| && i < |assessments[a].1.gaps|
    ensures var g := GapRecords(assessments)[k];
            g.id == GapId(assessments[a].0, i + 1) && g.perspective == assessments[a].0 && g.text == assessments[a].1.gaps[i]
  {
    hide GapId;
    var n := |assessments| - 1;
    var head := GapRecords(assessments[..n]);
    if k < |head| {
      a, i := GapRecordOrigin(assessments[..n], k);
    } else {
      a, i := n, k - |head|;
    }
  }

  /** The records repeat the gap texts, one for one and in order. */
  lemma {:induction false} GapTexts(assessments: Named<Assessment>)
    ensures |GapRecords(assessments)| == |AllGaps(assessments)|
    ensures forall k :: 0 <= k < |AllGaps(assessments)| ==> GapRecords(assessments)[k].text == AllGaps(assessments)[k]
  {
    if assessments != [] {
      GapTexts(assessments[..|assessments| - 1]);
    }
  }

  // ---------- The inputs of a report ----------

  /** A reference of an assessed claim. */
  ghost predicate AssessedReference(assessments: Named<Assessment>, ref: Reference) {
    exists a, c :: 0 <= a < |assessments| && c in assessments[a].1.claims && ref in c.references
  }

  /** The joined data of a report is recomputed from the results, and every part agrees. */
  ghost predicate Recomputed(r: ReportResult, results: seq<ResearchResult>, names: Naming) {
    r.document.Some? && Merge(results).Done? &&
    var d, m := r.document.value, Merge(results).value;
    var assessments := AllAssessments(results);
    var claims := WithSynthesis(assessments, d.report.synthesisClaims);
    && Dict(d.joined.assessments) == Dict(assessments)
    && (forall c :: c in r.chunks ==> c in AllChunks(results))
    && (forall id :: id in r.sources ==> Registers(results, id, r.sources[id]))
    && (forall c, ref :: c in d.report.synthesisClaims && ref in c.references ==> AssessedReference(assessments, ref))
    && Dict(d.joined.claims) == Dict(ClaimRecords(claims))
    && AllCited(claims, m.chunks) && d.joined.evidence == Dict(EvidenceRecords(claims, m.chunks))
    && d.joined.gaps == AllGaps(assessments) && d.joined.conflicts == AllConflicts(assessments)
    && d.joined.gapRecords == GapRecords(assessments)
    && forall e :: !RecordsLack(e, d.joined.conflictRecords, Built(assessments, ClaimRecords(claims), names), Dict(ClaimRecords(claims)))
  }

  lemma {:induction false} CopiesMean(synthesis: seq<Claim>, assessments: Named<Assessment>)
    ensures ExactCopies(synthesis, ClaimGroups(assessments)) <==>
            forall c, ref :: c in synthesis && ref in c.references ==> AssessedReference(assessments, ref)
  {
    hide Cited, AssessedReference;
    forall ref ensures Cited(ClaimGroups(assessments), ref) <==> AssessedReference(assessments, ref) {
      CitedMeans(assessments, ref);
    }
    if ExactCopies(synthesis, ClaimGroups(assessments)) {
      forall c, ref | c in synthesis && ref in c.references ensures AssessedReference(assessments, ref) {
        var i :| 0 <= i < |synthesis| && synthesis[i] == c;
        var j :| 0 <= j < |c.references| && c.references[j] == ref;
        assert Cited(ClaimGroups(assessments), synthesis[i].references[j]);
      }
    }
    if forall c, ref :: c in synthesis && ref in c.references ==> AssessedReference(assessments, ref) {
      forall i, j | 0 <= i < |synthesis| && 0 <= j < |synthesis[i].references|
        ensures Cited(ClaimGroups(assessments), synthesis[i].references[j])
      {
        assert synthesis[i] in synthesis && synthesis[i].references[j] in synthesis[i].references;
      }
    }
  }

  lemma {:induction false} CitedMeans(assessments: Named<Assessment>, ref: Reference)
    ensures Cited(ClaimGroups(assessments), ref) <==> AssessedReference(assessments, ref)
  {
    var groups := ClaimGroups(assessments);
    if Cited(groups, ref) {
      var g, i, j :| 0 <= g < |groups| && 0 <= i < |groups[g].1| && 0 <= j < |groups[g].1[i].references|
                     && groups[g].1[i].references[j] == ref;
      assert groups[g].1[i] in assessments[g].1.claims && ref in groups[g].1[i].references;
    }
    if AssessedReference(assessments, ref) {
      var a, c :| 0 <= a < |assessments| && c in assessments[a].1.claims && ref in c.references;
      var i :| 0 <= i < |assessments[a].1.claims| && assessments[a].1.claims[i] == c;
      var j :| 0 <= j < |c.references| && c.references[j] == ref;
      assert groups[a].1[i].references[j] == ref;
    }
  }

  lemma {:induction false} RegistriesMean(r: ReportResult, results: seq<ResearchResult>)
    requires Merge(results).Done?
    ensures SameRegistries(r, Merge(results).value) <==>
            && (forall c :: c in r.chunks ==> c in AllChunks(results))
            && (forall id :: id in r.sources ==> Registers(results, id, r.sources[id]))
  {
    hide Merge, Registers, Lookup, AllChunks, SourcesAgree;
    MergeIs(results);
    var m := Merge(results).value;
    forall c: Chunk ensures Lookup(m.chunks, c.id) == Some(c) <==> c in AllChunks(results) { CoherentLookup(m.chunks, c); }
    forall id | id in r.sources
      ensures Registers(results, id, r.sources[id]) <==> id in m.sources && m.sources[id] == r.sources[id]
    {
      assert Gives(m.sources, id, r.sources[id]) <==> Registers(results, id, r.sources[id]);
    }
    if SameRegistries(r, m) {
      forall c | c in r.chunks ensures c in AllChunks(results) { var k :| 0 <= k < |r.chunks| && r.chunks[k] == c; }
    }
    if forall c :: c in r.chunks ==> c in AllChunks(results) {
      forall k | 0 <= k < |r.chunks| ensures Lookup(m.chunks, r.chunks[k].id) == Some(r.chunks[k]) {
        assert r.chunks[k] in r.chunks;
      }
    }
  }

  /** A report passes the recomputation exactly when its registries come from the results, its synthesis repeats
      assessed references, its registered claims, evidence, gaps and conflicts are those of the results and the
      synthesis, and no message is due for its conflict records. */
  lemma {:induction false} InputsRecomputed(r: ReportResult, results: seq<ResearchResult>, names: Naming)
    ensures InputsMatch(r, results, names) <==> Recomputed(r, results, names)
  {
    hide Merge, SameRegistries, ExactCopies, AssessedReference, Registers, AllCited, Dict, AllAssessments, AllChunks,
         ClaimRecords, EvidenceRecords, Built, RecordsSound, RecordsLack, AllGaps, AllConflicts, GapRecords,
         WithSynthesis, ClaimGroups;
    if r.document.Some? && Merge(results).Done? {
      var d := r.document.value;
      var assessments := AllAssessments(results);
      var claims := WithSynthesis(assessments, d.report.synthesisClaims);
      RegistriesMean(r, results);
      CopiesMean(d.report.synthesisClaims, assessments);
      RecordsMean(d.joined.conflictRecords, Built(assessments, ClaimRecords(claims), names), Dict(ClaimRecords(claims)));
    }
  }
}
