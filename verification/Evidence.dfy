/** Mechanical citation checks and the claim/evidence registries (rag/evidence.py). */
module Evidence {
  import opened Schema
  import opened Texts
  import opened Ids
  import Seqs

  // ---------- Assessments ----------

  /** The messages of `validate_assessment`, one constructor per message. */
  datatype ClaimFailure =
    | MissingEvidence | WrongTechnology | BadQuotation(chunkId: string) | ForeignEvidence
    | NeedsConditions | NeedsLimitations

  datatype AssessmentError =
    | ClaimError(index: nat, failure: ClaimFailure)
    | MissingFacet(facet: string) | CoreConditions | CoreMaturity
    | WrongPairs(name: string)

  /** `{c["id"]: c for c in chunks}.get(id)`: the last chunk with the id. */
  function Lookup(chunks: seq<Chunk>, id: string): (c: Option<Chunk>)
    ensures c.Some? ==> c.value in chunks && c.value.id == id
  {
    if chunks == [] then None
    else if chunks[|chunks| - 1].id == id then Some(chunks[|chunks| - 1])
    else Lookup(chunks[..|chunks| - 1], id)
  }

  lemma {:induction false} LookupKnown(chunks: seq<Chunk>, id: string)
    ensures Lookup(chunks, id).Some? <==> exists c :: c in chunks && c.id == id
  {
    if chunks != [] {
      LookupKnown(chunks[..|chunks| - 1], id);
      assert chunks == chunks[..|chunks| - 1] + [chunks[|chunks| - 1]];
    }
  }

  const MIN_QUOTE := 12

  /** The quotation, normalised, is long enough and occurs in the chunk it names. */
  predicate Quoted(ref: Reference, chunks: seq<Chunk>) {
    var chunk := Lookup(chunks, ref.chunkId);
    chunk.Some? && |Normalized(ref.quote)| >= MIN_QUOTE
    && Contains(Normalized(chunk.value.text), Normalized(ref.quote))
  }

  predicate Foreign(ref: Reference, chunks: seq<Chunk>, technology: Option<Technology>) {
    technology.Some? &&
    var chunk := Lookup(chunks, ref.chunkId);
    chunk.Some? && chunk.value.technology.Some?
    && chunk.value.technology != technology && chunk.value.technology.value != Both
  }

  /** The failures of the first `n` references, in order. */
  function RefFailures(refs: seq<Reference>, n: nat, chunks: seq<Chunk>,
          technology: Option<Technology>): seq<ClaimFailure>
    requires n <= |refs|
  {
    if n == 0 then []
    else RefFailures(refs, n - 1, chunks, technology) + RefFailure(refs[n - 1], chunks, technology)
  }

  function RefFailure(ref: Reference, chunks: seq<Chunk>, technology: Option<Technology>): seq<ClaimFailure> {
    (if Quoted(ref, chunks) then [] else [BadQuotation(ref.chunkId)])
    + (if Foreign(ref, chunks, technology) then [ForeignEvidence] else [])
  }

  /** The reference is quoted from its chunk, and the chunk is about the technology asked for. */
  predicate Sound(ref: Reference, chunks: seq<Chunk>, technology: Option<Technology>) {
    Quoted(ref, chunks) && !Foreign(ref, chunks, technology)
  }

  function KindFailures(claim: Claim, technology: Option<Technology>): seq<ClaimFailure> {
    (if claim.kind !in {Scenario, Unknown} && claim.references == [] then [MissingEvidence] else [])
    + (if technology.Some? && claim.technology != technology.value then [WrongTechnology] else [])
  }

  function TextFailures(claim: Claim): seq<ClaimFailure> {
    (if claim.kind == AuthorReportedResult && Blank(claim.conditions) then [NeedsConditions] else [])
    + (if claim.kind in {TeamInference, Scenario, Unknown} && Blank(claim.caveats) then [NeedsLimitations] else [])
  }

  function ClaimFailures(claim: Claim, chunks: seq<Chunk>, technology: Option<Technology>): seq<ClaimFailure> {
    KindFailures(claim, technology)
    + RefFailures(claim.references, |claim.references|, chunks, technology)
    + TextFailures(claim)
  }

  function AtClaim(i: nat, failures: seq<ClaimFailure>): (errors: seq<AssessmentError>)
    ensures |errors| == |failures|
  {
    seq(|failures|, k requires 0 <= k < |failures| => ClaimError(i, failures[k]))
  }

  /** The errors of the first `n` claims, in order. */
  function ClaimErrors(claims: seq<Claim>, n: nat, chunks: seq<Chunk>,
          technology: Option<Technology>): seq<AssessmentError>
    requires n <= |claims|
  {
    if n == 0 then []
    else ClaimErrors(claims, n - 1, chunks, technology)
         + AtClaim(n - 1, ClaimFailures(claims[n - 1], chunks, technology))
  }

  /** What a claim must satisfy, stated without the error list. */
  predicate Grounded(claim: Claim, chunks: seq<Chunk>, technology: Option<Technology>) {
    && (claim.references == [] ==> claim.kind in {Scenario, Unknown})
    && (technology.Some? ==> claim.technology == technology.value)
    && (forall k :: 0 <= k < |claim.references| ==>
          Sound(claim.references[k], chunks, technology))
    && (claim.kind == AuthorReportedResult ==> !Blank(claim.conditions))
    && (claim.kind in {TeamInference, Scenario, Unknown} ==> !Blank(claim.caveats))
  }

  predicate AllGrounded(claims: seq<Claim>, chunks: seq<Chunk>, technology: Option<Technology>) {
    forall k :: 0 <= k < |claims| ==> Grounded(claims[k], chunks, technology)
  }

  const CORE_FACETS := ["mechanism", "limitation", "conditions", "maturity"]

  predicate HasFacet(claims: seq<Claim>, facet: string) {
    exists k :: 0 <= k < |claims| && claims[k].facet == facet && claims[k].references != []
  }

  predicate ConditionsSourced(claim: Claim) {
    claim.facet == "conditions" ==>
      claim.kind in {SourceFact, AuthorReportedResult} && !Blank(claim.conditions)
  }

  predicate EstimatesMaturity(claim: Claim) {
    claim.facet == "maturity" && claim.kind == TeamInference && Contains(claim.text, "TRL")
  }

  predicate CoreComplete(claims: seq<Claim>) {
    && (forall f :: f in CORE_FACETS ==> HasFacet(claims, f))
    && (forall k :: 0 <= k < |claims| ==> ConditionsSourced(claims[k]))
    && (exists k :: 0 <= k < |claims| && EstimatesMaturity(claims[k]))
  }

  lemma {:induction false} RefFailureEmpty(ref: Reference, chunks: seq<Chunk>, technology: Option<Technology>)
    ensures RefFailure(ref, chunks, technology) == [] <==> Sound(ref, chunks, technology)
  {
  }

  lemma {:induction false} RefFailuresEmpty(refs: seq<Reference>, n: nat, chunks: seq<Chunk>,
          technology: Option<Technology>)
    requires n <= |refs|
    ensures RefFailures(refs, n, chunks, technology) == [] <==>
            forall k :: 0 <= k < n ==> Sound(refs[k], chunks, technology)
  {
    hide Quoted, Foreign;
    if n > 0 {
      RefFailuresEmpty(refs, n - 1, chunks, technology);
      RefFailureEmpty(refs[n - 1], chunks, technology);
    }
  }

  lemma {:induction false} ClaimFailuresEmpty(claim: Claim, chunks: seq<Chunk>, technology: Option<Technology>)
    ensures ClaimFailures(claim, chunks, technology) == [] <==> Grounded(claim, chunks, technology)
  {
    RefFailuresEmpty(claim.references, |claim.references|, chunks, technology);
  }

  lemma {:induction false} ClaimErrorsEmpty(claims: seq<Claim>, n: nat, chunks: seq<Chunk>,
          technology: Option<Technology>)
    requires n <= |claims|
    ensures ClaimErrors(claims, n, chunks, technology) == [] <==>
            forall k :: 0 <= k < n ==> Grounded(claims[k], chunks, technology)
  {
    hide Grounded, ClaimFailures;
    if n > 0 {
      ClaimErrorsEmpty(claims, n - 1, chunks, technology);
      ClaimFailuresEmpty(claims[n - 1], chunks, technology);
    }
  }

  // ---------- What each message says ----------

  /** The last of the chunks with the id. */
  ghost predicate Supplied(chunks: seq<Chunk>, id: string, c: Chunk) {
    exists k :: 0 <= k < |chunks| && chunks[k] == c && c.id == id && forall m :: k < m < |chunks| ==> chunks[m].id != id
  }

  lemma {:induction false} LookupIs(chunks: seq<Chunk>, id: string, c: Chunk)
    ensures Lookup(chunks, id) == Some(c) <==> Supplied(chunks, id, c)
  {
    if chunks != [] {
      var n := |chunks| - 1;
      LookupIs(chunks[..n], id, c);
      if chunks[n].id == id {
        if Supplied(chunks, id, c) {
          var k :| 0 <= k < |chunks| && chunks[k] == c && forall m :: k < m < |chunks| ==> chunks[m].id != id;
        }
      } else {
        SuppliedEarlier(chunks, id, c);
      }
    }
  }

  lemma {:induction false} SuppliedEarlier(chunks: seq<Chunk>, id: string, c: Chunk)
    requires chunks != [] && chunks[|chunks| - 1].id != id
    ensures Supplied(chunks, id, c) <==> Supplied(chunks[..|chunks| - 1], id, c)
  {
    var t := chunks[..|chunks| - 1];
    if Supplied(chunks, id, c) {
      var k :| 0 <= k < |chunks| && chunks[k] == c && c.id == id && forall m :: k < m < |chunks| ==> chunks[m].id != id;
      assert t[k] == c;
    }
    if Supplied(t, id, c) {
      var k :| 0 <= k < |t| && t[k] == c && c.id == id && forall m :: k < m < |t| ==> t[m].id != id;
      assert chunks[k] == c;
      forall m | k < m < |chunks| ensures chunks[m].id != id {
        if m < |t| { assert chunks[m] == t[m]; }
      }
    }
  }

  /** At least twelve characters in normal form that occur in the normal form of the chunk. */
  ghost predicate QuotedFrom(ref: Reference, c: Chunk) {
    |Normalized(ref.quote)| >= 12 && Contains(Normalized(c.text), Normalized(ref.quote))
  }

  /** When a message is due for a claim. */
  ghost predicate Fails(f: ClaimFailure, claim: Claim, chunks: seq<Chunk>, technology: Option<Technology>) {
    var refs := claim.references;
    match f
    case MissingEvidence => refs == [] && !claim.kind.Scenario? && !claim.kind.Unknown?
    case WrongTechnology => technology.Some? && claim.technology != technology.value
    case BadQuotation(id) =>
      exists j :: 0 <= j < |refs| && refs[j].chunkId == id && forall c :: Supplied(chunks, id, c) ==> !QuotedFrom(refs[j], c)
    case ForeignEvidence =>
      exists j, c :: 0 <= j < |refs| && Supplied(chunks, refs[j].chunkId, c) && OfAnother(c, technology)
    case NeedsConditions => claim.kind.AuthorReportedResult? && AllSpace(claim.conditions)
    case NeedsLimitations =>
      (claim.kind.TeamInference? || claim.kind.Scenario? || claim.kind.Unknown?) && AllSpace(claim.caveats)
  }

  ghost predicate OfAnother(c: Chunk, technology: Option<Technology>) {
    && technology.Some? && c.technology.Some?
    && c.technology.value != technology.value && c.technology.value != Both
  }

  lemma {:induction false} QuotedMeans(ref: Reference, chunks: seq<Chunk>, technology: Option<Technology>)
    ensures Quoted(ref, chunks) <==> exists c :: Supplied(chunks, ref.chunkId, c) && QuotedFrom(ref, c)
    ensures Foreign(ref, chunks, technology)
            <==> exists c :: Supplied(chunks, ref.chunkId, c) && OfAnother(c, technology)
  {
    hide Supplied, Contains, Normalized;
    var chunk := Lookup(chunks, ref.chunkId);
    if chunk.Some? { LookupIs(chunks, ref.chunkId, chunk.value); }
    forall c | Supplied(chunks, ref.chunkId, c) ensures chunk == Some(c) { LookupIs(chunks, ref.chunkId, c); }
  }

  lemma {:induction false} RefFailureIs(ref: Reference, chunks: seq<Chunk>, technology: Option<Technology>,
          f: ClaimFailure)
    ensures f in RefFailure(ref, chunks, technology) <==>
            || (f == BadQuotation(ref.chunkId) && !Quoted(ref, chunks))
            || (f == ForeignEvidence && Foreign(ref, chunks, technology))
  {
    hide Quoted, Foreign;
  }

  lemma {:induction false} RefFailuresAre(refs: seq<Reference>, n: nat, chunks: seq<Chunk>,
          technology: Option<Technology>, f: ClaimFailure)
    requires n <= |refs|
    ensures f in RefFailures(refs, n, chunks, technology)
            <==> exists j :: 0 <= j < n && f in RefFailure(refs[j], chunks, technology)
  {
    hide RefFailure;
    if n > 0 { RefFailuresAre(refs, n - 1, chunks, technology, f); }
  }

  lemma {:induction false} RefsFail(claim: Claim, chunks: seq<Chunk>, technology: Option<Technology>, f: ClaimFailure)
    requires f.BadQuotation? || f.ForeignEvidence?
    ensures f in RefFailures(claim.references, |claim.references|, chunks, technology) <==> Fails(f, claim, chunks, technology)
  {
    hide Supplied, QuotedFrom, OfAnother, Quoted, Foreign, RefFailure, RefFailures;
    var refs := claim.references;
    RefFailuresAre(refs, |refs|, chunks, technology, f);
    forall j | 0 <= j < |refs|
      ensures f in RefFailure(refs[j], chunks, technology) <==>
              || (f == BadQuotation(refs[j].chunkId)
                  && !exists c :: Supplied(chunks, refs[j].chunkId, c) && QuotedFrom(refs[j], c))
              || (f == ForeignEvidence && exists c :: Supplied(chunks, refs[j].chunkId, c) && OfAnother(c, technology))
    {
      RefFailureIs(refs[j], chunks, technology, f);
      QuotedMeans(refs[j], chunks, technology);
    }
  }

  lemma {:induction false} WordingFails(claim: Claim, chunks: seq<Chunk>, technology: Option<Technology>,
          f: ClaimFailure)
    ensures f in KindFailures(claim, technology) + TextFailures(claim)
            <==> !f.BadQuotation? && !f.ForeignEvidence? && Fails(f, claim, chunks, technology)
  {
    hide Supplied, QuotedFrom, OfAnother, AllSpace;
  }

  /** Each message is given exactly when it is due. */
  lemma {:induction false} FailuresAre(claim: Claim, chunks: seq<Chunk>, technology: Option<Technology>,
          f: ClaimFailure)
    ensures f in ClaimFailures(claim, chunks, technology) <==> Fails(f, claim, chunks, technology)
  {
    RefFailuresAre(claim.references, |claim.references|, chunks, technology, f);
    hide RefFailures, RefFailure, KindFailures, TextFailures, Fails;
    forall j | 0 <= j < |claim.references| && f in RefFailure(claim.references[j], chunks, technology)
      ensures f.BadQuotation? || f.ForeignEvidence?
    {
      RefFailureIs(claim.references[j], chunks, technology, f);
    }
    WordingFails(claim, chunks, technology, f);
    if f.BadQuotation? || f.ForeignEvidence? { RefsFail(claim, chunks, technology, f); }
  }

  lemma {:induction false} ClaimErrorsAre(claims: seq<Claim>, n: nat, chunks: seq<Chunk>,
          technology: Option<Technology>, e: AssessmentError)
    requires n <= |claims|
    ensures e in ClaimErrors(claims, n, chunks, technology)
            <==> e.ClaimError? && e.index < n && Fails(e.failure, claims[e.index], chunks, technology)
  {
    hide Fails, ClaimFailures;
    if n > 0 {
      ClaimErrorsAre(claims, n - 1, chunks, technology, e);
      var failures := ClaimFailures(claims[n - 1], chunks, technology);
      if e.ClaimError? {
        FailuresAre(claims[n - 1], chunks, technology, e.failure);
        if e.index == n - 1 && e.failure in failures {
          var k :| 0 <= k < |failures| && failures[k] == e.failure;
          assert AtClaim(n - 1, failures)[k] == e;
        }
      }
    }
  }

  /** When a message is due for a list of claims; `core` asks for the four core facets. */
  ghost predicate Warranted(e: AssessmentError, claims: seq<Claim>, chunks: seq<Chunk>, technology: Option<Technology>,
          core: bool) {
    match e
    case ClaimError(i, f) => i < |claims| && Fails(f, claims[i], chunks, technology)
    case MissingFacet(f) => core && FacetMissing(claims, f)
    case CoreConditions => core && exists k :: 0 <= k < |claims| && UnsourcedConditions(claims[k])
    case CoreMaturity => core && NoEstimate(claims)
    case WrongPairs(_) => false
  }

  ghost predicate FacetMissing(claims: seq<Claim>, f: string) {
    && f in {"mechanism", "limitation", "conditions", "maturity"}
    && forall k :: 0 <= k < |claims| && claims[k].facet == f ==> |claims[k].references| == 0
  }

  ghost predicate UnsourcedConditions(c: Claim) {
    c.facet == "conditions" && (AllSpace(c.conditions) || !(c.kind.SourceFact? || c.kind.AuthorReportedResult?))
  }

  ghost predicate NoEstimate(claims: seq<Claim>) {
    forall k, i :: 0 <= k < |claims| && claims[k].facet == "maturity" && claims[k].kind.TeamInference? ==>
                     !OccursAt(claims[k].text, "TRL", i)
  }

  /** `validate_assessment`: each message is given exactly when it is due, and none exactly when every claim is grounded
      and, where asked, the core facets are complete. */
  method ValidateAssessment(claims: seq<Claim>, chunks: seq<Chunk>, technology: Option<Technology>, core: bool)
    returns (errors: seq<AssessmentError>)
    ensures forall e :: e in errors <==> Warranted(e, claims, chunks, technology, core)
    ensures ClaimErrors(claims, |claims|, chunks, technology) <= errors
    ensures !core ==> errors == ClaimErrors(claims, |claims|, chunks, technology)
    ensures errors == [] <==> AllGrounded(claims, chunks, technology) && (core ==> CoreComplete(claims))
  {
    hide Grounded, CoreComplete, Fails, FacetMissing, UnsourcedConditions, NoEstimate;
    errors := [];
    for i := 0 to |claims|
      invariant errors == ClaimErrors(claims, i, chunks, technology)
    {
      var failures := ClaimLoop(claims[i], chunks, technology);
      errors := errors + AtClaim(i, failures);
    }
    ClaimErrorsEmpty(claims, |claims|, chunks, technology);
    forall e ensures e in errors <==> Warranted(e, claims, chunks, technology, false) {
      ClaimErrorsAre(claims, |claims|, chunks, technology, e);
    }
    if core {
      var more := CoreErrors(claims);
      errors := errors + more;
    }
  }

  /** The checks of one claim, in the order they are reported. */
  method ClaimLoop(claim: Claim, chunks: seq<Chunk>, technology: Option<Technology>)
    returns (failures: seq<ClaimFailure>)
    ensures failures == ClaimFailures(claim, chunks, technology)
  {
    hide RefFailure, Blank;
    failures := [];
    if claim.kind !in {Scenario, Unknown} && claim.references == [] {
      failures := failures + [MissingEvidence];
    }
    if technology.Some? && claim.technology != technology.value {
      failures := failures + [WrongTechnology];
    }
    assert failures == KindFailures(claim, technology);
    for j := 0 to |claim.references|
      invariant failures == KindFailures(claim, technology) + RefFailures(claim.references, j, chunks, technology)
    {
      failures := failures + RefFailure(claim.references[j], chunks, technology);
    }
    var last := TextChecks(claim);
    failures := failures + last;
  }

  method TextChecks(claim: Claim) returns (failures: seq<ClaimFailure>)
    ensures failures == TextFailures(claim)
  {
    failures := [];
    if claim.kind == AuthorReportedResult && Blank(claim.conditions) {
      failures := failures + [NeedsConditions];
    }
    if claim.kind in {TeamInference, Scenario, Unknown} && Blank(claim.caveats) {
      failures := failures + [NeedsLimitations];
    }
  }

  method CoreErrors(claims: seq<Claim>) returns (errors: seq<AssessmentError>)
    ensures errors == [] <==> CoreComplete(claims)
    ensures forall e :: e in errors <==> !e.ClaimError? && Warranted(e, claims, [], None, true)
  {
    hide FacetMissing, UnsourcedConditions, NoEstimate, HasFacet, EstimatesMaturity;
    errors := [];
    for i := 0 to |CORE_FACETS|
      invariant errors == [] <==> forall k :: 0 <= k < i ==> HasFacet(claims, CORE_FACETS[k])
      invariant forall e :: e in errors <==> e.MissingFacet? && e.facet in CORE_FACETS[..i] && FacetMissing(claims, e.facet)
    {
      FacetMeans(claims, CORE_FACETS[i]);
      if !HasFacet(claims, CORE_FACETS[i]) {
        errors := errors + [MissingFacet(CORE_FACETS[i])];
      }
    }
    AllCoreFacets(claims);
    ghost var facets := errors == [];
    for i := 0 to |claims|
      invariant errors == [] <==> facets && forall k :: 0 <= k < i ==> ConditionsSourced(claims[k])
      invariant forall e :: e in errors <==>
                  || (e.MissingFacet? && FacetMissing(claims, e.facet))
                  || (e.CoreConditions? && exists k :: 0 <= k < i && UnsourcedConditions(claims[k]))
    {
      ConditionsMean(claims[i]);
      if !ConditionsSourced(claims[i]) {
        errors := errors + [CoreConditions];
      }
    }
    EstimateMeans(claims);
    if !exists k :: 0 <= k < |claims| && EstimatesMaturity(claims[k]) {
      errors := errors + [CoreMaturity];
    }
  }

  lemma {:induction false} FacetMeans(claims: seq<Claim>, f: string)
    requires f in CORE_FACETS
    ensures FacetMissing(claims, f) <==> !HasFacet(claims, f)
  {
  }

  lemma {:induction false} AllCoreFacets(claims: seq<Claim>)
    ensures CORE_FACETS[..|CORE_FACETS|] == CORE_FACETS
    ensures forall f :: FacetMissing(claims, f) ==> f in CORE_FACETS
  {
    assert CORE_FACETS[0] == "mechanism" && CORE_FACETS[1] == "limitation" && CORE_FACETS[2] == "conditions"
           && CORE_FACETS[3] == "maturity";
  }

  lemma {:induction false} ConditionsMean(c: Claim)
    ensures UnsourcedConditions(c) <==> !ConditionsSourced(c)
  {
  }

  lemma {:induction false} EstimateMeans(claims: seq<Claim>)
    ensures NoEstimate(claims) <==> !exists k :: 0 <= k < |claims| && EstimatesMaturity(claims[k])
  {
    if !NoEstimate(claims) {
      var k, i :| 0 <= k < |claims| && claims[k].facet == "maturity" && claims[k].kind.TeamInference?
                  && OccursAt(claims[k].text, "TRL", i);
      assert EstimatesMaturity(claims[k]);
    }
  }

  function PerspectiveFacets(name: string): seq<string> {
    if name == "market" then ["adoption", "alternatives", "costs"]
    else if name == "stakeholder" then ["user", "operator", "governance"]
    else if name == "domain" then ["fit", "risks", "evaluation"]
    else []
  }

  function Pairs(claims: seq<Claim>): seq<(Technology, string)> {
    seq(|claims|, k requires 0 <= k < |claims| => (claims[k].technology, claims[k].facet))
  }

  predicate Balanced(claims: seq<Claim>, name: string) {
    |claims| == 6 && ToSet(Pairs(claims)) ==
      (set t, f | t in {Kivi, InfiniGen} && f in PerspectiveFacets(name) :: (t, f))
  }

  ghost predicate Asks(name: string, facet: string) {
    || (name == "market" && facet in {"adoption", "alternatives", "costs"})
    || (name == "stakeholder" && facet in {"user", "operator", "governance"})
    || (name == "domain" && facet in {"fit", "risks", "evaluation"})
  }

  /** Some claim is about this technology and facet. */
  ghost predicate Covered(claims: seq<Claim>, technology: Technology, facet: string) {
    exists k :: 0 <= k < |claims| && claims[k].technology == technology && claims[k].facet == facet
  }

  lemma {:induction false} CoveredIsPair(claims: seq<Claim>, technology: Technology, facet: string)
    ensures Covered(claims, technology, facet) <==> (technology, facet) in ToSet(Pairs(claims))
  {
    if Covered(claims, technology, facet) {
      var k :| 0 <= k < |claims| && claims[k].technology == technology && claims[k].facet == facet;
      assert Pairs(claims)[k] == (technology, facet);
    }
  }

  /** A view is balanced exactly when its six claims cover, for either technology, the three facets it is asked about
      and nothing else. */
  lemma {:induction false} BalancedMeans(claims: seq<Claim>, name: string)
    requires name in ["market", "stakeholder", "domain"]
    ensures Balanced(claims, name) <==>
            && |claims| == 6
            && forall t, f :: Covered(claims, t, f) <==> (t == Kivi || t == InfiniGen) && Asks(name, f)
  {
    var wanted := set t, f | t in {Kivi, InfiniGen} && f in PerspectiveFacets(name) :: (t, f);
    forall f ensures f in PerspectiveFacets(name) <==> Asks(name, f) {}
    hide Covered, Asks, Pairs, PerspectiveFacets;
    forall t, f ensures Covered(claims, t, f) <==> (t, f) in ToSet(Pairs(claims)) { CoveredIsPair(claims, t, f); }
    if forall t, f :: Covered(claims, t, f) <==> (t == Kivi || t == InfiniGen) && Asks(name, f) {
      forall pair ensures pair in ToSet(Pairs(claims)) <==> pair in wanted {
        assert pair == (pair.0, pair.1);
      }
    }
  }

  /** Six claims that cover the three facets of both technologies cover each pair once. */
  lemma {:induction false} BalancedIsExact(claims: seq<Claim>, name: string)
    requires name in ["market", "stakeholder", "domain"] && Balanced(claims, name)
    ensures Distinct(Pairs(claims))
  {
    var f := PerspectiveFacets(name);
    assert ToSet(Pairs(claims)) == {(Kivi, f[0]), (Kivi, f[1]), (Kivi, f[2]),
                                    (InfiniGen, f[0]), (InfiniGen, f[1]), (InfiniGen, f[2])};
    assert |ToSet(Pairs(claims))| == 6;
    CardAtMostLength(Pairs(claims));
  }

  // ---------- Registries ----------

  datatype ClaimRecord = ClaimRecord(id: string, perspective: string, claim: Claim, evidenceIds: seq<string>)

  datatype EvidenceRecord = EvidenceRecord(
    id: string, ref: Reference, sourceId: string, page: Option<int>, section: Option<string>,
    conditions: string, limitations: string)

  function EvidenceIds(claimId: string, n: nat): (ids: seq<string>)
    ensures |ids| == n
  {
    seq(n, j requires 0 <= j < n => EvidenceId(claimId, j + 1))
  }

  function RecordOf(perspective: string, i: nat, claim: Claim): ClaimRecord {
    var id := ClaimId(perspective, i + 1);
    ClaimRecord(id, perspective, claim, EvidenceIds(id, |claim.references|))
  }

  /** The entries of one perspective, numbered from one. */
  function RecordsOf(perspective: string, claims: seq<Claim>): (rs: Named<ClaimRecord>)
    ensures |rs| == |claims|
  {
    seq(|claims|, i requires 0 <= i < |claims| =>
      (ClaimId(perspective, i + 1), RecordOf(perspective, i, claims[i])))
  }

  /** The claim registry of `collect_evidence`, in insertion order. */
  function ClaimRecords(groups: Named<seq<Claim>>): Named<ClaimRecord> {
    if groups == [] then []
    else
      var n := |groups| - 1;
      ClaimRecords(groups[..n]) + RecordsOf(groups[n].0, groups[n].1)
  }

  function EvidenceOf(claimId: string, claim: Claim, j: nat, chunk: Chunk): EvidenceRecord
    requires j < |claim.references|
  {
    EvidenceRecord(EvidenceId(claimId, j + 1), claim.references[j], chunk.sourceId, chunk.page, chunk.section,
                   claim.conditions, claim.caveats)
  }

  predicate Cites(claim: Claim, chunks: seq<Chunk>) {
    forall j :: 0 <= j < |claim.references| ==> Lookup(chunks, claim.references[j].chunkId).Some?
  }

  predicate GroupCited(claims: seq<Claim>, chunks: seq<Chunk>) {
    forall i :: 0 <= i < |claims| ==> Cites(claims[i], chunks)
  }

  predicate AllCited(groups: Named<seq<Claim>>, chunks: seq<Chunk>) {
    forall g :: 0 <= g < |groups| ==> GroupCited(groups[g].1, chunks)
  }

  function EvidenceOfClaim(claimId: string, claim: Claim, chunks: seq<Chunk>): (es: Named<EvidenceRecord>)
    requires Cites(claim, chunks)
    ensures |es| == |claim.references|
  {
    seq(|claim.references|, j requires 0 <= j < |claim.references| =>
      (EvidenceId(claimId, j + 1),
       EvidenceOf(claimId, claim, j, Lookup(chunks, claim.references[j].chunkId).value)))
  }

  function EvidenceOfGroup(perspective: string, claims: seq<Claim>, chunks: seq<Chunk>): Named<EvidenceRecord>
    requires GroupCited(claims, chunks)
  {
    if claims == [] then []
    else
      var n := |claims| - 1;
      EvidenceOfGroup(perspective, claims[..n], chunks)
      + EvidenceOfClaim(ClaimId(perspective, n + 1), claims[n], chunks)
  }

  function EvidenceRecords(groups: Named<seq<Claim>>, chunks: seq<Chunk>): Named<EvidenceRecord>
    requires AllCited(groups, chunks)
  {
    if groups == [] then []
    else
      var n := |groups| - 1;
      EvidenceRecords(groups[..n], chunks) + EvidenceOfGroup(groups[n].0, groups[n].1, chunks)
  }

  // ---------- Ids never collide ----------

  /** The record repeats the claim, and names its perspective and the evidence of its references in their order. */
  ghost predicate Records(r: ClaimRecord, perspective: string, i: nat, claim: Claim) {
    && r.id == ClaimId(perspective, i + 1) && r.perspective == perspective && r.claim == claim
    && |r.evidenceIds| == |claim.references|
    && forall j :: 0 <= j < |r.evidenceIds| ==> r.evidenceIds[j] == EvidenceId(r.id, j + 1)
  }

  /** The record repeats a reference of the claim with the conditions and limitations of the claim and the place of the
      chunk it names. */
  ghost predicate Locates(e: EvidenceRecord, claim: Claim, j: nat, chunks: seq<Chunk>)
    requires j < |claim.references|
  {
    && e.ref == claim.references[j] && e.conditions == claim.conditions && e.limitations == claim.caveats
    && exists c :: Supplied(chunks, e.ref.chunkId, c) && e.sourceId == c.sourceId && e.page == c.page
                   && e.section == c.section
  }

  lemma {:induction false} EvidenceLocates(claimId: string, claim: Claim, j: nat, chunks: seq<Chunk>)
    requires j < |claim.references| && Cites(claim, chunks)
    ensures var e := EvidenceOfClaim(claimId, claim, chunks)[j];
            e.0 == e.1.id == EvidenceId(claimId, j + 1) && Locates(e.1, claim, j, chunks)
  {
    hide Supplied, EvidenceId;
    var c := Lookup(chunks, claim.references[j].chunkId).value;
    LookupIs(chunks, claim.references[j].chunkId, c);
  }

  /** Which claim an entry was made for. */
  lemma {:induction false} RecordOrigin(groups: Named<seq<Claim>>, k: nat) returns (g: nat, i: nat)
    requires k < |ClaimRecords(groups)|
    ensures g < |groups| && i < |groups[g].1|
    ensures ClaimRecords(groups)[k] == (ClaimId(groups[g].0, i + 1), RecordOf(groups[g].0, i, groups[g].1[i]))
    ensures Records(ClaimRecords(groups)[k].1, groups[g].0, i, groups[g].1[i])
  {
    var n := |groups| - 1;
    var head := ClaimRecords(groups[..n]);
    if k < |head| {
      g, i := RecordOrigin(groups[..n], k);
    } else {
      g, i := n, k - |head|;
    }
  }

  /** One record per claim: claims of differently named perspectives never share an id. */
  lemma {:induction false} ClaimIdsDistinct(groups: Named<seq<Claim>>)
    requires Distinct(Keys(groups))
    ensures Distinct(Keys(ClaimRecords(groups)))
  {
    hide RecordOf, ClaimId;
    if groups != [] {
      var n := |groups| - 1;
      assert Keys(groups[..n]) == Keys(groups)[..n];
      ClaimIdsDistinct(groups[..n]);
      var head, tail := ClaimRecords(groups[..n]), RecordsOf(groups[n].0, groups[n].1);
      forall k, l | 0 <= k < |head| && 0 <= l < |tail| ensures head[k].0 != tail[l].0 {
        var g, i := RecordOrigin(groups[..n], k);
        assert Keys(groups)[g] != Keys(groups)[n];
        if head[k].0 == tail[l].0 {
          ClaimIdInjective(groups[g].0, i + 1, groups[n].0, l + 1);
        }
      }
      GroupIdsDistinct(groups[n].0, groups[n].1);
      KeysConcat(head, tail);
    }
  }

  lemma {:induction false} GroupIdsDistinct(p: string, claims: seq<Claim>)
    ensures Distinct(Keys(RecordsOf(p, claims)))
  {
    hide RecordOf, ClaimId;
    var rs := RecordsOf(p, claims);
    forall k, l | 0 <= k < l < |rs| ensures Keys(rs)[k] != Keys(rs)[l] {
      if rs[k].0 == rs[l].0 {
        ClaimIdInjective(p, k + 1, p, l + 1);
      }
    }
  }

  lemma {:induction false} GroupEvidenceOrigin(p: string, claims: seq<Claim>, chunks: seq<Chunk>, k: nat)
    returns (i: nat, j: nat)
    requires GroupCited(claims, chunks) && k < |EvidenceOfGroup(p, claims, chunks)|
    ensures i < |claims| && j < |claims[i].references|
    ensures EvidenceOfGroup(p, claims, chunks)[k].0 == EvidenceId(ClaimId(p, i + 1), j + 1)
    ensures EvidenceOfGroup(p, claims, chunks)[k].1.id == EvidenceOfGroup(p, claims, chunks)[k].0
    ensures Locates(EvidenceOfGroup(p, claims, chunks)[k].1, claims[i], j, chunks)
  {
    hide EvidenceId, ClaimId, Locates, EvidenceOfClaim;
    var n := |claims| - 1;
    var head := EvidenceOfGroup(p, claims[..n], chunks);
    if k < |head| {
      i, j := GroupEvidenceOrigin(p, claims[..n], chunks, k);
    } else {
      i, j := n, k - |head|;
      EvidenceLocates(ClaimId(p, n + 1), claims[n], j, chunks);
    }
  }

  lemma {:induction false} EvidenceOrigin(groups: Named<seq<Claim>>, chunks: seq<Chunk>, k: nat)
    returns (g: nat, i: nat, j: nat)
    requires AllCited(groups, chunks) && k < |EvidenceRecords(groups, chunks)|
    ensures g < |groups| && i < |groups[g].1| && j < |groups[g].1[i].references|
    ensures EvidenceRecords(groups, chunks)[k].0 == EvidenceId(ClaimId(groups[g].0, i + 1), j + 1)
    ensures EvidenceRecords(groups, chunks)[k].1.id == EvidenceRecords(groups, chunks)[k].0
    ensures Locates(EvidenceRecords(groups, chunks)[k].1, groups[g].1[i], j, chunks)
  {
    hide EvidenceId, ClaimId, Locates;
    var n := |groups| - 1;
    var head := EvidenceRecords(groups[..n], chunks);
    if k < |head| {
      g, i, j := EvidenceOrigin(groups[..n], chunks, k);
    } else {
      g := n;
      i, j := GroupEvidenceOrigin(groups[n].0, groups[n].1, chunks, k - |head|);
    }
  }

  lemma {:induction false} RecordSays(perspective: string, i: nat, claim: Claim)
    ensures Records(RecordOf(perspective, i, claim), perspective, i, claim)
  {
  }

  /** Every claim has its record, after the records of the groups before its own. */
  lemma {:induction false} RecordAt(groups: Named<seq<Claim>>, g: nat, i: nat) returns (k: nat)
    requires g < |groups| && i < |groups[g].1|
    ensures k == |ClaimRecords(groups[..g])| + i < |ClaimRecords(groups)|
    ensures Records(ClaimRecords(groups)[k].1, groups[g].0, i, groups[g].1[i])
    ensures ClaimRecords(groups)[k] == (ClaimId(groups[g].0, i + 1), RecordOf(groups[g].0, i, groups[g].1[i]))
  {
    hide ClaimId, RecordOf, Records;
    var n := |groups| - 1;
    var head := ClaimRecords(groups[..n]);
    if g < n {
      k := RecordAt(groups[..n], g, i);
      assert groups[..n][..g] == groups[..g];
    } else {
      k := |head| + i;
      RecordSays(groups[g].0, i, groups[g].1[i]);
    }
  }

  lemma {:induction false} GroupEvidenceRecorded(p: string, claims: seq<Claim>, chunks: seq<Chunk>, i: nat, j: nat)
    returns (k: nat)
    requires GroupCited(claims, chunks) && i < |claims| && j < |claims[i].references|
    ensures k < |EvidenceOfGroup(p, claims, chunks)|
    ensures EvidenceOfGroup(p, claims, chunks)[k].0 == EvidenceId(ClaimId(p, i + 1), j + 1)
    ensures Locates(EvidenceOfGroup(p, claims, chunks)[k].1, claims[i], j, chunks)
  {
    hide EvidenceId, ClaimId, Locates, EvidenceOfClaim;
    var n := |claims| - 1;
    if i < n {
      k := GroupEvidenceRecorded(p, claims[..n], chunks, i, j);
    } else {
      k := |EvidenceOfGroup(p, claims[..n], chunks)| + j;
      EvidenceLocates(ClaimId(p, n + 1), claims[n], j, chunks);
    }
  }

  /** Every reference has its record. */
  lemma {:induction false} EvidenceRecorded(groups: Named<seq<Claim>>, chunks: seq<Chunk>, g: nat, i: nat, j: nat)
    returns (k: nat)
    requires AllCited(groups, chunks) && g < |groups| && i < |groups[g].1| && j < |groups[g].1[i].references|
    ensures k < |EvidenceRecords(groups, chunks)|
    ensures EvidenceRecords(groups, chunks)[k].0 == EvidenceId(ClaimId(groups[g].0, i + 1), j + 1)
    ensures Locates(EvidenceRecords(groups, chunks)[k].1, groups[g].1[i], j, chunks)
  {
    hide EvidenceId, ClaimId, Locates;
    var n := |groups| - 1;
    if g < n {
      k := EvidenceRecorded(groups[..n], chunks, g, i, j);
    } else {
      var head := EvidenceRecords(groups[..n], chunks);
      var m := GroupEvidenceRecorded(groups[n].0, groups[n].1, chunks, i, j);
      k := |head| + m;
    }
  }

  /** Distinct keys on both sides and across them. */
  lemma {:induction false} KeysConcat<T>(a: Named<T>, b: Named<T>)
    requires Distinct(Keys(a)) && Distinct(Keys(b))
    requires forall k, l :: 0 <= k < |a| && 0 <= l < |b| ==> a[k].0 != b[l].0
    ensures Distinct(Keys(a + b))
  {
    assert Keys(a + b) == Keys(a) + Keys(b);
  }

  lemma {:induction false} GroupEvidenceDistinct(p: string, claims: seq<Claim>, chunks: seq<Chunk>)
    requires GroupCited(claims, chunks)
    ensures Distinct(Keys(EvidenceOfGroup(p, claims, chunks)))
  {
    hide Cites, EvidenceOf, ClaimId, EvidenceId, Lookup, Locates;
    if claims != [] {
      var n := |claims| - 1;
      GroupEvidenceDistinct(p, claims[..n], chunks);
      var head := EvidenceOfGroup(p, claims[..n], chunks);
      var tail := EvidenceOfClaim(ClaimId(p, n + 1), claims[n], chunks);
      forall k, l | 0 <= k < |head| && 0 <= l < |tail| ensures head[k].0 != tail[l].0 {
        var i, j := GroupEvidenceOrigin(p, claims[..n], chunks, k);
        if head[k].0 == tail[l].0 {
          EvidenceIdInjective(p, i + 1, j + 1, p, n + 1, l + 1);
        }
      }
      forall k, l | 0 <= k < l < |tail| ensures Keys(tail)[k] != Keys(tail)[l] {
        if tail[k].0 == tail[l].0 {
          EvidenceIdInjective(p, n + 1, k + 1, p, n + 1, l + 1);
        }
      }
      KeysConcat(head, tail);
    }
  }

  /** One evidence record per reference: evidence ids never collide. */
  lemma {:induction false} EvidenceIdsDistinct(groups: Named<seq<Claim>>, chunks: seq<Chunk>)
    requires Distinct(Keys(groups)) && AllCited(groups, chunks)
    ensures Distinct(Keys(EvidenceRecords(groups, chunks)))
  {
    hide EvidenceId, ClaimId, Locates, Cites, EvidenceOfGroup;
    if groups != [] {
      var n := |groups| - 1;
      assert Keys(groups[..n]) == Keys(groups)[..n];
      EvidenceIdsDistinct(groups[..n], chunks);
      GroupEvidenceDistinct(groups[n].0, groups[n].1, chunks);
      var head, tail := EvidenceRecords(groups[..n], chunks), EvidenceOfGroup(groups[n].0, groups[n].1, chunks);
      forall k, l | 0 <= k < |head| && 0 <= l < |tail| ensures head[k].0 != tail[l].0 {
        var g, i, j := EvidenceOrigin(groups[..n], chunks, k);
        var i', j' := GroupEvidenceOrigin(groups[n].0, groups[n].1, chunks, l);
        assert Keys(groups)[g] != Keys(groups)[n];
        if head[k].0 == tail[l].0 {
          EvidenceIdInjective(groups[g].0, i + 1, j + 1, groups[n].0, i' + 1, j' + 1);
        }
      }
      KeysConcat(head, tail);
    }
  }

  /** Collecting more perspectives afterwards only appends entries. */
  lemma {:induction false} ClaimsAppend(a: Named<seq<Claim>>, b: Named<seq<Claim>>)
    ensures ClaimRecords(a + b) == ClaimRecords(a) + ClaimRecords(b)
    decreases |b|
  {
    hide RecordsOf;
    if b == [] {
      assert a + b == a;
    } else {
      var n := |b| - 1;
      ClaimsAppend(a, b[..n]);
      ClaimsSnoc(a + b[..n], b[n]);
      ClaimsSnoc(b[..n], b[n]);
      hide ClaimRecords;
      assert (a + b[..n]) + [b[n]] == a + b && b[..n] + [b[n]] == b;
      Seqs.Assoc(ClaimRecords(a), ClaimRecords(b[..n]), RecordsOf(b[n].0, b[n].1));
    }
  }

  lemma {:induction false} ClaimsSnoc(groups: Named<seq<Claim>>, g: (string, seq<Claim>))
    ensures ClaimRecords(groups + [g]) == ClaimRecords(groups) + RecordsOf(g.0, g.1)
  {
    hide RecordsOf;
    assert (groups + [g])[..|groups|] == groups;
  }

  lemma {:induction false} EvidenceAppend(a: Named<seq<Claim>>, b: Named<seq<Claim>>, chunks: seq<Chunk>)
    requires AllCited(a, chunks) && AllCited(b, chunks)
    ensures AllCited(a + b, chunks)
    ensures EvidenceRecords(a + b, chunks) == EvidenceRecords(a, chunks) + EvidenceRecords(b, chunks)
    decreases |b|
  {
    hide GroupCited, EvidenceOfGroup;
    if b == [] {
      assert a + b == a;
    } else {
      var n := |b| - 1;
      EvidenceAppend(a, b[..n], chunks);
      assert (a + b)[..|a + b| - 1] == a + b[..n];
      Seqs.Assoc(EvidenceRecords(a, chunks), EvidenceRecords(b[..n], chunks),
                 EvidenceOfGroup(b[n].0, b[n].1, chunks));
    }
  }

  // ---------- The collecting loops ----------

  /** `collect_evidence`: a reference to a chunk that is not supplied is a `KeyError`. */
  method CollectEvidence(groups: Named<seq<Claim>>, chunks: seq<Chunk>)
    returns (r: Outcome<(map<string, ClaimRecord>, map<string, EvidenceRecord>)>)
    ensures r.Done? <==> AllCited(groups, chunks)
    ensures r.Done? ==> r.value == (Dict(ClaimRecords(groups)), Dict(EvidenceRecords(groups, chunks)))
    ensures r.Raised? ==> r.code == InvalidResponse
  {
    hide GroupCited, EvidenceOfGroup, RecordsOf;
    var claims: map<string, ClaimRecord>, evidence: map<string, EvidenceRecord> := map[], map[];
    for g := 0 to |groups|
      invariant AllCited(groups[..g], chunks)
      invariant claims == Dict(ClaimRecords(groups[..g]))
      invariant evidence == Dict(EvidenceRecords(groups[..g], chunks))
    {
      var more := CollectGroup(groups[g].0, groups[g].1, chunks);
      if more.Raised? {
        return Raised(InvalidResponse);
      }
      assert groups[..g + 1][..g] == groups[..g];
      DictConcat(ClaimRecords(groups[..g]), RecordsOf(groups[g].0, groups[g].1));
      DictConcat(EvidenceRecords(groups[..g], chunks), EvidenceOfGroup(groups[g].0, groups[g].1, chunks));
      claims, evidence := claims + more.value.0, evidence + more.value.1;
    }
    assert groups[..|groups|] == groups;
    return Done((claims, evidence));
  }

  method CollectGroup(perspective: string, items: seq<Claim>, chunks: seq<Chunk>)
    returns (r: Outcome<(map<string, ClaimRecord>, map<string, EvidenceRecord>)>)
    ensures r.Done? <==> GroupCited(items, chunks)
    ensures r.Done? ==> r.value == (Dict(RecordsOf(perspective, items)), Dict(EvidenceOfGroup(perspective, items, chunks)))
  {
    hide *;
    var claims: map<string, ClaimRecord>, evidence: map<string, EvidenceRecord> := map[], map[];
    assert GroupCited(items[..0], chunks) && map[] == Dict(RecordsOf(perspective, items[..0]))
           && map[] == Dict(EvidenceOfGroup(perspective, items[..0], chunks)) by {
      GroupStart(perspective, items, chunks);
    }
    for i := 0 to |items|
      invariant GroupCited(items[..i], chunks)
      invariant claims == Dict(RecordsOf(perspective, items[..i]))
      invariant evidence == Dict(EvidenceOfGroup(perspective, items[..i], chunks))
    {
      var id := ClaimId(perspective, i + 1);
      var more := CollectReferences(id, items[i], chunks);
      if more.Raised? {
        NotCited(items, i, chunks);
        return Raised(InvalidResponse);
      }
      GroupStep(perspective, items, i, chunks);
      var made := ClaimRecord(id, perspective, items[i], more.value.0);
      claims, evidence := claims[id := made], evidence + more.value.1;
    }
    assert items[..|items|] == items;
    return Done((claims, evidence));
  }

  lemma {:induction false} GroupStart(p: string, items: seq<Claim>, chunks: seq<Chunk>)
    ensures GroupCited(items[..0], chunks)
    ensures Dict(RecordsOf(p, items[..0])) == map[] && Dict(EvidenceOfGroup(p, items[..0], chunks)) == map[]
  {
  }

  lemma {:induction false} NotCited(items: seq<Claim>, i: nat, chunks: seq<Chunk>)
    requires i < |items| && !Cites(items[i], chunks)
    ensures !GroupCited(items, chunks)
  {
  }

  lemma {:induction false} GroupStep(p: string, items: seq<Claim>, i: nat, chunks: seq<Chunk>)
    requires i < |items| && GroupCited(items[..i], chunks) && Cites(items[i], chunks)
    ensures GroupCited(items[..i + 1], chunks)
    ensures var id := ClaimId(p, i + 1);
            && Dict(RecordsOf(p, items[..i + 1])) == Dict(RecordsOf(p, items[..i]))[
                 id := ClaimRecord(id, p, items[i], EvidenceIds(id, |items[i].references|))]
            && Dict(EvidenceOfGroup(p, items[..i + 1], chunks)) ==
                 Dict(EvidenceOfGroup(p, items[..i], chunks)) + Dict(EvidenceOfClaim(id, items[i], chunks))
  {
    hide Cites, EvidenceOfClaim, ClaimId, EvidenceIds;
    var id := ClaimId(p, i + 1);
    assert items[..i + 1][..i] == items[..i];
    DictConcat(EvidenceOfGroup(p, items[..i], chunks), EvidenceOfClaim(id, items[i], chunks));
    var entry := (id, RecordOf(p, i, items[i]));
    assert RecordsOf(p, items[..i + 1]) == RecordsOf(p, items[..i]) + [entry];
    DictConcat(RecordsOf(p, items[..i]), [entry]);
  }

  method CollectReferences(id: string, claim: Claim, chunks: seq<Chunk>)
    returns (r: Outcome<(seq<string>, map<string, EvidenceRecord>)>)
    ensures r.Done? <==> Cites(claim, chunks)
    ensures r.Done? ==> r.value == (EvidenceIds(id, |claim.references|), Dict(EvidenceOfClaim(id, claim, chunks)))
  {
    hide Lookup, EvidenceId;
    var ids: seq<string>, made: Named<EvidenceRecord> := [], [];
    var evidence: map<string, EvidenceRecord> := map[];
    for j := 0 to |claim.references|
      invariant ids == EvidenceIds(id, j)
      invariant |made| == j && evidence == Dict(made)
      invariant forall k :: 0 <= k < j ==>
        var chunk := Lookup(chunks, claim.references[k].chunkId);
        chunk.Some? && made[k] == (EvidenceId(id, k + 1), EvidenceOf(id, claim, k, chunk.value))
    {
      var chunk := Lookup(chunks, claim.references[j].chunkId);
      if chunk.None? {
        return Raised(InvalidResponse);
      }
      var evidenceId := EvidenceId(id, j + 1);
      var record := EvidenceOf(id, claim, j, chunk.value);
      DictConcat(made, [(evidenceId, record)]);
      made := made + [(evidenceId, record)];
      evidence := evidence[evidenceId := record];
      ids := ids + [evidenceId];
    }
    assert Cites(claim, chunks) ==> made == EvidenceOfClaim(id, claim, chunks);
    return Done((ids, evidence));
  }
}
