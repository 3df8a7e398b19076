/** The report writer: merging research results, deciding gaps and assembling the report (rag/writer.py). */
module Writer {
  import opened Schema
  import opened Orders
  import opened Texts
  import opened Ids
  import opened Evidence
  import opened Reports
  import opened Conflicts
  import opened Contracts
  import Render

  // ---------- Names of assessments ----------

  /** What the contract of a write request guarantees of its results, listed by view. */
  predicate WriteInputs(order: seq<Role>, results: seq<ResearchResult>) {
    && |results| == |order| && Distinct(order) && ToSet(order) == ToSet(VIEWS)
    && forall k :: 0 <= k < |order| ==> results[k].view == order[k] && ConsistentResearch(results[k]) && results[k].status.Ok?
  }

  predicate NamedFor(order: seq<Role>, name: string) {
    exists k :: 0 <= k < |order| && name in AssessmentNames(order[k])
  }

  lemma {:induction false} ViewNamesApart(v: Role, w: Role, name: string)
    requires IsView(v) && IsView(w) && name in AssessmentNames(v) && name in AssessmentNames(w)
    ensures v == w && name != "synthesis"
  {
    assert "research_kivi"[0] == 'r' && "research_infinigen"[0] == 'r' && "market"[0] == 'm' && "domain"[0] == 'd'
        && "stakeholder"[0] == 's' && "stakeholder"[1] == 't' && "synthesis"[0] == 's' && "synthesis"[1] == 'y';
  }

  lemma {:induction false} OwnNames(r: ResearchResult)
    requires ConsistentResearch(r) && r.status.Ok?
    ensures Distinct(Keys(r.assessments)) && ToSet(Keys(r.assessments)) == ToSet(AssessmentNames(r.view))
  {
    hide RegistrySound, Assessed, Explained;
  }

  lemma {:induction false} NamesDistinct(order: seq<Role>, results: seq<ResearchResult>)
    requires |results| == |order| && Distinct(order)
    requires forall k :: 0 <= k < |order| ==>
               IsView(order[k]) && results[k].view == order[k] && ConsistentResearch(results[k]) && results[k].status.Ok?
    ensures Distinct(Keys(AllAssessments(results)))
    ensures forall k :: 0 <= k < |AllAssessments(results)| ==> NamedFor(order, AllAssessments(results)[k].0)
  {
    hide ConsistentResearch, AssessmentNames;
    if results != [] {
      var n := |results| - 1;
      var head, tail := AllAssessments(results[..n]), results[n].assessments;
      NamesDistinct(order[..n], results[..n]);
      OwnNames(results[n]);
      TailNames(tail, order[n]);
      forall k | 0 <= k < |head| ensures NamedFor(order, head[k].0) && head[k].0 !in AssessmentNames(order[n]) {
        HeadName(order, n, head[k].0);
      }
      forall k | 0 <= k < |tail| ensures NamedFor(order, tail[k].0) {
        assert tail[k].0 in AssessmentNames(order[n]);
      }
      hide NamedFor, Distinct;
      KeysConcat(head, tail);
    }
  }

  lemma {:induction false} TailNames(tail: Named<Assessment>, view: Role)
    requires ToSet(Keys(tail)) == ToSet(AssessmentNames(view))
    ensures forall k :: 0 <= k < |tail| ==> tail[k].0 in AssessmentNames(view)
  {
    hide AssessmentNames;
    forall k | 0 <= k < |tail| ensures tail[k].0 in AssessmentNames(view) {
      assert Keys(tail)[k] in ToSet(Keys(tail));
    }
  }

  lemma {:induction false} HeadName(order: seq<Role>, n: nat, name: string)
    requires n < |order| && Distinct(order) && NamedFor(order[..n], name) && forall k :: 0 <= k < |order| ==> IsView(order[k])
    ensures NamedFor(order, name) && name !in AssessmentNames(order[n])
  {
    hide AssessmentNames;
    var j :| 0 <= j < n && name in AssessmentNames(order[..n][j]);
    assert order[j] == order[..n][j];
    if name in AssessmentNames(order[n]) { ViewNamesApart(order[j], order[n], name); }
  }

  lemma {:induction false} InputNames(order: seq<Role>, results: seq<ResearchResult>)
    requires WriteInputs(order, results)
    ensures Distinct(Keys(AllAssessments(results)))
    ensures forall k :: 0 <= k < |AllAssessments(results)| ==> AllAssessments(results)[k].0 != "synthesis"
  {
    hide ConsistentResearch, AssessmentNames;
    forall k | 0 <= k < |order| ensures IsView(order[k]) {
      assert order[k] in ToSet(order);
      assert order[k] in VIEWS;
    }
    NamesDistinct(order, results);
    var all := AllAssessments(results);
    forall k | 0 <= k < |all| ensures all[k].0 != "synthesis" {
      var j :| 0 <= j < |order| && all[k].0 in AssessmentNames(order[j]);
      ViewNamesApart(order[j], order[j], all[k].0);
    }
  }

  /** Every claim the writer collects belongs to a section: results bring technical, market, stakeholder and domain
      assessments only. */
  lemma {:induction false} CollectedPlaceable(order: seq<Role>, results: seq<ResearchResult>, synthesis: seq<Claim>)
    requires WriteInputs(order, results)
    ensures AllPlaceable(Dict(ClaimRecords(WithSynthesis(AllAssessments(results), synthesis))))
  {
    hide ConsistentResearch, AssessmentNames, SectionFor, Dict, ClaimRecords;
    var all := AllAssessments(results);
    forall k | 0 <= k < |order| ensures IsView(order[k]) {
      assert order[k] in ToSet(order);
      assert order[k] in VIEWS;
    }
    NamesDistinct(order, results);
    var groups := WithSynthesis(all, synthesis);
    forall g | 0 <= g < |groups| ensures SectionFor(groups[g].0).Some? {
      if g < |all| {
        var j :| 0 <= j < |order| && all[g].0 in AssessmentNames(order[j]);
        NamePlaceable(order[j], all[g].0);
      } else {
        SynthesisPlaceable();
      }
    }
    RecordsPlaceable(groups);
  }

  lemma {:induction false} NamePlaceable(view: Role, name: string)
    requires IsView(view) && name in AssessmentNames(view)
    ensures SectionFor(name).Some?
  {
    assert "research_kivi" == "research_" + "kivi" && "research_infinigen" == "research_" + "infinigen";
  }

  lemma {:induction false} SynthesisPlaceable()
    ensures SectionFor("synthesis").Some?
  {
  }

  lemma {:induction false} RecordsPlaceable(groups: Named<seq<Claim>>)
    requires forall g :: 0 <= g < |groups| ==> SectionFor(groups[g].0).Some?
    ensures AllPlaceable(Dict(ClaimRecords(groups)))
  {
    hide SectionFor, ClaimRecords;
    var records := ClaimRecords(groups);
    forall k | 0 <= k < |records| ensures SectionFor(records[k].1.perspective).Some? {
      var g, i := RecordOrigin(groups, k);
    }
    ValuesListed(records);
  }

  lemma {:induction false} ValuesListed(records: Named<ClaimRecord>)
    ensures forall id :: id in Dict(records) ==> exists k :: 0 <= k < |records| && records[k] == (id, Dict(records)[id])
  {
    if records != [] {
      var n := |records| - 1;
      ValuesListed(records[..n]);
      forall id | id in Dict(records) ensures exists k :: 0 <= k < |records| && records[k] == (id, Dict(records)[id]) {
        if id != records[n].0 {
          var k :| 0 <= k < n && records[..n][k] == (id, Dict(records[..n])[id]);
          assert records[k] == (id, Dict(records)[id]);
        } else {
          assert records[n] == (id, Dict(records)[id]);
        }
      }
    }
  }

  // ---------- Merging ----------

  /** The joined data before any synthesis. */
  function Base(assessments: Named<Assessment>, chunks: seq<Chunk>, names: Naming): Joined
    requires AllCited(ClaimGroups(assessments), chunks)
  {
    var claims := ClaimRecords(ClaimGroups(assessments));
    Joined(claims, Dict(EvidenceRecords(ClaimGroups(assessments), chunks)), assessments, AllConflicts(assessments),
           AllGaps(assessments), GapRecords(assessments), Built(assessments, claims, names))
  }

  datatype Merged = Merged(joined: Joined, chunks: seq<Chunk>, sources: map<string, Source>)

  /** The merged registries are sound and hold every chunk that the results cite. */
  predicate Collects(results: seq<ResearchResult>) {
    Merge(results).Done? && RegistrySound(Merge(results).value.chunks, Merge(results).value.sources)
    && AllCited(ClaimGroups(AllAssessments(results)), Merge(results).value.chunks)
  }

  /** `_merge_results`: conflicting registries are a mismatch, and registries that are unsound or lack a cited chunk an
      invalid response. */
  method MergeResults(results: seq<ResearchResult>, names: Naming) returns (r: Outcome<Merged>)
    requires Distinct(Keys(AllAssessments(results)))
    ensures r.Done? ==>
              && Merge(results) == Done(Registries(r.value.chunks, r.value.sources))
              && AllCited(ClaimGroups(AllAssessments(results)), r.value.chunks)
              && r.value.joined == Base(AllAssessments(results), r.value.chunks, names)
    ensures r.Done? <==> Collects(results)
    ensures r.Raised? ==> r.code == if Merge(results).Raised? then ArtifactMismatch else InvalidResponse
  {
    hide MergeChunks, MergeSources, RegistrySound, AllCited, EvidenceRecords, ClaimRecords, Dict, Built, RecordsSound,
         Distinct, Lookup;
    var assessments: Named<Assessment> := [];
    var registries := Registries([], map[]);
    MergeCodes(results);
    for k := 0 to |results|
      invariant Merge(results[..k]) == Done(registries) && assessments == AllAssessments(results[..k])
    {
      var more := MergeResult(registries, results[k]);
      assert results[..k + 1][..k] == results[..k];
      if more.Raised? {
        MergePrefix(results, k + 1);
        return Raised(ArtifactMismatch);
      }
      registries := more.value;
      assessments := assessments + results[k].assessments;
    }
    assert results[..|results|] == results;
    MergeDistinct(results);
    var chunks := EvidenceRegistry(registries.chunks, registries.sources);
    if chunks.Raised? {
      return Raised(InvalidResponse);
    }
    var groups := ClaimGroups(assessments);
    var evidence := CollectEvidence(groups, chunks.value);
    if evidence.Raised? {
      return Raised(InvalidResponse);
    }
    var claims := ClaimRecords(groups);
    var built := BuildConflictRecords(assessments, claims, names);
    var errors := ConflictRecordErrors(built, claims, assessments, names);
    BuiltPasses(assessments, names);
    if errors != [] {
      return Raised(ArtifactMismatch);
    }
    r := Done(Merged(Joined(claims, evidence.value.1, assessments, AllConflicts(assessments), AllGaps(assessments),
                            GapRecords(assessments), built), chunks.value, registries.sources));
  }

  lemma {:induction false} BuiltPasses(assessments: Named<Assessment>, names: Naming)
    requires Distinct(Keys(assessments))
    ensures var claims := ClaimRecords(ClaimGroups(assessments));
            RecordsSound(Built(assessments, claims, names), Built(assessments, claims, names), Dict(claims))
  {
    assert Keys(ClaimGroups(assessments)) == Keys(assessments);
    ClaimIdsDistinct(ClaimGroups(assessments));
    BuiltRecordsSound(assessments, ClaimRecords(ClaimGroups(assessments)), names);
  }

  // ---------- Adding and dropping the synthesis ----------

  function Synthesis(claims: seq<Claim>): Named<seq<Claim>> { [("synthesis", claims)] }

  /** The joined data with the synthesis claims and their evidence added. */
  function Extended(base: Joined, synthesis: seq<Claim>, chunks: seq<Chunk>): Joined
    requires AllCited(Synthesis(synthesis), chunks)
  {
    base.(claims := base.claims + ClaimRecords(Synthesis(synthesis)),
          evidence := base.evidence + Dict(EvidenceRecords(Synthesis(synthesis), chunks)))
  }

  function BeforeSynthesis(claims: Named<ClaimRecord>): Named<ClaimRecord> {
    if claims == [] then []
    else BeforeSynthesis(claims[..|claims| - 1])
         + (if claims[|claims| - 1].1.perspective != "synthesis" then [claims[|claims| - 1]] else [])
  }

  predicate Backs(claims: Named<ClaimRecord>, evidenceId: string) {
    exists k :: 0 <= k < |claims| && evidenceId in claims[k].1.evidenceIds
  }

  /** `source_claims`: the joined data without a prior synthesis. */
  function SourceClaims(joined: Joined): Joined {
    var claims := BeforeSynthesis(joined.claims);
    joined.(claims := claims, evidence := map id | id in joined.evidence && Backs(claims, id) :: joined.evidence[id])
  }

  lemma {:induction false} SourcedConcat(a: Named<ClaimRecord>, b: Named<ClaimRecord>)
    ensures BeforeSynthesis(a + b) == BeforeSynthesis(a) + BeforeSynthesis(b)
  {
    if b == [] {
      assert a + b == a;
    } else {
      var n := |b| - 1;
      SourcedConcat(a, b[..n]);
      assert (a + b)[..|a + b| - 1] == a + b[..n] && (a + b)[|a + b| - 1] == b[n];
    }
  }

  lemma {:induction false} SourcedAll(claims: Named<ClaimRecord>)
    ensures (forall k :: 0 <= k < |claims| ==> claims[k].1.perspective != "synthesis") ==> BeforeSynthesis(claims) == claims
    ensures (forall k :: 0 <= k < |claims| ==> claims[k].1.perspective == "synthesis") ==> BeforeSynthesis(claims) == []
  {
    if claims != [] {
      var n := |claims| - 1;
      SourcedAll(claims[..n]);
      assert forall k :: 0 <= k < n ==> claims[..n][k] == claims[k];
      hide BeforeSynthesis;
      BeforeLast(claims);
      assert claims == claims[..n] + [claims[n]];
    } else {
      assert BeforeSynthesis(claims) == [];
    }
  }

  lemma {:induction false} BeforeLast(claims: Named<ClaimRecord>)
    requires claims != []
    ensures var n := |claims| - 1;
            BeforeSynthesis(claims) ==
            if claims[n].1.perspective != "synthesis" then BeforeSynthesis(claims[..n]) + [claims[n]]
            else BeforeSynthesis(claims[..n])
  {
  }

  lemma {:induction false} PerspectiveOf(groups: Named<seq<Claim>>, k: nat)
    requires k < |ClaimRecords(groups)|
    ensures exists g :: 0 <= g < |groups| && ClaimRecords(groups)[k].1.perspective == groups[g].0
  {
    var g, i := RecordOrigin(groups, k);
  }

  lemma {:induction false} DictKeys<T>(d: Named<T>, id: string)
    ensures id in Dict(d) <==> exists k :: 0 <= k < |d| && d[k].0 == id
  {
    if d != [] {
      var n := |d| - 1;
      DictKeys(d[..n], id);
      assert forall k :: 0 <= k < n ==> d[..n][k] == d[k];
    }
  }

  /** Every collected evidence id belongs to a claim of the same groups. */
  lemma {:induction false} EvidenceBacked(groups: Named<seq<Claim>>, chunks: seq<Chunk>, id: string)
    requires AllCited(groups, chunks) && id in Dict(EvidenceRecords(groups, chunks))
    ensures Backs(ClaimRecords(groups), id)
  {
    hide EvidenceId, ClaimId, AllCited, EvidenceRecords, ClaimRecords, Dict;
    var es := EvidenceRecords(groups, chunks);
    DictKeys(es, id);
    var k :| 0 <= k < |es| && es[k].0 == id;
    var g, i, j := EvidenceOrigin(groups, chunks, k);
    var c := RecordAt(groups, g, i);
    var record := RecordOf(groups[g].0, i, groups[g].1[i]);
    assert record.evidenceIds[j] == id;
    assert ClaimRecords(groups)[c].1 == record;
  }

  /** No evidence of a synthesis claim belongs to a claim of another perspective. */
  lemma {:induction false} SynthesisUnbacked(groups: Named<seq<Claim>>, synthesis: seq<Claim>, chunks: seq<Chunk>,
          id: string)
    requires AllCited(Synthesis(synthesis), chunks) && id in Dict(EvidenceRecords(Synthesis(synthesis), chunks))
    requires forall g :: 0 <= g < |groups| ==> groups[g].0 != "synthesis"
    ensures !Backs(ClaimRecords(groups), id)
  {
    hide EvidenceId, ClaimId, AllCited, EvidenceRecords, ClaimRecords, Dict;
    var es := EvidenceRecords(Synthesis(synthesis), chunks);
    DictKeys(es, id);
    var k :| 0 <= k < |es| && es[k].0 == id;
    var g, i, j := EvidenceOrigin(Synthesis(synthesis), chunks, k);
    forall c, m | 0 <= c < |ClaimRecords(groups)| && 0 <= m < |ClaimRecords(groups)[c].1.evidenceIds|
      ensures ClaimRecords(groups)[c].1.evidenceIds[m] != id
    {
      var h, l := RecordOrigin(groups, c);
      OtherEvidenceId(groups[h].0, l + 1, m + 1, i + 1, j + 1);
    }
  }

  lemma {:induction false} OtherEvidenceId(p: string, i: nat, j: nat, k: nat, l: nat)
    requires p != "synthesis"
    ensures EvidenceId(ClaimId(p, i), j) != EvidenceId(ClaimId("synthesis", k), l)
  {
    if EvidenceId(ClaimId(p, i), j) == EvidenceId(ClaimId("synthesis", k), l) {
      EvidenceIdInjective(p, i, j, "synthesis", k, l);
    }
  }

  /** Dropping a prior synthesis undoes adding it, claims and evidence alike. */
  lemma {:induction false} SourceClaimsUndo(assessments: Named<Assessment>, synthesis: seq<Claim>, chunks: seq<Chunk>,
          names: Naming)
    requires AllCited(ClaimGroups(assessments), chunks) && AllCited(Synthesis(synthesis), chunks)
    requires forall k :: 0 <= k < |assessments| ==> assessments[k].0 != "synthesis"
    ensures SourceClaims(Extended(Base(assessments, chunks, names), synthesis, chunks)) == Base(assessments, chunks, names)
  {
    hide AllCited, EvidenceRecords, ClaimRecords, Built, GapRecords, AllGaps, AllConflicts, Backs, Dict,
         BeforeSynthesis, ClaimGroups, Synthesis;
    var groups := ClaimGroups(assessments);
    GroupsNamed(assessments);
    ClaimsUndone(groups, synthesis);
    EvidenceUndone(groups, synthesis, chunks);
  }

  lemma {:induction false} GroupsNamed(assessments: Named<Assessment>)
    requires forall k :: 0 <= k < |assessments| ==> assessments[k].0 != "synthesis"
    ensures forall k :: 0 <= k < |ClaimGroups(assessments)| ==> ClaimGroups(assessments)[k].0 != "synthesis"
  {
  }

  lemma {:induction false} ClaimsUndone(groups: Named<seq<Claim>>, synthesis: seq<Claim>)
    requires forall k :: 0 <= k < |groups| ==> groups[k].0 != "synthesis"
    ensures BeforeSynthesis(ClaimRecords(groups) + ClaimRecords(Synthesis(synthesis))) == ClaimRecords(groups)
  {
    hide ClaimRecords;
    var base, added := ClaimRecords(groups), ClaimRecords(Synthesis(synthesis));
    forall k | 0 <= k < |base| ensures base[k].1.perspective != "synthesis" { PerspectiveOf(groups, k); }
    forall k | 0 <= k < |added| ensures added[k].1.perspective == "synthesis" { PerspectiveOf(Synthesis(synthesis), k); }
    hide BeforeSynthesis;
    SourcedConcat(base, added);
    SourcedAll(base);
    SourcedAll(added);
    assert base + [] == base;
  }

  lemma {:induction false} EvidenceUndone(groups: Named<seq<Claim>>, synthesis: seq<Claim>, chunks: seq<Chunk>)
    requires AllCited(groups, chunks) && AllCited(Synthesis(synthesis), chunks)
    requires forall k :: 0 <= k < |groups| ==> groups[k].0 != "synthesis"
    ensures var before, more := Dict(EvidenceRecords(groups, chunks)), Dict(EvidenceRecords(Synthesis(synthesis), chunks));
            (map id | id in before + more && Backs(ClaimRecords(groups), id) :: (before + more)[id]) == before
  {
    hide AllCited, EvidenceRecords, ClaimRecords, Backs, Dict, Synthesis;
    var base := ClaimRecords(groups);
    var before, more := Dict(EvidenceRecords(groups, chunks)), Dict(EvidenceRecords(Synthesis(synthesis), chunks));
    forall id | id in before ensures Backs(base, id) { EvidenceBacked(groups, chunks, id); }
    forall id | id in more ensures !Backs(base, id) { SynthesisUnbacked(groups, synthesis, chunks, id); }
  }

  // ---------- Gap decisions ----------

  lemma {:induction false} GapOrigin(assessments: Named<Assessment>, k: nat) returns (a: nat, i: nat)
    requires k < |GapRecords(assessments)|
    ensures a < |assessments| && i < |assessments[a].1.gaps|
    ensures GapRecords(assessments)[k] == GapRecord(GapId(assessments[a].0, i + 1), assessments[a].0, assessments[a].1.gaps[i])
  {
    var n := |assessments| - 1;
    var head := GapRecords(assessments[..n]);
    if k < |head| {
      a, i := GapOrigin(assessments[..n], k);
    } else {
      a, i := n, k - |head|;
    }
  }

  lemma {:induction false} GapIdInjective(p: string, i: nat, q: string, j: nat)
    requires GapId(p, i) == GapId(q, j)
    ensures p == q && i == j
  {
    PrefixInjective("gap-", Numbered(p, i), Numbered(q, j));
    NumberedInjective(p, i, q, j);
  }

  lemma {:induction false} DistinctJoin<T>(a: seq<T>, b: seq<T>)
    requires Distinct(a) && Distinct(b) && forall k, l :: 0 <= k < |a| && 0 <= l < |b| ==> a[k] != b[l]
    ensures Distinct(a + b)
  {
  }

  lemma {:induction false} OwnGapsDistinct(name: string, gaps: seq<string>)
    ensures Distinct(GapIds(GapsOf(name, gaps)))
  {
    hide GapId;
    var rs := GapsOf(name, gaps);
    forall k, l | 0 <= k < l < |rs| ensures GapIds(rs)[k] != GapIds(rs)[l] {
      if GapId(name, k + 1) == GapId(name, l + 1) { GapIdInjective(name, k + 1, name, l + 1); }
    }
  }

  lemma {:induction false} OtherGapId(assessments: Named<Assessment>, n: nat, k: nat, l: nat)
    requires n < |assessments| && Distinct(Keys(assessments))
    requires k < |GapRecords(assessments[..n])| && l < |assessments[n].1.gaps|
    ensures GapRecords(assessments[..n])[k].id != GapId(assessments[n].0, l + 1)
  {
    hide GapId, GapRecords;
    KeysPrefix(assessments, n);
    var a, i := GapOrigin(assessments[..n], k);
    if GapRecords(assessments[..n])[k].id == GapId(assessments[n].0, l + 1) {
      GapIdInjective(assessments[a].0, i + 1, assessments[n].0, l + 1);
    }
  }

  /** Gap ids never collide. */
  lemma {:induction false} GapIdsDistinct(assessments: Named<Assessment>)
    requires Distinct(Keys(assessments))
    ensures Distinct(GapIds(GapRecords(assessments)))
  {
    if assessments != [] {
      hide GapId, Distinct;
      var n := |assessments| - 1;
      var head, tail := GapRecords(assessments[..n]), GapsOf(assessments[n].0, assessments[n].1.gaps);
      KeysPrefix(assessments, n);
      GapIdsDistinct(assessments[..n]);
      OwnGapsDistinct(assessments[n].0, assessments[n].1.gaps);
      forall k, l | 0 <= k < |head| && 0 <= l < |tail| ensures GapIds(head)[k] != GapIds(tail)[l] {
        OtherGapId(assessments, n, k, l);
      }
      DistinctJoin(GapIds(head), GapIds(tail));
      assert GapIds(head + tail) == GapIds(head) + GapIds(tail);
    }
  }

  lemma {:induction false} KeysPrefix<T>(d: Named<T>, n: nat)
    requires n < |d| && Distinct(Keys(d))
    ensures Distinct(Keys(d[..n])) && forall k :: 0 <= k < n ==> d[k].0 != d[n].0
  {
    assert Keys(d[..n]) == Keys(d)[..n];
    assert forall k :: 0 <= k < n ==> Keys(d)[k] != Keys(d)[n];
  }

  /** Sound decisions for two parts of the gaps are sound decisions for the whole. */
  lemma {:induction false} DecisionsConcat(a: seq<GapDecision>, b: seq<GapDecision>, g: seq<GapRecord>,
          h: seq<GapRecord>, claims: Claims)
    requires DecisionsSound(a, g, claims) && DecisionsSound(b, h, claims) && Distinct(GapIds(g + h))
    ensures DecisionsSound(a + b, g + h, claims)
  {
    hide DecisionSound, Distinct, ToSet;
    assert GapIds(g + h) == GapIds(g) + GapIds(h) && DecidedIds(a + b) == DecidedIds(a) + DecidedIds(b);
    DistinctParts(GapIds(g), GapIds(h));
    DistinctCard(GapIds(g));
    DistinctCard(GapIds(h));
    DistinctCard(GapIds(g + h));
    ToSetConcat(GapIds(g), GapIds(h));
    ToSetConcat(DecidedIds(a), DecidedIds(b));
  }

  lemma {:induction false} ToSetConcat<T>(a: seq<T>, b: seq<T>)
    ensures ToSet(a + b) == ToSet(a) + ToSet(b)
  {
  }

  const BATCH := 5

  function NextBatch(gaps: seq<GapRecord>, k: nat): (next: nat)
    requires k < |gaps|
    ensures k < next <= |gaps| && next - k <= BATCH
  {
    if k + BATCH < |gaps| then k + BATCH else |gaps|
  }

  /** The decisions on the gaps from the `k`th on, batch by batch; a batch whose decisions are unsound ends the
      review. */
  function GapsFrom(gaps: seq<GapRecord>, k: nat, claims: Claims,
          decide: seq<GapRecord> -> Outcome<seq<GapDecision>>): Outcome<seq<GapDecision>>
    decreases |gaps| - k
  {
    if k >= |gaps| then Done([])
    else
      var batch := gaps[k..NextBatch(gaps, k)];
      var reply := decide(batch);
      if reply.Raised? then reply
      else if !DecisionsSound(reply.value, batch, claims) then Raised(InvalidResponse)
      else
        var rest := GapsFrom(gaps, NextBatch(gaps, k), claims, decide);
        if rest.Raised? then rest else Done(reply.value + rest.value)
  }

  /** The gaps decided five at a time, each batch checked on its own: together they decide every gap once. */
  method ReviewGaps(gaps: seq<GapRecord>, claims: Claims, decide: seq<GapRecord> -> Outcome<seq<GapDecision>>)
    returns (r: Outcome<seq<GapDecision>>)
    requires Distinct(GapIds(gaps))
    ensures r == GapsFrom(gaps, 0, claims, decide)
    ensures r.Done? ==> DecisionsSound(r.value, gaps, claims)
  {
    hide DecisionsSound, Distinct, ToSet;
    var decisions: seq<GapDecision> := [];
    var k := 0;
    NoGaps(claims);
    ghost var all := GapsFrom(gaps, 0, claims, decide);
    assert all.Done? ==> [] + all.value == all.value;
    while k < |gaps|
      invariant 0 <= k <= |gaps| && DecisionsSound(decisions, gaps[..k], claims)
      invariant var rest := GapsFrom(gaps, k, claims, decide);
                GapsFrom(gaps, 0, claims, decide) == if rest.Raised? then rest else Done(decisions + rest.value)
    {
      var next := NextBatch(gaps, k);
      ghost var rest := GapsFrom(gaps, next, claims, decide);
      var reply := decide(gaps[k..next]);
      if reply.Raised? {
        return Raised(reply.code);
      }
      var errors := GapDecisionErrors(reply.value, gaps[k..next], claims);
      if errors != [] {
        return Raised(InvalidResponse);
      }
      assert gaps[..k] + gaps[k..next] == gaps[..next];
      GapPrefix(gaps, next);
      DecisionsConcat(decisions, reply.value, gaps[..k], gaps[k..next], claims);
      if rest.Done? { Seqs.Assoc(decisions, reply.value, rest.value); }
      decisions := decisions + reply.value;
      k := next;
    }
    assert gaps[..|gaps|] == gaps && decisions + [] == decisions;
    r := Done(decisions);
  }

  lemma {:induction false} NoGaps(claims: Claims)
    ensures DecisionsSound([], [], claims)
  {
    assert GapIds([]) == [] && DecidedIds([]) == [];
  }

  lemma {:induction false} GapPrefix(gaps: seq<GapRecord>, k: nat)
    requires k <= |gaps| && Distinct(GapIds(gaps))
    ensures Distinct(GapIds(gaps[..k]))
  {
    assert GapIds(gaps[..k]) == GapIds(gaps)[..k];
  }

  // ---------- The draft ----------

  /** The reference equals one of the claims' references up to white space. */
  predicate CopiedLoosely(ref: Reference, claims: Named<ClaimRecord>) {
    exists k, j :: 0 <= k < |claims| && 0 <= j < |claims[k].1.claim.references|
      && claims[k].1.claim.references[j].chunkId == ref.chunkId
      && Normalized(claims[k].1.claim.references[j].quote) == Normalized(ref.quote)
  }

  predicate LooseCopies(synthesis: seq<Claim>, claims: Named<ClaimRecord>) {
    forall i, j :: 0 <= i < |synthesis| && 0 <= j < |synthesis[i].references| ==>
      CopiedLoosely(synthesis[i].references[j], claims)
  }

  predicate AllInferred(synthesis: seq<Claim>) { forall i :: 0 <= i < |synthesis| ==> synthesis[i].kind.TeamInference? }

  /** What a draft must satisfy, stated without the error list. */
  predicate DraftSound(draft: Report, base: Joined, chunks: seq<Chunk>) {
    && AllGrounded(draft.synthesisClaims, chunks, None) && AllInferred(draft.synthesisClaims)
    && LooseCopies(draft.synthesisClaims, base.claims)
    && ReportSound(draft, Dict(base.claims) + Dict(ClaimRecords(Synthesis(draft.synthesisClaims))), chunks, None)
  }

  lemma {:induction false} GroundedIsCited(claims: seq<Claim>, chunks: seq<Chunk>)
    requires AllGrounded(claims, chunks, None)
    ensures AllCited(Synthesis(claims), chunks)
  {
    hide Normalized, Contains, Blank;
    forall i | 0 <= i < |claims| ensures Cites(claims[i], chunks) {
      assert Grounded(claims[i], chunks, None);
      forall j | 0 <= j < |claims[i].references| ensures Lookup(chunks, claims[i].references[j].chunkId).Some? {
        assert Sound(claims[i].references[j], chunks, None);
      }
    }
  }

  /** The check that `draft_report` hands to the generator. */
  method DraftPasses(draft: Report, base: Joined, chunks: seq<Chunk>) returns (ok: bool)
    ensures ok <==> DraftSound(draft, base, chunks)
  {
    hide AllGrounded, LooseCopies, AllInferred, ReportSound, ClaimRecords, AllCited, Dict;
    var errors := ValidateAssessment(draft.synthesisClaims, chunks, None, false);
    if errors != [] || !AllInferred(draft.synthesisClaims) || !LooseCopies(draft.synthesisClaims, base.claims) {
      return false;
    }
    GroundedIsCited(draft.synthesisClaims, chunks);
    var extra := CollectEvidence(Synthesis(draft.synthesisClaims), chunks);
    if extra.Raised? {
      return false;
    }
    var report := ReportErrors(draft, Dict(base.claims) + extra.value.0, chunks, None);
    ok := report == [];
  }

  // ---------- The writer node ----------

  /** What rendering contributes: the text and the claims and sources it used. */
  datatype Rendered = Rendered(markdown: string, usedClaims: seq<string>, usedSources: set<string>)

  function PageOf(report: Report, joined: Joined, text: seq<Render.Line> -> string): Rendered {
    var ink := Render.InkOf(report, joined);
    Rendered(text(Render.DocumentLines(report, joined, ink)), Render.UsedClaims(report), ToSet(ink.sources))
  }

  function Failed(common: Common, code: ErrorCode): ReportResult {
    ReportResult(common, None, [], map[], Some(code))
  }

  function UsedChunkIds(joined: Joined, used: seq<string>): set<string> {
    set c, e | c in used && c in Dict(joined.claims) && e in Dict(joined.claims)[c].evidenceIds && e in joined.evidence
      :: joined.evidence[e].ref.chunkId
  }

  function Among(ids: set<string>): Chunk -> bool { (c: Chunk) => c.id in ids }

  function ByChunkId(a: Chunk, b: Chunk): bool { Alphabetical(a.id, b.id) }

  /** The chunks with these ids, in the order of the ids. */
  function Kept(chunks: seq<Chunk>, ids: set<string>): seq<Chunk> { Sorted(Pick(chunks, Among(ids)), ByChunkId) }

  lemma {:induction false} KeptMembers(chunks: seq<Chunk>, ids: set<string>, c: Chunk)
    ensures c in Kept(chunks, ids) <==> c in chunks && c.id in ids
  {
    hide Pick, Sorted;
    SortedMembers(Pick(chunks, Among(ids)), ByChunkId, c);
    PickMember(chunks, Among(ids), c);
  }

  lemma {:induction false} KeptInOrder(chunks: seq<Chunk>, ids: set<string>)
    ensures forall i, j :: 0 <= i < j < |Kept(chunks, ids)| ==> Alphabetical(Kept(chunks, ids)[i].id, Kept(chunks, ids)[j].id)
  {
    hide Before;
    AlphabeticalPreorder();
    assert Preorder(ByChunkId) by {
      forall x: Chunk, y: Chunk ensures ByChunkId(x, y) || ByChunkId(y, x) { BeforeTotal(x.id, y.id); }
    }
    SortedInOrder(Pick(chunks, Among(ids)), ByChunkId);
    hide Sorted, Pick, Alphabetical;
    var kept := Kept(chunks, ids);
    assert forall i, j :: 0 <= i < j < |kept| ==> ByChunkId(kept[i], kept[j]);
  }

  function Restricted(sources: map<string, Source>, ids: set<string>): map<string, Source> {
    map id | id in sources && id in ids :: sources[id]
  }

  /** The report result the writer assembles before its own contract is checked. */
  function Assembled(common: Common, report: Report, joined: Joined, chunks: seq<Chunk>, sources: map<string, Source>,
          page: Rendered): ReportResult
  {
    ReportResult(common, Some(Document(page.markdown, report, joined)),
                 Kept(chunks, UsedChunkIds(joined, page.usedClaims)), Restricted(sources, page.usedSources), None)
  }

  lemma {:induction false} KeptResolve(chunks: seq<Chunk>, ids: set<string>)
    requires Distinct(ChunkIds(chunks))
    ensures forall k :: 0 <= k < |Kept(chunks, ids)| ==> Lookup(chunks, Kept(chunks, ids)[k].id) == Some(Kept(chunks, ids)[k])
  {
    hide Kept;
    forall k | 0 <= k < |Kept(chunks, ids)| ensures Lookup(chunks, Kept(chunks, ids)[k].id) == Some(Kept(chunks, ids)[k]) {
      var c := Kept(chunks, ids)[k];
      KeptMembers(chunks, ids, c);
      var i :| 0 <= i < |chunks| && chunks[i] == c;
      OnlyOfItsId(chunks, i);
    }
  }

  lemma {:induction false} SynthesisGroups(assessments: Named<Assessment>, synthesis: seq<Claim>, chunks: seq<Chunk>)
    requires AllCited(ClaimGroups(assessments), chunks) && AllCited(Synthesis(synthesis), chunks)
    requires Distinct(Keys(assessments)) && forall k :: 0 <= k < |assessments| ==> assessments[k].0 != "synthesis"
    ensures var groups := WithSynthesis(assessments, synthesis);
            && AllCited(groups, chunks)
            && ClaimRecords(groups) == ClaimRecords(ClaimGroups(assessments)) + ClaimRecords(Synthesis(synthesis))
            && Dict(EvidenceRecords(groups, chunks))
               == Dict(EvidenceRecords(ClaimGroups(assessments), chunks)) + Dict(EvidenceRecords(Synthesis(synthesis), chunks))
            && Distinct(Keys(ClaimRecords(groups)))
  {
    hide AllCited, EvidenceRecords, ClaimRecords, Dict, Distinct;
    var base, added := ClaimGroups(assessments), Synthesis(synthesis);
    ClaimsAppend(base, added);
    EvidenceAppend(base, added, chunks);
    DictConcat(EvidenceRecords(base, chunks), EvidenceRecords(added, chunks));
    assert Keys(base) == Keys(assessments);
    assert Distinct(Keys(added)) by { OneName(synthesis); }
    KeysConcat(base, added);
    ClaimIdsDistinct(base + added);
  }

  lemma {:induction false} OneName(synthesis: seq<Claim>)
    ensures Distinct(Keys(Synthesis(synthesis)))
  {
  }

  lemma {:induction false} SynthesisApart(assessments: Named<Assessment>, synthesis: seq<Claim>)
    requires forall k :: 0 <= k < |assessments| ==> assessments[k].0 != "synthesis"
    ensures Apart(assessments, ClaimRecords(Synthesis(synthesis)))
  {
    forall n | 0 <= n < |ClaimRecords(Synthesis(synthesis))|
      ensures ClaimRecords(Synthesis(synthesis))[n].1.perspective == "synthesis"
    {
      PerspectiveOf(Synthesis(synthesis), n);
    }
  }

  /** The assembled report passes the Supervisor's independent recomputation exactly when its synthesis quotes
      are exact copies and no conflict text names a synthesis claim. */
  lemma {:induction false} AcceptedExactly(common: Common, results: seq<ResearchResult>, chunks: seq<Chunk>,
          sources: map<string, Source>, report: Report, page: Rendered, names: Naming)
    requires Merge(results) == Done(Registries(chunks, sources))
    requires var assessments := AllAssessments(results);
             Distinct(Keys(assessments)) && (forall k :: 0 <= k < |assessments| ==> assessments[k].0 != "synthesis")
             && AllCited(ClaimGroups(assessments), chunks) && AllCited(Synthesis(report.synthesisClaims), chunks)
    ensures var assessments := AllAssessments(results);
            var joined := Extended(Base(assessments, chunks, names), report.synthesisClaims, chunks);
            InputsMatch(Assembled(common, report, joined, chunks, sources, page), results, names) <==>
              ExactCopies(report.synthesisClaims, ClaimGroups(assessments))
              && NamesNone(assessments, ClaimRecords(Synthesis(report.synthesisClaims)), names)
  {
    hide AllCited, EvidenceRecords, ClaimRecords, Dict, Distinct, Merge, ExactCopies, NamesNone, RecordsSound, Built,
         AllGaps, AllConflicts, GapRecords, Lookup, Kept, UsedChunkIds, Synthesis, WithSynthesis;
    var assessments := AllAssessments(results);
    MergeDistinct(results);
    KeptResolve(chunks, UsedChunkIds(Extended(Base(assessments, chunks, names), report.synthesisClaims, chunks), page.usedClaims));
    SynthesisGroups(assessments, report.synthesisClaims, chunks);
    SynthesisApart(assessments, report.synthesisClaims);
    LargerRegistryExact(assessments, ClaimRecords(ClaimGroups(assessments)), ClaimRecords(Synthesis(report.synthesisClaims)), names);
  }

  /** The report contract grounds every claim in the listed chunks, so the structure stays sound on them. */
  lemma {:induction false} StructureOnUsed(r: ReportResult, base: Named<ClaimRecord>, chunks: seq<Chunk>)
    requires ConsistentReport(r) && r.document.Some?
    requires var d := r.document.value;
             && d.joined.claims == base + ClaimRecords(Synthesis(d.report.synthesisClaims))
             && ReportSound(d.report, Dict(d.joined.claims), chunks, Some(d.joined.gapRecords))
    ensures StructureSound(r)
  {
    hide RegistrySound, Dict, Distinct, Grounded, SummarySound, SectionSound, SectionPlaced, DecisionsSound, BodyIds,
         AllKnown, Titles;
    var d := r.document.value;
    var synthesis := d.report.synthesisClaims;
    forall i | 0 <= i < |synthesis| ensures Grounded(synthesis[i], r.chunks, None) {
      var k := RecordAt(Synthesis(synthesis), 0, i);
      var entry := d.joined.claims[|base| + k];
      assert RecordConsistent(entry.0, entry.1, d, r.chunks);
    }
  }

  /** With the synthesis in the registry, the records built before it pass the check exactly when no conflict text
      names a synthesis claim. */
  lemma {:induction false} ConflictsHoldExactly(assessments: Named<Assessment>, synthesis: seq<Claim>,
          chunks: seq<Chunk>, names: Naming)
    requires AllCited(ClaimGroups(assessments), chunks) && AllCited(Synthesis(synthesis), chunks)
    requires Distinct(Keys(assessments)) && forall k :: 0 <= k < |assessments| ==> assessments[k].0 != "synthesis"
    ensures ConflictsHold(Extended(Base(assessments, chunks, names), synthesis, chunks), names) <==>
              NamesNone(assessments, ClaimRecords(Synthesis(synthesis)), names)
  {
    hide AllCited, EvidenceRecords, ClaimRecords, Dict, Distinct, NamesNone, RecordsSound, Built, AllGaps, GapRecords,
         Synthesis, WithSynthesis, ClaimGroups;
    var base, added := ClaimRecords(ClaimGroups(assessments)), ClaimRecords(Synthesis(synthesis));
    if assessments == [] {
      NoConflicts(base, added, names);
    } else {
      SynthesisGroups(assessments, synthesis, chunks);
      SynthesisApart(assessments, synthesis);
      LargerRegistryExact(assessments, base, added, names);
    }
  }

  lemma {:induction false} NoConflicts(base: Named<ClaimRecord>, added: Named<ClaimRecord>, names: Naming)
    ensures NamesNone([], added, names) && AllConflicts([]) == []
    ensures RecordsSound(Built([], base, names), Built([("legacy", Assessment(Sufficient, [], [], []))], base + added, names),
                         Dict(base + added))
  {
    hide Dict;
    assert [("legacy", Assessment(Sufficient, [], [], []))][..0] == [];
  }

  /** The report result of the writer, when nothing fails: the results merged, a sound draft, the earlier decisions or
      a full review of the gaps, a sound report that renders, and a contract that holds. */
  function Finished(common: Common, results: seq<ResearchResult>, previous: Option<ReportResult>,
          draft: Outcome<Report>, decide: seq<GapRecord> -> Outcome<seq<GapDecision>>, text: seq<Render.Line> -> string,
          summaryLength: (Report, Joined) -> nat, names: Naming): Option<ReportResult>
    requires previous.Some? ==> previous.value.document.Some?
  {
    var merged := Merge(results);
    if merged.Raised? || !RegistrySound(merged.value.chunks, merged.value.sources) || draft.Raised? then None
    else
      var chunks, sources := merged.value.chunks, merged.value.sources;
      var assessments, synthesis := AllAssessments(results), draft.value.synthesisClaims;
      if !AllCited(ClaimGroups(assessments), chunks) || !AllCited(Synthesis(synthesis), chunks) then None
      else
        var base := Base(assessments, chunks, names);
        var decisions := if previous.Some? then Done(previous.value.document.value.report.gapDecisions)
                         else GapsFrom(base.gapRecords, 0, Dict(base.claims), decide);
        if !DraftSound(draft.value, base, chunks) || decisions.Raised? then None
        else
          var report, joined := draft.value.(gapDecisions := decisions.value), Extended(base, synthesis, chunks);
          if !ReportSound(report, Dict(joined.claims), chunks, Some(joined.gapRecords))
            || !Render.Renders(report, joined, sources.Keys, summaryLength(report, joined), names)
            || !(UsedChunkIds(joined, Render.UsedClaims(report)) <= ToSet(ChunkIds(chunks))) then None
          else
            var r := Assembled(common, report, joined, chunks, sources, PageOf(report, joined, text));
            if ConsistentReport(r) then Some(r) else None
  }

  /** No conflict text names a claim of this synthesis. */
  ghost predicate Unnamed(results: seq<ResearchResult>, synthesis: seq<Claim>, names: Naming) {
    NamesNone(AllAssessments(results), ClaimRecords(Synthesis(synthesis)), names)
  }

  /** The writer's answer is always consistent, and carries a report exactly when no step fails. A report it writes is
      structurally sound, takes over the decisions of an earlier one, never has a conflict text that names its own
      synthesis, and passes the Supervisor's recomputation exactly when its synthesis quotes are exact copies. */
  method WriteReport(common: Common, ghost order: seq<Role>, results: seq<ResearchResult>,
          previous: Option<ReportResult>, draft: Outcome<Report>, decide: seq<GapRecord> -> Outcome<seq<GapDecision>>,
          text: seq<Render.Line> -> string, summaryLength: (Report, Joined) -> nat, names: Naming)
    returns (r: ReportResult)
    requires WriteInputs(order, results)
    requires previous.Some? ==> previous.value.document.Some?
    ensures r.common == common && ConsistentReport(r)
    ensures r.document.None? ==> r == Failed(common, if r.error.Some? then r.error.value else InvalidResponse)
    ensures var done := Finished(common, results, previous, draft, decide, text, summaryLength, names);
            if r.document.Some? then done == Some(r) else done.None?
    ensures r.document.Some? ==>
              && StructureSound(r)
              && (previous.Some? ==> r.document.value.report.gapDecisions == previous.value.document.value.report.gapDecisions)
              && Unnamed(results, r.document.value.report.synthesisClaims, names)
              && (InputsMatch(r, results, names) <==>
                    ExactCopies(r.document.value.report.synthesisClaims, ClaimGroups(AllAssessments(results))))
    ensures draft.Done? && !Unnamed(results, draft.value.synthesisClaims, names) ==> r.document.None?
    ensures Merge(results).Raised? ==> r.error == Some(ArtifactMismatch)
    ensures Merge(results).Done? && !Collects(results) ==> r.error == Some(InvalidResponse)
    ensures Collects(results) && draft.Raised? ==> r.error == Some(draft.code)
  {
    hide AllCited, EvidenceRecords, ClaimRecords, Dict, Distinct, Merge, ExactCopies, NamesNone, InputsMatch,
         ConsistentReport, StructureSound, ReportSound, DraftSound, Base, Extended, Assembled, Synthesis, AllGrounded,
         WriteInputs, AllAssessments, Conflicts.RecordsSound, ConflictsHold, Unnamed, UsedChunkIds, Render.Complete,
         Render.InkOf, Render.UsedClaims, Render.UsedEvidence, Render.DocumentLines, Render.StatesConflicts;
    InputNames(order, results);
    var failure := Failed(common, InvalidResponse);
    FailureConsistent(common);
    var merged := MergeResults(results, names);
    if merged.Raised? {
      return Failed(common, merged.code);
    }
    var base, chunks, sources := merged.value.joined, merged.value.chunks, merged.value.sources;
    if draft.Raised? {
      return Failed(common, draft.code);
    }
    var ok := DraftPasses(draft.value, base, chunks);
    if !ok {
      return failure;
    }
    var decisions: seq<GapDecision>;
    if previous.Some? {
      decisions := previous.value.document.value.report.gapDecisions;
    } else {
      GapsOfBase(results, chunks, names);
      var decided := ReviewGaps(base.gapRecords, Dict(base.claims), decide);
      if decided.Raised? {
        return Failed(common, decided.code);
      }
      decisions := decided.value;
    }
    var report := draft.value.(gapDecisions := decisions);
    DraftCited(draft.value, base, chunks);
    var joined := Extended(base, report.synthesisClaims, chunks);
    var errors := ReportErrors(report, Dict(joined.claims), chunks, Some(joined.gapRecords));
    if errors != [] {
      return failure;
    }
    var built := Render.BuildReportMarkdown(report, joined, sources.Keys, summaryLength(report, joined), names);
    if built.Raised? {
      return Failed(common, built.code);
    }
    if !(UsedChunkIds(joined, built.value.usedClaims) <= ToSet(ChunkIds(chunks))) {
      return Failed(common, ArtifactMismatch);
    }
    var page := Rendered(text(built.value.lines), built.value.usedClaims, ToSet(built.value.usedSources));
    r := Assembled(common, report, joined, chunks, sources, page);
    if !ConsistentReport(r) {
      return failure;
    }
    RenderedUnnamed(results, report, chunks, names);
    WrittenSound(common, results, base, chunks, sources, report, page, names);
  }

  /** A sound report that renders has no conflict text that names its synthesis. */
  lemma {:induction false} RenderedUnnamed(results: seq<ResearchResult>, report: Report, chunks: seq<Chunk>,
          names: Naming)
    requires var assessments := AllAssessments(results);
             Distinct(Keys(assessments)) && (forall k :: 0 <= k < |assessments| ==> assessments[k].0 != "synthesis")
             && AllCited(ClaimGroups(assessments), chunks) && AllCited(Synthesis(report.synthesisClaims), chunks)
    requires var joined := Extended(Base(AllAssessments(results), chunks, names), report.synthesisClaims, chunks);
             && ReportSound(report, Dict(joined.claims), chunks, Some(joined.gapRecords))
             && (Render.StatesConflicts(report.sections) ==> ConflictsHold(joined, names))
    ensures Unnamed(results, report.synthesisClaims, names)
  {
    hide AllCited, EvidenceRecords, ClaimRecords, Dict, Distinct, NamesNone, ReportSound, Base, Extended, Synthesis,
         AllAssessments, ConflictsHold, Render.StatesConflicts;
    var joined := Extended(Base(AllAssessments(results), chunks, names), report.synthesisClaims, chunks);
    Render.SoundStatesConflicts(report, Dict(joined.claims), chunks, Some(joined.gapRecords));
    ConflictsHoldExactly(AllAssessments(results), report.synthesisClaims, chunks, names);
  }

  lemma {:induction false} FailureConsistent(common: Common)
    ensures forall code :: ConsistentReport(Failed(common, code))
  {
  }

  lemma {:induction false} GapsOfBase(results: seq<ResearchResult>, chunks: seq<Chunk>, names: Naming)
    requires AllCited(ClaimGroups(AllAssessments(results)), chunks) && Distinct(Keys(AllAssessments(results)))
    ensures Distinct(GapIds(Base(AllAssessments(results), chunks, names).gapRecords))
  {
    hide AllCited, Distinct;
    GapIdsDistinct(AllAssessments(results));
  }

  lemma {:induction false} DraftCited(draft: Report, base: Joined, chunks: seq<Chunk>)
    requires DraftSound(draft, base, chunks)
    ensures AllCited(Synthesis(draft.synthesisClaims), chunks)
  {
    hide AllGrounded, ReportSound, AllCited;
    GroundedIsCited(draft.synthesisClaims, chunks);
  }

  lemma {:induction false} WrittenSound(common: Common, results: seq<ResearchResult>, base: Joined, chunks: seq<Chunk>,
          sources: map<string, Source>, report: Report, page: Rendered, names: Naming)
    requires Merge(results) == Done(Registries(chunks, sources))
    requires var assessments := AllAssessments(results);
             Distinct(Keys(assessments)) && (forall k :: 0 <= k < |assessments| ==> assessments[k].0 != "synthesis")
             && AllCited(ClaimGroups(assessments), chunks) && AllCited(Synthesis(report.synthesisClaims), chunks)
             && base == Base(assessments, chunks, names)
    requires var joined := Extended(base, report.synthesisClaims, chunks);
             ReportSound(report, Dict(joined.claims), chunks, Some(joined.gapRecords))
             && ConsistentReport(Assembled(common, report, joined, chunks, sources, page))
    ensures var r := Assembled(common, report, Extended(base, report.synthesisClaims, chunks), chunks, sources, page);
            && r.document.Some? && r.document.value.report == report && r.common == common && StructureSound(r)
            && (InputsMatch(r, results, names) <==>
                  ExactCopies(report.synthesisClaims, ClaimGroups(AllAssessments(results)))
                  && Unnamed(results, report.synthesisClaims, names))
  {
    hide AllCited, EvidenceRecords, ClaimRecords, Dict, Distinct, Merge, ExactCopies, NamesNone, InputsMatch,
         ConsistentReport, StructureSound, ReportSound, Base, Synthesis;
    AcceptedExactly(common, results, chunks, sources, report, page, names);
    var r := Assembled(common, report, Extended(base, report.synthesisClaims, chunks), chunks, sources, page);
    StructureOnUsed(r, base.claims, chunks);
  }

  // ---------- Loose copies are not exact ones ----------

  function NormalReference(ref: Reference): Reference { ref.(quote := Normalized(ref.quote)) }

  function NormalClaim(c: Claim): Claim {
    c.(references := seq(|c.references|, j requires 0 <= j < |c.references| => NormalReference(c.references[j])))
  }

  function NormalClaims(claims: seq<Claim>): (cs: seq<Claim>)
    ensures |cs| == |claims| && forall i :: 0 <= i < |claims| ==> cs[i] == NormalClaim(claims[i])
  {
    seq(|claims|, i requires 0 <= i < |claims| => NormalClaim(claims[i]))
  }

  /** The draft with every synthesis quotation in its normal form. */
  function NormalDraft(draft: Report): Report { draft.(synthesisClaims := NormalClaims(draft.synthesisClaims)) }

  lemma {:induction false} NormalQuoted(ref: Reference, chunks: seq<Chunk>)
    ensures Quoted(NormalReference(ref), chunks) <==> Quoted(ref, chunks)
  {
    NormalizedIdempotent(ref.quote);
  }

  lemma {:induction false} NormalGrounded(c: Claim, chunks: seq<Chunk>)
    requires Grounded(c, chunks, None)
    ensures Grounded(NormalClaim(c), chunks, None)
  {
    hide Quoted, Blank, NormalReference;
    var now := NormalClaim(c);
    forall j | 0 <= j < |now.references| ensures Sound(now.references[j], chunks, None) {
      assert Sound(c.references[j], chunks, None);
      NormalQuoted(c.references[j], chunks);
    }
  }

  lemma {:induction false} NormalLoose(ref: Reference, claims: Named<ClaimRecord>)
    requires CopiedLoosely(ref, claims)
    ensures CopiedLoosely(NormalReference(ref), claims)
  {
    hide Normalized;
    NormalizedIdempotent(ref.quote);
    var k, j :| 0 <= k < |claims| && 0 <= j < |claims[k].1.claim.references|
                && claims[k].1.claim.references[j].chunkId == ref.chunkId
                && Normalized(claims[k].1.claim.references[j].quote) == Normalized(ref.quote);
  }

  /** Two registries that list the same claims, with the same perspectives, technologies and facets. */
  ghost predicate LookAlike(a: Claims, b: Claims) {
    a.Keys == b.Keys && forall id :: id in a ==>
      a[id].perspective == b[id].perspective && a[id].claim.technology == b[id].claim.technology
      && a[id].claim.facet == b[id].claim.facet
  }

  /** Without gaps, the structure of a report does not depend on the wording and the references of its claims. */
  lemma {:induction false} StructureLooksAlike(report: Report, synthesis: seq<Claim>, a: Claims, b: Claims,
          chunks: seq<Chunk>)
    requires LookAlike(a, b) && ReportSound(report, a, chunks, None) && AllGrounded(synthesis, chunks, None)
    ensures ReportSound(report.(synthesisClaims := synthesis), b, chunks, None)
  {
    hide AllGrounded, BodyIds, Titles, Distinct;
    SummaryAlike(report.summaryClaimIds, a, b);
    forall k | 0 <= k < |report.sections| ensures SectionSound(report.sections[k], b) && SectionPlaced(report.sections[k], b) {
      SectionAlike(report.sections[k], a, b);
    }
  }

  lemma {:induction false} SummaryAlike(ids: seq<string>, a: Claims, b: Claims)
    requires LookAlike(a, b) && SummarySound(ids, a)
    ensures SummarySound(ids, b)
  {
  }

  lemma {:induction false} SectionAlike(s: Section, a: Claims, b: Claims)
    requires LookAlike(a, b) && SectionSound(s, a) && SectionPlaced(s, a)
    ensures SectionSound(s, b) && SectionPlaced(s, b)
  {
    hide SectionFor;
    CoversAlike(s.claimIds, a, b, Kivi);
    CoversAlike(s.claimIds, a, b, InfiniGen);
    CoversAlike(s.claimIds, a, b, Both);
    FacetsAlike(s.claimIds, a, b, Kivi);
    FacetsAlike(s.claimIds, a, b, InfiniGen);
    hide Covers, HasCoreFacets;
  }

  lemma {:induction false} CoversAlike(ids: seq<string>, a: Claims, b: Claims, technology: Technology)
    requires LookAlike(a, b)
    ensures Covers(ids, a, technology) <==> Covers(ids, b, technology)
  {
  }

  lemma {:induction false} FacetsAlike(ids: seq<string>, a: Claims, b: Claims, technology: Technology)
    requires LookAlike(a, b)
    ensures HasCoreFacets(ids, a, technology) ==> HasCoreFacets(ids, b, technology)
  {
    if HasCoreFacets(ids, a, technology) {
      forall facet | StatesFacet(ids, a, technology, facet) ensures StatesFacet(ids, b, technology, facet) {
        var k :| 0 <= k < |ids| && ids[k] in a && a[ids[k]].claim.technology == technology && a[ids[k]].claim.facet == facet;
        assert ids[k] in b;
      }
      hide StatesFacet;
    }
  }

  lemma {:induction false} NormalLooksAlike(base: Claims, synthesis: seq<Claim>)
    ensures LookAlike(base + Dict(ClaimRecords(Synthesis(synthesis))), base + Dict(ClaimRecords(Synthesis(NormalClaims(synthesis)))))
  {
    hide NormalClaim, ClaimId, Dict;
    var was, now := RecordsOf("synthesis", synthesis), RecordsOf("synthesis", NormalClaims(synthesis));
    OneGroup(synthesis);
    OneGroup(NormalClaims(synthesis));
    hide ClaimRecords;
    forall k | 0 <= k < |was| ensures was[k].0 == now[k].0 && was[k].1.perspective == now[k].1.perspective
      && was[k].1.claim.technology == now[k].1.claim.technology && was[k].1.claim.facet == now[k].1.claim.facet {
      SameBut(synthesis[k]);
    }
    DictsAlike(was, now);
  }

  lemma {:induction false} SameBut(c: Claim)
    ensures NormalClaim(c).technology == c.technology && NormalClaim(c).facet == c.facet && NormalClaim(c).kind == c.kind
  {
  }

  lemma {:induction false} OneGroup(synthesis: seq<Claim>)
    ensures ClaimRecords(Synthesis(synthesis)) == RecordsOf("synthesis", synthesis)
  {
    hide RecordsOf;
    assert Synthesis(synthesis)[..0] == [];
  }

  lemma {:induction false} DictsAlike(a: Named<ClaimRecord>, b: Named<ClaimRecord>)
    requires |a| == |b| && forall k :: 0 <= k < |a| ==>
               a[k].0 == b[k].0 && a[k].1.perspective == b[k].1.perspective
               && a[k].1.claim.technology == b[k].1.claim.technology && a[k].1.claim.facet == b[k].1.claim.facet
    ensures LookAlike(Dict(a), Dict(b))
  {
    if a != [] {
      var n := |a| - 1;
      DictsAlike(a[..n], b[..n]);
    }
  }

  /** Putting the quotations of a sound draft in their normal form leaves it sound: the writer's own check cannot
      tell. The Supervisor's comparison can: it accepts the result exactly when every normal form is itself cited. */
  lemma {:induction false} NormalDraftPasses(draft: Report, base: Joined, chunks: seq<Chunk>, groups: Named<seq<Claim>>)
    requires DraftSound(draft, base, chunks)
    ensures DraftSound(NormalDraft(draft), base, chunks)
    ensures ExactCopies(NormalDraft(draft).synthesisClaims, groups) <==>
              forall i, j :: 0 <= i < |draft.synthesisClaims| && 0 <= j < |draft.synthesisClaims[i].references| ==>
                Cited(groups, NormalReference(draft.synthesisClaims[i].references[j]))
  {
    hide Grounded, CopiedLoosely, ReportSound, Cited, ClaimRecords, Dict;
    var was, now := draft.synthesisClaims, NormalClaims(draft.synthesisClaims);
    forall i | 0 <= i < |was|
      ensures Grounded(now[i], chunks, None) && now[i].kind == was[i].kind && |now[i].references| == |was[i].references|
      ensures forall j :: 0 <= j < |was[i].references| ==> now[i].references[j] == NormalReference(was[i].references[j])
    {
      NormalGrounded(was[i], chunks);
    }
    forall i, j | 0 <= i < |now| && 0 <= j < |now[i].references| ensures CopiedLoosely(now[i].references[j], base.claims) {
      assert CopiedLoosely(was[i].references[j], base.claims);
      NormalLoose(was[i].references[j], base.claims);
    }
    NormalLooksAlike(Dict(base.claims), was);
    NormalExact(was, groups);
    hide NormalClaims, NormalReference, ExactCopies;
    StructureLooksAlike(draft, now, Dict(base.claims) + Dict(ClaimRecords(Synthesis(was))),
                        Dict(base.claims) + Dict(ClaimRecords(Synthesis(now))), chunks);
  }

  lemma {:induction false} NormalExact(synthesis: seq<Claim>, groups: Named<seq<Claim>>)
    ensures ExactCopies(NormalClaims(synthesis), groups) <==>
              forall i, j :: 0 <= i < |synthesis| && 0 <= j < |synthesis[i].references| ==>
                Cited(groups, NormalReference(synthesis[i].references[j]))
  {
    hide Cited, NormalReference;
    var now := NormalClaims(synthesis);
    forall i | 0 <= i < |now| ensures now[i] == NormalClaim(synthesis[i]) {}
    if ExactCopies(now, groups) {
      forall i, j | 0 <= i < |synthesis| && 0 <= j < |synthesis[i].references|
        ensures Cited(groups, NormalReference(synthesis[i].references[j]))
      {
        assert Cited(groups, now[i].references[j]);
      }
    }
  }

  /** A synthesis claim that copies a reference in its normal form. */
  function Copying(ref: Reference): Claim {
    Claim(Both, "synthesis", "", TeamInference, [NormalReference(ref)], "scope", "")
  }

  lemma {:induction false} CopyGrounded(ref: Reference, chunks: seq<Chunk>)
    requires Quoted(ref, chunks)
    ensures Grounded(Copying(ref), chunks, None)
  {
    hide Normalized, Quoted;
    var copy := Copying(ref);
    NormalQuoted(ref, chunks);
    assert Sound(copy.references[0], chunks, None);
    assert !Blank(copy.caveats) by { assert copy.caveats[0] == 's' && !IsSpace('s'); }
  }

  /** A claim that copies a cited reference in its normal form passes the draft's reuse test, is grounded whenever the
      reference is, and is refused later exactly when that form is not itself cited. */
  lemma {:induction false} LooseButNotExact(groups: Named<seq<Claim>>, g: nat, i: nat, j: nat, chunks: seq<Chunk>)
    requires g < |groups| && i < |groups[g].1| && j < |groups[g].1[i].references|
    ensures var ref := groups[g].1[i].references[j];
            && (Quoted(ref, chunks) ==> Grounded(Copying(ref), chunks, None))
            && LooseCopies([Copying(ref)], ClaimRecords(groups))
            && (ExactCopies([Copying(ref)], groups) <==> Cited(groups, NormalReference(ref)))
  {
    hide Normalized, Cited, ClaimRecords, Quoted, Grounded;
    var ref := groups[g].1[i].references[j];
    if Quoted(ref, chunks) { CopyGrounded(ref, chunks); }
    NormalizedIdempotent(ref.quote);
    var k := RecordAt(groups, g, i);
    assert ClaimRecords(groups)[k].1.claim == groups[g].1[i];
    assert CopiedLoosely(Copying(ref).references[0], ClaimRecords(groups));
    assert [Copying(ref)][0].references[0] == NormalReference(ref);
  }

  predicate Inky(s: string) { forall k :: 0 <= k < |s| ==> !IsSpace(s[k]) }

  lemma {:induction false} TwoWords(x: string, y: string)
    requires x != [] && y != [] && Inky(x) && Inky(y)
    ensures Normalized(x + "  " + y) == x + " " + y
  {
    var s := x + " " + y;
    CollapseConcat(x + "  ", y, false);
    CollapseConcat(x, "  ", false);
    CollapseOfSingle(x);
    CollapseOfSingle(y);
    assert Collapse(y, true) == Collapse(y, false);
    assert EndsInSpace(x, false) == false && EndsInSpace(x + "  ", false);
    assert Collapse("  ", false) == " " by { assert "  "[1..] == " "; }
    assert Collapse(x + "  " + y, false) == s;
    assert s[0] == x[0] && s[|s| - 1] == y[|y| - 1];
    StripNoop(s);
  }

  const SPACED: string := "transposed" + "  " + "quantization"

  /** It does happen, to quotations the evidence check accepts: a source with two spaces, quoted as it stands, and a
      synthesis that copies the quotation with one. Both claims are grounded and the copy passes the draft's reuse test,
      but it is no exact copy. */
  lemma {:induction false} DoubleSpace(chunk: Chunk)
    requires chunk.text == SPACED
    ensures var ref := Reference(chunk.id, SPACED);
            var claim := Claim(Kivi, "costs", "t", SourceFact, [ref], "", "");
            var groups: Named<seq<Claim>> := [("market", [claim])];
            && Grounded(claim, [chunk], None) && Grounded(Copying(ref), [chunk], None)
            && LooseCopies([Copying(ref)], ClaimRecords(groups)) && !ExactCopies([Copying(ref)], groups)
  {
    hide Normalized, Quoted, ClaimRecords, LooseCopies, ExactCopies, SPACED, Copying;
    var ref := Reference(chunk.id, SPACED);
    var claim := Claim(Kivi, "costs", "t", SourceFact, [ref], "", "");
    var groups: Named<seq<Claim>> := [("market", [claim])];
    SpacedQuoted(chunk);
    assert Sound(claim.references[0], [chunk], None);
    assert groups[0].1[0].references[0] == ref;
    LooseButNotExact(groups, 0, 0, 0, [chunk]);
    assert !Cited(groups, NormalReference(ref));
  }

  lemma {:induction false} SpacedQuoted(chunk: Chunk)
    requires chunk.text == SPACED
    ensures Quoted(Reference(chunk.id, SPACED), [chunk]) && Normalized(SPACED) != SPACED
  {
    TwoWords("transposed", "quantization");
    assert [chunk][|[chunk]| - 1] == chunk;
    hide Normalized;
    var n := Normalized(SPACED);
    assert |n| == 23 && |SPACED| == 24;
    assert n[0..0 + |n|] == n;
    assert OccursAt(n, n, 0);
  }
}
