/** The Supervisor's recomputation of a report's inputs, loop by loop (agents/supervisor.py). */
module ReportInputs {
  import opened Schema
  import opened Ids
  import opened Evidence
  import opened Reports
  import opened Conflicts
  import opened Contracts

  /** `merge_registry`, over all the results. */
  method MergeAll(results: seq<ResearchResult>) returns (r: Outcome<Registries>)
    ensures r == Merge(results)
  {
    hide MergeChunks, MergeSources;
    var merged := Registries([], map[]);
    MergeCodes(results);
    for k := 0 to |results|
      invariant Merge(results[..k]) == Done(merged)
    {
      var more := MergeResult(merged, results[k]);
      assert results[..k + 1][..k] == results[..k];
      if more.Raised? {
        MergePrefix(results, k + 1);
        return Raised(ArtifactMismatch);
      }
      merged := more.value;
    }
    assert results[..|results|] == results;
    r := Done(merged);
  }

  /** No chunk and no source of the report is new or changed. */
  method KnownRegistries(r: ReportResult, registries: Registries) returns (ok: bool)
    ensures ok <==> SameRegistries(r, registries)
  {
    for k := 0 to |r.chunks|
      invariant forall i :: 0 <= i < k ==> Lookup(registries.chunks, r.chunks[i].id) == Some(r.chunks[i])
    {
      if Lookup(registries.chunks, r.chunks[k].id) != Some(r.chunks[k]) {
        return false;
      }
    }
    var left := r.sources.Keys;
    while left != {}
      invariant left <= r.sources.Keys
      invariant forall id :: id in r.sources && id !in left ==>
                  id in registries.sources && registries.sources[id] == r.sources[id]
      decreases |left|
    {
      var id :| id in left;
      if id !in registries.sources || registries.sources[id] != r.sources[id] {
        return false;
      }
      left := left - {id};
    }
    ok := true;
  }

  lemma {:induction false} CitedSnoc(groups: Named<seq<Claim>>, k: nat, ref: Reference)
    requires k < |groups|
    ensures Cited(groups[..k + 1], ref) <==> Cited(groups[..k], ref) || Quoting(groups[k].1, ref)
  {
    assert forall g :: 0 <= g < k ==> groups[..k + 1][g] == groups[..k][g];
  }

  /** Some of the claims refers to exactly this. */
  predicate Quoting(claims: seq<Claim>, ref: Reference) { exists i :: 0 <= i < |claims| && ref in claims[i].references }

  /** Every reference of the assessed claims. */
  method CitedReferences(groups: Named<seq<Claim>>) returns (refs: set<Reference>)
    ensures forall ref :: ref in refs <==> Cited(groups, ref)
  {
    refs := {};
    for g := 0 to |groups|
      invariant forall ref :: ref in refs <==> Cited(groups[..g], ref)
    {
      var claims := groups[g].1;
      ghost var before := refs;
      for i := 0 to |claims|
        invariant forall ref :: ref in refs <==> ref in before || exists k :: 0 <= k < i && ref in claims[k].references
      {
        refs := refs + set ref | ref in claims[i].references;
      }
      forall ref ensures Cited(groups[..g + 1], ref) <==> ref in refs {
        CitedSnoc(groups, g, ref);
      }
    }
    assert groups[..|groups|] == groups;
  }

  /** No synthesis claim refers to anything else. */
  method CopiesOnly(synthesis: seq<Claim>, groups: Named<seq<Claim>>) returns (ok: bool)
    ensures ok <==> ExactCopies(synthesis, groups)
  {
    hide Cited;
    var known := CitedReferences(groups);
    for i := 0 to |synthesis|
      invariant forall k, j :: 0 <= k < i && 0 <= j < |synthesis[k].references| ==> Cited(groups, synthesis[k].references[j])
    {
      for j := 0 to |synthesis[i].references|
        invariant forall l :: 0 <= l < j ==> Cited(groups, synthesis[i].references[l])
      {
        if synthesis[i].references[j] !in known {
          return false;
        }
      }
    }
    ok := true;
  }

  /** The lists that the joined data repeats from the assessments. */
  method Repeated(assessments: Named<Assessment>)
    returns (gaps: seq<string>, conflicts: seq<string>, records: seq<GapRecord>)
    ensures gaps == AllGaps(assessments) && conflicts == AllConflicts(assessments) && records == GapRecords(assessments)
  {
    gaps, conflicts, records := [], [], [];
    for k := 0 to |assessments|
      invariant gaps == AllGaps(assessments[..k]) && conflicts == AllConflicts(assessments[..k])
      invariant records == GapRecords(assessments[..k])
    {
      var (name, a) := assessments[k];
      assert assessments[..k + 1][..k] == assessments[..k];
      gaps, conflicts := gaps + a.gaps, conflicts + a.conflicts;
      var own: seq<GapRecord> := [];
      for i := 0 to |a.gaps|
        invariant own == GapsOf(name, a.gaps)[..i]
      {
        own := own + [GapRecord(GapId(name, i + 1), name, a.gaps[i])];
      }
      records := records + own;
    }
    assert assessments[..|assessments|] == assessments;
  }

  /** `_check_report_inputs`: it raises exactly when the report is not what the current results give. */
  method CheckReportInputs(r: ReportResult, results: seq<ResearchResult>, names: Naming) returns (ok: Outcome<()>)
    requires r.document.Some?
    ensures ok.Done? <==> InputsMatch(r, results, names)
    ensures ok.Raised? ==> ok.code == if Merge(results).Raised? then ArtifactMismatch else InvalidResponse
  {
    hide Merge, SameRegistries, ExactCopies, AllCited, ClaimRecords, EvidenceRecords, AllGaps, AllConflicts, GapRecords,
         RecordsSound, Built, Dict;
    var d := r.document.value;
    var assessments: Named<Assessment> := [];
    for k := 0 to |results|
      invariant assessments == AllAssessments(results[..k])
    {
      assert results[..k + 1][..k] == results[..k];
      assessments := assessments + results[k].assessments;
    }
    assert results[..|results|] == results;
    MergeCodes(results);
    var registries := MergeAll(results);
    if registries.Raised? {
      return Raised(registries.code);
    }
    if Dict(d.joined.assessments) != Dict(assessments) {
      return Raised(InvalidResponse);
    }
    var known := KnownRegistries(r, registries.value);
    var copied := CopiesOnly(d.report.synthesisClaims, ClaimGroups(assessments));
    if !known || !copied {
      return Raised(InvalidResponse);
    }
    var groups := WithSynthesis(assessments, d.report.synthesisClaims);
    var expected := CollectEvidence(groups, registries.value.chunks);
    if expected.Raised? || Dict(d.joined.claims) != expected.value.0 || d.joined.evidence != expected.value.1 {
      return Raised(InvalidResponse);
    }
    var gaps, conflicts, records := Repeated(assessments);
    if d.joined.gaps != gaps || d.joined.conflicts != conflicts || d.joined.gapRecords != records {
      return Raised(InvalidResponse);
    }
    var errors := ConflictRecordErrors(d.joined.conflictRecords, ClaimRecords(groups), assessments, names);
    ok := if errors == [] then Done(()) else Raised(InvalidResponse);
  }
}
