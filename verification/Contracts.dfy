/** The messages between roles, what makes them consistent (agents/contracts.py), and the
    Supervisor's recomputation of a report's inputs (agents/supervisor.py). */
module Contracts {
  import opened Schema
  import opened Texts
  import opened Ids
  import opened Evidence
  import opened Reports
  import opened Conflicts

  datatype Role = Supervisor | Research | Market | Stakeholder | Domain | Writer | Evaluator | Publisher

  const VIEWS := [Research, Market, Stakeholder, Domain]

  predicate IsView(r: Role) { r.Research? || r.Market? || r.Stakeholder? || r.Domain? }

  function RoleName(r: Role): string {
    match r
    case Supervisor => "supervisor"
    case Research => "research"
    case Market => "market"
    case Stakeholder => "stakeholder"
    case Domain => "domain"
    case Writer => "writer"
    case Evaluator => "evaluator"
    case Publisher => "publish"
  }

  lemma {:induction false} RoleNameInjective(r: Role, s: Role)
    requires RoleName(r) == RoleName(s)
    ensures r == s
  {
    assert "supervisor"[1] == 'u' && "stakeholder"[1] == 't';
    assert "research"[0] == 'r' && "market"[0] == 'm' && "domain"[0] == 'd' && "writer"[0] == 'w'
        && "evaluator"[0] == 'e' && "publish"[0] == 'p' && "supervisor"[0] == 's' && "stakeholder"[0] == 's';
  }

  datatype RunContext = RunContext(domain: string, scenario: string)

  /** The five fields every message repeats. */
  datatype Common = Common(version: string, runId: string, requestId: string, attempt: nat, context: RunContext)

  datatype Status = Ok | Partial | Failed

  datatype ResearchResult = ResearchResult(
    common: Common, view: Role, status: Status, assessments: Named<Assessment>,
    chunks: seq<Chunk>, sources: map<string, Source>, error: Option<ErrorCode>)

  datatype Joined = Joined(
    claims: Named<ClaimRecord>, evidence: map<string, EvidenceRecord>, assessments: Named<Assessment>,
    conflicts: seq<string>, gaps: seq<string>, gapRecords: seq<GapRecord>, conflictRecords: seq<ConflictRecord>)

  datatype Document = Document(markdown: string, report: Report, joined: Joined)

  /** A successful report carries all document forms, a failed one none of them. */
  datatype ReportResult = ReportResult(
    common: Common, document: Option<Document>, chunks: seq<Chunk>, sources: map<string, Source>,
    error: Option<ErrorCode>)

  datatype Criterion = Groundedness | Neutrality | BiasControl | Coverage

  datatype Check = Check(passed: bool, claimIds: seq<string>, gapIds: seq<string>)

  datatype RepairRequest = RepairRequest(target: Role, reason: string, claimIds: seq<string>, gapIds: seq<string>)

  datatype EvaluationResult = EvaluationResult(
    common: Common, reportRequestId: string, passed: bool, checks: map<Criterion, Check>,
    repairs: seq<RepairRequest>, error: Option<ErrorCode>)

  /** A file reference; the digest is injective, so it is modelled by the content it was taken from. */
  datatype FileRef = FileRef(path: string, digest: string)

  datatype Publication = Publication(markdown: FileRef, pdf: FileRef, pages: nat)

  datatype PublishResult = PublishResult(common: Common, files: Option<Publication>, error: Option<ErrorCode>)

  datatype Action = Go(role: Role) | Stop

  datatype Decision = Decision(
    common: Common, action: Action, sufficient: bool, reason: string, feedback: seq<string>)

  // ---------- Registries ----------

  /** `evidence_registry`: no id with two contents, every source known and of the kind its location needs. */
  predicate RegistrySound(chunks: seq<Chunk>, sources: map<string, Source>) {
    && (forall i, j :: 0 <= i < |chunks| && 0 <= j < |chunks| && chunks[i].id == chunks[j].id ==> chunks[i] == chunks[j])
    && (forall i :: 0 <= i < |chunks| ==> Sourced(chunks[i], sources))
  }

  predicate Sourced(c: Chunk, sources: map<string, Source>) {
    c.sourceId in sources && (sources[c.sourceId].kind.PaperPool? <==> c.page.Some?)
  }

  /** `merge_registry` over the chunks: one list without repeated ids, or a conflict. */
  function MergeChunks(merged: seq<Chunk>, more: seq<Chunk>): Outcome<seq<Chunk>>
    decreases |more|
  {
    if more == [] then Done(merged)
    else
      var seen := Lookup(merged, more[0].id);
      if seen.None? then MergeChunks(merged + [more[0]], more[1..])
      else if seen.value == more[0] then MergeChunks(merged, more[1..])
      else Raised(ArtifactMismatch)
  }

  function MergeSources(merged: map<string, Source>, more: map<string, Source>): Outcome<map<string, Source>> {
    if exists id | id in more :: id in merged && merged[id] != more[id] then Raised(ArtifactMismatch)
    else Done(merged + more)
  }

  datatype Registries = Registries(chunks: seq<Chunk>, sources: map<string, Source>)

  /** Both registries merged over a list of results, in order. */
  function Merge(results: seq<ResearchResult>): Outcome<Registries> {
    if results == [] then Done(Registries([], map[]))
    else
      var n := |results| - 1;
      var head := Merge(results[..n]);
      if head.Raised? then head
      else
        var chunks := MergeChunks(head.value.chunks, results[n].chunks);
        var sources := MergeSources(head.value.sources, results[n].sources);
        if chunks.Raised? then Raised(chunks.code)
        else if sources.Raised? then Raised(sources.code)
        else Done(Registries(chunks.value, sources.value))
  }

  /** The loops of `merge_registry` for one more result. */
  method MergeResult(registries: Registries, result: ResearchResult) returns (r: Outcome<Registries>)
    ensures r == (var chunks := MergeChunks(registries.chunks, result.chunks);
                  var sources := MergeSources(registries.sources, result.sources);
                  if chunks.Raised? then Raised(chunks.code)
                  else if sources.Raised? then Raised(sources.code)
                  else Done(Registries(chunks.value, sources.value)))
  {
    var merged := registries.chunks;
    for k := 0 to |result.chunks|
      invariant MergeChunks(merged, result.chunks[k..]) == MergeChunks(registries.chunks, result.chunks)
    {
      var c := result.chunks[k];
      assert result.chunks[k..][1..] == result.chunks[k + 1..];
      var seen := Lookup(merged, c.id);
      if seen.None? {
        merged := merged + [c];
      } else if seen.value != c {
        return Raised(ArtifactMismatch);
      }
    }
    var sources := MergeSources(registries.sources, result.sources);
    r := if sources.Raised? then Raised(sources.code) else Done(Registries(merged, sources.value));
  }

  lemma {:induction false} MergeChunkCodes(merged: seq<Chunk>, more: seq<Chunk>)
    ensures MergeChunks(merged, more).Raised? ==> MergeChunks(merged, more).code == ArtifactMismatch
    decreases |more|
  {
    if more != [] {
      MergeChunkCodes(merged + [more[0]], more[1..]);
      MergeChunkCodes(merged, more[1..]);
    }
  }

  lemma {:induction false} MergeCodes(results: seq<ResearchResult>)
    ensures Merge(results).Raised? ==> Merge(results).code == ArtifactMismatch
  {
    if results != [] {
      var n := |results| - 1;
      MergeCodes(results[..n]);
      if Merge(results[..n]).Done? { MergeChunkCodes(Merge(results[..n]).value.chunks, results[n].chunks); }
    }
  }

  lemma {:induction false} MergePrefix(results: seq<ResearchResult>, k: nat)
    requires k <= |results| && Merge(results[..k]).Raised?
    ensures Merge(results).Raised?
  {
    hide MergeChunks, MergeSources;
    var n := |results| - 1;
    if k == |results| {
      assert results[..k] == results;
    } else {
      assert results[..n][..k] == results[..k];
      MergePrefix(results[..n], k);
    }
  }

  lemma {:induction false} LookupSnoc(chunks: seq<Chunk>, c: Chunk, id: string)
    ensures Lookup(chunks + [c], id) == if c.id == id then Some(c) else Lookup(chunks, id)
  {
    assert (chunks + [c])[..|chunks|] == chunks;
  }

  /** A merged registry resolves every id of either part to the same chunk as before. */
  lemma {:induction false} MergeChunksKeeps(merged: seq<Chunk>, more: seq<Chunk>)
    requires MergeChunks(merged, more).Done?
    ensures forall id :: Lookup(merged, id).Some? ==> Lookup(MergeChunks(merged, more).value, id) == Lookup(merged, id)
    ensures forall k :: 0 <= k < |more| ==> Lookup(MergeChunks(merged, more).value, more[k].id) == Some(more[k])
    decreases |more|
  {
    if more != [] {
      var seen := Lookup(merged, more[0].id);
      var next := if seen.None? then merged + [more[0]] else merged;
      if seen.None? {
        forall id ensures Lookup(next, id) == if more[0].id == id then Some(more[0]) else Lookup(merged, id) {
          LookupSnoc(merged, more[0], id);
        }
      }
      MergeChunksKeeps(next, more[1..]);
      forall k | 0 <= k < |more| ensures Lookup(MergeChunks(merged, more).value, more[k].id) == Some(more[k]) {
        if k > 0 { assert more[k] == more[1..][k - 1]; }
      }
    }
  }

  // ---------- Consistent messages ----------

  function AssessmentNames(view: Role): seq<string> {
    if view.Research? then ["research_kivi", "research_infinigen"] else [RoleName(view)]
  }

  predicate Explained(a: Assessment) {
    a.status.Insufficient? ==> exists k :: 0 <= k < |a.gaps| && !Blank(a.gaps[k])
  }

  predicate Assessed(r: ResearchResult, name: string, a: Assessment) {
    if r.view.Research? then
      AllGrounded(a.claims, r.chunks, Some(if name == "research_kivi" then Kivi else InfiniGen))
      && (r.status.Ok? ==> CoreComplete(a.claims))
    else
      AllGrounded(a.claims, r.chunks, None)
      && (r.status.Ok? ==> Balanced(a.claims, RoleName(r.view)))
  }

  /** `ResearchResult.consistent_result`. */
  predicate ConsistentResearch(r: ResearchResult) {
    if r.status.Failed? then
      r.error.Some? && r.assessments == [] && r.chunks == [] && r.sources == map[]
    else
      && r.error.None?
      && Distinct(Keys(r.assessments)) && ToSet(Keys(r.assessments)) == ToSet(AssessmentNames(r.view))
      && (r.status.Partial? <==> exists k :: 0 <= k < |r.assessments| && r.assessments[k].1.status.Insufficient?)
      && (forall k :: 0 <= k < |r.assessments| ==> Explained(r.assessments[k].1))
      && RegistrySound(r.chunks, r.sources)
      && (forall k :: 0 <= k < |r.assessments| ==> Assessed(r, r.assessments[k].0, r.assessments[k].1))
  }

  predicate EvidenceResolves(e: EvidenceRecord, chunks: seq<Chunk>) {
    var c := Lookup(chunks, e.ref.chunkId);
    c.Some? && c.value.sourceId == e.sourceId
  }

  predicate RecordConsistent(id: string, r: ClaimRecord, d: Document, chunks: seq<Chunk>) {
    && r.id == id && Grounded(r.claim, chunks, None)
    && forall k :: 0 <= k < |r.evidenceIds| ==>
         r.evidenceIds[k] in d.joined.evidence && d.joined.evidence[r.evidenceIds[k]].id == r.evidenceIds[k]
  }

  /** `ReportResult.consistent_result`. */
  predicate ConsistentReport(r: ReportResult) {
    if r.document.None? then r.error.Some? && r.chunks == [] && r.sources == map[]
    else
      var d := r.document.value;
      && |d.report.synthesisClaims| == 2
      && (forall k :: 0 <= k < 2 ==> d.report.synthesisClaims[k].kind.TeamInference?)
      && r.error.None? && Distinct(Keys(d.joined.claims)) && Distinct(Keys(d.joined.assessments))
      && RegistrySound(r.chunks, r.sources)
      && (forall k :: 0 <= k < |d.joined.claims| ==>
            RecordConsistent(d.joined.claims[k].0, d.joined.claims[k].1, d, r.chunks))
      && (forall id :: id in d.joined.evidence ==> EvidenceResolves(d.joined.evidence[id], r.chunks))
  }

  /** The structural check of a report against its own claims, chunks and gaps. */
  predicate StructureSound(r: ReportResult) {
    r.document.Some? &&
    var d := r.document.value;
    ReportSound(d.report, Dict(d.joined.claims), r.chunks, Some(d.joined.gapRecords))
  }

  /** `EvaluationResult.consistent_result`. */
  predicate ConsistentEvaluation(e: EvaluationResult) {
    if e.error.Some? then !e.passed && e.checks == map[] && e.repairs == []
    else
      && e.checks.Keys == {Groundedness, Neutrality, BiasControl, Coverage}
      && (e.passed <==> forall c :: c in e.checks ==> e.checks[c].passed)
      && (e.passed <==> e.repairs == [])
      && (forall k :: 0 <= k < |e.repairs| ==>
            (IsView(e.repairs[k].target) || e.repairs[k].target.Writer?) && !Blank(e.repairs[k].reason))
  }

  /** The Supervisor's membership check: the verdict names only claims and gaps of the report. */
  predicate KnownIds(claimIds: seq<string>, gapIds: seq<string>, d: Document) {
    (forall k :: 0 <= k < |claimIds| ==> claimIds[k] in Dict(d.joined.claims))
    && (forall k :: 0 <= k < |gapIds| ==> gapIds[k] in GapIds(d.joined.gapRecords))
  }

  predicate VerdictKnown(e: EvaluationResult, d: Document) {
    && (forall c :: c in e.checks ==> KnownIds(e.checks[c].claimIds, e.checks[c].gapIds, d))
    && (forall k :: 0 <= k < |e.repairs| ==> KnownIds(e.repairs[k].claimIds, e.repairs[k].gapIds, d))
  }

  /** `PublishResult.consistent_result`. */
  predicate ConsistentPublication(p: PublishResult) {
    (p.files.Some? <==> p.error.None?) && (p.files.Some? ==> 1 <= p.files.value.pages <= 10)
  }

  predicate ConsistentDecision(d: Decision) {
    !Blank(d.reason) && (forall k :: 0 <= k < |d.feedback| ==> !Blank(d.feedback[k]))
    && (d.action.Go? ==> d.action.role != Supervisor)
  }

  // ---------- The inputs of a report, recomputed ----------

  function AllAssessments(results: seq<ResearchResult>): Named<Assessment> {
    if results == [] then []
    else AllAssessments(results[..|results| - 1]) + results[|results| - 1].assessments
  }

  function ClaimGroups(assessments: Named<Assessment>): (groups: Named<seq<Claim>>)
    ensures |groups| == |assessments|
  {
    seq(|assessments|, k requires 0 <= k < |assessments| => (assessments[k].0, assessments[k].1.claims))
  }

  function WithSynthesis(assessments: Named<Assessment>, synthesis: seq<Claim>): Named<seq<Claim>> {
    ClaimGroups(assessments) + [("synthesis", synthesis)]
  }

  function AllGaps(assessments: Named<Assessment>): seq<string> {
    if assessments == [] then []
    else AllGaps(assessments[..|assessments| - 1]) + assessments[|assessments| - 1].1.gaps
  }

  function AllConflicts(assessments: Named<Assessment>): seq<string> {
    if assessments == [] then []
    else AllConflicts(assessments[..|assessments| - 1]) + assessments[|assessments| - 1].1.conflicts
  }

  function GapsOf(name: string, gaps: seq<string>): (rs: seq<GapRecord>)
    ensures |rs| == |gaps|
  {
    seq(|gaps|, i requires 0 <= i < |gaps| => GapRecord(GapId(name, i + 1), name, gaps[i]))
  }

  function GapRecords(assessments: Named<Assessment>): seq<GapRecord> {
    if assessments == [] then []
    else GapRecords(assessments[..|assessments| - 1])
         + GapsOf(assessments[|assessments| - 1].0, assessments[|assessments| - 1].1.gaps)
  }

  predicate Cited(groups: Named<seq<Claim>>, ref: Reference) {
    exists g, i, j :: 0 <= g < |groups| && 0 <= i < |groups[g].1| && 0 <= j < |groups[g].1[i].references|
      && groups[g].1[i].references[j] == ref
  }

  /** Every reference of the synthesis claims is an exact copy of an assessed one. */
  predicate ExactCopies(synthesis: seq<Claim>, groups: Named<seq<Claim>>) {
    forall i, j :: 0 <= i < |synthesis| && 0 <= j < |synthesis[i].references| ==>
      Cited(groups, synthesis[i].references[j])
  }

  predicate SameRegistries(r: ReportResult, registries: Registries) {
    && (forall k :: 0 <= k < |r.chunks| ==> Lookup(registries.chunks, r.chunks[k].id) == Some(r.chunks[k]))
    && (forall id :: id in r.sources ==> id in registries.sources && registries.sources[id] == r.sources[id])
  }

  /** `_check_report_inputs`: the report's joined data is what the current results give. */
  predicate InputsMatch(r: ReportResult, results: seq<ResearchResult>, names: Naming) {
    var registries := Merge(results);
    r.document.Some? && registries.Done? &&
    var d := r.document.value;
    var assessments := AllAssessments(results);
    var groups := WithSynthesis(assessments, d.report.synthesisClaims);
    && Dict(d.joined.assessments) == Dict(assessments)
    && SameRegistries(r, registries.value)
    && ExactCopies(d.report.synthesisClaims, ClaimGroups(assessments))
    && AllCited(groups, registries.value.chunks)
    && Dict(d.joined.claims) == Dict(ClaimRecords(groups))
    && d.joined.evidence == Dict(EvidenceRecords(groups, registries.value.chunks))
    && d.joined.gaps == AllGaps(assessments) && d.joined.conflicts == AllConflicts(assessments)
    && d.joined.gapRecords == GapRecords(assessments)
    && RecordsSound(d.joined.conflictRecords, Built(assessments, ClaimRecords(groups), names), Dict(ClaimRecords(groups)))
  }

  /** The assessments that conflict records are checked against: a run saved without any keeps its conflict texts. */
  function ConflictBasis(joined: Joined): Named<Assessment> {
    if joined.assessments == [] then [("legacy", Assessment(Sufficient, [], joined.conflicts, []))] else joined.assessments
  }

  /** The check of `conflicts_for_joined`, against the claims as the joined data lists them. */
  predicate ConflictsHold(joined: Joined, names: Naming) {
    RecordsSound(joined.conflictRecords, Built(ConflictBasis(joined), joined.claims, names), Dict(joined.claims))
  }

  function ChunkIds(chunks: seq<Chunk>): (ids: seq<string>)
    ensures |ids| == |chunks|
  {
    seq(|chunks|, k requires 0 <= k < |chunks| => chunks[k].id)
  }

  lemma {:induction false} DistinctSnoc(chunks: seq<Chunk>, c: Chunk)
    requires Distinct(ChunkIds(chunks)) && Lookup(chunks, c.id).None?
    ensures Distinct(ChunkIds(chunks + [c]))
    ensures forall id :: Lookup(chunks + [c], id) == if c.id == id then Some(c) else Lookup(chunks, id)
  {
    LookupKnown(chunks, c.id);
    assert (chunks + [c])[..|chunks|] == chunks;
    assert ChunkIds(chunks + [c]) == ChunkIds(chunks) + [c.id];
    assert forall k :: 0 <= k < |chunks| ==> chunks[k] in chunks && ChunkIds(chunks)[k] == chunks[k].id;
  }

  /** A merged registry repeats no id. */
  lemma {:induction false} MergeChunksDistinct(merged: seq<Chunk>, more: seq<Chunk>)
    requires MergeChunks(merged, more).Done? && Distinct(ChunkIds(merged))
    ensures Distinct(ChunkIds(MergeChunks(merged, more).value))
    decreases |more|
  {
    hide Distinct;
    if more != [] {
      if Lookup(merged, more[0].id).None? {
        DistinctSnoc(merged, more[0]);
        MergeChunksDistinct(merged + [more[0]], more[1..]);
      } else {
        MergeChunksDistinct(merged, more[1..]);
      }
    }
  }

  lemma {:induction false} MergeDistinct(results: seq<ResearchResult>)
    requires Merge(results).Done?
    ensures Distinct(ChunkIds(Merge(results).value.chunks))
  {
    if results != [] {
      hide MergeChunks, MergeSources;
      var n := |results| - 1;
      MergeDistinct(results[..n]);
      MergeChunksDistinct(Merge(results[..n]).value.chunks, results[n].chunks);
    }
  }

  lemma {:induction false} OnlyOfItsId(chunks: seq<Chunk>, i: nat)
    requires i < |chunks| && Distinct(ChunkIds(chunks))
    ensures Lookup(chunks, chunks[i].id) == Some(chunks[i])
  {
    var n := |chunks| - 1;
    if i < n {
      assert ChunkIds(chunks)[i] != ChunkIds(chunks)[n];
      assert ChunkIds(chunks[..n]) == ChunkIds(chunks)[..n];
      OnlyOfItsId(chunks[..n], i);
    }
  }

  lemma {:induction false} RegistryEmpty(sources: map<string, Source>)
    ensures RegistrySound([], sources)
  {
  }

  lemma {:induction false} RegistrySnoc(chunks: seq<Chunk>, c: Chunk, sources: map<string, Source>)
    requires RegistrySound(chunks, sources)
    ensures RegistrySound(chunks + [c], sources) <==>
              Lookup(chunks, c.id) in {None, Some(c)} && Sourced(c, sources)
    ensures forall id :: Lookup(chunks + [c], id) == if c.id == id then Some(c) else Lookup(chunks, id)
  {
    var more := chunks + [c];
    LookupKnown(chunks, c.id);
    assert more[..|chunks|] == chunks && more[|chunks|] == c;
    if RegistrySound(more, sources) {
      assert Sourced(more[|chunks|], sources);
      if Lookup(chunks, c.id).Some? {
        var i :| 0 <= i < |chunks| && chunks[i] == Lookup(chunks, c.id).value;
        assert more[i].id == more[|chunks|].id;
      }
    }
    if Lookup(chunks, c.id) in {None, Some(c)} && Sourced(c, sources) {
      forall i | 0 <= i < |chunks| && chunks[i].id == c.id ensures chunks[i] == c {
        assert chunks[i] in chunks;
        var j :| 0 <= j < |chunks| && chunks[j] == Lookup(chunks, c.id).value;
      }
      forall i, j | 0 <= i < |more| && 0 <= j < |more| && more[i].id == more[j].id ensures more[i] == more[j] {
      }
    }
  }

  lemma {:induction false} RegistryPrefix(chunks: seq<Chunk>, k: nat, sources: map<string, Source>)
    requires k <= |chunks| && RegistrySound(chunks, sources)
    ensures RegistrySound(chunks[..k], sources)
  {
  }

  lemma {:induction false} FirstOfItsId(chunks: seq<Chunk>, k: nat)
    requires k < |chunks| && Distinct(ChunkIds(chunks))
    ensures Lookup(chunks[..k], chunks[k].id).None?
  {
    LookupKnown(chunks[..k], chunks[k].id);
    forall c | c in chunks[..k] ensures c.id != chunks[k].id {
      var i :| 0 <= i < k && chunks[i] == c;
      assert ChunkIds(chunks)[i] != ChunkIds(chunks)[k];
    }
  }

  method EvidenceRegistry(chunks: seq<Chunk>, sources: map<string, Source>) returns (r: Outcome<seq<Chunk>>)
    ensures r.Done? <==> RegistrySound(chunks, sources)
    ensures r.Done? ==> Distinct(ChunkIds(r.value)) && forall id :: Lookup(r.value, id) == Lookup(chunks, id)
    ensures r.Done? && Distinct(ChunkIds(chunks)) ==> r.value == chunks
  {
    hide RegistrySound, Lookup, Sourced;
    var known: seq<Chunk> := [];
    RegistryEmpty(sources);
    for k := 0 to |chunks|
      invariant RegistrySound(chunks[..k], sources) && Distinct(ChunkIds(known))
      invariant forall id :: Lookup(known, id) == Lookup(chunks[..k], id)
      invariant Distinct(ChunkIds(chunks)) ==> known == chunks[..k]
    {
      var c := chunks[k];
      if Distinct(ChunkIds(chunks)) { FirstOfItsId(chunks, k); }
      var seen := Lookup(known, c.id);
      assert chunks[..k + 1] == chunks[..k] + [c];
      RegistrySnoc(chunks[..k], c, sources);
      if (seen.Some? && seen.value != c) || !Sourced(c, sources) {
        if RegistrySound(chunks, sources) {
          RegistryPrefix(chunks, k + 1, sources);
        }
        return Raised(InvalidResponse);
      }
      if seen.None? {
        DistinctSnoc(known, c);
        known := known + [c];
      }
    }
    assert chunks[..|chunks|] == chunks;
    return Done(known);
  }
}
