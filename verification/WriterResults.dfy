/** What the report of a writer holds, and when there is one (`write_report` in rag/writer.py). */
module WriterResults {
  import opened Schema
  import opened Orders
  import opened Texts
  import opened Evidence
  import opened Reports
  import opened Conflicts
  import opened Contracts
  import opened Messages
  import opened Writer
  import Render
  import RenderLines

  // ---------- The draft ----------

  /** The same chunk, and the same quotation up to white space, in a reference of a collected claim. */
  ghost predicate Repeats(ref: Reference, claims: Named<ClaimRecord>) {
    exists k, other :: 0 <= k < |claims| && other in claims[k].1.claim.references
                       && other.chunkId == ref.chunkId && Normalized(other.quote) == Normalized(ref.quote)
  }

  /** No message is due for the synthesis or for the structure; every synthesis claim is an inference that repeats
      collected references. */
  ghost predicate DraftHolds(draft: Report, base: Joined, chunks: seq<Chunk>) {
    && Faultless(draft.synthesisClaims, chunks, None, false)
    && (forall c :: c in draft.synthesisClaims ==> c.kind.TeamInference?)
    && (forall c, ref :: c in draft.synthesisClaims && ref in c.references ==> Repeats(ref, base.claims))
    && forall e :: !DraftLacks(e, draft, base, chunks)
  }

  /** A message is due for the draft, checked against the collected claims and its own synthesis. */
  ghost predicate DraftLacks(e: ReportError, draft: Report, base: Joined, chunks: seq<Chunk>) {
    Lacks(e, draft, Dict(base.claims) + Dict(ClaimRecords([("synthesis", draft.synthesisClaims)])), chunks, None)
  }

  lemma {:induction false} RepeatsMeans(ref: Reference, claims: Named<ClaimRecord>)
    ensures CopiedLoosely(ref, claims) <==> Repeats(ref, claims)
  {
    hide Normalized;
    if Repeats(ref, claims) {
      var k, other :| 0 <= k < |claims| && other in claims[k].1.claim.references
                      && other.chunkId == ref.chunkId && Normalized(other.quote) == Normalized(ref.quote);
      var j :| 0 <= j < |claims[k].1.claim.references| && claims[k].1.claim.references[j] == other;
    }
    if CopiedLoosely(ref, claims) {
      var k, j :| 0 <= k < |claims| && 0 <= j < |claims[k].1.claim.references|
                  && claims[k].1.claim.references[j].chunkId == ref.chunkId
                  && Normalized(claims[k].1.claim.references[j].quote) == Normalized(ref.quote);
      assert claims[k].1.claim.references[j] in claims[k].1.claim.references;
    }
  }

  lemma {:induction false} CopiesMeanRepeats(synthesis: seq<Claim>, claims: Named<ClaimRecord>)
    ensures LooseCopies(synthesis, claims) <==>
            forall c, ref :: c in synthesis && ref in c.references ==> Repeats(ref, claims)
  {
    hide CopiedLoosely, Repeats;
    forall ref ensures CopiedLoosely(ref, claims) <==> Repeats(ref, claims) { RepeatsMeans(ref, claims); }
    if LooseCopies(synthesis, claims) {
      forall c, ref | c in synthesis && ref in c.references ensures Repeats(ref, claims) {
        var i :| 0 <= i < |synthesis| && synthesis[i] == c;
        var j :| 0 <= j < |c.references| && c.references[j] == ref;
        assert CopiedLoosely(synthesis[i].references[j], claims);
      }
    }
    if forall c, ref :: c in synthesis && ref in c.references ==> Repeats(ref, claims) {
      forall i, j | 0 <= i < |synthesis| && 0 <= j < |synthesis[i].references|
        ensures CopiedLoosely(synthesis[i].references[j], claims)
      {
        assert synthesis[i] in synthesis && synthesis[i].references[j] in synthesis[i].references;
      }
    }
  }

  lemma {:induction false} InferredMeans(synthesis: seq<Claim>)
    ensures AllInferred(synthesis) <==> forall c :: c in synthesis ==> c.kind.TeamInference?
  {
    if forall c :: c in synthesis ==> c.kind.TeamInference? {
      forall i | 0 <= i < |synthesis| ensures synthesis[i].kind.TeamInference? { assert synthesis[i] in synthesis; }
    }
  }

  /** The check handed to the generator accepts exactly the drafts that hold. */
  lemma {:induction false} DraftMeans(draft: Report, base: Joined, chunks: seq<Chunk>)
    ensures DraftSound(draft, base, chunks) <==> DraftHolds(draft, base, chunks)
  {
    hide AllGrounded, Faultless, LooseCopies, AllInferred, Repeats, ReportSound, Lacks;
    FaultlessMeans(draft.synthesisClaims, chunks, None, false);
    InferredMeans(draft.synthesisClaims);
    CopiesMeanRepeats(draft.synthesisClaims, base.claims);
    var claims := Dict(base.claims) + Dict(ClaimRecords(Synthesis(draft.synthesisClaims)));
    ReportMeans(draft, claims, chunks, None);
    hide Dict, ClaimRecords;
    assert forall e :: DraftLacks(e, draft, base, chunks) <==> Lacks(e, draft, claims, chunks, None);
  }

  // ---------- The gap decisions ----------

  /** The `k`th five gaps. */
  ghost function Batch(gaps: seq<GapRecord>, k: nat): seq<GapRecord>
    requires 5 * k < |gaps|
  {
    if 5 * k + 5 <= |gaps| then gaps[5 * k..5 * k + 5] else gaps[5 * k..]
  }

  ghost predicate BatchDecided(gaps: seq<GapRecord>, k: nat, claims: Claims,
          decide: seq<GapRecord> -> Outcome<seq<GapDecision>>)
  {
    5 * k < |gaps| ==>
      && decide(Batch(gaps, k)).Done?
      && forall e :: !DecisionsLack(e, decide(Batch(gaps, k)).value, Batch(gaps, k), claims)
  }

  /** The replies to the batches from the `k`th on, in order. */
  ghost function Replies(gaps: seq<GapRecord>, k: nat,
          decide: seq<GapRecord> -> Outcome<seq<GapDecision>>): seq<GapDecision>
    decreases |gaps| - 5 * k
  {
    if 5 * k >= |gaps| then []
    else (match decide(Batch(gaps, k)) case Done(reply) => reply case Raised(_) => []) + Replies(gaps, k + 1, decide)
  }

  /** The review of the gaps succeeds exactly when every batch of five is decided and draws no message, and then joins
      the replies. */
  lemma {:induction false} GapsFromExactly(gaps: seq<GapRecord>, k: nat, claims: Claims,
          decide: seq<GapRecord> -> Outcome<seq<GapDecision>>)
    ensures GapsFrom(gaps, 5 * k, claims, decide).Done? <==> forall j: nat :: k <= j ==> BatchDecided(gaps, j, claims, decide)
    ensures GapsFrom(gaps, 5 * k, claims, decide).Done? ==>
              GapsFrom(gaps, 5 * k, claims, decide).value == Replies(gaps, k, decide)
    decreases |gaps| - 5 * k
  {
    hide DecisionsSound, DecisionsLack;
    if 5 * k < |gaps| {
      var next := NextBatch(gaps, 5 * k);
      assert gaps[5 * k..next] == Batch(gaps, k);
      var reply := decide(Batch(gaps, k));
      if reply.Done? { DecisionsMean(reply.value, Batch(gaps, k), claims); }
      GapsFromExactly(gaps, k + 1, claims, decide);
      if next == |gaps| { NoMoreGaps(gaps, 5 * (k + 1), next, claims, decide); }
      assert BatchDecided(gaps, k, claims, decide) <==> reply.Done? && DecisionsSound(reply.value, Batch(gaps, k), claims);
      assert (forall j: nat :: k <= j ==> BatchDecided(gaps, j, claims, decide)) <==>
             BatchDecided(gaps, k, claims, decide) && forall j: nat :: k + 1 <= j ==> BatchDecided(gaps, j, claims, decide);
    }
  }

  lemma {:induction false} NoMoreGaps(gaps: seq<GapRecord>, k: nat, l: nat, claims: Claims,
          decide: seq<GapRecord> -> Outcome<seq<GapDecision>>)
    requires k >= |gaps| && l >= |gaps|
    ensures GapsFrom(gaps, k, claims, decide) == GapsFrom(gaps, l, claims, decide)
  {
  }

  // ---------- The result ----------

  /** The joined data: what the results give, and the synthesis claims with their evidence. */
  ghost predicate JoinsAll(joined: Joined, assessments: Named<Assessment>, synthesis: seq<Claim>, chunks: seq<Chunk>,
          names: Naming)
    requires AllCited(ClaimGroups(assessments), chunks) && AllCited([("synthesis", synthesis)], chunks)
  {
    var claims := ClaimRecords(ClaimGroups(assessments));
    && joined.claims == claims + ClaimRecords([("synthesis", synthesis)])
    && joined.evidence == Dict(EvidenceRecords(ClaimGroups(assessments), chunks)) + Dict(EvidenceRecords([("synthesis", synthesis)], chunks))
    && joined.assessments == assessments && joined.conflicts == AllConflicts(assessments)
    && joined.gaps == AllGaps(assessments) && joined.gapRecords == GapRecords(assessments)
    && joined.conflictRecords == Built(assessments, claims, names)
  }

  /** A claim that the report uses rests on evidence from the chunk. */
  ghost predicate RestsOn(report: Report, joined: Joined, chunkId: string) {
    exists id, e :: RenderLines.Uses(report, id) && id in Dict(joined.claims) && e in Dict(joined.claims)[id].evidenceIds
                    && e in joined.evidence && joined.evidence[e].ref.chunkId == chunkId
  }

  ghost predicate DrawsOn(report: Report, joined: Joined, sourceId: string) {
    exists id, e :: RenderLines.Uses(report, id) && id in Dict(joined.claims) && e in Dict(joined.claims)[id].evidenceIds
                    && e in joined.evidence && joined.evidence[e].sourceId == sourceId
  }

  /** The result carries the rendered text, the chunks its claims rest on in the order of their ids, and their
      sources. */
  ghost predicate Carries(r: ReportResult, common: Common, report: Report, joined: Joined, m: Registries,
          text: seq<Render.Line> -> string)
  {
    && r.common == common && r.error.None?
    && r.document == Some(Document(text(Render.DocumentLines(report, joined, Render.InkOf(report, joined))), report, joined))
    && (forall c :: c in r.chunks <==> c in m.chunks && RestsOn(report, joined, c.id))
    && (forall i, j :: 0 <= i < j < |r.chunks| ==> Alphabetical(r.chunks[i].id, r.chunks[j].id))
    && (forall id, s :: Gives(r.sources, id, s) <==> Gives(m.sources, id, s) && DrawsOn(report, joined, id))
  }

  lemma {:induction false} AssembledCarries(common: Common, report: Report, joined: Joined, m: Registries,
          text: seq<Render.Line> -> string)
    requires Render.Complete(report, joined)
    ensures Carries(Assembled(common, report, joined, m.chunks, m.sources, PageOf(report, joined, text)), common, report,
                    joined, m, text)
  {
    var page := PageOf(report, joined, text);
    var ids := UsedChunkIds(joined, page.usedClaims);
    KeptInOrder(m.chunks, ids);
    hide Kept, Dict, Render.UsedClaims, Render.InkOf, Render.DocumentLines, Render.Complete, Alphabetical,
         RenderLines.Uses;
    forall id ensures id in page.usedClaims <==> RenderLines.Uses(report, id) { RenderLines.UsedMeans(report, id); }
    forall c ensures c in Kept(m.chunks, ids) <==> c in m.chunks && RestsOn(report, joined, c.id) {
      KeptMembers(m.chunks, ids, c);
    }
    forall id ensures id in page.usedSources <==> DrawsOn(report, joined, id) { DrawsMeans(report, joined, id); }
  }

  lemma {:induction false} DrawsMeans(report: Report, joined: Joined, id: string)
    ensures id in ToSet(Render.InkOf(report, joined).sources) <==> DrawsOn(report, joined, id)
  {
    hide Dict, Render.UsedClaims, Render.InkOf, Render.UsedEvidence, RenderLines.Uses;
    var claims := Dict(joined.claims);
    Render.SourceListed(report, joined, id);
    if id in Render.InkOf(report, joined).sources {
      var e :| e in Render.UsedEvidence(report, claims) && e in joined.evidence && joined.evidence[e].sourceId == id;
      RenderLines.EvidenceOfUsed(report, claims, e);
      var used :| used in Render.UsedClaims(report) && used in claims && e in claims[used].evidenceIds;
      RenderLines.UsedMeans(report, used);
    }
    if DrawsOn(report, joined, id) {
      var used, e :| RenderLines.Uses(report, used) && used in claims && e in claims[used].evidenceIds
                     && e in joined.evidence && joined.evidence[e].sourceId == id;
      RenderLines.UsedMeans(report, used);
      Render.EvidenceUsed(report, claims, used, e);
    }
  }

  /** The report keeps the draft; its decisions are those of the earlier report, or else the replies to all batches. */
  ghost predicate Completes(report: Report, draft: Report, previous: Option<ReportResult>, gaps: seq<GapRecord>,
          claims: Claims, decide: seq<GapRecord> -> Outcome<seq<GapDecision>>)
    requires previous.Some? ==> previous.value.document.Some?
  {
    && report.summaryClaimIds == draft.summaryClaimIds && report.sections == draft.sections
    && report.synthesisClaims == draft.synthesisClaims
    && match previous
       case Some(earlier) => report.gapDecisions == earlier.document.value.report.gapDecisions
       case None =>
         && (forall k: nat :: BatchDecided(gaps, k, claims, decide)) && report.gapDecisions == Replies(gaps, 0, decide)
  }

  /** No message is due for the report; its claims can be traced to known sources and rest on known chunks; the
      summary is short; and no message is due for the conflict records where they are stated. */
  ghost predicate Presentable(report: Report, joined: Joined, m: Registries, summaryLength: nat, names: Naming) {
    && (forall e :: !Lacks(e, report, Dict(joined.claims), m.chunks, Some(joined.gapRecords)))
    && (forall id :: RenderLines.Uses(report, id) ==> RenderLines.Traced(id, joined, m.sources.Keys))
    && summaryLength <= 1200
    && (RenderLines.HasLimits(report.sections) ==> forall e :: !RenderLines.ConflictDue(e, joined, names))
    && (forall id :: RestsOn(report, joined, id) ==> exists c :: c in m.chunks && c.id == id)
  }

  /** Everything before the contract of the result: the registries merge and are sound, every cited chunk is among them,
      the draft holds, and the completed report can be presented. */
  ghost predicate Prepared(report: Report, joined: Joined, m: Registries, results: seq<ResearchResult>,
          previous: Option<ReportResult>, draft: Outcome<Report>, decide: seq<GapRecord> -> Outcome<seq<GapDecision>>,
          summaryLength: (Report, Joined) -> nat, names: Naming)
    requires previous.Some? ==> previous.value.document.Some?
  {
    && Merge(results) == Done(m) && RegistryHolds(m.chunks, m.sources) && draft.Done?
    && AllCited(ClaimGroups(AllAssessments(results)), m.chunks)
    && AllCited([("synthesis", draft.value.synthesisClaims)], m.chunks)
    && JoinsAll(joined, AllAssessments(results), draft.value.synthesisClaims, m.chunks, names)
    && var base := Base(AllAssessments(results), m.chunks, names);
       && DraftHolds(draft.value, base, m.chunks)
       && Completes(report, draft.value, previous, base.gapRecords, Dict(base.claims), decide)
       && Presentable(report, joined, m, summaryLength(report, joined), names)
  }

  lemma {:induction false} JoinsMeans(joined: Joined, assessments: Named<Assessment>, synthesis: seq<Claim>,
          chunks: seq<Chunk>, names: Naming)
    requires AllCited(ClaimGroups(assessments), chunks) && AllCited(Synthesis(synthesis), chunks)
    ensures JoinsAll(joined, assessments, synthesis, chunks, names)
            <==> joined == Extended(Base(assessments, chunks, names), synthesis, chunks)
  {
    hide AllCited, Dict, ClaimRecords, EvidenceRecords, Built, AllConflicts, AllGaps, GapRecords, ClaimGroups;
  }

  lemma {:induction false} CompletesMeans(report: Report, draft: Report, previous: Option<ReportResult>,
          gaps: seq<GapRecord>, claims: Claims, decide: seq<GapRecord> -> Outcome<seq<GapDecision>>)
    requires previous.Some? ==> previous.value.document.Some?
    ensures var decisions := if previous.Some? then Done(previous.value.document.value.report.gapDecisions)
                             else GapsFrom(gaps, 0, claims, decide);
            Completes(report, draft, previous, gaps, claims, decide)
            <==> decisions.Done? && report == draft.(gapDecisions := decisions.value)
  {
    hide GapsFrom, BatchDecided, Replies;
    GapsFromExactly(gaps, 0, claims, decide);
    assert (forall k: nat :: BatchDecided(gaps, k, claims, decide)) <==> forall k: nat :: 0 <= k ==> BatchDecided(gaps, k, claims, decide);
  }

  lemma {:induction false} PresentableMeans(report: Report, joined: Joined, m: Registries, summaryLength: nat,
          names: Naming)
    ensures Presentable(report, joined, m, summaryLength, names) <==>
            && ReportSound(report, Dict(joined.claims), m.chunks, Some(joined.gapRecords))
            && Render.Renders(report, joined, m.sources.Keys, summaryLength, names)
            && UsedChunkIds(joined, Render.UsedClaims(report)) <= ToSet(ChunkIds(m.chunks))
  {
    hide Dict, Lacks, ReportSound, Render.Renders, Render.UsedClaims, RenderLines.Traced, RenderLines.ConflictDue,
         RenderLines.HasLimits, RenderLines.Uses;
    ReportMeans(report, Dict(joined.claims), m.chunks, Some(joined.gapRecords));
    RenderLines.RendersExactly(report, joined, m.sources.Keys, summaryLength, names);
    RestsMeans(report, joined, m.chunks);
  }

  lemma {:induction false} RestsMeans(report: Report, joined: Joined, chunks: seq<Chunk>)
    ensures UsedChunkIds(joined, Render.UsedClaims(report)) <= ToSet(ChunkIds(chunks))
            <==> forall id :: RestsOn(report, joined, id) ==> exists c :: c in chunks && c.id == id
  {
    hide Dict, Render.UsedClaims, RenderLines.Uses;
    forall id ensures id in Render.UsedClaims(report) <==> RenderLines.Uses(report, id) { RenderLines.UsedMeans(report, id); }
    forall id ensures id in UsedChunkIds(joined, Render.UsedClaims(report)) <==> RestsOn(report, joined, id) {}
    forall id ensures id in ToSet(ChunkIds(chunks)) <==> exists c :: c in chunks && c.id == id { ChunkIdIn(chunks, id); }
  }

  lemma {:induction false} ChunkIdIn(chunks: seq<Chunk>, id: string)
    ensures id in ToSet(ChunkIds(chunks)) <==> exists c :: c in chunks && c.id == id
  {
    var ids := ChunkIds(chunks);
    if id in ids {
      var k :| 0 <= k < |ids| && ids[k] == id;
      assert chunks[k] in chunks;
    }
    if c :| c in chunks && c.id == id {
      var k :| 0 <= k < |chunks| && chunks[k] == c;
      assert ids[k] == id;
    }
  }

  /** A written report was prepared in every respect, carries what it must, and meets its contract. */
  lemma {:induction false} WrittenHolds(common: Common, results: seq<ResearchResult>, previous: Option<ReportResult>,
          draft: Outcome<Report>, decide: seq<GapRecord> -> Outcome<seq<GapDecision>>, text: seq<Render.Line> -> string,
          summaryLength: (Report, Joined) -> nat, names: Naming)
    returns (report: Report, joined: Joined, m: Registries)
    requires previous.Some? ==> previous.value.document.Some?
    requires Finished(common, results, previous, draft, decide, text, summaryLength, names).Some?
    ensures Prepared(report, joined, m, results, previous, draft, decide, summaryLength, names)
    ensures var r := Finished(common, results, previous, draft, decide, text, summaryLength, names).value;
            Carries(r, common, report, joined, m, text) && AcceptedReport(r)
  {
    hide AllCited, Dict, ClaimRecords, EvidenceRecords, Merge, RegistrySound, RegistryHolds, DraftSound, DraftHolds,
         GapsFrom, Base, Extended, JoinsAll, ReportSound, Render.Renders, Render.UsedClaims, UsedChunkIds, Assembled,
         ConsistentReport, AcceptedReport, Carries, Presentable, Completes, ClaimGroups, AllAssessments, PageOf;
    m := Merge(results).value;
    var assessments, synthesis := AllAssessments(results), draft.value.synthesisClaims;
    var base := Base(assessments, m.chunks, names);
    var decisions := if previous.Some? then Done(previous.value.document.value.report.gapDecisions)
                     else GapsFrom(base.gapRecords, 0, Dict(base.claims), decide);
    report, joined := draft.value.(gapDecisions := decisions.value), Extended(base, synthesis, m.chunks);
    RegistryMeans(m.chunks, m.sources);
    JoinsMeans(joined, assessments, synthesis, m.chunks, names);
    DraftMeans(draft.value, base, m.chunks);
    CompletesMeans(report, draft.value, previous, base.gapRecords, Dict(base.claims), decide);
    PresentableMeans(report, joined, m, summaryLength(report, joined), names);
    ReportAccepted(Finished(common, results, previous, draft, decide, text, summaryLength, names).value);
    RendersComplete(report, joined, m.sources.Keys, summaryLength(report, joined), names);
    AssembledCarries(common, report, joined, m, text);
  }

  lemma {:induction false} RendersComplete(report: Report, joined: Joined, sources: set<string>, n: nat, names: Naming)
    requires Render.Renders(report, joined, sources, n, names)
    ensures Render.Complete(report, joined)
  {
  }

  /** When everything is prepared and still nothing is written, what would be carried does not meet its contract. */
  lemma {:induction false} NothingWritten(common: Common, results: seq<ResearchResult>, previous: Option<ReportResult>,
          draft: Outcome<Report>, decide: seq<GapRecord> -> Outcome<seq<GapDecision>>, text: seq<Render.Line> -> string,
          summaryLength: (Report, Joined) -> nat, names: Naming, report: Report, joined: Joined, m: Registries)
    returns (r: ReportResult)
    requires previous.Some? ==> previous.value.document.Some?
    requires Prepared(report, joined, m, results, previous, draft, decide, summaryLength, names)
    requires Finished(common, results, previous, draft, decide, text, summaryLength, names).None?
    ensures Carries(r, common, report, joined, m, text) && !AcceptedReport(r)
  {
    hide AllCited, Dict, ClaimRecords, EvidenceRecords, Merge, RegistrySound, RegistryHolds, DraftSound, DraftHolds,
         GapsFrom, Base, Extended, JoinsAll, ReportSound, Render.Renders, Render.UsedClaims, UsedChunkIds, Assembled,
         ConsistentReport, AcceptedReport, Carries, Presentable, Completes, ClaimGroups, AllAssessments, PageOf;
    var assessments, synthesis := AllAssessments(results), draft.value.synthesisClaims;
    var base := Base(assessments, m.chunks, names);
    r := Assembled(common, report, joined, m.chunks, m.sources, PageOf(report, joined, text));
    RegistryMeans(m.chunks, m.sources);
    JoinsMeans(joined, assessments, synthesis, m.chunks, names);
    DraftMeans(draft.value, base, m.chunks);
    CompletesMeans(report, draft.value, previous, base.gapRecords, Dict(base.claims), decide);
    PresentableMeans(report, joined, m, summaryLength(report, joined), names);
    ReportAccepted(r);
    RendersComplete(report, joined, m.sources.Keys, summaryLength(report, joined), names);
    AssembledCarries(common, report, joined, m, text);
  }
}
