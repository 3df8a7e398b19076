/** Rewriting a report: the gap decisions of the previous report stay valid under any new synthesis
    (agents/supervisor.py, rag/writer.py). */
module RunRewrite {
  import opened Schema
  import opened Ids
  import opened Evidence
  import opened Reports
  import opened Conflicts
  import opened Contracts
  import opened Writer
  import opened RunMachine
  import opened RunInvariant
  import opened RunSafety
  import opened RunRequests

  // ---------- Registries as sets of facts ----------

  ghost predicate ClaimAt(groups: Named<seq<Claim>>, id: string, record: ClaimRecord) {
    exists g, i :: 0 <= g < |groups| && 0 <= i < |groups[g].1|
      && id == ClaimId(groups[g].0, i + 1) && record == RecordOf(groups[g].0, i, groups[g].1[i])
  }

  lemma {:induction false} RegistryFacts(groups: Named<seq<Claim>>, id: string, record: ClaimRecord)
    requires Distinct(Keys(groups))
    ensures id in Dict(ClaimRecords(groups)) && Dict(ClaimRecords(groups))[id] == record <==> ClaimAt(groups, id, record)
  {
    hide ClaimId, RecordOf, ClaimRecords, Dict, Distinct;
    var rs := ClaimRecords(groups);
    ClaimIdsDistinct(groups);
    DictFaithful(rs);
    if id in Dict(rs) && Dict(rs)[id] == record {
      DictKeys(rs, id);
      var k :| 0 <= k < |rs| && rs[k].0 == id;
      var g, i := RecordOrigin(groups, k);
    }
    if ClaimAt(groups, id, record) {
      var g, i :| 0 <= g < |groups| && 0 <= i < |groups[g].1|
        && id == ClaimId(groups[g].0, i + 1) && record == RecordOf(groups[g].0, i, groups[g].1[i]);
      var k := RecordAt(groups, g, i);
    }
  }

  /** Both lists hold the same assessments under the same names. */
  ghost predicate SameAssessments(a: Named<Assessment>, b: Named<Assessment>) {
    forall entry :: entry in a <==> entry in b
  }

  lemma {:induction false} ClaimMoves(a: Named<Assessment>, b: Named<Assessment>, id: string, record: ClaimRecord)
    requires SameAssessments(a, b) && ClaimAt(ClaimGroups(a), id, record)
    ensures ClaimAt(ClaimGroups(b), id, record)
  {
    hide ClaimId, RecordOf;
    var g, i :| 0 <= g < |a| && 0 <= i < |ClaimGroups(a)[g].1|
      && id == ClaimId(a[g].0, i + 1) && record == RecordOf(a[g].0, i, ClaimGroups(a)[g].1[i]);
    assert a[g] in b;
    var h :| 0 <= h < |b| && b[h] == a[g];
    assert ClaimGroups(b)[h].1[i] == ClaimGroups(a)[g].1[i];
  }

  lemma {:induction false} SameClaims(a: Named<Assessment>, b: Named<Assessment>)
    requires SameAssessments(a, b) && Distinct(Keys(a)) && Distinct(Keys(b))
    ensures Dict(ClaimRecords(ClaimGroups(a))) == Dict(ClaimRecords(ClaimGroups(b)))
  {
    hide ClaimAt, ClaimRecords, Dict, Distinct, SameAssessments;
    assert Keys(ClaimGroups(a)) == Keys(a) && Keys(ClaimGroups(b)) == Keys(b);
    var c, d := Dict(ClaimRecords(ClaimGroups(a))), Dict(ClaimRecords(ClaimGroups(b)));
    forall id | id in c ensures id in d && d[id] == c[id] {
      RegistryFacts(ClaimGroups(a), id, c[id]);
      ClaimMoves(a, b, id, c[id]);
      RegistryFacts(ClaimGroups(b), id, c[id]);
    }
    forall id | id in d ensures id in c {
      RegistryFacts(ClaimGroups(b), id, d[id]);
      assert SameAssessments(b, a) by { SameBack(a, b); }
      ClaimMoves(b, a, id, d[id]);
      RegistryFacts(ClaimGroups(a), id, d[id]);
    }
  }

  lemma {:induction false} SameBack(a: Named<Assessment>, b: Named<Assessment>)
    requires SameAssessments(a, b)
    ensures SameAssessments(b, a)
  {
  }

  lemma {:induction false} GapAt(assessments: Named<Assessment>, a: nat, i: nat)
    requires a < |assessments| && i < |assessments[a].1.gaps|
    ensures GapId(assessments[a].0, i + 1) in ToSet(GapIds(GapRecords(assessments)))
  {
    hide GapId;
    var n := |assessments| - 1;
    var head, tail := GapRecords(assessments[..n]), GapsOf(assessments[n].0, assessments[n].1.gaps);
    assert GapIds(head + tail) == GapIds(head) + GapIds(tail);
    if a < n {
      GapAt(assessments[..n], a, i);
      ToSetConcat(GapIds(head), GapIds(tail));
    } else {
      assert GapIds(tail)[i] == GapId(assessments[a].0, i + 1);
      ToSetConcat(GapIds(head), GapIds(tail));
    }
  }

  lemma {:induction false} SameGapIds(a: Named<Assessment>, b: Named<Assessment>)
    requires SameAssessments(a, b)
    ensures ToSet(GapIds(GapRecords(a))) == ToSet(GapIds(GapRecords(b)))
  {
    SameBack(a, b);
    GapIdsMove(a, b);
    GapIdsMove(b, a);
  }

  lemma {:induction false} GapIdsMove(a: Named<Assessment>, b: Named<Assessment>)
    requires SameAssessments(a, b)
    ensures ToSet(GapIds(GapRecords(a))) <= ToSet(GapIds(GapRecords(b)))
  {
    hide GapId, GapRecords;
    forall id | id in ToSet(GapIds(GapRecords(a))) ensures id in ToSet(GapIds(GapRecords(b))) {
      var k :| 0 <= k < |GapIds(GapRecords(a))| && GapIds(GapRecords(a))[k] == id;
      var x, i := GapOrigin(a, k);
      assert a[x] in b;
      var y :| 0 <= y < |b| && b[y] == a[x];
      GapAt(b, y, i);
    }
  }

  // ---------- Decisions outlive the synthesis ----------

  /** A claim of the assessments is the same claim whatever synthesis is added. */
  lemma {:induction false} AssessmentClaimSame(a: Named<Assessment>, synthesis: seq<Claim>, id: string)
    requires Distinct(Keys(a)) && forall k :: 0 <= k < |a| ==> a[k].0 != "synthesis"
    ensures var all, base := Dict(ClaimRecords(WithSynthesis(a, synthesis))), Dict(ClaimRecords(ClaimGroups(a)));
            && (AssessmentClaim(all, id) <==> id in base)
            && (id in base ==> id in all && all[id] == base[id])
  {
    hide ClaimRecords, Dict, Distinct;
    var base, added := ClaimRecords(ClaimGroups(a)), ClaimRecords(Synthesis(synthesis));
    ClaimsAppend(ClaimGroups(a), Synthesis(synthesis));
    assert Distinct(Keys(base + added)) by { NamesOf(a, synthesis); }
    DictGrows(base, added);
    PerspectivesApart(a, synthesis, id);
  }

  lemma {:induction false} NamesOf(a: Named<Assessment>, synthesis: seq<Claim>)
    requires Distinct(Keys(a)) && forall k :: 0 <= k < |a| ==> a[k].0 != "synthesis"
    ensures Distinct(Keys(ClaimRecords(ClaimGroups(a)) + ClaimRecords(Synthesis(synthesis))))
  {
    hide ClaimRecords, Distinct;
    ClaimsAppend(ClaimGroups(a), Synthesis(synthesis));
    assert Keys(ClaimGroups(a)) == Keys(a);
    OneName(synthesis);
    KeysConcat(ClaimGroups(a), Synthesis(synthesis));
    ClaimIdsDistinct(ClaimGroups(a) + Synthesis(synthesis));
  }

  lemma {:induction false} PerspectivesApart(a: Named<Assessment>, synthesis: seq<Claim>, id: string)
    requires Distinct(Keys(a)) && forall k :: 0 <= k < |a| ==> a[k].0 != "synthesis"
    ensures var base, added := Dict(ClaimRecords(ClaimGroups(a))), Dict(ClaimRecords(Synthesis(synthesis)));
            && (id in base ==> base[id].perspective != "synthesis")
            && (id in added ==> added[id].perspective == "synthesis")
  {
    hide ClaimRecords, Dict, Distinct;
    var base, added := Dict(ClaimRecords(ClaimGroups(a))), Dict(ClaimRecords(Synthesis(synthesis)));
    assert Keys(ClaimGroups(a)) == Keys(a);
    OneName(synthesis);
    if id in base { RegistryFacts(ClaimGroups(a), id, base[id]); }
    if id in added { RegistryFacts(Synthesis(synthesis), id, added[id]); }
  }

  lemma {:induction false} DecisionMoves(d: GapDecision, a: Named<Assessment>, b: Named<Assessment>, was: seq<Claim>,
          now: seq<Claim>)
    requires SameAssessments(a, b) && Distinct(Keys(a)) && Distinct(Keys(b))
    requires (forall k :: 0 <= k < |a| ==> a[k].0 != "synthesis") && (forall k :: 0 <= k < |b| ==> b[k].0 != "synthesis")
    requires DecisionSound(d, Dict(ClaimRecords(WithSynthesis(a, was))))
    ensures DecisionSound(d, Dict(ClaimRecords(WithSynthesis(b, now))))
  {
    hide ClaimRecords, Dict, Distinct, SameAssessments, WithSynthesis;
    SameClaims(a, b);
    forall k | 0 <= k < |d.claimIds|
      ensures AssessmentClaim(Dict(ClaimRecords(WithSynthesis(b, now))), d.claimIds[k])
      ensures KnownEvidence(Dict(ClaimRecords(WithSynthesis(a, was))), d.claimIds[k]) ==>
                KnownEvidence(Dict(ClaimRecords(WithSynthesis(b, now))), d.claimIds[k])
    {
      AssessmentClaimSame(a, was, d.claimIds[k]);
      AssessmentClaimSame(b, now, d.claimIds[k]);
    }
  }

  /** Decisions that were sound for a report stay a bijection with the gaps and stay sound when the same
      assessments, in any order, get a new synthesis. */
  lemma {:induction false} DecisionsReusable(decisions: seq<GapDecision>, a: Named<Assessment>, b: Named<Assessment>,
          was: seq<Claim>, now: seq<Claim>)
    requires SameAssessments(a, b) && Distinct(Keys(a)) && Distinct(Keys(b))
    requires (forall k :: 0 <= k < |a| ==> a[k].0 != "synthesis") && (forall k :: 0 <= k < |b| ==> b[k].0 != "synthesis")
    requires DecisionsSound(decisions, GapRecords(a), Dict(ClaimRecords(WithSynthesis(a, was))))
    ensures DecisionsSound(decisions, GapRecords(b), Dict(ClaimRecords(WithSynthesis(b, now))))
  {
    hide ClaimRecords, Dict, Distinct, SameAssessments, WithSynthesis, DecisionSound, GapRecords;
    SameGapIds(a, b);
    forall k | 0 <= k < |decisions| ensures DecisionSound(decisions[k], Dict(ClaimRecords(WithSynthesis(b, now)))) {
      DecisionMoves(decisions[k], a, b, was, now);
    }
  }

  // ---------- In a run ----------

  lemma {:induction false} AssessmentIn(rs: seq<ResearchResult>, entry: (string, Assessment))
    ensures entry in AllAssessments(rs) <==> exists k :: 0 <= k < |rs| && entry in rs[k].assessments
  {
    if rs != [] {
      var n := |rs| - 1;
      AssessmentIn(rs[..n], entry);
      assert forall k :: 0 <= k < n ==> rs[..n][k] == rs[k];
    }
  }

  lemma {:induction false} OrdersAgree(results: map<Role, Ref>, p: seq<Role>, ps: seq<ResearchResult>, q: seq<Role>,
          qs: seq<ResearchResult>)
    requires Enumerates(p, results.Keys) && Gathers(results, p, ps) && Enumerates(q, results.Keys) && Gathers(results, q, qs)
    ensures SameAssessments(AllAssessments(ps), AllAssessments(qs))
  {
    forall entry | entry in AllAssessments(ps) ensures entry in AllAssessments(qs) {
      Carries(results, p, ps, q, qs, entry);
    }
    forall entry | entry in AllAssessments(qs) ensures entry in AllAssessments(ps) {
      Carries(results, q, qs, p, ps, entry);
    }
  }

  lemma {:induction false} Carries(results: map<Role, Ref>, p: seq<Role>, ps: seq<ResearchResult>, q: seq<Role>,
          qs: seq<ResearchResult>, entry: (string, Assessment))
    requires Enumerates(p, results.Keys) && Gathers(results, p, ps) && Enumerates(q, results.Keys) && Gathers(results, q, qs)
    requires entry in AllAssessments(ps)
    ensures entry in AllAssessments(qs)
  {
    hide ResearchOf, AllAssessments, Distinct;
    AssessmentIn(ps, entry);
    var k :| 0 <= k < |ps| && entry in ps[k].assessments;
    assert p[k] in ToSet(p);
    assert p[k] in ToSet(q);
    var l :| 0 <= l < |q| && q[l] == p[k];
    assert qs[l] == ps[k];
    AssessmentIn(qs, entry);
  }

  lemma {:induction false} InputsOf(cfg: Config, disk: Disk, s: State, order: seq<Role>, rs: seq<ResearchResult>)
    requires ResultsOk(cfg, disk, s) && (forall v :: IsView(v) ==> OkResult(s.results, v))
    requires Enumerates(order, s.results.Keys) && Gathers(s.results, order, rs)
    ensures WriteInputs(order, rs)
  {
    hide ConsistentResearch, ResultsOk, Distinct, CommonFor;
    forall v ensures v in s.results.Keys <==> v in ToSet(VIEWS) {
      assert v in VIEWS <==> IsView(v);
      if v in s.results { StoredResult(cfg, disk, s, v); }
      if IsView(v) { assert OkResult(s.results, v); }
    }
    forall k | 0 <= k < |order| ensures rs[k].view == order[k] && ConsistentResearch(rs[k]) && rs[k].status.Ok? {
      assert order[k] in ToSet(order);
      StoredResult(cfg, disk, s, order[k]);
      assert OkResult(s.results, order[k]);
    }
  }

  lemma {:induction false} MatchedParts(names: Naming, r: ReportResult, rs: seq<ResearchResult>)
    requires InputsMatch(r, rs, names)
    ensures r.document.Some? && r.document.value.joined.gapRecords == GapRecords(AllAssessments(rs))
    ensures Dict(r.document.value.joined.claims)
            == Dict(ClaimRecords(WithSynthesis(AllAssessments(rs), r.document.value.report.synthesisClaims)))
  {
    hide SameRegistries, ExactCopies, AllCited, RecordsSound, Dict, AllAssessments, Merge, ClaimRecords, WithSynthesis;
  }

  /** In every run, when a rewrite is asked for, the decisions of the previous report that were sound for it
      are a sound bijection for the rewrite, whatever its new synthesis claims are. */
  lemma {:induction false} RewriteKeepsDecisions(cfg: Config, es: seq<Event>, synthesis: seq<Claim>)
    requires var m := Steps(cfg, EMPTY, es);
             && m.proc.Awaiting? && m.proc.request.WriteRequest? && m.proc.request.previousReport.Some?
             && var d := m.proc.request.previousReport.value.document;
                d.Some? && DecisionsSound(d.value.report.gapDecisions, d.value.joined.gapRecords, Dict(d.value.joined.claims))
    ensures var request := Steps(cfg, EMPTY, es).proc.request;
            var assessments := AllAssessments(request.results);
            DecisionsSound(request.previousReport.value.document.value.report.gapDecisions, GapRecords(assessments),
                           Dict(ClaimRecords(WithSynthesis(assessments, synthesis))))
  {
    RewriteSeesSameResults(cfg, es);
    Reachable(cfg, es);
    var m := Steps(cfg, EMPTY, es);
    hide Steps, DecisionsSound;
    AwaitedCall(cfg, m);
    AwaitedContent(cfg, m);
    Reuses(cfg, m.disk, m.proc.state, m.proc.request.results, m.proc.request.previousReport.value, synthesis);
  }

  lemma {:induction false} AwaitedContent(cfg: Config, m: Machine)
    requires Inv(cfg, m) && m.proc.Awaiting?
    ensures ResultsOk(cfg, m.disk, m.proc.state)
  {
    AwaitedCall(cfg, m);
    hide Inv, ResultsOk, Lineage, ReportOk, VerdictOk, RepairOk, PublicationOk, CompletedOk, CallCounts, Due, Bounds,
         Fresh, Mark, Asked, RequestOf;
  }

  lemma {:induction false} Reuses(cfg: Config, disk: Disk, s: State, rs: seq<ResearchResult>, previous: ReportResult,
          synthesis: seq<Claim>)
    requires ResultsOk(cfg, disk, s) && Current(cfg.names, s.results, previous)
    requires exists order :: Enumerates(order, s.results.Keys) && Gathers(s.results, order, rs)
    requires previous.document.Some? && var d := previous.document.value;
             DecisionsSound(d.report.gapDecisions, d.joined.gapRecords, Dict(d.joined.claims))
    ensures DecisionsSound(previous.document.value.report.gapDecisions, GapRecords(AllAssessments(rs)),
                           Dict(ClaimRecords(WithSynthesis(AllAssessments(rs), synthesis))))
  {
    hide ResultsOk, DecisionsSound, Dict, ClaimRecords, WithSynthesis, InputsMatch, Enumerates, Gathers, GapRecords,
         OkResult, WriteInputs, SameAssessments, Distinct, AllAssessments;
    var order :| Enumerates(order, s.results.Keys) && Gathers(s.results, order, rs);
    var p, ps :| MatchesIn(cfg.names, s.results, previous, p, ps);
    MatchedParts(cfg.names, previous, ps);
    OrdersAgree(s.results, p, ps, order, rs);
    InputsOf(cfg, disk, s, order, rs);
    InputsOf(cfg, disk, s, p, ps);
    InputNames(order, rs);
    InputNames(p, ps);
    DecisionsReusable(previous.document.value.report.gapDecisions, AllAssessments(ps), AllAssessments(rs),
                      previous.document.value.report.synthesisClaims, synthesis);
  }
}
