/** Reassessing missing facets in parallel units and merging them back (rag/reassessment.py). */
module Reassessment {
  import opened Schema
  import opened Evidence
  import opened Structured

  type Run = string -> Outcome<Assessment>

  /** The two claims of one facet, one for each technology. */
  predicate OnePerTechnology(claims: seq<Claim>, facet: string) {
    |claims| == 2 && ToSet(PairsIn(claims)) == {(Kivi, facet), (InfiniGen, facet)}
  }

  function OfFacet(claims: seq<Claim>, facet: string): seq<Claim> {
    if claims == [] then []
    else
      var c := claims[|claims| - 1];
      OfFacet(claims[..|claims| - 1], facet) + (if c.facet == facet then [c] else [])
  }

  predicate Askable(missing: seq<string>, name: string) {
    1 <= |missing| <= 3 && Distinct(missing) && ToSet(missing) <= ToSet(PerspectiveFacets(name))
  }

  /** A unit's result: grounded, and exactly the two claims that were asked for; anything else is an error. */
  function UnitResult(run: Run, facet: string, chunks: seq<Chunk>): Outcome<Assessment> {
    var a := run(facet);
    if a.Raised? then a
    else if AllGrounded(a.value.claims, chunks, None) && OnePerTechnology(a.value.claims, facet) then a
    else Raised(InvalidResponse)
  }

  // ---------- The merged assessment, stated without any order of completion ----------

  /** The first failure in the order of the missing facets. */
  function FirstFailure(missing: seq<string>, run: Run, chunks: seq<Chunk>): Option<ErrorCode> {
    if missing == [] then None
    else
      var head := FirstFailure(missing[..|missing| - 1], run, chunks);
      var last := UnitResult(run, missing[|missing| - 1], chunks);
      if head.Some? then head else if last.Raised? then Some(last.code) else None
  }

  /** The claims of the completed units, in the order of the missing facets. */
  function NewClaims(missing: seq<string>, run: Run): seq<Claim> {
    if missing == [] then []
    else
      var last := run(missing[|missing| - 1]);
      NewClaims(missing[..|missing| - 1], run) + (if last.Done? then last.value.claims else [])
  }

  function NewConflicts(missing: seq<string>, run: Run): seq<string> {
    if missing == [] then []
    else
      var last := run(missing[|missing| - 1]);
      NewConflicts(missing[..|missing| - 1], run) + (if last.Done? then last.value.conflicts else [])
  }

  function NewGaps(missing: seq<string>, run: Run): seq<string> {
    if missing == [] then []
    else
      var last := run(missing[|missing| - 1]);
      NewGaps(missing[..|missing| - 1], run) + (if last.Done? then last.value.gaps else [])
  }

  predicate SomeInsufficient(missing: seq<string>, run: Run) {
    exists k :: 0 <= k < |missing| && run(missing[k]).Done? && run(missing[k]).value.status.Insufficient?
  }

  function Replaced(originals: seq<Claim>, now: seq<Claim>): (r: seq<Claim>)
    ensures |r| == |originals|
  {
    seq(|originals|, k requires 0 <= k < |originals| =>
      var c := Current(now, PairOf(originals[k]));
      if c.Some? then c.value else originals[k])
  }

  predicate HasUnknown(claims: seq<Claim>) { exists k :: 0 <= k < |claims| && claims[k].kind.Unknown? }

  function MergedAssessment(original: Assessment, missing: seq<string>, run: Run): Assessment {
    var claims := Replaced(original.claims, NewClaims(missing, run));
    Assessment(if SomeInsufficient(missing, run) || HasUnknown(claims) then Insufficient else Sufficient, claims,
               Unique(original.conflicts + NewConflicts(missing, run)), Unique(original.gaps + NewGaps(missing, run)))
  }

  predicate Splittable(original: Assessment, missing: seq<string>) {
    forall k :: 0 <= k < |missing| ==> OnePerTechnology(OfFacet(original.claims, missing[k]), missing[k])
  }

  /** The outcome of the parallel part. */
  function Reassessed(original: Assessment, missing: seq<string>, run: Run, chunks: seq<Chunk>,
          check: Assessment -> bool): Outcome<Assessment> {
    var failure := FirstFailure(missing, run, chunks);
    if failure.Some? then Raised(failure.value)
    else if check(MergedAssessment(original, missing, run)) then Done(MergedAssessment(original, missing, run))
    else Raised(InvalidResponse)
  }

  // ---------- Carrying it out ----------

  datatype Step = Counted(facet: string) | Ran(facet: string)

  predicate CountsFirst(log: seq<Step>) { forall i, j :: 0 <= i < j < |log| && log[i].Ran? ==> !log[j].Counted? }

  /** Every facet is counted before any is generated. */
  method PlanFacets(original: Assessment, missing: seq<string>, preflight: string -> Outcome<()>)
    returns (r: Outcome<()>, log: seq<Step>)
    ensures forall k :: 0 <= k < |log| ==> log[k].Counted?
    ensures r.Done? <==> Splittable(original, missing) && forall k :: 0 <= k < |missing| ==> preflight(missing[k]).Done?
    ensures r.Done? ==> |log| == |missing| && forall k :: 0 <= k < |missing| ==> log[k] == Counted(missing[k])
  {
    hide OnePerTechnology, OfFacet;
    log := [];
    for k := 0 to |missing|
      invariant |log| == k && forall i :: 0 <= i < k ==> log[i] == Counted(missing[i])
      invariant forall i :: 0 <= i < k ==>
        OnePerTechnology(OfFacet(original.claims, missing[i]), missing[i]) && preflight(missing[i]).Done?
    {
      if !OnePerTechnology(OfFacet(original.claims, missing[k]), missing[k]) {
        return Raised(InvalidResponse), log;
      }
      var counted := preflight(missing[k]);
      log := log + [Counted(missing[k])];
      if counted.Raised? {
        return Raised(counted.code), log;
      }
    }
    r := Done(());
  }

  /** The results of the units as they finish, in any order. */
  method Collect(missing: seq<string>, order: seq<string>, run: Run, chunks: seq<Chunk>)
    returns (completed: map<string, Assessment>, failures: map<string, ErrorCode>, log: seq<Step>)
    requires multiset(order) == multiset(missing)
    ensures forall f :: f in completed <==> f in missing && UnitResult(run, f, chunks).Done?
    ensures forall f :: f in completed ==> UnitResult(run, f, chunks) == Done(completed[f])
    ensures forall f :: f in failures <==> f in missing && UnitResult(run, f, chunks).Raised?
    ensures forall f :: f in failures ==> UnitResult(run, f, chunks) == Raised(failures[f])
    ensures forall k :: 0 <= k < |log| ==> log[k].Ran?
  {
    hide UnitResult;
    completed, failures, log := map[], map[], [];
    for k := 0 to |order|
      invariant forall f :: f in completed <==> f in order[..k] && UnitResult(run, f, chunks).Done?
      invariant forall f :: f in completed ==> UnitResult(run, f, chunks) == Done(completed[f])
      invariant forall f :: f in failures <==> f in order[..k] && UnitResult(run, f, chunks).Raised?
      invariant forall f :: f in failures ==> UnitResult(run, f, chunks) == Raised(failures[f])
      invariant forall i :: 0 <= i < |log| ==> log[i].Ran?
    {
      var facet := order[k];
      assert order[..k + 1] == order[..k] + [facet];
      log := log + [Ran(facet)];
      var result := UnitResult(run, facet, chunks);
      if result.Done? {
        completed := completed[facet := result.value];
      } else {
        failures := failures[facet := result.code];
      }
    }
    assert order[..|order|] == order;
    SameMembers(order, missing);
  }

  lemma {:induction false} SameMembers(a: seq<string>, b: seq<string>)
    requires multiset(a) == multiset(b)
    ensures forall f :: f in a <==> f in b
  {
    forall f ensures f in a <==> f in b {
      assert f in a <==> f in multiset(a);
      assert f in b <==> f in multiset(b);
    }
  }

  lemma {:induction false} FirstFailureExact(missing: seq<string>, run: Run, chunks: seq<Chunk>)
    ensures FirstFailure(missing, run, chunks).None? <==> forall k :: 0 <= k < |missing| ==> UnitResult(run, missing[k], chunks).Done?
    ensures FirstFailure(missing, run, chunks).Some? ==>
              exists k :: 0 <= k < |missing| && UnitResult(run, missing[k], chunks) == Raised(FirstFailure(missing, run, chunks).value)
                && forall j :: 0 <= j < k ==> UnitResult(run, missing[j], chunks).Done?
  {
    if missing != [] {
      hide UnitResult;
      var n := |missing| - 1;
      FirstFailureExact(missing[..n], run, chunks);
      assert forall k :: 0 <= k < n ==> missing[..n][k] == missing[k];
      if FirstFailure(missing[..n], run, chunks).Some? {
        var k :| 0 <= k < n && UnitResult(run, missing[..n][k], chunks) == Raised(FirstFailure(missing[..n], run, chunks).value)
          && forall j :: 0 <= j < k ==> UnitResult(run, missing[..n][j], chunks).Done?;
        assert UnitResult(run, missing[k], chunks) == Raised(FirstFailure(missing, run, chunks).value);
      }
    }
  }

  /** The code of the first facet that failed. */
  method RaiseFirst(missing: seq<string>, failures: map<string, ErrorCode>, ghost run: Run, ghost chunks: seq<Chunk>)
    returns (code: Option<ErrorCode>)
    requires forall f :: f in failures <==> f in missing && UnitResult(run, f, chunks).Raised?
    requires forall f :: f in failures ==> UnitResult(run, f, chunks) == Raised(failures[f])
    ensures code == FirstFailure(missing, run, chunks)
  {
    hide UnitResult;
    code := None;
    for k := 0 to |missing|
      invariant code == None && FirstFailure(missing[..k], run, chunks) == None
    {
      assert missing[..k + 1][..k] == missing[..k];
      if missing[k] in failures {
        code := Some(failures[missing[k]]);
        FailureStays(missing, k + 1, run, chunks);
        return;
      }
    }
    assert missing[..|missing|] == missing;
  }

  lemma {:induction false} FailureStays(missing: seq<string>, k: nat, run: Run, chunks: seq<Chunk>)
    requires k <= |missing| && FirstFailure(missing[..k], run, chunks).Some?
    ensures FirstFailure(missing, run, chunks) == FirstFailure(missing[..k], run, chunks)
  {
    hide UnitResult;
    var n := |missing| - 1;
    if k == |missing| {
      assert missing[..k] == missing;
    } else {
      assert missing[..n][..k] == missing[..k];
      FailureStays(missing[..n], k, run, chunks);
    }
  }

  /** The results put back together in the order of the missing facets. */
  method MergeFacets(original: Assessment, missing: seq<string>, completed: map<string, Assessment>, ghost run: Run)
    returns (merged: Assessment)
    requires forall k :: 0 <= k < |missing| ==> missing[k] in completed && run(missing[k]) == Done(completed[missing[k]])
    ensures merged == MergedAssessment(original, missing, run)
  {
    hide Unique, Current;
    var claims: seq<Claim>, conflicts: seq<string>, gaps: seq<string>, short := [], [], [], false;
    for k := 0 to |missing|
      invariant claims == NewClaims(missing[..k], run) && conflicts == NewConflicts(missing[..k], run)
      invariant gaps == NewGaps(missing[..k], run) && short == SomeInsufficient(missing[..k], run)
    {
      assert missing[..k + 1][..k] == missing[..k];
      var a := completed[missing[k]];
      SomeSnoc(missing, k, run);
      claims, conflicts, gaps := claims + a.claims, conflicts + a.conflicts, gaps + a.gaps;
      short := short || a.status.Insufficient?;
    }
    assert missing[..|missing|] == missing;
    var all := Replaced(original.claims, claims);
    merged := Assessment(if short || HasUnknown(all) then Insufficient else Sufficient, all,
                         Unique(original.conflicts + conflicts), Unique(original.gaps + gaps));
  }

  lemma {:induction false} SomeSnoc(missing: seq<string>, k: nat, run: Run)
    requires k < |missing| && run(missing[k]).Done?
    ensures SomeInsufficient(missing[..k + 1], run) <==> SomeInsufficient(missing[..k], run) || run(missing[k]).value.status.Insufficient?
  {
    assert forall i :: 0 <= i < k ==> missing[..k + 1][i] == missing[..k][i];
    assert missing[..k + 1][k] == missing[k];
    if SomeInsufficient(missing[..k], run) {
      var i :| 0 <= i < k && run(missing[..k][i]).Done? && run(missing[..k][i]).value.status.Insufficient?;
      assert run(missing[..k + 1][i]).value.status.Insufficient?;
    }
  }

  /** What a merged assessment says: insufficient exactly when a unit or a claim still is, and of conflicts and gaps the
      original ones and those of every unit, each once. */
  lemma {:induction false} MergedExactly(original: Assessment, missing: seq<string>, run: Run, n: string)
    ensures var m := MergedAssessment(original, missing, run);
            && (m.status.Insufficient? <==>
                  || (exists k :: 0 <= k < |missing| && run(missing[k]).Done? && run(missing[k]).value.status.Insufficient?)
                  || (exists k :: 0 <= k < |m.claims| && m.claims[k].kind == Unknown))
            && Distinct(m.conflicts) && Distinct(m.gaps)
            && (n in m.conflicts <==>
                  n in original.conflicts
                  || exists k :: 0 <= k < |missing| && run(missing[k]).Done? && n in run(missing[k]).value.conflicts)
            && (n in m.gaps <==>
                  n in original.gaps
                  || exists k :: 0 <= k < |missing| && run(missing[k]).Done? && n in run(missing[k]).value.gaps)
  {
    hide Replaced, NewClaims, NewConflicts, NewGaps, Unique;
    NewConflictsAre(missing, run, n);
    NewGapsAre(missing, run, n);
    UniqueHolds(original.conflicts + NewConflicts(missing, run), n);
    UniqueHolds(original.gaps + NewGaps(missing, run), n);
  }

  lemma {:induction false} UniqueHolds(s: seq<string>, n: string)
    ensures n in Unique(s) <==> n in s
  {
    hide Unique;
    var u := Unique(s);
    if n in u { var k :| 0 <= k < |u| && u[k] == n; }
    if n in s { var k :| 0 <= k < |s| && s[k] == n; }
  }

  lemma {:induction false} NewConflictsAre(missing: seq<string>, run: Run, n: string)
    ensures n in NewConflicts(missing, run) <==>
              exists k :: 0 <= k < |missing| && run(missing[k]).Done? && n in run(missing[k]).value.conflicts
  {
    if missing != [] {
      var l := |missing| - 1;
      NewConflictsAre(missing[..l], run, n);
      assert forall k :: 0 <= k < l ==> missing[..l][k] == missing[k];
    }
  }

  lemma {:induction false} NewGapsAre(missing: seq<string>, run: Run, n: string)
    ensures n in NewGaps(missing, run) <==>
              exists k :: 0 <= k < |missing| && run(missing[k]).Done? && n in run(missing[k]).value.gaps
  {
    if missing != [] {
      var l := |missing| - 1;
      NewGapsAre(missing[..l], run, n);
      assert forall k :: 0 <= k < l ==> missing[..l][k] == missing[k];
    }
  }

  /** `reassess_facets`, once the whole request has overflowed: whatever the order of completion, the same merged
      assessment or the same facet's failure; no unit runs before every facet has been counted. */
  method ReassessFacets(original: Assessment, missing: seq<string>, name: string, run: Run, chunks: seq<Chunk>,
          preflight: string -> Outcome<()>, check: Assessment -> bool, order: seq<string>)
    returns (r: Outcome<Assessment>, log: seq<Step>)
    requires multiset(order) == multiset(missing)
    ensures CountsFirst(log)
    ensures (exists k :: 0 <= k < |log| && log[k].Ran?) ==> forall k :: 0 <= k < |missing| ==> Counted(missing[k]) in log
    ensures 1 <= |missing| <= 3 && Distinct(missing) && (forall k :: 0 <= k < |missing| ==> missing[k] in PerspectiveFacets(name))
            && Splittable(original, missing) && (forall k :: 0 <= k < |missing| ==> preflight(missing[k]).Done?) ==>
              r == Reassessed(original, missing, run, chunks, check)
    ensures r.Done? ==>
              && 1 <= |missing| <= 3 && Distinct(missing) && Splittable(original, missing)
              && forall k :: 0 <= k < |missing| ==> missing[k] in PerspectiveFacets(name) && preflight(missing[k]).Done?
  {
    hide Askable, Splittable, UnitResult, MergedAssessment;
    log := [];
    AskableIs(missing, name);
    if !Askable(missing, name) {
      return Raised(InvalidResponse), log;
    }
    var planned, counts := PlanFacets(original, missing, preflight);
    if planned.Raised? {
      return Raised(planned.code), counts;
    }
    var completed, failures, runs := Collect(missing, order, run, chunks);
    log := counts + runs;
    forall k | 0 <= k < |missing| ensures Counted(missing[k]) in log { assert log[k] == counts[k]; }
    var failure := RaiseFirst(missing, failures, run, chunks);
    if failure.Some? {
      return Raised(failure.value), log;
    }
    FirstFailureExact(missing, run, chunks);
    forall k | 0 <= k < |missing| ensures missing[k] in completed && run(missing[k]) == Done(completed[missing[k]]) {
      ResultIsRun(run, missing[k], chunks);
    }
    var merged := MergeFacets(original, missing, completed, run);
    r := if check(merged) then Done(merged) else Raised(InvalidResponse);
  }

  lemma {:induction false} AskableIs(missing: seq<string>, name: string)
    ensures Askable(missing, name) <==>
              1 <= |missing| <= 3 && Distinct(missing) && forall k :: 0 <= k < |missing| ==> missing[k] in PerspectiveFacets(name)
  {
    hide PerspectiveFacets;
    if Askable(missing, name) {
      forall k | 0 <= k < |missing| ensures missing[k] in PerspectiveFacets(name) { assert missing[k] in ToSet(missing); }
    }
  }

  lemma {:induction false} ResultIsRun(run: Run, facet: string, chunks: seq<Chunk>)
    ensures UnitResult(run, facet, chunks).Done? ==> UnitResult(run, facet, chunks) == run(facet)
  {
    hide AllGrounded, OnePerTechnology;
  }

  // ---------- What the merge keeps ----------

  lemma {:induction false} NewClaimFacet(missing: seq<string>, run: Run, chunks: seq<Chunk>, c: Claim)
    requires FirstFailure(missing, run, chunks).None? && c in NewClaims(missing, run)
    ensures c.facet in missing
  {
    if missing != [] {
      hide AllGrounded;
      var n := |missing| - 1;
      assert missing == missing[..n] + [missing[n]];
      var last := UnitResult(run, missing[n], chunks);
      if c in last.value.claims {
        FacetOfUnit(last.value.claims, missing[n], c);
      } else {
        NewClaimFacet(missing[..n], run, chunks, c);
      }
    }
  }

  lemma {:induction false} FacetOfUnit(claims: seq<Claim>, facet: string, c: Claim)
    requires OnePerTechnology(claims, facet) && c in claims
    ensures c.facet == facet
  {
    var k :| 0 <= k < |claims| && claims[k] == c;
    assert PairsIn(claims)[k] == PairOf(c);
    assert PairOf(c) in ToSet(PairsIn(claims));
  }

  /** The merged assessment has the original's claims in the original's order: those outside the missing facets word
      for word, the others from a completed unit, under the same technology and facet. */
  lemma {:induction false} OtherFacetsSurvive(original: Assessment, missing: seq<string>, run: Run, chunks: seq<Chunk>,
          k: nat)
    requires FirstFailure(missing, run, chunks).None? && k < |original.claims|
    ensures var merged := MergedAssessment(original, missing, run);
            && |merged.claims| == |original.claims| && PairOf(merged.claims[k]) == PairOf(original.claims[k])
            && (original.claims[k].facet !in missing ==> merged.claims[k] == original.claims[k])
            && (merged.claims[k] == original.claims[k] || merged.claims[k] in NewClaims(missing, run))
  {
    hide Unique, UnitResult;
    var c, now := original.claims[k], NewClaims(missing, run);
    CurrentFound(now, PairOf(c));
    var found := Current(now, PairOf(c));
    if found.Some? {
      NewClaimFacet(missing, run, chunks, found.value);
    }
  }

  lemma {:induction false} UnitClaimListed(missing: seq<string>, run: Run, k: nat, c: Claim)
    requires k < |missing| && run(missing[k]).Done? && c in run(missing[k]).value.claims
    ensures c in NewClaims(missing, run)
  {
    var n := |missing| - 1;
    if k < n {
      assert missing[..n][k] == missing[k];
      UnitClaimListed(missing[..n], run, k, c);
    }
  }

  /** Every claim about one technology in a missing facet is replaced by a unit's claim. */
  lemma {:induction false} MissingFacetsReplaced(original: Assessment, missing: seq<string>, run: Run,
          chunks: seq<Chunk>, k: nat)
    requires FirstFailure(missing, run, chunks).None? && k < |original.claims|
    requires original.claims[k].facet in missing && original.claims[k].technology != Both
    ensures MergedAssessment(original, missing, run).claims[k] in NewClaims(missing, run)
  {
    hide Unique, AllGrounded;
    FirstFailureExact(missing, run, chunks);
    var c := original.claims[k];
    var m :| 0 <= m < |missing| && missing[m] == c.facet;
    var unit := UnitResult(run, missing[m], chunks).value;
    assert PairOf(c) in ToSet(PairsIn(unit.claims));
    var j :| 0 <= j < |unit.claims| && PairsIn(unit.claims)[j] == PairOf(c);
    UnitClaimListed(missing, run, m, unit.claims[j]);
    var i :| 0 <= i < |NewClaims(missing, run)| && NewClaims(missing, run)[i] == unit.claims[j];
    assert PairsIn(NewClaims(missing, run))[i] == PairOf(c);
    CurrentFound(NewClaims(missing, run), PairOf(c));
  }
}
