/** What a repair plan asks for and what its patches put in place: every failure opens the field that cures it, no other
    field is opened, and an accepted patch is what the answer then holds (rag/repair.py). */
module RepairPlans {
  import opened Schema
  import opened Texts
  import opened Orders
  import opened Quotes
  import opened Evidence
  import opened Contracts
  import opened Repair

  // ---------- Which fields are opened ----------

  /** The field in which a claim's own text fails, or in which its evidence is missing. */
  ghost predicate Cures(f: ClaimFailure, field: Field) {
    || (f == NeedsConditions && field == Conditions)
    || (f == NeedsLimitations && field == Caveats)
    || (f == MissingEvidence && field == References)
  }

  lemma {:induction false} FieldsExactly(failures: seq<ClaimFailure>)
    ensures FieldsFor(failures).Some? <==>
              forall k :: 0 <= k < |failures| ==> failures[k] in {NeedsConditions, NeedsLimitations, MissingEvidence}
    ensures FieldsFor(failures).Some? ==>
              forall field :: field in FieldsFor(failures).value <==>
                exists k :: 0 <= k < |failures| && Cures(failures[k], field)
  {
    if failures != [] {
      var n := |failures| - 1;
      FieldsExactly(failures[..n]);
      assert forall k :: 0 <= k < n ==> failures[..n][k] == failures[k];
    }
  }

  lemma {:induction false} FailuresAtAre(issues: seq<Issue>, i: nat, f: ClaimFailure)
    ensures f in FailuresAt(issues, i) <==> AtClaim(i, f) in issues
  {
    if issues != [] {
      var n := |issues| - 1;
      FailuresAtAre(issues[..n], i, f);
      assert issues == issues[..n] + [issues[n]];
    }
  }

  /** The unit is one that the failures at its claim call for: a reference that is not quoted, when bad quotations are
      all there is, or the whole claim with exactly the fields that its failures need. */
  ghost predicate CalledFor(v: Value, issues: seq<Issue>, chunks: seq<Chunk>, alpha: char -> bool, u: Unit) {
    if u.LayoutUnit? then exists marked :: AboutLayout(marked) in issues
    else
      && u.index < |ClaimsOf(v)| && (exists f :: AtClaim(u.index, f) in issues)
      && var claim := ClaimsOf(v)[u.index];
         if forall f :: AtClaim(u.index, f) in issues ==> f.BadQuotation?
         then exists j :: 0 <= j < |claim.references| && !Quoted(claim.references[j], chunks)
                          && u == UnitForReference(claim, u.index, j, chunks, alpha)
         else && u.ClaimUnit?
              && (forall f :: AtClaim(u.index, f) in issues ==> f in {NeedsConditions, NeedsLimitations, MissingEvidence})
              && (Conditions in u.fields <==> AtClaim(u.index, NeedsConditions) in issues)
              && (Caveats in u.fields <==> AtClaim(u.index, NeedsLimitations) in issues)
              && (References in u.fields <==> AtClaim(u.index, MissingEvidence) in issues)
  }

  lemma {:induction false} OnlyQuotationsIff(issues: seq<Issue>, i: nat)
    ensures OnlyQuotations(FailuresAt(issues, i)) <==> forall f :: AtClaim(i, f) in issues ==> f.BadQuotation?
  {
    var fs := FailuresAt(issues, i);
    forall f ensures f in fs <==> AtClaim(i, f) in issues { FailuresAtAre(issues, i, f); }
    if OnlyQuotations(fs) {
      forall f | AtClaim(i, f) in issues ensures f.BadQuotation? {
        assert f in fs;
        var k :| 0 <= k < |fs| && fs[k] == f;
      }
    } else {
      var k :| 0 <= k < |fs| && !fs[k].BadQuotation?;
      assert fs[k] in fs;
    }
  }

  lemma {:induction false} ReferenceUnitsAre(claim: Claim, i: nat, n: nat, chunks: seq<Chunk>, alpha: char -> bool,
          u: Unit)
    requires n <= |claim.references|
    ensures u in ReferenceUnits(claim, i, n, chunks, alpha) <==>
              exists j :: 0 <= j < n && !Quoted(claim.references[j], chunks) && u == UnitForReference(claim, i, j, chunks, alpha)
  {
    hide UnitForReference, Quoted;
    if n > 0 { ReferenceUnitsAre(claim, i, n - 1, chunks, alpha, u); }
  }

  lemma {:induction false} UnitIndex(claim: Claim, i: nat, j: nat, chunks: seq<Chunk>, alpha: char -> bool)
    requires j < |claim.references|
    ensures var u := UnitForReference(claim, i, j, chunks, alpha); !u.LayoutUnit? && !u.ClaimUnit? && u.index == i
  {
    hide Candidates;
  }

  lemma {:induction false} UnitsAtAre(v: Value, issues: seq<Issue>, i: nat, chunks: seq<Chunk>, alpha: char -> bool,
          u: Unit)
    requires i < |ClaimsOf(v)| && UnitsAt(ClaimsOf(v)[i], i, FailuresAt(issues, i), chunks, alpha).Some?
    requires exists f :: AtClaim(i, f) in issues
    ensures u in UnitsAt(ClaimsOf(v)[i], i, FailuresAt(issues, i), chunks, alpha).value <==>
              !u.LayoutUnit? && u.index == i && CalledFor(v, issues, chunks, alpha, u)
  {
    hide UnitForReference, Quoted, ReferenceUnits, FieldsFor, OnlyQuotations;
    var claim, fs := ClaimsOf(v)[i], FailuresAt(issues, i);
    OnlyQuotationsIff(issues, i);
    if OnlyQuotations(fs) {
      ReferenceUnitsAre(claim, i, |claim.references|, chunks, alpha, u);
      forall j | 0 <= j < |claim.references| ensures var w := UnitForReference(claim, i, j, chunks, alpha);
        !w.LayoutUnit? && !w.ClaimUnit? && w.index == i { UnitIndex(claim, i, j, chunks, alpha); }
    } else {
      ClaimUnitIs(issues, i, u);
    }
  }

  lemma {:induction false} ClaimUnitIs(issues: seq<Issue>, i: nat, u: Unit)
    requires FieldsFor(FailuresAt(issues, i)).Some?
    ensures forall f :: AtClaim(i, f) in issues ==> f in {NeedsConditions, NeedsLimitations, MissingEvidence}
    ensures u == ClaimUnit(i, FieldsFor(FailuresAt(issues, i)).value) <==>
              && u.ClaimUnit? && u.index == i
              && (Conditions in u.fields <==> AtClaim(i, NeedsConditions) in issues)
              && (Caveats in u.fields <==> AtClaim(i, NeedsLimitations) in issues)
              && (References in u.fields <==> AtClaim(i, MissingEvidence) in issues)
  {
    hide FieldsFor;
    var fs := FailuresAt(issues, i);
    FieldsExactly(fs);
    forall f ensures f in fs <==> AtClaim(i, f) in issues { FailuresAtAre(issues, i, f); }
    forall f | AtClaim(i, f) in issues ensures f in {NeedsConditions, NeedsLimitations, MissingEvidence} {
      assert f in fs;
      var k :| 0 <= k < |fs| && fs[k] == f;
    }
    var fields := FieldsFor(fs).value;
    InFields(fs, Conditions, NeedsConditions);
    InFields(fs, Caveats, NeedsLimitations);
    InFields(fs, References, MissingEvidence);
    if u.ClaimUnit? && (Conditions in u.fields <==> Conditions in fields) && (Caveats in u.fields <==> Caveats in fields)
      && (References in u.fields <==> References in fields)
    {
      AllFields(u.fields, fields);
    }
  }

  lemma {:induction false} InFields(fs: seq<ClaimFailure>, field: Field, f: ClaimFailure)
    requires FieldsFor(fs).Some? && Cures(f, field)
    ensures field in FieldsFor(fs).value <==> f in fs
  {
    hide FieldsFor;
    FieldsExactly(fs);
    if f in fs { var k :| 0 <= k < |fs| && fs[k] == f; }
  }

  lemma {:induction false} AllFields(a: set<Field>, b: set<Field>)
    requires (Conditions in a <==> Conditions in b) && (Caveats in a <==> Caveats in b) && (References in a <==> References in b)
    ensures a == b
  {
    forall field ensures field in a <==> field in b {
      match field
      case Conditions =>
      case Caveats =>
      case References =>
    }
  }

  lemma {:induction false} UnitsForAre(v: Value, indexes: seq<nat>, issues: seq<Issue>, chunks: seq<Chunk>,
          alpha: char -> bool, u: Unit)
    requires forall k :: 0 <= k < |indexes| ==> indexes[k] < |ClaimsOf(v)| && exists f :: AtClaim(indexes[k], f) in issues
    requires UnitsFor(ClaimsOf(v), indexes, issues, chunks, alpha).Some?
    ensures u in UnitsFor(ClaimsOf(v), indexes, issues, chunks, alpha).value <==>
              !u.LayoutUnit? && u.index in indexes && CalledFor(v, issues, chunks, alpha, u)
  {
    hide UnitsAt, FailuresAt, CalledFor;
    if indexes != [] {
      var n := |indexes| - 1;
      forall k | 0 <= k < n ensures indexes[..n][k] < |ClaimsOf(v)| && exists f :: AtClaim(indexes[..n][k], f) in issues {
        assert indexes[..n][k] == indexes[k];
      }
      UnitsForAre(v, indexes[..n], issues, chunks, alpha, u);
      assert indexes == indexes[..n] + [indexes[n]];
      UnitsAtAre(v, issues, indexes[n], chunks, alpha, u);
    }
  }

  /** A plan holds exactly the units that the issues call for. */
  lemma {:induction false} PlanExactly(v: Value, issues: seq<Issue>, supplied: seq<Chunk>, alpha: char -> bool, u: Unit)
    requires Plan(v, issues, supplied, alpha).Done? && Plan(v, issues, supplied, alpha).value.Some?
    ensures MergeChunks([], supplied).Done?
    ensures u in Plan(v, issues, supplied, alpha).value.value <==> CalledFor(v, issues, MergeChunks([], supplied).value, alpha, u)
  {
    hide UnitsFor, MergeChunks, Affected, CalledFor;
    var chunks := MergeChunks([], supplied).value;
    IndexesInRange(v, issues);
    forall i: nat ensures i in Affected(issues) <==> exists f :: AtClaim(i, f) in issues { AffectedIff(issues, i); }
    forall k | 0 <= k < |Affected(issues)| ensures exists f :: AtClaim(Affected(issues)[k], f) in issues {
      assert Affected(issues)[k] in Affected(issues);
    }
    UnitsForAre(v, Affected(issues), issues, chunks, alpha, u);
    CalledHere(v, issues, chunks, alpha, u);
  }

  /** The failures of a claim can be repaired on their own: bad quotations alone, one of which is there, or failures of
      its fields alone. */
  ghost predicate OnItsOwn(claim: Claim, issues: seq<Issue>, i: nat, chunks: seq<Chunk>) {
    if forall f :: AtClaim(i, f) in issues ==> f.BadQuotation?
    then exists j :: 0 <= j < |claim.references| && !Quoted(claim.references[j], chunks)
    else forall f :: AtClaim(i, f) in issues ==> f in {NeedsConditions, NeedsLimitations, MissingEvidence}
  }

  lemma {:induction false} UnitsAtPossible(claim: Claim, issues: seq<Issue>, i: nat, chunks: seq<Chunk>,
          alpha: char -> bool)
    ensures UnitsAt(claim, i, FailuresAt(issues, i), chunks, alpha).Some? <==> OnItsOwn(claim, issues, i, chunks)
    ensures UnitsAt(claim, i, FailuresAt(issues, i), chunks, alpha).Some? ==>
              UnitsAt(claim, i, FailuresAt(issues, i), chunks, alpha).value != []
  {
    hide UnitForReference, Quoted, ReferenceUnits, FieldsFor, OnlyQuotations;
    var fs := FailuresAt(issues, i);
    var us := ReferenceUnits(claim, i, |claim.references|, chunks, alpha);
    OnlyQuotationsIff(issues, i);
    FieldsExactly(fs);
    forall f ensures f in fs <==> AtClaim(i, f) in issues { FailuresAtAre(issues, i, f); }
    if exists j :: 0 <= j < |claim.references| && !Quoted(claim.references[j], chunks) {
      var j :| 0 <= j < |claim.references| && !Quoted(claim.references[j], chunks);
      ReferenceUnitsAre(claim, i, |claim.references|, chunks, alpha, UnitForReference(claim, i, j, chunks, alpha));
    }
    if us != [] { ReferenceUnitsAre(claim, i, |claim.references|, chunks, alpha, us[0]); }
    if forall f :: AtClaim(i, f) in issues ==> f in {NeedsConditions, NeedsLimitations, MissingEvidence} {
      forall k | 0 <= k < |fs| ensures fs[k] in {NeedsConditions, NeedsLimitations, MissingEvidence} { assert fs[k] in fs; }
    }
  }

  lemma {:induction false} UnitsForPossible(claims: seq<Claim>, indexes: seq<nat>, issues: seq<Issue>,
          chunks: seq<Chunk>, alpha: char -> bool)
    requires forall k :: 0 <= k < |indexes| ==> indexes[k] < |claims|
    ensures UnitsFor(claims, indexes, issues, chunks, alpha).Some? <==>
              forall k :: 0 <= k < |indexes| ==> OnItsOwn(claims[indexes[k]], issues, indexes[k], chunks)
    ensures UnitsFor(claims, indexes, issues, chunks, alpha).Some? && indexes != [] ==>
              UnitsFor(claims, indexes, issues, chunks, alpha).value != []
  {
    hide UnitsAt, FailuresAt, OnItsOwn;
    if indexes != [] {
      var n := |indexes| - 1;
      assert forall k :: 0 <= k < n ==> indexes[..n][k] == indexes[k];
      UnitsForPossible(claims, indexes[..n], issues, chunks, alpha);
      UnitsAtPossible(claims[indexes[n]], issues, indexes[n], chunks, alpha);
    }
  }

  /** An answer is repaired in parts exactly when it has claims, there are issues, each is about a claim it has or about
      the layout of a report in known terms, and every claim concerned can be repaired on its own; supplied chunks
      that disagree on an id are an error then. */
  lemma {:induction false} PlanPossible(v: Value, issues: seq<Issue>, supplied: seq<Chunk>, alpha: char -> bool)
    ensures Repairable(v, issues) <==>
              && !v.Other? && issues != []
              && forall issue :: issue in issues ==>
                   if issue.AtClaim? then issue.index < |ClaimsOf(v)| else issue == AboutLayout(true) && v.Drafted?
    ensures Plan(v, issues, supplied, alpha).Raised? <==> Repairable(v, issues) && MergeChunks([], supplied).Raised?
    ensures Plan(v, issues, supplied, alpha).Done? ==>
              (Plan(v, issues, supplied, alpha).value.Some? <==>
                 Repairable(v, issues)
                 && forall i: nat, f :: AtClaim(i, f) in issues ==>
                      OnItsOwn(ClaimsOf(v)[i], issues, i, MergeChunks([], supplied).value))
  {
    hide MergeChunks, UnitsFor, Affected, OnItsOwn;
    RepairableIff(v, issues);
    if Repairable(v, issues) && MergeChunks([], supplied).Done? {
      var chunks := MergeChunks([], supplied).value;
      IndexesInRange(v, issues);
      UnitsForPossible(ClaimsOf(v), Affected(issues), issues, chunks, alpha);
      forall i: nat ensures i in Affected(issues) <==> exists f :: AtClaim(i, f) in issues { AffectedIff(issues, i); }
      if forall i: nat, f :: AtClaim(i, f) in issues ==> OnItsOwn(ClaimsOf(v)[i], issues, i, chunks) {
        forall k | 0 <= k < |Affected(issues)| ensures OnItsOwn(ClaimsOf(v)[Affected(issues)[k]], issues, Affected(issues)[k], chunks) {
          assert Affected(issues)[k] in Affected(issues);
        }
      }
      if forall k :: 0 <= k < |Affected(issues)| ==> OnItsOwn(ClaimsOf(v)[Affected(issues)[k]], issues, Affected(issues)[k], chunks) {
        forall i: nat, f | AtClaim(i, f) in issues ensures OnItsOwn(ClaimsOf(v)[i], issues, i, chunks) {
          assert i in Affected(issues);
          var k :| 0 <= k < |Affected(issues)| && Affected(issues)[k] == i;
        }
      }
      SomethingToDo(v, issues);
    }
  }

  lemma {:induction false} SomethingToDo(v: Value, issues: seq<Issue>)
    requires Repairable(v, issues)
    ensures Affected(issues) != [] || HasLayout(issues)
  {
    hide Affected;
    var issue := issues[0];
    if issue.AtClaim? {
      assert AtClaim(issue.index, issue.failure) in issues;
      AffectedIff(issues, issue.index);
    }
  }

  lemma {:induction false} RepairableIff(v: Value, issues: seq<Issue>)
    ensures Repairable(v, issues) <==>
              && !v.Other? && issues != []
              && forall issue :: issue in issues ==>
                   if issue.AtClaim? then issue.index < |ClaimsOf(v)| else issue == AboutLayout(true) && v.Drafted?
  {
    if Repairable(v, issues) {
      forall issue | issue in issues
        ensures if issue.AtClaim? then issue.index < |ClaimsOf(v)| else issue == AboutLayout(true) && v.Drafted?
      {
        var k :| 0 <= k < |issues| && issues[k] == issue;
      }
    }
    if forall issue :: issue in issues ==>
      if issue.AtClaim? then issue.index < |ClaimsOf(v)| else issue == AboutLayout(true) && v.Drafted? {
      forall k | 0 <= k < |issues|
        ensures match issues[k]
                case AtClaim(i, _) => i < |ClaimsOf(v)|
                case AboutLayout(marked) => marked && v.Drafted?
                case Untyped => false
      {
        assert issues[k] in issues;
      }
    }
  }

  // ---------- What a bad reference may be bound to ----------

  /** The chunk holds the quotation, as it stands or with its typography restored, and is not the one it names. */
  ghost predicate HoldsIt(ref: Reference, c: Chunk, alpha: char -> bool) {
    && c.id != ref.chunkId && 12 <= |Normalized(ref.quote)|
    && Contains(Normalized(c.text), Normalized(Restored(ref.quote, c.text, alpha)))
  }

  /** The reference is corrected in its own chunk exactly when it names a supplied one and no other chunk for the
      claim's technology holds the quotation. */
  lemma {:induction false} CitationExactly(claim: Claim, i: nat, j: nat, chunks: seq<Chunk>, alpha: char -> bool)
    requires j < |claim.references|
    ensures var u, ref := UnitForReference(claim, i, j, chunks, alpha), claim.references[j];
            && u.index == i && u.position == j
            && (u.CitationUnit? <==>
                  && (exists c :: c in chunks && c.id == ref.chunkId)
                  && forall c :: c in chunks && (c.technology.None? || c.technology.value in {claim.technology, Both}) ==>
                       !HoldsIt(ref, c, alpha))
            && (u.ReferenceUnit? ==> u.reference == ref && (u.preserve <==> exists c :: c in chunks && c.id == ref.chunkId))
  {
    hide Restored, Normalized, QuoteSpan;
    var ref := claim.references[j];
    LookupKnown(chunks, ref.chunkId);
    var usable := PickChunks(chunks, Usable(claim));
    forall c ensures c in usable <==> c in chunks && Usable(claim)(c) { PickedAre(chunks, Usable(claim), c); }
    var holding := PickChunks(usable, Rebinds(ref, alpha));
    forall c ensures c in holding <==> c in usable && HoldsIt(ref, c, alpha) { PickedAre(usable, Rebinds(ref, alpha), c); }
    if holding != [] { assert holding[0] in holding; }
  }

  lemma {:induction false} PickedAre(chunks: seq<Chunk>, p: Chunk -> bool, c: Chunk)
    ensures c in PickChunks(chunks, p) <==> c in chunks && p(c)
  {
    if chunks != [] {
      var n := |chunks| - 1;
      assert chunks == chunks[..n] + [chunks[n]];
      PickedAre(chunks[..n], p, c);
    }
  }

  /** The chunks offered for a reference: every usable one when its own is unknown; else those that hold the quotation,
      or the foremost of them alone when there are several and all show it at one place. */
  lemma {:induction false} CandidatesAre(claim: Claim, ref: Reference, chunks: seq<Chunk>, alpha: char -> bool,
          c: Chunk)
    ensures var usable := (d: Chunk) => d in chunks && (d.technology.None? || d.technology.value in {claim.technology, Both});
            var cs := Candidates(claim, ref, chunks, alpha);
            && (c in cs ==> usable(c))
            && ((forall d :: d in chunks ==> d.id != ref.chunkId) ==> (c in cs <==> usable(c)))
            && ((exists d :: d in chunks && d.id == ref.chunkId) ==> (c in cs ==> HoldsIt(ref, c, alpha)))
            && ((exists d :: d in chunks && d.id == ref.chunkId) && |cs| != 1 ==> (c in cs <==> usable(c) && HoldsIt(ref, c, alpha)))
            && ((exists d :: d in chunks && d.id == ref.chunkId) && |cs| == 1 && usable(c) && HoldsIt(ref, c, alpha) && c != cs[0] ==>
                  && QuoteSpan(ref.quote, c, alpha).Some? && QuoteSpan(ref.quote, c, alpha) == QuoteSpan(ref.quote, cs[0], alpha)
                  && !Earlier(c, cs[0]))
  {
    hide Restored, Normalized, QuoteSpan, Earlier;
    LookupKnown(chunks, ref.chunkId);
    var picked := PickChunks(chunks, Usable(claim));
    PickedAre(chunks, Usable(claim), c);
    var holding := PickChunks(picked, Rebinds(ref, alpha));
    PickedAre(picked, Rebinds(ref, alpha), c);
    if |holding| > 1 && OnePlace(ref, holding, alpha) {
      LeastIsLeast(holding, c);
      if c in holding {
        var k :| 0 <= k < |holding| && holding[k] == c;
        var l :| 0 <= l < |holding| && holding[l] == Least(holding);
      }
    }
  }

  lemma {:induction false} LeastIsLeast(chunks: seq<Chunk>, c: Chunk)
    requires chunks != []
    ensures c in chunks ==> !Earlier(c, Least(chunks))
  {
    if |chunks| == 1 {
      EarlierStrict(chunks[0]);
    } else {
      hide Earlier;
      var n := |chunks| - 1;
      assert chunks == chunks[..n] + [chunks[n]];
      LeastIsLeast(chunks[..n], c);
      EarlierStrict(chunks[n]);
      var head := Least(chunks[..n]);
      if Earlier(chunks[n], head) && c in chunks[..n] && Earlier(c, chunks[n]) { EarlierTransitive(c, chunks[n], head); }
    }
  }

  lemma {:induction false} EarlierStrict(c: Chunk)
    ensures !Earlier(c, c)
  {
    BeforeTotal(c.id, c.id);
  }

  lemma {:induction false} EarlierTransitive(a: Chunk, b: Chunk, c: Chunk)
    requires Earlier(a, b) && Earlier(b, c)
    ensures Earlier(a, c)
  {
    hide Before;
    if Before(a.id, b.id) && Before(b.id, c.id) { BeforeTransitive(a.id, b.id, c.id); }
  }

  lemma {:induction false} CalledHere(v: Value, issues: seq<Issue>, chunks: seq<Chunk>, alpha: char -> bool, u: Unit)
    ensures !u.LayoutUnit? && CalledFor(v, issues, chunks, alpha, u) ==> exists f :: AtClaim(u.index, f) in issues
    ensures u.LayoutUnit? ==> (CalledFor(v, issues, chunks, alpha, u) <==> HasLayout(issues))
  {
    if k :| 0 <= k < |issues| && issues[k].AboutLayout? { assert AboutLayout(issues[k].marked) in issues; }
  }

  lemma {:induction false} AffectedIff(issues: seq<Issue>, i: nat)
    ensures i in Affected(issues) <==> exists f :: AtClaim(i, f) in issues
  {
    IndexOrigin(issues, i);
    var u := Indexes(issues);
    if i in Affected(issues) {
      var k :| 0 <= k < |Affected(issues)| && Affected(issues)[k] == i;
      assert i in u;
      var j :| 0 <= j < |issues| && issues[j].AtClaim? && issues[j].index == i;
      assert AtClaim(i, issues[j].failure) in issues;
    }
    if f :| AtClaim(i, f) in issues {
      var j :| 0 <= j < |issues| && issues[j] == AtClaim(i, f);
      var k :| 0 <= k < |u| && u[k] == i;
    }
  }

  // ---------- The opened fields are those that have to change ----------

  /** A claim of the same kind whose opened field stays as it was still fails. */
  lemma {:induction false} FieldIsNeeded(was: Claim, now: Claim, f: ClaimFailure, field: Field)
    requires Cures(f, field) && now.kind == was.kind
    requires field.Conditions? ==> now.conditions == was.conditions
    requires field.Caveats? ==> now.caveats == was.caveats
    requires field.References? ==> now.references == was.references
    ensures f in KindFailures(was, None) + TextFailures(was) <==> f in KindFailures(now, None) + TextFailures(now)
  {
  }

  /** The claim with every opened text filled in and one reference more. */
  function Filled(c: Claim, fields: set<Field>, text: string, ref: Reference): Claim {
    c.(conditions := if Conditions in fields then text else c.conditions,
       caveats := if Caveats in fields then text else c.caveats,
       references := if References in fields then c.references + [ref] else c.references)
  }

  /** For a unit whose claim fails in its fields and in nothing else of its own text, a patch that fills them in is
      accepted, and leaves the claim without a failure of its text or of missing evidence. */
  lemma {:induction false} PatchCures(v: Value, u: Unit, text: string, ref: Reference, alpha: char -> bool)
    requires u.ClaimUnit? && u.index < |ClaimsOf(v)| && !v.Other? && !Blank(text)
    requires var c := ClaimsOf(v)[u.index];
             forall f, field :: Cures(f, field) && f in KindFailures(c, None) + TextFailures(c) ==> field in u.fields
    ensures var p := ClaimPatch(TargetId(v, u), Filled(ClaimsOf(v)[u.index], u.fields, text, ref));
            && Apply(v, u, p, alpha).Done? && u.index < |ClaimsOf(Apply(v, u, p, alpha).value)|
            && var now := ClaimsOf(Apply(v, u, p, alpha).value)[u.index];
               KindFailures(now, None) + TextFailures(now) == []
  {
    hide TargetId, Blank;
    var c := ClaimsOf(v)[u.index];
    var now := Filled(c, u.fields, text, ref);
    assert Cures(NeedsConditions, Conditions) && Cures(NeedsLimitations, Caveats) && Cures(MissingEvidence, References);
    assert NeedsConditions in TextFailures(c) ==> Conditions in u.fields;
    assert NeedsLimitations in TextFailures(c) ==> Caveats in u.fields;
    assert MissingEvidence in KindFailures(c, None) ==> References in u.fields;
    assert FieldsKept(c, now, u.fields);
    assert TextFailures(now) == [] && KindFailures(now, None) == [];
  }

  /** So every claim that a plan opens can be repaired: if the issues name each failure of the claim's own text and of
      missing evidence, some patch for its unit is accepted and leaves none of them. */
  lemma {:induction false} PlanCures(v: Value, issues: seq<Issue>, supplied: seq<Chunk>, alpha: char -> bool, u: Unit,
          ref: Reference)
    returns (p: Patch)
    requires Plan(v, issues, supplied, alpha).Done? && Plan(v, issues, supplied, alpha).value.Some?
    requires u in Plan(v, issues, supplied, alpha).value.value && u.ClaimUnit?
    requires u.index < |ClaimsOf(v)| ==>
               var c := ClaimsOf(v)[u.index];
               forall f :: f in KindFailures(c, None) + TextFailures(c) ==> AtClaim(u.index, f) in issues
    ensures Apply(v, u, p, alpha).Done?
    ensures u.index < |ClaimsOf(v)| && u.index < |ClaimsOf(Apply(v, u, p, alpha).value)|
    ensures var now := ClaimsOf(Apply(v, u, p, alpha).value)[u.index]; KindFailures(now, None) + TextFailures(now) == []
  {
    hide *;
    PlanExactly(v, issues, supplied, alpha, u);
    PlanPossible(v, issues, supplied, alpha);
    OpensWhatFails(v, issues, MergeChunks([], supplied).value, alpha, u);
    var c := ClaimsOf(v)[u.index];
    InkIsNotBlank();
    PatchCures(v, u, "x", ref, alpha);
    p := ClaimPatch(TargetId(v, u), Filled(c, u.fields, "x", ref));
  }

  lemma {:induction false} InkIsNotBlank()
    ensures !Blank("x")
  {
    assert !IsSpace("x"[0]);
  }

  lemma {:induction false} OpensWhatFails(v: Value, issues: seq<Issue>, chunks: seq<Chunk>, alpha: char -> bool,
          u: Unit)
    requires CalledFor(v, issues, chunks, alpha, u) && u.ClaimUnit?
    ensures u.index < |ClaimsOf(v)|
    ensures forall f, field :: Cures(f, field) && AtClaim(u.index, f) in issues ==> field in u.fields
  {
    hide UnitForReference, Quoted;
    var claim := ClaimsOf(v)[u.index];
    forall j | 0 <= j < |claim.references| ensures !UnitForReference(claim, u.index, j, chunks, alpha).ClaimUnit? {
      UnitIndex(claim, u.index, j, chunks, alpha);
    }
  }

  // ---------- What an accepted patch puts in place ----------

  /** Claim `i` is the new one, and everything else is as it was. */
  ghost predicate OneClaim(v: Value, w: Value, i: nat, claim: Claim) {
    && i < |ClaimsOf(v)| && !v.Other? && w == WithClaims(v, ClaimsOf(w)) && ClaimsOf(w) == ClaimsOf(v)[i := claim]
  }

  /** A citation patch is accepted exactly for its own reference, and puts the new quotation in its place. */
  lemma {:induction false} CitationPuts(v: Value, i: nat, j: nat, p: Patch, alpha: char -> bool)
    ensures var u, r := CitationUnit(i, j), Apply(v, CitationUnit(i, j), p, alpha);
            && (r.Done? <==>
                  && p.CitationPatch? && p.target == TargetId(v, u) && !v.Other?
                  && i < |ClaimsOf(v)| && j < |ClaimsOf(v)[i].references|)
            && (r.Done? ==>
                  var c := ClaimsOf(v)[i];
                  OneClaim(v, r.value, i, c.(references := c.references[j := Reference(c.references[j].chunkId, p.quote)])))
  {
    hide TargetId;
  }

  /** A reference patch puts in place the supplied chunk it names and its quotation as it stands in that chunk; it is
      accepted exactly when the chunk was offered for the claim's technology, holds the quotation, and, for a
      reference that is only bound anew, holds the original one. */
  lemma {:induction false} ReferencePuts(v: Value, u: Unit, p: Patch, alpha: char -> bool)
    requires u.ReferenceUnit?
    ensures var r := Apply(v, u, p, alpha);
            && (r.Done? <==>
                  && p.ReferencePatch? && p.target == TargetId(v, u) && !v.Other?
                  && u.index < |ClaimsOf(v)| && u.position < |ClaimsOf(v)[u.index].references|
                  && First(u.chunks, p.chunkId).Some?
                  && var chunk := First(u.chunks, p.chunkId).value;
                     var quote := Normalized(Restored(p.quote, chunk.text, alpha));
                     && (chunk.technology.None? || chunk.technology.value in {ClaimsOf(v)[u.index].technology, Both})
                     && 12 <= |quote| && Contains(Normalized(chunk.text), quote)
                     && (u.preserve ==> quote == Normalized(Restored(u.reference.quote, chunk.text, alpha))))
            && (r.Done? ==>
                  var c := ClaimsOf(v)[u.index];
                  var ref := Reference(p.chunkId, Restored(p.quote, First(u.chunks, p.chunkId).value.text, alpha));
                  OneClaim(v, r.value, u.index, c.(references := c.references[u.position := ref])))
  {
    hide TargetId, Restored, Normalized;
  }

  /** A claim patch puts the whole claim in place, if nothing but the opened fields differs and no reference is
      dropped. */
  lemma {:induction false} ClaimPuts(v: Value, u: Unit, p: Patch, alpha: char -> bool)
    requires u.ClaimUnit?
    ensures var r := Apply(v, u, p, alpha);
            && (r.Done? <==>
                  && p.ClaimPatch? && p.target == TargetId(v, u) && !v.Other? && u.index < |ClaimsOf(v)|
                  && var c := ClaimsOf(v)[u.index];
                     && p.claim.technology == c.technology && p.claim.facet == c.facet && p.claim.text == c.text
                     && p.claim.kind == c.kind
                     && (p.claim.conditions == c.conditions || Conditions in u.fields)
                     && (p.claim.caveats == c.caveats || Caveats in u.fields)
                     && (p.claim.references == c.references || References in u.fields)
                     && (References in u.fields ==> forall ref :: ref in c.references ==> ref in p.claim.references))
            && (r.Done? ==> OneClaim(v, r.value, u.index, p.claim))
  {
    hide TargetId;
    if u.index < |ClaimsOf(v)| && p.ClaimPatch? {
      var c := ClaimsOf(v)[u.index];
      assert (forall k :: 0 <= k < |c.references| ==> c.references[k] in p.claim.references) <==>
             (forall ref :: ref in c.references ==> ref in p.claim.references);
    }
  }

  /** A layout patch puts the new summary and sections in place, in a report only. */
  lemma {:induction false} LayoutPuts(v: Value, p: Patch, alpha: char -> bool)
    ensures var r := Apply(v, LayoutUnit, p, alpha);
            && (r.Done? <==> p.LayoutPatch? && v.Drafted?)
            && (r.Done? ==>
                  && r.value.Drafted? && r.value.report.summaryClaimIds == p.summary && r.value.report.sections == p.sections
                  && r.value.report.synthesisClaims == v.report.synthesisClaims
                  && r.value.report.gapDecisions == v.report.gapDecisions)
  {
  }
}
