/** Planning independent repair units for a structured answer and merging their patches (rag/repair.py). */
module Repair {
  import opened Schema
  import opened Texts
  import opened Orders
  import opened Ids
  import opened Quotes
  import opened Evidence
  import opened Reports
  import opened Contracts

  /** A structured answer: an assessment, a report draft, or anything else. */
  datatype Value = Assessed(assessment: Assessment) | Drafted(report: Report) | Other

  function ClaimsOf(v: Value): seq<Claim> {
    match v
    case Assessed(a) => a.claims
    case Drafted(r) => r.synthesisClaims
    case Other => []
  }

  function WithClaims(v: Value, claims: seq<Claim>): Value {
    match v
    case Assessed(a) => Assessed(a.(claims := claims))
    case Drafted(r) => Drafted(r.(synthesisClaims := claims))
    case Other => v
  }

  /** A validation message: about one claim, about the report's layout (with a known marker or not), or not a text. */
  datatype Issue = AtClaim(index: nat, failure: ClaimFailure) | AboutLayout(marked: bool) | Untyped

  datatype Field = Conditions | Caveats | References

  /** An independently editable part of the answer. */
  datatype Unit =
    | ReferenceUnit(index: nat, position: nat, chunks: seq<Chunk>, reference: Reference, preserve: bool)
    | CitationUnit(index: nat, position: nat)
    | ClaimUnit(index: nat, fields: set<Field>)
    | LayoutUnit

  datatype Patch =
    | ReferencePatch(target: string, chunkId: string, quote: string)
    | CitationPatch(target: string, quote: string)
    | ClaimPatch(target: string, claim: Claim)
    | LayoutPatch(summary: seq<string>, sections: seq<Section>)

  // ---------- Targets ----------

  function CollectionName(v: Value): string { if v.Assessed? then "claims" else "synthesis_claims" }

  function Position(u: Unit): string {
    match u
    case ReferenceUnit(i, j, _, _, _) => Decimal(i) + ":reference:" + Decimal(j)
    case CitationUnit(i, j) => Decimal(i) + ":reference:" + Decimal(j)
    case ClaimUnit(i, _) => Decimal(i)
    case LayoutUnit => ""
  }

  function TargetId(v: Value, u: Unit): string {
    if u.LayoutUnit? then "report-layout" else CollectionName(v) + ":" + Position(u)
  }

  /** Which part of the answer a unit may touch. */
  datatype Target = AtReference(index: nat, position: nat) | AtWholeClaim(index: nat) | AtLayout

  function TargetOf(u: Unit): Target {
    match u
    case ReferenceUnit(i, j, _, _, _) => AtReference(i, j)
    case CitationUnit(i, j) => AtReference(i, j)
    case ClaimUnit(i, _) => AtWholeClaim(i)
    case LayoutUnit => AtLayout
  }

  /** Target ids identify targets. */
  lemma {:induction false} TargetIdInjective(v: Value, u: Unit, w: Unit)
    requires TargetId(v, u) == TargetId(v, w)
    ensures TargetOf(u) == TargetOf(w)
  {
    var name := CollectionName(v) + ":";
    assert "report-layout"[0] == 'r' && "claims"[0] == 'c' && "synthesis_claims"[0] == 's';
    assert !u.LayoutUnit? ==> TargetId(v, u)[0] == CollectionName(v)[0];
    assert !w.LayoutUnit? ==> TargetId(v, w)[0] == CollectionName(v)[0];
    if !u.LayoutUnit? && !w.LayoutUnit? {
      PrefixInjective(name, Position(u), Position(w));
      PositionInjective(u, w);
    }
  }

  function Tail(u: Unit): string {
    match u
    case ReferenceUnit(_, j, _, _, _) => ":reference:" + Decimal(j)
    case CitationUnit(_, j) => ":reference:" + Decimal(j)
    case _ => ""
  }

  lemma {:induction false} PositionInjective(u: Unit, w: Unit)
    requires !u.LayoutUnit? && !w.LayoutUnit? && Position(u) == Position(w)
    ensures TargetOf(u) == TargetOf(w)
  {
    assert Position(u) == Decimal(u.index) + Tail(u) by { Seqs3(Decimal(u.index), ":reference:", u); }
    assert Position(w) == Decimal(w.index) + Tail(w) by { Seqs3(Decimal(w.index), ":reference:", w); }
    assert ":reference:"[0] == ':' && !IsDigit(':');
    NumeralPrefix(u.index, Tail(u), w.index, Tail(w));
    if Tail(u) != "" {
      PrefixInjective(":reference:", Decimal(u.position), Decimal(w.position));
      DecimalInjective(u.position, w.position);
    }
  }

  lemma {:induction false} Seqs3(a: string, b: string, u: Unit)
    requires !u.LayoutUnit? && a == Decimal(u.index) && b == ":reference:"
    ensures Position(u) == a + Tail(u)
  {
    if u.ReferenceUnit? || u.CitationUnit? {
      assert a + b + Decimal(u.position) == a + (b + Decimal(u.position));
    }
  }

  // ---------- Planning ----------

  function Indexes(issues: seq<Issue>): seq<nat> {
    if issues == [] then []
    else
      var i := issues[|issues| - 1];
      Indexes(issues[..|issues| - 1]) + (if i.AtClaim? then [i.index] else [])
  }

  function FailuresAt(issues: seq<Issue>, index: nat): seq<ClaimFailure> {
    if issues == [] then []
    else
      var i := issues[|issues| - 1];
      FailuresAt(issues[..|issues| - 1], index) + (if i.AtClaim? && i.index == index then [i.failure] else [])
  }

  predicate HasLayout(issues: seq<Issue>) { exists k :: 0 <= k < |issues| && issues[k].AboutLayout? }

  function Usable(claim: Claim): Chunk -> bool {
    (c: Chunk) => c.technology.None? || c.technology == Some(claim.technology) || c.technology == Some(Both)
  }

  function PickChunks(chunks: seq<Chunk>, p: Chunk -> bool): (r: seq<Chunk>)
    ensures forall k :: 0 <= k < |r| ==> r[k] in chunks && p(r[k])
  {
    if chunks == [] then []
    else
      var n := |chunks| - 1;
      assert chunks == chunks[..n] + [chunks[n]];
      PickChunks(chunks[..n], p) + (if p(chunks[n]) then [chunks[n]] else [])
  }

  /** Another supplied chunk that holds the quotation, as it stands or with its typography restored. */
  function Rebinds(ref: Reference, alpha: char -> bool): Chunk -> bool {
    (c: Chunk) => c.id != ref.chunkId && |Normalized(ref.quote)| >= MIN_QUOTE
                  && Contains(Normalized(c.text), Normalized(Restored(ref.quote, c.text, alpha)))
  }

  function Start(c: Chunk): int { if c.charStart.Some? then c.charStart.value else 0 }

  predicate Earlier(a: Chunk, b: Chunk) { Start(a) < Start(b) || (Start(a) == Start(b) && Before(a.id, b.id)) }

  /** `min(chunks, key=...)`: the first of the least. */
  function Least(chunks: seq<Chunk>): (c: Chunk)
    requires chunks != []
    ensures c in chunks
  {
    if |chunks| == 1 then chunks[0]
    else
      var n := |chunks| - 1;
      var head := Least(chunks[..n]);
      assert chunks == chunks[..n] + [chunks[n]];
      if Earlier(chunks[n], head) then chunks[n] else head
  }

  predicate OnePlace(ref: Reference, chunks: seq<Chunk>, alpha: char -> bool)
    requires chunks != []
  {
    QuoteSpan(ref.quote, chunks[0], alpha).Some?
    && forall k :: 0 <= k < |chunks| ==> QuoteSpan(ref.quote, chunks[k], alpha) == QuoteSpan(ref.quote, chunks[0], alpha)
  }

  /** The chunks a broken reference may be bound to. */
  function Candidates(claim: Claim, ref: Reference, chunks: seq<Chunk>, alpha: char -> bool): seq<Chunk> {
    var usable := PickChunks(chunks, Usable(claim));
    if Lookup(chunks, ref.chunkId).None? then usable
    else
      var holding := PickChunks(usable, Rebinds(ref, alpha));
      if |holding| > 1 && OnePlace(ref, holding, alpha) then [Least(holding)] else holding
  }

  function UnitForReference(claim: Claim, i: nat, j: nat, chunks: seq<Chunk>, alpha: char -> bool): Unit
    requires j < |claim.references|
  {
    var ref := claim.references[j];
    var candidates := Candidates(claim, ref, chunks, alpha);
    var known := Lookup(chunks, ref.chunkId).Some?;
    if !known || candidates != [] then ReferenceUnit(i, j, candidates, ref, known) else CitationUnit(i, j)
  }

  /** One unit for every reference among the first `n` that is not quoted from its chunk. */
  function ReferenceUnits(claim: Claim, i: nat, n: nat, chunks: seq<Chunk>, alpha: char -> bool): seq<Unit>
    requires n <= |claim.references|
  {
    if n == 0 then []
    else ReferenceUnits(claim, i, n - 1, chunks, alpha)
         + (if Quoted(claim.references[n - 1], chunks) then [] else [UnitForReference(claim, i, n - 1, chunks, alpha)])
  }

  function FieldFor(f: ClaimFailure): Option<Field> {
    match f
    case NeedsConditions => Some(Conditions)
    case NeedsLimitations => Some(Caveats)
    case MissingEvidence => Some(References)
    case _ => None
  }

  function FieldsFor(failures: seq<ClaimFailure>): Option<set<Field>> {
    if failures == [] then Some({})
    else
      var head, last := FieldsFor(failures[..|failures| - 1]), FieldFor(failures[|failures| - 1]);
      if head.None? || last.None? then None else Some(head.value + {last.value})
  }

  predicate OnlyQuotations(failures: seq<ClaimFailure>) { forall k :: 0 <= k < |failures| ==> failures[k].BadQuotation? }

  /** The units of one claim, or none when its failures need the whole answer to be rewritten. */
  function UnitsAt(claim: Claim, i: nat, failures: seq<ClaimFailure>, chunks: seq<Chunk>,
          alpha: char -> bool): Option<seq<Unit>> {
    if OnlyQuotations(failures) then
      var units := ReferenceUnits(claim, i, |claim.references|, chunks, alpha);
      if units == [] then None else Some(units)
    else
      var fields := FieldsFor(failures);
      if fields.None? then None else Some([ClaimUnit(i, fields.value)])
  }

  function UnitsFor(claims: seq<Claim>, indexes: seq<nat>, issues: seq<Issue>, chunks: seq<Chunk>,
          alpha: char -> bool): Option<seq<Unit>>
    requires forall k :: 0 <= k < |indexes| ==> indexes[k] < |claims|
  {
    if indexes == [] then Some([])
    else
      var n := |indexes| - 1;
      var head := UnitsFor(claims, indexes[..n], issues, chunks, alpha);
      var own := UnitsAt(claims[indexes[n]], indexes[n], FailuresAt(issues, indexes[n]), chunks, alpha);
      if head.None? || own.None? then None else Some(head.value + own.value)
  }

  predicate Repairable(v: Value, issues: seq<Issue>) {
    && !v.Other? && issues != []
    && (forall k :: 0 <= k < |issues| ==>
          match issues[k]
          case AtClaim(i, _) => i < |ClaimsOf(v)|
          case AboutLayout(marked) => marked && v.Drafted?
          case Untyped => false)
  }

  lemma {:induction false} IndexOrigin(issues: seq<Issue>, i: nat)
    ensures i in Indexes(issues) <==> exists k :: 0 <= k < |issues| && issues[k].AtClaim? && issues[k].index == i
  {
    if issues != [] {
      var n := |issues| - 1;
      IndexOrigin(issues[..n], i);
      assert forall k :: 0 <= k < n ==> issues[..n][k] == issues[k];
    }
  }

  /** The claims that the issues are about, each once, in order of appearance. */
  function Affected(issues: seq<Issue>): (indexes: seq<nat>)
    ensures Distinct(indexes)
  {
    Unique(Indexes(issues))
  }

  lemma {:induction false} IndexesInRange(v: Value, issues: seq<Issue>)
    requires Repairable(v, issues)
    ensures forall k :: 0 <= k < |Affected(issues)| ==> Affected(issues)[k] < |ClaimsOf(v)|
  {
    var u := Affected(issues);
    forall k | 0 <= k < |u| ensures u[k] < |ClaimsOf(v)| {
      assert u[k] in Indexes(issues);
      IndexOrigin(issues, u[k]);
    }
  }

  /** The units for the claims an answer's issues name, each claim once. */
  function ClaimUnits(v: Value, issues: seq<Issue>, chunks: seq<Chunk>, alpha: char -> bool): Option<seq<Unit>>
    requires Repairable(v, issues)
  {
    IndexesInRange(v, issues);
    UnitsFor(ClaimsOf(v), Affected(issues), issues, chunks, alpha)
  }

  /** `plan_repairs`: precise units, or none when the whole answer must be repaired; supplied chunks that disagree
      on an id are an error. */
  function Plan(v: Value, issues: seq<Issue>, supplied: seq<Chunk>, alpha: char -> bool): Outcome<Option<seq<Unit>>> {
    if !Repairable(v, issues) then Done(None)
    else
      var chunks := MergeChunks([], supplied);
      if chunks.Raised? then Raised(InvalidResponse)
      else
        var units := ClaimUnits(v, issues, chunks.value, alpha);
        if units.None? then Done(None)
        else
          var all := units.value + (if HasLayout(issues) then [LayoutUnit] else []);
          Done(if all == [] then None else Some(all))
  }

  // ---------- Targets of a plan ----------

  function IndexOf(u: Unit): int { if u.LayoutUnit? then -1 else u.index }

  /** Units of one claim come from its references in order. */
  lemma {:induction false} ReferenceUnitAt(claim: Claim, i: nat, n: nat, chunks: seq<Chunk>, alpha: char -> bool,
          k: nat)
    returns (j: nat)
    requires n <= |claim.references| && k < |ReferenceUnits(claim, i, n, chunks, alpha)|
    ensures j < n && ReferenceUnits(claim, i, n, chunks, alpha)[k] == UnitForReference(claim, i, j, chunks, alpha)
    ensures !Quoted(claim.references[j], chunks)
  {
    hide UnitForReference, Quoted;
    if k < |ReferenceUnits(claim, i, n - 1, chunks, alpha)| {
      j := ReferenceUnitAt(claim, i, n - 1, chunks, alpha, k);
    } else {
      j := n - 1;
    }
  }

  lemma {:induction false} ReferenceUnitsApart(claim: Claim, i: nat, n: nat, chunks: seq<Chunk>, alpha: char -> bool,
          k: nat, l: nat)
    requires n <= |claim.references| && k < l < |ReferenceUnits(claim, i, n, chunks, alpha)|
    ensures var us := ReferenceUnits(claim, i, n, chunks, alpha);
            IndexOf(us[k]) == i && IndexOf(us[l]) == i && Independent(us[k], us[l])
  {
    hide Candidates, Quoted;
    if l < |ReferenceUnits(claim, i, n - 1, chunks, alpha)| {
      ReferenceUnitsApart(claim, i, n - 1, chunks, alpha, k, l);
    } else {
      var j := ReferenceUnitAt(claim, i, n - 1, chunks, alpha, k);
    }
  }

  /** The units of one claim carry its index and have distinct targets; a unit for a whole claim is alone. */
  ghost predicate Together(us: seq<Unit>, i: nat) {
    && (forall k :: 0 <= k < |us| ==> IndexOf(us[k]) == i)
    && (forall k, l :: 0 <= k < l < |us| ==> Independent(us[k], us[l]))
  }

  /** Two units that touch different parts of the answer. */
  predicate Independent(u: Unit, w: Unit) {
    match (TargetOf(u), TargetOf(w))
    case (AtReference(i, j), AtReference(k, l)) => i != k || j != l
    case (AtLayout, AtLayout) => false
    case (AtLayout, _) => true
    case (_, AtLayout) => true
    case (t, s) => t.index != s.index
  }

  lemma {:induction false} UnitsAtTogether(claim: Claim, i: nat, failures: seq<ClaimFailure>, chunks: seq<Chunk>,
          alpha: char -> bool)
    requires UnitsAt(claim, i, failures, chunks, alpha).Some?
    ensures Together(UnitsAt(claim, i, failures, chunks, alpha).value, i)
  {
    hide FieldsFor, Quoted, ReferenceUnits, Candidates, Independent;
    var us := UnitsAt(claim, i, failures, chunks, alpha).value;
    if OnlyQuotations(failures) {
      forall k | 0 <= k < |us| ensures IndexOf(us[k]) == i {
        var j := ReferenceUnitAt(claim, i, |claim.references|, chunks, alpha, k);
      }
      forall k, l | 0 <= k < l < |us| ensures Independent(us[k], us[l]) {
        ReferenceUnitsApart(claim, i, |claim.references|, chunks, alpha, k, l);
      }
    }
  }

  ghost predicate AllIndependent(us: seq<Unit>) { forall k, l :: 0 <= k < l < |us| ==> Independent(us[k], us[l]) }

  lemma {:induction false} UnitsApart(claims: seq<Claim>, indexes: seq<nat>, issues: seq<Issue>, chunks: seq<Chunk>,
          alpha: char -> bool)
    requires (forall k :: 0 <= k < |indexes| ==> indexes[k] < |claims|) && Distinct(indexes)
    requires UnitsFor(claims, indexes, issues, chunks, alpha).Some?
    ensures var us := UnitsFor(claims, indexes, issues, chunks, alpha).value;
            AllIndependent(us) && forall k :: 0 <= k < |us| ==> !us[k].LayoutUnit? && us[k].index in indexes
  {
    hide UnitsAt, FailuresAt;
    if indexes != [] {
      var n := |indexes| - 1;
      var head := UnitsFor(claims, indexes[..n], issues, chunks, alpha).value;
      var own := UnitsAt(claims[indexes[n]], indexes[n], FailuresAt(issues, indexes[n]), chunks, alpha).value;
      UnitsApart(claims, indexes[..n], issues, chunks, alpha);
      UnitsAtTogether(claims[indexes[n]], indexes[n], FailuresAt(issues, indexes[n]), chunks, alpha);
      assert indexes == indexes[..n] + [indexes[n]];
      forall k, l | 0 <= k < |head| && 0 <= l < |own| ensures Independent(head[k], own[l]) {
        assert head[k].index in indexes[..n];
        var m :| 0 <= m < n && indexes[m] == head[k].index;
        assert IndexOf(own[l]) == indexes[n];
      }
      JoinIndependent(head, own);
    }
  }

  lemma {:induction false} JoinIndependent(a: seq<Unit>, b: seq<Unit>)
    requires AllIndependent(a) && AllIndependent(b) && forall k, l :: 0 <= k < |a| && 0 <= l < |b| ==> Independent(a[k], b[l])
    ensures AllIndependent(a + b)
  {
    hide Independent;
  }

  /** The units of one plan touch different parts of the answer and have different target ids. */
  lemma {:induction false} PlanIndependent(v: Value, issues: seq<Issue>, supplied: seq<Chunk>, alpha: char -> bool)
    requires Plan(v, issues, supplied, alpha).Done? && Plan(v, issues, supplied, alpha).value.Some?
    ensures var us := Plan(v, issues, supplied, alpha).value.value;
            && AllIndependent(us)
            && forall k, l :: 0 <= k < l < |us| ==> TargetId(v, us[k]) != TargetId(v, us[l])
  {
    hide UnitsFor, MergeChunks, Affected, TargetId;
    var chunks := MergeChunks([], supplied).value;
    IndexesInRange(v, issues);
    UnitsApart(ClaimsOf(v), Affected(issues), issues, chunks, alpha);
    var us := Plan(v, issues, supplied, alpha).value.value;
    var own := ClaimUnits(v, issues, chunks, alpha).value;
    forall k | 0 <= k < |own| ensures Independent(own[k], LayoutUnit) { assert !own[k].LayoutUnit?; }
    if HasLayout(issues) {
      JoinIndependent(own, [LayoutUnit]);
    } else {
      assert us == own;
    }
    forall k, l | 0 <= k < l < |us| ensures TargetId(v, us[k]) != TargetId(v, us[l]) {
      if TargetId(v, us[k]) == TargetId(v, us[l]) {
        TargetIdInjective(v, us[k], us[l]);
      }
    }
  }

  // ---------- Applying a patch ----------

  function First(chunks: seq<Chunk>, id: string): (c: Option<Chunk>)
    ensures c.Some? ==> c.value in chunks && c.value.id == id
  {
    if chunks == [] then None else if chunks[0].id == id then Some(chunks[0]) else First(chunks[1..], id)
  }

  /** A quotation that is long enough and stands in the chunk. */
  predicate Stands(quote: string, c: Chunk) {
    |Normalized(quote)| >= MIN_QUOTE && Contains(Normalized(c.text), Normalized(quote))
  }

  predicate FieldsKept(was: Claim, now: Claim, fields: set<Field>) {
    && now.technology == was.technology && now.facet == was.facet && now.text == was.text && now.kind == was.kind
    && (Conditions !in fields ==> now.conditions == was.conditions)
    && (Caveats !in fields ==> now.caveats == was.caveats)
    && (References !in fields ==> now.references == was.references)
    && (References in fields ==> forall k :: 0 <= k < |was.references| ==> was.references[k] in now.references)
  }

  /** The claim with the patch applied, or the refusal. */
  function PatchedClaim(c: Claim, u: Unit, p: Patch, target: string, alpha: char -> bool): Outcome<Claim> {
    match u
    case ReferenceUnit(_, j, chunks, ref, preserve) =>
      if !p.ReferencePatch? || p.target != target || j >= |c.references| then Raised(InvalidResponse)
      else
        var chunk := First(chunks, p.chunkId);
        if chunk.None? || !Usable(c)(chunk.value) then Raised(InvalidResponse)
        else
          var verbatim := Restored(p.quote, chunk.value.text, alpha);
          if !Stands(verbatim, chunk.value) then Raised(InvalidResponse)
          else if preserve && Normalized(verbatim) != Normalized(Restored(ref.quote, chunk.value.text, alpha))
            then Raised(InvalidResponse)
          else Done(c.(references := c.references[j := Reference(p.chunkId, verbatim)]))
    case CitationUnit(_, j) =>
      if !p.CitationPatch? || p.target != target || j >= |c.references| then Raised(InvalidResponse)
      else Done(c.(references := c.references[j := c.references[j].(quote := p.quote)]))
    case ClaimUnit(_, fields) =>
      if !p.ClaimPatch? || p.target != target || !FieldsKept(c, p.claim, fields) then Raised(InvalidResponse)
      else Done(p.claim)
    case LayoutUnit => Raised(InvalidResponse)
  }

  /** `apply_patch`: the answer with one target changed, or the refusal. */
  function Apply(v: Value, u: Unit, p: Patch, alpha: char -> bool): Outcome<Value> {
    if u.LayoutUnit? then
      if p.LayoutPatch? && v.Drafted? then Done(Drafted(v.report.(summaryClaimIds := p.summary, sections := p.sections)))
      else Raised(InvalidResponse)
    else if v.Other? || u.index >= |ClaimsOf(v)| then Raised(InvalidResponse)
    else
      var claim := PatchedClaim(ClaimsOf(v)[u.index], u, p, TargetId(v, u), alpha);
      if claim.Raised? then Raised(InvalidResponse)
      else Done(WithClaims(v, ClaimsOf(v)[u.index := claim.value]))
  }

  type Edit = (Unit, Patch)

  /** Patches applied one after the other; the first refusal ends it. */
  function ApplyAll(o: Outcome<Value>, edits: seq<Edit>, alpha: char -> bool): Outcome<Value>
    decreases |edits|
  {
    if o.Raised? then Raised(InvalidResponse)
    else if edits == [] then o
    else ApplyAll(Apply(o.value, edits[0].0, edits[0].1, alpha), edits[1..], alpha)
  }

  // ---------- What a patch can change ----------

  /** What a unit may change: one reference, with or without binding it to another chunk, some fields of a claim, or the
      layout. */
  datatype Scope =
    | OneReference(index: nat, position: nat, rebinds: bool)
    | SomeFields(index: nat, fields: set<Field>)
    | WholeLayout

  function ScopeOf(u: Unit): Scope {
    match u
    case ReferenceUnit(i, j, _, _, _) => OneReference(i, j, true)
    case CitationUnit(i, j) => OneReference(i, j, false)
    case ClaimUnit(i, fields) => SomeFields(i, fields)
    case LayoutUnit => WholeLayout
  }

  /** Some unit was asked to change this field of claim `i`. */
  ghost predicate FieldOpen(i: nat, field: Field, scopes: set<Scope>) {
    exists fields :: SomeFields(i, fields) in scopes && field in fields
  }

  ghost predicate ReferenceOpen(i: nat, scopes: set<Scope>) {
    exists j, rebinds :: OneReference(i, j, rebinds) in scopes
  }

  /** A reference stays unless a unit was asked to change it; its chunk stays unless that unit may bind it anew. */
  predicate ReferenceKept(was: Reference, now: Reference, i: nat, j: nat, scopes: set<Scope>) {
    || now == was
    || OneReference(i, j, true) in scopes
    || (OneReference(i, j, false) in scopes && now.chunkId == was.chunkId)
  }

  /** References keep their places; where new ones may be added, none is dropped. */
  ghost predicate ReferencesKept(was: seq<Reference>, now: seq<Reference>, i: nat, scopes: set<Scope>) {
    if FieldOpen(i, References, scopes)
    then !ReferenceOpen(i, scopes) ==> forall k :: 0 <= k < |was| ==> was[k] in now
    else |now| == |was| && forall j :: 0 <= j < |was| ==> ReferenceKept(was[j], now[j], i, j, scopes)
  }

  /** Identity, wording and kind of a claim never change, and every other field only when a unit was asked to change
      it. */
  ghost predicate ClaimKept(was: Claim, now: Claim, i: nat, scopes: set<Scope>) {
    && now.technology == was.technology && now.facet == was.facet && now.text == was.text && now.kind == was.kind
    && (FieldOpen(i, Conditions, scopes) || now.conditions == was.conditions)
    && (FieldOpen(i, Caveats, scopes) || now.caveats == was.caveats)
    && ReferencesKept(was.references, now.references, i, scopes)
  }

  /** Everything but the claims and the layout. */
  function Frame(v: Value): Value {
    match v
    case Assessed(a) => Assessed(a.(claims := []))
    case Drafted(r) => Drafted(r.(synthesisClaims := [], summaryClaimIds := [], sections := []))
    case Other => Other
  }

  predicate LayoutKept(v: Value, w: Value) {
    v.Drafted? && w.Drafted? ==> v.report.summaryClaimIds == w.report.summaryClaimIds && v.report.sections == w.report.sections
  }

  /** The answers differ at most within the given scopes. */
  ghost predicate Changes(v: Value, w: Value, scopes: set<Scope>) {
    && Frame(v) == Frame(w) && |ClaimsOf(v)| == |ClaimsOf(w)|
    && (forall i :: 0 <= i < |ClaimsOf(v)| ==> ClaimKept(ClaimsOf(v)[i], ClaimsOf(w)[i], i, scopes))
    && (WholeLayout in scopes || LayoutKept(v, w))
  }

  lemma {:induction false} OneUnitOpens(u: Unit, i: nat, field: Field)
    ensures FieldOpen(i, field, {ScopeOf(u)}) <==> u.ClaimUnit? && u.index == i && field in u.fields
    ensures ReferenceOpen(i, {ScopeOf(u)}) <==> (u.ReferenceUnit? || u.CitationUnit?) && u.index == i
  {
    if u.ClaimUnit? && u.index == i && field in u.fields {
      assert SomeFields(i, u.fields) in {ScopeOf(u)};
    }
    if (u.ReferenceUnit? || u.CitationUnit?) && u.index == i {
      assert OneReference(i, u.position, u.ReferenceUnit?) in {ScopeOf(u)};
    }
  }

  lemma {:induction false} PatchChanges(c: Claim, u: Unit, p: Patch, target: string, alpha: char -> bool)
    requires !u.LayoutUnit? && PatchedClaim(c, u, p, target, alpha).Done?
    ensures ClaimKept(c, PatchedClaim(c, u, p, target, alpha).value, u.index, {ScopeOf(u)})
    ensures PatchedClaim(c, u, p, target, alpha).value.technology == c.technology
  {
    hide Restored, Stands, FieldOpen, ReferenceOpen;
    OneUnitOpens(u, u.index, Conditions);
    OneUnitOpens(u, u.index, Caveats);
    OneUnitOpens(u, u.index, References);
  }

  lemma {:induction false} UntouchedKept(c: Claim, i: nat, scopes: set<Scope>)
    ensures ClaimKept(c, c, i, scopes)
  {
  }

  lemma {:induction false} ApplyChanges(v: Value, u: Unit, p: Patch, alpha: char -> bool)
    requires Apply(v, u, p, alpha).Done?
    ensures Changes(v, Apply(v, u, p, alpha).value, {ScopeOf(u)})
  {
    hide PatchedClaim, TargetId, ClaimKept;
    forall i | 0 <= i < |ClaimsOf(v)| ensures ClaimKept(ClaimsOf(v)[i], ClaimsOf(v)[i], i, {ScopeOf(u)}) {
      UntouchedKept(ClaimsOf(v)[i], i, {ScopeOf(u)});
    }
    if !u.LayoutUnit? {
      PatchChanges(ClaimsOf(v)[u.index], u, p, TargetId(v, u), alpha);
    }
  }

  lemma {:induction false} OpenJoined(i: nat, field: Field, s: set<Scope>, t: set<Scope>)
    ensures FieldOpen(i, field, s + t) <==> FieldOpen(i, field, s) || FieldOpen(i, field, t)
    ensures ReferenceOpen(i, s + t) <==> ReferenceOpen(i, s) || ReferenceOpen(i, t)
  {
    if fields :| SomeFields(i, fields) in s && field in fields { assert SomeFields(i, fields) in s + t; }
    if fields :| SomeFields(i, fields) in t && field in fields { assert SomeFields(i, fields) in s + t; }
    if j, rebinds :| OneReference(i, j, rebinds) in s { assert OneReference(i, j, rebinds) in s + t; }
    if j, rebinds :| OneReference(i, j, rebinds) in t { assert OneReference(i, j, rebinds) in s + t; }
  }

  lemma {:induction false} AllReferencesKept(was: seq<Reference>, now: seq<Reference>, i: nat, scopes: set<Scope>)
    requires ReferencesKept(was, now, i, scopes) && !ReferenceOpen(i, scopes)
    ensures forall k :: 0 <= k < |was| ==> was[k] in now
  {
    if !FieldOpen(i, References, scopes) {
      forall k | 0 <= k < |was| ensures was[k] in now {
        assert OneReference(i, k, true) !in scopes && OneReference(i, k, false) !in scopes;
      }
    }
  }

  lemma {:induction false} ReferencesTransitive(a: seq<Reference>, b: seq<Reference>, c: seq<Reference>, i: nat,
          s: set<Scope>, t: set<Scope>)
    requires ReferencesKept(a, b, i, s) && ReferencesKept(b, c, i, t)
    ensures ReferencesKept(a, c, i, s + t)
  {
    OpenJoined(i, References, s, t);
    if FieldOpen(i, References, s + t) {
      if !ReferenceOpen(i, s + t) {
        AllReferencesKept(a, b, i, s);
        AllReferencesKept(b, c, i, t);
        forall k | 0 <= k < |a| ensures a[k] in c { var m :| 0 <= m < |b| && b[m] == a[k]; }
      }
    } else {
      hide FieldOpen, ReferenceOpen;
    }
  }

  lemma {:induction false} KeptTransitive(a: Claim, b: Claim, c: Claim, i: nat, s: set<Scope>, t: set<Scope>)
    requires ClaimKept(a, b, i, s) && ClaimKept(b, c, i, t)
    ensures ClaimKept(a, c, i, s + t)
  {
    hide FieldOpen, ReferencesKept;
    OpenJoined(i, Conditions, s, t);
    OpenJoined(i, Caveats, s, t);
    ReferencesTransitive(a.references, b.references, c.references, i, s, t);
  }

  lemma {:induction false} ChangesTransitive(v: Value, w: Value, x: Value, s: set<Scope>, t: set<Scope>)
    requires Changes(v, w, s) && Changes(w, x, t)
    ensures Changes(v, x, s + t)
  {
    hide ClaimKept;
    forall i | 0 <= i < |ClaimsOf(v)| ensures ClaimKept(ClaimsOf(v)[i], ClaimsOf(x)[i], i, s + t) {
      KeptTransitive(ClaimsOf(v)[i], ClaimsOf(w)[i], ClaimsOf(x)[i], i, s, t);
    }
  }

  lemma {:induction false} NothingChanges(v: Value)
    ensures Changes(v, v, {})
  {
    hide ClaimKept;
    forall i | 0 <= i < |ClaimsOf(v)| ensures ClaimKept(ClaimsOf(v)[i], ClaimsOf(v)[i], i, {}) {
      UntouchedKept(ClaimsOf(v)[i], i, {});
    }
  }

  function Scopes(edits: seq<Edit>): set<Scope> { set k | 0 <= k < |edits| :: ScopeOf(edits[k].0) }

  /** However many patches are accepted, the answer differs only at the fields and references they were asked for:
      claims keep their identity, wording and kind, no earlier reference is dropped, and a corrected quotation keeps
      its chunk. */
  lemma {:induction false} OnlyTargetsChange(v: Value, edits: seq<Edit>, alpha: char -> bool)
    requires ApplyAll(Done(v), edits, alpha).Done?
    ensures Changes(v, ApplyAll(Done(v), edits, alpha).value, Scopes(edits))
    decreases |edits|
  {
    hide Apply, Changes;
    if edits == [] {
      NothingChanges(v);
      assert Scopes(edits) == {};
    } else {
      var next := Apply(v, edits[0].0, edits[0].1, alpha);
      ApplyChanges(v, edits[0].0, edits[0].1, alpha);
      OnlyTargetsChange(next.value, edits[1..], alpha);
      ChangesTransitive(v, next.value, ApplyAll(Done(v), edits, alpha).value, {ScopeOf(edits[0].0)}, Scopes(edits[1..]));
      assert Scopes(edits) == {ScopeOf(edits[0].0)} + Scopes(edits[1..]) by { ScopesCons(edits); }
    }
  }

  lemma {:induction false} ScopesCons(edits: seq<Edit>)
    requires edits != []
    ensures Scopes(edits) == {ScopeOf(edits[0].0)} + Scopes(edits[1..])
  {
    forall t | t in Scopes(edits) ensures t in {ScopeOf(edits[0].0)} + Scopes(edits[1..]) {
      var k :| 0 <= k < |edits| && t == ScopeOf(edits[k].0);
      if k > 0 { assert edits[1..][k - 1] == edits[k]; }
    }
    forall t | t in Scopes(edits[1..]) ensures t in Scopes(edits) {
      var k :| 0 <= k < |edits[1..]| && t == ScopeOf(edits[1..][k].0);
      assert edits[k + 1] == edits[1..][k];
    }
  }

  // ---------- Independent patches commute ----------

  lemma {:induction false} PatchesCommute(c: Claim, u: Unit, p: Patch, w: Unit, q: Patch, target: string, other: string,
          alpha: char -> bool)
    requires TargetOf(u).AtReference? && TargetOf(w).AtReference? && u.position != w.position
    ensures var a, b := PatchedClaim(c, u, p, target, alpha), PatchedClaim(c, w, q, other, alpha);
            && (a.Done? ==> (PatchedClaim(a.value, w, q, other, alpha).Done? <==> b.Done?))
            && (b.Done? ==> (PatchedClaim(b.value, u, p, target, alpha).Done? <==> a.Done?))
            && (a.Done? && b.Done? ==> PatchedClaim(a.value, w, q, other, alpha) == PatchedClaim(b.value, u, p, target, alpha))
  {
    hide Restored, Stands, First;
    var a, b := PatchedClaim(c, u, p, target, alpha), PatchedClaim(c, w, q, other, alpha);
    if a.Done? && b.Done? {
      var j, l := u.position, w.position;
      assert a.value.references[l] == c.references[l] && b.value.references[j] == c.references[j];
      assert c.references[j := a.value.references[j]][l := b.value.references[l]]
          == c.references[l := b.value.references[l]][j := a.value.references[j]];
    }
  }

  /** Two independent patches are accepted or refused alike in both orders, and give the same answer. */
  lemma {:induction false} Commute(v: Value, x: Edit, y: Edit, alpha: char -> bool)
    requires Independent(x.0, y.0)
    ensures ApplyAll(Apply(v, x.0, x.1, alpha), [y], alpha) == ApplyAll(Apply(v, y.0, y.1, alpha), [x], alpha)
  {
    hide PatchedClaim, TargetId, Apply, ApplyAll;
    var (u, p) := x;
    var (w, q) := y;
    assert ApplyAll(Apply(v, u, p, alpha), [y], alpha) ==
           if Apply(v, u, p, alpha).Raised? then Raised(InvalidResponse) else Apply(Apply(v, u, p, alpha).value, w, q, alpha)
      by { OneMore(Apply(v, u, p, alpha), y, alpha); }
    assert ApplyAll(Apply(v, w, q, alpha), [x], alpha) ==
           if Apply(v, w, q, alpha).Raised? then Raised(InvalidResponse) else Apply(Apply(v, w, q, alpha).value, u, p, alpha)
      by { OneMore(Apply(v, w, q, alpha), x, alpha); }
    CommuteApplied(v, x, y, alpha);
  }

  lemma {:induction false} OneMore(o: Outcome<Value>, y: Edit, alpha: char -> bool)
    ensures ApplyAll(o, [y], alpha) == if o.Raised? then Raised(InvalidResponse) else Apply(o.value, y.0, y.1, alpha)
  {
    assert [y][1..] == [];
    if o.Done? { RefusalCode(o.value, y.0, y.1, alpha); }
    hide Apply;
  }

  lemma {:induction false} RefusalCode(v: Value, u: Unit, p: Patch, alpha: char -> bool)
    ensures Apply(v, u, p, alpha).Raised? ==> Apply(v, u, p, alpha).code == InvalidResponse
  {
    hide PatchedClaim, TargetId;
  }

  lemma {:induction false} ClaimsReplaced(v: Value, claims: seq<Claim>, u: Unit)
    requires !v.Other?
    ensures ClaimsOf(WithClaims(v, claims)) == claims && !WithClaims(v, claims).Other?
    ensures TargetId(WithClaims(v, claims), u) == TargetId(v, u)
    ensures forall more :: WithClaims(WithClaims(v, claims), more) == WithClaims(v, more)
  {
    hide TargetId;
    forall more ensures WithClaims(WithClaims(v, claims), more) == WithClaims(v, more) {
      WithClaimsTwice(v, claims, more);
    }
    match v
    case Assessed(a) => assert TargetId(Assessed(a.(claims := claims)), u) == TargetId(v, u) by { SameCollection(v, claims, u); }
    case Drafted(r) => assert TargetId(Drafted(r.(synthesisClaims := claims)), u) == TargetId(v, u) by { SameCollection(v, claims, u); }
  }

  lemma {:induction false} WithClaimsTwice(v: Value, a: seq<Claim>, b: seq<Claim>)
    ensures WithClaims(WithClaims(v, a), b) == WithClaims(v, b)
  {
    match v
    case Assessed(x) => assert x.(claims := a).(claims := b) == x.(claims := b);
    case Drafted(r) => assert r.(synthesisClaims := a).(synthesisClaims := b) == r.(synthesisClaims := b);
    case Other =>
  }

  lemma {:induction false} SameCollection(v: Value, claims: seq<Claim>, u: Unit)
    ensures TargetId(WithClaims(v, claims), u) == TargetId(v, u)
  {
  }

  lemma {:induction false} CommuteApplied(v: Value, x: Edit, y: Edit, alpha: char -> bool)
    requires Independent(x.0, y.0)
    ensures var a, b := Apply(v, x.0, x.1, alpha), Apply(v, y.0, y.1, alpha);
            (if a.Raised? then Raised(InvalidResponse) else Apply(a.value, y.0, y.1, alpha))
            == (if b.Raised? then Raised(InvalidResponse) else Apply(b.value, x.0, x.1, alpha))
  {
    hide PatchedClaim, TargetId;
    var (u, p) := x;
    var (w, q) := y;
    if u.LayoutUnit? || w.LayoutUnit? {
      LayoutTargets(v, u, w);
    } else if !v.Other? && u.index < |ClaimsOf(v)| && w.index < |ClaimsOf(v)| {
      if u.index == w.index {
        PatchesCommute(ClaimsOf(v)[u.index], u, p, w, q, TargetId(v, u), TargetId(v, w), alpha);
      }
      CommuteClaims(v, x, y, alpha);
    } else {
      OutOfRange(v, u, p, alpha);
      OutOfRange(v, w, q, alpha);
    }
  }

  /** A patch leaves the number of claims and the kind of answer as they are. */
  lemma {:induction false} OutOfRange(v: Value, u: Unit, p: Patch, alpha: char -> bool)
    ensures Apply(v, u, p, alpha).Done? ==>
              |ClaimsOf(Apply(v, u, p, alpha).value)| == |ClaimsOf(v)| && (v.Other? <==> Apply(v, u, p, alpha).value.Other?)
  {
    hide PatchedClaim, TargetId;
  }

  lemma {:induction false} LayoutTargets(v: Value, u: Unit, w: Unit)
    ensures v.Drafted? ==> forall s, t ::
              TargetId(Drafted(v.report.(summaryClaimIds := s, sections := t)), u) == TargetId(v, u)
              && TargetId(Drafted(v.report.(summaryClaimIds := s, sections := t)), w) == TargetId(v, w)
    ensures !v.Other? ==> forall claims ::
              TargetId(WithClaims(v, claims), u) == TargetId(v, u) && TargetId(WithClaims(v, claims), w) == TargetId(v, w)
  {
  }

  lemma {:induction false} CommuteClaims(v: Value, x: Edit, y: Edit, alpha: char -> bool)
    requires !x.0.LayoutUnit? && !y.0.LayoutUnit? && !v.Other? && x.0.index < |ClaimsOf(v)| && y.0.index < |ClaimsOf(v)|
    requires x.0.index == y.0.index ==>
               var c, target, other := ClaimsOf(v)[x.0.index], TargetId(v, x.0), TargetId(v, y.0);
               var a, b := PatchedClaim(c, x.0, x.1, target, alpha), PatchedClaim(c, y.0, y.1, other, alpha);
               && (a.Done? ==> (PatchedClaim(a.value, y.0, y.1, other, alpha).Done? <==> b.Done?))
               && (b.Done? ==> (PatchedClaim(b.value, x.0, x.1, target, alpha).Done? <==> a.Done?))
               && (a.Done? && b.Done? ==>
                     PatchedClaim(a.value, y.0, y.1, other, alpha) == PatchedClaim(b.value, x.0, x.1, target, alpha))
    ensures var a, b := Apply(v, x.0, x.1, alpha), Apply(v, y.0, y.1, alpha);
            (if a.Raised? then Raised(InvalidResponse) else Apply(a.value, y.0, y.1, alpha))
            == (if b.Raised? then Raised(InvalidResponse) else Apply(b.value, x.0, x.1, alpha))
  {
    hide PatchedClaim, TargetId;
    var (u, p) := x;
    var (w, q) := y;
    var claims := ClaimsOf(v);
    var a := PatchedClaim(claims[u.index], u, p, TargetId(v, u), alpha);
    var b := PatchedClaim(claims[w.index], w, q, TargetId(v, w), alpha);
    if a.Done? {
      ClaimsReplaced(v, claims[u.index := a.value], w);
    }
    if b.Done? {
      ClaimsReplaced(v, claims[w.index := b.value], u);
    }
    if a.Done? && b.Done? && u.index != w.index {
      assert claims[u.index := a.value][w.index := b.value] == claims[w.index := b.value][u.index := a.value];
    }
    if a.Done? && b.Done? && u.index == w.index {
      var ab := PatchedClaim(a.value, w, q, TargetId(v, w), alpha);
      if ab.Done? {
        assert claims[u.index := a.value][w.index := ab.value] == claims[w.index := b.value][u.index := ab.value];
      }
    }
  }

  // ---------- Any order ----------

  /** The edits with one of them taken out. */
  function Without(edits: seq<Edit>, k: nat): (rest: seq<Edit>)
    requires k < |edits|
    ensures |rest| == |edits| - 1
  {
    edits[..k] + edits[k + 1..]
  }

  ghost predicate EditsIndependent(edits: seq<Edit>) {
    forall k, l :: 0 <= k < l < |edits| ==> Independent(edits[k].0, edits[l].0)
  }

  /** Independent edits never change both a field and a single reference of one claim. */
  lemma {:induction false} IndependentScopes(edits: seq<Edit>, i: nat, field: Field)
    requires EditsIndependent(edits) && FieldOpen(i, field, Scopes(edits))
    ensures !ReferenceOpen(i, Scopes(edits))
  {
    var fields :| SomeFields(i, fields) in Scopes(edits) && field in fields;
    var k :| 0 <= k < |edits| && ScopeOf(edits[k].0) == SomeFields(i, fields);
    forall l | 0 <= l < |edits| ensures !(ScopeOf(edits[l].0).OneReference? && edits[l].0.index == i) {
      if l < k {
        assert Independent(edits[l].0, edits[k].0);
      } else if k < l {
        assert Independent(edits[k].0, edits[l].0);
      }
    }
  }

  /** Any of the edits can be made first. */
  lemma {:induction false} MoveFirst(o: Outcome<Value>, edits: seq<Edit>, k: nat, alpha: char -> bool)
    requires k < |edits| && EditsIndependent(edits)
    ensures ApplyAll(o, edits, alpha) == ApplyAll(o, [edits[k]] + Without(edits, k), alpha)
    decreases k
  {
    hide Apply, ApplyAll, Independent;
    if o.Raised? {
      RefusedStays(o, edits, alpha);
      RefusedStays(o, [edits[k]] + Without(edits, k), alpha);
    } else if k == 0 {
      assert [edits[0]] + Without(edits, 0) == edits;
    } else {
      var first, x, tail := edits[0], edits[k], edits[1..];
      var rest := Without(tail, k - 1);
      assert forall i :: 0 <= i < |tail| ==> tail[i] == edits[i + 1];
      MoveFirst(Apply(o.value, first.0, first.1, alpha), tail, k - 1, alpha);
      assert tail[k - 1] == x && Without(edits, k) == [first] + rest;
      TwoFirst(o, first, x, rest, alpha);
      TwoFirst(o, x, first, rest, alpha);
      Commute(o.value, first, x, alpha);
      assert [x] + Without(edits, k) == [x, first] + rest;
      assert edits == [first] + tail;
      ConsAll(o, first, [x] + rest, alpha);
      ConsAll(o, first, tail, alpha);
    }
  }

  lemma {:induction false} RefusedStays(o: Outcome<Value>, edits: seq<Edit>, alpha: char -> bool)
    requires o.Raised?
    ensures ApplyAll(o, edits, alpha) == Raised(InvalidResponse)
  {
  }

  lemma {:induction false} ConsAll(o: Outcome<Value>, first: Edit, tail: seq<Edit>, alpha: char -> bool)
    requires o.Done?
    ensures ApplyAll(o, [first] + tail, alpha) == ApplyAll(Apply(o.value, first.0, first.1, alpha), tail, alpha)
  {
    hide Apply;
    assert ([first] + tail)[1..] == tail;
  }

  lemma {:induction false} TwoFirst(o: Outcome<Value>, x: Edit, y: Edit, rest: seq<Edit>, alpha: char -> bool)
    requires o.Done?
    ensures ApplyAll(o, [x, y] + rest, alpha) ==
            ApplyAll(ApplyAll(Apply(o.value, x.0, x.1, alpha), [y], alpha), rest, alpha)
    ensures ApplyAll(o, [x] + ([y] + rest), alpha) == ApplyAll(o, [x, y] + rest, alpha)
  {
    hide Apply;
    assert [x, y] + rest == [x] + ([y] + rest);
    ConsAll(o, x, [y] + rest, alpha);
    var next := Apply(o.value, x.0, x.1, alpha);
    OneMore(next, y, alpha);
    if next.Done? { ConsAll(next, y, rest, alpha); }
  }

  lemma {:induction false} WithoutIndependent(edits: seq<Edit>, k: nat)
    requires k < |edits| && EditsIndependent(edits)
    ensures EditsIndependent(Without(edits, k))
  {
    hide Independent;
    var rest := Without(edits, k);
    assert forall i :: 0 <= i < |rest| ==> rest[i] == if i < k then edits[i] else edits[i + 1];
  }

  lemma {:induction false} WithoutCount(edits: seq<Edit>, k: nat)
    requires k < |edits|
    ensures multiset(edits) == multiset(Without(edits, k)) + multiset{edits[k]}
  {
    assert edits == edits[..k] + ([edits[k]] + edits[k + 1..]);
  }

  lemma {:induction false} Cancel(a: multiset<Edit>, b: multiset<Edit>, x: Edit)
    requires a + multiset{x} == multiset{x} + b
    ensures a == b
  {
    assert a == a + multiset{x} - multiset{x};
    assert b == multiset{x} + b - multiset{x};
  }

  /** The patches of independent units merge to the same answer, or to the same refusal, in every order. */
  lemma {:induction false} AnyOrder(o: Outcome<Value>, edits: seq<Edit>, other: seq<Edit>, alpha: char -> bool)
    requires EditsIndependent(edits) && multiset(edits) == multiset(other)
    ensures ApplyAll(o, edits, alpha) == ApplyAll(o, other, alpha)
    decreases |edits|
  {
    hide Apply, EditsIndependent;
    if other == [] {
      assert |edits| == |multiset(edits)| == |multiset(other)| == 0;
    } else {
      assert other[0] in multiset(edits);
      var k :| 0 <= k < |edits| && edits[k] == other[0];
      MoveFirst(o, edits, k, alpha);
      WithoutIndependent(edits, k);
      WithoutCount(edits, k);
      assert other == [other[0]] + other[1..];
      if o.Done? {
        var next := Apply(o.value, other[0].0, other[0].1, alpha);
        ConsAll(o, other[0], Without(edits, k), alpha);
        Cancel(multiset(Without(edits, k)), multiset(other[1..]), other[0]);
        AnyOrder(next, Without(edits, k), other[1..], alpha);
      }
    }
  }

  // ---------- Accepted references ----------

  lemma {:induction false} FirstHolds(chunks: seq<Chunk>, id: string)
    ensures First(chunks, id).Some? <==> exists k :: 0 <= k < |chunks| && chunks[k].id == id
  {
    if chunks != [] {
      FirstHolds(chunks[1..], id);
      assert forall k :: 0 < k < |chunks| ==> chunks[1..][k - 1] == chunks[k];
    }
  }

  lemma {:induction false} CandidatesSupplied(claim: Claim, ref: Reference, chunks: seq<Chunk>, alpha: char -> bool)
    ensures forall c :: c in Candidates(claim, ref, chunks, alpha) ==> c in chunks && Usable(claim)(c)
    ensures Lookup(chunks, ref.chunkId).Some? ==> forall c :: c in Candidates(claim, ref, chunks, alpha) ==> Rebinds(ref, alpha)(c)
  {
    hide QuoteSpan, Lookup, Restored, Least;
    var usable := PickChunks(chunks, Usable(claim));
    forall c | c in usable ensures c in chunks && Usable(claim)(c) {
      var k :| 0 <= k < |usable| && usable[k] == c;
    }
    var holding := PickChunks(usable, Rebinds(ref, alpha));
    forall c | c in holding ensures c in usable && Rebinds(ref, alpha)(c) {
      var k :| 0 <= k < |holding| && holding[k] == c;
    }
  }

  /** A unit of a plan for a broken reference. */
  ghost predicate Planned(u: Unit, claim: Claim, chunks: seq<Chunk>, alpha: char -> bool) {
    u.ReferenceUnit? && u.position < |claim.references| && u == UnitForReference(claim, u.index, u.position, chunks, alpha)
  }

  /** An accepted reference patch always clears its quotation error: the new reference is quoted from a supplied
      chunk. */
  lemma {:induction false} AcceptedReferenceIsQuoted(claim: Claim, c: Claim, u: Unit, p: Patch, target: string,
          chunks: seq<Chunk>, alpha: char -> bool)
    requires Planned(u, claim, chunks, alpha) && Distinct(ChunkIds(chunks))
    requires PatchedClaim(c, u, p, target, alpha).Done?
    ensures var now := PatchedClaim(c, u, p, target, alpha).value;
            && u.position < |now.references| && Quoted(now.references[u.position], chunks)
            && RefFailure(now.references[u.position], chunks, None) == []
  {
    hide Candidates, Restored, Lookup, Contains, Normalized;
    CandidatesSupplied(claim, claim.references[u.position], chunks, alpha);
    var chunk := First(u.chunks, p.chunkId).value;
    var k :| 0 <= k < |chunks| && chunks[k] == chunk;
    OnlyOfItsId(chunks, k);
  }

  /** The patch that the code makes itself, for a quotation that only one other supplied chunk holds. */
  function OwnPatch(u: Unit, target: string): Patch
    requires u.ReferenceUnit? && u.chunks != []
  {
    ReferencePatch(target, u.chunks[0].id, u.reference.quote)
  }

  /** The code's own patch is never refused, on any answer that still has the claim's reference and technology. */
  lemma {:induction false} OwnPatchAccepted(claim: Claim, c: Claim, u: Unit, target: string, chunks: seq<Chunk>,
          alpha: char -> bool)
    requires Planned(u, claim, chunks, alpha) && IsLetterClass(alpha) && u.preserve && |u.chunks| == 1
    requires c.technology == claim.technology && u.position < |c.references|
    ensures PatchedClaim(c, u, OwnPatch(u, target), target, alpha).Done?
  {
    hide Candidates, Restored, Lookup, Contains, Normalized;
    var ref, chunk := claim.references[u.position], u.chunks[0];
    CandidatesSupplied(claim, ref, chunks, alpha);
    assert chunk in u.chunks;
    RestoredLongEnough(ref.quote, chunk.text, alpha);
    assert First(u.chunks, chunk.id) == Some(chunk);
  }

  lemma {:induction false} RestoredLongEnough(quote: string, source: string, alpha: char -> bool)
    requires IsLetterClass(alpha)
    ensures |Normalized(Restored(quote, source, alpha))| >= |Normalized(quote)|
  {
    hide Restored, Normalized;
    RestoredKeepsWording(quote, source, alpha);
  }
}
