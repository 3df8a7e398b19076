/** Conflict provenance: records built from assessments, and their checks (rag/conflicts.py). */
module Conflicts {
  import opened Schema
  import opened Texts
  import opened Ids
  import opened Evidence

  datatype ConflictKind = Unclassified | ConditionDifference | Contradiction | Tradeoff

  datatype ConflictRecord = ConflictRecord(
    id: string, perspective: string, text: string,
    candidateIds: seq<string>, explicitIds: seq<string>, verifiedIds: seq<string>,
    conditions: map<string, string>, evidenceIds: map<string, seq<string>>,
    kind: ConflictKind, resolved: bool, rationale: string, reviewedBy: string)

  const RATIONALE := "소유" + " 관점과 원문에 명시된 주장 ID로 후보를 연결했습니다. 의미 관계·유형·해소 여부는 미검수입니다."

  /** Whether a conflict text names a claim id as a whole word: any relation serves. */
  type Naming = (string, string) -> bool

  /** The keys of the entries that satisfy `p`, in order. */
  function Select(claims: Named<ClaimRecord>, p: (string, ClaimRecord) -> bool): seq<string> {
    if claims == [] then []
    else
      var n := |claims| - 1;
      Select(claims[..n], p) + (if p(claims[n].0, claims[n].1) then [claims[n].0] else [])
  }

  function OwnedBy(perspective: string): (string, ClaimRecord) -> bool {
    (_: string, r: ClaimRecord) => r.perspective == perspective
  }

  function NamedIn(text: string, names: Naming): (string, ClaimRecord) -> bool {
    (id: string, _: ClaimRecord) => names(text, id)
  }

  function Owned(claims: Named<ClaimRecord>, perspective: string): seq<string> {
    Select(claims, OwnedBy(perspective))
  }

  function Explicit(claims: Named<ClaimRecord>, text: string, names: Naming): seq<string> {
    Select(claims, NamedIn(text, names))
  }

  function Conditions(claims: map<string, ClaimRecord>, ids: set<string>): map<string, string> {
    map id | id in ids && id in claims :: claims[id].claim.conditions
  }

  function Evidences(claims: map<string, ClaimRecord>, ids: set<string>): map<string, seq<string>> {
    map id | id in ids && id in claims :: claims[id].evidenceIds
  }

  function RecordFor(perspective: string, i: nat, text: string, claims: Named<ClaimRecord>,
          names: Naming): ConflictRecord {
    var explicit := Explicit(claims, text, names);
    var candidates := Unique(Owned(claims, perspective) + explicit);
    ConflictRecord(
      ConflictId(perspective, i + 1), perspective, text, candidates, explicit, [],
      Conditions(Dict(claims), ToSet(candidates)), Evidences(Dict(claims), ToSet(candidates)),
      Unclassified, false, RATIONALE, "")
  }

  function RecordsFor(perspective: string, texts: seq<string>, claims: Named<ClaimRecord>,
          names: Naming): (rs: seq<ConflictRecord>)
    ensures |rs| == |texts|
  {
    seq(|texts|, i requires 0 <= i < |texts| => RecordFor(perspective, i, texts[i], claims, names))
  }

  /** `build_conflict_records`: one unresolved record per conflict text, in order. */
  function Built(assessments: Named<Assessment>, claims: Named<ClaimRecord>, names: Naming): seq<ConflictRecord> {
    if assessments == [] then []
    else
      var n := |assessments| - 1;
      Built(assessments[..n], claims, names)
      + RecordsFor(assessments[n].0, assessments[n].1.conflicts, claims, names)
  }

  method BuildConflictRecords(assessments: Named<Assessment>, claims: Named<ClaimRecord>, names: Naming)
    returns (records: seq<ConflictRecord>)
    ensures records == Built(assessments, claims, names)
  {
    hide Unique, Dict, Conditions, Evidences, Owned, Explicit;
    records := [];
    for a := 0 to |assessments|
      invariant records == Built(assessments[..a], claims, names)
    {
      var (perspective, assessment) := assessments[a];
      var owned := Owned(claims, perspective);
      var made: seq<ConflictRecord> := [];
      for i := 0 to |assessment.conflicts|
        invariant made == RecordsFor(perspective, assessment.conflicts[..i], claims, names)
      {
        var text := assessment.conflicts[i];
        var explicit := Explicit(claims, text, names);
        var candidates := Unique(owned + explicit);
        var registry := Dict(claims);
        made := made + [ConflictRecord(
          ConflictId(perspective, i + 1), perspective, text, candidates, explicit, [],
          Conditions(registry, ToSet(candidates)), Evidences(registry, ToSet(candidates)),
          Unclassified, false, RATIONALE, "")];
        assert made == RecordsFor(perspective, assessment.conflicts[..i + 1], claims, names);
      }
      assert assessment.conflicts[..|assessment.conflicts|] == assessment.conflicts;
      assert assessments[..a + 1][..a] == assessments[..a];
      records := records + made;
    }
    assert assessments[..|assessments|] == assessments;
  }

  // ---------- Checking records ----------

  function ConflictIds(rs: seq<ConflictRecord>): (ids: seq<string>)
    ensures |ids| == |rs|
  {
    seq(|rs|, k requires 0 <= k < |rs| => rs[k].id)
  }

  /** `expected.get(id)`: the last record built with the id. */
  function Expected(built: seq<ConflictRecord>, id: string): Option<ConflictRecord> {
    if built == [] then None
    else if built[|built| - 1].id == id then Some(built[|built| - 1])
    else Expected(built[..|built| - 1], id)
  }

  predicate SameOrigin(r: ConflictRecord, e: ConflictRecord) {
    r.perspective == e.perspective && r.text == e.text
    && r.candidateIds == e.candidateIds && r.explicitIds == e.explicitIds
  }

  predicate ValidIds(ids: seq<string>, claims: map<string, ClaimRecord>) {
    Distinct(ids) && forall k :: 0 <= k < |ids| ==> ids[k] in claims
  }

  predicate Linked(r: ConflictRecord, claims: map<string, ClaimRecord>) {
    var linked := ToSet(r.candidateIds + r.verifiedIds);
    r.conditions == Conditions(claims, linked) && r.evidenceIds == Evidences(claims, linked)
  }

  predicate Reviewed(r: ConflictRecord) { !Blank(r.reviewedBy) && !Blank(r.rationale) }

  function KnownVerified(r: ConflictRecord, claims: map<string, ClaimRecord>): seq<string> {
    KnownOf(r.verifiedIds, claims)
  }

  function KnownOf(ids: seq<string>, claims: map<string, ClaimRecord>): seq<string> {
    if ids == [] then []
    else KnownOf(ids[..|ids| - 1], claims) + (if ids[|ids| - 1] in claims then [ids[|ids| - 1]] else [])
  }

  predicate ReviewSound(r: ConflictRecord, claims: map<string, ClaimRecord>) {
    && !Blank(r.rationale)
    && (r.verifiedIds != [] || r.kind != Unclassified ==> Reviewed(r))
    && (r.resolved ==>
          && Reviewed(r) && r.kind != Unclassified && |KnownVerified(r, claims)| >= 2
          && forall k :: 0 <= k < |r.verifiedIds| && r.verifiedIds[k] in claims ==>
               claims[r.verifiedIds[k]].claim.kind != Unknown && claims[r.verifiedIds[k]].evidenceIds != [])
  }

  predicate RecordSound(r: ConflictRecord, built: seq<ConflictRecord>, claims: map<string, ClaimRecord>) {
    var e := Expected(built, r.id);
    e.Some? ==>
      && SameOrigin(r, e.value)
      && ValidIds(r.candidateIds, claims) && ValidIds(r.explicitIds, claims) && ValidIds(r.verifiedIds, claims)
      && Linked(r, claims) && ReviewSound(r, claims)
  }

  /** What a list of records must satisfy, stated without the error list. */
  predicate RecordsSound(records: seq<ConflictRecord>, built: seq<ConflictRecord>, claims: map<string, ClaimRecord>) {
    && Distinct(ConflictIds(records)) && ToSet(ConflictIds(records)) == ToSet(ConflictIds(built))
    && forall k :: 0 <= k < |records| ==> RecordSound(records[k], built, claims)
  }

  datatype ConflictError =
    | NotOnePerConflict | OriginChanged(id: string) | InvalidIds(id: string) | LinksChanged(id: string)
    | ReviewMissing(id: string)

  // ---------- What each message says ----------

  ghost predicate FaultyIds(ids: seq<string>, claims: map<string, ClaimRecord>) {
    (exists i, j :: 0 <= i < j < |ids| && ids[i] == ids[j]) || (exists id :: id in ids && id !in claims)
  }

  /** Conditions and evidence are copied from the linked claims that exist, and from no other claim. */
  ghost predicate CopiesLinks(r: ConflictRecord, claims: map<string, ClaimRecord>) {
    && (forall id :: id in r.conditions <==> id in claims && (id in r.candidateIds || id in r.verifiedIds))
    && (forall id :: id in r.evidenceIds <==> id in claims && (id in r.candidateIds || id in r.verifiedIds))
    && (forall id :: id in r.conditions && id in claims ==> r.conditions[id] == claims[id].claim.conditions)
    && (forall id :: id in r.evidenceIds && id in claims ==> r.evidenceIds[id] == claims[id].evidenceIds)
  }

  ghost predicate BareClaim(id: string, claims: map<string, ClaimRecord>) {
    id in claims && (claims[id].claim.kind.Unknown? || |claims[id].evidenceIds| == 0)
  }

  /** No rationale; a link or a class that nobody is named for; or a resolution without a name, a class and two verified
      claims that exist, or with a verified claim that says nothing. */
  ghost predicate ReviewLacking(r: ConflictRecord, claims: map<string, ClaimRecord>) {
    || AllSpace(r.rationale)
    || ((|r.verifiedIds| > 0 || !r.kind.Unclassified?) && AllSpace(r.reviewedBy))
    || (r.resolved
        && (AllSpace(r.reviewedBy) || r.kind.Unclassified? || !TwoKnown(r.verifiedIds, claims)
            || exists id :: id in r.verifiedIds && BareClaim(id, claims)))
  }

  ghost predicate TwoKnown(ids: seq<string>, claims: map<string, ClaimRecord>) {
    exists i, j :: 0 <= i < j < |ids| && ids[i] in claims && ids[j] in claims
  }

  /** When a message is due for a record, given the one that is built anew. */
  ghost predicate RecordLacks(e: ConflictError, r: ConflictRecord, original: ConflictRecord,
          claims: map<string, ClaimRecord>) {
    match e
    case NotOnePerConflict => false
    case OriginChanged(id) =>
      id == r.id && (r.perspective != original.perspective || r.text != original.text
                     || r.candidateIds != original.candidateIds || r.explicitIds != original.explicitIds)
    case InvalidIds(id) =>
      id == r.id && (FaultyIds(r.candidateIds, claims) || FaultyIds(r.explicitIds, claims) || FaultyIds(r.verifiedIds, claims))
    case LinksChanged(id) => id == r.id && !CopiesLinks(r, claims)
    case ReviewMissing(id) => id == r.id && ReviewLacking(r, claims)
  }

  lemma {:induction false} FaultyMeans(ids: seq<string>, claims: map<string, ClaimRecord>)
    ensures FaultyIds(ids, claims) <==> !ValidIds(ids, claims)
  {
    if exists id :: id in ids && id !in claims {
      var id :| id in ids && id !in claims;
      var k :| 0 <= k < |ids| && ids[k] == id;
    }
    if exists k :: 0 <= k < |ids| && ids[k] !in claims {
      var k :| 0 <= k < |ids| && ids[k] !in claims;
      assert ids[k] in ids;
    }
  }

  lemma {:induction false} LinkedMeans(r: ConflictRecord, claims: map<string, ClaimRecord>)
    ensures Linked(r, claims) <==> CopiesLinks(r, claims)
  {
    var linked := ToSet(r.candidateIds + r.verifiedIds);
    forall id ensures id in linked <==> id in r.candidateIds || id in r.verifiedIds {}
    hide ToSet;
    if CopiesLinks(r, claims) {
      assert r.conditions == Conditions(claims, linked);
      assert r.evidenceIds == Evidences(claims, linked);
    }
  }

  lemma {:induction false} KnownMeans(ids: seq<string>, claims: map<string, ClaimRecord>)
    ensures |KnownOf(ids, claims)| >= 1 <==> exists i :: 0 <= i < |ids| && ids[i] in claims
    ensures |KnownOf(ids, claims)| >= 2 <==> TwoKnown(ids, claims)
  {
    if ids != [] {
      var n := |ids| - 1;
      var t := ids[..n];
      KnownMeans(t, claims);
      assert forall k :: 0 <= k < n ==> t[k] == ids[k];
      if TwoKnown(t, claims) {
        var i, j :| 0 <= i < j < |t| && t[i] in claims && t[j] in claims;
        assert ids[i] in claims && ids[j] in claims;
      }
      if TwoKnown(ids, claims) {
        var i, j :| 0 <= i < j < |ids| && ids[i] in claims && ids[j] in claims;
        assert t[i] in claims;
        if j < n { assert t[j] in claims; }
      }
    }
  }

  lemma {:induction false} ReviewMeans(r: ConflictRecord, claims: map<string, ClaimRecord>)
    ensures ReviewLacking(r, claims) <==> !ReviewSound(r, claims)
  {
    hide AllSpace, TwoKnown, KnownOf;
    KnownMeans(r.verifiedIds, claims);
    BareMeans(r.verifiedIds, claims);
  }

  lemma {:induction false} BareMeans(ids: seq<string>, claims: map<string, ClaimRecord>)
    ensures (exists id :: id in ids && BareClaim(id, claims)) <==>
            !forall k :: 0 <= k < |ids| && ids[k] in claims ==>
               claims[ids[k]].claim.kind != Unknown && claims[ids[k]].evidenceIds != []
  {
    if k :| 0 <= k < |ids| && ids[k] in claims && (claims[ids[k]].claim.kind == Unknown || claims[ids[k]].evidenceIds == []) {
      assert ids[k] in ids && BareClaim(ids[k], claims);
    }
  }

  /** `conflict_record_errors`: each message is given exactly when it is due, and none exactly when the records are
      sound. */
  method ConflictRecordErrors(records: seq<ConflictRecord>, claims: Named<ClaimRecord>, assessments: Named<Assessment>,
          names: Naming)
    returns (errors: seq<ConflictError>)
    ensures errors == [] <==> RecordsSound(records, Built(assessments, claims, names), Dict(claims))
    ensures forall e :: e in errors <==> RecordsLack(e, records, Built(assessments, claims, names), Dict(claims))
  {
    hide RecordSound, RecordDue, Dict, Built, SameConflicts;
    var built := BuildConflictRecords(assessments, claims, names);
    var registry := Dict(claims);
    SameConflictsMeans(records, built);
    errors := [];
    if !Distinct(ConflictIds(records)) || ToSet(ConflictIds(records)) != ToSet(ConflictIds(built)) {
      errors := [NotOnePerConflict];
    }
    ghost var matched := errors == [];
    for k := 0 to |records|
      invariant errors == [] <==> matched && forall i :: 0 <= i < k ==> RecordSound(records[i], built, registry)
      invariant forall e :: e in errors <==>
                  || (e.NotOnePerConflict? && !matched)
                  || (exists i :: 0 <= i < k && RecordDue(e, records[i], built, registry))
    {
      var more := OneRecordErrors(records[k], built, registry);
      errors := errors + more;
    }
  }

  /** A record is compared with the last one that is built under its id; one under an unknown id is not examined. */
  ghost predicate RecordDue(e: ConflictError, r: ConflictRecord, built: seq<ConflictRecord>,
          claims: map<string, ClaimRecord>) {
    exists k :: 0 <= k < |built| && built[k].id == r.id && (forall m :: k < m < |built| ==> built[m].id != r.id)
                && RecordLacks(e, r, built[k], claims)
  }

  ghost predicate HasRecord(records: seq<ConflictRecord>, id: string) {
    exists k :: 0 <= k < |records| && records[k].id == id
  }

  /** The same ids, and none of them twice. */
  ghost predicate SameConflicts(records: seq<ConflictRecord>, built: seq<ConflictRecord>) {
    && (forall id :: HasRecord(records, id) <==> HasRecord(built, id))
    && (forall i, j :: 0 <= i < j < |records| ==> records[i].id != records[j].id)
  }

  ghost predicate RecordsLack(e: ConflictError, records: seq<ConflictRecord>, built: seq<ConflictRecord>,
          claims: map<string, ClaimRecord>) {
    || (e.NotOnePerConflict? && !SameConflicts(records, built))
    || (exists i :: 0 <= i < |records| && RecordDue(e, records[i], built, claims))
  }

  lemma {:induction false} HasRecordMeans(records: seq<ConflictRecord>, id: string)
    ensures HasRecord(records, id) <==> id in ToSet(ConflictIds(records))
  {
    var ids := ConflictIds(records);
    assert forall k :: 0 <= k < |ids| ==> ids[k] == records[k].id;
    if id in ids { var k :| 0 <= k < |ids| && ids[k] == id; }
  }

  lemma {:induction false} SameConflictsMeans(records: seq<ConflictRecord>, built: seq<ConflictRecord>)
    ensures SameConflicts(records, built) <==>
            Distinct(ConflictIds(records)) && ToSet(ConflictIds(records)) == ToSet(ConflictIds(built))
  {
    hide HasRecord, ToSet;
    forall id ensures HasRecord(records, id) <==> id in ToSet(ConflictIds(records)) { HasRecordMeans(records, id); }
    forall id ensures HasRecord(built, id) <==> id in ToSet(ConflictIds(built)) { HasRecordMeans(built, id); }
    var ids := ConflictIds(records);
    if Distinct(ids) {
      forall i, j | 0 <= i < j < |records| ensures records[i].id != records[j].id { assert ids[i] != ids[j]; }
    }
  }

  lemma {:induction false} ExpectedIs(built: seq<ConflictRecord>, id: string) returns (k: nat)
    ensures Expected(built, id).Some? ==>
              k < |built| && Expected(built, id) == Some(built[k]) && built[k].id == id
              && forall m :: k < m < |built| ==> built[m].id != id
    ensures Expected(built, id).None? ==> forall m :: 0 <= m < |built| ==> built[m].id != id
  {
    k := 0;
    if built != [] {
      var n := |built| - 1;
      k := n;
      if built[n].id != id { k := ExpectedIs(built[..n], id); }
    }
  }

  lemma {:induction false} DueMeans(e: ConflictError, r: ConflictRecord, built: seq<ConflictRecord>,
          claims: map<string, ClaimRecord>)
    ensures RecordDue(e, r, built, claims) <==>
            Expected(built, r.id).Some? && RecordLacks(e, r, Expected(built, r.id).value, claims)
  {
    hide RecordLacks, Expected;
    var k := ExpectedIs(built, r.id);
  }

  /** Records are sound exactly when no message is due. */
  lemma {:induction false} RecordsMean(records: seq<ConflictRecord>, built: seq<ConflictRecord>,
          claims: map<string, ClaimRecord>)
    ensures RecordsSound(records, built, claims) <==> forall e :: !RecordsLack(e, records, built, claims)
  {
    hide RecordSound, RecordDue, SameConflicts, ToSet, Distinct;
    SameConflictsMeans(records, built);
    forall i | 0 <= i < |records|
      ensures RecordSound(records[i], built, claims) <==> forall e :: !RecordDue(e, records[i], built, claims)
    {
      RecordMeans(records[i], built, claims);
    }
    if forall e :: !RecordsLack(e, records, built, claims) {
      assert !RecordsLack(NotOnePerConflict, records, built, claims);
      forall i, e | 0 <= i < |records| ensures !RecordDue(e, records[i], built, claims) {
        assert !RecordsLack(e, records, built, claims);
      }
    }
  }

  lemma {:induction false} RecordMeans(r: ConflictRecord, built: seq<ConflictRecord>, claims: map<string, ClaimRecord>)
    ensures RecordSound(r, built, claims) <==> forall e :: !RecordDue(e, r, built, claims)
  {
    hide Expected, SameOrigin, ValidIds, Linked, ReviewSound, RecordDue, RecordLacks;
    var o := Expected(built, r.id);
    forall e ensures RecordDue(e, r, built, claims) <==> o.Some? && RecordLacks(e, r, o.value, claims) {
      DueMeans(e, r, built, claims);
    }
    if o.Some? { OriginMeans(r, o.value, claims); }
  }

  lemma {:induction false} OriginMeans(r: ConflictRecord, o: ConflictRecord, claims: map<string, ClaimRecord>)
    ensures (forall e :: !RecordLacks(e, r, o, claims)) <==>
            && SameOrigin(r, o)
            && ValidIds(r.candidateIds, claims) && ValidIds(r.explicitIds, claims) && ValidIds(r.verifiedIds, claims)
            && Linked(r, claims) && ReviewSound(r, claims)
  {
    FaultyMeans(r.candidateIds, claims);
    FaultyMeans(r.explicitIds, claims);
    FaultyMeans(r.verifiedIds, claims);
    LinkedMeans(r, claims);
    ReviewMeans(r, claims);
    hide ValidIds, Linked, ReviewSound, FaultyIds, CopiesLinks, ReviewLacking;
    if forall e :: !RecordLacks(e, r, o, claims) {
      assert !RecordLacks(OriginChanged(r.id), r, o, claims);
      assert !RecordLacks(InvalidIds(r.id), r, o, claims);
      assert !RecordLacks(LinksChanged(r.id), r, o, claims);
      assert !RecordLacks(ReviewMissing(r.id), r, o, claims);
    }
  }

  method OneRecordErrors(r: ConflictRecord, built: seq<ConflictRecord>, claims: map<string, ClaimRecord>)
    returns (errors: seq<ConflictError>)
    ensures errors == [] <==> RecordSound(r, built, claims)
    ensures forall e :: e in errors <==> RecordDue(e, r, built, claims)
  {
    forall e ensures RecordDue(e, r, built, claims) <==>
                     Expected(built, r.id).Some? && RecordLacks(e, r, Expected(built, r.id).value, claims)
    {
      DueMeans(e, r, built, claims);
    }
    FaultyMeans(r.candidateIds, claims);
    FaultyMeans(r.explicitIds, claims);
    FaultyMeans(r.verifiedIds, claims);
    LinkedMeans(r, claims);
    ReviewMeans(r, claims);
    hide Expected, ValidIds, Linked, ReviewSound, RecordDue, FaultyIds, CopiesLinks, ReviewLacking;
    errors := [];
    var e := Expected(built, r.id);
    if e.None? {
      return;
    }
    if !SameOrigin(r, e.value) {
      errors := errors + [OriginChanged(r.id)];
    }
    if !ValidIds(r.candidateIds, claims) || !ValidIds(r.explicitIds, claims) || !ValidIds(r.verifiedIds, claims) {
      errors := errors + [InvalidIds(r.id)];
    }
    if !Linked(r, claims) {
      errors := errors + [LinksChanged(r.id)];
    }
    if !ReviewSound(r, claims) {
      errors := errors + [ReviewMissing(r.id)];
    }
  }

  // ---------- Built records pass their own check ----------

  lemma {:induction false} SelectKeys(claims: Named<ClaimRecord>, p: (string, ClaimRecord) -> bool)
    requires Distinct(Keys(claims))
    ensures Distinct(Select(claims, p))
    ensures forall id :: id in Select(claims, p) <==> Selected(claims, p, id)
  {
    if claims != [] {
      var n := |claims| - 1;
      var t := claims[..n];
      assert Keys(t) == Keys(claims)[..n];
      SelectKeys(t, p);
      forall id ensures id in Select(claims, p) <==> Selected(claims, p, id) {
        assert Selected(claims, p, id) <==> Selected(t, p, id) || (claims[n].0 == id && p(id, claims[n].1)) by {
          SelectedSnoc(claims, p, id);
        }
      }
      assert claims[n].0 !in Select(t, p) by {
        assert forall k :: 0 <= k < n ==> Keys(claims)[k] != Keys(claims)[n] && t[k].0 == Keys(claims)[k];
      }
    }
  }

  ghost predicate Selected(claims: Named<ClaimRecord>, p: (string, ClaimRecord) -> bool, id: string) {
    exists k :: 0 <= k < |claims| && claims[k].0 == id && p(id, claims[k].1)
  }

  lemma {:induction false} SelectedSnoc(claims: Named<ClaimRecord>, p: (string, ClaimRecord) -> bool, id: string)
    requires claims != []
    ensures var n := |claims| - 1;
            Selected(claims, p, id) <==> Selected(claims[..n], p, id) || (claims[n].0 == id && p(id, claims[n].1))
  {
    var n := |claims| - 1;
    var t := claims[..n];
    if Selected(t, p, id) {
      var k :| 0 <= k < |t| && t[k].0 == id && p(id, t[k].1);
      assert claims[k] == t[k];
    }
    if Selected(claims, p, id) {
      var k :| 0 <= k < |claims| && claims[k].0 == id && p(id, claims[k].1);
      if k < n { assert t[k] == claims[k]; }
    }
  }

  lemma {:induction false} SelectValid(claims: Named<ClaimRecord>, p: (string, ClaimRecord) -> bool)
    requires Distinct(Keys(claims))
    ensures ValidIds(Select(claims, p), Dict(claims))
  {
    SelectKeys(claims, p);
    DictFaithful(claims);
    var ids := Select(claims, p);
    forall k | 0 <= k < |ids| ensures ids[k] in Dict(claims) {
      assert ids[k] in ids && Selected(claims, p, ids[k]);
      var j :| 0 <= j < |claims| && claims[j].0 == ids[k];
    }
  }

  lemma {:induction false} NotBlankRationale()
    ensures !Blank(RATIONALE)
  {
    assert RATIONALE[0] == "소유"[0] == '소';
    assert !IsSpace(RATIONALE[0]);
  }

  lemma {:induction false} RecordForSound(perspective: string, i: nat, text: string, claims: Named<ClaimRecord>,
          names: Naming)
    requires Distinct(Keys(claims))
    ensures var r := RecordFor(perspective, i, text, claims, names);
            var m := Dict(claims);
            ValidIds(r.candidateIds, m) && ValidIds(r.explicitIds, m) && ValidIds(r.verifiedIds, m)
            && Linked(r, m) && ReviewSound(r, m)
  {
    var r := RecordFor(perspective, i, text, claims, names);
    var owned, explicit := Owned(claims, perspective), Explicit(claims, text, names);
    SelectValid(claims, OwnedBy(perspective));
    SelectValid(claims, NamedIn(text, names));
    forall k | 0 <= k < |r.candidateIds| ensures r.candidateIds[k] in Dict(claims) {
      assert r.candidateIds[k] in owned + explicit;
    }
    assert r.candidateIds + r.verifiedIds == r.candidateIds;
    NotBlankRationale();
  }

  /** What a record that is built anew says: it is linked to the claims of its own perspective and to those its text
      names, its own first; it copies their conditions and evidence; and nothing is reviewed. */
  ghost predicate Unreviewed(r: ConflictRecord, perspective: string, i: nat, text: string, claims: Named<ClaimRecord>,
          names: Naming) {
    && r.id == ConflictId(perspective, i + 1) && r.perspective == perspective && r.text == text
    && (forall id :: id in r.explicitIds <==> id in Dict(claims) && names(text, id))
    && (forall id :: id in r.candidateIds <==>
                       id in Dict(claims) && (Dict(claims)[id].perspective == perspective || names(text, id)))
    && (forall k, l :: 0 <= k < l < |r.candidateIds| && OfOwner(r.candidateIds[l], perspective, claims) ==>
                         OfOwner(r.candidateIds[k], perspective, claims))
    && |r.verifiedIds| == 0 && CopiesLinks(r, Dict(claims))
    && r.kind.Unclassified? && !r.resolved && r.reviewedBy == "" && !AllSpace(r.rationale)
  }

  ghost predicate OfOwner(id: string, perspective: string, claims: Named<ClaimRecord>) {
    id in Dict(claims) && Dict(claims)[id].perspective == perspective
  }

  lemma {:induction false} SelectedMeans(claims: Named<ClaimRecord>, p: (string, ClaimRecord) -> bool, id: string)
    requires Distinct(Keys(claims))
    ensures id in Select(claims, p) <==> id in Dict(claims) && p(id, Dict(claims)[id])
  {
    SelectKeys(claims, p);
    DictFaithful(claims);
    if id in Dict(claims) {
      assert id in Keys(claims);
      var k :| 0 <= k < |claims| && Keys(claims)[k] == id;
      assert claims[k].0 == id;
    }
  }

  lemma {:induction false} RecordForSays(perspective: string, i: nat, text: string, claims: Named<ClaimRecord>,
          names: Naming)
    requires Distinct(Keys(claims))
    ensures Unreviewed(RecordFor(perspective, i, text, claims, names), perspective, i, text, claims, names)
  {
    hide Select, Dict, CopiesLinks, ToSet, AllSpace;
    var r := RecordFor(perspective, i, text, claims, names);
    var owned, explicit := Owned(claims, perspective), Explicit(claims, text, names);
    RecordForSound(perspective, i, text, claims, names);
    LinkedMeans(r, Dict(claims));
    forall id ensures id in explicit <==> id in Dict(claims) && names(text, id) {
      SelectedMeans(claims, NamedIn(text, names), id);
    }
    forall id ensures id in owned <==> OfOwner(id, perspective, claims) { SelectedMeans(claims, OwnedBy(perspective), id); }
    UniqueMembers(owned + explicit);
    assert forall id :: id in r.candidateIds <==> id in owned || id in explicit;
    UniqueLeads(owned, explicit);
    NotBlankRationale();
    var u := r.candidateIds;
    forall k, l | 0 <= k < l < |u| && OfOwner(u[l], perspective, claims) ensures OfOwner(u[k], perspective, claims) {
      assert u[l] in owned;
      assert Unique(owned + explicit)[k] in owned;
    }
  }

  lemma {:induction false} UniqueMembers(s: seq<string>)
    ensures forall x :: x in Unique(s) <==> x in s
  {
    forall x | x in s ensures x in Unique(s) {
      var k :| 0 <= k < |s| && s[k] == x;
    }
  }

  /** The elements of `a` come before all others. */
  ghost predicate Leads(u: seq<string>, a: seq<string>) {
    forall k, l :: 0 <= k < l < |u| && u[l] in a ==> u[k] in a
  }

  /** First occurrences keep what leads in the lead. */
  lemma {:induction false} UniqueLeads(a: seq<string>, b: seq<string>)
    ensures Leads(Unique(a + b), a)
    decreases |b|
  {
    if b == [] {
      assert a + b == a;
    } else {
      var n := |b| - 1;
      UniqueLeads(a, b[..n]);
      assert (a + b)[..|a + b| - 1] == a + b[..n];
      var head, u := Unique(a + b[..n]), Unique(a + b);
      assert (a + b)[|a + b| - 1] == b[n];
      assert u == if b[n] in head then head else head + [b[n]];
      UniqueMembers(a + b[..n]);
      assert b[n] in a ==> b[n] in a + b[..n];
      forall k, l | 0 <= k < l < |u| && u[l] in a ensures u[k] in a {
        assert l < |head| && u[l] == head[l] && u[k] == head[k] && Leads(head, a);
      }
    }
  }

  /** Every record is about one text of one assessment. */
  lemma {:induction false} BuiltSays(assessments: Named<Assessment>, claims: Named<ClaimRecord>, names: Naming, k: nat)
    returns (a: nat, i: nat)
    requires Distinct(Keys(claims)) && k < |Built(assessments, claims, names)|
    ensures a < |assessments| && i < |assessments[a].1.conflicts|
    ensures Unreviewed(Built(assessments, claims, names)[k], assessments[a].0, i, assessments[a].1.conflicts[i], claims, names)
  {
    hide Built, RecordFor, Unreviewed;
    a, i := BuiltOrigin(assessments, claims, names, k);
    RecordForSays(assessments[a].0, i, assessments[a].1.conflicts[i], claims, names);
  }

  /** Every text of every assessment has its record. */
  lemma {:induction false} TextRecorded(assessments: Named<Assessment>, claims: Named<ClaimRecord>, names: Naming,
          a: nat, i: nat)
    returns (k: nat)
    requires Distinct(Keys(claims)) && a < |assessments| && i < |assessments[a].1.conflicts|
    ensures k < |Built(assessments, claims, names)|
    ensures Unreviewed(Built(assessments, claims, names)[k], assessments[a].0, i, assessments[a].1.conflicts[i], claims, names)
  {
    hide Built, RecordFor, Unreviewed;
    k := BuiltHolds(assessments, claims, names, a, i);
    RecordForSays(assessments[a].0, i, assessments[a].1.conflicts[i], claims, names);
  }

  lemma {:induction false} BuiltOrigin(assessments: Named<Assessment>, claims: Named<ClaimRecord>, names: Naming,
          k: nat)
    returns (a: nat, i: nat)
    requires k < |Built(assessments, claims, names)|
    ensures a < |assessments| && i < |assessments[a].1.conflicts|
    ensures Built(assessments, claims, names)[k]
         == RecordFor(assessments[a].0, i, assessments[a].1.conflicts[i], claims, names)
  {
    hide RecordFor;
    var n := |assessments| - 1;
    var head := Built(assessments[..n], claims, names);
    if k < |head| {
      a, i := BuiltOrigin(assessments[..n], claims, names, k);
    } else {
      a, i := n, k - |head|;
    }
  }

  lemma {:induction false} BuiltHolds(assessments: Named<Assessment>, claims: Named<ClaimRecord>, names: Naming, a: nat,
          i: nat)
    returns (k: nat)
    requires a < |assessments| && i < |assessments[a].1.conflicts|
    ensures k < |Built(assessments, claims, names)|
    ensures Built(assessments, claims, names)[k]
         == RecordFor(assessments[a].0, i, assessments[a].1.conflicts[i], claims, names)
  {
    hide RecordFor;
    var n := |assessments| - 1;
    if a < n {
      k := BuiltHolds(assessments[..n], claims, names, a, i);
    } else {
      k := |Built(assessments[..n], claims, names)| + i;
    }
  }

  lemma {:induction false} BuiltIdsDistinct(assessments: Named<Assessment>, claims: Named<ClaimRecord>, names: Naming)
    requires Distinct(Keys(assessments))
    ensures Distinct(ConflictIds(Built(assessments, claims, names)))
  {
    hide Owned, Explicit, Dict, Unique, Conditions, Evidences, ToSet, ConflictId;
    if assessments != [] {
      var n := |assessments| - 1;
      assert Keys(assessments[..n]) == Keys(assessments)[..n];
      BuiltIdsDistinct(assessments[..n], claims, names);
      var (p, assessment) := assessments[n];
      var head, tail := Built(assessments[..n], claims, names), RecordsFor(p, assessment.conflicts, claims, names);
      var all := head + tail;
      forall k, l | 0 <= k < l < |all| ensures ConflictIds(all)[k] != ConflictIds(all)[l] {
        if l < |head| {
          assert ConflictIds(head)[k] != ConflictIds(head)[l];
        } else if k < |head| {
          OtherConflictId(assessments, n, claims, names, k, l - |head|);
        } else {
          ConflictIdInjective(p, k - |head| + 1, p, l - |head| + 1);
        }
      }
    }
  }

  lemma {:induction false} OtherConflictId(assessments: Named<Assessment>, n: nat, claims: Named<ClaimRecord>,
          names: Naming, k: nat, l: nat)
    requires n < |assessments| && Distinct(Keys(assessments)) && l < |assessments[n].1.conflicts|
    requires k < |Built(assessments[..n], claims, names)|
    ensures Built(assessments[..n], claims, names)[k].id
         != RecordsFor(assessments[n].0, assessments[n].1.conflicts, claims, names)[l].id
  {
    hide Owned, Explicit, Dict, Unique, Conditions, Evidences, ToSet, ConflictId, Built;
    var a, j := BuiltOrigin(assessments[..n], claims, names, k);
    assert Keys(assessments)[a] != Keys(assessments)[n];
    ConflictIdInjective(assessments[a].0, j + 1, assessments[n].0, l + 1);
  }

  lemma {:induction false} ConflictIdInjective(p: string, i: nat, q: string, j: nat)
    ensures ConflictId(p, i) == ConflictId(q, j) ==> p == q && i == j
  {
    if ConflictId(p, i) == ConflictId(q, j) {
      PrefixInjective("conflict-", Numbered(p, i), Numbered(q, j));
      NumberedInjective(p, i, q, j);
    }
  }

  lemma {:induction false} ExpectedAt(built: seq<ConflictRecord>, k: nat)
    requires Distinct(ConflictIds(built)) && k < |built|
    ensures Expected(built, built[k].id) == Some(built[k])
  {
    var n := |built| - 1;
    if k < n {
      assert ConflictIds(built)[k] != ConflictIds(built)[n];
      assert ConflictIds(built[..n]) == ConflictIds(built)[..n];
      ExpectedAt(built[..n], k);
    }
  }

  /** Whatever the texts name, built records pass the check against the registry they were built from. */
  lemma {:induction false} BuiltRecordsSound(assessments: Named<Assessment>, claims: Named<ClaimRecord>, names: Naming)
    requires Distinct(Keys(assessments)) && Distinct(Keys(claims))
    ensures RecordsSound(Built(assessments, claims, names), Built(assessments, claims, names), Dict(claims))
  {
    var built := Built(assessments, claims, names);
    BuiltIdsDistinct(assessments, claims, names);
    forall k | 0 <= k < |built| ensures RecordSound(built[k], built, Dict(claims)) {
      ExpectedAt(built, k);
      var a, i := BuiltOrigin(assessments, claims, names, k);
      RecordForSound(assessments[a].0, i, assessments[a].1.conflicts[i], claims, names);
    }
  }

  // ---------- Checking against a larger registry ----------

  lemma {:induction false} SelectConcat(a: Named<ClaimRecord>, b: Named<ClaimRecord>, p: (string, ClaimRecord) -> bool)
    ensures Select(a + b, p) == Select(a, p) + Select(b, p)
    decreases |b|
  {
    if b == [] {
      assert a + b == a;
    } else {
      var n := |b| - 1;
      SelectConcat(a, b[..n], p);
      assert (a + b)[..|a + b| - 1] == a + b[..n];
    }
  }

  /** No conflict text of any perspective names one of the added claims. */
  ghost predicate NamesNone(assessments: Named<Assessment>, added: Named<ClaimRecord>, names: Naming) {
    forall a, i, k :: 0 <= a < |assessments| && 0 <= i < |assessments[a].1.conflicts| && 0 <= k < |added| ==>
      !names(assessments[a].1.conflicts[i], added[k].0)
  }

  lemma {:induction false} SelectNone(claims: Named<ClaimRecord>, p: (string, ClaimRecord) -> bool)
    ensures Select(claims, p) == [] <==> forall k :: 0 <= k < |claims| ==> !p(claims[k].0, claims[k].1)
  {
    if claims != [] {
      var n := |claims| - 1;
      SelectNone(claims[..n], p);
      assert forall k :: 0 <= k < n ==> claims[..n][k] == claims[k];
    }
  }

  lemma {:induction false} LinksKept(r: ConflictRecord, claims: Named<ClaimRecord>, added: Named<ClaimRecord>)
    requires Distinct(Keys(claims + added))
    requires Linked(r, Dict(claims)) && r.verifiedIds == [] && ValidIds(r.candidateIds, Dict(claims))
    ensures Linked(r, Dict(claims + added))
    ensures forall id :: id in Dict(claims) ==> id in Dict(claims + added)
  {
    DictGrows(claims, added);
    var m, all := Dict(claims), Dict(claims + added);
    assert r.candidateIds + r.verifiedIds == r.candidateIds;
    var linked := ToSet(r.candidateIds);
    forall id | id in linked ensures id in m {
      var k :| 0 <= k < |r.candidateIds| && r.candidateIds[k] == id;
    }
    assert Conditions(all, linked) == Conditions(m, linked);
    assert Evidences(all, linked) == Evidences(m, linked);
  }

  /** A record built before claims of another perspective were added is what would be built after,
      exactly when its text names none of them. */
  lemma {:induction false} RecordForLarger(perspective: string, i: nat, text: string, claims: Named<ClaimRecord>,
          added: Named<ClaimRecord>, names: Naming)
    requires forall k :: 0 <= k < |added| ==> added[k].1.perspective != perspective
    ensures SameOrigin(RecordFor(perspective, i, text, claims, names), RecordFor(perspective, i, text, claims + added, names))
       <==> forall k :: 0 <= k < |added| ==> !names(text, added[k].0)
  {
    SelectConcat(claims, added, OwnedBy(perspective));
    SelectConcat(claims, added, NamedIn(text, names));
    SelectNone(added, OwnedBy(perspective));
    SelectNone(added, NamedIn(text, names));
    var owned, explicit := Owned(claims, perspective), Explicit(claims, text, names);
    assert Owned(claims + added, perspective) == owned + [] == owned;
    if Select(added, NamedIn(text, names)) == [] {
      assert Explicit(claims + added, text, names) == explicit + [] == explicit;
    } else {
      assert |Explicit(claims + added, text, names)| > |explicit|;
    }
  }

  /** Records built from the assessment claims pass the check made with the synthesis claims included
      exactly when no conflict text names a synthesis claim. */
  lemma {:induction false} LargerRegistryExact(assessments: Named<Assessment>, claims: Named<ClaimRecord>,
          added: Named<ClaimRecord>, names: Naming)
    requires Distinct(Keys(assessments)) && Distinct(Keys(claims + added))
    requires Apart(assessments, added)
    ensures RecordsSound(Built(assessments, claims, names), Built(assessments, claims + added, names), Dict(claims + added))
       <==> NamesNone(assessments, added, names)
  {
    var all := claims + added;
    var mine, theirs := Built(assessments, claims, names), Built(assessments, all, names);
    BuiltIdsDistinct(assessments, claims, names) by {
      assert Keys(claims) == Keys(all)[..|claims|];
    }
    BuiltLength(assessments, claims, all, names);
    assert ConflictIds(mine) == ConflictIds(theirs);
    if NamesNone(assessments, added, names) {
      forall k | 0 <= k < |mine| ensures RecordSound(mine[k], theirs, Dict(all)) {
        hide RecordSound;
        var a, i := SoundExactly(assessments, claims, added, names, k);
      }
    } else {
      var k := NamedFails(assessments, claims, added, names);
    }
  }

  lemma {:induction false} NamedFails(assessments: Named<Assessment>, claims: Named<ClaimRecord>,
          added: Named<ClaimRecord>, names: Naming)
    returns (k: nat)
    requires Distinct(Keys(assessments)) && Distinct(Keys(claims + added)) && Apart(assessments, added)
    requires !NamesNone(assessments, added, names)
    ensures k < |Built(assessments, claims, names)|
    ensures !RecordSound(Built(assessments, claims, names)[k], Built(assessments, claims + added, names), Dict(claims + added))
  {
    hide RecordFor, RecordSound;
    var a, i, n :| 0 <= a < |assessments| && 0 <= i < |assessments[a].1.conflicts| && 0 <= n < |added|
                   && names(assessments[a].1.conflicts[i], added[n].0);
    k := BuiltHolds(assessments, claims, names, a, i);
    RecordExactly(assessments, claims, added, names, k, a, i);
  }

  /** The added claims belong to none of the assessed perspectives. */
  ghost predicate Apart(assessments: Named<Assessment>, added: Named<ClaimRecord>) {
    forall a, n :: 0 <= a < |assessments| && 0 <= n < |added| ==> added[n].1.perspective != assessments[a].0
  }

  ghost predicate TextClear(assessments: Named<Assessment>, a: nat, i: nat, added: Named<ClaimRecord>, names: Naming)
    requires a < |assessments| && i < |assessments[a].1.conflicts|
  {
    forall n :: 0 <= n < |added| ==> !names(assessments[a].1.conflicts[i], added[n].0)
  }

  lemma {:induction false} BuiltLength(assessments: Named<Assessment>, c: Named<ClaimRecord>, d: Named<ClaimRecord>,
          names: Naming)
    ensures |Built(assessments, c, names)| == |Built(assessments, d, names)|
    ensures forall k :: 0 <= k < |Built(assessments, c, names)| ==>
              Built(assessments, c, names)[k].id == Built(assessments, d, names)[k].id
  {
    hide Owned, Explicit, Dict, Unique, Conditions, Evidences, ToSet, ConflictId;
    if assessments != [] {
      BuiltLength(assessments[..|assessments| - 1], c, d, names);
    }
  }

  lemma {:induction false} SoundExactly(assessments: Named<Assessment>, claims: Named<ClaimRecord>,
          added: Named<ClaimRecord>, names: Naming, k: nat)
    returns (a: nat, i: nat)
    requires Distinct(Keys(assessments)) && Distinct(Keys(claims + added))
    requires Apart(assessments, added)
    requires k < |Built(assessments, claims, names)|
    ensures a < |assessments| && i < |assessments[a].1.conflicts|
    ensures RecordSound(Built(assessments, claims, names)[k], Built(assessments, claims + added, names), Dict(claims + added))
       <==> TextClear(assessments, a, i, added, names)
  {
    a, i := BuiltOrigin(assessments, claims, names, k);
    RecordExactly(assessments, claims, added, names, k, a, i);
  }

  lemma {:induction false} RecordExactly(assessments: Named<Assessment>, claims: Named<ClaimRecord>,
          added: Named<ClaimRecord>, names: Naming, k: nat, a: nat, i: nat)
    requires Distinct(Keys(assessments)) && Distinct(Keys(claims + added))
    requires Apart(assessments, added)
    requires k < |Built(assessments, claims, names)| && a < |assessments| && i < |assessments[a].1.conflicts|
    requires Built(assessments, claims, names)[k]
          == RecordFor(assessments[a].0, i, assessments[a].1.conflicts[i], claims, names)
    ensures RecordSound(Built(assessments, claims, names)[k], Built(assessments, claims + added, names), Dict(claims + added))
       <==> TextClear(assessments, a, i, added, names)
  {
    hide RecordFor, SameOrigin, Linked, ReviewSound;
    var all := claims + added;
    var p, text := assessments[a].0, assessments[a].1.conflicts[i];
    var mine, theirs := RecordFor(p, i, text, claims, names), RecordFor(p, i, text, all, names);
    var built := Built(assessments, all, names);
    var j := BuiltHolds(assessments, all, names, a, i);
    BuiltIdsDistinct(assessments, all, names);
    ExpectedAt(built, j);
    assert mine.id == theirs.id by { SameIds(p, i, text, claims, all, names); }
    RecordForLarger(p, i, text, claims, added, names);
    assert Keys(claims) == Keys(all)[..|claims|];
    RecordForSound(p, i, text, claims, names);
    assert mine.verifiedIds == [] by { SameIds(p, i, text, claims, all, names); }
    LinksKept(mine, claims, added);
    assert ReviewSound(mine, Dict(all)) by { UnreviewedSound(p, i, text, claims, names, Dict(all)); }
  }

  lemma {:induction false} SameIds(p: string, i: nat, text: string, c: Named<ClaimRecord>, d: Named<ClaimRecord>,
          names: Naming)
    ensures RecordFor(p, i, text, c, names).id == RecordFor(p, i, text, d, names).id
    ensures RecordFor(p, i, text, c, names).verifiedIds == []
  {
  }

  lemma {:induction false} UnreviewedSound(p: string, i: nat, text: string, c: Named<ClaimRecord>, names: Naming,
          m: map<string, ClaimRecord>)
    ensures ReviewSound(RecordFor(p, i, text, c, names), m)
  {
    NotBlankRationale();
  }
}
