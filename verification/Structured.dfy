/** One structured request: restoring what a fresh answer must keep, and at most one repair round
    (`structured` in rag/graph.py, the restorers of rag/repair.py). */
module Structured {
  import opened Schema
  import opened Texts
  import opened Quotes
  import opened Evidence
  import opened Repair

  // ---------- Restoring typography ----------

  function RestoredReference(ref: Reference, chunks: seq<Chunk>, alpha: char -> bool): Reference {
    var c := Lookup(chunks, ref.chunkId);
    if c.Some? then ref.(quote := Restored(ref.quote, c.value.text, alpha)) else ref
  }

  /** A reference keeps its chunk; its quotation is restored against the chunk supplied under that id, and stays as it
      is where there is none. */
  lemma {:induction false} ReferenceRestored(ref: Reference, chunks: seq<Chunk>, alpha: char -> bool)
    ensures var r := RestoredReference(ref, chunks, alpha);
            && r.chunkId == ref.chunkId
            && (forall c :: Supplied(chunks, ref.chunkId, c) ==> r.quote == Restored(ref.quote, c.text, alpha))
            && ((forall c :: c in chunks ==> c.id != ref.chunkId) ==> r.quote == ref.quote)
  {
    hide Restored, Supplied;
    LookupKnown(chunks, ref.chunkId);
    forall c | Supplied(chunks, ref.chunkId, c) ensures Lookup(chunks, ref.chunkId) == Some(c) {
      LookupIs(chunks, ref.chunkId, c);
    }
  }

  function RestoredReferences(refs: seq<Reference>, chunks: seq<Chunk>, alpha: char -> bool): (r: seq<Reference>)
    ensures |r| == |refs|
  {
    seq(|refs|, k requires 0 <= k < |refs| => RestoredReference(refs[k], chunks, alpha))
  }

  function RestoredClaims(claims: seq<Claim>, chunks: seq<Chunk>, alpha: char -> bool): (r: seq<Claim>)
    ensures |r| == |claims|
  {
    seq(|claims|, k requires 0 <= k < |claims| => claims[k].(references := RestoredReferences(claims[k].references, chunks, alpha)))
  }

  /** `restore_verbatim_references`, as the loops over claims and references. */
  method RestoreVerbatim(claims: seq<Claim>, chunks: seq<Chunk>, alpha: char -> bool) returns (result: seq<Claim>)
    ensures result == RestoredClaims(claims, chunks, alpha)
  {
    hide Lookup, Restored;
    result := [];
    for i := 0 to |claims|
      invariant result == RestoredClaims(claims[..i], chunks, alpha)
    {
      var refs: seq<Reference> := [];
      for j := 0 to |claims[i].references|
        invariant refs == RestoredReferences(claims[i].references[..j], chunks, alpha)
      {
        var ref := claims[i].references[j];
        var c := Lookup(chunks, ref.chunkId);
        if c.Some? {
          var quote := SourceVerbatimQuote(ref.quote, c.value.text, alpha);
          refs := refs + [ref.(quote := quote)];
        } else {
          refs := refs + [ref];
        }
      }
      assert claims[i].references[..|claims[i].references|] == claims[i].references;
      result := result + [claims[i].(references := refs)];
    }
    assert claims[..|claims|] == claims;
  }

  /** Restoring twice is restoring once, and a quotation that already stands in its chunk is left alone. */
  lemma {:induction false} RestoreIdempotent(claims: seq<Claim>, chunks: seq<Chunk>, alpha: char -> bool)
    requires IsLetterClass(alpha)
    ensures RestoredClaims(RestoredClaims(claims, chunks, alpha), chunks, alpha) == RestoredClaims(claims, chunks, alpha)
  {
    hide Lookup, Restored;
    var once := RestoredClaims(claims, chunks, alpha);
    forall k | 0 <= k < |claims|
      ensures RestoredReferences(once[k].references, chunks, alpha) == once[k].references
    {
      forall j | 0 <= j < |claims[k].references|
        ensures RestoredReference(once[k].references[j], chunks, alpha) == once[k].references[j]
      {
        var ref := claims[k].references[j];
        var c := Lookup(chunks, ref.chunkId);
        if c.Some? { RestoredIdempotent(ref.quote, c.value.text, alpha); }
      }
    }
  }

  lemma {:induction false} QuotedUntouched(ref: Reference, chunks: seq<Chunk>, alpha: char -> bool)
    requires Quoted(ref, chunks)
    ensures RestoredReference(ref, chunks, alpha) == ref
  {
    hide Lookup, Normalized, Contains;
  }

  // ---------- Restoring sufficient claims ----------

  type Pair = (Technology, string)

  function PairOf(c: Claim): Pair { (c.technology, c.facet) }

  function PairsIn(claims: seq<Claim>): (ps: seq<Pair>)
    ensures |ps| == |claims|
  {
    seq(|claims|, k requires 0 <= k < |claims| => PairOf(claims[k]))
  }

  /** `dict(zip(pairs, claims))[pair]`: the last claim of the pair. */
  function Current(claims: seq<Claim>, pair: Pair): Option<Claim> {
    if claims == [] then None
    else if PairOf(claims[|claims| - 1]) == pair then Some(claims[|claims| - 1])
    else Current(claims[..|claims| - 1], pair)
  }

  /** Both lists have the same pairs, each once. */
  predicate SameIdentities(now: seq<Claim>, originals: seq<Claim>) {
    Distinct(PairsIn(originals)) && Distinct(PairsIn(now)) && ToSet(PairsIn(now)) == ToSet(PairsIn(originals))
  }

  function Merged(now: seq<Claim>, originals: seq<Claim>, missing: seq<string>): (r: seq<Claim>)
    ensures |r| == |originals|
  {
    seq(|originals|, k requires 0 <= k < |originals| =>
      var current := Current(now, PairOf(originals[k]));
      if originals[k].facet in missing && current.Some? then current.value else originals[k])
  }

  /** `restore_sufficient`. */
  function RestoreSufficient(now: seq<Claim>, originals: seq<Claim>, missing: seq<string>): seq<Claim> {
    if SameIdentities(now, originals) then Merged(now, originals, missing) else now
  }

  lemma {:induction false} CurrentFound(claims: seq<Claim>, pair: Pair)
    ensures Current(claims, pair).Some? <==> pair in PairsIn(claims)
    ensures Current(claims, pair).Some? ==> Current(claims, pair).value in claims && PairOf(Current(claims, pair).value) == pair
  {
    if claims != [] {
      var n := |claims| - 1;
      CurrentFound(claims[..n], pair);
      assert claims == claims[..n] + [claims[n]];
      assert PairsIn(claims) == PairsIn(claims[..n]) + [PairOf(claims[n])];
    }
  }

  /** The restored assessment has the original's identities in the original's order; outside the missing facets it is
      the original word for word, inside them it is the new answer. */
  lemma {:induction false} SufficientRestored(now: seq<Claim>, originals: seq<Claim>, missing: seq<string>, k: nat)
    requires SameIdentities(now, originals) && k < |originals|
    ensures var r := RestoreSufficient(now, originals, missing);
            && |r| == |originals| && PairOf(r[k]) == PairOf(originals[k])
            && (if originals[k].facet in missing then r[k] in now else r[k] == originals[k])
  {
    var pair := PairOf(originals[k]);
    assert PairsIn(originals)[k] == pair;
    assert pair in ToSet(PairsIn(now));
    CurrentFound(now, pair);
  }

  /** No two claims are about the same technology and facet. */
  ghost predicate Separate(claims: seq<Claim>) {
    forall i, j :: 0 <= i < j < |claims| ==>
      claims[i].technology != claims[j].technology || claims[i].facet != claims[j].facet
  }

  /** The original claims are put back exactly when both lists cover the same pairs, each once; otherwise the answer
      stays as it is, for the full check to refuse. */
  lemma {:induction false} SufficientExactly(now: seq<Claim>, originals: seq<Claim>, missing: seq<string>)
    ensures SameIdentities(now, originals) <==>
              Separate(now) && Separate(originals) && forall t, f :: Covered(now, t, f) <==> Covered(originals, t, f)
    ensures !SameIdentities(now, originals) ==> RestoreSufficient(now, originals, missing) == now
  {
    SeparateIff(now);
    SeparateIff(originals);
    forall t, f ensures (t, f) in ToSet(PairsIn(now)) <==> Covered(now, t, f) { CoversIff(now, t, f); }
    forall t, f ensures (t, f) in ToSet(PairsIn(originals)) <==> Covered(originals, t, f) { CoversIff(originals, t, f); }
    hide Covered, Separate, PairsIn;
    if forall t, f :: Covered(now, t, f) <==> Covered(originals, t, f) {
      forall p: Pair ensures p in ToSet(PairsIn(now)) <==> p in ToSet(PairsIn(originals)) { assert p == (p.0, p.1); }
    }
  }

  lemma {:induction false} SeparateIff(claims: seq<Claim>)
    ensures Distinct(PairsIn(claims)) <==> Separate(claims)
  {
    assert forall k :: 0 <= k < |claims| ==> PairsIn(claims)[k] == (claims[k].technology, claims[k].facet);
  }

  lemma {:induction false} CoversIff(claims: seq<Claim>, t: Technology, f: string)
    ensures (t, f) in ToSet(PairsIn(claims)) <==> Covered(claims, t, f)
  {
    assert forall k :: 0 <= k < |claims| ==> PairsIn(claims)[k] == (claims[k].technology, claims[k].facet);
  }

  /** Restoring again changes nothing. */
  lemma {:induction false} SufficientIdempotent(now: seq<Claim>, originals: seq<Claim>, missing: seq<string>)
    ensures var r := RestoreSufficient(now, originals, missing); RestoreSufficient(r, originals, missing) == r
  {
    var r := RestoreSufficient(now, originals, missing);
    if SameIdentities(now, originals) {
      forall k | 0 <= k < |originals| ensures PairOf(r[k]) == PairOf(originals[k]) {
        SufficientRestored(now, originals, missing, k);
      }
      assert PairsIn(r) == PairsIn(originals);
      forall k | 0 <= k < |originals| ensures Merged(r, originals, missing)[k] == r[k] {
        OwnCurrent(r, k);
      }
    }
  }

  lemma {:induction false} OwnCurrent(claims: seq<Claim>, k: nat)
    requires Distinct(PairsIn(claims)) && k < |claims|
    ensures Current(claims, PairOf(claims[k])) == Some(claims[k])
  {
    var n := |claims| - 1;
    if k < n {
      assert PairsIn(claims)[k] != PairsIn(claims)[n];
      assert PairsIn(claims[..n]) == PairsIn(claims)[..n];
      OwnCurrent(claims[..n], k);
    }
  }

  // ---------- The request ----------

  datatype Reply<T> = Raises(code: ErrorCode) | Malformed | Answers(value: T)

  /** What is fixed for a request: its chunks, the letter class, what a reassessment must keep and the full check. */
  datatype Task = Task(
    chunks: seq<Chunk>, alpha: char -> bool, previous: Option<seq<Claim>>, missing: seq<string>,
    reassessment: bool, check: Value -> seq<Issue>)

  /** `validate`, without the check: typography first, then sufficient claims. */
  function Kept(v: Value, task: Task): Value {
    if v.Other? then v
    else
      var restored := WithClaims(v, RestoredClaims(ClaimsOf(v), task.chunks, task.alpha));
      if task.reassessment && task.previous.Some? && v.Assessed?
      then WithClaims(restored, RestoreSufficient(ClaimsOf(restored), task.previous.value, task.missing))
      else restored
  }

  /** An answer is kept with its quotations restored; only an assessment that is being reassessed gets its sufficient
      claims back, and nothing but the claims is touched. */
  lemma {:induction false} KeptExactly(v: Value, task: Task)
    ensures var restored := RestoredClaims(ClaimsOf(v), task.chunks, task.alpha);
            && Kept(v, task) == WithClaims(v, ClaimsOf(Kept(v, task)))
            && ClaimsOf(Kept(v, task)) ==
               if v.Assessed? && task.reassessment && task.previous.Some?
               then RestoreSufficient(restored, task.previous.value, task.missing) else restored
  {
    hide RestoredReferences, RestoreSufficient;
  }

  datatype Step = Preflighted(target: string) | Generated(target: string)

  const MOST_UNITS := 8

  predicate MadeByCode(u: Unit) { u.ReferenceUnit? && u.preserve && |u.chunks| == 1 }

  /** The code answers by itself exactly for a reference that names a supplied chunk and can be bound to one other
      only. */
  lemma {:induction false} CodeAnswers(claim: Claim, i: nat, j: nat, chunks: seq<Chunk>, alpha: char -> bool)
    requires j < |claim.references|
    ensures MadeByCode(UnitForReference(claim, i, j, chunks, alpha)) <==>
              (exists c :: c in chunks && c.id == claim.references[j].chunkId)
              && |Candidates(claim, claim.references[j], chunks, alpha)| == 1
    ensures forall u: Unit :: !u.ReferenceUnit? ==> !MadeByCode(u)
  {
    hide Candidates;
    LookupKnown(chunks, claim.references[j].chunkId);
  }

  /** Every unit that needs the model is counted before any of them is generated. */
  predicate PreflightsFirst(log: seq<Step>) {
    forall i, j :: 0 <= i < j < |log| && log[i].Generated? ==> !log[j].Preflighted?
  }

  function Generations(log: seq<Step>): nat {
    if log == [] then 0 else Generations(log[..|log| - 1]) + (if log[|log| - 1].Generated? then 1 else 0)
  }

  lemma {:induction false} GenerationsSnoc(log: seq<Step>, s: Step)
    ensures Generations(log + [s]) == Generations(log) + (if s.Generated? then 1 else 0)
  {
    assert (log + [s])[..|log|] == log;
  }

  /** The patch of a unit: the code's own, or the model's answer. */
  function PatchOf(v: Value, u: Unit, answer: Unit -> Reply<Patch>): Reply<Patch> {
    if MadeByCode(u) then Answers(OwnPatch(u, TargetId(v, u))) else answer(u)
  }

  /** The patches of all units, when each has one. */
  function EditsFor(v: Value, units: seq<Unit>, answer: Unit -> Reply<Patch>): Option<seq<Edit>> {
    if units == [] then Some([])
    else
      var n := |units| - 1;
      var head, last := EditsFor(v, units[..n], answer), PatchOf(v, units[n], answer);
      if head.None? || !last.Answers? then None else Some(head.value + [(units[n], last.value)])
  }

  predicate AllCounted(v: Value, units: seq<Unit>, preflight: string -> Outcome<()>) {
    forall k :: 0 <= k < |units| ==> Countable(v, units[k], preflight)
  }

  /** An answer as it is kept, if it passes the full check. */
  function Passing(v: Value, task: Task): Option<Value> {
    if task.check(Kept(v, task)) == [] then Some(Kept(v, task)) else None
  }

  /** All patches merged into the answer and checked as a whole. */
  function Patched(v: Value, units: seq<Unit>, task: Task, preflight: string -> Outcome<()>,
          answer: Unit -> Reply<Patch>): Option<Value> {
    var edits := EditsFor(v, units, answer);
    if |units| > MOST_UNITS || !AllCounted(v, units, preflight) || edits.None? then None
    else
      var merged := ApplyAll(Done(v), edits.value, task.alpha);
      if merged.Raised? then None else Passing(merged.value, task)
  }

  /** A repair round succeeds exactly when there are at most eight units, each one that the code does not answer itself
      was counted and is answered by the model, and the answer with all patches merged passes its full check. */
  lemma {:induction false} PatchedExactly(v: Value, units: seq<Unit>, task: Task, preflight: string -> Outcome<()>,
          answer: Unit -> Reply<Patch>)
    ensures Patched(v, units, task, preflight, answer).Some? <==>
              && |units| <= 8
              && (forall u :: u in units && !MadeByCode(u) ==> preflight(TargetId(v, u)).Done? && answer(u).Answers?)
              && var merged := AllPatched(v, units, task.alpha, answer); merged.Some? && task.check(Kept(merged.value, task)) == []
    ensures Patched(v, units, task, preflight, answer).Some? ==>
              Patched(v, units, task, preflight, answer).value == Kept(AllPatched(v, units, task.alpha, answer).value, task)
  {
    hide Kept, ApplyAll, TargetId, MadeByCode;
    EditsAre(v, units, answer);
    if AllCounted(v, units, preflight) {
      forall u | u in units && !MadeByCode(u) ensures preflight(TargetId(v, u)).Done? {
        var k :| 0 <= k < |units| && units[k] == u;
        assert Countable(v, units[k], preflight);
      }
    }
    assert forall k :: 0 <= k < |units| ==> units[k] in units;
  }

  /** The answer with the patches of all units merged, if every unit has one and every one is accepted. */
  ghost function AllPatched(v: Value, units: seq<Unit>, alpha: char -> bool,
          answer: Unit -> Reply<Patch>): Option<Value> {
    var edits := EditsFor(v, units, answer);
    if edits.None? then None
    else match ApplyAll(Done(v), edits.value, alpha) case Done(merged) => Some(merged) case Raised(_) => None
  }

  /** There is a patch for every unit exactly when the model answers all that the code does not; each unit then has its
      own, in their order. */
  lemma {:induction false} EditsAre(v: Value, units: seq<Unit>, answer: Unit -> Reply<Patch>)
    ensures EditsFor(v, units, answer).Some? <==> forall u :: u in units && !MadeByCode(u) ==> answer(u).Answers?
    ensures EditsFor(v, units, answer).Some? ==>
              var edits := EditsFor(v, units, answer).value;
              |edits| == |units|
              && forall k :: 0 <= k < |units| ==>
                   edits[k].0 == units[k]
                   && if MadeByCode(units[k]) then edits[k].1 == OwnPatch(units[k], TargetId(v, units[k]))
                      else answer(units[k]) == Answers(edits[k].1)
  {
    hide TargetId, MadeByCode, OwnPatch;
    if units != [] {
      var n := |units| - 1;
      EditsAre(v, units[..n], answer);
      assert units == units[..n] + [units[n]];
    }
  }

  /** A second answer to the whole request. */
  function Rewritten(task: Task, preflight: string -> Outcome<()>, whole: () -> Reply<Value>): Option<Value> {
    if preflight("repair").Done? && whole().Answers? then Passing(whole().value, task) else None
  }

  /** What the request returns: the first answer if it passes, else what its one repair round gives. */
  function Wanted(first: Reply<Value>, task: Task, preflight: string -> Outcome<()>, answer: Unit -> Reply<Patch>,
          whole: () -> Reply<Value>): Option<Value> {
    if first.Raises? then None
    else if first.Malformed? then Rewritten(task, preflight, whole)
    else if Passing(first.value, task).Some? then Passing(first.value, task)
    else
      var value := Kept(first.value, task);
      var plan := Plan(value, task.check(value), task.chunks, task.alpha);
      if plan.Raised? then None
      else if plan.value.None? then Rewritten(task, preflight, whole)
      else Patched(value, plan.value.value, task, preflight, answer)
  }

  lemma {:induction false} EditsSnoc(v: Value, units: seq<Unit>, answer: Unit -> Reply<Patch>, k: nat)
    requires k < |units|
    ensures EditsFor(v, units[..k + 1], answer) ==
            var head, last := EditsFor(v, units[..k], answer), PatchOf(v, units[k], answer);
            if head.None? || !last.Answers? then None else Some(head.value + [(units[k], last.value)])
  {
    hide PatchOf;
    assert units[..k + 1][..k] == units[..k];
  }

  lemma {:induction false} EditsStart(v: Value, units: seq<Unit>, answer: Unit -> Reply<Patch>, k: nat)
    requires k <= |units|
    ensures EditsFor(v, units[..k], answer).None? ==> EditsFor(v, units, answer).None?
    ensures EditsFor(v, units, answer).Some? ==> EditsFor(v, units[..k], answer).value <= EditsFor(v, units, answer).value
    decreases |units| - k
  {
    if k == |units| {
      assert units[..k] == units;
    } else {
      EditsSnoc(v, units, answer, k);
      EditsStart(v, units, answer, k + 1);
    }
  }

  lemma {:induction false} EditsShape(v: Value, units: seq<Unit>, answer: Unit -> Reply<Patch>)
    requires EditsFor(v, units, answer).Some?
    ensures var edits := EditsFor(v, units, answer).value;
            |edits| == |units| && forall k :: 0 <= k < |units| ==> edits[k].0 == units[k]
  {
    if units != [] { EditsShape(v, units[..|units| - 1], answer); }
  }

  /** Once a patch is refused the merge is refused. */
  lemma {:induction false} RefusedEarly(o: Outcome<Value>, edits: seq<Edit>, all: seq<Edit>, alpha: char -> bool)
    requires edits <= all && ApplyAll(o, edits, alpha).Raised?
    ensures ApplyAll(o, all, alpha).Raised?
    decreases |edits|
  {
    hide Apply;
    if o.Done? && edits != [] {
      assert all[0] == edits[0] && edits[1..] <= all[1..];
      RefusedEarly(Apply(o.value, edits[0].0, edits[0].1, alpha), edits[1..], all[1..], alpha);
    }
  }

  predicate CountedIn(v: Value, u: Unit, log: seq<Step>) { MadeByCode(u) || Preflighted(TargetId(v, u)) in log }

  predicate Countable(v: Value, u: Unit, preflight: string -> Outcome<()>) {
    MadeByCode(u) || preflight(TargetId(v, u)).Done?
  }

  /** Preflights of the units of a plan, in order. */
  method PreflightUnits(v: Value, units: seq<Unit>, preflight: string -> Outcome<()>)
    returns (r: Outcome<()>, log: seq<Step>)
    ensures forall k :: 0 <= k < |log| ==> log[k].Preflighted?
    ensures Generations(log) == 0
    ensures r.Done? ==> forall k :: 0 <= k < |units| ==> CountedIn(v, units[k], log)
    ensures r.Done? <==> AllCounted(v, units, preflight)
  {
    hide TargetId, CountedIn, Countable, MadeByCode, Generations;
    NoGenerations();
    log := [];
    for k := 0 to |units|
      invariant forall i :: 0 <= i < |log| ==> log[i].Preflighted?
      invariant Generations(log) == 0
      invariant forall i :: 0 <= i < k ==> CountedIn(v, units[i], log) && Countable(v, units[i], preflight)
    {
      var more: seq<Step> := [];
      UnitCounted(v, units[k], log, preflight);
      if !MadeByCode(units[k]) {
        var counted := preflight(TargetId(v, units[k]));
        GenerationsSnoc(log, Preflighted(TargetId(v, units[k])));
        more := [Preflighted(TargetId(v, units[k]))];
        if counted.Raised? {
          return Raised(counted.code), log + more;
        }
      }
      forall i | 0 <= i < k ensures CountedIn(v, units[i], log + more) { StillCounted(v, units[i], log, more); }
      assert log + [] == log;
      log := log + more;
    }
    r := Done(());
  }

  lemma {:induction false} NoGenerations()
    ensures Generations([]) == 0
  {
  }

  lemma {:induction false} UnitCounted(v: Value, u: Unit, log: seq<Step>, preflight: string -> Outcome<()>)
    ensures CountedIn(v, u, log + [Preflighted(TargetId(v, u))]) && (MadeByCode(u) ==> CountedIn(v, u, log + []))
    ensures Countable(v, u, preflight) <==> MadeByCode(u) || preflight(TargetId(v, u)).Done?
  {
  }

  lemma {:induction false} StillCounted(v: Value, u: Unit, log: seq<Step>, more: seq<Step>)
    requires CountedIn(v, u, log)
    ensures CountedIn(v, u, log + more)
  {
  }

  /** The patches of the units, one generation each at most, merged into the answer in order. */
  method PatchUnits(v: Value, units: seq<Unit>, answer: Unit -> Reply<Patch>, alpha: char -> bool)
    returns (r: Outcome<Value>, log: seq<Step>)
    ensures forall k :: 0 <= k < |log| ==> log[k].Generated?
    ensures Generations(log) <= |units|
    ensures r.Done? <==> EditsFor(v, units, answer).Some? && ApplyAll(Done(v), EditsFor(v, units, answer).value, alpha).Done?
    ensures r.Done? ==> r == ApplyAll(Done(v), EditsFor(v, units, answer).value, alpha)
  {
    hide TargetId, Apply, ApplyAll, Restored, EditsFor, Generations;
    log := [];
    ghost var edits: seq<Edit> := [];
    var value := v;
    NoGenerations();
    NoEdits(v, units, answer, alpha);
    for k := 0 to |units|
      invariant EditsFor(v, units[..k], answer) == Some(edits)
      invariant forall i :: 0 <= i < |log| ==> log[i].Generated?
      invariant Generations(log) <= k
      invariant ApplyAll(Done(v), edits, alpha) == Done(value)
    {
      var u := units[k];
      var patch: Patch;
      EditsSnoc(v, units, answer, k);
      EditsStart(v, units, answer, k + 1);
      if MadeByCode(u) {
        patch := OwnPatch(u, TargetId(v, u));
      } else {
        GenerationsSnoc(log, Generated(TargetId(v, u)));
        log := log + [Generated(TargetId(v, u))];
        var reply := answer(u);
        if !reply.Answers? {
          return Raised(if reply.Raises? then reply.code else InvalidResponse), log;
        }
        patch := reply.value;
      }
      var merged := Apply(value, u, patch, alpha);
      ApplySnoc(Done(v), edits, (u, patch), alpha);
      if merged.Raised? {
        if EditsFor(v, units, answer).Some? {
          RefusedEarly(Done(v), edits + [(u, patch)], EditsFor(v, units, answer).value, alpha);
        }
        return Raised(InvalidResponse), log;
      }
      value, edits := merged.value, edits + [(u, patch)];
    }
    assert units[..|units|] == units;
    r := Done(value);
  }

  lemma {:induction false} NoEdits(v: Value, units: seq<Unit>, answer: Unit -> Reply<Patch>, alpha: char -> bool)
    ensures EditsFor(v, units[..0], answer) == Some([]) && ApplyAll(Done(v), [], alpha) == Done(v)
  {
  }

  lemma {:induction false} ApplySnoc(o: Outcome<Value>, edits: seq<Edit>, e: Edit, alpha: char -> bool)
    requires ApplyAll(o, edits, alpha).Done?
    ensures ApplyAll(o, edits + [e], alpha) ==
            var next := Apply(ApplyAll(o, edits, alpha).value, e.0, e.1, alpha);
            if next.Raised? then Raised(InvalidResponse) else next
    decreases |edits|
  {
    hide Apply;
    if edits == [] {
      assert edits + [e] == [e] && [e][1..] == [];
    } else {
      assert (edits + [e])[1..] == edits[1..] + [e];
      ApplySnoc(Apply(o.value, edits[0].0, edits[0].1, alpha), edits[1..], e, alpha);
    }
  }

  lemma {:induction false} LogsJoin(a: seq<Step>, b: seq<Step>)
    requires (forall k :: 0 <= k < |a| ==> a[k].Preflighted?) && (forall k :: 0 <= k < |b| ==> b[k].Generated?)
    requires Generations(a) == 0
    ensures PreflightsFirst(a + b) && Generations(a + b) == Generations(b)
  {
    GenerationsJoin(a, b);
  }

  lemma {:induction false} GenerationsJoin(a: seq<Step>, b: seq<Step>)
    ensures Generations(a + b) == Generations(a) + Generations(b)
  {
    if b == [] {
      assert a + b == a;
    } else {
      var n := |b| - 1;
      GenerationsJoin(a, b[..n]);
      assert (a + b)[..|a + b| - 1] == a + b[..n];
    }
  }

  /** `structured`, from the first answer on: what is returned has passed the full check; there is at most one repair
      round, of at most eight units or of the whole answer; and no unit is generated before all are counted. */
  method Structured(first: Reply<Value>, task: Task, preflight: string -> Outcome<()>, answer: Unit -> Reply<Patch>,
          whole: () -> Reply<Value>)
    returns (r: Outcome<Value>, log: seq<Step>)
    ensures r.Done? <==> Wanted(first, task, preflight, answer, whole).Some?
    ensures r.Done? ==> Some(r.value) == Wanted(first, task, preflight, answer, whole) && task.check(r.value) == []
    ensures PreflightsFirst(log) && Generations(log) <= MOST_UNITS
    ensures first.Answers? && Passing(first.value, task).Some? ==> log == []
  {
    hide Kept, Plan, ApplyAll, TargetId, Restored, EditsFor, AllCounted;
    log := [];
    if first.Raises? {
      return Raised(first.code), log;
    }
    if first.Answers? {
      var value := Kept(first.value, task);
      var issues := task.check(value);
      if issues == [] {
        return Done(value), log;
      }
      var plan := Plan(value, issues, task.chunks, task.alpha);
      if plan.Raised? {
        return Raised(plan.code), log;
      }
      if plan.value.Some? {
        var units := plan.value.value;
        if |units| > MOST_UNITS {
          return Raised(InputBudgetError), log;
        }
        var counted, counts := PreflightUnits(value, units, preflight);
        LogsJoin(counts, []);
        assert counts + [] == counts;
        if counted.Raised? {
          return Raised(counted.code), counts;
        }
        var merged, made := PatchUnits(value, units, answer, task.alpha);
        LogsJoin(counts, made);
        log := counts + made;
        if merged.Raised? {
          return Raised(merged.code), log;
        }
        var repaired := Kept(merged.value, task);
        r := if task.check(repaired) == [] then Done(repaired) else Raised(InvalidResponse);
        return;
      }
    }
    var counted := preflight("repair");
    if counted.Raised? {
      log := [Preflighted("repair")];
      return Raised(counted.code), log;
    }
    log := [Preflighted("repair"), Generated("repair")];
    assert log[..1] == [Preflighted("repair")] && log[..1][..0] == [];
    var second := whole();
    if !second.Answers? {
      return Raised(if second.Raises? then second.code else InvalidResponse), log;
    }
    var repaired := Kept(second.value, task);
    r := if task.check(repaired) == [] then Done(repaired) else Raised(InvalidResponse);
  }

  /** The repair round does not depend on the order in which its patches are merged, and touches nothing but the
      fields and references its units were asked for; where references are added, none is dropped. */
  lemma {:induction false} RoundOrderFree(value: Value, issues: seq<Issue>, task: Task, answer: Unit -> Reply<Patch>,
          other: seq<Edit>)
    requires Plan(value, issues, task.chunks, task.alpha).Done? && Plan(value, issues, task.chunks, task.alpha).value.Some?
    requires EditsFor(value, Plan(value, issues, task.chunks, task.alpha).value.value, answer).Some?
    requires multiset(other) == multiset(EditsFor(value, Plan(value, issues, task.chunks, task.alpha).value.value, answer).value)
    ensures var edits := EditsFor(value, Plan(value, issues, task.chunks, task.alpha).value.value, answer).value;
            && ApplyAll(Done(value), other, task.alpha) == ApplyAll(Done(value), edits, task.alpha)
            && (ApplyAll(Done(value), edits, task.alpha).Done? ==>
                  Changes(value, ApplyAll(Done(value), edits, task.alpha).value, Scopes(edits)))
            && forall i, field :: FieldOpen(i, field, Scopes(edits)) ==> !ReferenceOpen(i, Scopes(edits))
  {
    hide Plan, ApplyAll, EditsFor, Independent, TargetId, Changes, Scopes, FieldOpen, ReferenceOpen;
    var units := Plan(value, issues, task.chunks, task.alpha).value.value;
    var edits := EditsFor(value, units, answer).value;
    PlanIndependent(value, issues, task.chunks, task.alpha);
    EditsShape(value, units, answer);
    AnyOrder(Done(value), edits, other, task.alpha);
    if ApplyAll(Done(value), edits, task.alpha).Done? { OnlyTargetsChange(value, edits, task.alpha); }
    forall i, field | FieldOpen(i, field, Scopes(edits)) ensures !ReferenceOpen(i, Scopes(edits)) {
      IndependentScopes(edits, i, field);
    }
  }
}
