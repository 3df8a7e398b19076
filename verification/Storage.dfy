/** Dictionaries in stored artifacts: the store writes their keys sorted (agents/store.py), and the checks of
    conflict records compare lists that were made in the order of a dictionary (rag/conflicts.py). */
module Storage {
  import opened Schema
  import opened Texts
  import opened Orders
  import opened Ids
  import opened Evidence
  import opened Reports
  import opened Conflicts
  import opened Contracts
  import opened Writer
  import Render
  import Evaluator

  // ---------- Sorted keys ----------

  predicate ByKey<T>(a: (string, T), b: (string, T)) { Alphabetical(a.0, b.0) }

  /** `json.dumps(..., sort_keys=True)`, read back. */
  function SortedByKey<T>(d: Named<T>): Named<T> { Sorted(d, ByKey) }

  lemma {:induction false} SortedHolds<T>(d: Named<T>, x: (string, T))
    ensures x in SortedByKey(d) <==> x in d
    ensures |SortedByKey(d)| == |d|
  {
    SortedMembers(d, ByKey, x);
  }

  lemma {:induction false} SortedKeys<T>(d: Named<T>)
    requires Distinct(Keys(d))
    ensures Distinct(Keys(SortedByKey(d))) && ToSet(Keys(SortedByKey(d))) == ToSet(Keys(d))
  {
    hide SortedByKey;
    var r := SortedByKey(d);
    forall k | 0 <= k < |r| ensures Keys(r)[k] in ToSet(Keys(d)) {
      SortedHolds(d, r[k]);
      var j :| 0 <= j < |d| && d[j] == r[k];
      assert Keys(d)[j] == Keys(r)[k];
    }
    forall k | 0 <= k < |d| ensures Keys(d)[k] in ToSet(Keys(r)) {
      SortedHolds(d, d[k]);
      var j :| 0 <= j < |r| && r[j] == d[k];
      assert Keys(r)[j] == Keys(d)[k];
    }
    assert ToSet(Keys(r)) == ToSet(Keys(d));
    DistinctCard(Keys(d));
    CardAtMostLength(Keys(r));
    if d != [] { SortedHolds(d, d[0]); }
  }

  /** Sorting the keys of a dictionary keeps every entry, and no two keys are the same. */
  lemma {:induction false} SortedKeeps<T(!new)>(d: Named<T>)
    requires Distinct(Keys(d))
    ensures Ascending(Keys(SortedByKey(d))) && Dict(SortedByKey(d)) == Dict(d) && Distinct(Keys(SortedByKey(d)))
  {
    hide SortedByKey, Sorted, Dict, Distinct;
    var r := SortedByKey(d);
    SortedKeys(d);
    DictFaithful(d);
    DictFaithful(r);
    forall k | 0 <= k < |r| ensures Dict(d)[r[k].0] == r[k].1 {
      SortedHolds(d, r[k]);
      var j :| 0 <= j < |d| && d[j] == r[k];
    }
    forall id | id in Dict(r) ensures Dict(r)[id] == Dict(d)[id] {
      var k :| 0 <= k < |Keys(r)| && Keys(r)[k] == id;
      assert r[k].0 == id;
    }
    KeysAscend(d);
  }

  lemma {:induction false} KeysAscend<T(!new)>(d: Named<T>)
    requires Distinct(Keys(SortedByKey(d)))
    ensures Ascending(Keys(SortedByKey(d)))
  {
    hide Sorted, Before;
    var r := SortedByKey(d);
    AlphabeticalPreorder();
    assert Preorder(ByKey<T>);
    SortedInOrder(d, ByKey<T>);
    forall i, j | 0 <= i < j < |r| ensures Before(Keys(r)[i], Keys(r)[j]) {
      assert ByKey(r[i], r[j]) && Keys(r)[i] != Keys(r)[j];
    }
  }

  // ---------- Conflict records against a reordered registry ----------

  /** For every conflict the owner's claims, and the claims that the text names, come in the same order. */
  ghost predicate SameOrder(assessments: Named<Assessment>, claims: Named<ClaimRecord>, other: Named<ClaimRecord>,
          names: Naming)
  {
    forall a, i :: 0 <= a < |assessments| && 0 <= i < |assessments[a].1.conflicts| ==>
      SameLists(assessments[a].0, assessments[a].1.conflicts[i], claims, other, names)
  }

  ghost predicate SameLists(perspective: string, text: string, claims: Named<ClaimRecord>, other: Named<ClaimRecord>,
          names: Naming)
  {
    Owned(claims, perspective) == Owned(other, perspective) && Explicit(claims, text, names) == Explicit(other, text, names)
  }

  /** The same assessments and the same claims, each dictionary in an order of its own. */
  ghost predicate Reordered(assessments: Named<Assessment>, stored: Named<Assessment>, claims: Named<ClaimRecord>,
          other: Named<ClaimRecord>)
  {
    && Distinct(Keys(assessments)) && Distinct(Keys(stored)) && (forall x :: x in stored <==> x in assessments)
    && Distinct(Keys(claims)) && Distinct(Keys(other)) && Dict(other) == Dict(claims)
  }

  lemma {:induction false} UniqueStart<T>(a: seq<T>, b: seq<T>)
    requires Distinct(a)
    ensures |a| <= |Unique(a + b)| && Unique(a + b)[..|a|] == a
  {
    if b == [] {
      assert a + b == a;
      UniqueOfDistinct(a);
    } else {
      var n := |b| - 1;
      assert (a + b)[..|a + b| - 1] == a + b[..n];
      UniqueStart(a, b[..n]);
    }
  }

  lemma {:induction false} SameCount(claims: Named<ClaimRecord>, other: Named<ClaimRecord>,
          p: (string, ClaimRecord) -> bool)
    requires Distinct(Keys(claims)) && Distinct(Keys(other)) && Dict(other) == Dict(claims)
    ensures |Select(claims, p)| == |Select(other, p)|
  {
    hide Distinct, Dict, Selected;
    SelectKeys(claims, p);
    SelectKeys(other, p);
    forall id ensures id in ToSet(Select(claims, p)) <==> id in ToSet(Select(other, p)) {
      SelectedIs(claims, p, id);
      SelectedIs(other, p, id);
    }
    assert ToSet(Select(claims, p)) == ToSet(Select(other, p));
    DistinctCard(Select(claims, p));
    DistinctCard(Select(other, p));
  }

  lemma {:induction false} SelectedIs(claims: Named<ClaimRecord>, p: (string, ClaimRecord) -> bool, id: string)
    requires Distinct(Keys(claims))
    ensures Selected(claims, p, id) <==> id in Dict(claims) && p(id, Dict(claims)[id])
  {
    hide Distinct, Dict;
    DictFaithful(claims);
    if id in Dict(claims) {
      var k :| 0 <= k < |claims| && Keys(claims)[k] == id;
      assert claims[k].0 == id;
    }
  }

  /** Two orders give records of the same origin exactly when the two lists come in the same order. */
  lemma {:induction false} OriginExactly(p: string, i: nat, text: string, claims: Named<ClaimRecord>,
          other: Named<ClaimRecord>, names: Naming)
    requires Distinct(Keys(claims)) && Distinct(Keys(other)) && Dict(other) == Dict(claims)
    ensures SameOrigin(RecordFor(p, i, text, claims, names), RecordFor(p, i, text, other, names))
       <==> SameLists(p, text, claims, other, names)
  {
    hide Distinct, Dict, Conditions, Evidences, ToSet, Select;
    var mine, theirs := Owned(claims, p), Owned(other, p);
    SameCount(claims, other, OwnedBy(p));
    SelectKeys(claims, OwnedBy(p));
    SelectKeys(other, OwnedBy(p));
    UniqueStart(mine, Explicit(claims, text, names));
    UniqueStart(theirs, Explicit(other, text, names));
  }

  lemma {:induction false} ReorderedRecord(assessments: Named<Assessment>, stored: Named<Assessment>,
          claims: Named<ClaimRecord>, other: Named<ClaimRecord>, names: Naming, k: nat, a: nat, i: nat)
    requires Reordered(assessments, stored, claims, other)
    requires k < |Built(assessments, claims, names)| && a < |assessments| && i < |assessments[a].1.conflicts|
    requires Built(assessments, claims, names)[k]
          == RecordFor(assessments[a].0, i, assessments[a].1.conflicts[i], claims, names)
    ensures Built(assessments, claims, names)[k].id in ConflictIds(Built(stored, other, names))
    ensures RecordSound(Built(assessments, claims, names)[k], Built(stored, other, names), Dict(other))
       <==> SameLists(assessments[a].0, assessments[a].1.conflicts[i], claims, other, names)
  {
    hide RecordFor, SameOrigin, Linked, ReviewSound, SameLists, Dict, Distinct;
    var p, text := assessments[a].0, assessments[a].1.conflicts[i];
    var built := Built(stored, other, names);
    assert assessments[a] in stored;
    var b :| 0 <= b < |stored| && stored[b] == assessments[a];
    var j := BuiltHolds(stored, other, names, b, i);
    BuiltIdsDistinct(stored, other, names);
    ExpectedAt(built, j);
    SameIds(p, i, text, claims, other, names);
    assert ConflictIds(built)[j] == built[j].id;
    OriginExactly(p, i, text, claims, other, names);
    RecordForSound(p, i, text, claims, names);
  }

  lemma {:induction false} IdsWithin(assessments: Named<Assessment>, stored: Named<Assessment>,
          claims: Named<ClaimRecord>, other: Named<ClaimRecord>, names: Naming)
    requires Reordered(assessments, stored, claims, other)
    ensures ToSet(ConflictIds(Built(assessments, claims, names))) <= ToSet(ConflictIds(Built(stored, other, names)))
  {
    hide RecordFor, RecordSound, SameLists, Reordered;
    var built := Built(assessments, claims, names);
    forall id | id in ToSet(ConflictIds(built)) ensures id in ToSet(ConflictIds(Built(stored, other, names))) {
      var k :| 0 <= k < |built| && ConflictIds(built)[k] == id;
      var a, i := BuiltOrigin(assessments, claims, names, k);
      ReorderedRecord(assessments, stored, claims, other, names, k, a, i);
    }
  }

  /** Records built over one order of the dictionaries pass the check made over another exactly when, for every
      conflict, the owner's claims and the claims that the text names come in the same order. */
  lemma {:induction false} ReorderedExactly(assessments: Named<Assessment>, stored: Named<Assessment>,
          claims: Named<ClaimRecord>, other: Named<ClaimRecord>, names: Naming)
    requires Reordered(assessments, stored, claims, other)
    ensures RecordsSound(Built(assessments, claims, names), Built(stored, other, names), Dict(other))
       <==> SameOrder(assessments, claims, other, names)
  {
    hide RecordSound, RecordFor, SameLists;
    var built := Built(assessments, claims, names);
    BuiltIdsDistinct(assessments, claims, names);
    IdsWithin(assessments, stored, claims, other, names);
    assert Reordered(stored, assessments, other, claims);
    IdsWithin(stored, assessments, other, claims, names);
    hide Dict, Distinct, Reordered;
    if SameOrder(assessments, claims, other, names) {
      forall k | 0 <= k < |built| ensures RecordSound(built[k], Built(stored, other, names), Dict(other)) {
        var a, i := BuiltOrigin(assessments, claims, names, k);
        ReorderedRecord(assessments, stored, claims, other, names, k, a, i);
      }
    } else {
      var a, i :| 0 <= a < |assessments| && 0 <= i < |assessments[a].1.conflicts|
                  && !SameLists(assessments[a].0, assessments[a].1.conflicts[i], claims, other, names);
      var k := BuiltHolds(assessments, claims, names, a, i);
      ReorderedRecord(assessments, stored, claims, other, names, k, a, i);
    }
  }

  // ---------- Against the sorted registry ----------

  /** For every conflict the owner's claims, and the claims that the text names, are listed in the order of their
      ids. */
  ghost predicate ListsAscend(assessments: Named<Assessment>, claims: Named<ClaimRecord>, names: Naming) {
    forall a, i :: 0 <= a < |assessments| && 0 <= i < |assessments[a].1.conflicts| ==>
      BothAscend(assessments[a].0, assessments[a].1.conflicts[i], claims, names)
  }

  ghost predicate BothAscend(perspective: string, text: string, claims: Named<ClaimRecord>, names: Naming) {
    Ascending(Owned(claims, perspective)) && Ascending(Explicit(claims, text, names))
  }

  lemma {:induction false} SelectAscends(claims: Named<ClaimRecord>, p: (string, ClaimRecord) -> bool)
    requires Ascending(Keys(claims))
    ensures Ascending(Select(claims, p))
    ensures forall id :: id in Select(claims, p) ==> exists k :: 0 <= k < |claims| && claims[k].0 == id
  {
    hide Before;
    if claims != [] {
      var n := |claims| - 1;
      SelectAscends(claims[..n], p);
      var head := Select(claims[..n], p);
      forall k | 0 <= k < |head| ensures Before(head[k], claims[n].0) {
        assert head[k] in head;
        var j :| 0 <= j < n && claims[..n][j].0 == head[k];
        assert claims[j].0 == head[k];
      }
      forall id | id in Select(claims, p) ensures exists k :: 0 <= k < |claims| && claims[k].0 == id {
        if id in head {
          var j :| 0 <= j < n && claims[..n][j].0 == id;
          assert claims[j].0 == id;
        } else {
          assert claims[n].0 == id;
        }
      }
    }
  }

  lemma {:induction false} AscendingLast(a: seq<string>)
    requires Ascending(a) && a != []
    ensures Ascending(a[..|a| - 1])
    ensures forall id :: id in a[..|a| - 1] <==> id in a && id != a[|a| - 1]
  {
    hide Before;
    var n := |a| - 1;
    assert a == a[..n] + [a[n]];
    forall k | 0 <= k < n ensures a[k] != a[n] { BeforeTotal(a[n], a[n]); }
  }

  /** Only one list of given ids ascends. */
  lemma {:induction false} AscendingUnique(a: seq<string>, b: seq<string>)
    requires Ascending(a) && Ascending(b) && forall id :: id in a <==> id in b
    ensures a == b
  {
    hide Ascending;
    assert b != [] ==> b[0] in b;
    if a != [] {
      assert a[0] in b;
      LastIsSame(a, b);
      AscendingLast(a);
      AscendingLast(b);
      var s, t := a[..|a| - 1], b[..|b| - 1];
      forall id ensures id in s <==> id in t {
        assert id in a <==> id in b;
      }
      AscendingUnique(s, t);
      assert a == s + [a[|a| - 1]] && b == t + [b[|b| - 1]];
    }
  }

  lemma {:induction false} LastIsSame(a: seq<string>, b: seq<string>)
    requires Ascending(a) && Ascending(b) && a != [] && b != [] && forall id :: id in a <==> id in b
    ensures a[|a| - 1] == b[|b| - 1]
  {
    hide Before;
    var x, y := a[|a| - 1], b[|b| - 1];
    assert x in b && y in a;
    var i :| 0 <= i < |b| && b[i] == x;
    var j :| 0 <= j < |a| && a[j] == y;
    BeforeTotal(x, y);
  }

  lemma {:induction false} SortedSelect(claims: Named<ClaimRecord>, p: (string, ClaimRecord) -> bool)
    requires Distinct(Keys(claims))
    ensures Select(claims, p) == Select(SortedByKey(claims), p) <==> Ascending(Select(claims, p))
  {
    hide Select, SortedByKey, Distinct, Dict, Ascending, Selected;
    var other := SortedByKey(claims);
    SortedKeeps(claims);
    SelectAscends(other, p);
    SelectKeys(claims, p);
    SelectKeys(other, p);
    forall id ensures id in Select(claims, p) <==> id in Select(other, p) {
      SelectedIs(claims, p, id);
      SelectedIs(other, p, id);
    }
    if Ascending(Select(claims, p)) { AscendingUnique(Select(claims, p), Select(other, p)); }
  }

  /** Sorting the registry keeps the lists of every conflict exactly when they ascend already. */
  lemma {:induction false} SortedOrderExactly(assessments: Named<Assessment>, claims: Named<ClaimRecord>, names: Naming)
    requires Distinct(Keys(claims))
    ensures SameOrder(assessments, claims, SortedByKey(claims), names) <==> ListsAscend(assessments, claims, names)
  {
    forall a, i | 0 <= a < |assessments| && 0 <= i < |assessments[a].1.conflicts|
      ensures SameLists(assessments[a].0, assessments[a].1.conflicts[i], claims, SortedByKey(claims), names) <==>
                BothAscend(assessments[a].0, assessments[a].1.conflicts[i], claims, names)
    {
      hide Select, SortedByKey, Distinct, Ascending;
      SortedSelect(claims, OwnedBy(assessments[a].0));
      SortedSelect(claims, NamedIn(assessments[a].1.conflicts[i], names));
    }
    hide SameLists, BothAscend, Distinct, SortedByKey;
  }

  // ---------- A report read back from the store ----------

  function StoredJoined(joined: Joined): Joined {
    joined.(claims := SortedByKey(joined.claims), assessments := SortedByKey(joined.assessments))
  }

  /** A record whose text names no added claim is the same before and after they are added. */
  lemma {:induction false} BuiltLarger(assessments: Named<Assessment>, claims: Named<ClaimRecord>,
          added: Named<ClaimRecord>, names: Naming)
    requires Distinct(Keys(claims + added)) && Apart(assessments, added) && NamesNone(assessments, added, names)
    ensures Built(assessments, claims, names) == Built(assessments, claims + added, names)
  {
    hide RecordFor;
    BuiltLength(assessments, claims, claims + added, names);
    var mine, theirs := Built(assessments, claims, names), Built(assessments, claims + added, names);
    forall k | 0 <= k < |mine| ensures mine[k] == theirs[k] {
      var a, i := SameBuilt(assessments, claims, claims + added, names, k);
      RecordLarger(assessments[a].0, i, assessments[a].1.conflicts[i], claims, added, names);
    }
  }

  lemma {:induction false} SameBuilt(assessments: Named<Assessment>, c: Named<ClaimRecord>, d: Named<ClaimRecord>,
          names: Naming, k: nat)
    returns (a: nat, i: nat)
    requires k < |Built(assessments, c, names)| && k < |Built(assessments, d, names)|
    ensures a < |assessments| && i < |assessments[a].1.conflicts|
    ensures Built(assessments, c, names)[k] == RecordFor(assessments[a].0, i, assessments[a].1.conflicts[i], c, names)
    ensures Built(assessments, d, names)[k] == RecordFor(assessments[a].0, i, assessments[a].1.conflicts[i], d, names)
  {
    hide RecordFor;
    var n := |assessments| - 1;
    BuiltLength(assessments[..n], c, d, names);
    if k < |Built(assessments[..n], c, names)| {
      a, i := SameBuilt(assessments[..n], c, d, names, k);
    } else {
      a, i := n, k - |Built(assessments[..n], c, names)|;
    }
  }

  lemma {:induction false} RecordLarger(p: string, i: nat, text: string, claims: Named<ClaimRecord>,
          added: Named<ClaimRecord>, names: Naming)
    requires Distinct(Keys(claims + added))
    requires forall k :: 0 <= k < |added| ==> added[k].1.perspective != p && !names(text, added[k].0)
    ensures RecordFor(p, i, text, claims, names) == RecordFor(p, i, text, claims + added, names)
  {
    hide Dict, Distinct, Unique, Conditions, Evidences, ToSet, Linked;
    RecordForLarger(p, i, text, claims, added, names);
    LeadingKeys(claims, added);
    RecordForSound(p, i, text, claims, names);
    LinksKept(RecordFor(p, i, text, claims, names), claims, added);
    LinkedRecord(p, i, text, claims, names);
    LinkedRecord(p, i, text, claims + added, names);
  }

  lemma {:induction false} LeadingKeys(claims: Named<ClaimRecord>, added: Named<ClaimRecord>)
    requires Distinct(Keys(claims + added))
    ensures Distinct(Keys(claims))
  {
    assert Keys(claims) == Keys(claims + added)[..|claims|];
  }

  lemma {:induction false} LinkedRecord(p: string, i: nat, text: string, claims: Named<ClaimRecord>, names: Naming)
    ensures var r := RecordFor(p, i, text, claims, names);
            forall m :: Linked(r, m) <==> r.conditions == Conditions(m, ToSet(r.candidateIds))
                                          && r.evidenceIds == Evidences(m, ToSet(r.candidateIds))
    ensures var r := RecordFor(p, i, text, claims, names);
            r.conditions == Conditions(Dict(claims), ToSet(r.candidateIds))
            && r.evidenceIds == Evidences(Dict(claims), ToSet(r.candidateIds))
  {
    var r := RecordFor(p, i, text, claims, names);
    assert r.candidateIds + r.verifiedIds == r.candidateIds;
  }

  lemma {:induction false} SortedEmpty<T>(d: Named<T>)
    ensures SortedByKey(d) == [] <==> d == []
  {
    if d != [] {
      assert d[0] in d;
      SortedHolds(d, d[0]);
    }
  }

  lemma {:induction false} SortedReorders(assessments: Named<Assessment>, claims: Named<ClaimRecord>)
    requires Distinct(Keys(assessments)) && Distinct(Keys(claims))
    ensures Reordered(assessments, SortedByKey(assessments), claims, SortedByKey(claims))
  {
    hide Distinct, SortedByKey, Dict;
    SortedKeeps(assessments);
    SortedKeeps(claims);
    forall x ensures x in SortedByKey(assessments) <==> x in assessments { SortedHolds(assessments, x); }
  }

  /** The conflict records of a report that the writer has checked pass the same check on the report read back
      from the store exactly when the lists of every conflict are in the order of the claim ids. */
  lemma {:induction false} StoredConflictsExactly(assessments: Named<Assessment>, synthesis: seq<Claim>,
          chunks: seq<Chunk>, names: Naming)
    requires AllCited(ClaimGroups(assessments), chunks) && AllCited(Synthesis(synthesis), chunks)
    requires Distinct(Keys(assessments)) && forall k :: 0 <= k < |assessments| ==> assessments[k].0 != "synthesis"
    requires NamesNone(assessments, ClaimRecords(Synthesis(synthesis)), names)
    ensures var joined := Extended(Base(assessments, chunks, names), synthesis, chunks);
            ConflictsHold(StoredJoined(joined), names) <==> ListsAscend(assessments, joined.claims, names)
  {
    hide AllCited, EvidenceRecords, ClaimRecords, Dict, Distinct, NamesNone, RecordsSound, Built, AllGaps, GapRecords,
         Synthesis, WithSynthesis, ClaimGroups, SameOrder, SortedByKey, Reordered, ListsAscend;
    var base, added := ClaimRecords(ClaimGroups(assessments)), ClaimRecords(Synthesis(synthesis));
    SynthesisGroups(assessments, synthesis, chunks);
    SynthesisApart(assessments, synthesis);
    BuiltLarger(assessments, base, added, names);
    SortedReorders(assessments, base + added);
    ReorderedExactly(assessments, SortedByKey(assessments), base + added, SortedByKey(base + added), names);
    SortedOrderExactly(assessments, base + added, names);
    SortedEmpty(assessments);
    if assessments == [] {
      NoConflictsStored(base + added, SortedByKey(base + added), names);
    }
  }

  lemma {:induction false} NoConflictsStored(claims: Named<ClaimRecord>, stored: Named<ClaimRecord>, names: Naming)
    ensures SameOrder([], claims, stored, names) && AllConflicts([]) == []
    ensures RecordsSound(Built([], claims, names), Built([("legacy", Assessment(Sufficient, [], [], []))], stored, names),
                         Dict(stored))
  {
    hide Dict;
    assert [("legacy", Assessment(Sufficient, [], [], []))][..0] == [];
  }

  // ---------- Ten claims ----------

  lemma {:induction false} TenBeforeTwo(p: string)
    ensures Before(Numbered(p, 10), Numbered(p, 2))
  {
    assert Decimal(2) == "2" && Decimal(1) == "1";
    assert Decimal(10) == "10";
    assert Before("10", "2");
    BeforePrefix(p + ['-'], "10", "2");
  }

  lemma {:induction false} SelectHas(claims: Named<ClaimRecord>, p: (string, ClaimRecord) -> bool, i: nat)
    returns (x: nat)
    requires i < |claims| && p(claims[i].0, claims[i].1)
    ensures x < |Select(claims, p)| && Select(claims, p)[x] == claims[i].0
  {
    var n := |claims| - 1;
    if i < n { x := SelectHas(claims[..n], p, i); } else { x := |Select(claims[..n], p)|; }
  }

  lemma {:induction false} SelectOrder(claims: Named<ClaimRecord>, p: (string, ClaimRecord) -> bool, i: nat, j: nat)
    returns (x: nat, y: nat)
    requires i < j < |claims| && p(claims[i].0, claims[i].1) && p(claims[j].0, claims[j].1)
    ensures x < y < |Select(claims, p)| && Select(claims, p)[x] == claims[i].0 && Select(claims, p)[y] == claims[j].0
  {
    var n := |claims| - 1;
    if j < n {
      x, y := SelectOrder(claims[..n], p, i, j);
    } else {
      x := SelectHas(claims[..n], p, i);
      y := |Select(claims[..n], p)|;
    }
  }

  /** A view with a conflict and ten claims or more: its tenth claim is sorted before its second. */
  lemma {:induction false} TenClaimsDescend(assessments: Named<Assessment>, synthesis: seq<Claim>, names: Naming,
          a: nat)
    requires a < |assessments| && assessments[a].1.conflicts != [] && |assessments[a].1.claims| >= 10
    ensures !ListsAscend(assessments, ClaimRecords(WithSynthesis(assessments, synthesis)), names)
  {
    hide Explicit, ClaimRecords, ClaimId, Before, Numbered;
    var groups := WithSynthesis(assessments, synthesis);
    var claims, p := ClaimRecords(groups), assessments[a].0;
    assert groups[a] == (p, assessments[a].1.claims);
    var two := RecordAt(groups, a, 1);
    var ten := RecordAt(groups, a, 9);
    assert claims[two].1.perspective == p && claims[ten].1.perspective == p;
    TenFirst(p);
    var x, y := SelectOrder(claims, OwnedBy(p), two, ten);
    NotAscending(Owned(claims, p), x, y);
    var text := assessments[a].1.conflicts[0];
  }

  lemma {:induction false} NotAscending(ids: seq<string>, x: nat, y: nat)
    requires x < y < |ids| && Before(ids[y], ids[x])
    ensures !Ascending(ids)
  {
    BeforeTotal(ids[x], ids[y]);
  }

  /** A conflict text that names two claims which were collected in the other order than that of their ids. */
  lemma {:induction false} NamedDescend(assessments: Named<Assessment>, claims: Named<ClaimRecord>, names: Naming,
          a: nat, c: nat, i: nat, j: nat)
    requires a < |assessments| && c < |assessments[a].1.conflicts| && i < j < |claims|
    requires names(assessments[a].1.conflicts[c], claims[i].0) && names(assessments[a].1.conflicts[c], claims[j].0)
    requires Before(claims[j].0, claims[i].0)
    ensures !ListsAscend(assessments, claims, names)
  {
    hide Before;
    var text := assessments[a].1.conflicts[c];
    var x, y := SelectOrder(claims, NamedIn(text, names), i, j);
    NotAscending(Explicit(claims, text, names), x, y);
  }

  /** Research is collected first, and its ids come after those of the market and the domain. */
  lemma {:induction false} ResearchDescends(name: string, i: nat, other: string, j: nat)
    requires name in AssessmentNames(Research) && other in AssessmentNames(Market) + AssessmentNames(Domain)
    ensures Before(ClaimId(other, j), ClaimId(name, i))
  {
    assert "research_kivi"[0] == 'r' && "research_infinigen"[0] == 'r' && "market"[0] == 'm' && "domain"[0] == 'd';
    assert ClaimId(other, j)[0] == other[0] && ClaimId(name, i)[0] == name[0];
  }

  lemma {:induction false} TenFirst(p: string)
    ensures Before(ClaimId(p, 10), ClaimId(p, 2))
  {
    TenBeforeTwo(p);
  }

  // ---------- When the lists ascend, and when they do not ----------

  /** Of two names where neither begins the other, whatever is appended. */
  lemma {:induction false} BeforeApart(p: string, q: string, x: string, y: string)
    requires Before(p, q) && !(p <= q)
    ensures Before(p + x, q + y)
  {
    assert (p + x)[0] == p[0] && (q + y)[0] == q[0];
    assert p == [p[0]] + p[1..] && q == [q[0]] + q[1..];
    if p[0] == q[0] {
      assert (p + x)[1..] == p[1..] + x && (q + y)[1..] == q[1..] + y;
      BeforeApart(p[1..], q[1..], x, y);
    }
  }

  lemma {:induction false} DigitsAscend(i: nat, j: nat)
    requires i < j < 10
    ensures Before(Decimal(i), Decimal(j))
  {
    assert DIGITS == ['0', '1', '2', '3', '4', '5', '6', '7', '8', '9'];
    assert Decimal(i) == [DIGITS[i]] && Decimal(j) == [DIGITS[j]];
  }

  lemma {:induction false} AscendingConcat(a: seq<string>, b: seq<string>)
    requires Ascending(a) && Ascending(b)
    requires forall i, j :: 0 <= i < |a| && 0 <= j < |b| ==> Before(a[i], b[j])
    ensures Ascending(a + b)
  {
  }

  /** The names come in their order, and none begins another. */
  predicate NamesApart(groups: Named<seq<Claim>>) {
    forall g, h :: 0 <= g < h < |groups| ==> Before(groups[g].0, groups[h].0) && !(groups[g].0 <= groups[h].0)
  }

  lemma {:induction false} FewAscend(p: string, claims: seq<Claim>)
    requires |claims| < 10
    ensures Ascending(Keys(RecordsOf(p, claims)))
  {
    hide Before, RecordOf, ClaimId;
    var ids := Keys(RecordsOf(p, claims));
    forall i, j | 0 <= i < j < |ids| ensures Before(ids[i], ids[j]) { SmallNumbers(p, i + 1, j + 1); }
  }

  lemma {:induction false} SmallNumbers(p: string, i: nat, j: nat)
    requires i < j < 10
    ensures Before(ClaimId(p, i), ClaimId(p, j))
  {
    hide Before, Decimal;
    DigitsAscend(i, j);
    BeforePrefix(p + ['-'], Decimal(i), Decimal(j));
  }

  /** With fewer than ten claims each, perspectives in the order of their names number all claims in order. */
  lemma {:induction false} RecordsAscend(groups: Named<seq<Claim>>)
    requires NamesApart(groups) && forall g :: 0 <= g < |groups| ==> |groups[g].1| < 10
    ensures Ascending(Keys(ClaimRecords(groups)))
  {
    hide Before, RecordOf, RecordsOf;
    if groups != [] {
      var n := |groups| - 1;
      RecordsAscend(groups[..n]);
      FewAscend(groups[n].0, groups[n].1);
      var head, tail := ClaimRecords(groups[..n]), RecordsOf(groups[n].0, groups[n].1);
      forall k, l | 0 <= k < |head| && 0 <= l < |tail| ensures Before(head[k].0, tail[l].0) {
        var g, i := RecordOrigin(groups[..n], k);
        assert tail[l].0 == ClaimId(groups[n].0, l + 1) by { OwnRecord(groups[n].0, groups[n].1, l); }
        NumbersApart(groups[g].0, i + 1, groups[n].0, l + 1);
      }
      AscendingConcat(Keys(head), Keys(tail));
      assert Keys(head + tail) == Keys(head) + Keys(tail);
    }
  }

  lemma {:induction false} OwnRecord(p: string, claims: seq<Claim>, l: nat)
    requires l < |claims|
    ensures RecordsOf(p, claims)[l].0 == ClaimId(p, l + 1)
  {
  }

  lemma {:induction false} NumbersApart(p: string, i: nat, q: string, j: nat)
    requires Before(p, q) && !(p <= q)
    ensures Before(ClaimId(p, i), ClaimId(q, j))
  {
    BeforeApart(p, q, ['-'] + Decimal(i), ['-'] + Decimal(j));
    assert p + ['-'] + Decimal(i) == p + (['-'] + Decimal(i)) && q + ['-'] + Decimal(j) == q + (['-'] + Decimal(j));
  }

  lemma {:induction false} AllListsAscend(assessments: Named<Assessment>, claims: Named<ClaimRecord>, names: Naming)
    requires Ascending(Keys(claims))
    ensures ListsAscend(assessments, claims, names)
  {
    hide Ascending, Select;
    forall a, i | 0 <= a < |assessments| && 0 <= i < |assessments[a].1.conflicts|
      ensures BothAscend(assessments[a].0, assessments[a].1.conflicts[i], claims, names)
    {
      SelectAscends(claims, OwnedBy(assessments[a].0));
      SelectAscends(claims, NamedIn(assessments[a].1.conflicts[i], names));
    }
  }

  lemma {:induction false} ViewNames(order: seq<Role>, a: string, b: string)
    requires NamedFor(order, a) && (NamedFor(order, b) || b == "synthesis") && a != b
    requires forall k :: 0 <= k < |order| ==> IsView(order[k])
    ensures !(a <= b)
  {
    var k :| 0 <= k < |order| && a in AssessmentNames(order[k]);
    if b != "synthesis" {
      var l :| 0 <= l < |order| && b in AssessmentNames(order[l]);
    }
    NoneBegins(a, b);
  }

  const NAMES := ["research_kivi", "research_infinigen", "market", "stakeholder", "domain", "synthesis"]

  lemma {:induction false} NoneBegins(a: string, b: string)
    requires a in NAMES && b in NAMES && a != b
    ensures !(a <= b)
  {
    assert "research_kivi"[9] == 'k' && "research_infinigen"[9] == 'i' && "stakeholder"[1] == 't' && "synthesis"[1] == 'y';
    assert |a| > 1 && |b| > 1;
    assert a[0] != b[0] || a[1] != b[1] || (|a| > 9 && |b| > 9 && a[9] != b[9]);
  }

  /** Results read in the order of their assessments' names, with fewer than ten claims for every owner, are always
      taken, whatever the conflict texts name. */
  lemma {:induction false} SortedResultsAscend(order: seq<Role>, results: seq<ResearchResult>, synthesis: seq<Claim>,
          names: Naming)
    requires WriteInputs(order, results) && Ascending(Keys(AllAssessments(results)))
    requires forall a :: 0 <= a < |AllAssessments(results)| ==> |AllAssessments(results)[a].1.claims| < 10
    requires |synthesis| < 10
    ensures ListsAscend(AllAssessments(results), ClaimRecords(WithSynthesis(AllAssessments(results), synthesis)), names)
  {
    hide Before, ClaimRecords, ConsistentResearch, NamedFor, AllAssessments, AssessmentNames;
    var all := AllAssessments(results);
    var groups := WithSynthesis(all, synthesis);
    forall k | 0 <= k < |order| ensures IsView(order[k]) { assert order[k] in ToSet(order) && order[k] in VIEWS; }
    NamesDistinct(order, results);
    forall g, h | 0 <= g < h < |groups| ensures Before(groups[g].0, groups[h].0) && !(groups[g].0 <= groups[h].0) {
      if h < |all| { assert Before(Keys(all)[g], Keys(all)[h]); BeforeTotal(all[g].0, all[g].0); }
      else { ViewBeforeSynthesis(order, all[g].0); BeforeTotal(all[g].0, all[g].0); }
      ViewNames(order, groups[g].0, groups[h].0);
    }
    RecordsAscend(groups);
    AllListsAscend(all, ClaimRecords(groups), names);
  }

  lemma {:induction false} ViewBeforeSynthesis(order: seq<Role>, name: string)
    requires NamedFor(order, name) && forall k :: 0 <= k < |order| ==> IsView(order[k])
    ensures Before(name, "synthesis")
  {
    var k :| 0 <= k < |order| && name in AssessmentNames(order[k]);
    assert "research_kivi"[0] == 'r' && "research_infinigen"[0] == 'r' && "market"[0] == 'm' && "domain"[0] == 'd';
    assert "synthesis"[0] == 's' && "stakeholder"[0] == 's' && "stakeholder"[1..][0] == 't' && "synthesis"[1..][0] == 'y';
  }

  /** The order in which a snapshot lists the results. */
  const SNAPSHOT_ORDER := [Domain, Market, Research, Stakeholder]

  lemma {:induction false} SingleName(r: ResearchResult)
    requires ConsistentResearch(r) && r.status.Ok? && !r.view.Research?
    ensures |r.assessments| == 1 && Keys(r.assessments) == AssessmentNames(r.view)
  {
    hide ConsistentResearch;
    OwnNames(r);
    var ids := Keys(r.assessments);
    DistinctCard(ids);
    DistinctCard(AssessmentNames(r.view));
    assert ids[0] in ToSet(ids);
  }

  lemma {:induction false} ResearchBetween(r: ResearchResult, k: nat)
    requires ConsistentResearch(r) && r.status.Ok? && r.view.Research? && k < |r.assessments|
    ensures Before("market", Keys(r.assessments)[k]) && Before("domain", Keys(r.assessments)[k])
    ensures Before(Keys(r.assessments)[k], "stakeholder")
  {
    hide ConsistentResearch;
    OwnNames(r);
    assert Keys(r.assessments)[k] in ToSet(Keys(r.assessments));
    assert "research_kivi"[0] == 'r' && "research_infinigen"[0] == 'r' && "stakeholder"[0] == 's';
    assert "market"[0] == 'm' && "domain"[0] == 'd';
  }

  lemma {:induction false} FourAssessments(results: seq<ResearchResult>)
    requires |results| == 4
    ensures AllAssessments(results) == results[0].assessments + results[1].assessments + results[2].assessments
                                       + results[3].assessments
  {
    var one, two, three := results[..1], results[..2], results[..3];
    assert one[..0] == [] && two[..1] == one && three[..2] == two && results[..3] == three;
    assert AllAssessments(one) == [] + results[0].assessments;
    assert AllAssessments(two) == AllAssessments(one) + results[1].assessments;
    assert AllAssessments(three) == AllAssessments(two) + results[2].assessments;
  }

  /** A run resumed after its last result was stored reads every result in the order of the names. */
  lemma {:induction false} SnapshotAscends(results: seq<ResearchResult>)
    requires WriteInputs(SNAPSHOT_ORDER, results) && Ascending(Keys(results[2].assessments))
    ensures Ascending(Keys(AllAssessments(results)))
  {
    hide ConsistentResearch;
    var own := Keys(results[2].assessments);
    SingleName(results[0]);
    SingleName(results[1]);
    SingleName(results[3]);
    FourAssessments(results);
    var head := ["domain", "market"];
    assert Keys(AllAssessments(results)) == head + own + ["stakeholder"];
    forall i, j | 0 <= i < |head| && 0 <= j < |own| ensures Before(head[i], own[j]) { ResearchBetween(results[2], j); }
    assert Ascending(head) by { assert "domain"[0] == 'd' && "market"[0] == 'm'; }
    AscendingConcat(head, own);
    forall i | 0 <= i < |head + own| ensures Before((head + own)[i], "stakeholder") {
      if i < |head| { assert "domain"[0] == 'd' && "market"[0] == 'm' && "stakeholder"[0] == 's'; }
      else { ResearchBetween(results[2], i - |head|); }
    }
    AscendingConcat(head + own, ["stakeholder"]);
  }

  lemma {:induction false} RecordsGrow(groups: Named<seq<Claim>>, g: nat, h: nat)
    requires g < h <= |groups|
    ensures |ClaimRecords(groups[..g])| + |groups[g].1| <= |ClaimRecords(groups[..h])|
  {
    assert groups[..h][..h - 1] == groups[..h - 1];
    if g + 1 < h { RecordsGrow(groups, g, h - 1); }
  }

  lemma {:induction false} FirstAssessments(results: seq<ResearchResult>)
    requires results != []
    ensures results[0].assessments <= AllAssessments(results)
  {
    var n := |results| - 1;
    if n > 0 {
      FirstAssessments(results[..n]);
    } else {
      assert AllAssessments(results[..n]) == [];
    }
  }

  lemma {:induction false} ResearchStandsFirst(order: seq<Role>, results: seq<ResearchResult>, g: nat, h: nat)
    requires WriteInputs(order, results) && order != [] && order[0] == Research
    requires g < |AllAssessments(results)| && AllAssessments(results)[g].0 in AssessmentNames(Research)
    requires h < |AllAssessments(results)| && AllAssessments(results)[h].0 !in AssessmentNames(Research)
    ensures g < h
  {
    hide ConsistentResearch, AllAssessments, AssessmentNames;
    var all, own := AllAssessments(results), results[0].assessments;
    InputNames(order, results);
    FirstAssessments(results);
    OwnNames(results[0]);
    assert all[g].0 in ToSet(Keys(own));
    var k :| 0 <= k < |Keys(own)| && Keys(own)[k] == all[g].0;
    assert Keys(all)[k] == Keys(all)[g];
    forall x | 0 <= x < |own| ensures all[x].0 in AssessmentNames(Research) {
      assert Keys(own)[x] in ToSet(Keys(own));
    }
  }

  /** While the research stands first in the collected results, a conflict text that names a technical claim and a
      market or domain claim is enough. */
  lemma {:induction false} CrossingDescends(order: seq<Role>, results: seq<ResearchResult>, synthesis: seq<Claim>,
          names: Naming, a: nat, c: nat, g: nat, i: nat, h: nat, j: nat)
    requires WriteInputs(order, results) && order != [] && order[0] == Research
    requires var all := AllAssessments(results);
             && a < |all| && c < |all[a].1.conflicts| && g < |all| && h < |all|
             && i < |all[g].1.claims| && all[g].0 in AssessmentNames(Research)
             && j < |all[h].1.claims| && all[h].0 in AssessmentNames(Market) + AssessmentNames(Domain)
             && names(all[a].1.conflicts[c], ClaimId(all[g].0, i + 1)) && names(all[a].1.conflicts[c], ClaimId(all[h].0, j + 1))
    ensures !ListsAscend(AllAssessments(results), ClaimRecords(WithSynthesis(AllAssessments(results), synthesis)), names)
  {
    hide ClaimRecords, WriteInputs, AllAssessments, ListsAscend, Before, ClaimId;
    var all := AllAssessments(results);
    var groups := WithSynthesis(all, synthesis);
    ResearchStandsFirst(order, results, g, h);
    CrossingClaims(all, groups, names, a, c, g, i, h, j);
  }

  lemma {:induction false} CrossingClaims(all: Named<Assessment>, groups: Named<seq<Claim>>, names: Naming, a: nat,
          c: nat, g: nat, i: nat, h: nat, j: nat)
    requires g < h < |groups| && i < |groups[g].1| && j < |groups[h].1|
    requires groups[g].0 in AssessmentNames(Research) && groups[h].0 in AssessmentNames(Market) + AssessmentNames(Domain)
    requires a < |all| && c < |all[a].1.conflicts|
    requires names(all[a].1.conflicts[c], ClaimId(groups[g].0, i + 1))
    requires names(all[a].1.conflicts[c], ClaimId(groups[h].0, j + 1))
    ensures !ListsAscend(all, ClaimRecords(groups), names)
  {
    hide ClaimRecords, ListsAscend, Before, ClaimId, AssessmentNames;
    var k := RecordAt(groups, g, i);
    var l := RecordAt(groups, h, j);
    RecordsGrow(groups, g, h);
    ResearchDescends(groups[g].0, i + 1, groups[h].0, j + 1);
    NamedDescend(all, ClaimRecords(groups), names, a, c, k, l);
  }

  const CROSSING := "market-1 / " + "research_kivi-1"

  /** It does happen: research, then market, and a conflict that names the first claim of either. */
  lemma {:induction false} CrossingConflict(kivi: Claim, market: Claim)
    ensures var assessments := [("research_kivi", Assessment(Sufficient, [kivi], [], [])),
                                ("market", Assessment(Sufficient, [market], [CROSSING], []))];
            !ListsAscend(assessments, ClaimRecords(WithSynthesis(assessments, [])), Contains)
  {
    hide ClaimRecords, ListsAscend;
    var assessments := [("research_kivi", Assessment(Sufficient, [kivi], [], [])),
                        ("market", Assessment(Sufficient, [market], [CROSSING], []))];
    assert Decimal(1) == "1";
    assert ClaimId("market", 1) == "market-1" && ClaimId("research_kivi", 1) == "research_kivi-1";
    assert CROSSING[0..8] == "market-1" && CROSSING[11..26] == "research_kivi-1";
    assert OccursAt(CROSSING, "market-1", 0) && OccursAt(CROSSING, "research_kivi-1", 11);
    var groups := WithSynthesis(assessments, []);
    assert groups[0] == ("research_kivi", [kivi]) && groups[1] == ("market", [market]);
    CrossingClaims(assessments, groups, Contains, 1, 0, 0, 0, 1, 0);
  }

  // ---------- What the evaluator makes of a written report ----------

  function StoredReport(r: ReportResult): ReportResult
    requires r.document.Some?
  {
    r.(document := Some(r.document.value.(joined := StoredJoined(r.document.value.joined))))
  }

  lemma {:induction false} FinishedParts(common: Common, results: seq<ResearchResult>, previous: Option<ReportResult>,
          draft: Outcome<Report>, decide: seq<GapRecord> -> Outcome<seq<GapDecision>>, text: seq<Render.Line> -> string,
          summaryLength: (Report, Joined) -> nat, names: Naming, r: ReportResult)
    returns (chunks: seq<Chunk>, sources: map<string, Source>)
    requires previous.Some? ==> previous.value.document.Some?
    requires Finished(common, results, previous, draft, decide, text, summaryLength, names) == Some(r)
    ensures r.document.Some? && ConsistentReport(r)
    ensures var synthesis := r.document.value.report.synthesisClaims;
            AllCited(ClaimGroups(AllAssessments(results)), chunks) && AllCited(Synthesis(synthesis), chunks)
    ensures var d := r.document.value;
            var joined := Extended(Base(AllAssessments(results), chunks, names), d.report.synthesisClaims, chunks);
            && r == Assembled(common, d.report, joined, chunks, sources, PageOf(d.report, joined, text))
            && ReportSound(d.report, Dict(joined.claims), chunks, Some(joined.gapRecords))
            && Render.Renders(d.report, joined, sources.Keys, summaryLength(d.report, joined), names)
            && UsedChunkIds(joined, Render.UsedClaims(d.report)) <= ToSet(ChunkIds(chunks))
  {
    hide AllCited, Merge, RegistrySound, ReportSound, DraftSound, Base, Extended, UsedChunkIds, ConsistentReport,
         Render.Renders, Render.UsedClaims, PageOf, Synthesis, ClaimGroups, AllAssessments;
    chunks, sources := Merge(results).value.chunks, Merge(results).value.sources;
  }

  /** What is shown and cited does not depend on the order of the dictionaries. */
  lemma {:induction false} StoredInk(report: Report, joined: Joined)
    requires Distinct(Keys(joined.claims))
    ensures Dict(StoredJoined(joined).claims) == Dict(joined.claims)
    ensures Render.InkOf(report, StoredJoined(joined)) == Render.InkOf(report, joined)
  {
    hide SortedByKey, Dict, Distinct;
    SortedKeeps(joined.claims);
  }

  lemma {:induction false} StoredBody(sections: seq<Section>, report: Report, joined: Joined, ink: Render.Ink)
    ensures Render.BodyLines(sections, report, StoredJoined(joined), ink) == Render.BodyLines(sections, report, joined, ink)
  {
    hide SortedByKey, Render.SectionLines, Render.GapLines;
    if sections != [] { StoredBody(sections[..|sections| - 1], report, joined, ink); }
  }

  lemma {:induction false} SynthesisRegistered(assessments: Named<Assessment>, synthesis: seq<Claim>,
          chunks: seq<Chunk>, names: Naming)
    requires AllCited(ClaimGroups(assessments), chunks) && AllCited(Synthesis(synthesis), chunks)
    requires Distinct(Keys(assessments)) && forall k :: 0 <= k < |assessments| ==> assessments[k].0 != "synthesis"
    ensures var claims := Extended(Base(assessments, chunks, names), synthesis, chunks).claims;
            && claims == ClaimRecords(WithSynthesis(assessments, synthesis)) && Distinct(Keys(claims))
            && Evaluator.SynthesisLinked(synthesis, Dict(claims))
  {
    hide AllCited, EvidenceRecords, ClaimRecords, Dict, Distinct, ClaimId, AllGaps, GapRecords, Built;
    SynthesisGroups(assessments, synthesis, chunks);
    var groups := WithSynthesis(assessments, synthesis);
    RegisteredAt(groups, synthesis);
    BaseClaims(assessments, chunks, names);
  }

  lemma {:induction false} RegisteredAt(groups: Named<seq<Claim>>, synthesis: seq<Claim>)
    requires groups != [] && groups[|groups| - 1] == ("synthesis", synthesis) && Distinct(Keys(ClaimRecords(groups)))
    ensures Evaluator.SynthesisLinked(synthesis, Dict(ClaimRecords(groups)))
  {
    hide ClaimRecords, Dict, Distinct, ClaimId;
    var records := ClaimRecords(groups);
    DictFaithful(records);
    forall i | 0 <= i < |synthesis| ensures Evaluator.Registered(i, synthesis[i], Dict(records)) {
      var k := RecordAt(groups, |groups| - 1, i);
      assert records[k].1.claim == synthesis[i];
    }
  }

  lemma {:induction false} BaseClaims(assessments: Named<Assessment>, chunks: seq<Chunk>, names: Naming)
    requires AllCited(ClaimGroups(assessments), chunks)
    ensures Base(assessments, chunks, names).claims == ClaimRecords(ClaimGroups(assessments))
  {
  }

  lemma {:induction false} KeptListed(chunks: seq<Chunk>, ids: set<string>, id: string)
    requires id in ids && id in ToSet(ChunkIds(chunks))
    ensures id in ToSet(ChunkIds(Kept(chunks, ids)))
  {
    hide Kept;
    var i :| 0 <= i < |chunks| && ChunkIds(chunks)[i] == id;
    KeptMembers(chunks, ids, chunks[i]);
    var k :| 0 <= k < |Kept(chunks, ids)| && Kept(chunks, ids)[k] == chunks[i];
    assert ChunkIds(Kept(chunks, ids))[k] == id;
  }

  lemma {:induction false} KeptChunksListed(joined: Joined, used: seq<string>, chunks: seq<Chunk>)
    requires UsedChunkIds(joined, used) <= ToSet(ChunkIds(chunks))
    requires Distinct(Keys(joined.claims))
    ensures Evaluator.ChunksListed(used, StoredJoined(joined), Kept(chunks, UsedChunkIds(joined, used)))
  {
    hide Kept, Dict, SortedByKey, Distinct;
    var ids := UsedChunkIds(joined, used);
    SortedKeeps(joined.claims);
    forall c, e | c in used && c in Dict(joined.claims) && e in Dict(joined.claims)[c].evidenceIds && e in joined.evidence
      ensures joined.evidence[e].ref.chunkId in ToSet(ChunkIds(Kept(chunks, ids)))
    {
      KeptListed(chunks, ids, joined.evidence[e].ref.chunkId);
    }
  }

  /** A report read back from the store meets its contract as before. */
  lemma {:induction false} StoredConsistent(r: ReportResult)
    requires ConsistentReport(r) && r.document.Some?
    ensures ConsistentReport(StoredReport(r))
  {
    hide RegistrySound, Grounded, Dict, SortedByKey, Distinct, EvidenceResolves;
    var joined := r.document.value.joined;
    var stored := StoredReport(r);
    SortedKeys(joined.claims);
    SortedKeys(joined.assessments);
    var claims := SortedByKey(joined.claims);
    forall k | 0 <= k < |claims|
      ensures RecordConsistent(claims[k].0, claims[k].1, stored.document.value, r.chunks)
    {
      SortedHolds(joined.claims, claims[k]);
      var j :| 0 <= j < |joined.claims| && joined.claims[j] == claims[k];
      assert RecordConsistent(joined.claims[j].0, joined.claims[j].1, r.document.value, r.chunks);
    }
  }

  /** The report that the writer returns, read back from the store, is taken by the evaluator for the artifact that
      was written exactly when the lists of every conflict ascend; otherwise it is refused, though the writer
      rendered it, and whether or not the Supervisor accepts it. */
  lemma {:induction false} StoredReportMatches(common: Common, order: seq<Role>, results: seq<ResearchResult>,
          previous: Option<ReportResult>, draft: Outcome<Report>, decide: seq<GapRecord> -> Outcome<seq<GapDecision>>,
          text: seq<Render.Line> -> string, summaryLength: (Report, Joined) -> nat, names: Naming, r: ReportResult)
    requires WriteInputs(order, results)
    requires previous.Some? ==> previous.value.document.Some?
    requires Finished(common, results, previous, draft, decide, text, summaryLength, names) == Some(r)
    ensures r.document.Some? && ConsistentReport(StoredReport(r))
    ensures var d := r.document.value;
            Evaluator.ArtifactMatches(StoredReport(r), text, summaryLength(d.report, d.joined), names) <==>
              ListsAscend(AllAssessments(results), d.joined.claims, names)
  {
    hide Finished, AllCited, ClaimRecords, Dict, Distinct, NamesNone, ReportSound, Synthesis, AllAssessments, Base,
         Extended, ListsAscend, StoredJoined, ConflictsHold, WriteInputs, UsedChunkIds, Kept, Evaluator.SynthesisLinked,
         Evaluator.ChunksListed, ConsistentReport, Render.InkOf, Render.StatesConflicts, Render.BodyLines,
         Render.Complete, Render.UsedClaims;
    var chunks, sources := FinishedParts(common, results, previous, draft, decide, text, summaryLength, names, r);
    var report, joined := r.document.value.report, r.document.value.joined;
    var assessments := AllAssessments(results);
    InputNames(order, results);
    RenderedUnnamed(results, report, chunks, names);
    StoredConflictsExactly(assessments, report.synthesisClaims, chunks, names);
    SynthesisRegistered(assessments, report.synthesisClaims, chunks, names);
    Render.SoundStatesConflicts(report, Dict(joined.claims), chunks, Some(joined.gapRecords));
    StoredInk(report, joined);
    StoredBody(report.sections, report, joined, Render.InkOf(report, joined));
    KeptChunksListed(joined, Render.UsedClaims(report), chunks);
    StoredComplete(report, joined);
    StoredConsistent(r);
    assert StoredReport(r).sources.Keys == sources.Keys * ToSet(Render.InkOf(report, joined).sources);
  }

  lemma {:induction false} StoredComplete(report: Report, joined: Joined)
    requires Distinct(Keys(joined.claims))
    ensures Render.Complete(report, StoredJoined(joined)) <==> Render.Complete(report, joined)
  {
    hide SortedByKey, Dict, Distinct, Render.UsedClaims;
    SortedKeeps(joined.claims);
  }
}
