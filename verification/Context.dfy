/** Packing evidence chunks into a token budget: required chunks, then companions, then ranked hits
    (rag/context.py, `token_context` in rag/graph.py, `legacy_context` in scripts/evaluate_context.py). */
module Context {
  import opened Schema
  import opened Orders
  import Seqs

  type Cost = Chunk -> nat

  function CostOf(chunks: seq<Chunk>, cost: Cost): nat {
    if chunks == [] then 0 else CostOf(chunks[..|chunks| - 1], cost) + cost(chunks[|chunks| - 1])
  }

  predicate HasId(chunks: seq<Chunk>, id: string) { exists k :: 0 <= k < |chunks| && chunks[k].id == id }

  predicate DistinctIds(chunks: seq<Chunk>) {
    forall i, j :: 0 <= i < j < |chunks| ==> chunks[i].id != chunks[j].id
  }

  /** The nested `take`: whole chunks in order, each id once, while both the total and the phase's own limit
      allow; a required chunk that does not fit is an error. */
  function Take(items: seq<Chunk>, required: bool, limit: int, spent: nat, selected: seq<Chunk>, budget: int,
          cost: Cost): Outcome<seq<Chunk>>
    decreases |items|
  {
    if items == [] then Done(selected)
    else
      var c, rest := items[0], items[1..];
      if HasId(selected, c.id) then Take(rest, required, limit, spent, selected, budget, cost)
      else if CostOf(selected, cost) + cost(c) > budget || spent + cost(c) > limit then
        if required then Raised(InvalidResponse) else Take(rest, required, limit, spent, selected, budget, cost)
      else Take(rest, required, limit, spent + cost(c), selected + [c], budget, cost)
  }

  method TakeLoop(items: seq<Chunk>, required: bool, limit: int, before: seq<Chunk>, budget: int, cost: Cost)
    returns (r: Outcome<seq<Chunk>>)
    ensures r == Take(items, required, limit, 0, before, budget, cost)
  {
    hide HasId, CostOf;
    var selected, used := before, CostOf(before, cost);
    var spent: nat := 0;
    for k := 0 to |items|
      invariant used == CostOf(selected, cost)
      invariant Take(items[k..], required, limit, spent, selected, budget, cost) == Take(items, required, limit, 0, before, budget, cost)
    {
      var c := items[k];
      assert items[k..][0] == c && items[k..][1..] == items[k + 1..];
      if !HasId(selected, c.id) {
        var price := cost(c);
        if used + price > budget || spent + price > limit {
          if required {
            return Raised(InvalidResponse);
          }
        } else {
          CostSnoc(selected, c, cost);
          selected, used, spent := selected + [c], used + price, spent + price;
        }
      }
    }
    r := Done(selected);
  }

  lemma {:induction false} CostSnoc(chunks: seq<Chunk>, c: Chunk, cost: Cost)
    ensures CostOf(chunks + [c], cost) == CostOf(chunks, cost) + cost(c)
  {
    assert (chunks + [c])[..|chunks|] == chunks;
  }

  lemma {:induction false} IdsSnoc(chunks: seq<Chunk>, c: Chunk)
    ensures forall id :: HasId(chunks + [c], id) <==> HasId(chunks, id) || c.id == id
    ensures DistinctIds(chunks) && !HasId(chunks, c.id) ==> DistinctIds(chunks + [c])
  {
    var more := chunks + [c];
    assert more[|chunks|] == c && forall k :: 0 <= k < |chunks| ==> more[k] == chunks[k];
    forall id | HasId(chunks, id) ensures HasId(more, id) {
      var k :| 0 <= k < |chunks| && chunks[k].id == id;
      assert more[k].id == id;
    }
  }

  /** What a phase keeps: the earlier selection as a prefix, ids once each, and the budget. */
  lemma {:induction false} TakeKeeps(items: seq<Chunk>, required: bool, limit: int, spent: nat, selected: seq<Chunk>,
          budget: int, cost: Cost)
    requires DistinctIds(selected) && CostOf(selected, cost) <= budget
    requires Take(items, required, limit, spent, selected, budget, cost).Done?
    ensures var r := Take(items, required, limit, spent, selected, budget, cost).value;
            && selected <= r && DistinctIds(r) && CostOf(r, cost) <= budget
            && (spent <= limit ==> CostOf(r, cost) - CostOf(selected, cost) + spent <= limit)
            && forall k :: |selected| <= k < |r| ==> r[k] in items
    decreases |items|
  {
    hide HasId, CostOf, DistinctIds;
    if items != [] {
      var c, rest := items[0], items[1..];
      assert items == [c] + rest;
      if HasId(selected, c.id) || CostOf(selected, cost) + cost(c) > budget || spent + cost(c) > limit {
        TakeKeeps(rest, required, limit, spent, selected, budget, cost);
      } else {
        CostSnoc(selected, c, cost);
        IdsSnoc(selected, c);
        TakeKeeps(rest, required, limit, spent + cost(c), selected + [c], budget, cost);
        var r := Take(items, required, limit, spent, selected, budget, cost).value;
        assert (selected + [c])[..|selected|] == selected;
        forall k | |selected| <= k < |r| ensures r[k] in items {
          if k == |selected| { assert (selected + [c])[k] == c; }
        }
      }
    }
  }

  /** Nothing that was skipped would still fit when the phase ends; a required phase skips nothing. */
  lemma {:induction false} TakeExhausts(items: seq<Chunk>, required: bool, limit: int, spent: nat, selected: seq<Chunk>,
          budget: int, cost: Cost, k: nat)
    requires DistinctIds(selected) && CostOf(selected, cost) <= budget
    requires Take(items, required, limit, spent, selected, budget, cost).Done? && k < |items|
    ensures var r := Take(items, required, limit, spent, selected, budget, cost).value;
            HasId(r, items[k].id)
            || (!required && (CostOf(r, cost) + cost(items[k]) > budget
                              || CostOf(r, cost) - CostOf(selected, cost) + spent + cost(items[k]) > limit))
    decreases |items|
  {
    hide HasId, CostOf, DistinctIds;
    var c, rest := items[0], items[1..];
    var r := Take(items, required, limit, spent, selected, budget, cost).value;
    TakeKeeps(items, required, limit, spent, selected, budget, cost);
    TakeGrows(selected, r, cost);
    if k == 0 {
      if !HasId(selected, c.id) && !(CostOf(selected, cost) + cost(c) > budget || spent + cost(c) > limit) {
        CostSnoc(selected, c, cost);
        IdsSnoc(selected, c);
        TakeKeeps(rest, required, limit, spent + cost(c), selected + [c], budget, cost);
        TakeGrows(selected + [c], r, cost);
      }
    } else if HasId(selected, c.id) || CostOf(selected, cost) + cost(c) > budget || spent + cost(c) > limit {
      TakeExhausts(rest, required, limit, spent, selected, budget, cost, k - 1);
    } else {
      CostSnoc(selected, c, cost);
      IdsSnoc(selected, c);
      TakeExhausts(rest, required, limit, spent + cost(c), selected + [c], budget, cost, k - 1);
    }
  }

  lemma {:induction false} TakeGrows(a: seq<Chunk>, b: seq<Chunk>, cost: Cost)
    requires a <= b
    ensures CostOf(a, cost) <= CostOf(b, cost) && forall id :: HasId(a, id) ==> HasId(b, id)
  {
    CostPrefix(b, |a|, cost);
    assert b[..|a|] == a;
    forall id | HasId(a, id) ensures HasId(b, id) {
      var k :| 0 <= k < |a| && a[k].id == id;
      assert b[k].id == id;
    }
  }

  lemma {:induction false} CostPrefix(chunks: seq<Chunk>, n: nat, cost: Cost)
    requires n <= |chunks|
    ensures CostOf(chunks[..n], cost) <= CostOf(chunks, cost)
  {
    var l := |chunks| - 1;
    if n == |chunks| {
      assert chunks[..n] == chunks;
    } else {
      assert chunks[..l][..n] == chunks[..n];
      CostPrefix(chunks[..l], n, cost);
    }
  }

  // ---------- The selection, stated without the loop ----------

  /** The chunks at the taken positions below `n`, in order. */
  function Chosen(items: seq<Chunk>, taken: set<nat>, n: nat): seq<Chunk>
    requires n <= |items|
  {
    if n == 0 then [] else Chosen(items, taken, n - 1) + (if n - 1 in taken then [items[n - 1]] else [])
  }

  /** Exactly those positions are taken whose chunk, at its turn, is new and fits beside what was taken before it. */
  ghost predicate Greedy(items: seq<Chunk>, taken: set<nat>, before: seq<Chunk>, limit: int, budget: int, cost: Cost) {
    && (forall k :: k in taken ==> k < |items|)
    && forall k: nat :: k < |items| ==> (k in taken <==> Fits(items[k], Chosen(items, taken, k), before, limit, budget, cost))
  }

  ghost predicate Fits(c: Chunk, own: seq<Chunk>, before: seq<Chunk>, limit: int, budget: int, cost: Cost) {
    && !HasId(before + own, c.id)
    && CostOf(before + own, cost) + cost(c) <= budget && CostOf(own, cost) + cost(c) <= limit
  }

  lemma {:induction false} ChosenSame(items: seq<Chunk>, more: seq<Chunk>, taken: set<nat>, other: set<nat>, n: nat)
    requires n <= |items| && n <= |more| && items[..n] == more[..n]
    requires forall k :: 0 <= k < n ==> (k in taken <==> k in other)
    ensures Chosen(items, taken, n) == Chosen(more, other, n)
  {
    if n > 0 {
      assert items[n - 1] == items[..n][n - 1] == more[n - 1];
      assert items[..n - 1] == items[..n][..n - 1] == more[..n - 1];
      ChosenSame(items, more, taken, other, n - 1);
    }
  }

  /** The rule determines the selection. */
  lemma {:induction false} GreedyUnique(items: seq<Chunk>, taken: set<nat>, other: set<nat>, before: seq<Chunk>,
          limit: int, budget: int, cost: Cost)
    requires Greedy(items, taken, before, limit, budget, cost) && Greedy(items, other, before, limit, budget, cost)
    ensures taken == other
  {
    hide Fits, Chosen;
    GreedyUpTo(items, taken, other, before, limit, budget, cost, |items|);
  }

  lemma {:induction false} GreedyUpTo(items: seq<Chunk>, taken: set<nat>, other: set<nat>, before: seq<Chunk>,
          limit: int, budget: int, cost: Cost, n: nat)
    requires n <= |items|
    requires Greedy(items, taken, before, limit, budget, cost) && Greedy(items, other, before, limit, budget, cost)
    ensures forall k :: 0 <= k < n ==> (k in taken <==> k in other)
  {
    hide Fits, Chosen;
    if n > 0 {
      GreedyUpTo(items, taken, other, before, limit, budget, cost, n - 1);
      ChosenSame(items, items, taken, other, n - 1);
    }
  }

  /** One item more at the end of a phase. */
  lemma {:induction false} TakeSnoc(items: seq<Chunk>, c: Chunk, required: bool, limit: int, spent: nat,
          selected: seq<Chunk>, budget: int, cost: Cost)
    ensures var head, r := Take(items, required, limit, spent, selected, budget, cost),
                           Take(items + [c], required, limit, spent, selected, budget, cost);
            if head.Raised? then r == head
            else if HasId(head.value, c.id) then r == head
            else if CostOf(head.value, cost) + cost(c) > budget
                    || CostOf(head.value, cost) - CostOf(selected, cost) + spent + cost(c) > limit
              then r == if required then Raised(InvalidResponse) else head
            else r == Done(head.value + [c])
    decreases |items|
  {
    hide HasId, CostOf;
    if items == [] {
      assert items + [c] == [c] && [c][1..] == [];
    } else {
      var d, rest := items[0], items[1..];
      assert (items + [c])[0] == d && (items + [c])[1..] == rest + [c];
      CostSnoc(selected, d, cost);
      TakeSnoc(rest, c, required, limit, spent, selected, budget, cost);
      TakeSnoc(rest, c, required, limit, spent + cost(d), selected + [d], budget, cost);
    }
  }

  /** A phase makes the greedy selection. */
  lemma {:induction false} TakeGreedy(items: seq<Chunk>, required: bool, limit: int, selected: seq<Chunk>, budget: int,
          cost: Cost)
    returns (taken: set<nat>)
    requires Take(items, required, limit, 0, selected, budget, cost).Done?
    ensures Greedy(items, taken, selected, limit, budget, cost)
    ensures Take(items, required, limit, 0, selected, budget, cost).value == selected + Chosen(items, taken, |items|)
    decreases |items|
  {
    hide Fits, Take, CostOf, HasId;
    if items == [] {
      taken := {};
      assert selected + [] == selected;
      NothingToTake(required, limit, selected, budget, cost);
    } else {
      var n := |items| - 1;
      var head, c := items[..n], items[n];
      assert items == head + [c];
      TakeSnoc(head, c, required, limit, 0, selected, budget, cost);
      var was := TakeGreedy(head, required, limit, selected, budget, cost);
      var own := Chosen(head, was, n);
      CostConcat(selected, own, cost);
      FitsIff(c, own, selected, limit, budget, cost);
      taken := GreedySnoc(head, c, was, selected, limit, budget, cost);
      hide Greedy, Chosen;
      Seqs.Assoc(selected, own, [c]);
    }
  }

  /** One more chunk is taken exactly if it fits. */
  lemma {:induction false} GreedySnoc(head: seq<Chunk>, c: Chunk, was: set<nat>, before: seq<Chunk>, limit: int,
          budget: int, cost: Cost)
    returns (taken: set<nat>)
    requires Greedy(head, was, before, limit, budget, cost)
    ensures Greedy(head + [c], taken, before, limit, budget, cost)
    ensures var own := Chosen(head, was, |head|);
            Chosen(head + [c], taken, |head + [c]|) == if Fits(c, own, before, limit, budget, cost) then own + [c] else own
  {
    hide Fits, Chosen;
    var items, n := head + [c], |head|;
    taken := if Fits(c, Chosen(head, was, n), before, limit, budget, cost) then was + {n} else was;
    ChosenLast(items, taken, n);
    forall k: nat | k <= n ensures Chosen(items, taken, k) == Chosen(head, was, k) { ChosenKept(head, c, was, taken, k); }
    forall k: nat | k < |items| ensures k in taken <==> Fits(items[k], Chosen(items, taken, k), before, limit, budget, cost) {
      if k < n { assert items[k] == head[k] && (k in taken <==> k in was); } else { assert items[k] == c; }
    }
  }

  lemma {:induction false} ChosenLast(items: seq<Chunk>, taken: set<nat>, n: nat)
    requires n < |items|
    ensures Chosen(items, taken, n + 1) == if n in taken then Chosen(items, taken, n) + [items[n]] else Chosen(items, taken, n)
  {
    assert Chosen(items, taken, n) + [] == Chosen(items, taken, n);
  }

  lemma {:induction false} ChosenKept(head: seq<Chunk>, c: Chunk, was: set<nat>, taken: set<nat>, k: nat)
    requires k <= |head| && was <= taken <= was + {|head|}
    ensures Chosen(head + [c], taken, k) == Chosen(head, was, k)
  {
    assert (head + [c])[..k] == head[..k];
    ChosenSame(head, head + [c], was, taken, k);
  }

  lemma {:induction false} FitsIff(c: Chunk, own: seq<Chunk>, before: seq<Chunk>, limit: int, budget: int, cost: Cost)
    ensures Fits(c, own, before, limit, budget, cost) <==>
              !HasId(before + own, c.id)
              && CostOf(before + own, cost) + cost(c) <= budget && CostOf(own, cost) + cost(c) <= limit
  {
  }

  lemma {:induction false} NothingToTake(required: bool, limit: int, selected: seq<Chunk>, budget: int, cost: Cost)
    ensures Take([], required, limit, 0, selected, budget, cost) == Done(selected)
  {
  }

  lemma {:induction false} CostConcat(a: seq<Chunk>, b: seq<Chunk>, cost: Cost)
    ensures CostOf(a + b, cost) == CostOf(a, cost) + CostOf(b, cost)
  {
    if b == [] {
      assert a + b == a;
    } else {
      var n := |b| - 1;
      assert (a + b)[..|a + b| - 1] == a + b[..n];
      CostConcat(a, b[..n], cost);
    }
  }

  // ---------- Packing ----------

  predicate BudgetsValid(budget: int, reserve: int) { 0 < budget && 0 <= reserve <= budget }

  /** `_pack`. */
  function Packed(required: seq<Chunk>, companions: seq<Chunk>, ranked: seq<Chunk>, budget: int, reserve: int,
          cost: Cost): Outcome<seq<Chunk>> {
    if !BudgetsValid(budget, reserve) then Raised(InvalidResponse)
    else
      var first := Take(required, true, budget, 0, [], budget, cost);
      if first.Raised? then first
      else
        var second := Take(companions, false, Min(reserve, budget - CostOf(first.value, cost)), 0, first.value, budget, cost);
        if second.Raised? then second
        else Take(ranked, false, budget - CostOf(second.value, cost), 0, second.value, budget, cost)
  }

  method Pack(required: seq<Chunk>, companions: seq<Chunk>, ranked: seq<Chunk>, budget: int, reserve: int, cost: Cost)
    returns (r: Outcome<seq<Chunk>>)
    ensures r == Packed(required, companions, ranked, budget, reserve, cost)
  {
    hide Take, CostOf;
    if !BudgetsValid(budget, reserve) {
      return Raised(InvalidResponse);
    }
    var first := TakeLoop(required, true, budget, [], budget, cost);
    if first.Raised? {
      return first;
    }
    var second := TakeLoop(companions, false, Min(reserve, budget - CostOf(first.value, cost)), first.value, budget, cost);
    if second.Raised? {
      return second;
    }
    r := TakeLoop(ranked, false, budget - CostOf(second.value, cost), second.value, budget, cost);
  }

  lemma {:induction false} OptionalNeverRaises(items: seq<Chunk>, limit: int, spent: nat, selected: seq<Chunk>,
          budget: int, cost: Cost)
    ensures Take(items, false, limit, spent, selected, budget, cost).Done?
    decreases |items|
  {
    if items != [] {
      var c, rest := items[0], items[1..];
      OptionalNeverRaises(rest, limit, spent, selected, budget, cost);
      OptionalNeverRaises(rest, limit, spent + cost(c), selected + [c], budget, cost);
    }
  }

  /** The phases of a packing, for the lemmas about it. */
  lemma {:induction false} PackPhases(required: seq<Chunk>, companions: seq<Chunk>, ranked: seq<Chunk>, budget: int,
          reserve: int, cost: Cost)
    returns (first: seq<Chunk>, second: seq<Chunk>)
    requires Packed(required, companions, ranked, budget, reserve, cost).Done?
    ensures BudgetsValid(budget, reserve)
    ensures Take(required, true, budget, 0, [], budget, cost) == Done(first)
    ensures Take(companions, false, Min(reserve, budget - CostOf(first, cost)), 0, first, budget, cost) == Done(second)
    ensures Take(ranked, false, budget - CostOf(second, cost), 0, second, budget, cost)
            == Packed(required, companions, ranked, budget, reserve, cost)
    ensures DistinctIds(first) && CostOf(first, cost) <= budget && DistinctIds(second) && CostOf(second, cost) <= budget
    ensures var r := Packed(required, companions, ranked, budget, reserve, cost).value;
            first <= second <= r && DistinctIds(r) && CostOf(r, cost) <= budget
  {
    hide Take, DistinctIds, CostOf;
    first := Take(required, true, budget, 0, [], budget, cost).value;
    second := Take(companions, false, Min(reserve, budget - CostOf(first, cost)), 0, first, budget, cost).value;
    NothingTaken(cost);
    TakeKeeps(required, true, budget, 0, [], budget, cost);
    TakeKeeps(companions, false, Min(reserve, budget - CostOf(first, cost)), 0, first, budget, cost);
    TakeKeeps(ranked, false, budget - CostOf(second, cost), 0, second, budget, cost);
  }

  lemma {:induction false} NothingTaken(cost: Cost)
    ensures DistinctIds([]) && CostOf([], cost) == 0
  {
  }

  /** A packing holds each id once, stays within the budget, holds every required chunk, spends at most the reserve
      on companions, and leaves out no ranked chunk that would still fit. */
  lemma {:induction false} PackSound(required: seq<Chunk>, companions: seq<Chunk>, ranked: seq<Chunk>, budget: int,
          reserve: int, cost: Cost)
    requires Packed(required, companions, ranked, budget, reserve, cost).Done?
    ensures var r := Packed(required, companions, ranked, budget, reserve, cost).value;
            && DistinctIds(r) && CostOf(r, cost) <= budget
            && (forall k :: 0 <= k < |required| ==> HasId(r, required[k].id))
            && (forall k :: 0 <= k < |ranked| ==> HasId(r, ranked[k].id) || CostOf(r, cost) + cost(ranked[k]) > budget)
  {
    hide Take, Packed, DistinctIds, CostOf, HasId;
    var first, second := PackPhases(required, companions, ranked, budget, reserve, cost);
    var r := Packed(required, companions, ranked, budget, reserve, cost).value;
    NothingTaken(cost);
    forall k | 0 <= k < |required| ensures HasId(r, required[k].id) {
      TakeExhausts(required, true, budget, 0, [], budget, cost, k);
      TakeGrows(first, r, cost);
    }
    forall k | 0 <= k < |ranked| ensures HasId(r, ranked[k].id) || CostOf(r, cost) + cost(ranked[k]) > budget {
      TakeExhausts(ranked, false, budget - CostOf(second, cost), 0, second, budget, cost, k);
    }
  }

  lemma {:induction false} SlackFits(c: Chunk, own: seq<Chunk>, before: seq<Chunk>, limit: int, budget: int, cost: Cost)
    ensures Fits(c, own, before, Min(limit, budget - CostOf(before, cost)), budget, cost) <==>
              Fits(c, own, before, limit, budget, cost)
  {
    CostConcat(before, own, cost);
    hide CostOf, HasId;
  }

  lemma {:induction false} SlackGreedy(items: seq<Chunk>, taken: set<nat>, before: seq<Chunk>, limit: int, budget: int,
          cost: Cost)
    ensures Greedy(items, taken, before, Min(limit, budget - CostOf(before, cost)), budget, cost) <==>
              Greedy(items, taken, before, limit, budget, cost)
  {
    hide Fits, Chosen, CostOf;
    forall k: nat | k < |items|
      ensures Fits(items[k], Chosen(items, taken, k), before, Min(limit, budget - CostOf(before, cost)), budget, cost) <==>
                Fits(items[k], Chosen(items, taken, k), before, limit, budget, cost)
    {
      SlackFits(items[k], Chosen(items, taken, k), before, limit, budget, cost);
    }
  }

  /** A required phase that does not raise takes every chunk, each id once. */
  lemma {:induction false} RequiredValue(required: seq<Chunk>, limit: int, budget: int, cost: Cost)
    requires Take(required, true, limit, 0, [], budget, cost).Done?
    ensures Take(required, true, limit, 0, [], budget, cost).value == UniqueById(required)
  {
    hide CostOf, HasId;
    if required != [] {
      var n := |required| - 1;
      assert required == required[..n] + [required[n]];
      TakeSnoc(required[..n], required[n], true, limit, 0, [], budget, cost);
      RequiredValue(required[..n], limit, budget, cost);
    }
  }

  /** A packing is every required chunk, each id once, then the greedy selection of the companions within the reserve,
      then the greedy selection of the ranked hits within what is left; the budget binds all three. */
  lemma {:induction false} PackedExactly(required: seq<Chunk>, companions: seq<Chunk>, ranked: seq<Chunk>, budget: int,
          reserve: int, cost: Cost)
    returns (a: set<nat>, b: set<nat>)
    requires Packed(required, companions, ranked, budget, reserve, cost).Done?
    ensures var first := UniqueById(required);
            var second := first + Chosen(companions, a, |companions|);
            && Packed(required, companions, ranked, budget, reserve, cost).value == second + Chosen(ranked, b, |ranked|)
            && Greedy(companions, a, first, reserve, budget, cost)
            && Greedy(ranked, b, second, budget, budget, cost)
  {
    hide Take, Packed, Greedy, Chosen, CostOf, UniqueById;
    var first, second := PackPhases(required, companions, ranked, budget, reserve, cost);
    RequiredValue(required, budget, budget, cost);
    a := TakeGreedy(companions, false, Min(reserve, budget - CostOf(first, cost)), first, budget, cost);
    SlackGreedy(companions, a, first, reserve, budget, cost);
    b := TakeGreedy(ranked, false, budget - CostOf(second, cost), second, budget, cost);
    SlackGreedy(ranked, b, second, budget, budget, cost);
    LeastBudget(budget, CostOf(second, cost));
  }

  lemma {:induction false} LeastBudget(budget: int, spent: nat)
    ensures Min(budget, budget - spent) == budget - spent
  {
  }

  /** Companions never use more than the reserve. */
  lemma {:induction false} CompanionsWithinReserve(required: seq<Chunk>, companions: seq<Chunk>, ranked: seq<Chunk>,
          budget: int, reserve: int, cost: Cost)
    returns (first: seq<Chunk>, second: seq<Chunk>)
    requires Packed(required, companions, ranked, budget, reserve, cost).Done?
    ensures first <= second <= Packed(required, companions, ranked, budget, reserve, cost).value
    ensures CostOf(second, cost) - CostOf(first, cost) <= reserve
    ensures forall k :: |first| <= k < |second| ==> second[k] in companions
  {
    hide Take, Packed, DistinctIds, CostOf;
    first, second := PackPhases(required, companions, ranked, budget, reserve, cost);
    TakeKeeps(companions, false, Min(reserve, budget - CostOf(first, cost)), 0, first, budget, cost);
  }

  // ---------- Required chunks that fit ----------

  /** First occurrences by id (`_unique`). */
  function UniqueById(chunks: seq<Chunk>): seq<Chunk> {
    if chunks == [] then []
    else
      var head := UniqueById(chunks[..|chunks| - 1]);
      if HasId(head, chunks[|chunks| - 1].id) then head else head + [chunks[|chunks| - 1]]
  }

  lemma {:induction false} UniqueIds(s: seq<Chunk>)
    ensures DistinctIds(UniqueById(s))
    ensures forall id :: HasId(UniqueById(s), id) <==> HasId(s, id)
  {
    if s != [] {
      hide HasId, DistinctIds;
      var n := |s| - 1;
      UniqueIds(s[..n]);
      assert s == s[..n] + [s[n]];
      IdsSnoc(s[..n], s[n]);
      IdsSnoc(UniqueById(s[..n]), s[n]);
    }
  }

  /** Distinct chunks that fit together are all taken, in order. */
  lemma {:induction false} TakesAll(items: seq<Chunk>, limit: int, spent: nat, selected: seq<Chunk>, budget: int,
          cost: Cost)
    requires DistinctIds(selected + items) && CostOf(selected + items, cost) <= budget
    requires CostOf(selected + items, cost) - CostOf(selected, cost) + spent <= limit
    ensures Take(items, true, limit, spent, selected, budget, cost) == Done(selected + items)
    decreases |items|
  {
    hide CostOf;
    if items == [] {
      assert selected + items == selected;
    } else {
      var c, rest := items[0], items[1..];
      assert selected + items == (selected + [c]) + rest;
      CostSnoc(selected, c, cost);
      TakeGrows(selected + [c], selected + items, cost);
      assert (selected + items)[|selected|] == c;
      assert forall k :: 0 <= k < |selected| ==> (selected + items)[k] == selected[k];
      assert !HasId(selected, c.id);
      TakesAll(rest, limit, spent + cost(c), selected + [c], budget, cost);
    }
  }

  // ---------- Research context ----------

  function About(technology: Technology): Chunk -> bool { (c: Chunk) => c.technology == Some(technology) }

  function WithoutIdsOf(other: seq<Chunk>): Chunk -> bool { (c: Chunk) => !HasId(other, c.id) }

  function Keeping(removed: set<string>): Chunk -> bool { (c: Chunk) => c.id !in removed }

  function FirstThree(chunks: seq<Chunk>): (r: seq<Chunk>)
    ensures |r| <= 3
  {
    if |chunks| <= 3 then chunks else chunks[..3]
  }

  lemma {:induction false} PickSnoc(chunks: seq<Chunk>, p: Chunk -> bool)
    requires chunks != []
    ensures var n := |chunks| - 1;
            Pick(chunks, p) == if p(chunks[n]) then Pick(chunks[..n], p) + [chunks[n]] else Pick(chunks[..n], p)
  {
    assert Pick(chunks[..|chunks| - 1], p) + [] == Pick(chunks[..|chunks| - 1], p);
  }

  lemma {:induction false} PickOf(chunks: seq<Chunk>, c: Chunk, p: Chunk -> bool)
    ensures Pick(chunks + [c], p) == if p(c) then Pick(chunks, p) + [c] else Pick(chunks, p)
  {
    assert (chunks + [c])[..|chunks|] == chunks;
    PickSnoc(chunks + [c], p);
  }

  lemma {:induction false} DistinctPrefix(chunks: seq<Chunk>)
    requires chunks != [] && DistinctIds(chunks)
    ensures var n := |chunks| - 1; DistinctIds(chunks[..n]) && forall c :: c in chunks[..n] ==> c.id != chunks[n].id
  {
  }

  lemma {:induction false} PickSmaller(chunks: seq<Chunk>, p: Chunk -> bool, cost: Cost)
    ensures CostOf(Pick(chunks, p), cost) <= CostOf(chunks, cost) && forall c :: c in Pick(chunks, p) ==> c in chunks
    ensures DistinctIds(chunks) ==> DistinctIds(Pick(chunks, p))
  {
    if chunks == [] {
      assert Pick(chunks, p) == [];
    } else {
      hide CostOf, DistinctIds, Pick;
      var n := |chunks| - 1;
      var head := Pick(chunks[..n], p);
      PickSnoc(chunks, p);
      PickSmaller(chunks[..n], p, cost);
      assert chunks == chunks[..n] + [chunks[n]];
      CostSnoc(chunks[..n], chunks[n], cost);
      CostSnoc(head, chunks[n], cost);
      if DistinctIds(chunks) {
        DistinctPrefix(chunks);
        forall k | 0 <= k < |head| ensures head[k].id != chunks[n].id {
          assert head[k] in head;
        }
        IdsSnoc(head, chunks[n]);
      }
    }
  }

  /** Removing one more chunk. */
  lemma {:induction false} KeepingFewer(chunks: seq<Chunk>, removed: set<string>, id: string)
    ensures Pick(Pick(chunks, Keeping(removed)), Keeping({id})) == Pick(chunks, Keeping(removed + {id}))
  {
    if chunks != [] {
      var n := |chunks| - 1;
      KeepingFewer(chunks[..n], removed, id);
      PickSnoc(chunks, Keeping(removed));
      PickSnoc(chunks, Keeping(removed + {id}));
      hide Pick;
      PickOf(Pick(chunks[..n], Keeping(removed)), chunks[n], Keeping({id}));
    }
  }

  lemma {:induction false} KeepingAll(chunks: seq<Chunk>)
    ensures Pick(chunks, Keeping({})) == chunks
  {
    if chunks != [] {
      var n := |chunks| - 1;
      KeepingAll(chunks[..n]);
      assert chunks == chunks[..n] + [chunks[n]];
    }
  }

  /** What the corpus offers around some chunks: any lists of its chunks. */
  datatype Corpus = Corpus(chunks: seq<Chunk>, adjacent: seq<Chunk> -> seq<Chunk>, companions: seq<Chunk> -> seq<Chunk>)

  datatype Budgets = Budgets(evidence: int, reserve: int, assessment: int)

  predicate Listed(chunks: seq<Chunk>, ids: set<string>) { forall id :: id in ids ==> HasId(chunks, id) }

  /** The first three companions that the baseline does not hold yet, and their cost together. */
  function News(companions: seq<Chunk>, baseline: seq<Chunk>): seq<Chunk> {
    FirstThree(Pick(companions, WithoutIdsOf(baseline)))
  }

  /** Which chunks of the baseline give way: only while the news do not fit beside it, only chunks that are no ranked
      hits, from the end, and at most three. */
  ghost predicate GiveWay(baseline: seq<Chunk>, seeds: seq<Chunk>, removed: set<string>, needed: int, budget: int,
          cost: Cost)
  {
    var kept := CostOf(Pick(baseline, Keeping(removed)), cost);
    && |removed| <= 3 && (forall id :: id in removed ==> HasId(baseline, id) && !HasId(seeds, id))
    && (forall j, k :: 0 <= j < k < |baseline| && baseline[j].id in removed ==>
          baseline[k].id in removed || HasId(seeds, baseline[k].id))
    && (removed != {} ==> exists k :: LastOut(baseline, removed, k, needed, budget, cost))
    && (kept + needed <= budget || |removed| == 3
        || forall k :: 0 <= k < |baseline| ==> baseline[k].id in removed || HasId(seeds, baseline[k].id))
  }

  /** The chunk that gave way last is the foremost, and without it gone the news would not fit. */
  ghost predicate LastOut(baseline: seq<Chunk>, removed: set<string>, k: int, needed: int, budget: int, cost: Cost) {
    && 0 <= k < |baseline| && baseline[k].id in removed
    && (forall j :: 0 <= j < k ==> baseline[j].id !in removed)
    && CostOf(Pick(baseline, Keeping(removed - {baseline[k].id})), cost) + needed > budget
  }

  /** Where the loop stands before position `k`. */
  ghost predicate GivenWay(baseline: seq<Chunk>, seeds: seq<Chunk>, removed: set<string>, k: nat, needed: int,
          budget: int, cost: Cost)
  {
    && k <= |baseline| && |removed| <= 3 && (forall id :: id in removed ==> HasId(baseline, id) && !HasId(seeds, id))
    && (forall j :: 0 <= j < k ==> baseline[j].id !in removed)
    && (forall j :: k <= j < |baseline| ==> baseline[j].id in removed || HasId(seeds, baseline[j].id) || |removed| == 3)
    && (forall i, j :: 0 <= i < j < |baseline| && baseline[i].id in removed ==>
          baseline[j].id in removed || HasId(seeds, baseline[j].id))
    && (removed != {} ==> exists i :: LastOut(baseline, removed, i, needed, budget, cost))
  }

  lemma {:induction false} GivesWay(baseline: seq<Chunk>, seeds: seq<Chunk>, removed: set<string>, k: nat, needed: int,
          budget: int, cost: Cost)
    requires DistinctIds(baseline) && k < |baseline| && GivenWay(baseline, seeds, removed, k + 1, needed, budget, cost)
    requires CostOf(Pick(baseline, Keeping(removed)), cost) + needed > budget
    ensures var c := baseline[k];
            if !HasId(seeds, c.id) && |removed| < 3
            then GivenWay(baseline, seeds, removed + {c.id}, k, needed, budget, cost)
            else GivenWay(baseline, seeds, removed, k, needed, budget, cost)
  {
    hide CostOf, Pick, HasId;
    var c := baseline[k];
    IdThere(baseline, k);
    if !HasId(seeds, c.id) && |removed| < 3 {
      var now := removed + {c.id};
      assert now - {c.id} == removed;
      assert LastOut(baseline, now, k, needed, budget, cost);
    }
  }

  lemma {:induction false} GaveWay(baseline: seq<Chunk>, seeds: seq<Chunk>, removed: set<string>, k: nat, needed: int,
          budget: int, cost: Cost)
    requires GivenWay(baseline, seeds, removed, k, needed, budget, cost)
    requires k == 0 || CostOf(Pick(baseline, Keeping(removed)), cost) + needed <= budget
    ensures GiveWay(baseline, seeds, removed, needed, budget, cost)
  {
    hide CostOf, Pick, LastOut, HasId;
  }

  lemma {:induction false} NothingGivenWay(baseline: seq<Chunk>, seeds: seq<Chunk>, needed: int, budget: int,
          cost: Cost)
    ensures GivenWay(baseline, seeds, {}, |baseline|, needed, budget, cost)
  {
  }

  lemma {:induction false} UniqueFrom(s: seq<Chunk>, c: Chunk)
    ensures c in UniqueById(s) ==> c in s
  {
    if s != [] {
      UniqueFrom(s[..|s| - 1], c);
      assert s == s[..|s| - 1] + [s[|s| - 1]];
    }
  }

  /** The seeds are ranked chunks about the technology, and every id of such a chunk occurs among them once. */
  lemma {:induction false} SeedsAre(ranked: seq<Chunk>, technology: Technology, c: Chunk)
    ensures var seeds := UniqueById(Pick(ranked, About(technology)));
            && DistinctIds(seeds)
            && (c in seeds ==> c in ranked && c.technology == Some(technology))
            && (c in ranked && c.technology == Some(technology) ==> HasId(seeds, c.id))
  {
    hide UniqueById, Pick, DistinctIds;
    PickMember(ranked, About(technology), c);
    UniqueFrom(Pick(ranked, About(technology)), c);
    UniqueIds(Pick(ranked, About(technology)));
  }

  /** `build_research_context`: it raises only for invalid budgets. The result is the baseline in its order, less the
      chunks that give way to the first three new companions, and then the greedy selection of the companions
      within the whole budget: none is left out that would still fit. */
  method BuildResearchContext(corpus: Corpus, ranked: seq<Chunk>, technology: Technology, budgets: Budgets, cost: Cost)
    returns (r: Outcome<seq<Chunk>>, ghost removed: set<string>, ghost taken: set<nat>)
    ensures r.Done? <==> BudgetsValid(budgets.evidence, budgets.reserve)
    ensures r.Done? ==>
              var seeds := UniqueById(Pick(ranked, About(technology)));
              var baseline := Packed([], corpus.adjacent(seeds), seeds, budgets.evidence, budgets.reserve, cost);
              && baseline.Done? && DistinctIds(r.value) && CostOf(r.value, cost) <= budgets.evidence
              && var companions := corpus.companions(UniqueById(seeds + baseline.value));
                 var kept := Pick(baseline.value, Keeping(removed));
                 && GiveWay(baseline.value, seeds, removed, CostOf(News(companions, baseline.value), cost), budgets.evidence, cost)
                 && Greedy(companions, taken, kept, budgets.evidence, budgets.evidence, cost)
                 && r.value == kept + Chosen(companions, taken, |companions|)
                 && forall k :: 0 <= k < |companions| ==>
                      HasId(r.value, companions[k].id) || CostOf(r.value, cost) + cost(companions[k]) > budgets.evidence
  {
    hide Packed, Take, DistinctIds, CostOf, HasId, UniqueById, Pick, Greedy, Chosen, GiveWay, GivenWay, News;
    removed, taken := {}, {};
    var seeds := UniqueById(Pick(ranked, About(technology)));
    var baseline := Pack([], corpus.adjacent(seeds), seeds, budgets.evidence, budgets.reserve, cost);
    BaselineDone(corpus.adjacent(seeds), seeds, budgets.evidence, budgets.reserve, cost);
    if baseline.Raised? {
      return baseline, removed, taken;
    }
    PackSound([], corpus.adjacent(seeds), seeds, budgets.evidence, budgets.reserve, cost);
    var companions := corpus.companions(UniqueById(seeds + baseline.value));
    var additions := FirstThree(Pick(companions, WithoutIdsOf(baseline.value)));
    assert additions == News(companions, baseline.value) by { NewsAre(companions, baseline.value); }
    var needed := CostOf(additions, cost);
    var retained := baseline.value;
    var count := 0;
    var k := |baseline.value|;
    KeepingAll(baseline.value);
    NothingGivenWay(baseline.value, seeds, needed, budgets.evidence, cost);
    while k > 0 && CostOf(retained, cost) + needed > budgets.evidence
      invariant 0 <= k <= |baseline.value| && retained == Pick(baseline.value, Keeping(removed))
      invariant |removed| == count
      invariant GivenWay(baseline.value, seeds, removed, k, needed, budgets.evidence, cost)
    {
      k := k - 1;
      var c := baseline.value[k];
      GivesWay(baseline.value, seeds, removed, k, needed, budgets.evidence, cost);
      NotYetOut(baseline.value, seeds, removed, k, needed, budgets.evidence, cost);
      if !HasId(seeds, c.id) && count < 3 {
        KeepingFewer(baseline.value, removed, c.id);
        retained := Pick(retained, Keeping({c.id}));
        removed := removed + {c.id};
        count := count + 1;
      }
    }
    GaveWay(baseline.value, seeds, removed, k, needed, budgets.evidence, cost);
    PickSmaller(baseline.value, Keeping(removed), cost);
    r := Pack(retained, companions, [], budgets.evidence, budgets.evidence, cost);
    taken := FinalPack(retained, companions, budgets.evidence, cost);
  }

  lemma {:induction false} NewsAre(companions: seq<Chunk>, baseline: seq<Chunk>)
    ensures News(companions, baseline) == FirstThree(Pick(companions, WithoutIdsOf(baseline)))
  {
  }

  lemma {:induction false} NotYetOut(baseline: seq<Chunk>, seeds: seq<Chunk>, removed: set<string>, k: nat, needed: int,
          budget: int, cost: Cost)
    requires k < |baseline| && GivenWay(baseline, seeds, removed, k + 1, needed, budget, cost)
    ensures baseline[k].id !in removed
  {
  }

  lemma {:induction false} IdThere(chunks: seq<Chunk>, k: nat)
    requires k < |chunks|
    ensures HasId(chunks, chunks[k].id)
  {
  }

  lemma {:induction false} BaselineDone(companions: seq<Chunk>, ranked: seq<Chunk>, budget: int, reserve: int,
          cost: Cost)
    ensures Packed([], companions, ranked, budget, reserve, cost).Done? <==> BudgetsValid(budget, reserve)
  {
    if BudgetsValid(budget, reserve) {
      assert Take([], true, budget, 0, [], budget, cost) == Done([]);
      var limit := Min(reserve, budget - CostOf([], cost));
      OptionalNeverRaises(companions, limit, 0, [], budget, cost);
      var second := Take(companions, false, limit, 0, [], budget, cost).value;
      OptionalNeverRaises(ranked, budget - CostOf(second, cost), 0, second, budget, cost);
    }
  }

  /** Chunks that were selected together before are all selected again, first and in order. */
  lemma {:induction false} FinalPack(retained: seq<Chunk>, companions: seq<Chunk>, budget: int, cost: Cost)
    returns (taken: set<nat>)
    requires 0 < budget && DistinctIds(retained) && CostOf(retained, cost) <= budget
    ensures var r := Packed(retained, companions, [], budget, budget, cost);
            && r.Done? && DistinctIds(r.value) && CostOf(r.value, cost) <= budget
            && Greedy(companions, taken, retained, budget, budget, cost)
            && r.value == retained + Chosen(companions, taken, |companions|)
            && forall k :: 0 <= k < |companions| ==>
                 HasId(r.value, companions[k].id) || CostOf(r.value, cost) + cost(companions[k]) > budget
  {
    hide CostOf, DistinctIds, Take, Greedy, HasId, UniqueById;
    NothingTaken(cost);
    assert [] + retained == retained;
    TakesAll(retained, budget, 0, [], budget, cost);
    var limit := Min(budget, budget - CostOf(retained, cost));
    OptionalNeverRaises(companions, limit, 0, retained, budget, cost);
    var second := Take(companions, false, limit, 0, retained, budget, cost).value;
    OptionalNeverRaises([], budget - CostOf(second, cost), 0, second, budget, cost);
    NothingToTake(false, budget - CostOf(second, cost), second, budget, cost);
    PackSound(retained, companions, [], budget, budget, cost);
    RequiredValue(retained, budget, budget, cost);
    var a, b := PackedExactly(retained, companions, [], budget, budget, cost);
    taken := a;
    forall k | 0 <= k < |companions|
      ensures HasId(second, companions[k].id) || CostOf(second, cost) + cost(companions[k]) > budget
    {
      TakeExhausts(companions, false, limit, 0, retained, budget, cost, k);
    }
  }

  // ---------- Assessment evidence ----------

  function AmongIds(ids: set<string>): Chunk -> bool { (c: Chunk) => c.id in ids }

  /** The required chunks, each id once, cost more than the budget. */
  predicate TooLarge(cited: seq<Chunk>, budget: int, cost: Cost) { CostOf(UniqueById(cited), cost) > budget }

  lemma {:induction false} PickIds(chunks: seq<Chunk>, ids: set<string>, id: string)
    ensures HasId(Pick(chunks, AmongIds(ids)), id) <==> id in ids && HasId(chunks, id)
  {
    if chunks != [] {
      var n := |chunks| - 1;
      PickIds(chunks[..n], ids, id);
      PickSnoc(chunks, AmongIds(ids));
      hide HasId, Pick;
      assert chunks == chunks[..n] + [chunks[n]];
      IdsSnoc(chunks[..n], chunks[n]);
      IdsSnoc(Pick(chunks[..n], AmongIds(ids)), chunks[n]);
    }
  }

  /** Required chunks are taken exactly when, each id once, they fit together. */
  lemma {:induction false} RequiredFit(items: seq<Chunk>, done: seq<Chunk>, budget: int, cost: Cost)
    requires DistinctIds(UniqueById(done)) && CostOf(UniqueById(done), cost) <= budget
    ensures Take(items, true, budget, CostOf(UniqueById(done), cost), UniqueById(done), budget, cost).Done?
            <==> CostOf(UniqueById(done + items), cost) <= budget
    ensures CostOf(UniqueById(done), cost) <= CostOf(UniqueById(done + items), cost)
    decreases |items|
  {
    hide HasId, CostOf, DistinctIds;
    if items == [] {
      assert done + items == done;
    } else {
      var c, rest := items[0], items[1..];
      var head, next := UniqueById(done), UniqueById(done + [c]);
      assert done + items == (done + [c]) + rest;
      assert (done + [c])[..|done|] == done;
      CostSnoc(head, c, cost);
      IdsSnoc(head, c);
      if CostOf(next, cost) <= budget {
        RequiredFit(rest, done + [c], budget, cost);
      } else {
        UniqueCostGrows(done + [c], rest, cost);
      }
    }
  }

  lemma {:induction false} UniqueCostGrows(a: seq<Chunk>, b: seq<Chunk>, cost: Cost)
    ensures CostOf(UniqueById(a), cost) <= CostOf(UniqueById(a + b), cost)
  {
    if b == [] {
      assert a + b == a;
    } else {
      hide CostOf, HasId;
      var n := |b| - 1;
      UniqueCostGrows(a, b[..n], cost);
      assert (a + b)[..|a + b| - 1] == a + b[..n];
      CostSnoc(UniqueById(a + b[..n]), b[n], cost);
    }
  }

  /** `assessment_evidence`: the cited chunks of the corpus and then the greedy selection of their companions within the
      reserve, or an error: the budgets are invalid, a cited chunk is not in the corpus, or the cited chunks do not
      fit together. */
  method AssessmentEvidence(corpus: Corpus, ids: set<string>, budgets: Budgets, cost: Cost)
    returns (r: Outcome<seq<Chunk>>, ghost taken: set<nat>)
    ensures r.Done? <==> Listed(corpus.chunks, ids) && BudgetsValid(budgets.assessment, budgets.reserve)
                         && !TooLarge(Pick(corpus.chunks, AmongIds(ids)), budgets.assessment, cost)
    ensures r.Done? ==> DistinctIds(r.value) && CostOf(r.value, cost) <= budgets.assessment && Listed(r.value, ids)
    ensures r.Done? ==>
              var cited := Pick(corpus.chunks, AmongIds(ids));
              var companions := corpus.companions(cited);
              && r.value == UniqueById(cited) + Chosen(companions, taken, |companions|)
              && Greedy(companions, taken, UniqueById(cited), budgets.reserve, budgets.assessment, cost)
  {
    hide Packed, Take, DistinctIds, CostOf, HasId, UniqueById, Pick, Greedy, Chosen;
    taken := {};
    var cited := Pick(corpus.chunks, AmongIds(ids));
    forall id | id in ids ensures HasId(cited, id) <==> HasId(corpus.chunks, id) { PickIds(corpus.chunks, ids, id); }
    if !Listed(cited, ids) {
      return Raised(InvalidResponse), taken;
    }
    var companions := corpus.companions(cited);
    r := Pack(cited, companions, [], budgets.assessment, budgets.reserve, cost);
    PackDone(cited, companions, budgets.assessment, budgets.reserve, cost);
    if r.Done? {
      PackSound(cited, companions, [], budgets.assessment, budgets.reserve, cost);
      ghost var a, b := PackedExactly(cited, companions, [], budgets.assessment, budgets.reserve, cost);
      taken := a;
      assert Chosen([], b, 0) == [] by { NoneChosen(b); }
      forall id | id in ids ensures HasId(r.value, id) {
        SomeHasId(cited, id);
        var k :| 0 <= k < |cited| && cited[k].id == id;
      }
    }
  }

  lemma {:induction false} NoneChosen(taken: set<nat>)
    ensures Chosen([], taken, 0) == []
  {
  }

  lemma {:induction false} SomeHasId(chunks: seq<Chunk>, id: string)
    requires HasId(chunks, id)
    ensures exists k :: 0 <= k < |chunks| && chunks[k].id == id
  {
  }

  lemma {:induction false} PackDone(cited: seq<Chunk>, companions: seq<Chunk>, budget: int, reserve: int, cost: Cost)
    ensures Packed(cited, companions, [], budget, reserve, cost).Done? <==> BudgetsValid(budget, reserve) && !TooLarge(cited, budget, cost)
  {
    hide Take, DistinctIds, CostOf, HasId, UniqueById;
    if BudgetsValid(budget, reserve) {
      FirstDone(cited, budget, cost);
      var first := Take(cited, true, budget, 0, [], budget, cost);
      if first.Done? {
        var limit := Min(reserve, budget - CostOf(first.value, cost));
        OptionalNeverRaises(companions, limit, 0, first.value, budget, cost);
        var second := Take(companions, false, limit, 0, first.value, budget, cost).value;
        OptionalNeverRaises([], budget - CostOf(second, cost), 0, second, budget, cost);
      }
    }
  }

  lemma {:induction false} FirstDone(cited: seq<Chunk>, budget: int, cost: Cost)
    requires 0 < budget
    ensures Take(cited, true, budget, 0, [], budget, cost).Done? <==> !TooLarge(cited, budget, cost)
  {
    NothingTaken(cost);
    assert UniqueById([]) == [];
    hide Take, UniqueById, CostOf;
    assert [] + cited == cited;
    RequiredFit(cited, [], budget, cost);
  }

  // ---------- The sibling packers ----------

  /** `token_context`. */
  function TokenContext(ranked: seq<Chunk>, adjacent: seq<Chunk>, budget: int, reserve: int, cost: Cost): seq<Chunk> {
    var first := Take(adjacent, false, Min(reserve, budget), 0, [], budget, cost);
    if first.Raised? then []
    else
      var second := Take(ranked, false, budget - CostOf(first.value, cost), 0, first.value, budget, cost);
      if second.Raised? then [] else second.value
  }

  /** `legacy_context`: the ranked phase is bounded by the whole budget only. */
  function LegacyContext(ranked: seq<Chunk>, adjacent: seq<Chunk>, budget: int, reserve: int, cost: Cost): seq<Chunk> {
    var first := Take(adjacent, false, reserve, 0, [], budget, cost);
    if first.Raised? then []
    else
      var second := Take(ranked, false, budget, 0, first.value, budget, cost);
      if second.Raised? then [] else second.value
  }

  /** A limit that the budget already implies decides nothing. */
  lemma {:induction false} SlackLimit(items: seq<Chunk>, limit: int, other: int, spent: nat, selected: seq<Chunk>,
          budget: int, cost: Cost)
    requires limit - spent >= budget - CostOf(selected, cost) && other - spent >= budget - CostOf(selected, cost)
    ensures Take(items, false, limit, spent, selected, budget, cost) == Take(items, false, other, spent, selected, budget, cost)
    decreases |items|
  {
    if items != [] {
      hide CostOf, HasId;
      var c, rest := items[0], items[1..];
      CostSnoc(selected, c, cost);
      SlackLimit(rest, limit, other, spent, selected, budget, cost);
      SlackLimit(rest, limit, other, spent + cost(c), selected + [c], budget, cost);
    }
  }

  /** With valid budgets the three packers make the same selection. */
  lemma {:induction false} PackersAgree(ranked: seq<Chunk>, adjacent: seq<Chunk>, budget: int, reserve: int, cost: Cost)
    requires BudgetsValid(budget, reserve)
    ensures Packed([], adjacent, ranked, budget, reserve, cost) == Done(TokenContext(ranked, adjacent, budget, reserve, cost))
    ensures TokenContext(ranked, adjacent, budget, reserve, cost) == LegacyContext(ranked, adjacent, budget, reserve, cost)
  {
    BaselineDone(adjacent, ranked, budget, reserve, cost);
    NothingTaken(cost);
    assert Take([], true, budget, 0, [], budget, cost) == Done([]);
    hide Take, CostOf;
    OptionalNeverRaises(adjacent, reserve, 0, [], budget, cost);
    var first := Take(adjacent, false, reserve, 0, [], budget, cost).value;
    SlackLimit(ranked, budget, budget - CostOf(first, cost), 0, first, budget, cost);
    OptionalNeverRaises(ranked, budget, 0, first, budget, cost);
  }
}
