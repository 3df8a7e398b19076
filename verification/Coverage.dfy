/** Interval coverage of evidence spans and the common chunk partition (scripts/retrieval_experiments.py,
    scripts/evaluate_context.py, scripts/benchmark_embeddings.py). */
module Coverage {
  import opened Schema
  import opened Orders

  type Interval = (int, int)

  predicate Within(i: Interval, x: int) { i.0 <= x < i.1 }

  predicate Covers(ivs: seq<Interval>, x: int) { exists k :: 0 <= k < |ivs| && Within(ivs[k], x) }

  function Range(a: int, b: int): set<int> { set x | a <= x < b && Within((a, b), x) }

  /** The positions from `low` on that some interval holds. */
  function Positions(ivs: seq<Interval>, low: int): set<int> {
    if ivs == [] then {}
    else Positions(ivs[..|ivs| - 1], low) + Range(Max(ivs[|ivs| - 1].0, low), ivs[|ivs| - 1].1)
  }

  lemma {:induction false} RangeSize(a: int, b: int)
    ensures |Range(a, b)| == Max(0, b - a)
    decreases b - a
  {
    if a < b {
      RangeSize(a, b - 1);
      assert Range(a, b) == Range(a, b - 1) + {b - 1};
    } else {
      assert Range(a, b) == {};
    }
  }

  lemma {:induction false} PositionsExact(ivs: seq<Interval>, low: int, x: int)
    ensures x in Positions(ivs, low) <==> low <= x && Covers(ivs, x)
  {
    if ivs != [] {
      var n := |ivs| - 1;
      PositionsExact(ivs[..n], low, x);
      assert forall k :: 0 <= k < n ==> ivs[..n][k] == ivs[k];
      if Covers(ivs, x) && !Within(ivs[n], x) {
        var k :| 0 <= k < |ivs| && Within(ivs[k], x);
        assert Within(ivs[..n][k], x);
      }
      if Covers(ivs[..n], x) {
        var k :| 0 <= k < n && Within(ivs[..n][k], x);
        assert Within(ivs[k], x);
      }
    }
  }

  /** Positions depend only on which intervals there are, not on their order. */
  lemma {:induction false} SamePositions(a: seq<Interval>, b: seq<Interval>, low: int)
    requires forall i :: i in a <==> i in b
    ensures Positions(a, low) == Positions(b, low)
  {
    forall x ensures x in Positions(a, low) <==> x in Positions(b, low) {
      PositionsExact(a, low, x);
      PositionsExact(b, low, x);
      if Covers(a, x) {
        var k :| 0 <= k < |a| && Within(a[k], x);
        assert a[k] in b;
        var j :| 0 <= j < |b| && b[j] == a[k];
      }
      if Covers(b, x) {
        var k :| 0 <= k < |b| && Within(b[k], x);
        assert b[k] in a;
        var j :| 0 <= j < |a| && a[j] == b[k];
      }
    }
  }

  // ---------- Sorting ----------

  predicate NotAfter(a: Interval, b: Interval) { a.0 < b.0 || (a.0 == b.0 && a.1 <= b.1) }

  /** `sorted(intervals)`. */
  function InAscent(ivs: seq<Interval>): seq<Interval> { Sorted(ivs, NotAfter) }

  lemma {:induction false} InAscentKeeps(ivs: seq<Interval>)
    ensures InOrder(InAscent(ivs), NotAfter) && forall i :: i in InAscent(ivs) <==> i in ivs
  {
    hide Sorted;
    assert Preorder(NotAfter);
    SortedInOrder(ivs, NotAfter);
    forall i ensures i in InAscent(ivs) <==> i in ivs { SortedMembers(ivs, NotAfter, i); }
  }

  lemma {:induction false} InAscentPositions(ivs: seq<Interval>, low: int)
    ensures Positions(InAscent(ivs), low) == Positions(ivs, low)
  {
    hide InAscent, Positions;
    InAscentKeeps(ivs);
    SamePositions(InAscent(ivs), ivs, low);
  }

  // ---------- The sweep ----------

  /** Where the sweep stands after the first `k` intervals. */
  ghost predicate Swept(ivs: seq<Interval>, k: nat, low: int, total: int, stop: int) {
    && k <= |ivs| && total == |Positions(ivs[..k], low)| && low <= stop
    && (forall x :: x in Positions(ivs[..k], low) ==> x < stop)
    && (stop == low || exists j :: 0 <= j < k && ivs[j].1 == stop)
  }

  lemma {:induction false} PositionsSnoc(ivs: seq<Interval>, k: nat, low: int)
    requires k < |ivs|
    ensures Positions(ivs[..k + 1], low) == Positions(ivs[..k], low) + Range(Max(ivs[k].0, low), ivs[k].1)
  {
    assert ivs[..k + 1][..k] == ivs[..k];
  }

  /** What the next interval adds is what lies beyond the sweep's end. */
  lemma {:induction false} SweepGains(ivs: seq<Interval>, k: nat, low: int, total: int, stop: int)
    requires InOrder(ivs, NotAfter) && k < |ivs| && Swept(ivs, k, low, total, stop)
    ensures var (a, b) := ivs[k];
            && Positions(ivs[..k + 1], low) == Positions(ivs[..k], low) + Range(Max(a, stop), b)
            && Positions(ivs[..k], low) !! Range(Max(a, stop), b)
  {
    hide Positions, InOrder;
    var (a, b) := ivs[k];
    PositionsSnoc(ivs, k, low);
    forall x | Max(a, low) <= x < b && x < stop ensures x in Positions(ivs[..k], low) {
      AlreadyCovered(ivs, k, low, stop, x);
    }
  }

  lemma {:induction false} SweepStep(ivs: seq<Interval>, k: nat, low: int, total: int, stop: int)
    requires InOrder(ivs, NotAfter) && k < |ivs| && Swept(ivs, k, low, total, stop)
    ensures var (a, b) := ivs[k]; Swept(ivs, k + 1, low, total + Max(0, b - Max(a, stop)), Max(stop, b))
  {
    hide Positions, InOrder;
    var (a, b) := ivs[k];
    SweepGains(ivs, k, low, total, stop);
    RangeSize(Max(a, stop), b);
    if stop != low {
      var j :| 0 <= j < k && ivs[j].1 == stop;
    }
  }

  /** A position between the start of the next interval and the sweep's end has been counted. */
  lemma {:induction false} AlreadyCovered(ivs: seq<Interval>, k: nat, low: int, stop: int, x: int)
    requires InOrder(ivs, NotAfter) && k < |ivs| && low <= x && ivs[k].0 <= x < stop
    requires stop == low || exists j :: 0 <= j < k && ivs[j].1 == stop
    ensures x in Positions(ivs[..k], low)
  {
    var j :| 0 <= j < k && ivs[j].1 == stop;
    assert NotAfter(ivs[j], ivs[k]);
    assert Within(ivs[..k][j], x);
    PositionsExact(ivs[..k], low, x);
  }

  lemma {:induction false} SweepStart(ivs: seq<Interval>, low: int)
    ensures Swept(ivs, 0, low, 0, low)
  {
  }

  lemma {:induction false} SweepEnd(ivs: seq<Interval>, low: int, total: int, stop: int)
    requires Swept(ivs, |ivs|, low, total, stop)
    ensures total == |Positions(ivs, low)|
  {
    assert ivs[..|ivs|] == ivs;
  }

  /** `covered_length`: the sweep starts below every position of a document and counts each covered
      position once, whatever the order of the intervals. */
  method CoveredLength(ivs: seq<Interval>) returns (total: int)
    ensures total == |Positions(ivs, -1)|
  {
    hide InOrder, Swept, Positions, InAscent;
    var sorted, stop := InAscent(ivs), -1;
    total := 0;
    InAscentKeeps(ivs);
    InAscentPositions(ivs, -1);
    SweepStart(sorted, -1);
    for k := 0 to |sorted|
      invariant Swept(sorted, k, -1, total, stop)
    {
      var (a, b) := sorted[k];
      SweepStep(sorted, k, -1, total, stop);
      total := total + Max(0, b - Max(a, stop));
      stop := Max(stop, b);
    }
    SweepEnd(sorted, -1, total, stop);
  }

  // ---------- Spans ----------

  datatype Span = Span(sourceId: string, page: int, start: int, end: int)

  predicate SamePage(e: Span, c: Span) { c.sourceId == e.sourceId && c.page == e.page }

  predicate Touches(e: Span, c: Span) { SamePage(e, c) && c.start < e.end && c.end > e.start }

  function Clipped(e: Span, chunks: seq<Span>): seq<Interval> {
    if chunks == [] then []
    else
      var c := chunks[|chunks| - 1];
      Clipped(e, chunks[..|chunks| - 1]) + (if Touches(e, c) then [(Max(e.start, c.start), Min(e.end, c.end))] else [])
  }

  predicate Holds(e: Span, chunks: seq<Span>, x: int) {
    exists k :: 0 <= k < |chunks| && chunks[k].sourceId == e.sourceId && chunks[k].page == e.page
                && chunks[k].start <= x < chunks[k].end
  }

  /** Every position of the span lies in a chunk of the same source and page. */
  predicate Recovered(e: Span, chunks: seq<Span>) { forall x :: e.start <= x < e.end ==> Holds(e, chunks, x) }

  lemma {:induction false} ClippedCovers(e: Span, chunks: seq<Span>, x: int)
    ensures Covers(Clipped(e, chunks), x) <==> e.start <= x < e.end && Holds(e, chunks, x)
  {
    if chunks != [] {
      var n := |chunks| - 1;
      ClippedCovers(e, chunks[..n], x);
      HoldsSnoc(e, chunks, x);
      var head := Clipped(e, chunks[..n]);
      if Touches(e, chunks[n]) {
        CoversSnoc(head, (Max(e.start, chunks[n].start), Min(e.end, chunks[n].end)), x);
      } else {
        assert Clipped(e, chunks) == head;
      }
    }
  }

  lemma {:induction false} CoversSnoc(ivs: seq<Interval>, i: Interval, x: int)
    ensures Covers(ivs + [i], x) <==> Covers(ivs, x) || Within(i, x)
  {
    var more := ivs + [i];
    assert more[|ivs|] == i && forall k :: 0 <= k < |ivs| ==> more[k] == ivs[k];
  }

  lemma {:induction false} HoldsSnoc(e: Span, chunks: seq<Span>, x: int)
    requires chunks != []
    ensures var n := |chunks| - 1;
            Holds(e, chunks, x) <==> Holds(e, chunks[..n], x) || (SamePage(e, chunks[n]) && chunks[n].start <= x < chunks[n].end)
  {
    var n := |chunks| - 1;
    assert forall k :: 0 <= k < n ==> chunks[..n][k] == chunks[k];
    if Holds(e, chunks[..n], x) {
      var k :| 0 <= k < n && chunks[..n][k].sourceId == e.sourceId && chunks[..n][k].page == e.page
        && chunks[..n][k].start <= x < chunks[..n][k].end;
      assert chunks[k].sourceId == e.sourceId;
    }
    if Holds(e, chunks, x) {
      var k :| 0 <= k < |chunks| && chunks[k].sourceId == e.sourceId && chunks[k].page == e.page
        && chunks[k].start <= x < chunks[k].end;
      if k < n { assert chunks[..n][k].sourceId == e.sourceId; }
    }
  }

  /** The clipped intervals fill the span exactly when the span is recovered. */
  lemma {:induction false} FilledExactly(e: Span, chunks: seq<Span>, low: int)
    requires low <= e.start <= e.end
    ensures |Positions(Clipped(e, chunks), low)| <= e.end - e.start
    ensures |Positions(Clipped(e, chunks), low)| == e.end - e.start <==> Recovered(e, chunks)
  {
    hide Clipped, Holds, Positions;
    var covered, all := Positions(Clipped(e, chunks), low), Range(e.start, e.end);
    RangeSize(e.start, e.end);
    forall x ensures x in covered <==> x in all && Holds(e, chunks, x) {
      PositionsExact(Clipped(e, chunks), low, x);
      ClippedCovers(e, chunks, x);
    }
    SubsetSize(covered, all);
    if Recovered(e, chunks) {
      assert covered == all;
    }
  }

  lemma {:induction false} SubsetSize(a: set<int>, b: set<int>)
    requires a <= b
    ensures |a| <= |b| && (|a| == |b| ==> a == b)
  {
    var rest := b - a;
    assert b == a + rest && |b| == |a| + |rest|;
  }

  /** `span_recovered`. */
  method SpanRecovered(e: Span, chunks: seq<Span>) returns (ok: bool)
    requires -1 <= e.start <= e.end
    ensures ok <==> Recovered(e, chunks)
  {
    hide Recovered;
    var covered := CoveredLength(Clipped(e, chunks));
    FilledExactly(e, chunks, -1);
    ok := covered == e.end - e.start;
  }

  /** `recover`: a sweep of its own, from the start of the span. */
  method Recover(e: Span, chunks: seq<Span>) returns (ok: bool)
    requires e.start <= e.end
    ensures ok <==> Recovered(e, chunks)
  {
    hide Recovered, InOrder, Swept, Positions, InAscent, Clipped;
    var intervals := InAscent(Clipped(e, chunks));
    var covered, stop := 0, e.start;
    InAscentKeeps(Clipped(e, chunks));
    InAscentPositions(Clipped(e, chunks), e.start);
    SweepStart(intervals, e.start);
    for k := 0 to |intervals|
      invariant Swept(intervals, k, e.start, covered, stop)
    {
      var (a, b) := intervals[k];
      SweepStep(intervals, k, e.start, covered, stop);
      covered, stop := covered + Max(0, b - Max(a, stop)), Max(stop, b);
    }
    SweepEnd(intervals, e.start, covered, stop);
    FilledExactly(e, chunks, e.start);
    ok := covered == e.end - e.start;
  }

  /** The positions of the span that lie in a chunk of its source and page. */
  function Held(e: Span, chunks: seq<Span>): set<int> {
    set x | e.start <= x < e.end && Within((e.start, e.end), x) && Holds(e, chunks, x)
  }

  lemma {:induction false} HeldPositions(e: Span, chunks: seq<Span>)
    ensures Positions(Clipped(e, chunks), e.start) == Held(e, chunks)
  {
    hide Clipped, Holds, Positions;
    forall x ensures x in Positions(Clipped(e, chunks), e.start) <==> x in Held(e, chunks) {
      PositionsExact(Clipped(e, chunks), e.start, x);
      ClippedCovers(e, chunks, x);
    }
  }

  /** `span_coverage`: the share of a nonempty span's positions that are held by a chunk, one exactly when
      the span is recovered. */
  method SpanCoverage(e: Span, chunks: seq<Span>) returns (share: real)
    requires e.start < e.end
    ensures share == |Held(e, chunks)| as real / (e.end - e.start) as real
    ensures 0.0 <= share <= 1.0
    ensures share == 1.0 <==> Recovered(e, chunks)
  {
    hide Recovered, InOrder, Swept, Positions, InAscent, Clipped, Held;
    var intervals := InAscent(Clipped(e, chunks));
    var covered, stop := 0, e.start;
    InAscentKeeps(Clipped(e, chunks));
    InAscentPositions(Clipped(e, chunks), e.start);
    SweepStart(intervals, e.start);
    for k := 0 to |intervals|
      invariant Swept(intervals, k, e.start, covered, stop)
    {
      var (a, b) := intervals[k];
      SweepStep(intervals, k, e.start, covered, stop);
      covered, stop := covered + Max(0, b - Max(a, stop)), Max(stop, b);
    }
    SweepEnd(intervals, e.start, covered, stop);
    FilledExactly(e, chunks, e.start);
    HeldPositions(e, chunks);
    ShareBounds(covered as real, (e.end - e.start) as real);
    share := covered as real / (e.end - e.start) as real;
  }

  lemma {:induction false} ShareBounds(part: real, whole: real)
    requires 0.0 <= part <= whole && whole > 0.0
    ensures 0.0 <= part / whole <= 1.0 && (part / whole == 1.0 <==> part == whole)
  {
    assert part / whole * whole == part;
  }

  /** More chunks never lose a recovered span. */
  lemma {:induction false} MoreChunksRecover(e: Span, chunks: seq<Span>, more: seq<Span>)
    requires Recovered(e, chunks) && forall c :: c in chunks ==> c in more
    ensures Recovered(e, more)
  {
    forall x | e.start <= x < e.end ensures Holds(e, more, x) {
      assert Holds(e, chunks, x);
      var k :| 0 <= k < |chunks| && chunks[k].sourceId == e.sourceId && chunks[k].page == e.page
        && chunks[k].start <= x < chunks[k].end;
      assert chunks[k] in more;
      var j :| 0 <= j < |more| && more[j] == chunks[k];
    }
  }

  // ---------- Duplicates ----------

  type PageKey = (string, int)

  function KeyOf(c: Span): PageKey { (c.sourceId, c.page) }

  function KeysOf(chunks: seq<Span>): (ks: seq<PageKey>)
    ensures |ks| == |chunks|
  {
    seq(|chunks|, k requires 0 <= k < |chunks| => KeyOf(chunks[k]))
  }

  /** The intervals of one page, in order. */
  function OnPage(chunks: seq<Span>, key: PageKey): seq<Interval> {
    if chunks == [] then []
    else
      var c := chunks[|chunks| - 1];
      OnPage(chunks[..|chunks| - 1], key) + (if KeyOf(c) == key then [(c.start, c.end)] else [])
  }

  function Lengths(ivs: seq<Interval>): int {
    if ivs == [] then 0 else Lengths(ivs[..|ivs| - 1]) + (ivs[|ivs| - 1].1 - ivs[|ivs| - 1].0)
  }

  function TotalLength(chunks: seq<Span>): int {
    if chunks == [] then 0
    else TotalLength(chunks[..|chunks| - 1]) + (chunks[|chunks| - 1].end - chunks[|chunks| - 1].start)
  }

  function PageTotals(chunks: seq<Span>, keys: seq<PageKey>): int {
    if keys == [] then 0 else PageTotals(chunks, keys[..|keys| - 1]) + Lengths(OnPage(chunks, keys[|keys| - 1]))
  }

  function PageUnique(chunks: seq<Span>, keys: seq<PageKey>): int {
    if keys == [] then 0
    else PageUnique(chunks, keys[..|keys| - 1]) + |Positions(OnPage(chunks, keys[|keys| - 1]), -1)|
  }

  /** Chunks of a document: they start at or after its first character and do not end before they start. */
  predicate Proper(chunks: seq<Span>) { forall k :: 0 <= k < |chunks| ==> 0 <= chunks[k].start <= chunks[k].end }

  predicate ProperIntervals(ivs: seq<Interval>) { forall k :: 0 <= k < |ivs| ==> 0 <= ivs[k].0 <= ivs[k].1 }

  ghost predicate Apart(ivs: seq<Interval>) {
    forall i, j, x :: 0 <= i < j < |ivs| && Within(ivs[i], x) ==> !Within(ivs[j], x)
  }

  /** Every page's chunks are pairwise disjoint. */
  ghost predicate Disjoint(chunks: seq<Span>) {
    forall i, j, x :: 0 <= i < j < |chunks| && chunks[i].sourceId == chunks[j].sourceId && chunks[i].page == chunks[j].page
                      && Within((chunks[i].start, chunks[i].end), x) ==>
      !Within((chunks[j].start, chunks[j].end), x)
  }

  lemma {:induction false} ApartSnoc(ivs: seq<Interval>, i: Interval)
    ensures Apart(ivs + [i]) <==> Apart(ivs) && forall x :: Within(i, x) ==> !Covers(ivs, x)
  {
    var more := ivs + [i];
    assert more[|ivs|] == i && forall k :: 0 <= k < |ivs| ==> more[k] == ivs[k];
    if Apart(more) {
      forall x, k | Within(i, x) && 0 <= k < |ivs| ensures !Within(ivs[k], x) {
        assert more[k] == ivs[k] && Within(more[|ivs|], x);
      }
      forall j, k, x | 0 <= j < k < |ivs| && Within(ivs[j], x) ensures !Within(ivs[k], x) {
        assert Within(more[j], x);
        assert more[k] == ivs[k];
      }
    }
    if Apart(ivs) && forall x :: Within(i, x) ==> !Covers(ivs, x) {
      forall j, k, x | 0 <= j < k < |more| && Within(more[j], x) ensures !Within(more[k], x) {
        if k == |ivs| { assert Covers(ivs, x); } else { assert Within(ivs[j], x); }
      }
    }
  }

  /** A union is as large as the lengths together exactly when the intervals are pairwise disjoint. */
  lemma {:induction false} UnionSize(ivs: seq<Interval>)
    requires ProperIntervals(ivs)
    ensures 0 <= |Positions(ivs, -1)| <= Lengths(ivs)
    ensures |Positions(ivs, -1)| == Lengths(ivs) <==> Apart(ivs)
  {
    hide Apart;
    if ivs == [] {
      NothingApart();
    } else {
      var n := |ivs| - 1;
      UnionSize(ivs[..n]);
      assert ivs == ivs[..n] + [ivs[n]];
      ApartSnoc(ivs[..n], ivs[n]);
      var head, own := Positions(ivs[..n], -1), Range(ivs[n].0, ivs[n].1);
      RangeSize(ivs[n].0, ivs[n].1);
      assert |head + own| == |head| + |own| - |head * own|;
      forall x ensures x in head <==> -1 <= x && Covers(ivs[..n], x) { PositionsExact(ivs[..n], -1, x); }
      if forall x :: Within(ivs[n], x) ==> !Covers(ivs[..n], x) {
        assert head * own == {};
      } else {
        var x :| Within(ivs[n], x) && Covers(ivs[..n], x);
        assert x in head * own;
      }
    }
  }

  lemma {:induction false} NothingApart()
    ensures Apart([])
  {
  }

  lemma {:induction false} OnPageProper(chunks: seq<Span>, key: PageKey)
    requires Proper(chunks)
    ensures ProperIntervals(OnPage(chunks, key))
  {
    if chunks != [] {
      var n := |chunks| - 1;
      assert forall k :: 0 <= k < n ==> chunks[..n][k] == chunks[k];
      OnPageProper(chunks[..n], key);
    }
  }

  lemma {:induction false} PageTotalsSnoc(chunks: seq<Span>, c: Span, keys: seq<PageKey>)
    requires Distinct(keys)
    ensures PageTotals(chunks + [c], keys) == PageTotals(chunks, keys) + (if KeyOf(c) in keys then c.end - c.start else 0)
  {
    if keys != [] {
      var n := |keys| - 1;
      assert keys == keys[..n] + [keys[n]];
      PageTotalsSnoc(chunks, c, keys[..n]);
      OnPageSnoc(chunks, c, keys[n]);
    }
  }

  lemma {:induction false} OnPageSnoc(chunks: seq<Span>, c: Span, key: PageKey)
    ensures OnPage(chunks + [c], key) == OnPage(chunks, key) + (if KeyOf(c) == key then [(c.start, c.end)] else [])
    ensures Lengths(OnPage(chunks + [c], key)) == Lengths(OnPage(chunks, key)) + (if KeyOf(c) == key then c.end - c.start else 0)
  {
    assert (chunks + [c])[..|chunks|] == chunks;
    var ivs := OnPage(chunks, key);
    assert (ivs + [(c.start, c.end)])[..|ivs|] == ivs && ivs + [] == ivs;
  }

  lemma {:induction false} PageTotalsNone(keys: seq<PageKey>)
    ensures PageTotals([], keys) == 0 && PageUnique([], keys) == 0
  {
    if keys != [] { PageTotalsNone(keys[..|keys| - 1]); }
  }

  /** The pages' totals add up to the whole. */
  lemma {:induction false} PagesAddUp(chunks: seq<Span>, keys: seq<PageKey>)
    requires Distinct(keys) && forall k :: 0 <= k < |chunks| ==> KeyOf(chunks[k]) in keys
    ensures PageTotals(chunks, keys) == TotalLength(chunks)
  {
    if chunks == [] {
      PageTotalsNone(keys);
    } else {
      var n := |chunks| - 1;
      assert chunks == chunks[..n] + [chunks[n]];
      PagesAddUp(chunks[..n], keys);
      PageTotalsSnoc(chunks[..n], chunks[n], keys);
    }
  }

  ghost predicate PagesApart(chunks: seq<Span>, keys: seq<PageKey>) {
    forall k :: 0 <= k < |keys| ==> Apart(OnPage(chunks, keys[k]))
  }

  lemma {:induction false} UniqueAtMostTotal(chunks: seq<Span>, keys: seq<PageKey>)
    requires Proper(chunks)
    ensures 0 <= PageUnique(chunks, keys) <= PageTotals(chunks, keys)
    ensures PageUnique(chunks, keys) == PageTotals(chunks, keys) <==> PagesApart(chunks, keys)
  {
    hide Apart, OnPage, Positions, ProperIntervals, Lengths, PagesApart, Proper;
    if keys == [] {
      PagesNone(chunks);
    } else {
      var n := |keys| - 1;
      UniqueAtMostTotal(chunks, keys[..n]);
      OnPageProper(chunks, keys[n]);
      UnionSize(OnPage(chunks, keys[n]));
      assert keys == keys[..n] + [keys[n]];
      PagesApartSnoc(chunks, keys[..n], keys[n]);
    }
  }

  lemma {:induction false} PagesNone(chunks: seq<Span>)
    ensures PagesApart(chunks, [])
  {
  }

  lemma {:induction false} PagesApartSnoc(chunks: seq<Span>, keys: seq<PageKey>, key: PageKey)
    ensures PagesApart(chunks, keys + [key]) <==> PagesApart(chunks, keys) && Apart(OnPage(chunks, key))
  {
    hide Apart, OnPage;
    var more := keys + [key];
    assert more[|keys|] == key && forall k :: 0 <= k < |keys| ==> more[k] == keys[k];
  }

  lemma {:induction false} SomethingUnique(chunks: seq<Span>, keys: seq<PageKey>)
    requires Proper(chunks) && PageUnique(chunks, keys) == 0
    ensures PageTotals(chunks, keys) == 0
  {
    if keys != [] {
      hide OnPage, Positions;
      var n := |keys| - 1;
      UniqueAtMostTotal(chunks, keys[..n]);
      OnPageProper(chunks, keys[n]);
      UnionSize(OnPage(chunks, keys[n]));
      SomethingUnique(chunks, keys[..n]);
      NoPositions(OnPage(chunks, keys[n]));
    }
  }

  lemma {:induction false} NoPositions(ivs: seq<Interval>)
    requires ProperIntervals(ivs) && |Positions(ivs, -1)| == 0
    ensures Lengths(ivs) == 0
  {
    if ivs != [] {
      var n := |ivs| - 1;
      var own := Range(ivs[n].0, ivs[n].1);
      assert Positions(ivs, -1) == {};
      assert own <= Positions(ivs, -1);
      RangeSize(ivs[n].0, ivs[n].1);
      assert Positions(ivs[..n], -1) <= Positions(ivs, -1);
      NoPositions(ivs[..n]);
    }
  }

  ghost predicate OnPageAt(chunks: seq<Span>, key: PageKey, x: int) {
    exists k :: 0 <= k < |chunks| && KeyOf(chunks[k]) == key && Within((chunks[k].start, chunks[k].end), x)
  }

  lemma {:induction false} OnPageCovers(chunks: seq<Span>, key: PageKey, x: int)
    ensures Covers(OnPage(chunks, key), x) <==> OnPageAt(chunks, key, x)
  {
    if chunks != [] {
      var n := |chunks| - 1;
      OnPageCovers(chunks[..n], key, x);
      assert forall k :: 0 <= k < n ==> chunks[..n][k] == chunks[k];
      if KeyOf(chunks[n]) == key {
        CoversSnoc(OnPage(chunks[..n], key), (chunks[n].start, chunks[n].end), x);
      } else {
        assert OnPage(chunks, key) == OnPage(chunks[..n], key);
      }
      if OnPageAt(chunks[..n], key, x) {
        var k :| 0 <= k < n && KeyOf(chunks[..n][k]) == key && Within((chunks[..n][k].start, chunks[..n][k].end), x);
        assert KeyOf(chunks[k]) == key;
      }
      if OnPageAt(chunks, key, x) {
        var k :| 0 <= k < |chunks| && KeyOf(chunks[k]) == key && Within((chunks[k].start, chunks[k].end), x);
        if k < n { assert KeyOf(chunks[..n][k]) == key; }
      }
    }
  }

  lemma {:induction false} DisjointSnoc(chunks: seq<Span>, c: Span)
    ensures Disjoint(chunks + [c]) <==> Disjoint(chunks) && forall x :: Within((c.start, c.end), x) ==> !OnPageAt(chunks, KeyOf(c), x)
  {
    var more := chunks + [c];
    assert more[|chunks|] == c && forall k :: 0 <= k < |chunks| ==> more[k] == chunks[k];
    if Disjoint(more) {
      forall x, k | Within((c.start, c.end), x) && 0 <= k < |chunks| && KeyOf(chunks[k]) == KeyOf(c)
        ensures !Within((chunks[k].start, chunks[k].end), x)
      {
        assert KeyOf(more[k]) == KeyOf(more[|chunks|]) && Within((more[|chunks|].start, more[|chunks|].end), x);
      }
      forall i, j, x | 0 <= i < j < |chunks| && KeyOf(chunks[i]) == KeyOf(chunks[j]) && Within((chunks[i].start, chunks[i].end), x)
        ensures !Within((chunks[j].start, chunks[j].end), x)
      {
        assert KeyOf(more[i]) == KeyOf(more[j]) && Within((more[i].start, more[i].end), x);
      }
    }
    if Disjoint(chunks) && forall x :: Within((c.start, c.end), x) ==> !OnPageAt(chunks, KeyOf(c), x) {
      forall i, j, x | 0 <= i < j < |more| && KeyOf(more[i]) == KeyOf(more[j]) && Within((more[i].start, more[i].end), x)
        ensures !Within((more[j].start, more[j].end), x)
      {
        if j == |chunks| {
          assert OnPageAt(chunks, KeyOf(c), x);
        } else {
          assert KeyOf(chunks[i]) == KeyOf(chunks[j]) && Within((chunks[i].start, chunks[i].end), x);
        }
      }
    }
  }

  /** The chunks are disjoint page by page exactly when each page's intervals are. */
  lemma {:induction false} DisjointByPage(chunks: seq<Span>, keys: seq<PageKey>)
    requires forall k :: 0 <= k < |chunks| ==> KeyOf(chunks[k]) in keys
    ensures Disjoint(chunks) <==> PagesApart(chunks, keys)
  {
    hide Apart, Disjoint, OnPageAt, Covers;
    if chunks == [] {
      NothingDisjoint(keys);
    } else {
      var n := |chunks| - 1;
      var c := chunks[n];
      assert chunks == chunks[..n] + [c];
      assert forall k :: 0 <= k < n ==> chunks[..n][k] == chunks[k];
      DisjointByPage(chunks[..n], keys);
      DisjointSnoc(chunks[..n], c);
      forall x { OnPageCovers(chunks[..n], KeyOf(c), x); }
      forall k | 0 <= k < |keys|
        ensures Apart(OnPage(chunks, keys[k])) <==>
                  Apart(OnPage(chunks[..n], keys[k])) &&
                  (keys[k] == KeyOf(c) ==> forall x :: Within((c.start, c.end), x) ==> !Covers(OnPage(chunks[..n], keys[k]), x))
      {
        OnPageSnoc(chunks[..n], c, keys[k]);
        ApartSnoc(OnPage(chunks[..n], keys[k]), (c.start, c.end));
        assert OnPage(chunks[..n], keys[k]) + [] == OnPage(chunks[..n], keys[k]);
      }
      var m :| 0 <= m < |keys| && keys[m] == KeyOf(c);
      assert Apart(OnPage(chunks, keys[m])) ==> Apart(OnPage(chunks[..n], keys[m]));
    }
  }

  lemma {:induction false} NothingDisjoint(keys: seq<PageKey>)
    ensures Disjoint([]) && PagesApart([], keys)
  {
    NothingApart();
  }

  /** `duplicate_ratio`: a share below one, zero exactly for chunks that are disjoint page by page. */
  method DuplicateRatio(chunks: seq<Span>) returns (ratio: real)
    requires Proper(chunks)
    ensures 0.0 <= ratio < 1.0
    ensures ratio == 0.0 <==> Disjoint(chunks)
  {
    hide Disjoint, PagesApart, Unique, OnPage, Positions;
    var total := 0;
    for k := 0 to |chunks|
      invariant total == TotalLength(chunks[..k])
    {
      assert chunks[..k + 1][..k] == chunks[..k];
      total := total + (chunks[k].end - chunks[k].start);
    }
    assert chunks[..|chunks|] == chunks;
    var keys := Unique(KeysOf(chunks));
    var unique := 0;
    for k := 0 to |keys|
      invariant unique == PageUnique(chunks, keys[..k])
    {
      assert keys[..k + 1][..k] == keys[..k];
      var covered := CoveredLength(OnPage(chunks, keys[k]));
      unique := unique + covered;
    }
    assert keys[..|keys|] == keys;
    forall k | 0 <= k < |chunks| ensures KeyOf(chunks[k]) in keys {
      assert KeysOf(chunks)[k] == KeyOf(chunks[k]);
    }
    PagesAddUp(chunks, keys);
    UniqueAtMostTotal(chunks, keys);
    if unique == 0 { SomethingUnique(chunks, keys); }
    DisjointByPage(chunks, keys);
    if total == 0 {
      return 0.0;
    }
    ShareBounds(unique as real, total as real);
    PositiveShare(unique as real, total as real);
    ratio := 1.0 - unique as real / total as real;
  }

  lemma {:induction false} PositiveShare(part: real, whole: real)
    requires 0.0 < part && 0.0 < whole
    ensures part / whole > 0.0
  {
  }
}
