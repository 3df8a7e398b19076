/** Cutting a page at word boundaries into the largest pieces that fit every model
    (`common_chunks` in scripts/retrieval_experiments.py). */
module Chunking {
  import opened Schema
  import opened Texts

  /** Zero, the length, and every start of a word. */
  predicate Boundary(text: string, i: int) {
    i == 0 || i == |text| || (0 < i < |text| && !IsSpace(text[i]) && IsSpace(text[i - 1]))
  }

  predicate Ascending(bs: seq<int>) { forall i, j :: 0 <= i < j < |bs| ==> bs[i] < bs[j] }

  /** The boundaries of a text, in order: all of them, and nothing else. */
  ghost predicate AllBoundaries(text: string, bs: seq<int>) {
    && Ascending(bs) && bs != [] && bs[0] == 0 && bs[|bs| - 1] == |text|
    && forall i :: i in bs <==>
         i == 0 || i == |text| || (0 < i < |text| && !IsSpace(text[i]) && IsSpace(text[i - 1]))
  }

  method Boundaries(text: string) returns (bs: seq<int>)
    ensures AllBoundaries(text, bs)
  {
    bs := [0];
    for i := 1 to |text| + 1
      invariant Ascending(bs) && bs != [] && bs[0] == 0
      invariant forall b :: b in bs <==> 0 <= b < i && Boundary(text, b)
    {
      if Boundary(text, i) {
        forall k | 0 <= k < |bs| ensures bs[k] < i { assert bs[k] in bs; }
        bs := bs + [i];
      }
    }
    LastBoundary(text, bs);
  }

  lemma {:induction false} LastBoundary(text: string, bs: seq<int>)
    requires Ascending(bs) && bs != [] && |text| in bs && forall b :: b in bs ==> b <= |text|
    ensures bs[|bs| - 1] == |text|
  {
    var k :| 0 <= k < |bs| && bs[k] == |text|;
    assert bs[|bs| - 1] in bs;
  }

  /** A part of a piece that fits, fits. */
  ghost predicate Monotone(fits: (int, int) -> bool) {
    forall a, b, c, d :: a <= b <= c <= d && fits(a, d) ==> fits(b, c)
  }

  predicate WordFits(bs: seq<int>, fits: (int, int) -> bool, k: nat)
    requires k < |bs| - 1
  {
    fits(bs[k], bs[k + 1])
  }

  /** The pieces are consecutive from the given start to the given end. */
  predicate Tiles(pieces: seq<(int, int)>, from: int, to: int) {
    && (if pieces == [] then from == to else pieces[0].0 == from && pieces[|pieces| - 1].1 == to)
    && (forall k :: 0 <= k < |pieces| ==> pieces[k].0 < pieces[k].1)
    && forall k :: 0 <= k < |pieces| - 1 ==> pieces[k].1 == pieces[k + 1].0
  }

  function Bodies(text: string, pieces: seq<(int, int)>): string {
    if pieces == [] then ""
    else
      var (a, b) := pieces[|pieces| - 1];
      Bodies(text, pieces[..|pieces| - 1]) + (if 0 <= a <= b <= |text| then text[a..b] else "")
  }

  /** Consecutive pieces read one after the other are the text. */
  lemma {:induction false} TilesReadBack(text: string, pieces: seq<(int, int)>, to: int)
    requires Tiles(pieces, 0, to) && 0 <= to <= |text|
    ensures Bodies(text, pieces) == text[..to]
  {
    if pieces != [] {
      var n := |pieces| - 1;
      var (a, b) := pieces[n];
      TilesAscend(pieces, 0, to, n);
      assert Tiles(pieces[..n], 0, a);
      TilesReadBack(text, pieces[..n], a);
      assert text[..a] + text[a..b] == text[..b];
    }
  }

  lemma {:induction false} TilesAscend(pieces: seq<(int, int)>, from: int, to: int, k: nat)
    requires Tiles(pieces, from, to) && k < |pieces|
    ensures from <= pieces[k].0
  {
    if k > 0 { TilesAscend(pieces, from, to, k - 1); }
  }

  /** A piece between two boundaries that fits, and cannot be extended by another word. */
  ghost predicate Largest(bs: seq<int>, fits: (int, int) -> bool, piece: (int, int)) {
    exists i, j :: 0 <= i < j < |bs| && piece == (bs[i], bs[j]) && fits(bs[i], bs[j])
      && forall k :: j < k < |bs| ==> !fits(bs[i], bs[k])
  }

  /** The furthest boundary that fits, by halving; `start` itself when not even one word fits. */
  method Furthest(bs: seq<int>, start: nat, fits: (int, int) -> bool) returns (best: nat)
    requires start < |bs| - 1 && Ascending(bs)
    ensures start <= best < |bs| && (best > start ==> fits(bs[start], bs[best]))
    ensures Monotone(fits) ==> forall k :: best < k < |bs| ==> !fits(bs[start], bs[k])
  {
    var lo, hi := start + 1, |bs| - 1;
    best := start;
    while lo <= hi
      invariant start <= best < lo && hi < |bs| && lo <= hi + 1
      invariant best > start ==> fits(bs[start], bs[best])
      invariant best == lo - 1
      invariant Monotone(fits) ==> forall k :: hi < k < |bs| ==> !fits(bs[start], bs[k])
      decreases hi - lo
    {
      var mid := (lo + hi) / 2;
      if fits(bs[start], bs[mid]) {
        best, lo := mid, mid + 1;
      } else {
        TooLong(bs, start, mid, fits);
        hi := mid - 1;
      }
    }
  }

  lemma {:induction false} TooLong(bs: seq<int>, start: nat, mid: nat, fits: (int, int) -> bool)
    requires start < mid < |bs| && Ascending(bs) && !fits(bs[start], bs[mid])
    ensures Monotone(fits) ==> forall k :: mid < k < |bs| ==> !fits(bs[start], bs[k])
  {
  }

  /** `common_chunks` for one page: the pieces tile the page, each fits every model, and when fitting is monotone
      each is the largest possible; it fails exactly when a single word does not fit. */
  method CommonChunks(text: string, fits: (int, int) -> bool) returns (r: Outcome<seq<(int, int)>>, ghost bs: seq<int>)
    ensures AllBoundaries(text, bs)
    ensures r.Done? ==> Tiles(r.value, 0, |text|) && Bodies(text, r.value) == text
                        && forall k :: 0 <= k < |r.value| ==> fits(r.value[k].0, r.value[k].1)
    ensures r.Done? && Monotone(fits) ==> forall k :: 0 <= k < |r.value| ==> Largest(bs, fits, r.value[k])
    ensures Monotone(fits) ==> (r.Raised? <==> exists k :: 0 <= k < |bs| - 1 && !WordFits(bs, fits, k))
  {
    hide AllBoundaries, Monotone, Largest, Bodies, Tiles, WordFits, Boundary;
    var marks := Boundaries(text);
    BoundariesShape(text, marks);
    bs := marks;
    var pieces: seq<(int, int)> := [];
    var start: nat := 0;
    assert Tiles(pieces, 0, 0) by { NoTiles(); }
    while start < |marks| - 1
      invariant 0 <= start < |marks| && Tiles(pieces, 0, marks[start])
      invariant forall k :: 0 <= k < |pieces| ==> fits(pieces[k].0, pieces[k].1)
      invariant Monotone(fits) ==> forall k :: 0 <= k < |pieces| ==> Largest(marks, fits, pieces[k])
      invariant Monotone(fits) ==> forall k :: 0 <= k < start ==> WordFits(marks, fits, k)
      decreases |marks| - start
    {
      var best := Furthest(marks, start, fits);
      if best == start {
        NoWord(marks, start, fits);
        return Raised(InvalidResponse), bs;
      }
      TilesSnoc(pieces, marks[start], marks[best]);
      FurthestIsLargest(marks, start, best, fits);
      WordsFit(marks, start, best, fits);
      pieces := pieces + [(marks[start], marks[best])];
      start := best;
    }
    TilesReadBack(text, pieces, |text|);
    assert text[..|text|] == text;
    r := Done(pieces);
  }

  lemma {:induction false} BoundariesShape(text: string, bs: seq<int>)
    requires AllBoundaries(text, bs)
    ensures Ascending(bs) && bs != [] && bs[0] == 0 && bs[|bs| - 1] == |text|
  {
  }

  lemma {:induction false} NoTiles()
    ensures Tiles([], 0, 0)
  {
  }

  lemma {:induction false} NoWord(bs: seq<int>, start: nat, fits: (int, int) -> bool)
    requires start < |bs| - 1
    requires Monotone(fits) ==> forall k :: start < k < |bs| ==> !fits(bs[start], bs[k])
    ensures Monotone(fits) ==> !WordFits(bs, fits, start)
  {
    hide Monotone;
  }

  lemma {:induction false} FurthestIsLargest(bs: seq<int>, start: nat, best: nat, fits: (int, int) -> bool)
    requires start < best < |bs| && fits(bs[start], bs[best])
    requires Monotone(fits) ==> forall k :: best < k < |bs| ==> !fits(bs[start], bs[k])
    ensures Monotone(fits) ==> Largest(bs, fits, (bs[start], bs[best]))
  {
    hide Monotone;
  }

  lemma {:induction false} TilesSnoc(pieces: seq<(int, int)>, a: int, b: int)
    requires Tiles(pieces, 0, a) && a < b
    ensures Tiles(pieces + [(a, b)], 0, b)
  {
  }

  lemma {:induction false} WordsFit(bs: seq<int>, start: nat, best: nat, fits: (int, int) -> bool)
    requires start < best < |bs| && Ascending(bs) && fits(bs[start], bs[best])
    ensures Monotone(fits) ==> forall k :: start <= k < best ==> WordFits(bs, fits, k)
  {
    if Monotone(fits) {
      forall k | start <= k < best ensures WordFits(bs, fits, k) {
        assert bs[start] <= bs[k] <= bs[k + 1] <= bs[best];
      }
    }
  }
}
