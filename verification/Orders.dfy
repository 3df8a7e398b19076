/** The order of texts, stable sorting by any order, and the smaller and larger of two numbers. */
module Orders {
  import opened Schema

  function Max(a: int, b: int): int { if a >= b then a else b }

  function Min(a: int, b: int): int { if a <= b then a else b }

  // ---------- Texts ----------

  /** The order of strings by character code: a beginning comes before its continuations. */
  predicate Before(a: string, b: string) {
    b != [] && (a == [] || a[0] < b[0] || (a[0] == b[0] && Before(a[1..], b[1..])))
  }

  predicate Alphabetical(a: string, b: string) { a == b || Before(a, b) }

  lemma {:induction false} BeforeTotal(a: string, b: string)
    ensures a != b ==> Before(a, b) || Before(b, a)
    ensures !(Before(a, b) && Before(b, a))
    decreases |a| + |b|
  {
    if a != [] && b != [] {
      assert a == [a[0]] + a[1..] && b == [b[0]] + b[1..];
      BeforeTotal(a[1..], b[1..]);
    }
  }

  lemma {:induction false} BeforeTransitive(a: string, b: string, c: string)
    requires Before(a, b) && Before(b, c)
    ensures Before(a, c)
  {
    if a != [] && a[0] == b[0] == c[0] { BeforeTransitive(a[1..], b[1..], c[1..]); }
  }

  lemma {:induction false} BeforePrefix(p: string, a: string, b: string)
    requires Before(a, b)
    ensures Before(p + a, p + b)
  {
    if p == [] {
      assert p + a == a && p + b == b;
    } else {
      BeforePrefix(p[1..], a, b);
      assert (p + a)[1..] == p[1..] + a && (p + b)[1..] == p[1..] + b;
    }
  }

  lemma {:induction false} AlphabeticalPreorder()
    ensures Preorder(Alphabetical)
  {
    hide Before;
    forall x, y ensures Alphabetical(x, y) || Alphabetical(y, x) { BeforeTotal(x, y); }
    forall x, y, z | Alphabetical(x, y) && Alphabetical(y, z) ensures Alphabetical(x, z) {
      if Before(x, y) && Before(y, z) { BeforeTransitive(x, y, z); }
    }
  }

  predicate Ascending(s: seq<string>) { forall i, j :: 0 <= i < j < |s| ==> Before(s[i], s[j]) }

  lemma {:induction false} AscendingDistinct(s: seq<string>)
    requires Ascending(s)
    ensures Distinct(s)
  {
    forall i, j | 0 <= i < j < |s| ensures s[i] != s[j] { BeforeTotal(s[i], s[i]); }
  }

  // ---------- Stable sorting ----------

  /** `x` goes after every element that is not above it. */
  function Insert<T>(s: seq<T>, x: T, below: (T, T) -> bool): seq<T> {
    if s == [] then [x]
    else
      var n := |s| - 1;
      if below(s[n], x) then s + [x] else Insert(s[..n], x, below) + [s[n]]
  }

  /** `sorted`. */
  function Sorted<T>(s: seq<T>, below: (T, T) -> bool): seq<T> {
    if s == [] then [] else Insert(Sorted(s[..|s| - 1], below), s[|s| - 1], below)
  }

  ghost predicate Preorder<T(!new)>(below: (T, T) -> bool) {
    && (forall x, y :: below(x, y) || below(y, x))
    && (forall x, y, z :: below(x, y) && below(y, z) ==> below(x, z))
  }

  predicate InOrder<T>(s: seq<T>, below: (T, T) -> bool) {
    forall i, j :: 0 <= i < j < |s| ==> below(s[i], s[j])
  }

  lemma {:induction false} InsertPermutes<T>(s: seq<T>, x: T, below: (T, T) -> bool)
    ensures multiset(Insert(s, x, below)) == multiset(s) + multiset{x}
  {
    if s != [] {
      var n := |s| - 1;
      assert s == s[..n] + [s[n]];
      InsertPermutes(s[..n], x, below);
    }
  }

  lemma {:induction false} SortedPermutes<T>(s: seq<T>, below: (T, T) -> bool)
    ensures multiset(Sorted(s, below)) == multiset(s)
  {
    if s != [] {
      hide Insert;
      var n := |s| - 1;
      assert s == s[..n] + [s[n]];
      SortedPermutes(s[..n], below);
      InsertPermutes(Sorted(s[..n], below), s[n], below);
    }
  }

  lemma {:induction false} SortedMembers<T>(s: seq<T>, below: (T, T) -> bool, x: T)
    ensures x in Sorted(s, below) <==> x in s
    ensures |Sorted(s, below)| == |s|
  {
    hide Sorted;
    SortedPermutes(s, below);
    var r := Sorted(s, below);
    assert |multiset(r)| == |multiset(s)|;
    assert x in multiset(r) <==> x in multiset(s);
  }

  predicate AllBelow<T(==)>(s: seq<T>, x: T, below: (T, T) -> bool) { forall y :: y in s ==> below(y, x) }

  lemma {:induction false} InOrderSnoc<T(!new)>(s: seq<T>, x: T, below: (T, T) -> bool)
    requires InOrder(s, below) && AllBelow(s, x, below)
    ensures InOrder(s + [x], below)
  {
    var r := s + [x];
    forall i, j | 0 <= i < j < |r| ensures below(r[i], r[j]) {
      if j == |s| { assert r[i] == s[i] && s[i] in s; } else { assert r[i] == s[i] && r[j] == s[j]; }
    }
  }

  lemma {:induction false} InOrderLast<T(!new)>(s: seq<T>, x: T, below: (T, T) -> bool)
    requires s != [] && Preorder(below) && InOrder(s, below)
    ensures InOrder(s[..|s| - 1], below)
    ensures AllBelow(s[..|s| - 1], s[|s| - 1], below)
    ensures below(s[|s| - 1], x) ==> AllBelow(s, x, below)
  {
    var n := |s| - 1;
    forall y | y in s[..n] ensures below(y, s[n]) {
      var i :| 0 <= i < n && s[..n][i] == y;
      assert below(s[i], s[n]);
    }
    assert s == s[..n] + [s[n]];
  }

  lemma {:induction false} InsertInOrder<T(!new)>(s: seq<T>, x: T, below: (T, T) -> bool)
    requires Preorder(below) && InOrder(s, below)
    ensures InOrder(Insert(s, x, below), below)
  {
    if s != [] {
      hide InOrder;
      var n := |s| - 1;
      InOrderLast(s, x, below);
      if below(s[n], x) {
        InOrderSnoc(s, x, below);
      } else {
        InsertInOrder(s[..n], x, below);
        InsertPermutes(s[..n], x, below);
        var head := Insert(s[..n], x, below);
        forall y | y in head ensures below(y, s[n]) {
          assert y in multiset(head);
          assert y == x || y in multiset(s[..n]);
        }
        InOrderSnoc(head, s[n], below);
      }
    }
  }

  lemma {:induction false} SortedInOrder<T(!new)>(s: seq<T>, below: (T, T) -> bool)
    requires Preorder(below)
    ensures InOrder(Sorted(s, below), below)
  {
    if s != [] {
      hide Insert, Preorder, InOrder;
      SortedInOrder(s[..|s| - 1], below);
      InsertInOrder(Sorted(s[..|s| - 1], below), s[|s| - 1], below);
    } else {
      assert InOrder(Sorted(s, below), below);
    }
  }

  /** `sorted` of a list without repetitions. */
  lemma {:induction false} SortedAscends(s: seq<string>)
    requires Distinct(s)
    ensures Ascending(Sorted(s, Alphabetical))
  {
    hide Before, Sorted, Preorder;
    AlphabeticalPreorder();
    SortedInOrder(s, Alphabetical);
    SortedDistinct(s, Alphabetical);
  }

  lemma {:induction false} SortedDistinct<T>(s: seq<T>, below: (T, T) -> bool)
    requires Distinct(s)
    ensures Distinct(Sorted(s, below))
  {
    hide Sorted;
    var r := Sorted(s, below);
    SortedPermutes(s, below);
    assert |r| == |multiset(r)| == |s|;
    forall x ensures x in ToSet(r) <==> x in ToSet(s) { SortedMembers(s, below, x); }
    assert ToSet(r) == ToSet(s);
    DistinctCard(s);
    CardAtMostLength(r);
  }

  lemma {:induction false} PickOfSnoc<T>(s: seq<T>, x: T, p: T -> bool)
    ensures Pick(s + [x], p) == Pick(s, p) + (if p(x) then [x] else [])
  {
    assert (s + [x])[..|s|] == s;
  }

  lemma {:induction false} InsertStable<T(!new)>(s: seq<T>, x: T, below: (T, T) -> bool, p: T -> bool)
    requires Preorder(below) && InOrder(s, below)
    requires forall y, z :: p(y) && p(z) ==> below(y, z)
    ensures Pick(Insert(s, x, below), p) == Pick(s + [x], p)
  {
    PickOfSnoc(s, x, p);
    if s != [] {
      hide Pick, Preorder, InOrder;
      var n := |s| - 1;
      assert s == s[..n] + [s[n]];
      if !below(s[n], x) {
        InOrderLast(s, x, below);
        InsertStable(s[..n], x, below, p);
        PickOfSnoc(s[..n], s[n], p);
        PickOfSnoc(s[..n], x, p);
        PickOfSnoc(Insert(s[..n], x, below), s[n], p);
      }
    }
  }

  /** Elements that the order does not tell apart keep their places among themselves. */
  lemma {:induction false} SortedStable<T(!new)>(s: seq<T>, below: (T, T) -> bool, p: T -> bool)
    requires Preorder(below)
    requires forall y, z :: p(y) && p(z) ==> below(y, z)
    ensures Pick(Sorted(s, below), p) == Pick(s, p)
  {
    if s != [] {
      hide Insert, Preorder, InOrder, Pick;
      var n := |s| - 1;
      SortedStable(s[..n], below, p);
      SortedInOrder(s[..n], below);
      InsertStable(Sorted(s[..n], below), s[n], below, p);
      PickOfSnoc(s[..n], s[n], p);
      PickOfSnoc(Sorted(s[..n], below), s[n], p);
      assert s == s[..n] + [s[n]];
    }
  }
}
