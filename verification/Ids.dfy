/** Identifier strings: decimal numerals and the separator-joined names that the
    repository builds for claims, evidence, gaps, conflicts, requests and repair targets. */
module Ids {

  const DIGITS := "0123456789"

  predicate IsDigit(c: char) { c in DIGITS }

  /** The decimal numeral of `n`. */
  function Decimal(n: nat): (s: string)
    ensures s != []
    ensures forall k :: 0 <= k < |s| ==> IsDigit(s[k])
  {
    if n < 10 then [DIGITS[n]] else Decimal(n / 10) + [DIGITS[n % 10]]
  }

  lemma {:induction false} DecimalInjective(a: nat, b: nat)
    requires Decimal(a) == Decimal(b)
    ensures a == b
  {
    var s, t := Decimal(a), Decimal(b);
    assert s[|s| - 1] == DIGITS[a % 10] && t[|t| - 1] == DIGITS[b % 10];
    if a >= 10 && b >= 10 {
      assert s[..|s| - 1] == Decimal(a / 10) && t[..|t| - 1] == Decimal(b / 10);
      DecimalInjective(a / 10, b / 10);
    }
  }

  /** The last separator splits a name uniquely when the suffix holds none. */
  lemma {:induction false} SuffixSplit(x: string, y: string, sep: char, p: string, q: string)
    requires x + [sep] + p == y + [sep] + q
    requires sep !in p && sep !in q
    ensures x == y && p == q
  {
    var s, t := x + [sep] + p, y + [sep] + q;
    assert s[|x|] == sep && t[|y|] == sep;
    if |x| < |y| || |y| < |x| {
      assert false;
    }
    assert s[..|x|] == x && t[..|y|] == y;
    assert s[|x| + 1..] == p && t[|y| + 1..] == q;
  }

  /** A numeral is determined by the text up to the first non-digit. */
  lemma {:induction false} NumeralPrefix(a: nat, r: string, b: nat, t: string)
    requires Decimal(a) + r == Decimal(b) + t
    requires r == [] || !IsDigit(r[0])
    requires t == [] || !IsDigit(t[0])
    ensures a == b && r == t
  {
    var d, e := Decimal(a), Decimal(b);
    var s, u := d + r, e + t;
    assert r != [] ==> s[|d|] == r[0];
    assert t != [] ==> u[|e|] == t[0];
    if |d| < |e| || |e| < |d| {
      assert false;
    }
    assert s[..|d|] == d && u[..|e|] == e;
    assert s[|d|..] == r && u[|e|..] == t;
    DecimalInjective(a, b);
  }

  /** `name-n`: claim ids, and the tail of every other hyphenated id. */
  function Numbered(name: string, n: nat): string { name + ['-'] + Decimal(n) }

  lemma {:induction false} NumberedInjective(x: string, a: nat, y: string, b: nat)
    requires Numbered(x, a) == Numbered(y, b)
    ensures x == y && a == b
  {
    assert !IsDigit('-');
    SuffixSplit(x, y, '-', Decimal(a), Decimal(b));
    DecimalInjective(a, b);
  }

  /** A fixed prefix keeps a family of ids injective. */
  lemma {:induction false} PrefixInjective(p: string, x: string, y: string)
    requires p + x == p + y
    ensures x == y
  {
    assert (p + x)[|p|..] == x && (p + y)[|p|..] == y;
  }

  function ClaimId(perspective: string, i: nat): string { Numbered(perspective, i) }

  function EvidenceId(claimId: string, j: nat): string { "E-" + Numbered(claimId, j) }

  function GapId(perspective: string, i: nat): string { "gap-" + Numbered(perspective, i) }

  function ConflictId(perspective: string, i: nat): string { "conflict-" + Numbered(perspective, i) }

  /** Evidence ids identify the perspective, the claim and the reference they were made for. */
  lemma {:induction false} ClaimIdInjective(p: string, i: nat, q: string, k: nat)
    requires ClaimId(p, i) == ClaimId(q, k)
    ensures p == q && i == k
  {
    NumberedInjective(p, i, q, k);
  }

  lemma {:induction false} EvidenceIdInjective(p: string, i: nat, j: nat, q: string, k: nat, l: nat)
    requires EvidenceId(ClaimId(p, i), j) == EvidenceId(ClaimId(q, k), l)
    ensures p == q && i == k && j == l
  {
    PrefixInjective("E-", Numbered(ClaimId(p, i), j), Numbered(ClaimId(q, k), l));
    NumberedInjective(ClaimId(p, i), j, ClaimId(q, k), l);
    NumberedInjective(p, i, q, k);
  }
}
