/** Whitespace and the normal form of text (rag/corpus.py). */
module Texts {
  import Seqs

  /** The characters that Python's `\s` and `str.strip` treat as whitespace. */
  predicate IsSpace(c: char) {
    var n := c as int;
    9 <= n <= 13 || 28 <= n <= 32 || n == 0x85 || n == 0xA0 || n == 0x1680
    || 0x2000 <= n <= 0x200A || n == 0x2028 || n == 0x2029 || n == 0x202F || n == 0x205F || n == 0x3000
  }

  predicate AllSpace(s: string) { forall k :: 0 <= k < |s| ==> IsSpace(s[k]) }

  predicate Blank(s: string) { AllSpace(s) }

  /** `re.sub(r"\s+", " ", s)`, where `after` says that the text follows whitespace already emitted. */
  function Collapse(s: string, after: bool): string {
    if s == [] then []
    else if !IsSpace(s[0]) then [s[0]] + Collapse(s[1..], false)
    else if after then Collapse(s[1..], true)
    else [' '] + Collapse(s[1..], true)
  }

  /** The length of the whitespace run at the front. */
  function Spaces(s: string): (n: nat)
    ensures n <= |s|
  {
    if s == [] || !IsSpace(s[0]) then 0 else 1 + Spaces(s[1..])
  }

  lemma {:induction false} SpacesRun(s: string)
    ensures AllSpace(s[..Spaces(s)])
    ensures Spaces(s) < |s| ==> !IsSpace(s[Spaces(s)])
  {
    if s != [] && IsSpace(s[0]) {
      SpacesRun(s[1..]);
      assert s[..Spaces(s)] == [s[0]] + s[1..][..Spaces(s[1..])];
    }
  }

  function TrimLeft(s: string): string { s[Spaces(s)..] }

  /** The end of the text before position `n` without the whitespace at its end. */
  function InkEnd(s: string, n: nat): (e: nat)
    requires n <= |s|
    ensures e <= n
  {
    if n > 0 && IsSpace(s[n - 1]) then InkEnd(s, n - 1) else n
  }

  function TrimRight(s: string): string { s[..InkEnd(s, |s|)] }

  lemma {:induction false} InkEndRun(s: string, n: nat)
    requires n <= |s|
    ensures forall k :: InkEnd(s, n) <= k < n ==> IsSpace(s[k])
    ensures InkEnd(s, n) > 0 ==> !IsSpace(s[InkEnd(s, n) - 1])
  {
    if n > 0 && IsSpace(s[n - 1]) {
      InkEndRun(s, n - 1);
    }
  }

  function Strip(s: string): string { TrimRight(TrimLeft(s)) }

  function Normalized(s: string): string { Strip(Collapse(s, false)) }

  /** `needle in hay`. */
  predicate Contains(hay: string, needle: string) {
    exists i :: 0 <= i <= |hay| && OccursAt(hay, needle, i)
  }

  predicate OccursAt(hay: string, needle: string, i: int) {
    0 <= i && i + |needle| <= |hay| && hay[i..i + |needle|] == needle
  }

  function EndsInSpace(s: string, after: bool): bool {
    if s == [] then after else IsSpace(s[|s| - 1])
  }

  lemma {:induction false} CollapseConcat(a: string, b: string, after: bool)
    ensures Collapse(a + b, after) == Collapse(a, after) + Collapse(b, EndsInSpace(a, after))
  {
    if a == [] {
      assert a + b == b;
    } else {
      assert (a + b)[1..] == a[1..] + b;
      CollapseConcat(a[1..], b, IsSpace(a[0]));
      assert EndsInSpace(a, after) == EndsInSpace(a[1..], IsSpace(a[0]));
    }
  }

  lemma {:induction false} CollapseAfter(s: string)
    ensures Collapse(s, false) == Collapse(s, true)
         || Collapse(s, false) == [' '] + Collapse(s, true)
  {
  }

  /** A stripped string is the part between the whitespace on either side. */
  lemma {:induction false} StripSplit(s: string) returns (l: string, r: string)
    ensures s == l + Strip(s) + r && AllSpace(l) && AllSpace(r)
    ensures Stripped(Strip(s))
  {
    var t := TrimLeft(s);
    SpacesRun(s);
    InkEndRun(t, |t|);
    l, r := s[..Spaces(s)], t[InkEnd(t, |t|)..];
    Seqs.TakeDrop(s, Spaces(s));
    Seqs.TakeDrop(t, InkEnd(t, |t|));
    Seqs.Assoc(l, Strip(s), r);
  }

  predicate Stripped(s: string) { s == [] || (!IsSpace(s[0]) && !IsSpace(s[|s| - 1])) }

  lemma {:induction false} StripIsStripped(s: string)
    ensures Stripped(Strip(s))
  {
    var l, r := StripSplit(s);
  }

  lemma {:induction false} StripNoop(s: string)
    requires Stripped(s)
    ensures Strip(s) == s
  {
  }

  /** A text that starts and ends with ink stays clear of whitespace on either side. */
  lemma {:induction false} InkInside(l: string, core: string, r: string, p: string, t: string, q: string)
    requires l + core + r == p + t + q
    requires AllSpace(l) && AllSpace(r)
    requires t != [] && !IsSpace(t[0]) && !IsSpace(t[|t| - 1])
    ensures |l| <= |p| && |r| <= |q|
  {
    var s, u := l + core + r, p + t + q;
    assert u[|p|] == t[0] && u[|p| + |t| - 1] == t[|t| - 1];
    assert forall k :: 0 <= k < |l| ==> IsSpace(s[k]);
    assert forall k :: |l| + |core| <= k < |s| ==> s[k] == r[k - |l| - |core|];
  }

  lemma {:induction false} ContainsMiddle(p: string, t: string, q: string)
    ensures Contains(p + t + q, t)
  {
    assert (p + t + q)[|p|..|p| + |t|] == t;
    assert OccursAt(p + t + q, t, |p|);
  }

  /** What occurs, stripped, inside a string still occurs after the string is stripped. */
  lemma {:induction false} OccursAfterStrip(p: string, t: string, q: string)
    requires Stripped(t)
    ensures Contains(Strip(p + t + q), t)
  {
    var l, r := StripSplit(p + t + q);
    var core := Strip(p + t + q);
    if t == [] {
      assert core == [] + t + core;
      ContainsMiddle([], t, core);
    } else {
      InkInside(l, core, r, p, t, q);
      CoreHolds(l, core, r, p, t, q);
      ContainsMiddle(p[|l|..], t, q[..|q| - |r|]);
    }
  }

  lemma {:induction false} CoreHolds(l: string, core: string, r: string, p: string, t: string, q: string)
    requires l + core + r == p + t + q && |l| <= |p| && |r| <= |q|
    ensures core == p[|l|..] + t + q[..|q| - |r|]
  {
    var p', q' := p[|l|..], q[..|q| - |r|];
    assert p + t + q == p[..|l|] + (p' + t + q') + q[|q| - |r|..];
    Seqs.Assoc(l, core, r);
    Seqs.Assoc(p[..|l|], p' + t + q', q[|q| - |r|..]);
    Seqs.SameSplit(l, core + r, p[..|l|], (p' + t + q') + q[|q| - |r|..]);
    Seqs.SameSplit(core, r, p' + t + q', q[|q| - |r|..]);
  }

  /** Collapsing emits the normal form, whether or not whitespace was emitted before. */
  lemma {:induction false} CollapseHoldsNormalized(m: string, after: bool) returns (l: string, r: string)
    ensures Collapse(m, after) == l + Normalized(m) + r
  {
    var t := Normalized(m);
    l, r := StripSplit(Collapse(m, false));
    CollapseAfter(m);
    if Collapse(m, after) != Collapse(m, false) {
      l, r := WithoutFirstSpace(Collapse(m, true), l, t, r);
    }
  }

  lemma {:induction false} WithoutFirstSpace(y: string, l: string, t: string, r: string)
    returns (l': string, r': string)
    requires [' '] + y == l + t + r && (t != [] ==> !IsSpace(t[0]))
    ensures y == l' + t + r'
  {
    Seqs.Assoc(l, t, r);
    if l != [] {
      l', r' := l[1..], r;
      Seqs.HeadTail(l);
      Seqs.Assoc([l[0]], l[1..], t + r);
      Seqs.ConsTail(' ', y, l[0], l[1..] + (t + r));
      Seqs.Assoc(l[1..], t, r);
    } else {
      assert l + (t + r) == t + r;
      Seqs.Front(t, r);
      l', r' := [], y;
    }
  }

  lemma {:induction false} Regroup(x: string, l: string, t: string, r: string, z: string)
    ensures x + (l + t + r) + z == (x + l) + t + (r + z)
  {
  }

  /** The normal form of any part of a text occurs in the normal form of the text. */
  lemma {:induction false} PartOccurs(a: string, m: string, b: string)
    ensures Contains(Normalized(a + m + b), Normalized(m))
  {
    var x, z := Collapse(a, false), Collapse(b, EndsInSpace(a + m, false));
    CollapseConcat(a + m, b, false);
    CollapseConcat(a, m, false);
    var l, r := CollapseHoldsNormalized(m, EndsInSpace(a, false));
    Regroup(x, l, Normalized(m), r, z);
    StripIsStripped(Collapse(m, false));
    OccursAfterStrip(x + l, Normalized(m), r + z);
  }

  lemma {:induction false} SliceOccurs(s: string, i: nat, j: nat)
    requires i <= j <= |s|
    ensures Contains(Normalized(s), Normalized(s[i..j]))
  {
    assert s == s[..i] + s[i..j] + s[j..];
    PartOccurs(s[..i], s[i..j], s[j..]);
  }

  predicate Single(s: string) {
    forall k :: 0 <= k < |s| && IsSpace(s[k]) ==> s[k] == ' ' && (k + 1 < |s| ==> !IsSpace(s[k + 1]))
  }

  lemma {:induction false} CollapseIsSingle(s: string, after: bool)
    ensures Single(Collapse(s, after))
    ensures after && Collapse(s, after) != [] ==> !IsSpace(Collapse(s, after)[0])
  {
    if s != [] {
      CollapseIsSingle(s[1..], IsSpace(s[0]));
    }
  }

  lemma {:induction false} CollapseOfSingle(s: string)
    requires Single(s)
    ensures Collapse(s, false) == s
  {
    if s != [] {
      assert Single(s[1..]);
      CollapseOfSingle(s[1..]);
      if IsSpace(s[0]) && s[1..] != [] {
        assert !IsSpace(s[1]);
        assert Collapse(s[1..], true) == Collapse(s[1..], false);
      }
      assert s == [s[0]] + s[1..];
    }
  }

  lemma {:induction false} SinglePart(l: string, t: string, r: string)
    requires Single(l + t + r)
    ensures Single(t)
  {
    var c := l + t + r;
    forall k | 0 <= k < |t| && IsSpace(t[k])
      ensures t[k] == ' ' && (k + 1 < |t| ==> !IsSpace(t[k + 1]))
    {
      assert c[|l| + k] == t[k];
      if k + 1 < |t| { assert c[|l| + k + 1] == t[k + 1]; }
    }
  }

  /** Normal forms hold single spaces only, none at either end. */
  lemma {:induction false} NormalizedShape(s: string)
    ensures Single(Normalized(s)) && Stripped(Normalized(s))
  {
    CollapseIsSingle(s, false);
    var l, r := StripSplit(Collapse(s, false));
    SinglePart(l, Normalized(s), r);
  }

  lemma {:induction false} NormalizedIdempotent(s: string)
    ensures Normalized(Normalized(s)) == Normalized(s)
  {
    NormalizedShape(s);
    CollapseOfSingle(Normalized(s));
    StripNoop(Normalized(s));
  }
}
