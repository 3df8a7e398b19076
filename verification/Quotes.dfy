/** Restoring the typography of a quotation from its source (rag/repair.py). */
module Quotes {
  import opened Schema
  import opened Texts
  import Seqs

  /** `str.isalpha`: any class of letters that holds the ASCII letters, no whitespace and no hyphen. */
  ghost predicate IsLetterClass(alpha: char -> bool) {
    && IsInkClass(alpha)
    && (forall c :: 'a' <= c <= 'z' || 'A' <= c <= 'Z' ==> alpha(c))
  }

  ghost predicate IsInkClass(alpha: char -> bool) {
    forall c :: alpha(c) ==> !IsSpace(c) && c != '-'
  }

  /** The pieces of the pattern: an escaped character, `\s+`, `-\s*` and `(?:-\s+)?`. */
  datatype Token = Lit(c: char) | Gap | Hyphen | Wrap

  /** An optional line break may precede a letter that follows a letter. */
  predicate WrapsAt(text: string, i: nat, alpha: char -> bool)
    requires i < |text|
  {
    i > 0 && alpha(text[i - 1]) && alpha(text[i])
  }

  function TokenAt(text: string, i: nat, alpha: char -> bool): Token
    requires i < |text|
  {
    if text[i] == '-' && i > 0 && i + 1 < |text| && alpha(text[i - 1]) && alpha(text[i + 1]) then Hyphen
    else if IsSpace(text[i]) then Gap
    else Lit(text[i])
  }

  function TokensAt(text: string, i: nat, alpha: char -> bool): seq<Token>
    requires i < |text|
  {
    if WrapsAt(text, i, alpha) then [Wrap, TokenAt(text, i, alpha)] else [TokenAt(text, i, alpha)]
  }

  function PatternFrom(text: string, i: nat, alpha: char -> bool): (ts: seq<Token>)
    ensures i < |text| ==> ts != []
    decreases |text| - i
  {
    if i >= |text| then [] else TokensAt(text, i, alpha) + PatternFrom(text, i + 1, alpha)
  }

  /** The loop of `source_verbatim_quote` that appends the pattern piece by piece. */
  method BuildPattern(text: string, alpha: char -> bool) returns (pattern: seq<Token>)
    ensures pattern == PatternFrom(text, 0, alpha)
  {
    pattern := [];
    for i := 0 to |text|
      invariant pattern + PatternFrom(text, i, alpha) == PatternFrom(text, 0, alpha)
    {
      ghost var before := pattern;
      if WrapsAt(text, i, alpha) {
        pattern := pattern + [Wrap];
      }
      pattern := pattern + [TokenAt(text, i, alpha)];
      assert pattern == before + TokensAt(text, i, alpha);
      Seqs.Assoc(before, TokensAt(text, i, alpha), PatternFrom(text, i + 1, alpha));
    }
  }

  // ---------- What a pattern matches ----------

  /** `s` as a whole is matched by the pattern. */
  ghost predicate Fits(ts: seq<Token>, s: string)
    decreases |ts|, 0
  {
    if ts == [] then s == []
    else match ts[0]
      case Lit(c) => s != [] && s[0] == c && Fits(ts[1..], s[1..])
      case Gap => FitsRun(ts[1..], s, 1)
      case Hyphen => s != [] && s[0] == '-' && FitsRun(ts[1..], s[1..], 0)
      case Wrap => Fits(ts[1..], s) || (s != [] && s[0] == '-' && FitsRun(ts[1..], s[1..], 1))
  }

  /** At least `lo` whitespace characters, then the pattern. */
  ghost predicate FitsRun(ts: seq<Token>, s: string, lo: nat)
    decreases |ts|, 1
  {
    exists k :: lo <= k <= |s| && AllSpace(s[..k]) && Fits(ts, s[k..])
  }

  function Longer(d: nat, m: Option<nat>): Option<nat> {
    if m.Some? then Some(d + m.value) else None
  }

  /** The backtracking matcher: the length of the first match at the start of `s`, longest runs first. */
  function Match(ts: seq<Token>, s: string): Option<nat>
    decreases |ts|, 0, 0
  {
    if ts == [] then Some(0)
    else match ts[0]
      case Lit(c) => if s != [] && s[0] == c then Longer(1, Match(ts[1..], s[1..])) else None
      case Gap => MatchRun(ts[1..], s, Spaces(s), 1)
      case Hyphen =>
        if s != [] && s[0] == '-' then Longer(1, MatchRun(ts[1..], s[1..], Spaces(s[1..]), 0)) else None
      case Wrap =>
        var wrapped := if s != [] && s[0] == '-' then Longer(1, MatchRun(ts[1..], s[1..], Spaces(s[1..]), 1)) else None;
        if wrapped.Some? then wrapped else Match(ts[1..], s)
  }

  function MatchRun(ts: seq<Token>, s: string, k: nat, lo: nat): Option<nat>
    requires k <= |s|
    decreases |ts|, 1, k
  {
    if k < lo then None
    else
      var m := Longer(k, Match(ts, s[k..]));
      if m.Some? || k == 0 then m else MatchRun(ts, s, k - 1, lo)
  }

  lemma {:induction false} MatchSound(ts: seq<Token>, s: string)
    requires Match(ts, s).Some?
    ensures Match(ts, s).value <= |s| && Fits(ts, s[..Match(ts, s).value])
    decreases |ts|, 0, 0
  {
    if ts != [] {
      var n := Match(ts, s).value;
      match ts[0]
      case Lit(c) =>
        MatchSound(ts[1..], s[1..]);
        assert s[..n][1..] == s[1..][..n - 1];
      case Gap =>
        SpacesRun(s);
        MatchRunSound(ts[1..], s, Spaces(s), 1);
      case Hyphen =>
        SpacesRun(s[1..]);
        MatchRunSound(ts[1..], s[1..], Spaces(s[1..]), 0);
        assert s[..n][1..] == s[1..][..n - 1];
      case Wrap =>
        if s != [] && s[0] == '-' && MatchRun(ts[1..], s[1..], Spaces(s[1..]), 1).Some? {
          SpacesRun(s[1..]);
          MatchRunSound(ts[1..], s[1..], Spaces(s[1..]), 1);
          assert s[..n][1..] == s[1..][..n - 1];
        } else {
          MatchSound(ts[1..], s);
        }
    }
  }

  lemma {:induction false} MatchRunSound(ts: seq<Token>, s: string, k: nat, lo: nat)
    requires k <= |s| && AllSpace(s[..k])
    requires MatchRun(ts, s, k, lo).Some?
    ensures MatchRun(ts, s, k, lo).value <= |s| && FitsRun(ts, s[..MatchRun(ts, s, k, lo).value], lo)
    decreases |ts|, 1, k
  {
    var n := MatchRun(ts, s, k, lo).value;
    if Match(ts, s[k..]).Some? {
      MatchSound(ts, s[k..]);
      assert s[..n][..k] == s[..k];
      assert s[..n][k..] == s[k..][..n - k];
    } else {
      assert forall i :: 0 <= i < k - 1 ==> s[..k - 1][i] == s[..k][i];
      MatchRunSound(ts, s, k - 1, lo);
    }
  }

  lemma {:induction false} MatchComplete(ts: seq<Token>, s: string, n: nat)
    requires n <= |s| && Fits(ts, s[..n])
    ensures Match(ts, s).Some?
    decreases |ts|, 0, 0
  {
    if ts != [] {
      match ts[0]
      case Lit(c) =>
        assert s[..n][1..] == s[1..][..n - 1];
        MatchComplete(ts[1..], s[1..], n - 1);
      case Gap =>
        RunLimit(ts[1..], s, n, 1);
        MatchRunComplete(ts[1..], s, n, Spaces(s), 1);
      case Hyphen =>
        assert s[..n][1..] == s[1..][..n - 1];
        RunLimit(ts[1..], s[1..], n - 1, 0);
        MatchRunComplete(ts[1..], s[1..], n - 1, Spaces(s[1..]), 0);
      case Wrap =>
        if Fits(ts[1..], s[..n]) {
          MatchComplete(ts[1..], s, n);
        } else {
          assert s[..n][1..] == s[1..][..n - 1];
          RunLimit(ts[1..], s[1..], n - 1, 1);
          MatchRunComplete(ts[1..], s[1..], n - 1, Spaces(s[1..]), 1);
        }
    }
  }

  lemma {:induction false} MatchRunComplete(ts: seq<Token>, s: string, n: nat, k: nat, lo: nat)
    requires k <= |s| && n <= |s|
    requires exists j :: lo <= j <= n && j <= k && AllSpace(s[..n][..j]) && Fits(ts, s[..n][j..])
    ensures MatchRun(ts, s, k, lo).Some?
    decreases |ts|, 1, k
  {
    var j :| lo <= j <= n && j <= k && AllSpace(s[..n][..j]) && Fits(ts, s[..n][j..]);
    if j == k {
      assert s[..n][k..] == s[k..][..n - k];
      MatchComplete(ts, s[k..], n - k);
    } else {
      MatchRunComplete(ts, s, n, k - 1, lo);
    }
  }

  lemma {:induction false} RunLimit(ts: seq<Token>, s: string, n: nat, lo: nat)
    requires n <= |s| && FitsRun(ts, s[..n], lo)
    ensures exists j :: lo <= j <= n && j <= Spaces(s) && AllSpace(s[..n][..j]) && Fits(ts, s[..n][j..])
  {
    var j :| lo <= j <= n && AllSpace(s[..n][..j]) && Fits(ts, s[..n][j..]);
    assert s[..n][..j] == s[..j];
    SpacesRun(s);
    forall k | 0 <= k < j ensures IsSpace(s[k]) { assert s[..j][k] == s[k]; }
  }

  // ---------- What a match keeps of the quotation ----------

  /** The text without whitespace and hyphens. */
  function Bare(s: string): string {
    if s == [] then []
    else (if IsSpace(s[0]) || s[0] == '-' then [] else [s[0]]) + Bare(s[1..])
  }

  lemma {:induction false} BareConcat(a: string, b: string)
    ensures Bare(a + b) == Bare(a) + Bare(b)
  {
    if a == [] {
      assert a + b == b;
    } else {
      assert (a + b)[1..] == a[1..] + b;
      BareConcat(a[1..], b);
    }
  }

  lemma {:induction false} BareSpace(s: string)
    requires AllSpace(s)
    ensures Bare(s) == []
  {
    if s != [] { BareSpace(s[1..]); }
  }

  lemma {:induction false} CollapseSpace(p: string, r: string)
    requires AllSpace(p) && p != []
    ensures Collapse(p + r, true) == Collapse(r, true)
    ensures Collapse(p + r, false) == [' '] + Collapse(r, true)
  {
    assert (p + r)[1..] == p[1..] + r;
    if |p| == 1 {
      assert p[1..] + r == r;
    } else {
      CollapseSpace(p[1..], r);
    }
  }

  /** A character that is not whitespace, with the whitespace after it. */
  lemma {:induction false} CollapseInk(p: string, r: string, after: bool)
    requires p != [] && !IsSpace(p[0]) && AllSpace(p[1..])
    ensures Collapse(p + r, after)
         == [p[0]] + (if |p| > 1 then [' '] + Collapse(r, true) else Collapse(r, false))
  {
    assert (p + r)[1..] == p[1..] + r;
    if |p| > 1 {
      CollapseSpace(p[1..], r);
    } else {
      assert p[1..] + r == r;
    }
  }

  /** A match of the text from `i` on: an inserted line break or nothing, the piece for `text[i]`, and the rest. */
  ghost predicate Pieces(text: string, i: nat, alpha: char -> bool, w: string, p: string, r: string)
    requires i < |text|
  {
    && (w != [] ==> IsBreak(w) && i > 0 && alpha(text[i - 1]) && alpha(text[i]))
    && p != []
    && (if IsSpace(text[i]) then AllSpace(p)
        else p[0] == text[i] && AllSpace(p[1..])
             && (|p| > 1 ==> text[i] == '-' && i + 1 < |text| && alpha(text[i + 1])))
    && Fits(PatternFrom(text, i + 1, alpha), r)
  }

  /** A hyphen at a line end: `-` and at least one whitespace character. */
  predicate IsBreak(w: string) { |w| > 1 && w[0] == '-' && AllSpace(w[1..]) }

  lemma {:induction false} SplitToken(t: Token, later: seq<Token>, m: string) returns (p: string, r: string)
    requires !t.Wrap? && Fits([t] + later, m)
    ensures m == p + r && p != [] && Fits(later, r)
    ensures t.Lit? ==> p == [t.c]
    ensures t.Gap? ==> AllSpace(p)
    ensures t.Hyphen? ==> p[0] == '-' && AllSpace(p[1..])
  {
    assert ([t] + later)[1..] == later;
    var k := 1;
    match t {
      case Lit(c) =>
      case Gap => k :| 1 <= k <= |m| && AllSpace(m[..k]) && Fits(later, m[k..]);
      case Hyphen =>
        var j :| 0 <= j <= |m[1..]| && AllSpace(m[1..][..j]) && Fits(later, m[1..][j..]);
        k := 1 + j;
        assert m[1..][j..] == m[k..] && m[1..][..j] == m[..k][1..];
    }
    p, r := m[..k], m[k..];
  }

  lemma {:induction false} SplitWrap(ts: seq<Token>, m: string) returns (w: string, r: string)
    requires Fits([Wrap] + ts, m)
    ensures m == w + r && (w != [] ==> IsBreak(w)) && Fits(ts, r)
  {
    assert ([Wrap] + ts)[1..] == ts;
    if Fits(ts, m) {
      w, r := [], m;
    } else {
      var k :| 1 <= k <= |m[1..]| && AllSpace(m[1..][..k]) && Fits(ts, m[1..][k..]);
      w, r := m[..1 + k], m[1..][k..];
      assert m[1..][..k] == w[1..];
    }
  }

  lemma {:induction false} SplitMatch(text: string, i: nat, alpha: char -> bool, m: string)
    returns (w: string, p: string, r: string)
    requires i < |text|
    requires Fits(PatternFrom(text, i, alpha), m)
    ensures m == w + p + r && Pieces(text, i, alpha, w, p, r)
  {
    var later := PatternFrom(text, i + 1, alpha);
    var t := TokenAt(text, i, alpha);
    var rest := m;
    w := [];
    if WrapsAt(text, i, alpha) {
      assert [Wrap, t] + later == [Wrap] + ([t] + later);
      w, rest := SplitWrap([t] + later, m);
    }
    p, r := SplitToken(t, later, rest);
    Seqs.Assoc(w, p, r);
  }

  lemma {:induction false} BareOfPieces(text: string, i: nat, alpha: char -> bool, w: string, p: string, r: string)
    requires i < |text| && IsInkClass(alpha) && Pieces(text, i, alpha, w, p, r)
    ensures Bare(w + p + r) == (if IsSpace(text[i]) || text[i] == '-' then [] else [text[i]]) + Bare(r)
  {
    hide PatternFrom, Fits;
    BareConcat(w + p, r);
    BareConcat(w, p);
    if w != [] { BareSpace(w[1..]); }
    if IsSpace(text[i]) { BareSpace(p); } else { BareSpace(p[1..]); }
  }

  /** A match holds the same characters in the same order, up to whitespace and hyphens. */
  lemma {:induction false} MatchKeepsBare(text: string, i: nat, alpha: char -> bool, m: string)
    requires i <= |text| && IsInkClass(alpha)
    requires Fits(PatternFrom(text, i, alpha), m)
    ensures Bare(m) == Bare(text[i..])
    decreases |text| - i
  {
    if i < |text| {
      hide PatternFrom, Fits;
      var w, p, r := SplitMatch(text, i, alpha, m);
      MatchKeepsBare(text, i + 1, alpha, r);
      assert text[i..][1..] == text[i + 1..];
      BareOfPieces(text, i, alpha, w, p, r);
    }
  }

  /** The text without whitespace. */
  function Ink(s: string): string {
    if s == [] then [] else (if IsSpace(s[0]) then [] else [s[0]]) + Ink(s[1..])
  }

  lemma {:induction false} InkConcat(a: string, b: string)
    ensures Ink(a + b) == Ink(a) + Ink(b)
  {
    if a == [] {
      assert a + b == b;
    } else {
      assert (a + b)[1..] == a[1..] + b;
      InkConcat(a[1..], b);
    }
  }

  lemma {:induction false} InkSpace(s: string)
    requires AllSpace(s)
    ensures Ink(s) == []
  {
    if s != [] { InkSpace(s[1..]); }
  }

  /** `ink` is the text from `i` on without its whitespace, where between two letters that stand together
      a hyphen may have come in: no other hyphen is added, and none is dropped. */
  ghost predicate Hyphenated(text: string, i: nat, alpha: char -> bool, ink: string)
    decreases |text| - i
  {
    if i >= |text| then ink == []
    else if IsSpace(text[i]) then Hyphenated(text, i + 1, alpha, ink)
    else
      || (ink != [] && ink[0] == text[i] && Hyphenated(text, i + 1, alpha, ink[1..]))
      || (WrapsAt(text, i, alpha) && |ink| > 1 && ink[0] == '-' && ink[1] == text[i]
          && Hyphenated(text, i + 1, alpha, ink[2..]))
  }

  lemma {:induction false} InkOfPieces(text: string, i: nat, alpha: char -> bool, w: string, p: string, r: string)
    requires i < |text| && IsInkClass(alpha) && Pieces(text, i, alpha, w, p, r)
    ensures w != [] ==> WrapsAt(text, i, alpha) && !IsSpace(text[i])
    ensures Ink(w + p + r) == (if w == [] then [] else ['-']) + (if IsSpace(text[i]) then [] else [text[i]]) + Ink(r)
  {
    hide PatternFrom, Fits;
    InkConcat(w + p, r);
    InkConcat(w, p);
    if w != [] { InkSpace(w[1..]); }
    if IsSpace(text[i]) { InkSpace(p); } else { InkSpace(p[1..]); }
  }

  lemma {:induction false} MatchKeepsHyphens(text: string, i: nat, alpha: char -> bool, m: string)
    requires i <= |text| && IsInkClass(alpha)
    requires Fits(PatternFrom(text, i, alpha), m)
    ensures Hyphenated(text, i, alpha, Ink(m))
    decreases |text| - i
  {
    if i < |text| {
      hide PatternFrom, Fits, Ink;
      var w, p, r := SplitMatch(text, i, alpha, m);
      InkOfPieces(text, i, alpha, w, p, r);
      MatchKeepsHyphens(text, i + 1, alpha, r);
      assert Ink(m)[|Ink(m)| - |Ink(r)|..] == Ink(r);
    } else {
      assert m == [];
    }
  }

  /** Whitespace that may not be followed by more whitespace: the text has single spaces only. */
  lemma {:induction false} MatchNotShorter(text: string, i: nat, alpha: char -> bool, m: string, after: bool)
    requires i <= |text| && IsInkClass(alpha) && Single(text)
    requires after && i < |text| ==> !IsSpace(text[i])
    requires Fits(PatternFrom(text, i, alpha), m)
    ensures |Collapse(m, after)| >= |text| - i
    decreases |text| - i
  {
    if i < |text| {
      var w, p, r := SplitMatch(text, i, alpha, m);
      assert m == w + (p + r);
      var b := after && w == [];
      if w != [] {
        CollapseInk(w, p + r, after);
        b := true;
      }
      assert |Collapse(m, after)| >= |Collapse(p + r, b)| by { assert w == [] ==> m == p + r; }
      if IsSpace(text[i]) {
        CollapseSpace(p, r);
        MatchNotShorter(text, i + 1, alpha, r, true);
      } else {
        CollapseInk(p, r, b);
        MatchNotShorter(text, i + 1, alpha, r, |p| > 1);
      }
    }
  }

  /** No hyphen of `s` is directly followed by whitespace. */
  predicate NoBreak(s: string) {
    forall k :: 0 <= k < |s| - 1 && s[k] == '-' ==> !IsSpace(s[k + 1])
  }

  lemma {:induction false} NoBreakPrefix(w: string, r: string)
    ensures NoBreak(w + r) ==> !IsBreak(w)
  {
    if IsBreak(w) {
      var m := w + r;
      assert m[0] == '-' && m[1] == w[1..][0];
    }
  }

  /** Without a line-end hyphen in it, a match differs from the quotation in whitespace only. */
  lemma {:induction false} MatchWithoutBreak(text: string, i: nat, alpha: char -> bool, m: string, after: bool)
    requires i <= |text| && IsInkClass(alpha) && Single(text)
    requires after && i < |text| ==> !IsSpace(text[i])
    requires Fits(PatternFrom(text, i, alpha), m)
    requires NoBreak(m) || forall c :: !alpha(c)
    ensures Collapse(m, after) == text[i..]
    decreases |text| - i
  {
    if i < |text| {
      var p, r := PlainPiece(text, i, alpha, m);
      assert text[i..] == [text[i]] + text[i + 1..];
      if IsSpace(text[i]) {
        CollapseSpace(p, r);
        MatchWithoutBreak(text, i + 1, alpha, r, true);
      } else {
        assert m[1..] == r;
        MatchWithoutBreak(text, i + 1, alpha, r, false);
      }
    }
  }

  lemma {:induction false} PlainPiece(text: string, i: nat, alpha: char -> bool, m: string)
    returns (p: string, r: string)
    requires i < |text| && Fits(PatternFrom(text, i, alpha), m)
    requires NoBreak(m) || forall c :: !alpha(c)
    ensures m == p + r && p != [] && Fits(PatternFrom(text, i + 1, alpha), r)
    ensures if IsSpace(text[i]) then AllSpace(p) else p == [text[i]]
    ensures NoBreak(m) ==> NoBreak(r)
  {
    var w;
    w, p, r := SplitMatch(text, i, alpha, m);
    Seqs.Assoc(w, p, r);
    NoBreakPrefix(w, p + r);
    assert w == [];
    assert m == p + r;
    NoBreakPrefix(p, r);
    NoBreakSuffix(p, r);
  }

  lemma {:induction false} NoBreakSuffix(w: string, r: string)
    ensures NoBreak(w + r) ==> NoBreak(r)
  {
    var m := w + r;
    if NoBreak(m) {
      forall k | 0 <= k < |r| - 1 && r[k] == '-' ensures !IsSpace(r[k + 1]) {
        assert m[|w| + k] == '-' && m[|w| + k + 1] == r[k + 1];
      }
    }
  }

  /** A match ends in the last character of the quotation. */
  lemma {:induction false} MatchEnd(text: string, i: nat, alpha: char -> bool, m: string)
    requires i < |text| && IsInkClass(alpha) && Stripped(text)
    requires Fits(PatternFrom(text, i, alpha), m)
    ensures m != [] && m[|m| - 1] == text[|text| - 1]
    decreases |text| - i
  {
    var w, p, r := SplitMatch(text, i, alpha, m);
    if i + 1 < |text| {
      MatchEnd(text, i + 1, alpha, r);
    }
  }

  // ---------- A start position has at most one match ----------

  lemma {:induction false} RunUnique(p: string, x: string, q: string, y: string)
    requires p + x == q + y && AllSpace(p) && AllSpace(q)
    requires x != [] && !IsSpace(x[0]) && y != [] && !IsSpace(y[0])
    ensures p == q && x == y
  {
    var s, t := p + x, q + y;
    assert s[|p|] == x[0] && t[|q|] == y[0];
    assert forall k :: 0 <= k < |p| ==> s[k] == p[k];
    assert forall k :: 0 <= k < |q| ==> t[k] == q[k];
    assert |p| == |q|;
    assert p == s[..|p|] && q == t[..|q|];
    assert x == s[|p|..] && y == t[|q|..];
  }

  lemma {:induction false} InkUnique(p: string, x: string, q: string, y: string)
    requires p != [] && q != [] && p + x == q + y
    requires AllSpace(p[1..]) && AllSpace(q[1..])
    requires (x != [] && !IsSpace(x[0]) && y != [] && !IsSpace(y[0])) || |p| == |q| == 1
    ensures p == q && x == y
  {
    assert (p + x)[0] == p[0] && (q + y)[0] == q[0];
    assert (p + x)[1..] == p[1..] + x && (q + y)[1..] == q[1..] + y;
    if |p| == 1 && |q| == 1 {
      assert x == (p + x)[1..] && y == (q + y)[1..];
    } else {
      RunUnique(p[1..], x, q[1..], y);
    }
    assert p == [p[0]] + p[1..] && q == [q[0]] + q[1..];
  }

  /** The first character of a match, when the quotation has a non-letter or no letter before it. */
  lemma {:induction false} MatchStart(text: string, i: nat, alpha: char -> bool, m: string)
    requires i < |text| && IsInkClass(alpha) && !IsSpace(text[i])
    requires i > 0 ==> !alpha(text[i - 1])
    requires Fits(PatternFrom(text, i, alpha), m)
    ensures m != [] && m[0] == text[i]
  {
    var w, p, r := SplitMatch(text, i, alpha, m);
  }

  lemma {:induction false} BreakUnique(c: char, w: string, p: string, r: string, x: string, w': string, p': string,
          r': string, y: string)
    requires (w + p + r) + x == (w' + p' + r') + y
    requires p != [] && p' != []
    requires w != [] ==> IsBreak(w) && c != '-' && !IsSpace(c)
    requires w' != [] ==> IsBreak(w') && c != '-' && !IsSpace(c)
    requires !IsSpace(c) ==> p[0] == p'[0] == c
    ensures w == w' && p + (r + x) == p' + (r' + y)
  {
    var s, t := p + (r + x), p' + (r' + y);
    Regroup4(w, p, r, x);
    Regroup4(w', p', r', y);
    assert w + s == w' + t;
    if w == [] && w' == [] {
      assert w + s == s && w' + t == t;
    } else {
      assert s[0] == p[0] && t[0] == p'[0];
      Seqs.Front(w, s);
      Seqs.Front(w', t);
      InkUnique(w, s, w', t);
    }
  }

  lemma {:induction false} Regroup4(w: string, p: string, r: string, x: string)
    ensures (w + p + r) + x == w + (p + (r + x))
  {
    Seqs.Assoc(w + p, r, x);
    Seqs.Assoc(w, p, r + x);
  }

  lemma {:induction false} MatchUnique(text: string, i: nat, alpha: char -> bool, m: string, x: string, n: string,
          y: string)
    requires i <= |text| && IsInkClass(alpha) && Single(text) && Stripped(text)
    requires Fits(PatternFrom(text, i, alpha), m) && Fits(PatternFrom(text, i, alpha), n)
    requires m + x == n + y
    ensures m == n
    decreases |text| - i
  {
    if i < |text| {
      var w, p, r := SplitMatch(text, i, alpha, m);
      var w', p', r' := SplitMatch(text, i, alpha, n);
      BreakUnique(text[i], w, p, r, x, w', p', r', y);
      if IsSpace(text[i]) {
        assert i + 1 < |text|;
        MatchStart(text, i + 1, alpha, r);
        MatchStart(text, i + 1, alpha, r');
        RunUnique(p, r + x, p', r' + y);
      } else {
        if text[i] == '-' && i + 1 < |text| && alpha(text[i + 1]) {
          MatchStart(text, i + 1, alpha, r);
          MatchStart(text, i + 1, alpha, r');
        }
        InkUnique(p, r + x, p', r' + y);
      }
      MatchUnique(text, i + 1, alpha, r, x, r', y);
    }
  }

  // ---------- The restorer ----------

  predicate IsLower(c: char) { 'a' <= c <= 'z' }

  /** `str.upper` of an ASCII letter. */
  function Upper(c: char): char
    requires IsLower(c)
  {
    (c as int - 32) as char
  }

  /** A sentence starts here: at the front, or after a full stop, exclamation or question mark. */
  predicate AtSentence(source: string, i: nat) {
    i <= |source| &&
    var before := TrimRight(source[..i]);
    AllSpace(source[..i]) || (before != [] && before[|before| - 1] in ".!?")
  }

  /** A match of `re.finditer('(?=(pattern))', source)`: the span of its group and the group's text. */
  datatype Hit = Hit(start: nat, end: nat, text: string)

  /** The matches from position `i` on; with `sentence`, only those at a sentence start. */
  function Hits(ts: seq<Token>, source: string, i: nat, sentence: bool): seq<Hit>
    decreases |source| + 1 - i
  {
    if i > |source| then []
    else
      var m := Match(ts, source[i..]);
      if m.Some? && (sentence ==> AtSentence(source, i)) then
        MatchSound(ts, source[i..]);
        [Hit(i, i + m.value, source[i..i + m.value])] + Hits(ts, source, i + 1, sentence)
      else Hits(ts, source, i + 1, sentence)
  }

  ghost predicate IsHit(ts: seq<Token>, source: string, i: nat, sentence: bool, h: Hit) {
    && i <= h.start <= h.end <= |source| && h.text == source[h.start..h.end]
    && Match(ts, source[h.start..]) == Some(h.end - h.start)
    && (sentence ==> AtSentence(source, h.start))
  }

  lemma {:induction false} HitsSound(ts: seq<Token>, source: string, i: nat, sentence: bool, k: nat)
    requires k < |Hits(ts, source, i, sentence)|
    ensures IsHit(ts, source, i, sentence, Hits(ts, source, i, sentence)[k])
    ensures k > 0 ==> Hits(ts, source, i, sentence)[0].start < Hits(ts, source, i, sentence)[k].start
    decreases |source| + 1 - i
  {
    var m := Match(ts, source[i..]);
    if m.Some? && (sentence ==> AtSentence(source, i)) {
      MatchSound(ts, source[i..]);
      if k > 0 {
        HitsSound(ts, source, i + 1, sentence, k - 1);
      }
    } else {
      HitsSound(ts, source, i + 1, sentence, k);
    }
  }

  lemma {:induction false} HitsComplete(ts: seq<Token>, source: string, i: nat, sentence: bool, k: nat)
    requires i <= k <= |source| && Match(ts, source[k..]).Some? && (sentence ==> AtSentence(source, k))
    ensures exists h :: h in Hits(ts, source, i, sentence) && h.start == k
    decreases |source| + 1 - i
  {
    if i < k {
      HitsComplete(ts, source, i + 1, sentence, k);
      var h :| h in Hits(ts, source, i + 1, sentence) && h.start == k;
      assert h in Hits(ts, source, i, sentence);
    } else {
      assert Hits(ts, source, i, sentence)[0].start == k;
    }
  }

  predicate Capitalizable(text: string) { |text| > 1 && IsLower(text[0]) && IsLower(text[1]) }

  function Capitalized(text: string): string
    requires Capitalizable(text)
  {
    [Upper(text[0])] + text[1..]
  }

  /** The pattern with the sentence initial restored; only the first piece differs. */
  function SentencePattern(text: string, alpha: char -> bool): seq<Token>
    requires Capitalizable(text)
  {
    [Lit(Upper(text[0]))] + PatternFrom(text, 0, alpha)[1..]
  }

  function OnlyMatch(hits: seq<Hit>, quote: string): string {
    if |hits| == 1 then hits[0].text else quote
  }

  /** What `source_verbatim_quote` returns. */
  function Restored(quote: string, source: string, alpha: char -> bool): string {
    var text := Normalized(quote);
    if Contains(Normalized(source), text) then quote
    else
      var hits := Hits(PatternFrom(text, 0, alpha), source, 0, false);
      if hits == [] && Capitalizable(text)
      then OnlyMatch(Hits(SentencePattern(text, alpha), source, 0, true), quote)
      else OnlyMatch(hits, quote)
  }

  method SourceVerbatimQuote(quote: string, source: string, alpha: char -> bool) returns (r: string)
    ensures r == Restored(quote, source, alpha)
  {
    var text := Normalized(quote);
    if Contains(Normalized(source), text) {
      return quote;
    }
    var pattern := BuildPattern(text, alpha);
    var hits := Hits(pattern, source, 0, false);
    if hits == [] && Capitalizable(text) {
      // Only a capital at a sentence boundary is restored.
      hits := Hits([Lit(Upper(text[0]))] + pattern[1..], source, 0, true);
    }
    return OnlyMatch(hits, quote);
  }

  /** `source[i..j]` fits the pattern; with `sentence`, only where a sentence starts. */
  ghost predicate Rewraps(ts: seq<Token>, source: string, sentence: bool, i: int, j: int) {
    0 <= i <= j <= |source| && Fits(ts, source[i..j]) && (sentence ==> AtSentence(source, i))
  }

  ghost predicate Occurs(ts: seq<Token>, source: string, sentence: bool) {
    exists i, j :: Rewraps(ts, source, sentence, i, j)
  }

  /** Exactly one span of the source is such a rewrapping. */
  ghost predicate OnlySpan(ts: seq<Token>, source: string, sentence: bool, i: int, j: int) {
    && Rewraps(ts, source, sentence, i, j)
    && forall k, l :: Rewraps(ts, source, sentence, k, l) ==> k == i && l == j
  }

  /** Capitalizing the first letter changes the pattern in its first piece only. */
  lemma {:induction false} CapitalizedPattern(text: string, alpha: char -> bool)
    requires Capitalizable(text) && IsLetterClass(alpha)
    ensures SentencePattern(text, alpha) == PatternFrom(Capitalized(text), 0, alpha)
  {
    var big := Capitalized(text);
    assert TokensAt(text, 0, alpha) == [Lit(text[0])] && TokensAt(big, 0, alpha) == [Lit(big[0])];
    assert PatternFrom(text, 0, alpha)[1..] == PatternFrom(text, 1, alpha);
    PatternTail(text, big, 1, alpha);
  }

  lemma {:induction false} PatternTail(text: string, big: string, i: nat, alpha: char -> bool)
    requires |text| == |big| && i > 0 && |text| > 1 && text[1..] == big[1..]
    requires alpha(text[0]) && alpha(big[0])
    requires text[1] != '-' || i > 1
    ensures PatternFrom(text, i, alpha) == PatternFrom(big, i, alpha)
    decreases |text| - i
  {
    if i < |text| {
      PatternTail(text, big, i + 1, alpha);
      assert forall k :: 1 <= k < |text| ==> text[k] == text[1..][k - 1] && big[k] == big[1..][k - 1];
      assert TokensAt(text, i, alpha) == TokensAt(big, i, alpha);
    }
  }

  /** At one position a pattern has at most one match. */
  ghost predicate Deterministic(ts: seq<Token>) {
    forall m, n :: Fits(ts, m) && Fits(ts, n) && m <= n ==> m == n
  }

  lemma {:induction false} PatternDeterministic(text: string, alpha: char -> bool)
    requires IsInkClass(alpha) && Single(text) && Stripped(text)
    ensures Deterministic(PatternFrom(text, 0, alpha))
  {
    var ts := PatternFrom(text, 0, alpha);
    forall m, n | Fits(ts, m) && Fits(ts, n) && m <= n ensures m == n {
      Seqs.TakeDrop(n, |m|);
      MatchUnique(text, 0, alpha, m, n[|m|..], n, []);
    }
  }

  lemma {:induction false} MatchLength(ts: seq<Token>, s: string, n: nat)
    requires Deterministic(ts) && n <= |s| && Fits(ts, s[..n])
    ensures Match(ts, s) == Some(n)
  {
    MatchComplete(ts, s, n);
    MatchSound(ts, s);
    var k := Match(ts, s).value;
    Seqs.Prefixes(s, n, k);
  }

  lemma {:induction false} SpanIsHit(ts: seq<Token>, source: string, sentence: bool, i: int, j: int) returns (h: Hit)
    requires Deterministic(ts) && Rewraps(ts, source, sentence, i, j)
    ensures h in Hits(ts, source, 0, sentence) && h.start == i && h.end == j
  {
    assert source[i..][..j - i] == source[i..j];
    MatchLength(ts, source[i..], j - i);
    HitsComplete(ts, source, 0, sentence, i);
    h :| h in Hits(ts, source, 0, sentence) && h.start == i;
    var k :| 0 <= k < |Hits(ts, source, 0, sentence)| && Hits(ts, source, 0, sentence)[k] == h;
    HitsSound(ts, source, 0, sentence, k);
  }

  lemma {:induction false} HitIsSpan(ts: seq<Token>, source: string, sentence: bool, k: nat)
    requires k < |Hits(ts, source, 0, sentence)|
    ensures var h := Hits(ts, source, 0, sentence)[k];
            Rewraps(ts, source, sentence, h.start, h.end) && h.text == source[h.start..h.end]
  {
    HitsSound(ts, source, 0, sentence, k);
    var h := Hits(ts, source, 0, sentence)[k];
    MatchSound(ts, source[h.start..]);
    assert source[h.start..][..h.end - h.start] == source[h.start..h.end];
  }

  /** `r` is the only rewrapping in the source, or `quote` when there is not exactly one. */
  ghost predicate Picks(ts: seq<Token>, source: string, sentence: bool, quote: string, r: string) {
    && (forall i, j :: OnlySpan(ts, source, sentence, i, j) ==> r == source[i..j])
    && ((exists i, j :: OnlySpan(ts, source, sentence, i, j)) || r == quote)
  }

  /** The matcher picks a span exactly when there is only one, and then that one. */
  lemma {:induction false} OnlyMatchExact(ts: seq<Token>, source: string, sentence: bool, quote: string)
    requires Deterministic(ts)
    ensures var hits := Hits(ts, source, 0, sentence);
            && (hits == [] <==> !Occurs(ts, source, sentence))
            && Picks(ts, source, sentence, quote, OnlyMatch(hits, quote))
  {
    if Hits(ts, source, 0, sentence) == [] {
      NoHit(ts, source, sentence);
      PicksNone(ts, source, sentence, quote);
    } else if |Hits(ts, source, 0, sentence)| == 1 {
      OneHit(ts, source, sentence);
      var h := Hits(ts, source, 0, sentence)[0];
      PicksOne(ts, source, sentence, quote, h.start, h.end);
    } else {
      ManyHits(ts, source, sentence);
      PicksNone(ts, source, sentence, quote);
    }
  }

  lemma {:induction false} PicksNone(ts: seq<Token>, source: string, sentence: bool, quote: string)
    requires forall i, j :: !OnlySpan(ts, source, sentence, i, j)
    ensures Picks(ts, source, sentence, quote, quote)
  {
  }

  lemma {:induction false} PicksOne(ts: seq<Token>, source: string, sentence: bool, quote: string, i: nat, j: nat)
    requires OnlySpan(ts, source, sentence, i, j)
    ensures Picks(ts, source, sentence, quote, source[i..j])
    ensures Occurs(ts, source, sentence)
  {
  }

  lemma {:induction false} ManyHits(ts: seq<Token>, source: string, sentence: bool)
    requires |Hits(ts, source, 0, sentence)| > 1
    ensures Occurs(ts, source, sentence)
    ensures forall i, j :: !OnlySpan(ts, source, sentence, i, j)
  {
    HitIsSpan(ts, source, sentence, 0);
    HitIsSpan(ts, source, sentence, 1);
    HitsSound(ts, source, 0, sentence, 1);
  }

  lemma {:induction false} NoHit(ts: seq<Token>, source: string, sentence: bool)
    requires Deterministic(ts) && Hits(ts, source, 0, sentence) == []
    ensures !Occurs(ts, source, sentence)
  {
    if i, j :| Rewraps(ts, source, sentence, i, j) {
      var h := SpanIsHit(ts, source, sentence, i, j);
    }
  }

  lemma {:induction false} OneHit(ts: seq<Token>, source: string, sentence: bool)
    requires Deterministic(ts) && |Hits(ts, source, 0, sentence)| == 1
    ensures var h := Hits(ts, source, 0, sentence)[0];
            OnlySpan(ts, source, sentence, h.start, h.end) && h.text == source[h.start..h.end]
  {
    var h := Hits(ts, source, 0, sentence)[0];
    HitIsSpan(ts, source, sentence, 0);
    forall k, l | Rewraps(ts, source, sentence, k, l) ensures k == h.start && l == h.end {
      var g := SpanIsHit(ts, source, sentence, k, l);
    }
  }

  /** The pattern that decides: the quotation's own, or, when the source has no match for it
      and the quotation starts with two small letters, the one with the initial capital. */
  ghost function Wanted(text: string, source: string, alpha: char -> bool): (w: (string, bool)) {
    if !Occurs(PatternFrom(text, 0, alpha), source, false) && Capitalizable(text)
    then (Capitalized(text), true) else (text, false)
  }

  /** The restorer, stated without the matcher: the quotation stays as it is when it already occurs,
      otherwise it becomes the only rewrapping in the source, or else the only one at a sentence start
      with the initial capital put back; whenever there is not exactly one, it stays as it is. */
  lemma {:induction false} RestoredExact(quote: string, source: string, alpha: char -> bool)
    requires IsLetterClass(alpha)
    ensures var text := Normalized(quote);
            var r := Restored(quote, source, alpha);
            if Contains(Normalized(source), text) then r == quote
            else
              var (wanted, capital) := Wanted(text, source, alpha);
              Picks(PatternFrom(wanted, 0, alpha), source, capital, quote, r)
  {
    var text := Normalized(quote);
    NormalizedShape(quote);
    PatternDeterministic(text, alpha);
    OnlyMatchExact(PatternFrom(text, 0, alpha), source, false, quote);
    if Capitalizable(text) {
      CapitalizedPattern(text, alpha);
      CapitalizedShape(text);
      PatternDeterministic(Capitalized(text), alpha);
      OnlyMatchExact(SentencePattern(text, alpha), source, true, quote);
    }
  }

  // ---------- What the pattern stands for ----------

  /** `m` begins with what may stand for `text[i]`: between two letters perhaps a hyphen and white space first; then
      white space for white space, a hyphen between two letters with or without white space after it, or the character
      itself. `a` and `b` are where the character's part begins and ends. */
  ghost predicate Renders(text: string, i: nat, alpha: char -> bool, m: string, a: int, b: int)
    requires i < |text|
  {
    0 <= a < b <= |m|
    && (a > 0 ==> a > 1 && m[0] == '-' && AllSpace(m[1..a]) && i > 0 && alpha(text[i - 1]) && alpha(text[i]))
    && if IsSpace(text[i]) then AllSpace(m[a..b])
       else m[a] == text[i] && AllSpace(m[a + 1..b])
            && (b == a + 1 || (text[i] == '-' && i > 0 && alpha(text[i - 1]) && i + 1 < |text| && alpha(text[i + 1])))
  }

  /** `m` is the text from `i` on with its line breaks moved. */
  ghost predicate Rewrapped(text: string, i: nat, alpha: char -> bool, m: string)
    decreases |text| - i
  {
    if i >= |text| then m == []
    else exists a, b :: Renders(text, i, alpha, m, a, b) && Rewrapped(text, i + 1, alpha, m[b..])
  }

  /** The pattern matches exactly the rewrappings of the quotation. */
  lemma {:induction false} FitsExactly(text: string, i: nat, alpha: char -> bool, m: string)
    requires IsInkClass(alpha)
    ensures Fits(PatternFrom(text, i, alpha), m) <==> Rewrapped(text, i, alpha, m)
    decreases |text| - i
  {
    if i < |text| {
      hide Fits, PatternFrom;
      if Fits(PatternFrom(text, i, alpha), m) {
        var a, b := FitsRenders(text, i, alpha, m);
        FitsExactly(text, i + 1, alpha, m[b..]);
      }
      if Rewrapped(text, i, alpha, m) {
        var a, b :| Renders(text, i, alpha, m, a, b) && Rewrapped(text, i + 1, alpha, m[b..]);
        FitsExactly(text, i + 1, alpha, m[b..]);
        RendersFits(text, i, alpha, m, a, b);
      }
    }
  }

  lemma {:induction false} FitsRenders(text: string, i: nat, alpha: char -> bool, m: string) returns (a: nat, b: nat)
    requires i < |text| && IsInkClass(alpha) && Fits(PatternFrom(text, i, alpha), m)
    ensures Renders(text, i, alpha, m, a, b) && Fits(PatternFrom(text, i + 1, alpha), m[b..])
  {
    var later := PatternFrom(text, i + 1, alpha);
    var t := TokenAt(text, i, alpha);
    var w, rest := [], m;
    if WrapsAt(text, i, alpha) {
      assert [Wrap, t] + later == [Wrap] + ([t] + later);
      w, rest := SplitWrap([t] + later, m);
    }
    var p, r := SplitToken(t, later, rest);
    Seqs.Assoc(w, p, r);
    a, b := |w|, |w| + |p|;
    assert m == w + p + r;
    assert m[..a] == w && m[a..b] == p && m[b..] == r;
    hide Fits, PatternFrom;
    if a > 0 { assert m[1..a] == w[1..]; }
    assert m[a + 1..b] == p[1..];
  }

  lemma {:induction false} RendersFits(text: string, i: nat, alpha: char -> bool, m: string, a: nat, b: nat)
    requires i < |text| && IsInkClass(alpha)
    requires Renders(text, i, alpha, m, a, b) && Fits(PatternFrom(text, i + 1, alpha), m[b..])
    ensures Fits(PatternFrom(text, i, alpha), m)
  {
    var later := PatternFrom(text, i + 1, alpha);
    var t := TokenAt(text, i, alpha);
    TokenFits(t, later, m[a..], b - a) by {
      assert m[a..][..b - a] == m[a..b] && m[a..][b - a..] == m[b..];
      assert !IsSpace(text[i]) ==> m[a..][1..b - a] == m[a + 1..b];
    }
    if WrapsAt(text, i, alpha) {
      assert [Wrap, t] + later == [Wrap] + ([t] + later);
      assert ([Wrap] + ([t] + later))[1..] == [t] + later;
      if a > 0 {
        assert m[1..][..a - 1] == m[1..a] && m[1..][a - 1..] == m[a..];
        assert FitsRun([t] + later, m[1..], 1);
      }
    }
  }

  lemma {:induction false} TokenFits(t: Token, later: seq<Token>, m: string, n: nat)
    requires 0 < n <= |m| && Fits(later, m[n..])
    requires match t
             case Lit(c) => n == 1 && m[0] == c
             case Gap => AllSpace(m[..n])
             case Hyphen => m[0] == '-' && AllSpace(m[1..n])
             case Wrap => false
    ensures Fits([t] + later, m)
  {
    assert ([t] + later)[1..] == later;
    if t.Hyphen? {
      assert m[1..][..n - 1] == m[1..n] && m[1..][n - 1..] == m[n..];
      assert FitsRun(later, m[1..], 0);
    }
    if t.Gap? { assert FitsRun(later, m, 1); }
  }

  /** A sentence starts where only white space comes before, or a full stop, an exclamation or a question mark and white
      space. */
  lemma {:induction false} SentenceStarts(source: string, i: nat)
    requires i <= |source|
    ensures AtSentence(source, i) <==>
            || (forall k :: 0 <= k < i ==> IsSpace(source[k]))
            || (exists k :: 0 <= k < i && (source[k] == '.' || source[k] == '!' || source[k] == '?')
                            && forall l :: k < l < i ==> IsSpace(source[l]))
  {
    var s := source[..i];
    var e := InkEnd(s, i);
    InkEndRun(s, i);
    assert forall k :: 0 <= k < i ==> s[k] == source[k];
    if e > 0 { assert TrimRight(s)[e - 1] == s[e - 1]; }
    if k :| 0 <= k < i && (source[k] == '.' || source[k] == '!' || source[k] == '?')
            && forall l :: k < l < i ==> IsSpace(source[l]) {
      assert !IsSpace(s[k]) && k < e;
    }
  }

  lemma {:induction false} CapitalizedShape(text: string)
    requires Capitalizable(text) && Single(text) && Stripped(text)
    ensures Single(Capitalized(text)) && Stripped(Capitalized(text)) && !IsSpace(Capitalized(text)[0])
  {
    var big := Capitalized(text);
    forall k | 0 <= k < |big| && IsSpace(big[k])
      ensures big[k] == ' ' && (k + 1 < |big| ==> !IsSpace(big[k + 1]))
    {
      assert big[k] == text[k];
      if k + 1 < |big| { assert big[k + 1] == text[k + 1]; }
    }
  }

  lemma {:induction false} PickSpan(ts: seq<Token>, source: string, sentence: bool, quote: string, r: string)
    returns (i: int, j: int)
    requires Picks(ts, source, sentence, quote, r) && r != quote
    ensures Rewraps(ts, source, sentence, i, j) && r == source[i..j]
  {
    i, j :| OnlySpan(ts, source, sentence, i, j);
  }

  /** A changed quotation is a contiguous part of the source that rewraps it. */
  lemma {:induction false} RestoredIsPart(quote: string, source: string, alpha: char -> bool)
    returns (text: string, i: int, j: int)
    requires IsLetterClass(alpha)
    requires Restored(quote, source, alpha) != quote
    ensures 0 <= i <= j <= |source| && Restored(quote, source, alpha) == source[i..j]
    ensures !Contains(Normalized(source), Normalized(quote))
    ensures text == Normalized(quote) || (Capitalizable(Normalized(quote)) && text == Capitalized(Normalized(quote)))
    ensures text != [] && Single(text) && Stripped(text) && |text| == |Normalized(quote)|
    ensures Fits(PatternFrom(text, 0, alpha), source[i..j])
  {
    RestoredExact(quote, source, alpha);
    var plain := Normalized(quote);
    NormalizedShape(quote);
    if plain == [] { assert OccursAt(Normalized(source), plain, 0); }
    var (wanted, capital) := Wanted(plain, source, alpha);
    text := wanted;
    if capital {
      CapitalizedShape(plain);
    }
    i, j := PickSpan(PatternFrom(text, 0, alpha), source, capital, quote, Restored(quote, source, alpha));
  }

  /** Restoring twice is restoring once. */
  lemma {:induction false} RestoredIdempotent(quote: string, source: string, alpha: char -> bool)
    requires IsLetterClass(alpha)
    ensures Restored(Restored(quote, source, alpha), source, alpha) == Restored(quote, source, alpha)
  {
    if Restored(quote, source, alpha) != quote {
      var _, i, j := RestoredIsPart(quote, source, alpha);
      SliceOccurs(source, i, j);
    }
  }

  /** A changed quotation keeps every character in order, up to whitespace, hyphens added between two letters that
      stand together, and its first letter's capital; its normal form is no shorter and occurs in the source; and the
      change was needed: the span has a hyphen at a line end, or the initial was lower case. */
  lemma {:induction false} RestoredKeepsWording(quote: string, source: string, alpha: char -> bool)
    requires IsLetterClass(alpha)
    ensures var r := Restored(quote, source, alpha);
            var text := Normalized(quote);
            r != quote ==>
              && (Hyphenated(text, 0, alpha, Ink(r))
                  || (Capitalizable(text) && Hyphenated(Capitalized(text), 0, alpha, Ink(r))))
              && (Bare(r) == Bare(text) || (Capitalizable(text) && Bare(r) == Bare(Capitalized(text))))
              && |Normalized(r)| >= |text|
              && Contains(Normalized(source), Normalized(r))
              && (!NoBreak(r) || (Capitalizable(text) && Normalized(r) == Capitalized(text)))
  {
    hide PatternFrom, Fits, Hyphenated, Bare, Ink, Restored;
    var r := Restored(quote, source, alpha);
    if r != quote {
      var text, i, j := RestoredIsPart(quote, source, alpha);
      SliceOccurs(source, i, j);
      assert text[0..] == text;
      MatchKeepsHyphens(text, 0, alpha, r);
      MatchKeepsBare(text, 0, alpha, r);
      MatchNotShorter(text, 0, alpha, r, false);
      MatchStart(text, 0, alpha, r);
      MatchEnd(text, 0, alpha, r);
      CollapseEnds(r, false);
      StripNoop(Collapse(r, false));
      if NoBreak(r) {
        MatchWithoutBreak(text, 0, alpha, r, false);
      }
    }
  }

  lemma {:induction false} CollapseEnds(s: string, after: bool)
    requires s != [] && !IsSpace(s[|s| - 1])
    ensures var c := Collapse(s, after); c != [] && c[|c| - 1] == s[|s| - 1]
    ensures !IsSpace(s[0]) ==> Collapse(s, after)[0] == s[0]
  {
    if |s| > 1 { CollapseEnds(s[1..], IsSpace(s[0])); }
  }

  // ---------- The physical place of a quotation ----------

  /** `r'\s+'.join(words)`: the same pieces, with no letter class and so no optional hyphens. */
  function PlainPattern(text: string): seq<Token> { PatternFrom(text, 0, NoLetter) }

  predicate NoLetter(c: char) { false }

  datatype Place = Place(sourceId: string, page: int, start: int, end: int)

  /** Where the quotation stands in the frozen document, when the chunk says so and there is one place only. */
  function QuoteSpan(quote: string, chunk: Chunk, alpha: char -> bool): Option<Place> {
    WordingSpan(Normalized(Restored(quote, chunk.text, alpha)), chunk)
  }

  function WordingSpan(text: string, chunk: Chunk): Option<Place> {
    if chunk.sourceId == "" || chunk.page.None? || chunk.page.value < 1
       || chunk.charStart.None? || chunk.charEnd.None? || chunk.charStart.value < 0
       || chunk.charEnd.value - chunk.charStart.value != |chunk.text| then None
    else
      var at := OnlyPlace(text, chunk.text);
      if at.None? then None
      else Some(Place(chunk.sourceId, chunk.page.value,
                      chunk.charStart.value + at.value.start, chunk.charStart.value + at.value.end))
  }

  /** The only span of `source` with the wording of `text`. */
  function OnlyPlace(text: string, source: string): Option<Hit> {
    if text == [] then None
    else
      var hits := Hits(PlainPattern(text), source, 0, false);
      if |hits| == 1 then Some(hits[0]) else None
  }

  /** `source[i..j]` says `text`: it starts and ends in ink, and its normal form is the text. */
  predicate Says(text: string, source: string, i: int, j: int) {
    0 <= i <= j <= |source| && Stripped(source[i..j]) && Normalized(source[i..j]) == text
  }

  ghost predicate SaidOnlyAt(text: string, source: string, i: int, j: int) {
    Says(text, source, i, j) && forall k, l :: Says(text, source, k, l) ==> k == i && l == j
  }

  /** The chunk knows where it stands: a source, a page and as many characters as its text has. */
  predicate Located(chunk: Chunk) {
    && chunk.sourceId != "" && chunk.page.Some? && chunk.page.value >= 1
    && chunk.charStart.Some? && chunk.charEnd.Some? && 0 <= chunk.charStart.value
    && chunk.charEnd.value - chunk.charStart.value == |chunk.text|
  }

  /** The plain pattern of a text fits exactly the spans that say it. */
  lemma {:induction false} PlainExact(text: string, source: string, i: int, j: int)
    requires Single(text) && Stripped(text) && text != []
    ensures Rewraps(PlainPattern(text), source, false, i, j) <==> Says(text, source, i, j)
  {
    if 0 <= i <= j <= |source| {
      var m := source[i..j];
      if Fits(PlainPattern(text), m) {
        PlainMatch(text, m);
        MatchStart(text, 0, NoLetter, m);
        MatchEnd(text, 0, NoLetter, m);
      }
      if Says(text, source, i, j) {
        if m != [] { CollapseEnds(m, false); }
        StripNoop(Collapse(m, false));
        assert text[0..] == text;
        CollapsedFits(text, 0, m);
      }
    }
  }

  lemma {:induction false} CollapsedFits(text: string, i: nat, m: string)
    requires i <= |text| && Collapse(m, false) == text[i..]
    ensures Fits(PatternFrom(text, i, NoLetter), m)
    decreases |m|
  {
    if m != [] {
      var later := PatternFrom(text, i + 1, NoLetter);
      assert text[i..][0] == text[i] && text[i..][1..] == text[i + 1..];
      assert TokensAt(text, i, NoLetter) == [TokenAt(text, i, NoLetter)];
      assert PatternFrom(text, i, NoLetter)[1..] == later;
      if IsSpace(m[0]) {
        var k := Spaces(m);
        SpacesRun(m);
        Seqs.TakeDrop(m, k);
        CollapseSpace(m[..k], m[k..]);
        CollapsedFits(text, i + 1, m[k..]);
        assert FitsRun(later, m, 1);
      } else {
        CollapsedFits(text, i + 1, m[1..]);
      }
    }
  }

  lemma {:induction false} OnlyPlaceExact(text: string, source: string)
    requires Single(text) && Stripped(text)
    ensures OnlyPlace(text, source).Some? <==> text != [] && exists i, j :: SaidOnlyAt(text, source, i, j)
    ensures OnlyPlace(text, source).Some?
        ==> var h := OnlyPlace(text, source).value; SaidOnlyAt(text, source, h.start, h.end)
  {
    var ts := PlainPattern(text);
    PatternDeterministic(text, NoLetter);
    if text != [] {
      forall i, j ensures OnlySpan(ts, source, false, i, j) <==> SaidOnlyAt(text, source, i, j) {
        forall k, l ensures Rewraps(ts, source, false, k, l) <==> Says(text, source, k, l) {
          PlainExact(text, source, k, l);
        }
      }
      var hits := Hits(ts, source, 0, false);
      if |hits| == 1 {
        OneHit(ts, source, false);
        assert SaidOnlyAt(text, source, hits[0].start, hits[0].end);
      } else if hits == [] {
        NoHit(ts, source, false);
      } else {
        ManyHits(ts, source, false);
      }
    }
  }

  /** The place lies inside the chunk and is the only one there that says the text. */
  ghost predicate PlaceSays(text: string, chunk: Chunk, p: Place) {
    && Located(chunk) && p.sourceId == chunk.sourceId && Some(p.page) == chunk.page
    && chunk.charStart.value <= p.start <= p.end <= chunk.charEnd.value
    && SaidOnlyAt(text, chunk.text, p.start - chunk.charStart.value, p.end - chunk.charStart.value)
  }

  /** A place is found exactly when the chunk is located and the wording stands in it at one place only,
      whitespace aside; and then it is that place. */
  lemma {:induction false} WordingSpanExact(text: string, chunk: Chunk)
    requires Single(text) && Stripped(text)
    ensures WordingSpan(text, chunk).Some?
       <==> (Located(chunk) && text != [] && exists a, b :: SaidOnlyAt(text, chunk.text, a, b))
    ensures WordingSpan(text, chunk).Some? ==> PlaceSays(text, chunk, WordingSpan(text, chunk).value)
  {
    OnlyPlaceExact(text, chunk.text);
  }

  /** The span of a quotation is the one place of its located chunk that says the restored quotation, white space
      aside; there is one exactly when there is one such place. */
  lemma {:induction false} QuoteSpanExactly(quote: string, chunk: Chunk, alpha: char -> bool)
    ensures var text := Normalized(Restored(quote, chunk.text, alpha));
            && (QuoteSpan(quote, chunk, alpha).Some? <==>
                  Located(chunk) && text != [] && exists a, b :: SaidOnlyAt(text, chunk.text, a, b))
            && (QuoteSpan(quote, chunk, alpha).Some? ==> PlaceSays(text, chunk, QuoteSpan(quote, chunk, alpha).value))
  {
    hide Restored, WordingSpan, Normalized, Located, SaidOnlyAt, PlaceSays;
    NormalizedShape(Restored(quote, chunk.text, alpha));
    WordingSpanExact(Normalized(Restored(quote, chunk.text, alpha)), chunk);
  }

  lemma {:induction false} PlainMatch(text: string, m: string)
    requires Single(text) && Stripped(text) && Fits(PlainPattern(text), m)
    ensures Normalized(m) == text
  {
    MatchWithoutBreak(text, 0, NoLetter, m, false);
    assert text[0..] == text;
    StripNoop(text);
  }
}
