/** The values exchanged between roles (rag/schemas.py, agents/contracts.py). */
module Schema {

  datatype Option<+T> = None | Some(value: T)

  /** A result, or the exception that ended the computation. */
  datatype Outcome<+T> = Done(value: T) | Raised(code: ErrorCode)

  datatype ErrorCode =
    | RetrievalError | InvalidResponse | ApiError | BudgetError | InputBudgetError
    | UncertainRequest | ArtifactMismatch | RenderError

  datatype Technology = Kivi | InfiniGen | Both

  datatype Kind = SourceFact | AuthorReportedResult | TeamInference | Scenario | Unknown

  datatype Reference = Reference(chunkId: string, quote: string)

  datatype Claim = Claim(
    technology: Technology, facet: string, text: string, kind: Kind,
    references: seq<Reference>, caveats: string, conditions: string)

  datatype Sufficiency = Sufficient | Insufficient

  datatype Assessment = Assessment(
    status: Sufficiency, claims: seq<Claim>, conflicts: seq<string>, gaps: seq<string>)

  /** A source chunk; the technology is absent for chunks outside the contract boundary. */
  datatype Chunk = Chunk(
    id: string, sourceId: string, technology: Option<Technology>, text: string,
    page: Option<int>, section: Option<string>, charStart: Option<int>, charEnd: Option<int>)

  datatype SourceType = PaperPool | ExternalWeb

  datatype Source = Source(kind: SourceType, authors: string, title: string, url: string, version: string)

  /** A dictionary in insertion order. */
  type Named<+T> = seq<(string, T)>

  function Keys<T>(d: Named<T>): (ks: seq<string>)
    ensures |ks| == |d|
    ensures forall i :: 0 <= i < |d| ==> ks[i] == d[i].0
  {
    seq(|d|, i requires 0 <= i < |d| => d[i].0)
  }

  /** The dictionary that a list of insertions amounts to: a later value replaces an earlier one. */
  function Dict<T>(d: Named<T>): map<string, T> {
    if d == [] then map[] else Dict(d[..|d| - 1])[d[|d| - 1].0 := d[|d| - 1].1]
  }

  lemma {:induction false} DictConcat<T>(a: Named<T>, b: Named<T>)
    ensures Dict(a + b) == Dict(a) + Dict(b)
  {
    if b == [] {
      assert a + b == a;
    } else {
      DictConcat(a, b[..|b| - 1]);
      assert (a + b)[..|a + b| - 1] == a + b[..|b| - 1];
    }
  }

  /** With distinct keys nothing is replaced: the dictionary holds every value under its own key, and no more. */
  lemma {:induction false} DictFaithful<T>(d: Named<T>)
    requires Distinct(Keys(d))
    ensures |Dict(d)| == |d| && Dict(d).Keys == ToSet(Keys(d))
    ensures forall k :: 0 <= k < |d| ==> d[k].0 in Dict(d) && Dict(d)[d[k].0] == d[k].1
  {
    if d != [] {
      var n := |d| - 1;
      var t := d[..n];
      LastKey(d);
      DictFaithful(t);
      assert Dict(d) == Dict(t)[d[n].0 := d[n].1];
      forall k | 0 <= k < n ensures d[k].0 in Dict(d) && Dict(d)[d[k].0] == d[k].1 {
        assert t[k] == d[k] && Keys(d)[k] == d[k].0;
      }
    }
  }

  lemma {:induction false} LastKey<T>(d: Named<T>)
    requires d != [] && Distinct(Keys(d))
    ensures var n := |d| - 1;
            && Distinct(Keys(d[..n])) && d[n].0 !in ToSet(Keys(d[..n]))
            && ToSet(Keys(d)) == ToSet(Keys(d[..n])) + {d[n].0}
  {
    var n := |d| - 1;
    assert Keys(d[..n]) == Keys(d)[..n];
    assert Keys(d) == Keys(d[..n]) + [d[n].0];
    forall k | 0 <= k < n ensures Keys(d[..n])[k] != d[n].0 {
      assert Keys(d)[k] != Keys(d)[n];
    }
  }

  predicate Distinct<T(==)>(s: seq<T>) {
    forall i, j :: 0 <= i < j < |s| ==> s[i] != s[j]
  }

  /** `list(dict.fromkeys(s))`: first occurrences, in order. */
  function Unique<T(==)>(s: seq<T>): (u: seq<T>)
    ensures Distinct(u)
    ensures forall k :: 0 <= k < |u| ==> u[k] in s
    ensures forall k :: 0 <= k < |s| ==> s[k] in u
  {
    if s == [] then []
    else
      var u := Unique(s[..|s| - 1]);
      assert s == s[..|s| - 1] + [s[|s| - 1]];
      if s[|s| - 1] in u then u else u + [s[|s| - 1]]
  }

  /** A list without repetitions is its own set of first occurrences. */
  lemma {:induction false} UniqueOfDistinct<T>(s: seq<T>)
    requires Distinct(s)
    ensures Unique(s) == s
  {
    if s != [] {
      UniqueOfDistinct(s[..|s| - 1]);
      assert s == s[..|s| - 1] + [s[|s| - 1]];
    }
  }

  function ToSet<T>(s: seq<T>): set<T> { set x | x in s }

  lemma {:induction false} DistinctCard<T>(s: seq<T>)
    requires Distinct(s)
    ensures |ToSet(s)| == |s|
  {
    if s != [] {
      var t := s[..|s| - 1];
      DistinctCard(t);
      assert s == t + [s[|s| - 1]];
      assert ToSet(s) == ToSet(t) + {s[|s| - 1]};
      assert s[|s| - 1] !in ToSet(t);
    }
  }

  lemma {:induction false} CardAtMostLength<T>(s: seq<T>)
    ensures |ToSet(s)| <= |s|
    ensures |ToSet(s)| == |s| ==> Distinct(s)
  {
    if s != [] {
      var t := s[..|s| - 1];
      CardAtMostLength(t);
      assert s == t + [s[|s| - 1]];
      assert ToSet(s) == ToSet(t) + {s[|s| - 1]};
      if s[|s| - 1] in ToSet(t) {
        assert ToSet(s) == ToSet(t);
      }
    }
  }

  lemma {:induction false} DistinctParts<T>(a: seq<T>, b: seq<T>)
    requires Distinct(a + b)
    ensures Distinct(a) && Distinct(b) && ToSet(a) !! ToSet(b)
  {
    var s := a + b;
    forall i, j | 0 <= i < j < |a| ensures a[i] != a[j] { assert s[i] == a[i] && s[j] == a[j]; }
    forall i, j | 0 <= i < j < |b| ensures b[i] != b[j] { assert s[|a| + i] == b[i] && s[|a| + j] == b[j]; }
    forall i, j | 0 <= i < |a| && 0 <= j < |b| ensures a[i] != b[j] { assert s[i] == a[i] && s[|a| + j] == b[j]; }
  }

  /** With distinct keys, entries added later leave the earlier ones as they were. */
  lemma {:induction false} DictGrows<T>(a: Named<T>, b: Named<T>)
    requires Distinct(Keys(a + b))
    ensures Dict(a + b) == Dict(a) + Dict(b) && Dict(a).Keys !! Dict(b).Keys
    ensures forall id :: id in Dict(a) ==> id in Dict(a + b) && Dict(a + b)[id] == Dict(a)[id]
  {
    hide Dict, ToSet, Distinct;
    assert Keys(a + b) == Keys(a) + Keys(b);
    DistinctParts(Keys(a), Keys(b));
    DictConcat(a, b);
    DictFaithful(a);
    DictFaithful(b);
  }

  /** The elements that satisfy `p`, in order. */
  function Pick<T>(xs: seq<T>, p: T -> bool): (r: seq<T>) {
    if xs == [] then []
    else Pick(xs[..|xs| - 1], p) + (if p(xs[|xs| - 1]) then [xs[|xs| - 1]] else [])
  }

  lemma {:induction false} PickCount<T>(xs: seq<T>, p: T -> bool, x: T)
    ensures multiset(Pick(xs, p))[x] == if p(x) then multiset(xs)[x] else 0
  {
    if xs != [] {
      PickCount(xs[..|xs| - 1], p, x);
      assert xs == xs[..|xs| - 1] + [xs[|xs| - 1]];
    }
  }

  lemma {:induction false} PickMember<T>(xs: seq<T>, p: T -> bool, x: T)
    ensures x in Pick(xs, p) <==> x in xs && p(x)
  {
    if xs != [] {
      PickMember(xs[..|xs| - 1], p, x);
      assert xs == xs[..|xs| - 1] + [xs[|xs| - 1]];
    }
  }
}
