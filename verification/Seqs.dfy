/** Small facts about concatenation, used where a longer proof would lose them. */
module Seqs {

  lemma {:induction false} Assoc<T>(a: seq<T>, b: seq<T>, c: seq<T>)
    ensures (a + b) + c == a + (b + c)
  {
  }

  lemma {:induction false} TakeDrop<T>(s: seq<T>, k: nat)
    requires k <= |s|
    ensures s[..k] + s[k..] == s
  {
  }

  lemma {:induction false} Parts<T>(a: seq<T>, b: seq<T>)
    ensures (a + b)[..|a|] == a && (a + b)[|a|..] == b
  {
  }

  lemma {:induction false} ConsTail<T>(a: T, x: seq<T>, b: T, y: seq<T>)
    requires [a] + x == [b] + y
    ensures a == b && x == y
  {
    Parts([a], x);
    Parts([b], y);
    assert ([a] + x)[0] == a && ([b] + y)[0] == b;
  }

  lemma {:induction false} HeadTail<T>(s: seq<T>)
    requires s != []
    ensures s == [s[0]] + s[1..]
  {
  }

  lemma {:induction false} Front<T>(s: seq<T>, r: seq<T>)
    ensures s != [] ==> (s + r)[0] == s[0]
    ensures s == [] ==> s + r == r
  {
  }

  /** Of two prefixes of a text one is a prefix of the other. */
  lemma {:induction false} Prefixes<T>(s: seq<T>, i: nat, j: nat)
    requires i <= |s| && j <= |s|
    ensures s[..i] <= s[..j] || s[..j] <= s[..i]
  {
    if i <= j { assert s[..i] == s[..j][..i]; } else { assert s[..j] == s[..i][..j]; }
  }

  /** Equal concatenations with equally long heads have equal parts. */
  lemma {:induction false} SameSplit<T>(a: seq<T>, x: seq<T>, b: seq<T>, y: seq<T>)
    requires a + x == b + y && |a| == |b|
    ensures a == b && x == y
  {
    Parts(a, x);
    Parts(b, y);
  }
}
