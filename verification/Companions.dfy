/** Which chunks may accompany the selected ones: immediate neighbours in the source, and a bounded number of setup
    paragraphs of the same sources (`companion_candidates` in rag/context.py). */
module Companions {
  import opened Schema
  import opened Orders
  import opened Context

  // ---------- Keys ----------

  /** Tuples compare element by element; a proper prefix comes first. */
  predicate AtMost(a: seq<int>, b: seq<int>) {
    if a == [] then true
    else if b == [] then false
    else a[0] < b[0] || (a[0] == b[0] && AtMost(a[1..], b[1..]))
  }

  lemma {:induction false} AtMostTotal(a: seq<int>, b: seq<int>)
    ensures AtMost(a, b) || AtMost(b, a)
    ensures AtMost(a, b) && AtMost(b, a) ==> a == b
  {
    if a != [] && b != [] {
      AtMostTotal(a[1..], b[1..]);
      assert a == [a[0]] + a[1..] && b == [b[0]] + b[1..];
    }
  }

  lemma {:induction false} AtMostTransitive(a: seq<int>, b: seq<int>, c: seq<int>)
    requires AtMost(a, b) && AtMost(b, c)
    ensures AtMost(a, c)
  {
    if a != [] && a[0] == b[0] == c[0] {
      AtMostTransitive(a[1..], b[1..], c[1..]);
    }
  }

  datatype Key = Key(head: seq<int>, name: string, tail: seq<int>)

  predicate KeyAtMost(x: Key, y: Key) {
    if x.head != y.head then AtMost(x.head, y.head)
    else if x.name != y.name then Alphabetical(x.name, y.name)
    else AtMost(x.tail, y.tail)
  }

  lemma {:induction false} KeyAtMostTotal(x: Key, y: Key)
    ensures KeyAtMost(x, y) || KeyAtMost(y, x)
  {
    AtMostTotal(x.head, y.head);
    BeforeTotal(x.name, y.name);
    AtMostTotal(x.tail, y.tail);
  }

  lemma {:induction false} KeyAtMostTransitive(x: Key, y: Key, z: Key)
    requires KeyAtMost(x, y) && KeyAtMost(y, z)
    ensures KeyAtMost(x, z)
  {
    hide AtMost, Before;
    if AtMost(x.head, y.head) && AtMost(y.head, z.head) { AtMostTransitive(x.head, y.head, z.head); }
    if Before(x.name, y.name) && Before(y.name, z.name) { BeforeTransitive(x.name, y.name, z.name); }
    if AtMost(x.tail, y.tail) && AtMost(y.tail, z.tail) { AtMostTransitive(x.tail, y.tail, z.tail); }
    AtMostTotal(x.head, y.head);
    BeforeTotal(x.name, y.name);
  }

  // ---------- What the patterns find ----------

  /** The regular expressions as functions of a chunk: the number of `SETUP` matches, the distinct `STRONG_SETUP`
      matches as written and in lower case, and whether there is a `CAPTION`; and the token offset of a chunk without
      a character offset. */
  datatype Patterns = Patterns(
    setup: Chunk -> nat, strong: Chunk -> set<string>, terms: Chunk -> set<string>, caption: Chunk -> bool,
    tokenStart: Chunk -> int)

  function Flag(b: bool): int { if b then 1 else 0 }

  function PageOf(c: Chunk): int { if c.page.Some? then c.page.value else 0 }

  function StartOr(c: Chunk, other: int): int { if c.charStart.Some? then c.charStart.value else other }

  function FixedAndVaried(p: Patterns): Chunk -> bool { (c: Chunk) => "we fix" in p.terms(c) && "vary" in p.terms(c) }

  predicate PairedLengths(p: Patterns, c: Chunk) {
    && ("input tokens" in p.terms(c) || "input prompt length" in p.terms(c))
    && ("output tokens" in p.terms(c) || "output length" in p.terms(c))
  }

  function SetupKey(p: Patterns, c: Chunk): Key {
    Key([-Flag(FixedAndVaried(p)(c)), -Flag(PairedLengths(p, c)), -|p.terms(c)|], c.sourceId, [PageOf(c), StartOr(c, 0)])
  }

  function BySetup(p: Patterns): (Chunk, Chunk) -> bool {
    (a: Chunk, b: Chunk) => KeyAtMost(SetupKey(p, a), SetupKey(p, b))
  }

  function PageKey(p: Patterns, c: Chunk): seq<int> { [PageOf(c), StartOr(c, p.tokenStart(c))] }

  function ByPage(p: Patterns): (Chunk, Chunk) -> bool {
    (a: Chunk, b: Chunk) => AtMost(PageKey(p, a), PageKey(p, b))
  }

  function Strong(p: Patterns): Chunk -> bool { (c: Chunk) => |p.strong(c)| >= 2 }

  function MentionsSetup(p: Patterns): Chunk -> bool { (c: Chunk) => p.setup(c) > 0 }

  lemma {:induction false} SetupPreorder(p: Patterns)
    ensures Preorder(BySetup(p))
  {
    hide KeyAtMost, SetupKey;
    var below := BySetup(p);
    forall x, y ensures below(x, y) || below(y, x) { KeyAtMostTotal(SetupKey(p, x), SetupKey(p, y)); }
    forall x, y, z | below(x, y) && below(y, z) ensures below(x, z) {
      KeyAtMostTransitive(SetupKey(p, x), SetupKey(p, y), SetupKey(p, z));
    }
  }

  lemma {:induction false} PagePreorder(p: Patterns)
    ensures Preorder(ByPage(p))
  {
    hide AtMost, PageKey;
    var below := ByPage(p);
    forall x, y ensures below(x, y) || below(y, x) { AtMostTotal(PageKey(p, x), PageKey(p, y)); }
    forall x, y, z | below(x, y) && below(y, z) ensures below(x, z) {
      AtMostTransitive(PageKey(p, x), PageKey(p, y), PageKey(p, z));
    }
  }

  // ---------- Groups and neighbours ----------

  function PagedIn(source: string): Chunk -> bool { (c: Chunk) => c.page.Some? && c.sourceId == source }

  /** The paged chunks of one source in page and offset order. */
  function Group(chunks: seq<Chunk>, source: string, p: Patterns): seq<Chunk> {
    Sorted(Pick(chunks, PagedIn(source)), ByPage(p))
  }

  function IndexOf(group: seq<Chunk>, id: string): (i: nat)
    ensures i <= |group|
  {
    if group == [] then 0 else if group[0].id == id then 0 else 1 + IndexOf(group[1..], id)
  }

  /** The paged chunk that carries an id. */
  function Home(chunks: seq<Chunk>, id: string): Option<Chunk> {
    if chunks == [] then None
    else
      var c := chunks[|chunks| - 1];
      if c.id == id && c.page.Some? then Some(c) else Home(chunks[..|chunks| - 1], id)
  }

  /** The chunk just after (`delta` 1) or before (-1) a seed in its source. */
  function Beside(chunks: seq<Chunk>, id: string, delta: int, p: Patterns): Option<Chunk> {
    var home := Home(chunks, id);
    if home.None? then None
    else
      var group := Group(chunks, home.value.sourceId, p);
      var j := IndexOf(group, id) + delta;
      if 0 <= j < |group| then Some(group[j]) else None
  }

  // ---------- Candidates ----------

  datatype Candidate = Candidate(priority: seq<int>, chunk: Chunk)

  function Priority(c: Chunk, rank: nat, before: bool, p: Patterns): seq<int> {
    [-Min(8, p.setup(c)), rank, Flag(before)]
  }

  function Slot(cs: seq<Candidate>, id: string): (k: nat)
    ensures k <= |cs| && (k < |cs| ==> cs[k].chunk.id == id)
    ensures k == |cs| ==> forall i :: 0 <= i < |cs| ==> cs[i].chunk.id != id
  {
    if cs == [] then 0
    else
      var n := |cs| - 1;
      var k := Slot(cs[..n], id);
      if k < n then k else if cs[n].chunk.id == id then n else n + 1
  }

  /** A chunk offered again replaces its earlier offer only with a strictly smaller priority. */
  function Offered(cs: seq<Candidate>, offer: Option<Chunk>, rank: nat, before: bool, p: Patterns): seq<Candidate> {
    if offer.None? then cs
    else
      var c := offer.value;
      var made := Candidate(Priority(c, rank, before, p), c);
      var k := Slot(cs, c.id);
      if k == |cs| then cs + [made]
      else if !AtMost(cs[k].priority, made.priority) then cs[k := made]
      else cs
  }

  function Collected(chunks: seq<Chunk>, seeds: seq<Chunk>, p: Patterns): seq<Candidate> {
    if seeds == [] then []
    else
      var n := |seeds| - 1;
      var after := Offered(Collected(chunks, seeds[..n], p), Beside(chunks, seeds[n].id, 1, p), n, false, p);
      Offered(after, Beside(chunks, seeds[n].id, -1, p), n, true, p)
  }

  function ByPriority(a: Candidate, b: Candidate): bool { AtMost(a.priority, b.priority) }

  function ChunksOf(cs: seq<Candidate>): (r: seq<Chunk>)
    ensures |r| == |cs| && forall k :: 0 <= k < |cs| ==> r[k] == cs[k].chunk
  {
    seq(|cs|, k requires 0 <= k < |cs| => cs[k].chunk)
  }

  function Neighbours(chunks: seq<Chunk>, seeds: seq<Chunk>, p: Patterns): seq<Chunk> {
    ChunksOf(Sorted(Collected(chunks, UniqueById(seeds), p), ByPriority))
  }

  // ---------- Setup paragraphs ----------

  /** At most three setup paragraphs of a source, the best by their key. */
  function Fallback(chunks: seq<Chunk>, source: string, p: Patterns): (r: seq<Chunk>)
    ensures |r| <= 3
  {
    FirstThree(Sorted(Pick(Group(chunks, source, p), Strong(p)), BySetup(p)))
  }

  function SourcesOf(seeds: seq<Chunk>): (r: seq<string>)
    ensures |r| == |seeds| && forall k :: 0 <= k < |seeds| ==> r[k] == seeds[k].sourceId
  {
    seq(|seeds|, k requires 0 <= k < |seeds| => seeds[k].sourceId)
  }

  function Fallbacks(chunks: seq<Chunk>, sources: seq<string>, p: Patterns): seq<Chunk> {
    if sources == [] then []
    else Fallbacks(chunks, sources[..|sources| - 1], p) + Fallback(chunks, sources[|sources| - 1], p)
  }

  function Setups(chunks: seq<Chunk>, seeds: seq<Chunk>, neighbours: seq<Chunk>, p: Patterns): seq<Chunk> {
    var fallback := Fallbacks(chunks, Sorted(Unique(SourcesOf(seeds)), Alphabetical), p);
    Sorted(UniqueById(fallback + Pick(neighbours, MentionsSetup(p))), BySetup(p))
  }

  /** The first `n` of both lists, alternating. */
  function Alternated(a: seq<Chunk>, b: seq<Chunk>, n: nat): seq<Chunk> {
    if n == 0 then []
    else Alternated(a, b, n - 1) + (if n - 1 < |a| then [a[n - 1]] else []) + (if n - 1 < |b| then [b[n - 1]] else [])
  }

  function Arranged(neighbours: seq<Chunk>, setups: seq<Chunk>, p: Patterns): seq<Chunk> {
    var captions := Pick(neighbours, p.caption);
    UniqueById(Pick(setups, FixedAndVaried(p)) + Alternated(captions, setups, Max(|captions|, |setups|)) + neighbours)
  }

  /** `companion_candidates`. */
  function CompanionsOf(chunks: seq<Chunk>, seeds: seq<Chunk>, p: Patterns): seq<Chunk> {
    var neighbours := Neighbours(chunks, seeds, p);
    Arranged(neighbours, Setups(chunks, seeds, neighbours, p), p)
  }

  // ---------- The loops ----------

  method CompanionCandidates(chunks: seq<Chunk>, seeds: seq<Chunk>, p: Patterns) returns (r: seq<Chunk>)
    ensures r == CompanionsOf(chunks, seeds, p)
  {
    hide Beside, Offered, Pick, UniqueById, Sorted, Fallback;
    var distinct := UniqueById(seeds);
    var candidates: seq<Candidate> := [];
    for rank := 0 to |distinct|
      invariant candidates == Collected(chunks, distinct[..rank], p)
    {
      assert distinct[..rank + 1][..rank] == distinct[..rank];
      candidates := Offered(candidates, Beside(chunks, distinct[rank].id, 1, p), rank, false, p);
      candidates := Offered(candidates, Beside(chunks, distinct[rank].id, -1, p), rank, true, p);
    }
    assert distinct[..|distinct|] == distinct;
    var neighbours := ChunksOf(Sorted(candidates, ByPriority));
    var sources := Sorted(Unique(SourcesOf(seeds)), Alphabetical);
    var fallback: seq<Chunk> := [];
    for k := 0 to |sources|
      invariant fallback == Fallbacks(chunks, sources[..k], p)
    {
      assert sources[..k + 1][..k] == sources[..k];
      fallback := fallback + Fallback(chunks, sources[k], p);
    }
    assert sources[..|sources|] == sources;
    var setups := Sorted(UniqueById(fallback + Pick(neighbours, MentionsSetup(p))), BySetup(p));
    var captions := Pick(neighbours, p.caption);
    var paired: seq<Chunk> := [];
    for k := 0 to Max(|captions|, |setups|)
      invariant paired == Alternated(captions, setups, k)
    {
      paired := paired + (if k < |captions| then [captions[k]] else []) + (if k < |setups| then [setups[k]] else []);
    }
    r := UniqueById(Pick(setups, FixedAndVaried(p)) + paired + neighbours);
  }

  // ---------- What the candidates are ----------

  /** The chunk stands next to a seed in the page order of its own source. */
  predicate NextToSeed(chunks: seq<Chunk>, seeds: seq<Chunk>, c: Chunk, p: Patterns) {
    var group := Group(chunks, c.sourceId, p);
    exists i, j :: 0 <= i < |group| && 0 <= j < |group| && (j == i + 1 || j == i - 1)
                   && HasId(seeds, group[i].id) && group[j] == c
  }

  /** The chunk is one of the at most three chosen setup paragraphs of a seed's source. */
  predicate SetupOfSeed(chunks: seq<Chunk>, seeds: seq<Chunk>, c: Chunk, p: Patterns) {
    c.sourceId in SourcesOf(seeds) && c in Fallback(chunks, c.sourceId, p)
  }

  predicate InCorpus(s: seq<Chunk>, chunks: seq<Chunk>) { forall k :: 0 <= k < |s| ==> s[k] in chunks }

  lemma {:induction false} PickIn(chunks: seq<Chunk>, p: Chunk -> bool, c: Chunk)
    ensures c in Pick(chunks, p) <==> c in chunks && p(c)
  {
    if chunks != [] {
      var n := |chunks| - 1;
      PickIn(chunks[..n], p, c);
      PickSnoc(chunks, p);
      hide Pick;
      assert chunks == chunks[..n] + [chunks[n]];
    }
  }

  /** Of chunks of one corpus, first occurrences by id are all of them. */
  lemma {:induction false} UniqueIn(chunks: seq<Chunk>, s: seq<Chunk>, c: Chunk)
    requires DistinctIds(chunks) && InCorpus(s, chunks)
    ensures c in UniqueById(s) <==> c in s
  {
    if s != [] {
      hide HasId;
      var n := |s| - 1;
      assert s == s[..n] + [s[n]];
      UniqueIn(chunks, s[..n], c);
      var head := UniqueById(s[..n]);
      if HasId(head, s[n].id) && c == s[n] {
        SomeHasId(head, c.id);
        var k :| 0 <= k < |head| && head[k].id == c.id;
        UniqueIn(chunks, s[..n], head[k]);
        SameChunk(chunks, head[k], c);
      }
    }
  }

  lemma {:induction false} SameChunk(chunks: seq<Chunk>, a: Chunk, b: Chunk)
    requires DistinctIds(chunks) && a in chunks && b in chunks && a.id == b.id
    ensures a == b
  {
    var i :| 0 <= i < |chunks| && chunks[i] == a;
    var j :| 0 <= j < |chunks| && chunks[j] == b;
  }

  // ---------- Groups ----------

  lemma {:induction false} InsertIds(s: seq<Chunk>, x: Chunk, below: (Chunk, Chunk) -> bool)
    ensures forall id :: HasId(Insert(s, x, below), id) <==> HasId(s, id) || x.id == id
    ensures DistinctIds(s) && !HasId(s, x.id) ==> DistinctIds(Insert(s, x, below))
  {
    hide HasId, DistinctIds;
    if s == [] {
      IdsSnoc([], x);
      assert [] + [x] == [x];
      NoIds();
    } else {
      var n := |s| - 1;
      assert s == s[..n] + [s[n]];
      IdsSnoc(s[..n], s[n]);
      IdsSnoc(s, x);
      InsertIds(s[..n], x, below);
      IdsSnoc(Insert(s[..n], x, below), s[n]);
      if DistinctIds(s) { LastIdNew(s); }
    }
  }

  lemma {:induction false} NoIds()
    ensures DistinctIds([]) && forall id :: !HasId([], id)
  {
  }

  lemma {:induction false} LastIdNew(s: seq<Chunk>)
    requires s != [] && DistinctIds(s)
    ensures DistinctIds(s[..|s| - 1]) && !HasId(s[..|s| - 1], s[|s| - 1].id)
  {
  }

  lemma {:induction false} SortedHasIds(s: seq<Chunk>, below: (Chunk, Chunk) -> bool)
    requires DistinctIds(s)
    ensures DistinctIds(Sorted(s, below)) && forall id :: HasId(Sorted(s, below), id) <==> HasId(s, id)
  {
    if s != [] {
      hide HasId, DistinctIds, Insert;
      var n := |s| - 1;
      LastIdNew(s);
      assert s == s[..n] + [s[n]];
      IdsSnoc(s[..n], s[n]);
      SortedHasIds(s[..n], below);
      InsertIds(Sorted(s[..n], below), s[n], below);
    }
  }

  /** A group is the paged chunks of its source, each once, in page and offset order. */
  lemma {:induction false} GroupIs(chunks: seq<Chunk>, source: string, p: Patterns, c: Chunk)
    requires DistinctIds(chunks)
    ensures DistinctIds(Group(chunks, source, p)) && InOrder(Group(chunks, source, p), ByPage(p))
    ensures c in Group(chunks, source, p) <==> c in chunks && c.page.Some? && c.sourceId == source
  {
    var paged := Pick(chunks, PagedIn(source));
    PickSmaller(chunks, PagedIn(source), (x: Chunk) => 0);
    PickIn(chunks, PagedIn(source), c);
    SortedMembers(paged, ByPage(p), c);
    hide DistinctIds, Pick, Sorted, InOrder, Preorder;
    SortedHasIds(paged, ByPage(p));
    PagePreorder(p);
    SortedInOrder(paged, ByPage(p));
  }

  lemma {:induction false} HomeIs(chunks: seq<Chunk>, id: string, h: Chunk)
    requires DistinctIds(chunks)
    ensures Home(chunks, id) == Some(h) <==> h in chunks && h.id == id && h.page.Some?
  {
    if chunks != [] {
      var n := |chunks| - 1;
      assert chunks == chunks[..n] + [chunks[n]];
      HomeIs(chunks[..n], id, h);
    }
  }

  lemma {:induction false} IndexIs(group: seq<Chunk>, i: nat)
    requires DistinctIds(group) && i < |group|
    ensures IndexOf(group, group[i].id) == i
  {
    if i > 0 { IndexIs(group[1..], i - 1); }
  }

  /** `c` is the chunk `delta` after the one with this id in the page order of their source. */
  predicate Shifted(chunks: seq<Chunk>, id: string, delta: int, c: Chunk, p: Patterns) {
    var group := Group(chunks, c.sourceId, p);
    exists i :: 0 <= i < |group| && 0 <= i + delta < |group| && group[i].id == id && group[i + delta] == c
  }

  lemma {:induction false} BesideIs(chunks: seq<Chunk>, id: string, delta: int, c: Chunk, p: Patterns)
    requires DistinctIds(chunks)
    ensures Beside(chunks, id, delta, p) == Some(c) <==> Shifted(chunks, id, delta, c, p)
  {
    hide Group, DistinctIds, Home, Beside, Shifted;
    if Beside(chunks, id, delta, p) == Some(c) { BesideIsShifted(chunks, id, delta, c, p); }
    if Shifted(chunks, id, delta, c, p) { ShiftedIsBeside(chunks, id, delta, c, p); }
  }

  lemma {:induction false} BesideIsShifted(chunks: seq<Chunk>, id: string, delta: int, c: Chunk, p: Patterns)
    requires DistinctIds(chunks) && Beside(chunks, id, delta, p) == Some(c)
    ensures Shifted(chunks, id, delta, c, p)
  {
    hide Group, DistinctIds, Home;
    var h := Home(chunks, id).value;
    HomeIs(chunks, id, h);
    var group := Group(chunks, h.sourceId, p);
    GroupIs(chunks, h.sourceId, p, h);
    GroupIs(chunks, h.sourceId, p, c);
    var i :| 0 <= i < |group| && group[i] == h;
    IndexIs(group, i);
    assert group[i + delta] == c;
  }

  lemma {:induction false} ShiftedIsBeside(chunks: seq<Chunk>, id: string, delta: int, c: Chunk, p: Patterns)
    requires DistinctIds(chunks) && Shifted(chunks, id, delta, c, p)
    ensures Beside(chunks, id, delta, p) == Some(c)
  {
    hide Group, DistinctIds, Home;
    var group := Group(chunks, c.sourceId, p);
    var i :| 0 <= i < |group| && 0 <= i + delta < |group| && group[i].id == id && group[i + delta] == c;
    GroupIs(chunks, c.sourceId, p, group[i]);
    HomeIs(chunks, id, group[i]);
    IndexIs(group, i);
  }

  lemma {:induction false} BesideInCorpus(chunks: seq<Chunk>, id: string, delta: int, p: Patterns)
    requires DistinctIds(chunks) && Beside(chunks, id, delta, p).Some?
    ensures Beside(chunks, id, delta, p).value in chunks
  {
    hide Group, DistinctIds, Beside;
    var c := Beside(chunks, id, delta, p).value;
    BesideIs(chunks, id, delta, c, p);
    GroupIs(chunks, c.sourceId, p, c);
  }

  // ---------- The first offer stands ----------

  function OfferedOnce(cs: seq<Candidate>, offer: Option<Chunk>, rank: nat, before: bool, p: Patterns): seq<Candidate> {
    if offer.None? || Slot(cs, offer.value.id) < |cs| then cs
    else cs + [Candidate(Priority(offer.value, rank, before, p), offer.value)]
  }

  /** The candidates without any comparison of priorities: a chunk keeps its first offer. */
  function CollectedOnce(chunks: seq<Chunk>, seeds: seq<Chunk>, p: Patterns): seq<Candidate> {
    if seeds == [] then []
    else
      var n := |seeds| - 1;
      var after := OfferedOnce(CollectedOnce(chunks, seeds[..n], p), Beside(chunks, seeds[n].id, 1, p), n, false, p);
      OfferedOnce(after, Beside(chunks, seeds[n].id, -1, p), n, true, p)
  }

  /** The candidate was offered for this seed rank and side, or earlier. */
  predicate Made(c: Candidate, rank: nat, before: bool, p: Patterns) {
    && |c.priority| == 3 && c.priority[0] == -Min(8, p.setup(c.chunk))
    && (c.priority[1] < rank || (c.priority[1] == rank && c.priority[2] <= Flag(before)))
  }

  predicate MadeEarlier(cs: seq<Candidate>, chunks: seq<Chunk>, rank: nat, before: bool, p: Patterns) {
    forall k :: 0 <= k < |cs| ==> cs[k].chunk in chunks && Made(cs[k], rank, before, p)
  }

  lemma {:induction false} TripleAtMost(a: seq<int>, b: seq<int>)
    requires |a| == |b| == 3 && a[0] == b[0] && (a[1] < b[1] || (a[1] == b[1] && a[2] <= b[2]))
    ensures AtMost(a, b)
  {
    var x, y := a[1..], b[1..];
    assert x[0] == a[1] && y[0] == b[1] && x[1] == a[2] && y[1] == b[2];
    assert x[1..] == [a[2]] && y[1..] == [b[2]];
    assert a[2] <= b[2] ==> AtMost([a[2]], [b[2]]);
  }

  lemma {:induction false} OfferStands(chunks: seq<Chunk>, cs: seq<Candidate>, offer: Option<Chunk>, rank: nat,
          before: bool, p: Patterns)
    requires DistinctIds(chunks) && MadeEarlier(cs, chunks, rank, before, p) && (offer.Some? ==> offer.value in chunks)
    ensures Offered(cs, offer, rank, before, p) == OfferedOnce(cs, offer, rank, before, p)
    ensures MadeEarlier(OfferedOnce(cs, offer, rank, before, p), chunks, rank, before, p)
  {
    hide DistinctIds, AtMost;
    if offer.Some? {
      var k := Slot(cs, offer.value.id);
      if k < |cs| {
        SameChunk(chunks, cs[k].chunk, offer.value);
        TripleAtMost(cs[k].priority, Priority(offer.value, rank, before, p));
      }
    }
  }

  /** Seeds are visited in rank order, so no later offer of a chunk ever has a smaller priority. */
  lemma {:induction false} FirstOfferStands(chunks: seq<Chunk>, seeds: seq<Chunk>, p: Patterns)
    requires DistinctIds(chunks)
    ensures Collected(chunks, seeds, p) == CollectedOnce(chunks, seeds, p)
    ensures MadeEarlier(Collected(chunks, seeds, p), chunks, |seeds|, false, p)
  {
    if seeds != [] {
      hide DistinctIds, Beside, Offered, OfferedOnce, Made;
      var n := |seeds| - 1;
      FirstOfferStands(chunks, seeds[..n], p);
      var head := Collected(chunks, seeds[..n], p);
      var next, last := Beside(chunks, seeds[n].id, 1, p), Beside(chunks, seeds[n].id, -1, p);
      if next.Some? { BesideInCorpus(chunks, seeds[n].id, 1, p); }
      if last.Some? { BesideInCorpus(chunks, seeds[n].id, -1, p); }
      var after := OfferedOnce(head, next, n, false, p);
      OfferStands(chunks, head, next, n, false, p);
      MadeLater(after, chunks, n, p);
      OfferStands(chunks, after, last, n, true, p);
      MadeLater(OfferedOnce(after, last, n, true, p), chunks, n, p);
    }
  }

  lemma {:induction false} MadeLater(cs: seq<Candidate>, chunks: seq<Chunk>, rank: nat, p: Patterns)
    ensures MadeEarlier(cs, chunks, rank, false, p) ==> MadeEarlier(cs, chunks, rank, true, p)
    ensures MadeEarlier(cs, chunks, rank, true, p) ==> MadeEarlier(cs, chunks, rank + 1, false, p)
  {
  }

  predicate HasChunk(cs: seq<Candidate>, c: Chunk) { exists k :: 0 <= k < |cs| && cs[k].chunk == c }

  lemma {:induction false} OfferedHas(chunks: seq<Chunk>, cs: seq<Candidate>, offer: Option<Chunk>, rank: nat,
          before: bool, p: Patterns, c: Chunk)
    requires DistinctIds(chunks) && (forall k :: 0 <= k < |cs| ==> cs[k].chunk in chunks) && (offer.Some? ==> offer.value in chunks)
    ensures HasChunk(OfferedOnce(cs, offer, rank, before, p), c) <==> HasChunk(cs, c) || offer == Some(c)
    ensures forall k :: 0 <= k < |OfferedOnce(cs, offer, rank, before, p)| ==> OfferedOnce(cs, offer, rank, before, p)[k].chunk in chunks
  {
    hide DistinctIds, Priority;
    var r := OfferedOnce(cs, offer, rank, before, p);
    if offer.Some? && Slot(cs, offer.value.id) < |cs| {
      SameChunk(chunks, cs[Slot(cs, offer.value.id)].chunk, offer.value);
    } else if offer.Some? {
      assert r[|cs|].chunk == offer.value;
    }
    if HasChunk(cs, c) {
      var k :| 0 <= k < |cs| && cs[k].chunk == c;
      assert r[k].chunk == c;
    }
  }

  /** Some seed has the chunk beside it. */
  predicate BesideSeed(chunks: seq<Chunk>, seeds: seq<Chunk>, c: Chunk, p: Patterns) {
    exists k :: 0 <= k < |seeds| && (Shifted(chunks, seeds[k].id, 1, c, p) || Shifted(chunks, seeds[k].id, -1, c, p))
  }

  lemma {:induction false} CollectedHas(chunks: seq<Chunk>, seeds: seq<Chunk>, p: Patterns, c: Chunk)
    requires DistinctIds(chunks)
    ensures HasChunk(CollectedOnce(chunks, seeds, p), c) <==> BesideSeed(chunks, seeds, c, p)
    ensures forall k :: 0 <= k < |CollectedOnce(chunks, seeds, p)| ==> CollectedOnce(chunks, seeds, p)[k].chunk in chunks
  {
    if seeds != [] {
      hide DistinctIds, Beside, OfferedOnce, Offered, Shifted, HasChunk, Collected, MadeEarlier;
      var n := |seeds| - 1;
      CollectedHas(chunks, seeds[..n], p, c);
      var head := CollectedOnce(chunks, seeds[..n], p);
      var next, last := Beside(chunks, seeds[n].id, 1, p), Beside(chunks, seeds[n].id, -1, p);
      if next.Some? { BesideInCorpus(chunks, seeds[n].id, 1, p); }
      if last.Some? { BesideInCorpus(chunks, seeds[n].id, -1, p); }
      OfferedHas(chunks, head, next, n, false, p, c);
      OfferedHas(chunks, OfferedOnce(head, next, n, false, p), last, n, true, p, c);
      BesideIs(chunks, seeds[n].id, 1, c, p);
      BesideIs(chunks, seeds[n].id, -1, c, p);
      BesideSnoc(chunks, seeds, c, p);
    }
  }

  lemma {:induction false} BesideSnoc(chunks: seq<Chunk>, seeds: seq<Chunk>, c: Chunk, p: Patterns)
    requires seeds != []
    ensures var n := |seeds| - 1;
            BesideSeed(chunks, seeds, c, p) <==>
            (BesideSeed(chunks, seeds[..n], c, p) || Shifted(chunks, seeds[n].id, 1, c, p) || Shifted(chunks, seeds[n].id, -1, c, p))
  {
    hide Shifted;
    var n := |seeds| - 1;
    assert forall k :: 0 <= k < n ==> seeds[..n][k] == seeds[k];
  }

  /** The neighbours are exactly the chunks next to a seed in the page order of their own source. */
  lemma {:induction false} NeighboursAre(chunks: seq<Chunk>, seeds: seq<Chunk>, p: Patterns, c: Chunk)
    requires DistinctIds(chunks)
    ensures c in Neighbours(chunks, seeds, p) <==> NextToSeed(chunks, seeds, c, p)
  {
    var distinct := UniqueById(seeds);
    var cs := Collected(chunks, distinct, p);
    FirstOfferStands(chunks, distinct, p);
    CollectedHas(chunks, distinct, p, c);
    SortedChunks(cs, c);
    UniqueIds(seeds);
    BesideMeansNext(chunks, distinct, c, p);
    NextDependsOnIds(chunks, distinct, seeds, c, p);
  }

  lemma {:induction false} SortedChunks(cs: seq<Candidate>, c: Chunk)
    ensures c in ChunksOf(Sorted(cs, ByPriority)) <==> HasChunk(cs, c)
  {
    hide ByPriority, Sorted;
    var r := Sorted(cs, ByPriority);
    if c in ChunksOf(r) {
      var k :| 0 <= k < |r| && ChunksOf(r)[k] == c;
      SortedMembers(cs, ByPriority, r[k]);
      var i :| 0 <= i < |cs| && cs[i] == r[k];
    }
    if HasChunk(cs, c) {
      var i :| 0 <= i < |cs| && cs[i].chunk == c;
      SortedMembers(cs, ByPriority, cs[i]);
      var k :| 0 <= k < |r| && r[k] == cs[i];
      assert ChunksOf(r)[k] == c;
    }
  }

  lemma {:induction false} BesideMeansNext(chunks: seq<Chunk>, seeds: seq<Chunk>, c: Chunk, p: Patterns)
    ensures BesideSeed(chunks, seeds, c, p) <==> NextToSeed(chunks, seeds, c, p)
  {
    hide Group, Shifted, NextToSeed;
    if BesideSeed(chunks, seeds, c, p) {
      var k :| 0 <= k < |seeds| && (Shifted(chunks, seeds[k].id, 1, c, p) || Shifted(chunks, seeds[k].id, -1, c, p));
      ShiftedIsNext(chunks, seeds, k, if Shifted(chunks, seeds[k].id, 1, c, p) then 1 else -1, c, p);
    }
    if NextToSeed(chunks, seeds, c, p) {
      var k, delta := NextIsShifted(chunks, seeds, c, p);
    }
  }

  lemma {:induction false} ShiftedIsNext(chunks: seq<Chunk>, seeds: seq<Chunk>, k: nat, delta: int, c: Chunk,
          p: Patterns)
    requires k < |seeds| && (delta == 1 || delta == -1) && Shifted(chunks, seeds[k].id, delta, c, p)
    ensures NextToSeed(chunks, seeds, c, p)
  {
    hide Group;
    var group := Group(chunks, c.sourceId, p);
    var i :| 0 <= i < |group| && 0 <= i + delta < |group| && group[i].id == seeds[k].id && group[i + delta] == c;
    assert HasId(seeds, group[i].id);
  }

  lemma {:induction false} NextIsShifted(chunks: seq<Chunk>, seeds: seq<Chunk>, c: Chunk, p: Patterns)
    returns (k: nat, delta: int)
    requires NextToSeed(chunks, seeds, c, p)
    ensures k < |seeds| && (delta == 1 || delta == -1) && Shifted(chunks, seeds[k].id, delta, c, p)
  {
    hide Group;
    var group := Group(chunks, c.sourceId, p);
    var i, j :| 0 <= i < |group| && 0 <= j < |group| && (j == i + 1 || j == i - 1)
                && HasId(seeds, group[i].id) && group[j] == c;
    k :| 0 <= k < |seeds| && seeds[k].id == group[i].id;
    delta := j - i;
    assert group[i + delta] == c;
  }

  lemma {:induction false} NextDependsOnIds(chunks: seq<Chunk>, a: seq<Chunk>, b: seq<Chunk>, c: Chunk, p: Patterns)
    requires forall id :: HasId(a, id) <==> HasId(b, id)
    ensures NextToSeed(chunks, a, c, p) <==> NextToSeed(chunks, b, c, p)
  {
    hide Group, HasId;
  }

  // ---------- Setup paragraphs ----------

  /** A chosen setup paragraph is a paged chunk of the source with at least two distinct setup terms, and no such chunk
      that was not chosen comes strictly before it; fewer than three are chosen only when there are no more. */
  lemma {:induction false} FallbackBest(chunks: seq<Chunk>, source: string, p: Patterns, c: Chunk, d: Chunk)
    requires DistinctIds(chunks) && c in Fallback(chunks, source, p)
    ensures c in chunks && c.page.Some? && c.sourceId == source && |p.strong(c)| >= 2
    ensures (d in chunks && d.page.Some? && d.sourceId == source && |p.strong(d)| >= 2 && d !in Fallback(chunks, source, p))
            ==> |Fallback(chunks, source, p)| == 3 && BySetup(p)(c, d)
  {
    hide Group, Sorted, Pick, DistinctIds, BySetup, Preorder;
    var group := Group(chunks, source, p);
    var matches := Pick(group, Strong(p));
    var sorted := Sorted(matches, BySetup(p));
    GroupIs(chunks, source, p, c);
    GroupIs(chunks, source, p, d);
    PickIn(group, Strong(p), c);
    PickIn(group, Strong(p), d);
    SortedMembers(matches, BySetup(p), c);
    SortedMembers(matches, BySetup(p), d);
    SetupPreorder(p);
    SortedInOrder(matches, BySetup(p));
    if d in matches && d !in Fallback(chunks, source, p) {
      var i :| 0 <= i < |Fallback(chunks, source, p)| && Fallback(chunks, source, p)[i] == c;
      var j :| 0 <= j < |sorted| && sorted[j] == d;
      assert forall k :: 0 <= k < |Fallback(chunks, source, p)| ==>
               Fallback(chunks, source, p)[k] == sorted[k] && sorted[k] in Fallback(chunks, source, p);
      assert BySetup(p)(sorted[i], sorted[j]);
    }
  }

  lemma {:induction false} FallbacksAre(chunks: seq<Chunk>, sources: seq<string>, p: Patterns, c: Chunk)
    requires DistinctIds(chunks)
    ensures c in Fallbacks(chunks, sources, p) <==> c.sourceId in sources && c in Fallback(chunks, c.sourceId, p)
  {
    if sources != [] {
      hide Fallback, DistinctIds;
      var n := |sources| - 1;
      assert sources == sources[..n] + [sources[n]];
      FallbacksAre(chunks, sources[..n], p, c);
      if c in Fallback(chunks, sources[n], p) { FallbackBest(chunks, sources[n], p, c, c); }
    }
  }

  lemma {:induction false} SetupsAre(chunks: seq<Chunk>, seeds: seq<Chunk>, neighbours: seq<Chunk>, p: Patterns,
          c: Chunk)
    requires DistinctIds(chunks) && InCorpus(neighbours, chunks)
    ensures c in Setups(chunks, seeds, neighbours, p)
            <==> SetupOfSeed(chunks, seeds, c, p) || (c in neighbours && p.setup(c) > 0)
  {
    hide Fallback, DistinctIds, Sorted, Pick, UniqueById, BySetup, Alphabetical;
    var sources := Sorted(Unique(SourcesOf(seeds)), Alphabetical);
    var fallback := Fallbacks(chunks, sources, p);
    var both := fallback + Pick(neighbours, MentionsSetup(p));
    SortedMembers(Unique(SourcesOf(seeds)), Alphabetical, c.sourceId);
    FallbacksAre(chunks, sources, p, c);
    PickIn(neighbours, MentionsSetup(p), c);
    forall k | 0 <= k < |both| ensures both[k] in chunks {
      FallbacksAre(chunks, sources, p, both[k]);
      PickIn(neighbours, MentionsSetup(p), both[k]);
      if both[k] in fallback { FallbackBest(chunks, both[k].sourceId, p, both[k], both[k]); }
    }
    UniqueIn(chunks, both, c);
    SortedMembers(UniqueById(both), BySetup(p), c);
  }

  lemma {:induction false} AlternatedAre(a: seq<Chunk>, b: seq<Chunk>, n: nat, c: Chunk)
    ensures c in Alternated(a, b, n) <==> (exists k :: 0 <= k < |a| && k < n && a[k] == c)
                                          || (exists k :: 0 <= k < |b| && k < n && b[k] == c)
  {
    if n > 0 { AlternatedAre(a, b, n - 1, c); }
  }

  lemma {:induction false} ArrangedAre(chunks: seq<Chunk>, neighbours: seq<Chunk>, setups: seq<Chunk>, p: Patterns,
          c: Chunk)
    requires DistinctIds(chunks) && InCorpus(neighbours, chunks) && InCorpus(setups, chunks)
    ensures c in Arranged(neighbours, setups, p) <==> c in neighbours || c in setups
  {
    hide DistinctIds, Pick, UniqueById, FixedAndVaried, Alternated;
    var captions := Pick(neighbours, p.caption);
    var n := Max(|captions|, |setups|);
    var first, paired := Pick(setups, FixedAndVaried(p)), Alternated(captions, setups, n);
    var all := first + paired + neighbours;
    forall x ensures x in all <==> x in neighbours || x in setups {
      PickIn(setups, FixedAndVaried(p), x);
      PickIn(neighbours, p.caption, x);
      AlternatedAre(captions, setups, n, x);
    }
    forall k | 0 <= k < |all| ensures all[k] in chunks { assert all[k] in all; }
    UniqueIn(chunks, all, c);
  }

  /** The companions are exactly the immediate neighbours of the seeds, within their own source, and at most three setup
      paragraphs of each seed's source; nothing is reached from a companion, and each chunk is listed once. */
  lemma {:induction false} CompanionsExactly(chunks: seq<Chunk>, seeds: seq<Chunk>, p: Patterns, c: Chunk)
    requires DistinctIds(chunks)
    ensures c in CompanionsOf(chunks, seeds, p) <==> NextToSeed(chunks, seeds, c, p) || SetupOfSeed(chunks, seeds, c, p)
    ensures DistinctIds(CompanionsOf(chunks, seeds, p))
    ensures c in CompanionsOf(chunks, seeds, p) ==> c in chunks && c.page.Some?
  {
    hide DistinctIds, Group, Fallback, Neighbours, Setups, NextToSeed, SetupOfSeed, UniqueById, Pick, Alternated;
    var neighbours := Neighbours(chunks, seeds, p);
    var setups := Setups(chunks, seeds, neighbours, p);
    forall x | x in neighbours ensures x in chunks && x.page.Some? { NeighbourInCorpus(chunks, seeds, p, x); }
    forall x | x in setups ensures x in chunks && x.page.Some? {
      SetupsAre(chunks, seeds, neighbours, p, x);
      if SetupOfSeed(chunks, seeds, x, p) { SetupInCorpus(chunks, seeds, p, x); }
    }
    ArrangedAre(chunks, neighbours, setups, p, c);
    NeighboursAre(chunks, seeds, p, c);
    SetupsAre(chunks, seeds, neighbours, p, c);
    UniqueIds(Pick(setups, FixedAndVaried(p))
              + Alternated(Pick(neighbours, p.caption), setups, Max(|Pick(neighbours, p.caption)|, |setups|)) + neighbours);
  }

  lemma {:induction false} NeighbourInCorpus(chunks: seq<Chunk>, seeds: seq<Chunk>, p: Patterns, c: Chunk)
    requires DistinctIds(chunks) && c in Neighbours(chunks, seeds, p)
    ensures c in chunks && c.page.Some?
  {
    hide DistinctIds, Group, Neighbours;
    NeighboursAre(chunks, seeds, p, c);
    GroupIs(chunks, c.sourceId, p, c);
  }

  lemma {:induction false} SetupInCorpus(chunks: seq<Chunk>, seeds: seq<Chunk>, p: Patterns, c: Chunk)
    requires DistinctIds(chunks) && SetupOfSeed(chunks, seeds, c, p)
    ensures c in chunks && c.page.Some?
  {
    hide DistinctIds, Fallback;
    FallbackBest(chunks, c.sourceId, p, c, c);
  }

  /** Setup paragraphs that state both fixed and varied conditions come first, in the order of the setup key. */
  lemma {:induction false} AblationsLead(chunks: seq<Chunk>, seeds: seq<Chunk>, p: Patterns)
    requires DistinctIds(chunks)
    ensures var r := CompanionsOf(chunks, seeds, p);
            var first := Pick(Setups(chunks, seeds, Neighbours(chunks, seeds, p), p), FixedAndVaried(p));
            first <= r && InOrder(first, BySetup(p))
            && forall k :: |first| <= k < |r| ==> !FixedAndVaried(p)(r[k]) || !(r[k] in Setups(chunks, seeds, Neighbours(chunks, seeds, p), p))
  {
    hide DistinctIds, Group, Fallbacks, Neighbours, UniqueById, Pick, Alternated, Sorted, InOrder, BySetup,
         FixedAndVaried, Preorder;
    var neighbours := Neighbours(chunks, seeds, p);
    var setups := Setups(chunks, seeds, neighbours, p);
    var first := Pick(setups, FixedAndVaried(p));
    var captions := Pick(neighbours, p.caption);
    var rest := Alternated(captions, setups, Max(|captions|, |setups|)) + neighbours;
    var both := UniqueById(Fallbacks(chunks, Sorted(Unique(SourcesOf(seeds)), Alphabetical), p) + Pick(neighbours, MentionsSetup(p)));
    UniqueIds(Fallbacks(chunks, Sorted(Unique(SourcesOf(seeds)), Alphabetical), p) + Pick(neighbours, MentionsSetup(p)));
    SortedHasIds(both, BySetup(p));
    SetupPreorder(p);
    SortedInOrder(both, BySetup(p));
    PickSmaller(setups, FixedAndVaried(p), (x: Chunk) => 0);
    PickInOrder(setups, FixedAndVaried(p), BySetup(p));
    assert first + Alternated(captions, setups, Max(|captions|, |setups|)) + neighbours == first + rest;
    LeadsUnique(first, rest);
    var r := UniqueById(first + rest);
    UniqueIds(first + rest);
    forall k | |first| <= k < |r| ensures !FixedAndVaried(p)(r[k]) || !(r[k] in setups) {
      PickIn(setups, FixedAndVaried(p), r[k]);
      NotInPrefix(first, r, k);
    }
  }

  lemma {:induction false} NotInPrefix(first: seq<Chunk>, r: seq<Chunk>, k: nat)
    requires DistinctIds(r) && first <= r && |first| <= k < |r|
    ensures r[k] !in first
  {
    forall i | 0 <= i < |first| ensures first[i] != r[k] { assert first[i] == r[i] && r[i].id != r[k].id; }
  }

  lemma {:induction false} PickInOrder(chunks: seq<Chunk>, q: Chunk -> bool, below: (Chunk, Chunk) -> bool)
    requires InOrder(chunks, below)
    ensures InOrder(Pick(chunks, q), below)
  {
    if chunks != [] {
      var n := |chunks| - 1;
      PickInOrder(chunks[..n], q, below);
      PickSnoc(chunks, q);
      hide Pick;
      var head := Pick(chunks[..n], q);
      forall i | 0 <= i < |head| ensures below(head[i], chunks[n]) {
        PickIn(chunks[..n], q, head[i]);
        var j :| 0 <= j < n && chunks[..n][j] == head[i];
        assert below(chunks[j], chunks[n]);
      }
    } else {
      assert Pick(chunks, q) == [];
    }
  }

  lemma {:induction false} LeadsUnique(first: seq<Chunk>, rest: seq<Chunk>)
    requires DistinctIds(first)
    ensures first <= UniqueById(first + rest)
    decreases |rest|
  {
    if rest == [] {
      assert first + rest == first;
      UniqueOfDistinctIds(first);
    } else {
      var n := |rest| - 1;
      LeadsUnique(first, rest[..n]);
      assert (first + rest)[..|first + rest| - 1] == first + rest[..n];
    }
  }

  lemma {:induction false} UniqueSnoc(s: seq<Chunk>, c: Chunk)
    ensures UniqueById(s + [c]) == if HasId(UniqueById(s), c.id) then UniqueById(s) else UniqueById(s) + [c]
  {
    assert (s + [c])[..|s|] == s;
  }

  lemma {:induction false} UniqueOfDistinctIds(s: seq<Chunk>)
    requires DistinctIds(s)
    ensures UniqueById(s) == s
  {
    hide HasId, DistinctIds, UniqueById;
    if s == [] {
      NothingUnique();
    } else {
      var t, c := s[..|s| - 1], s[|s| - 1];
      LastIdNew(s);
      UniqueOfDistinctIds(t);
      UniqueSnoc(t, c);
      assert s == t + [c];
    }
  }

  lemma {:induction false} NothingUnique()
    ensures UniqueById([]) == []
  {
  }

  // ---------- What the keys say ----------

  ghost predicate FixesAndVaries(found: set<string>) { {"we fix", "vary"} <= found }

  ghost predicate GivesBothLengths(found: set<string>) {
    found * {"input tokens", "input prompt length"} != {} && found * {"output tokens", "output length"} != {}
  }

  /** By page, then by offset. */
  ghost predicate NoLater(a: Chunk, startOfA: int, b: Chunk, startOfB: int)
    requires a.page.Some? && b.page.Some?
  {
    a.page.value < b.page.value || (a.page.value == b.page.value && startOfA <= startOfB)
  }

  ghost function OffsetOr(c: Chunk, other: int): int { match c.charStart case Some(n) => n case None => other }

  lemma {:induction false} PairAtMost(a: seq<int>, b: seq<int>)
    requires |a| == |b| == 2
    ensures AtMost(a, b) <==> a[0] < b[0] || (a[0] == b[0] && a[1] <= b[1])
  {
    var x, y := a[1..], b[1..];
    assert x[0] == a[1] && y[0] == b[1] && x[1..] == [] && y[1..] == [];
    assert AtMost(x, y) <==> a[1] <= b[1];
  }

  lemma {:induction false} TripleMeans(a: seq<int>, b: seq<int>)
    requires |a| == |b| == 3
    ensures AtMost(a, b) <==> a[0] < b[0] || (a[0] == b[0] && (a[1] < b[1] || (a[1] == b[1] && a[2] <= b[2])))
  {
    PairAtMost(a[1..], b[1..]);
  }

  /** A group is in the order of page and offset; the offset in tokens stands in for a missing one. */
  lemma {:induction false} PageKeyMeans(p: Patterns, a: Chunk, b: Chunk)
    requires a.page.Some? && b.page.Some?
    ensures ByPage(p)(a, b) <==> NoLater(a, OffsetOr(a, p.tokenStart(a)), b, OffsetOr(b, p.tokenStart(b)))
  {
    PairAtMost(PageKey(p, a), PageKey(p, b));
  }

  /** A setup paragraph that states fixed and varied conditions goes first, then one that gives both lengths, then the
      one with more terms; source, page and offset decide the rest. */
  lemma {:induction false} SetupKeyMeans(p: Patterns, a: Chunk, b: Chunk)
    requires a.page.Some? && b.page.Some?
    ensures FixedAndVaried(p)(a) <==> FixesAndVaries(p.terms(a))
    ensures BySetup(p)(a, b)
            <==> if FixesAndVaries(p.terms(a)) != FixesAndVaries(p.terms(b)) then FixesAndVaries(p.terms(a))
                 else if GivesBothLengths(p.terms(a)) != GivesBothLengths(p.terms(b)) then GivesBothLengths(p.terms(a))
                 else if |p.terms(a)| != |p.terms(b)| then |p.terms(a)| > |p.terms(b)|
                 else if a.sourceId != b.sourceId then Before(a.sourceId, b.sourceId)
                 else NoLater(a, OffsetOr(a, 0), b, OffsetOr(b, 0))
  {
    hide AtMost;
    LengthsMean(p, a);
    LengthsMean(p, b);
    TripleMeans(SetupKey(p, a).head, SetupKey(p, b).head);
    PairAtMost(SetupKey(p, a).tail, SetupKey(p, b).tail);
  }

  lemma {:induction false} LengthsMean(p: Patterns, c: Chunk)
    ensures PairedLengths(p, c) <==> GivesBothLengths(p.terms(c))
    ensures FixedAndVaried(p)(c) <==> FixesAndVaries(p.terms(c))
  {
    var inputs, outputs := p.terms(c) * {"input tokens", "input prompt length"}, p.terms(c) * {"output tokens", "output length"};
    if "input tokens" in p.terms(c) { assert "input tokens" in inputs; }
    if "input prompt length" in p.terms(c) { assert "input prompt length" in inputs; }
    if "output tokens" in p.terms(c) { assert "output tokens" in outputs; }
    if "output length" in p.terms(c) { assert "output length" in outputs; }
    if inputs != {} { var x :| x in inputs; }
    if outputs != {} { var x :| x in outputs; }
  }

  // ---------- The order of the neighbours ----------

  /** The chunk stands just before, or just after, the seed of this rank. */
  ghost predicate BesideRank(chunks: seq<Chunk>, seeds: seq<Chunk>, c: Chunk, rank: int, before: bool, p: Patterns) {
    0 <= rank < |seeds| && Shifted(chunks, seeds[rank].id, if before then -1 else 1, c, p)
  }

  /** The first seed that has the chunk beside it; where both sides of one seed do, the side after it. */
  ghost predicate FirstBeside(chunks: seq<Chunk>, seeds: seq<Chunk>, c: Chunk, rank: int, before: bool, p: Patterns) {
    && BesideRank(chunks, seeds, c, rank, before, p)
    && forall r, b :: BesideRank(chunks, seeds, c, r, b, p) ==> rank < r || (rank == r && (before ==> b))
  }

  lemma {:induction false} NotCollected(chunks: seq<Chunk>, seeds: seq<Chunk>, p: Patterns, c: Chunk, r: int, b: bool)
    requires DistinctIds(chunks) && !HasChunk(CollectedOnce(chunks, seeds, p), c)
    ensures !BesideRank(chunks, seeds, c, r, b, p)
  {
    hide DistinctIds, Shifted, HasChunk, CollectedOnce;
    CollectedHas(chunks, seeds, p, c);
  }

  lemma {:induction false} EarlierRanks(chunks: seq<Chunk>, seeds: seq<Chunk>, c: Chunk, r: int, b: bool, p: Patterns)
    requires seeds != [] && r != |seeds| - 1
    ensures BesideRank(chunks, seeds, c, r, b, p) <==> BesideRank(chunks, seeds[..|seeds| - 1], c, r, b, p)
  {
    hide Shifted;
  }

  /** A candidate carries the number of setup terms, the rank and the side of its first offer. */
  lemma {:induction false} CollectedFirst(chunks: seq<Chunk>, seeds: seq<Chunk>, p: Patterns, k: nat)
    returns (rank: nat, before: bool)
    requires DistinctIds(chunks) && k < |CollectedOnce(chunks, seeds, p)|
    ensures var c := CollectedOnce(chunks, seeds, p)[k];
            FirstBeside(chunks, seeds, c.chunk, rank, before, p) && c.priority == Priority(c.chunk, rank, before, p)
  {
    hide DistinctIds, Shifted, Beside, Priority, HasChunk, BesideRank;
    var n := |seeds| - 1;
    var head := CollectedOnce(chunks, seeds[..n], p);
    var next, last := Beside(chunks, seeds[n].id, 1, p), Beside(chunks, seeds[n].id, -1, p);
    var after := OfferedOnce(head, next, n, false, p);
    var c := CollectedOnce(chunks, seeds, p)[k].chunk;
    if k < |head| {
      rank, before := CollectedFirst(chunks, seeds[..n], p, k);
      RankBound(chunks, seeds[..n], c, rank, before, p);
      EarlierRanks(chunks, seeds, c, rank, before, p);
      forall r, b | BesideRank(chunks, seeds, c, r, b, p) ensures rank < r || (rank == r && (before ==> b)) {
        RankBound(chunks, seeds, c, r, b, p);
        if r < n { EarlierRanks(chunks, seeds, c, r, b, p); }
      }
    } else {
      rank, before := n, k >= |after|;
      NewIsBeside(chunks, seeds, head, after, c, before, p);
      forall r, b | BesideRank(chunks, seeds, c, r, b, p) ensures n < r || (n == r && (before ==> b)) {
        RankBound(chunks, seeds, c, r, b, p);
        if r < n {
          EarlierRanks(chunks, seeds, c, r, b, p);
          NotCollected(chunks, seeds[..n], p, c, r, b);
        }
      }
    }
  }

  lemma {:induction false} RankBound(chunks: seq<Chunk>, seeds: seq<Chunk>, c: Chunk, r: int, b: bool, p: Patterns)
    ensures BesideRank(chunks, seeds, c, r, b, p) ==> 0 <= r < |seeds|
  {
    hide Shifted;
  }

  /** A chunk added by the last seed stands beside it, and was not a candidate before. */
  lemma {:induction false} NewIsBeside(chunks: seq<Chunk>, seeds: seq<Chunk>, head: seq<Candidate>,
          after: seq<Candidate>, c: Chunk, before: bool, p: Patterns)
    requires DistinctIds(chunks) && seeds != []
    requires var n := |seeds| - 1;
             && after == OfferedOnce(head, Beside(chunks, seeds[n].id, 1, p), n, false, p)
             && var cs := if before then after else head;
             Beside(chunks, seeds[n].id, if before then -1 else 1, p) == Some(c) && Slot(cs, c.id) == |cs|
    ensures BesideRank(chunks, seeds, c, |seeds| - 1, before, p) && !HasChunk(head, c)
    ensures before ==> !BesideRank(chunks, seeds, c, |seeds| - 1, false, p)
  {
    hide DistinctIds, Shifted, Beside, Priority;
    var n := |seeds| - 1;
    BesideIs(chunks, seeds[n].id, 1, c, p);
    BesideIs(chunks, seeds[n].id, -1, c, p);
  }

  /** Neighbours with more setup terms come first, counted up to eight; then the rank of the first seed beside them
      decides, and the chunk after a seed goes before the one that precedes it. */
  lemma {:induction false} NeighboursAscend(chunks: seq<Chunk>, seeds: seq<Chunk>, p: Patterns, i: nat, j: nat,
          rank: int, before: bool, otherRank: int, otherBefore: bool)
    requires DistinctIds(chunks) && i < j < |Neighbours(chunks, seeds, p)|
    requires FirstBeside(chunks, UniqueById(seeds), Neighbours(chunks, seeds, p)[i], rank, before, p)
    requires FirstBeside(chunks, UniqueById(seeds), Neighbours(chunks, seeds, p)[j], otherRank, otherBefore, p)
    ensures var near := Neighbours(chunks, seeds, p);
            var terms, others := p.setup(near[i]), p.setup(near[j]);
            || (others < terms && others < 8)
            || ((others == terms || (others >= 8 && terms >= 8))
                && (rank < otherRank || (rank == otherRank && (before ==> otherBefore))))
  {
    hide DistinctIds, BesideRank, UniqueById, Collected, CollectedOnce, Sorted, AtMost, Preorder, InOrder;
    var distinct := UniqueById(seeds);
    var cs := Collected(chunks, distinct, p);
    var sorted := Sorted(cs, ByPriority);
    FirstOfferStands(chunks, distinct, p);
    ByPriorityPreorder();
    SortedInOrder(cs, ByPriority);
    SortedAt(sorted, i, j);
    KeyOf(chunks, distinct, p, sorted[i], rank, before);
    KeyOf(chunks, distinct, p, sorted[j], otherRank, otherBefore);
    TripleMeans(sorted[i].priority, sorted[j].priority);
  }

  lemma {:induction false} SortedAt(s: seq<Candidate>, i: nat, j: nat)
    requires InOrder(s, ByPriority) && i < j < |s|
    ensures AtMost(s[i].priority, s[j].priority)
  {
    hide AtMost;
    assert ByPriority(s[i], s[j]);
  }

  lemma {:induction false} KeyOf(chunks: seq<Chunk>, distinct: seq<Chunk>, p: Patterns, c: Candidate, rank: int,
          before: bool)
    requires DistinctIds(chunks) && c in Sorted(CollectedOnce(chunks, distinct, p), ByPriority)
    requires FirstBeside(chunks, distinct, c.chunk, rank, before, p)
    ensures rank >= 0 && c.priority == [if p.setup(c.chunk) > 8 then -8 else 0 - p.setup(c.chunk), rank, if before then 1 else 0]
  {
    hide DistinctIds, BesideRank, CollectedOnce, Sorted;
    var cs := CollectedOnce(chunks, distinct, p);
    SortedMembers(cs, ByPriority, c);
    var k: nat :| k < |cs| && cs[k] == c;
    var r, b := CollectedFirst(chunks, distinct, p, k);
  }

  lemma {:induction false} ByPriorityPreorder()
    ensures Preorder(ByPriority)
  {
    hide AtMost;
    forall x: Candidate, y: Candidate ensures ByPriority(x, y) || ByPriority(y, x) { AtMostTotal(x.priority, y.priority); }
    forall x: Candidate, y: Candidate, z: Candidate | ByPriority(x, y) && ByPriority(y, z) ensures ByPriority(x, z) {
      AtMostTransitive(x.priority, y.priority, z.priority);
    }
  }

  // ---------- The order of the companions ----------

  /** `s` takes from `a` and `b` in turn, and goes on with the longer one once the other has ended. */
  ghost predicate InTurns(s: seq<Chunk>, a: seq<Chunk>, b: seq<Chunk>) {
    && |s| == |a| + |b|
    && (forall k :: 0 <= k < |a| ==> s[if k <= |b| then 2 * k else k + |b|] == a[k])
    && (forall k :: 0 <= k < |b| ==> s[if k < |a| then 2 * k + 1 else k + |a|] == b[k])
  }

  lemma {:induction false} AlternatedAt(a: seq<Chunk>, b: seq<Chunk>, n: nat)
    ensures |Alternated(a, b, n)| == Min(n, |a|) + Min(n, |b|)
    ensures forall k :: 0 <= k < |a| && k < n ==> Alternated(a, b, n)[if k <= |b| then 2 * k else k + |b|] == a[k]
    ensures forall k :: 0 <= k < |b| && k < n ==> Alternated(a, b, n)[if k < |a| then 2 * k + 1 else k + |a|] == b[k]
  {
    if n > 0 {
      hide Alternated;
      AlternatedAt(a, b, n - 1);
      AlternatedNext(a, b, n);
    }
  }

  lemma {:induction false} AlternatedNext(a: seq<Chunk>, b: seq<Chunk>, n: nat)
    requires n > 0
    ensures var s := Alternated(a, b, n - 1) + (if n - 1 < |a| then [a[n - 1]] else []);
            Alternated(a, b, n) == s + (if n - 1 < |b| then [b[n - 1]] else [])
  {
  }

  /** What stands first in `all` stands first in `s`. */
  ghost predicate InFirstPlaces(s: seq<Chunk>, all: seq<Chunk>) {
    forall i, j, m :: 0 <= i < j < |s| && 0 <= m < |all| && all[m] == s[j] ==> s[i] in all[..m]
  }

  lemma {:induction false} UniqueInPlaces(chunks: seq<Chunk>, all: seq<Chunk>)
    requires DistinctIds(chunks) && InCorpus(all, chunks)
    ensures InFirstPlaces(UniqueById(all), all)
  {
    if all != [] {
      hide DistinctIds, HasId;
      var n := |all| - 1;
      var head, r := UniqueById(all[..n]), UniqueById(all);
      UniqueInPlaces(chunks, all[..n]);
      forall i, j, m | 0 <= i < j < |r| && 0 <= m < |all| && all[m] == r[j] ensures r[i] in all[..m] {
        UniqueIn(chunks, all[..n], all[m]);
        UniqueIn(chunks, all[..n], r[i]);
        if m < n {
          assert all[..n][m] == all[m] && all[..n][..m] == all[..m];
          if j == |head| { LastIsNew(head, all[n], all[m]); }
        } else {
          assert r[i] in head;
          assert all[..n] == all[..m];
        }
      }
    }
  }

  lemma {:induction false} LastIsNew(head: seq<Chunk>, last: Chunk, other: Chunk)
    requires other in head && !HasId(head, last.id)
    ensures other != last
  {
    var i :| 0 <= i < |head| && head[i] == other;
  }

  /** Setup paragraphs that state fixed and varied conditions lead; then captions and setup paragraphs take turns, a
      caption first, and the other neighbours follow in their own order. */
  lemma {:induction false} CompanionOrder(chunks: seq<Chunk>, seeds: seq<Chunk>, p: Patterns)
    returns (turns: seq<Chunk>)
    requires DistinctIds(chunks)
    ensures var near := Neighbours(chunks, seeds, p);
            var setups := Setups(chunks, seeds, near, p);
            && InTurns(turns, Pick(near, p.caption), setups)
            && InFirstPlaces(CompanionsOf(chunks, seeds, p), Pick(setups, FixedAndVaried(p)) + turns + near)
  {
    hide DistinctIds, Neighbours, Setups, Pick, UniqueById, Alternated, FixedAndVaried, InFirstPlaces;
    var near := Neighbours(chunks, seeds, p);
    var setups := Setups(chunks, seeds, near, p);
    var captions := Pick(near, p.caption);
    turns := Alternated(captions, setups, Max(|captions|, |setups|));
    AlternatedAt(captions, setups, Max(|captions|, |setups|));
    var all := Pick(setups, FixedAndVaried(p)) + turns + near;
    forall k | 0 <= k < |all| ensures all[k] in chunks {
      PickIn(setups, FixedAndVaried(p), all[k]);
      PickIn(near, p.caption, all[k]);
      AlternatedAre(captions, setups, Max(|captions|, |setups|), all[k]);
      assert all[k] in all;
      ListedInCorpus(chunks, seeds, p, all[k]);
    }
    UniqueInPlaces(chunks, all);
  }

  lemma {:induction false} ListedInCorpus(chunks: seq<Chunk>, seeds: seq<Chunk>, p: Patterns, c: Chunk)
    requires DistinctIds(chunks)
    ensures c in Neighbours(chunks, seeds, p) ==> c in chunks
    ensures c in Setups(chunks, seeds, Neighbours(chunks, seeds, p), p) ==> c in chunks
  {
    hide DistinctIds, Neighbours, Setups, SetupOfSeed;
    var near := Neighbours(chunks, seeds, p);
    forall x | x in near ensures x in chunks { NeighbourInCorpus(chunks, seeds, p, x); }
    SetupsAre(chunks, seeds, near, p, c);
    if SetupOfSeed(chunks, seeds, c, p) { SetupInCorpus(chunks, seeds, p, c); }
  }
}
