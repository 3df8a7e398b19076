/** The Markdown of a report as the list of what it emits: claims, citation numbers, open gaps and
    references (`build_report_markdown` in rag/render.py). */
module Render {
  import opened Schema
  import opened Orders
  import opened Texts
  import opened Evidence
  import opened Reports
  import opened Conflicts
  import opened Contracts
  import Seqs

  // ---------- Sorting source ids ----------

  /** `sorted(set(ids))`. */
  function SortedIds(ids: seq<string>): seq<string> { Sorted(Unique(ids), Alphabetical) }

  lemma {:induction false} SortedIdsExact(ids: seq<string>)
    ensures Ascending(SortedIds(ids)) && Distinct(SortedIds(ids)) && ToSet(SortedIds(ids)) == ToSet(ids)
  {
    hide Sorted, Ascending;
    SortedAscends(Unique(ids));
    AscendingDistinct(SortedIds(ids));
    forall x ensures x in ToSet(SortedIds(ids)) <==> x in ToSet(ids) {
      SortedMembers(Unique(ids), Alphabetical, x);
    }
  }

  // ---------- Picking and grouping ----------

  function InCell(claims: Claims, technology: Technology, facet: string): string -> bool {
    (id: string) => id in claims && claims[id].claim.technology == technology && claims[id].claim.facet == facet
  }

  function OfBoth(claims: Claims): string -> bool {
    (id: string) => id in claims && claims[id].claim.technology == Both
  }

  function Unseen(seen: set<string>): string -> bool { (id: string) => id !in seen }

  /** The facets of the claims about one technology, in order of appearance, repetitions included. */
  function FacetsIn(ids: seq<string>, claims: Claims): seq<string> {
    if ids == [] then []
    else
      var id := ids[|ids| - 1];
      FacetsIn(ids[..|ids| - 1], claims)
      + (if id in claims && claims[id].claim.technology != Both then [claims[id].claim.facet] else [])
  }

  lemma {:induction false} FacetListed(ids: seq<string>, claims: Claims, id: string)
    requires id in ids && id in claims && claims[id].claim.technology != Both
    ensures claims[id].claim.facet in FacetsIn(ids, claims)
  {
    var n := |ids| - 1;
    if id != ids[n] {
      assert ids == ids[..n] + [ids[n]];
      FacetListed(ids[..n], claims, id);
    }
  }

  /** The claims of the rows for the given facets, row by row and column by column. */
  function TableIds(ids: seq<string>, claims: Claims, facets: seq<string>): seq<string> {
    if facets == [] then []
    else
      var f := facets[|facets| - 1];
      TableIds(ids, claims, facets[..|facets| - 1])
      + (Pick(ids, InCell(claims, Kivi, f)) + Pick(ids, InCell(claims, InfiniGen, f)))
  }

  lemma {:induction false} TableCount(ids: seq<string>, claims: Claims, facets: seq<string>, x: string)
    requires Distinct(facets)
    ensures multiset(TableIds(ids, claims, facets))[x] ==
            if x in claims && claims[x].claim.technology != Both && claims[x].claim.facet in facets then multiset(ids)[x] else 0
  {
    hide Pick;
    if facets != [] {
      var n := |facets| - 1;
      assert facets == facets[..n] + [facets[n]];
      TableCount(ids, claims, facets[..n], x);
      PickCount(ids, InCell(claims, Kivi, facets[n]), x);
      PickCount(ids, InCell(claims, InfiniGen, facets[n]), x);
    }
  }

  const TABLES := [MARKET, STAKEHOLDER, DOMAIN]

  /** The claims a section emits, in order. */
  function SectionIds(title: string, ids: seq<string>, claims: Claims): seq<string> {
    if title in TABLES && ids != []
    then TableIds(ids, claims, Unique(FacetsIn(ids, claims))) + Pick(ids, OfBoth(claims))
    else ids
  }

  /** Table or prose, a section emits exactly the claims it was given. */
  lemma {:induction false} SectionEmitsAll(title: string, ids: seq<string>, claims: Claims)
    requires AllKnown(ids, claims)
    ensures multiset(SectionIds(title, ids, claims)) == multiset(ids)
  {
    hide Pick, TableIds, Unique, FacetsIn;
    forall x ensures multiset(SectionIds(title, ids, claims))[x] == multiset(ids)[x] {
      var facets := Unique(FacetsIn(ids, claims));
      TableCount(ids, claims, facets, x);
      PickCount(ids, OfBoth(claims), x);
      if x in ids {
        var k :| 0 <= k < |ids| && ids[k] == x;
        if claims[x].claim.technology != Both { FacetListed(ids, claims, x); }
      }
    }
  }

  /** The claims of section `n` that no earlier section has named. */
  function FreshIds(sections: seq<Section>, n: nat): seq<string>
    requires n < |sections|
  {
    Unique(Pick(sections[n].claimIds, Unseen(ToSet(BodyIds(sections[..n])))))
  }

  function BodyEmitted(sections: seq<Section>, claims: Claims): seq<string> {
    if sections == [] then []
    else
      var n := |sections| - 1;
      BodyEmitted(sections[..n], claims) + SectionIds(sections[n].title, FreshIds(sections, n), claims)
  }

  lemma {:induction false} FreshExact(sections: seq<Section>, n: nat)
    requires n < |sections|
    ensures Distinct(FreshIds(sections, n))
    ensures forall id :: id in FreshIds(sections, n) <==> id in sections[n].claimIds && id !in ToSet(BodyIds(sections[..n]))
  {
    hide Unique, Pick;
    var picked := Pick(sections[n].claimIds, Unseen(ToSet(BodyIds(sections[..n]))));
    forall id ensures id in picked <==> id in sections[n].claimIds && id !in ToSet(BodyIds(sections[..n])) {
      PickCount(sections[n].claimIds, Unseen(ToSet(BodyIds(sections[..n]))), id);
      assert id in picked <==> multiset(picked)[id] > 0;
      assert id in sections[n].claimIds <==> multiset(sections[n].claimIds)[id] > 0;
    }
    forall id ensures id in FreshIds(sections, n) <==> id in picked {
      if id in picked { var k :| 0 <= k < |picked| && picked[k] == id; }
      if id in FreshIds(sections, n) { var k :| 0 <= k < |FreshIds(sections, n)| && FreshIds(sections, n)[k] == id; }
    }
  }

  /** Whatever its sections repeat, the body emits each of the claims they name exactly once. */
  lemma {:induction false} BodyEmitsOnce(sections: seq<Section>, claims: Claims, id: string)
    requires AllKnown(BodyIds(sections), claims)
    ensures multiset(BodyEmitted(sections, claims))[id] == if id in BodyIds(sections) then 1 else 0
  {
    hide SectionIds, FreshIds, ToSet;
    if sections != [] {
      var n := |sections| - 1;
      var head, tail := BodyIds(sections[..n]), sections[n].claimIds;
      KnownConcat(head, tail, claims);
      BodyEmitsOnce(sections[..n], claims, id);
      FreshExact(sections, n);
      var ids := FreshIds(sections, n);
      forall k | 0 <= k < |ids| ensures ids[k] in claims {
        assert ids[k] in ids;
        var j :| 0 <= j < |tail| && tail[j] == ids[k];
      }
      SectionEmitsAll(sections[n].title, ids, claims);
      DistinctCount(ids, id);
      assert id in ToSet(head) <==> id in head by { InSet(head, id); }
    }
  }

  lemma {:induction false} InSet(s: seq<string>, id: string)
    ensures id in ToSet(s) <==> id in s
  {
  }

  /** The body of a sound report emits every claim exactly once, and nothing else. */
  lemma {:induction false} SoundBodyEmitsEveryClaim(report: Report, claims: Claims, chunks: seq<Chunk>,
          gaps: Option<seq<GapRecord>>)
    requires ReportSound(report, claims, chunks, gaps)
    ensures multiset(BodyEmitted(report.sections, claims)) == multiset(claims.Keys)
  {
    hide SummarySound, SectionSound, SectionPlaced, DecisionsSound, AllGrounded, BodyEmitted, BodyIds;
    forall id: string ensures multiset(BodyEmitted(report.sections, claims))[id] == multiset(claims.Keys)[id] {
      BodyEmitsOnce(report.sections, claims, id);
      InSet(BodyIds(report.sections), id);
      if id in BodyIds(report.sections) {
        var k :| 0 <= k < |BodyIds(report.sections)| && BodyIds(report.sections)[k] == id;
      }
    }
  }

  // ---------- Lines ----------

  datatype Place = Page(page: int) | Heading(section: Option<string>)

  datatype Cite = Cite(number: nat, place: Place)

  datatype Entry = Entry(claimId: string, cites: seq<Cite>)

  datatype Line =
    | Summary(entry: Entry)
    | Title(title: string)
    | Row(facet: string, kivi: seq<Entry>, infinigen: seq<Entry>)
    | Prose(entry: Entry)
    | OpenGaps(text: string, gapIds: seq<string>)
    | NoOpenGaps
    | ConflictNote(id: string)
    | ReferenceLine(number: nat, sourceId: string)

  /** What the lines are written from; the sources are numbered by their position. */
  datatype Ink = Ink(claims: Claims, evidence: map<string, EvidenceRecord>, sources: seq<string>)

  /** The position of a source, counted from one; zero for a source that is not listed. */
  function NumberOf(sources: seq<string>, id: string): (n: nat)
    ensures n <= |sources|
  {
    if sources == [] then 0
    else if sources[|sources| - 1] == id then |sources|
    else NumberOf(sources[..|sources| - 1], id)
  }

  function CiteOf(e: EvidenceRecord, sources: seq<string>): Cite {
    Cite(NumberOf(sources, e.sourceId), if e.page.Some? && e.page.value != 0 then Page(e.page.value) else Heading(e.section))
  }

  function CitesOf(ids: seq<string>, ink: Ink): seq<Cite> {
    if ids == [] then []
    else
      var id := ids[|ids| - 1];
      CitesOf(ids[..|ids| - 1], ink) + (if id in ink.evidence then [CiteOf(ink.evidence[id], ink.sources)] else [])
  }

  function EntryFor(id: string, ink: Ink): Entry {
    Entry(id, if id in ink.claims then Unique(CitesOf(ink.claims[id].evidenceIds, ink)) else [])
  }

  function Entries(ids: seq<string>, ink: Ink): (es: seq<Entry>)
    ensures |es| == |ids|
  {
    seq(|ids|, k requires 0 <= k < |ids| => EntryFor(ids[k], ink))
  }

  function Proses(ids: seq<string>, ink: Ink): (ls: seq<Line>)
    ensures |ls| == |ids|
  {
    seq(|ids|, k requires 0 <= k < |ids| => Prose(EntryFor(ids[k], ink)))
  }

  function RowFor(ids: seq<string>, facet: string, ink: Ink): Line {
    Row(facet, Entries(Pick(ids, InCell(ink.claims, Kivi, facet)), ink), Entries(Pick(ids, InCell(ink.claims, InfiniGen, facet)), ink))
  }

  function Rows(ids: seq<string>, facets: seq<string>, ink: Ink): seq<Line> {
    if facets == [] then [] else Rows(ids, facets[..|facets| - 1], ink) + [RowFor(ids, facets[|facets| - 1], ink)]
  }

  function SectionLines(title: string, ids: seq<string>, ink: Ink): seq<Line> {
    if title in TABLES && ids != []
    then Rows(ids, Unique(FacetsIn(ids, ink.claims)), ink) + Proses(Pick(ids, OfBoth(ink.claims)), ink)
    else Proses(ids, ink)
  }

  // ---------- Open gaps ----------

  /** `decisions.get(id, {}).get("status")`: the last decision with the id. */
  function StatusOf(decisions: seq<GapDecision>, id: string): Option<string> {
    if decisions == [] then None
    else if decisions[|decisions| - 1].gapId == id then Some(decisions[|decisions| - 1].status)
    else StatusOf(decisions[..|decisions| - 1], id)
  }

  function Open(decisions: seq<GapDecision>): GapRecord -> bool {
    (g: GapRecord) => StatusOf(decisions, g.id) != Some("resolved")
  }

  function Saying(text: string): GapRecord -> bool { (g: GapRecord) => Strip(g.text) == text }

  function GapTexts(gaps: seq<GapRecord>): (ts: seq<string>)
    ensures |ts| == |gaps|
  {
    seq(|gaps|, k requires 0 <= k < |gaps| => Strip(gaps[k].text))
  }

  function GapGroups(gaps: seq<GapRecord>, texts: seq<string>): seq<Line> {
    if texts == [] then []
    else
      var t := texts[|texts| - 1];
      GapGroups(gaps, texts[..|texts| - 1]) + [OpenGaps(t, GapIds(Pick(gaps, Saying(t))))]
  }

  function GapLines(gaps: seq<GapRecord>, decisions: seq<GapDecision>): seq<Line> {
    var unresolved := Pick(gaps, Open(decisions));
    if unresolved == [] then [NoOpenGaps] else GapGroups(unresolved, Unique(GapTexts(unresolved)))
  }

  function ConflictLines(records: seq<ConflictRecord>): (ls: seq<Line>)
    ensures |ls| == |records|
  {
    seq(|records|, k requires 0 <= k < |records| => ConflictNote(records[k].id))
  }

  // ---------- The document ----------

  function Closing(title: string, report: Report, joined: Joined): seq<Line> {
    if title == SYNTHESIS then GapLines(joined.gapRecords, report.gapDecisions) + ConflictLines(joined.conflictRecords) else []
  }

  /** The lines of one section. */
  function Block(title: string, ids: seq<string>, report: Report, joined: Joined, ink: Ink): seq<Line> {
    [Title(title)] + SectionLines(title, ids, ink) + Closing(title, report, joined)
  }

  function BodyLines(sections: seq<Section>, report: Report, joined: Joined, ink: Ink): seq<Line> {
    if sections == [] then []
    else
      var n := |sections| - 1;
      BodyLines(sections[..n], report, joined, ink)
      + Block(sections[n].title, FreshIds(sections, n), report, joined, ink)
  }

  function References(sources: seq<string>): (ls: seq<Line>)
    ensures |ls| == |sources|
  {
    seq(|sources|, k requires 0 <= k < |sources| => ReferenceLine(k + 1, sources[k]))
  }

  function Summaries(ids: seq<string>, ink: Ink): (ls: seq<Line>)
    ensures |ls| == |ids|
  {
    seq(|ids|, k requires 0 <= k < |ids| => Summary(EntryFor(ids[k], ink)))
  }

  function DocumentLines(report: Report, joined: Joined, ink: Ink): seq<Line> {
    Summaries(report.summaryClaimIds, ink) + BodyLines(report.sections, report, joined, ink) + References(ink.sources)
  }

  function UsedClaims(report: Report): seq<string> { Unique(report.summaryClaimIds + BodyIds(report.sections)) }

  function EvidenceIdsOf(used: seq<string>, claims: Claims): seq<string> {
    if used == [] then []
    else
      var id := used[|used| - 1];
      EvidenceIdsOf(used[..|used| - 1], claims) + (if id in claims then claims[id].evidenceIds else [])
  }

  function UsedEvidence(report: Report, claims: Claims): seq<string> {
    Unique(EvidenceIdsOf(UsedClaims(report), claims))
  }

  function SourceIdsOf(used: seq<string>, evidence: map<string, EvidenceRecord>): seq<string> {
    if used == [] then []
    else
      var id := used[|used| - 1];
      SourceIdsOf(used[..|used| - 1], evidence) + (if id in evidence then [evidence[id].sourceId] else [])
  }

  function InkOf(report: Report, joined: Joined): Ink {
    var claims := Dict(joined.claims);
    Ink(claims, joined.evidence, SortedIds(SourceIdsOf(UsedEvidence(report, claims), joined.evidence)))
  }

  // ---------- What the lines emit ----------

  function LineEntries(l: Line): seq<Entry> {
    match l
    case Summary(e) => [e]
    case Row(_, kivi, infinigen) => kivi + infinigen
    case Prose(e) => [e]
    case _ => []
  }

  function EntriesIn(ls: seq<Line>): seq<Entry> {
    if ls == [] then [] else EntriesIn(ls[..|ls| - 1]) + LineEntries(ls[|ls| - 1])
  }

  lemma {:induction false} EntriesSnoc(ls: seq<Line>, l: Line)
    ensures EntriesIn(ls + [l]) == EntriesIn(ls) + LineEntries(l)
  {
    hide LineEntries;
    assert (ls + [l])[..|ls|] == ls;
  }

  lemma {:induction false} EntriesNone()
    ensures EntriesIn([]) == []
  {
  }

  lemma {:induction false} EntriesConcat(a: seq<Line>, b: seq<Line>)
    ensures EntriesIn(a + b) == EntriesIn(a) + EntriesIn(b)
  {
    hide LineEntries, EntriesIn;
    if b == [] {
      EntriesNone();
      assert a + b == a;
    } else {
      var n := |b| - 1;
      EntriesConcat(a, b[..n]);
      EntriesSnoc(a + b[..n], b[n]);
      EntriesSnoc(b[..n], b[n]);
      assert a + b == (a + b[..n]) + [b[n]] && b == b[..n] + [b[n]];
      Seqs.Assoc(EntriesIn(a), EntriesIn(b[..n]), LineEntries(b[n]));
    }
  }

  lemma {:induction false} NoEntries(ls: seq<Line>)
    requires forall k :: 0 <= k < |ls| ==> LineEntries(ls[k]) == []
    ensures EntriesIn(ls) == []
  {
    if ls != [] {
      NoEntries(ls[..|ls| - 1]);
    }
  }

  lemma {:induction false} MapConcat(a: seq<string>, b: seq<string>, ink: Ink)
    ensures Entries(a + b, ink) == Entries(a, ink) + Entries(b, ink)
  {
    hide EntryFor;
  }

  lemma {:induction false} MapSnoc(ids: seq<string>, ink: Ink)
    requires ids != []
    ensures var n := |ids| - 1;
            && Entries(ids, ink) == Entries(ids[..n], ink) + [EntryFor(ids[n], ink)]
            && Proses(ids, ink) == Proses(ids[..n], ink) + [Prose(EntryFor(ids[n], ink))]
            && Summaries(ids, ink) == Summaries(ids[..n], ink) + [Summary(EntryFor(ids[n], ink))]
  {
    hide EntryFor;
  }

  lemma {:induction false} NothingMapped(ink: Ink)
    ensures Entries([], ink) == [] && Proses([], ink) == [] && Summaries([], ink) == []
  {
  }

  lemma {:induction false} ProseEntries(ids: seq<string>, ink: Ink)
    ensures EntriesIn(Proses(ids, ink)) == Entries(ids, ink) && EntriesIn(Summaries(ids, ink)) == Entries(ids, ink)
  {
    hide EntryFor, Entries, Proses, Summaries, EntriesIn;
    if ids == [] {
      NothingMapped(ink);
      EntriesNone();
    } else {
      var n := |ids| - 1;
      ProseEntries(ids[..n], ink);
      MapSnoc(ids, ink);
      EntriesSnoc(Proses(ids[..n], ink), Prose(EntryFor(ids[n], ink)));
      EntriesSnoc(Summaries(ids[..n], ink), Summary(EntryFor(ids[n], ink)));
    }
  }

  lemma {:induction false} RowEntries(ids: seq<string>, facets: seq<string>, ink: Ink)
    ensures EntriesIn(Rows(ids, facets, ink)) == Entries(TableIds(ids, ink.claims, facets), ink)
  {
    hide EntryFor, Pick;
    if facets != [] {
      var n := |facets| - 1;
      RowEntries(ids, facets[..n], ink);
      var a, b := Pick(ids, InCell(ink.claims, Kivi, facets[n])), Pick(ids, InCell(ink.claims, InfiniGen, facets[n]));
      MapConcat(a, b, ink);
      MapConcat(TableIds(ids, ink.claims, facets[..n]), a + b, ink);
      var ls := Rows(ids, facets, ink);
      assert ls[..|ls| - 1] == Rows(ids, facets[..n], ink);
    }
  }

  lemma {:induction false} SectionEntries(title: string, ids: seq<string>, ink: Ink)
    ensures EntriesIn(SectionLines(title, ids, ink)) == Entries(SectionIds(title, ids, ink.claims), ink)
  {
    hide EntryFor, Pick, Entries, Rows, TableIds, Proses, EntriesIn;
    if title in TABLES && ids != [] {
      var facets, both := Unique(FacetsIn(ids, ink.claims)), Pick(ids, OfBoth(ink.claims));
      RowEntries(ids, facets, ink);
      ProseEntries(both, ink);
      EntriesConcat(Rows(ids, facets, ink), Proses(both, ink));
      MapConcat(TableIds(ids, ink.claims, facets), both, ink);
    } else {
      ProseEntries(ids, ink);
    }
  }

  lemma {:induction false} GroupsWithoutEntries(gaps: seq<GapRecord>, texts: seq<string>)
    ensures forall k :: 0 <= k < |GapGroups(gaps, texts)| ==> LineEntries(GapGroups(gaps, texts)[k]) == []
  {
    if texts != [] { GroupsWithoutEntries(gaps, texts[..|texts| - 1]); }
  }

  lemma {:induction false} ClosingEntries(title: string, report: Report, joined: Joined)
    ensures EntriesIn(Closing(title, report, joined)) == []
  {
    hide Pick, Open, Unique, GapTexts, GapGroups, EntriesIn;
    var unresolved := Pick(joined.gapRecords, Open(report.gapDecisions));
    GroupsWithoutEntries(unresolved, Unique(GapTexts(unresolved)));
    NoEntries(Closing(title, report, joined));
  }

  lemma {:induction false} EntriesConcat3(a: seq<Line>, b: seq<Line>, c: seq<Line>)
    ensures EntriesIn(a + b + c) == EntriesIn(a) + EntriesIn(b) + EntriesIn(c)
  {
    hide EntriesIn;
    EntriesConcat(a, b);
    EntriesConcat(a + b, c);
  }

  lemma {:induction false} BlockEntries(title: string, ids: seq<string>, report: Report, joined: Joined, ink: Ink)
    ensures EntriesIn(Block(title, ids, report, joined, ink)) == Entries(SectionIds(title, ids, ink.claims), ink)
  {
    hide EntryFor, Entries, SectionLines, SectionIds, Closing;
    SectionEntries(title, ids, ink);
    ClosingEntries(title, report, joined);
    NoEntries([Title(title)]);
    hide EntriesIn;
    EntriesConcat3([Title(title)], SectionLines(title, ids, ink), Closing(title, report, joined));
  }

  lemma {:induction false} BodyEntries(sections: seq<Section>, report: Report, joined: Joined, ink: Ink)
    ensures EntriesIn(BodyLines(sections, report, joined, ink)) == Entries(BodyEmitted(sections, ink.claims), ink)
  {
    hide EntryFor, EntriesIn, Entries, Block, SectionIds, FreshIds;
    if sections == [] {
      NoEntries([]);
      assert Entries([], ink) == [] by { NothingMapped(ink); }
    } else {
      var n := |sections| - 1;
      var title, ids := sections[n].title, FreshIds(sections, n);
      BodyEntries(sections[..n], report, joined, ink);
      BlockEntries(title, ids, report, joined, ink);
      EntriesConcat(BodyLines(sections[..n], report, joined, ink), Block(title, ids, report, joined, ink));
      MapConcat(BodyEmitted(sections[..n], ink.claims), SectionIds(title, ids, ink.claims), ink);
    }
  }

  lemma {:induction false} ReferencesShowNothing(ink: Ink)
    ensures EntriesIn(References(ink.sources)) == []
  {
    NoEntries(References(ink.sources));
  }

  /** The document's entries are the summary's claims and then the body's, each with its citations. */
  lemma {:induction false} DocumentEntries(report: Report, joined: Joined, ink: Ink)
    ensures EntriesIn(DocumentLines(report, joined, ink)) ==
            Entries(report.summaryClaimIds + BodyEmitted(report.sections, ink.claims), ink)
  {
    hide EntryFor, Entries, EntriesIn, BodyLines, BodyEmitted, Summaries, References;
    var body := BodyLines(report.sections, report, joined, ink);
    ProseEntries(report.summaryClaimIds, ink);
    BodyEntries(report.sections, report, joined, ink);
    ReferencesShowNothing(ink);
    EntriesConcat3(Summaries(report.summaryClaimIds, ink), body, References(ink.sources));
    MapConcat(report.summaryClaimIds, BodyEmitted(report.sections, ink.claims), ink);
  }

  // ---------- Citations and references ----------

  /** Every claim the report uses is known, and so is its evidence. */
  predicate Complete(report: Report, joined: Joined) {
    forall k :: 0 <= k < |UsedClaims(report)| ==>
      UsedClaims(report)[k] in Dict(joined.claims) && Backed(Dict(joined.claims)[UsedClaims(report)[k]], joined.evidence)
  }

  predicate Backed(record: ClaimRecord, evidence: map<string, EvidenceRecord>) {
    forall j :: 0 <= j < |record.evidenceIds| ==> record.evidenceIds[j] in evidence
  }

  lemma {:induction false} NumberExact(sources: seq<string>, id: string)
    requires id in sources
    ensures var n := NumberOf(sources, id); 1 <= n <= |sources| && sources[n - 1] == id
  {
    var n := |sources| - 1;
    if sources[n] != id {
      assert sources == sources[..n] + [sources[n]];
      NumberExact(sources[..n], id);
    }
  }

  lemma {:induction false} CiteOrigin(ids: seq<string>, ink: Ink, c: Cite)
    ensures c in CitesOf(ids, ink) <==>
              exists j :: 0 <= j < |ids| && ids[j] in ink.evidence && c == CiteOf(ink.evidence[ids[j]], ink.sources)
  {
    if ids != [] {
      hide CiteOf;
      var n := |ids| - 1;
      CiteOrigin(ids[..n], ink, c);
      assert forall j :: 0 <= j < n ==> ids[..n][j] == ids[j];
    }
  }

  lemma {:induction false} SourceOrigin(used: seq<string>, evidence: map<string, EvidenceRecord>, id: string)
    ensures id in SourceIdsOf(used, evidence) <==>
              exists k :: 0 <= k < |used| && used[k] in evidence && evidence[used[k]].sourceId == id
  {
    if used != [] {
      var n := |used| - 1;
      SourceOrigin(used[..n], evidence, id);
      assert forall k :: 0 <= k < n ==> used[..n][k] == used[k];
    }
  }

  lemma {:induction false} EvidenceIdOrigin(used: seq<string>, claims: Claims, e: string)
    ensures e in EvidenceIdsOf(used, claims) <==>
              exists k :: 0 <= k < |used| && used[k] in claims && e in claims[used[k]].evidenceIds
  {
    if used != [] {
      var n := |used| - 1;
      EvidenceIdOrigin(used[..n], claims, e);
      assert forall k :: 0 <= k < n ==> used[..n][k] == used[k];
    }
  }

  lemma {:induction false} UniqueMember<T>(s: seq<T>, x: T)
    ensures x in Unique(s) <==> x in s
  {
    hide Unique;
    if x in s { var k :| 0 <= k < |s| && s[k] == x; }
    if x in Unique(s) { var k :| 0 <= k < |Unique(s)| && Unique(s)[k] == x; }
  }

  /** A source is listed exactly when some used claim rests on evidence from it. */
  lemma {:induction false} SourceListed(report: Report, joined: Joined, id: string)
    ensures id in InkOf(report, joined).sources <==>
              exists e :: e in UsedEvidence(report, Dict(joined.claims)) && e in joined.evidence && joined.evidence[e].sourceId == id
  {
    hide Unique, SortedIds, Dict, UsedClaims, EvidenceIdsOf, SourceIdsOf;
    var used := UsedEvidence(report, Dict(joined.claims));
    var found := SourceIdsOf(used, joined.evidence);
    SortedIdsExact(found);
    SourceOrigin(used, joined.evidence, id);
    assert id in SortedIds(found) <==> id in ToSet(SortedIds(found));
    assert id in found <==> id in ToSet(found);
    if e :| e in used && e in joined.evidence && joined.evidence[e].sourceId == id {
      var k :| 0 <= k < |used| && used[k] == e;
    }
  }

  lemma {:induction false} EvidenceUsed(report: Report, claims: Claims, id: string, e: string)
    requires id in UsedClaims(report) && id in claims && e in claims[id].evidenceIds
    ensures e in UsedEvidence(report, claims)
  {
    hide UsedClaims, EvidenceIdsOf, Unique;
    var used := UsedClaims(report);
    EvidenceIdOrigin(used, claims, e);
    var k :| 0 <= k < |used| && used[k] == id;
    UniqueMember(EvidenceIdsOf(used, claims), e);
  }

  lemma {:induction false} ClaimUsed(report: Report, id: string)
    ensures id in UsedClaims(report) <==> id in report.summaryClaimIds || id in BodyIds(report.sections)
  {
    hide Unique, BodyIds;
    UniqueMember(report.summaryClaimIds + BodyIds(report.sections), id);
  }

  lemma {:induction false} BodyKnown(report: Report, joined: Joined)
    requires Complete(report, joined)
    ensures AllKnown(BodyIds(report.sections), Dict(joined.claims))
    ensures forall id :: id in UsedClaims(report) ==> id in Dict(joined.claims)
  {
    hide Dict, BodyIds, UsedClaims;
    forall id | id in UsedClaims(report) ensures id in Dict(joined.claims) {
      var k :| 0 <= k < |UsedClaims(report)| && UsedClaims(report)[k] == id;
    }
    forall k | 0 <= k < |BodyIds(report.sections)| ensures BodyIds(report.sections)[k] in Dict(joined.claims) {
      ClaimUsed(report, BodyIds(report.sections)[k]);
    }
  }

  /** The document states a claim exactly when the report uses it. */
  lemma {:induction false} StatedIffUsed(report: Report, joined: Joined, id: string)
    requires Complete(report, joined)
    ensures id in report.summaryClaimIds + BodyEmitted(report.sections, Dict(joined.claims)) <==> id in UsedClaims(report)
  {
    hide Dict, BodyIds, UsedClaims, BodyEmitted, Complete;
    BodyKnown(report, joined);
    BodyEmitsOnce(report.sections, Dict(joined.claims), id);
    ClaimUsed(report, id);
    var body := BodyEmitted(report.sections, Dict(joined.claims));
    assert id in body <==> multiset(body)[id] > 0;
  }

  /** The entry of a used claim cites a number exactly when its evidence rests on the reference with that number. */
  lemma {:induction false} EntryCites(report: Report, joined: Joined, id: string, n: nat)
    requires Complete(report, joined) && id in UsedClaims(report) && id in Dict(joined.claims)
    ensures var ink := InkOf(report, joined);
            (exists c :: c in EntryFor(id, ink).cites && c.number == n) <==>
            (1 <= n <= |ink.sources| && exists e :: e in ink.claims[id].evidenceIds && e in ink.evidence
                                                    && ink.evidence[e].sourceId == ink.sources[n - 1])
  {
    hide Dict, UsedClaims, Unique, CitesOf, NumberOf, SortedIds, SourceIdsOf, UsedEvidence;
    var ink := InkOf(report, joined);
    var ids := ink.claims[id].evidenceIds;
    forall e | e in ids && e in ink.evidence
      ensures 1 <= NumberOf(ink.sources, ink.evidence[e].sourceId) <= |ink.sources|
      ensures ink.sources[NumberOf(ink.sources, ink.evidence[e].sourceId) - 1] == ink.evidence[e].sourceId
      ensures exists c :: c in EntryFor(id, ink).cites && c.number == NumberOf(ink.sources, ink.evidence[e].sourceId)
    {
      EvidenceUsed(report, ink.claims, id, e);
      SourceListed(report, joined, ink.evidence[e].sourceId);
      NumberExact(ink.sources, ink.evidence[e].sourceId);
      var c := CiteOf(ink.evidence[e], ink.sources);
      CiteOrigin(ids, ink, c);
      var j :| 0 <= j < |ids| && ids[j] == e;
      UniqueMember(CitesOf(ids, ink), c);
      assert c in EntryFor(id, ink).cites;
    }
    if c :| c in EntryFor(id, ink).cites && c.number == n {
      UniqueMember(CitesOf(ids, ink), c);
      CiteOrigin(ids, ink, c);
    }
    if 1 <= n <= |ink.sources| {
      if e :| e in ids && e in ink.evidence && ink.evidence[e].sourceId == ink.sources[n - 1] {
        SourcesDistinct(report, joined);
        assert NumberOf(ink.sources, ink.evidence[e].sourceId) == n;
      }
    }
  }

  lemma {:induction false} SourcesDistinct(report: Report, joined: Joined)
    ensures var sources := InkOf(report, joined).sources;
            forall i, j :: 0 <= i < |sources| && 0 <= j < |sources| && sources[i] == sources[j] ==> i == j
  {
    SortedIdsExact(SourceIdsOf(UsedEvidence(report, Dict(joined.claims)), joined.evidence));
  }

  /** Every citation number in the document is the number of a listed reference. */
  lemma {:induction false} CitationsResolve(report: Report, joined: Joined, k: nat, c: Cite)
    requires Complete(report, joined)
    requires var lines := DocumentLines(report, joined, InkOf(report, joined));
             k < |EntriesIn(lines)| && c in EntriesIn(lines)[k].cites
    ensures var ink := InkOf(report, joined);
            1 <= c.number <= |ink.sources|
            && ReferenceLine(c.number, ink.sources[c.number - 1]) in DocumentLines(report, joined, ink)
  {
    hide Dict, UsedClaims, BodyEmitted, BodyLines, Summaries, InkOf, Complete, EntryFor, EntriesIn;
    var ink := InkOf(report, joined);
    DocumentEntries(report, joined, ink);
    assert ink.claims == Dict(joined.claims) by { InkClaims(report, joined); }
    var ids := report.summaryClaimIds + BodyEmitted(report.sections, ink.claims);
    StatedIffUsed(report, joined, ids[k]);
    BodyKnown(report, joined);
    EntryCites(report, joined, ids[k], c.number);
    assert References(ink.sources)[c.number - 1] == ReferenceLine(c.number, ink.sources[c.number - 1]);
  }

  lemma {:induction false} InkClaims(report: Report, joined: Joined)
    ensures InkOf(report, joined).claims == Dict(joined.claims) && InkOf(report, joined).evidence == joined.evidence
  {
  }

  /** Every listed reference is cited by some entry of the document. */
  lemma {:induction false} ReferencesCited(report: Report, joined: Joined, n: nat) returns (k: nat, c: Cite)
    requires Complete(report, joined) && 1 <= n <= |InkOf(report, joined).sources|
    ensures var entries := EntriesIn(DocumentLines(report, joined, InkOf(report, joined)));
            k < |entries| && c in entries[k].cites && c.number == n
  {
    hide Dict, UsedClaims, BodyEmitted, DocumentLines, InkOf, Complete, EntryFor, EntriesIn, EvidenceIdsOf, Unique;
    var ink := InkOf(report, joined);
    InkClaims(report, joined);
    SourceListed(report, joined, ink.sources[n - 1]);
    var e :| e in UsedEvidence(report, ink.claims) && e in ink.evidence && ink.evidence[e].sourceId == ink.sources[n - 1];
    UniqueMember(EvidenceIdsOf(UsedClaims(report), ink.claims), e);
    EvidenceIdOrigin(UsedClaims(report), ink.claims, e);
    var i :| 0 <= i < |UsedClaims(report)| && UsedClaims(report)[i] in ink.claims && e in ink.claims[UsedClaims(report)[i]].evidenceIds;
    var id := UsedClaims(report)[i];
    EntryCites(report, joined, id, n);
    c :| c in EntryFor(id, ink).cites && c.number == n;
    StatedIffUsed(report, joined, id);
    var ids := report.summaryClaimIds + BodyEmitted(report.sections, ink.claims);
    k :| 0 <= k < |ids| && ids[k] == id;
    DocumentEntries(report, joined, ink);
  }

  // ---------- Open gaps are listed once ----------

  function Grouped(gaps: seq<GapRecord>, texts: seq<string>): seq<GapRecord> {
    if texts == [] then [] else Grouped(gaps, texts[..|texts| - 1]) + Pick(gaps, Saying(texts[|texts| - 1]))
  }

  lemma {:induction false} GroupedCount(gaps: seq<GapRecord>, texts: seq<string>, g: GapRecord)
    requires Distinct(texts)
    ensures multiset(Grouped(gaps, texts))[g] == if Strip(g.text) in texts then multiset(gaps)[g] else 0
  {
    hide Pick, Strip;
    if texts != [] {
      var n := |texts| - 1;
      assert texts == texts[..n] + [texts[n]];
      GroupedCount(gaps, texts[..n], g);
      PickCount(gaps, Saying(texts[n]), g);
    }
  }

  /** The gap ids that a list of lines shows as open. */
  function ShownOpen(ls: seq<Line>): seq<string> {
    if ls == [] then []
    else ShownOpen(ls[..|ls| - 1]) + (if ls[|ls| - 1].OpenGaps? then ls[|ls| - 1].gapIds else [])
  }

  lemma {:induction false} GapIdsConcat(a: seq<GapRecord>, b: seq<GapRecord>)
    ensures GapIds(a + b) == GapIds(a) + GapIds(b)
  {
  }

  lemma {:induction false} ShownGroups(gaps: seq<GapRecord>, texts: seq<string>)
    ensures ShownOpen(GapGroups(gaps, texts)) == GapIds(Grouped(gaps, texts))
  {
    hide Pick, Strip;
    if texts != [] {
      var n := |texts| - 1;
      ShownGroups(gaps, texts[..n]);
      GapIdsConcat(Grouped(gaps, texts[..n]), Pick(gaps, Saying(texts[n])));
      var ls := GapGroups(gaps, texts);
      assert ls[..|ls| - 1] == GapGroups(gaps, texts[..n]);
    }
  }

  /** Gaps with the same text share a line, and every gap without a resolving decision is shown exactly once. */
  lemma {:induction false} OpenGapsShownOnce(gaps: seq<GapRecord>, decisions: seq<GapDecision>)
    returns (shown: seq<GapRecord>)
    ensures ShownOpen(GapLines(gaps, decisions)) == GapIds(shown)
    ensures forall g: GapRecord :: multiset(shown)[g] == if StatusOf(decisions, g.id) == Some("resolved") then 0 else multiset(gaps)[g]
  {
    hide Pick, Strip, Unique, StatusOf, GapGroups, Grouped;
    var unresolved := Pick(gaps, Open(decisions));
    forall g: GapRecord ensures multiset(unresolved)[g] == if StatusOf(decisions, g.id) == Some("resolved") then 0 else multiset(gaps)[g] {
      PickCount(gaps, Open(decisions), g);
    }
    shown := unresolved;
    if unresolved != [] {
      var texts := Unique(GapTexts(unresolved));
      shown := Grouped(unresolved, texts);
      ShownGroups(unresolved, texts);
      forall g: GapRecord ensures multiset(shown)[g] == multiset(unresolved)[g] {
        GroupedCount(unresolved, texts, g);
        if g in unresolved {
          var k :| 0 <= k < |unresolved| && unresolved[k] == g;
          UniqueMember(GapTexts(unresolved), Strip(g.text));
          assert GapTexts(unresolved)[k] == Strip(g.text);
        }
      }
    }
  }

  lemma {:induction false} ShownNone()
    ensures ShownOpen([]) == []
  {
  }

  lemma {:induction false} ShownSnoc(ls: seq<Line>, l: Line)
    ensures ShownOpen(ls + [l]) == ShownOpen(ls) + (if l.OpenGaps? then l.gapIds else [])
  {
    assert (ls + [l])[..|ls|] == ls;
  }

  lemma {:induction false} ShownConcat(a: seq<Line>, b: seq<Line>)
    ensures ShownOpen(a + b) == ShownOpen(a) + ShownOpen(b)
  {
    hide ShownOpen;
    if b == [] {
      ShownNone();
      assert a + b == a;
    } else {
      var c, l := b[..|b| - 1], b[|b| - 1];
      var shown := if l.OpenGaps? then l.gapIds else [];
      ShownConcat(a, c);
      ShownSnoc(a + c, l);
      ShownSnoc(c, l);
      assert b == c + [l] && a + b == (a + c) + [l];
      Seqs.Assoc(ShownOpen(a), ShownOpen(c), shown);
    }
  }

  lemma {:induction false} NothingShown(ls: seq<Line>)
    requires forall k :: 0 <= k < |ls| ==> !ls[k].OpenGaps?
    ensures ShownOpen(ls) == []
  {
    if ls != [] { NothingShown(ls[..|ls| - 1]); }
  }

  lemma {:induction false} RowsShowNone(ids: seq<string>, facets: seq<string>, ink: Ink)
    ensures forall k :: 0 <= k < |Rows(ids, facets, ink)| ==> !Rows(ids, facets, ink)[k].OpenGaps?
  {
    if facets != [] { RowsShowNone(ids, facets[..|facets| - 1], ink); }
  }

  lemma {:induction false} SectionShowsNone(title: string, ids: seq<string>, ink: Ink)
    ensures ShownOpen(SectionLines(title, ids, ink)) == []
  {
    RowsShowNone(ids, Unique(FacetsIn(ids, ink.claims)), ink);
    hide Rows, Unique, FacetsIn, Pick, EntryFor;
    NothingShown(SectionLines(title, ids, ink));
  }

  /** A section shows the open gaps exactly when it is the one about conflicts and limits. */
  lemma {:induction false} BlockShows(title: string, ids: seq<string>, report: Report, joined: Joined, ink: Ink)
    ensures ShownOpen(Block(title, ids, report, joined, ink)) ==
            if title == SYNTHESIS then ShownOpen(GapLines(joined.gapRecords, report.gapDecisions)) else []
  {
    hide ShownOpen, SectionLines, GapLines;
    var gaps, notes := GapLines(joined.gapRecords, report.gapDecisions), ConflictLines(joined.conflictRecords);
    NothingShown([Title(title)]);
    SectionShowsNone(title, ids, ink);
    NothingShown(notes);
    ShownNone();
    ShownConcat([Title(title)], SectionLines(title, ids, ink));
    ShownConcat([Title(title)] + SectionLines(title, ids, ink), Closing(title, report, joined));
    ShownConcat(gaps, notes);
  }

  lemma {:induction false} NothingStated()
    ensures !StatesConflicts([])
  {
  }

  lemma {:induction false} StatesSnoc(sections: seq<Section>)
    requires sections != [] && Distinct(Titles(sections))
    ensures var n := |sections| - 1;
            && Distinct(Titles(sections[..n]))
            && (StatesConflicts(sections) <==> StatesConflicts(sections[..n]) || sections[n].title == SYNTHESIS)
            && (sections[n].title == SYNTHESIS ==> !StatesConflicts(sections[..n]))
  {
    var n := |sections| - 1;
    assert Titles(sections[..n]) == Titles(sections)[..n];
    assert forall k :: 0 <= k < n ==> sections[..n][k] == sections[k];
    forall k | 0 <= k < n ensures sections[k].title != sections[n].title {
      assert Titles(sections)[k] != Titles(sections)[n];
    }
  }

  lemma {:induction false} BodyShows(sections: seq<Section>, report: Report, joined: Joined, ink: Ink)
    requires Distinct(Titles(sections))
    ensures ShownOpen(BodyLines(sections, report, joined, ink)) ==
            if StatesConflicts(sections) then ShownOpen(GapLines(joined.gapRecords, report.gapDecisions)) else []
  {
    hide ShownOpen, Block, GapLines, FreshIds, StatesConflicts, Distinct;
    if sections == [] {
      ShownNone();
      NothingStated();
    } else {
      var n := |sections| - 1;
      StatesSnoc(sections);
      BodyShows(sections[..n], report, joined, ink);
      BlockShows(sections[n].title, FreshIds(sections, n), report, joined, ink);
      ShownConcat(BodyLines(sections[..n], report, joined, ink), Block(sections[n].title, FreshIds(sections, n), report, joined, ink));
    }
  }

  lemma {:induction false} SoundStatesConflicts(report: Report, claims: Claims, chunks: seq<Chunk>,
          gaps: Option<seq<GapRecord>>)
    requires ReportSound(report, claims, chunks, gaps)
    ensures Distinct(Titles(report.sections)) && StatesConflicts(report.sections)
  {
    hide SummarySound, SectionSound, SectionPlaced, DecisionsSound, AllGrounded, AllKnown, BodyIds;
    assert TITLES == Titles(report.sections) && report.sections[4].title == Titles(report.sections)[4] == SYNTHESIS;
    TitlesDistinct();
  }

  /** The document of a sound report shows every gap without a resolving decision exactly once, and no other gap. */
  lemma {:induction false} DocumentShowsOpenGaps(report: Report, joined: Joined, ink: Ink, claims: Claims,
          chunks: seq<Chunk>, known: Option<seq<GapRecord>>)
    returns (shown: seq<GapRecord>)
    requires ReportSound(report, claims, chunks, known)
    ensures ShownOpen(DocumentLines(report, joined, ink)) == GapIds(shown)
    ensures forall g: GapRecord :: multiset(shown)[g] ==
              if StatusOf(report.gapDecisions, g.id) == Some("resolved") then 0 else multiset(joined.gapRecords)[g]
  {
    hide ReportSound, ShownOpen, BodyLines, GapLines, StatesConflicts, StatusOf, Distinct;
    SoundStatesConflicts(report, claims, chunks, known);
    BodyShows(report.sections, report, joined, ink);
    var first, body, last := Summaries(report.summaryClaimIds, ink), BodyLines(report.sections, report, joined, ink), References(ink.sources);
    NothingShown(first);
    NothingShown(last);
    ShownConcat(first, body);
    ShownConcat(first + body, last);
    shown := OpenGapsShownOnce(joined.gapRecords, report.gapDecisions);
  }

  // ---------- Building the document ----------

  datatype Markdown = Markdown(lines: seq<Line>, usedClaims: seq<string>, usedEvidence: seq<string>, usedSources: seq<string>)

  const SUMMARY_LIMIT := 1200

  method TableRows(ids: seq<string>, ink: Ink) returns (lines: seq<Line>)
    ensures lines == Rows(ids, Unique(FacetsIn(ids, ink.claims)), ink)
  {
    hide Pick, Entries, Unique, FacetsIn;
    var order := Unique(FacetsIn(ids, ink.claims));
    lines := [];
    for f := 0 to |order|
      invariant lines == Rows(ids, order[..f], ink)
    {
      var kivi := Entries(Pick(ids, InCell(ink.claims, Kivi, order[f])), ink);
      var infinigen := Entries(Pick(ids, InCell(ink.claims, InfiniGen, order[f])), ink);
      assert order[..f + 1][..f] == order[..f];
      lines := lines + [Row(order[f], kivi, infinigen)];
    }
    assert order[..|order|] == order;
  }

  method OpenGapLines(gaps: seq<GapRecord>, decisions: seq<GapDecision>) returns (lines: seq<Line>)
    ensures lines == GapLines(gaps, decisions)
  {
    hide Pick, Unique, Strip, StatusOf;
    var unresolved := Pick(gaps, Open(decisions));
    if unresolved == [] {
      return [NoOpenGaps];
    }
    var texts := Unique(GapTexts(unresolved));
    lines := [];
    for t := 0 to |texts|
      invariant lines == GapGroups(unresolved, texts[..t])
    {
      assert texts[..t + 1][..t] == texts[..t];
      lines := lines + [OpenGaps(texts[t], GapIds(Pick(unresolved, Saying(texts[t]))))];
    }
    assert texts[..|texts|] == texts;
  }

  /** Some section states the conflicts. */
  predicate StatesConflicts(sections: seq<Section>) { exists n :: 0 <= n < |sections| && sections[n].title == SYNTHESIS }

  /** What the document needs: every used claim, its evidence and its sources known, a short summary, and sound conflict
      records where they are stated. */
  predicate Renders(report: Report, joined: Joined, sources: set<string>, summaryLength: nat, names: Naming) {
    && Complete(report, joined) && summaryLength <= SUMMARY_LIMIT && ToSet(InkOf(report, joined).sources) <= sources
    && (StatesConflicts(report.sections) ==> ConflictsHold(joined, names))
  }

  /** The Markdown is refused exactly when the document does not render. */
  method BuildReportMarkdown(report: Report, joined: Joined, sources: set<string>, summaryLength: nat, names: Naming)
    returns (r: Outcome<Markdown>)
    ensures r.Done? <==> Renders(report, joined, sources, summaryLength, names)
    ensures r.Done? ==> r.value == Markdown(DocumentLines(report, joined, InkOf(report, joined)), UsedClaims(report),
                                            UsedEvidence(report, Dict(joined.claims)), InkOf(report, joined).sources)
    ensures r.Raised? ==> r.code == InvalidResponse
  {
    hide Complete, Dict, UsedClaims, UsedEvidence, BodyIds, Unique, Pick, SectionLines, GapLines, SortedIds, FacetsIn,
         Rows, ToSet, RecordsSound, Built, ConflictBasis;
    if !Complete(report, joined) || summaryLength > SUMMARY_LIMIT {
      return Raised(InvalidResponse);
    }
    var ink := InkOf(report, joined);
    var seen: set<string> := {};
    var body: seq<Line> := [];
    NothingSeen();
    for n := 0 to |report.sections|
      invariant seen == ToSet(BodyIds(report.sections[..n]))
      invariant body == BodyLines(report.sections[..n], report, joined, ink)
      invariant StatesConflicts(report.sections[..n]) ==> ConflictsHold(joined, names)
    {
      var title := report.sections[n].title;
      var ids := Unique(Pick(report.sections[n].claimIds, Unseen(seen)));
      assert report.sections[..n + 1][..n] == report.sections[..n];
      assert ids == FreshIds(report.sections[..n + 1], n);
      SeenSnoc(report.sections, n);
      seen := seen + ToSet(ids);
      var block := [Title(title)];
      if title in TABLES && ids != [] {
        var rows := TableRows(ids, ink);
        block := block + (rows + Proses(Pick(ids, OfBoth(ink.claims)), ink));
      } else {
        block := block + Proses(ids, ink);
      }
      assert block == [Title(title)] + SectionLines(title, ids, ink) by { SectionIs(title, ids, ink); }
      if title == SYNTHESIS {
        var gaps := OpenGapLines(joined.gapRecords, report.gapDecisions);
        var errors := ConflictRecordErrors(joined.conflictRecords, joined.claims, ConflictBasis(joined), names);
        if errors != [] {
          return Raised(InvalidResponse);
        }
        block := block + (gaps + ConflictLines(joined.conflictRecords));
      } else {
        block := block + [];
      }
      body := body + block;
    }
    assert report.sections[..|report.sections|] == report.sections;
    if !(ToSet(ink.sources) <= sources) {
      return Raised(InvalidResponse);
    }
    r := Done(Markdown(Summaries(report.summaryClaimIds, ink) + body + References(ink.sources), UsedClaims(report),
                       UsedEvidence(report, ink.claims), ink.sources));
  }

  lemma {:induction false} SectionIs(title: string, ids: seq<string>, ink: Ink)
    ensures SectionLines(title, ids, ink) ==
            if title in TABLES && ids != []
            then Rows(ids, Unique(FacetsIn(ids, ink.claims)), ink) + Proses(Pick(ids, OfBoth(ink.claims)), ink)
            else Proses(ids, ink)
  {
  }

  lemma {:induction false} NothingSeen()
    ensures ToSet(BodyIds([])) == {}
  {
  }

  lemma {:induction false} SeenSnoc(sections: seq<Section>, n: nat)
    requires n < |sections|
    ensures ToSet(BodyIds(sections[..n + 1])) ==
            ToSet(BodyIds(sections[..n])) + ToSet(Unique(Pick(sections[n].claimIds, Unseen(ToSet(BodyIds(sections[..n]))))))
  {
    hide Unique, Pick;
    assert sections[..n + 1][..n] == sections[..n];
    var head, tail := BodyIds(sections[..n]), sections[n].claimIds;
    FreshExact(sections, n);
    var ids := FreshIds(sections, n);
    forall id ensures id in ToSet(head + tail) <==> id in ToSet(head) + ToSet(ids) {
      assert id in ToSet(ids) <==> id in ids;
      assert id in ToSet(head) <==> id in head;
    }
  }
}
