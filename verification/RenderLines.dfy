/** Which lines a rendered report consists of and what each of them says (`build_report_markdown` in rag/render.py). */
module RenderLines {
  import opened Schema
  import opened Orders
  import opened Texts
  import opened Evidence
  import opened Reports
  import opened Conflicts
  import opened Contracts
  import opened Render

  // ---------- Citations ----------

  /** A physical page where the record has one, and the section otherwise; page zero counts as none. */
  ghost predicate StandsAt(p: Place, e: EvidenceRecord) {
    match e.page
    case Some(n) => if n == 0 then p == Heading(e.section) else p == Page(n)
    case None => p == Heading(e.section)
  }

  /** A citation of a used claim names the number of the source of one of its evidence records and the place of that
      record, and every record of the claim is cited. */
  lemma {:induction false} CitationSays(report: Report, joined: Joined, id: string, c: Cite)
    requires Complete(report, joined) && id in UsedClaims(report) && id in Dict(joined.claims)
    ensures var ink := InkOf(report, joined);
            c in EntryFor(id, ink).cites <==>
              && 1 <= c.number <= |ink.sources|
              && exists e :: e in ink.claims[id].evidenceIds && e in ink.evidence
                             && ink.evidence[e].sourceId == ink.sources[c.number - 1] && StandsAt(c.place, ink.evidence[e])
  {
    hide Dict, UsedClaims, Unique, CitesOf, NumberOf, SortedIds, SourceIdsOf, UsedEvidence, StandsAt, CiteOf;
    var ink := InkOf(report, joined);
    var ids := ink.claims[id].evidenceIds;
    UniqueMember(CitesOf(ids, ink), c);
    CiteOrigin(ids, ink, c);
    SourcesDistinct(report, joined);
    forall e | e in ids && e in ink.evidence
      ensures c == CiteOf(ink.evidence[e], ink.sources) <==>
              && 1 <= c.number <= |ink.sources| && ink.evidence[e].sourceId == ink.sources[c.number - 1]
              && StandsAt(c.place, ink.evidence[e])
    {
      EvidenceUsed(report, ink.claims, id, e);
      SourceListed(report, joined, ink.evidence[e].sourceId);
      CiteMeans(ink.evidence[e], ink.sources, c);
    }
    if e :| e in ids && e in ink.evidence && c == CiteOf(ink.evidence[e], ink.sources) {
      var j :| 0 <= j < |ids| && ids[j] == e;
    }
  }

  lemma {:induction false} CiteMeans(e: EvidenceRecord, sources: seq<string>, c: Cite)
    requires e.sourceId in sources
    requires forall i, j :: 0 <= i < |sources| && 0 <= j < |sources| && sources[i] == sources[j] ==> i == j
    ensures c == CiteOf(e, sources) <==>
            1 <= c.number <= |sources| && e.sourceId == sources[c.number - 1] && StandsAt(c.place, e)
  {
    hide NumberOf;
    NumberExact(sources, e.sourceId);
    var n := NumberOf(sources, e.sourceId);
    if 1 <= c.number <= |sources| && e.sourceId == sources[c.number - 1] {
      assert sources[c.number - 1] == sources[n - 1];
    }
    assert c == Cite(c.number, c.place);
  }

  // ---------- Tables ----------

  ghost predicate Tabled(title: string) { title == "시장성" || title == "이해관계자" || title == "도메인 적용" }

  ghost predicate About(id: string, claims: Claims, technology: Technology) {
    id in claims && claims[id].claim.technology == technology
  }

  /** The cell holds the entries of the listed claims about the technology that state the facet, and no other. */
  ghost predicate Cell(entries: seq<Entry>, ids: seq<string>, technology: Technology, facet: string, ink: Ink) {
    forall e :: e in entries <==>
                  && e == EntryFor(e.claimId, ink) && e.claimId in ids
                  && About(e.claimId, ink.claims, technology) && ink.claims[e.claimId].claim.facet == facet
  }

  lemma {:induction false} CellIs(ids: seq<string>, technology: Technology, facet: string, ink: Ink)
    ensures Cell(Entries(Pick(ids, InCell(ink.claims, technology, facet)), ink), ids, technology, facet, ink)
  {
    hide Pick, CitesOf, Unique;
    var picked := Pick(ids, InCell(ink.claims, technology, facet));
    forall e ensures e in Entries(picked, ink) <==>
                       && e == EntryFor(e.claimId, ink) && e.claimId in ids
                       && About(e.claimId, ink.claims, technology) && ink.claims[e.claimId].claim.facet == facet
    {
      PickMember(ids, InCell(ink.claims, technology, facet), e.claimId);
      EntriesHave(picked, ink, e);
    }
  }

  lemma {:induction false} EntriesHave(ids: seq<string>, ink: Ink, e: Entry)
    ensures e in Entries(ids, ink) <==> e == EntryFor(e.claimId, ink) && e.claimId in ids
  {
    hide CitesOf, Unique;
    var es := Entries(ids, ink);
    assert forall k :: 0 <= k < |ids| ==> es[k] == EntryFor(ids[k], ink) && es[k].claimId == ids[k];
    if e.claimId in ids && e == EntryFor(e.claimId, ink) {
      var k :| 0 <= k < |ids| && ids[k] == e.claimId;
      assert es[k] == e;
    }
  }

  lemma {:induction false} RowsAre(ids: seq<string>, facets: seq<string>, ink: Ink, l: Line)
    ensures l in Rows(ids, facets, ink) <==> exists f :: f in facets && l == RowFor(ids, f, ink)
  {
    hide RowFor;
    if facets != [] {
      var n := |facets| - 1;
      RowsAre(ids, facets[..n], ink, l);
      assert facets == facets[..n] + [facets[n]];
    }
  }

  ghost predicate OneSided(id: string, claims: Claims) { About(id, claims, Kivi) || About(id, claims, InfiniGen) }

  lemma {:induction false} FacetsAre(ids: seq<string>, claims: Claims, f: string)
    ensures f in FacetsIn(ids, claims) <==>
            exists id :: id in ids && OneSided(id, claims) && claims[id].claim.facet == f
  {
    if ids != [] {
      var n := |ids| - 1;
      FacetsAre(ids[..n], claims, f);
      assert ids == ids[..n] + [ids[n]];
    }
  }

  // ---------- Gaps ----------

  /** The last decision on the gap resolves it. */
  ghost predicate Resolved(decisions: seq<GapDecision>, id: string) {
    exists k :: 0 <= k < |decisions| && decisions[k].gapId == id && decisions[k].status == "resolved"
                && forall m :: k < m < |decisions| ==> decisions[m].gapId != id
  }

  lemma {:induction false} StatusMeans(decisions: seq<GapDecision>, id: string)
    ensures StatusOf(decisions, id) == Some("resolved") <==> Resolved(decisions, id)
  {
    if decisions != [] {
      var n := |decisions| - 1;
      var t := decisions[..n];
      StatusMeans(t, id);
      if decisions[n].gapId == id {
        if decisions[n].status == "resolved" { assert Resolved(decisions, id); }
      } else {
        if Resolved(t, id) {
          var k :| 0 <= k < n && t[k].gapId == id && t[k].status == "resolved"
                   && forall m :: k < m < n ==> t[m].gapId != id;
          assert forall m :: k < m < n ==> decisions[m] == t[m];
          assert decisions[k].gapId == id;
        }
        if Resolved(decisions, id) {
          var k :| 0 <= k < |decisions| && decisions[k].gapId == id && decisions[k].status == "resolved"
                   && forall m :: k < m < |decisions| ==> decisions[m].gapId != id;
          assert t[k].gapId == id;
        }
      }
    }
  }

  ghost predicate OpenGap(g: GapRecord, gaps: seq<GapRecord>, decisions: seq<GapDecision>) {
    g in gaps && !Resolved(decisions, g.id)
  }

  /** The line names exactly the open gaps that say the text. */
  ghost predicate NamesOpen(text: string, ids: seq<string>, gaps: seq<GapRecord>, decisions: seq<GapDecision>) {
    forall id :: id in ids <==> exists g :: OpenGap(g, gaps, decisions) && g.id == id && Strip(g.text) == text
  }

  lemma {:induction false} GapIdsHave(gaps: seq<GapRecord>, id: string)
    ensures id in GapIds(gaps) <==> exists g :: g in gaps && g.id == id
  {
    if g :| g in gaps && g.id == id {
      var k :| 0 <= k < |gaps| && gaps[k] == g;
      assert GapIds(gaps)[k] == id;
    }
  }

  lemma {:induction false} GroupsAre(gaps: seq<GapRecord>, texts: seq<string>, l: Line)
    ensures l in GapGroups(gaps, texts) <==>
            exists t :: t in texts && l == OpenGaps(t, GapIds(Pick(gaps, Saying(t))))
  {
    hide Pick, Strip, GapIds;
    if texts != [] {
      var n := |texts| - 1;
      GroupsAre(gaps, texts[..n], l);
      assert texts == texts[..n] + [texts[n]];
    }
  }

  lemma {:induction false} OpenAre(gaps: seq<GapRecord>, decisions: seq<GapDecision>, g: GapRecord)
    ensures g in Pick(gaps, Open(decisions)) <==> OpenGap(g, gaps, decisions)
  {
    hide Pick, StatusOf, Resolved;
    StatusMeans(decisions, g.id);
    PickMember(gaps, Open(decisions), g);
  }

  lemma {:induction false} GroupNames(gaps: seq<GapRecord>, decisions: seq<GapDecision>, text: string)
    ensures NamesOpen(text, GapIds(Pick(Pick(gaps, Open(decisions)), Saying(text))), gaps, decisions)
  {
    hide Pick, Strip, OpenGap, GapIds;
    var unresolved := Pick(gaps, Open(decisions));
    var said := Pick(unresolved, Saying(text));
    forall g ensures g in said <==> OpenGap(g, gaps, decisions) && Strip(g.text) == text {
      PickMember(unresolved, Saying(text), g);
      OpenAre(gaps, decisions, g);
    }
    forall id ensures id in GapIds(said) <==> exists g :: g in said && g.id == id { GapIdsHave(said, id); }
  }

  lemma {:induction false} TextsHave(gaps: seq<GapRecord>, t: string)
    ensures t in Unique(Render.GapTexts(gaps)) <==> exists g :: g in gaps && Strip(g.text) == t
  {
    hide Strip, Unique;
    var ts := Render.GapTexts(gaps);
    assert forall k :: 0 <= k < |gaps| ==> ts[k] == Strip(gaps[k].text);
    UniqueMember(ts, t);
    if g :| g in gaps && Strip(g.text) == t {
      var k :| 0 <= k < |gaps| && gaps[k] == g;
      assert ts[k] == t;
    }
  }

  /** The gap block has one line for each text that an open gap says, naming all that say it; or it says that nothing is
      open. */
  lemma {:induction false} GapLinesSay(gaps: seq<GapRecord>, decisions: seq<GapDecision>, l: Line)
    ensures l in GapLines(gaps, decisions) ==> l.NoOpenGaps? || l.OpenGaps?
    ensures NoOpenGaps in GapLines(gaps, decisions) <==> forall g :: !OpenGap(g, gaps, decisions)
    ensures l in GapLines(gaps, decisions) && l.OpenGaps? ==>
              NamesOpen(l.text, l.gapIds, gaps, decisions) && exists g :: OpenGap(g, gaps, decisions) && Strip(g.text) == l.text
    ensures forall g :: OpenGap(g, gaps, decisions) ==>
              exists k :: 0 <= k < |GapLines(gaps, decisions)|
                          && GapLines(gaps, decisions)[k].OpenGaps? && GapLines(gaps, decisions)[k].text == Strip(g.text)
  {
    hide Pick, Strip, OpenGap, NamesOpen, GapIds, GapGroups;
    var unresolved := Pick(gaps, Open(decisions));
    forall g ensures g in unresolved <==> OpenGap(g, gaps, decisions) { OpenAre(gaps, decisions, g); }
    var texts := Unique(Render.GapTexts(unresolved));
    if unresolved == [] {
    } else {
      assert OpenGap(unresolved[0], gaps, decisions) by { assert unresolved[0] in unresolved; }
      GroupsAre(unresolved, texts, l);
      GroupsAre(unresolved, texts, NoOpenGaps);
      if l in GapLines(gaps, decisions) {
        var t :| t in texts && l == OpenGaps(t, GapIds(Pick(unresolved, Saying(t))));
        GroupNames(gaps, decisions, t);
        TextsHave(unresolved, t);
      }
      forall g | OpenGap(g, gaps, decisions)
        ensures exists k :: 0 <= k < |GapLines(gaps, decisions)|
                  && GapLines(gaps, decisions)[k].OpenGaps? && GapLines(gaps, decisions)[k].text == Strip(g.text)
      {
        var t := Strip(g.text);
        var line := OpenGaps(t, GapIds(Pick(unresolved, Saying(t))));
        TextsHave(unresolved, t);
        GroupsAre(unresolved, texts, line);
        var k :| 0 <= k < |GapLines(gaps, decisions)| && GapLines(gaps, decisions)[k] == line;
      }
    }
  }

  // ---------- The lines of a document ----------

  /** What a line of the document says. */
  ghost predicate Says(l: Line, report: Report, joined: Joined, ink: Ink) {
    var sections := report.sections;
    match l
    case Summary(e) => e.claimId in report.summaryClaimIds && e == EntryFor(e.claimId, ink)
    case Title(title) => exists s :: s in sections && s.title == title
    case Row(f, kivi, infinigen) => exists n :: 0 <= n < |sections| && RowSays(sections, n, f, kivi, infinigen, ink)
    case Prose(e) => exists n :: 0 <= n < |sections| && ProseSays(sections, n, e, ink)
    case OpenGaps(text, ids) =>
      HasLimits(sections) && NamesOpen(text, ids, joined.gapRecords, report.gapDecisions)
      && exists g :: OpenGap(g, joined.gapRecords, report.gapDecisions) && Strip(g.text) == text
    case NoOpenGaps => HasLimits(sections) && forall g :: !OpenGap(g, joined.gapRecords, report.gapDecisions)
    case ConflictNote(id) => HasLimits(sections) && exists r :: r in joined.conflictRecords && r.id == id
    case ReferenceLine(n, id) => 1 <= n <= |ink.sources| && id == ink.sources[n - 1]
  }

  ghost predicate HasLimits(sections: seq<Section>) { exists s :: s in sections && s.title == "관점 간 상충과 한계" }

  /** Claims of a comparison about a facet, side by side; at least one side has a claim. */
  ghost predicate RowSays(sections: seq<Section>, n: nat, facet: string, kivi: seq<Entry>, infinigen: seq<Entry>,
          ink: Ink)
    requires n < |sections|
  {
    && Tabled(sections[n].title) && Cell(kivi, FreshIds(sections, n), Kivi, facet, ink)
    && Cell(infinigen, FreshIds(sections, n), InfiniGen, facet, ink) && |kivi| + |infinigen| > 0
  }

  /** A claim in full; in a comparison only one about both technologies. */
  ghost predicate ProseSays(sections: seq<Section>, n: nat, e: Entry, ink: Ink)
    requires n < |sections|
  {
    && e.claimId in FreshIds(sections, n) && e == EntryFor(e.claimId, ink)
    && (Tabled(sections[n].title) ==> About(e.claimId, ink.claims, Both))
  }

  lemma {:induction false} TabledMeans(title: string)
    ensures title in TABLES <==> Tabled(title)
  {
    assert TABLES[0] == MARKET && TABLES[1] == STAKEHOLDER && TABLES[2] == DOMAIN;
  }

  lemma {:induction false} RowSides(ids: seq<string>, facet: string, ink: Ink)
    requires facet in FacetsIn(ids, ink.claims)
    ensures var l := RowFor(ids, facet, ink); |l.kivi| + |l.infinigen| > 0
  {
    hide Pick, EntryFor, Cell;
    FacetsAre(ids, ink.claims, facet);
    var id :| id in ids && OneSided(id, ink.claims) && ink.claims[id].claim.facet == facet;
    PickMember(ids, InCell(ink.claims, Kivi, facet), id);
    PickMember(ids, InCell(ink.claims, InfiniGen, facet), id);
  }

  lemma {:induction false} SectionSays(sections: seq<Section>, n: nat, ink: Ink, l: Line)
    requires n < |sections| && l in SectionLines(sections[n].title, FreshIds(sections, n), ink)
    ensures l.Row? || l.Prose?
    ensures l.Row? ==> RowSays(sections, n, l.facet, l.kivi, l.infinigen, ink)
    ensures l.Prose? ==> ProseSays(sections, n, l.entry, ink)
  {
    hide FreshIds, Rows, RowFor, Proses, Pick, FacetsIn, Unique, Cell, EntryFor, Tabled;
    var title, ids := sections[n].title, FreshIds(sections, n);
    TabledMeans(title);
    if title in TABLES && ids != [] {
      var facets, both := Unique(FacetsIn(ids, ink.claims)), Pick(ids, OfBoth(ink.claims));
      RowsAre(ids, facets, ink, l);
      if l in Rows(ids, facets, ink) {
        var f :| f in facets && l == RowFor(ids, f, ink);
        UniqueMember(FacetsIn(ids, ink.claims), f);
        RowSides(ids, f, ink);
        CellIs(ids, Kivi, f, ink);
        CellIs(ids, InfiniGen, f, ink);
        RowParts(ids, f, ink);
      } else {
        ProseOf(both, ink, l);
        PickMember(ids, OfBoth(ink.claims), l.entry.claimId);
      }
    } else {
      ProseOf(ids, ink, l);
    }
  }

  lemma {:induction false} RowParts(ids: seq<string>, f: string, ink: Ink)
    ensures var l := RowFor(ids, f, ink);
            && l.Row? && l.facet == f && l.kivi == Entries(Pick(ids, InCell(ink.claims, Kivi, f)), ink)
            && l.infinigen == Entries(Pick(ids, InCell(ink.claims, InfiniGen, f)), ink)
  {
  }

  lemma {:induction false} ProseOf(ids: seq<string>, ink: Ink, l: Line)
    requires l in Proses(ids, ink)
    ensures l.Prose? && l.entry.claimId in ids && l.entry == EntryFor(l.entry.claimId, ink)
  {
    hide CitesOf, Unique;
    var ls := Proses(ids, ink);
    var k :| 0 <= k < |ls| && ls[k] == l;
    assert ls[k] == Prose(EntryFor(ids[k], ink));
  }

  lemma {:induction false} ClosingSays(sections: seq<Section>, n: nat, report: Report, joined: Joined, ink: Ink,
          l: Line)
    requires n < |sections| && sections == report.sections && l in Closing(sections[n].title, report, joined)
    ensures Says(l, report, joined, ink)
  {
    hide GapLines, NamesOpen, OpenGap, Strip, GapIds;
    assert sections[n] in sections;
    GapLinesSay(joined.gapRecords, report.gapDecisions, l);
    if l !in GapLines(joined.gapRecords, report.gapDecisions) {
      var notes := ConflictLines(joined.conflictRecords);
      var k :| 0 <= k < |notes| && notes[k] == l;
      assert joined.conflictRecords[k] in joined.conflictRecords;
    }
  }

  lemma {:induction false} BlockSays(report: Report, n: nat, joined: Joined, ink: Ink, l: Line)
    requires n < |report.sections|
    requires l in Block(report.sections[n].title, FreshIds(report.sections, n), report, joined, ink)
    ensures Says(l, report, joined, ink)
  {
    hide Closing, SectionLines, RowSays, ProseSays, FreshIds;
    var sections := report.sections;
    if l in SectionLines(sections[n].title, FreshIds(sections, n), ink) {
      SectionSays(sections, n, ink, l);
    } else if l in Closing(sections[n].title, report, joined) {
      ClosingSays(sections, n, report, joined, ink, l);
    } else {
      assert sections[n] in sections;
    }
  }

  lemma {:induction false} FreshPrefix(sections: seq<Section>, m: nat, n: nat)
    requires n < m <= |sections|
    ensures FreshIds(sections[..m], n) == FreshIds(sections, n)
  {
    assert sections[..m][..n] == sections[..n];
  }

  lemma {:induction false} BodySays(report: Report, m: nat, joined: Joined, ink: Ink, l: Line)
    requires m <= |report.sections| && l in BodyLines(report.sections[..m], report, joined, ink)
    ensures Says(l, report, joined, ink)
  {
    hide Block, Says, FreshIds;
    var n := m - 1;
    var sections := report.sections[..m];
    assert sections[..n] == report.sections[..n] && sections[n] == report.sections[n];
    if l in BodyLines(report.sections[..n], report, joined, ink) {
      BodySays(report, n, joined, ink, l);
    } else {
      FreshPrefix(report.sections, m, n);
      BlockSays(report, n, joined, ink, l);
    }
  }

  /** Every line of the document says what the report holds: a claim of the summary, a section's title, a comparison row
      with the claims of either technology on its own side, a claim in full, the open gaps of a text, a conflict, or a
      listed source under its number. */
  lemma {:induction false} LinesSay(report: Report, joined: Joined, ink: Ink, l: Line)
    requires l in DocumentLines(report, joined, ink)
    ensures Says(l, report, joined, ink)
  {
    hide BodyLines, EntryFor, RowSays, ProseSays, NamesOpen, OpenGap;
    var first, body, last := Summaries(report.summaryClaimIds, ink), BodyLines(report.sections, report, joined, ink),
                             References(ink.sources);
    if l in body {
      assert report.sections[..|report.sections|] == report.sections;
      BodySays(report, |report.sections|, joined, ink, l);
    } else if l in first {
      var k :| 0 <= k < |first| && first[k] == l;
      EntryNames(report.summaryClaimIds[k], ink);
    } else {
      var k :| 0 <= k < |last| && last[k] == l;
    }
  }

  lemma {:induction false} EntryNames(id: string, ink: Ink)
    ensures EntryFor(id, ink).claimId == id
  {
  }

  // ---------- The order of the document ----------

  ghost function TitlesIn(ls: seq<Line>): seq<string> {
    if ls == [] then [] else TitlesIn(ls[..|ls| - 1]) + (if ls[|ls| - 1].Title? then [ls[|ls| - 1].title] else [])
  }

  ghost function NotesIn(ls: seq<Line>): seq<string> {
    if ls == [] then [] else NotesIn(ls[..|ls| - 1]) + (if ls[|ls| - 1].ConflictNote? then [ls[|ls| - 1].id] else [])
  }

  lemma {:induction false} TitlesConcat(a: seq<Line>, b: seq<Line>)
    ensures TitlesIn(a + b) == TitlesIn(a) + TitlesIn(b)
    ensures NotesIn(a + b) == NotesIn(a) + NotesIn(b)
  {
    if b == [] {
      assert a + b == a;
    } else {
      var n := |b| - 1;
      TitlesConcat(a, b[..n]);
      assert (a + b)[..|a + b| - 1] == a + b[..n] && (a + b)[|a + b| - 1] == b[n];
    }
  }

  lemma {:induction false} NoTitles(ls: seq<Line>)
    requires forall k :: 0 <= k < |ls| ==> !ls[k].Title?
    ensures TitlesIn(ls) == []
    ensures (forall k :: 0 <= k < |ls| ==> !ls[k].ConflictNote?) ==> NotesIn(ls) == []
  {
    if ls != [] { NoTitles(ls[..|ls| - 1]); }
  }

  lemma {:induction false} NotesOf(records: seq<ConflictRecord>)
    ensures NotesIn(ConflictLines(records)) == ConflictIds(records) && TitlesIn(ConflictLines(records)) == []
  {
    if records != [] {
      var n := |records| - 1;
      NotesOf(records[..n]);
      assert ConflictLines(records)[..n] == ConflictLines(records[..n]);
      assert ConflictIds(records) == ConflictIds(records[..n]) + [records[n].id];
    }
  }

  lemma {:induction false} BlockTitles(sections: seq<Section>, n: nat, report: Report, joined: Joined, ink: Ink)
    requires n < |sections|
    ensures var block := Block(sections[n].title, FreshIds(sections, n), report, joined, ink);
            && TitlesIn(block) == [sections[n].title]
            && NotesIn(block) == if sections[n].title == SYNTHESIS then ConflictIds(joined.conflictRecords) else []
  {
    hide FreshIds, SectionLines, GapLines, TitlesIn, NotesIn, RowSays, ProseSays, ConflictLines;
    var title, gaps := sections[n].title, GapLines(joined.gapRecords, report.gapDecisions);
    var lines, notes := SectionLines(title, FreshIds(sections, n), ink), ConflictLines(joined.conflictRecords);
    forall k | 0 <= k < |lines| ensures !lines[k].Title? && !lines[k].ConflictNote? { SectionSays(sections, n, ink, lines[k]); }
    forall k | 0 <= k < |gaps| ensures !gaps[k].Title? && !gaps[k].ConflictNote? {
      GapLinesSay(joined.gapRecords, report.gapDecisions, gaps[k]);
    }
    NoTitles(lines);
    NoTitles(gaps);
    NotesOf(joined.conflictRecords);
    TitlesConcat([Title(title)], lines);
    TitlesConcat([Title(title)] + lines, Closing(title, report, joined));
    TitlesConcat(gaps, notes);
    OneTitle(title);
  }

  lemma {:induction false} OneTitle(title: string)
    ensures TitlesIn([Title(title)]) == [title] && NotesIn([Title(title)]) == [] && TitlesIn([]) == [] && NotesIn([]) == []
  {
    assert [Title(title)][..0] == [];
  }

  lemma {:induction false} BodyTitles(sections: seq<Section>, report: Report, joined: Joined, ink: Ink)
    requires Distinct(Titles(sections))
    ensures TitlesIn(BodyLines(sections, report, joined, ink)) == Titles(sections)
    ensures NotesIn(BodyLines(sections, report, joined, ink)) ==
            if StatesConflicts(sections) then ConflictIds(joined.conflictRecords) else []
  {
    hide Block, FreshIds, TitlesIn, NotesIn, StatesConflicts, Distinct;
    if sections == [] {
      OneTitle("");
      NothingStated();
    } else {
      var n := |sections| - 1;
      StatesSnoc(sections);
      BodyTitles(sections[..n], report, joined, ink);
      BlockTitles(sections, n, report, joined, ink);
      TitlesConcat(BodyLines(sections[..n], report, joined, ink),
                   Block(sections[n].title, FreshIds(sections, n), report, joined, ink));
      assert Titles(sections) == Titles(sections[..n]) + [sections[n].title];
    }
  }

  /** The summary comes first, in its own order; the sections follow in theirs, the conflicts in that of their records,
      and the sources close the document, numbered in ascending order. */
  lemma {:induction false} DocumentOrder(report: Report, joined: Joined)
    requires Distinct(Titles(report.sections)) && StatesConflicts(report.sections)
    ensures var ink := InkOf(report, joined);
            var lines := DocumentLines(report, joined, ink);
            var first, last := |report.summaryClaimIds|, |lines| - |ink.sources|;
            && 0 <= first <= last
            && (forall k :: 0 <= k < first ==> lines[k] == Summary(EntryFor(report.summaryClaimIds[k], ink)))
            && (forall k :: 0 <= k < |ink.sources| ==> lines[last + k] == ReferenceLine(k + 1, ink.sources[k]))
            && Ascending(ink.sources)
            && TitlesIn(lines) == Titles(report.sections) && NotesIn(lines) == ConflictIds(joined.conflictRecords)
  {
    hide BodyLines, EntryFor, TitlesIn, NotesIn, StatesConflicts, Distinct, SortedIds, SourceIdsOf, UsedEvidence, Dict,
         Ascending;
    var ink := InkOf(report, joined);
    var first, last := Summaries(report.summaryClaimIds, ink), References(ink.sources);
    var body := BodyLines(report.sections, report, joined, ink);
    SortedIdsExact(SourceIdsOf(UsedEvidence(report, Dict(joined.claims)), joined.evidence));
    BodyTitles(report.sections, report, joined, ink);
    NoTitles(first);
    NoTitles(last);
    TitlesConcat(first, body);
    TitlesConcat(first + body, last);
  }

  // ---------- When there is a document ----------

  ghost predicate Uses(report: Report, id: string) { id in report.summaryClaimIds || ListsClaim(report.sections, id) }

  /** The claim is registered, and all its evidence too, with sources among the given ones. */
  ghost predicate Traced(id: string, joined: Joined, sources: set<string>) {
    id in Dict(joined.claims)
    && forall e :: e in Dict(joined.claims)[id].evidenceIds ==> e in joined.evidence && joined.evidence[e].sourceId in sources
  }

  /** A message is due for the conflict records, compared with those that the assessments give; a run saved without
      assessments keeps its texts under one name. */
  ghost predicate ConflictDue(e: ConflictError, joined: Joined, names: Naming) {
    var basis := if |joined.assessments| == 0 then [("legacy", Assessment(Sufficient, [], joined.conflicts, []))]
                 else joined.assessments;
    RecordsLack(e, joined.conflictRecords, Built(basis, joined.claims, names), Dict(joined.claims))
  }

  /** A report renders exactly when every claim it uses can be traced to a known source, its summary has at most 1200
      characters, and no message is due for the conflict records where they are stated. */
  lemma {:induction false} RendersExactly(report: Report, joined: Joined, sources: set<string>, summaryLength: nat,
          names: Naming)
    ensures Renders(report, joined, sources, summaryLength, names) <==>
            && (forall id :: Uses(report, id) ==> Traced(id, joined, sources))
            && summaryLength <= 1200
            && (HasLimits(report.sections) ==> forall e :: !ConflictDue(e, joined, names))
  {
    hide Complete, Dict, UsedClaims, BodyIds, InkOf, ConflictsHold, ConflictDue, ToSet, Traced, Uses, HasLimits,
         StatesConflicts;
    TracedMeans(report, joined, sources);
    LimitsMean(report.sections);
    ConflictsMean(joined, names);
  }

  lemma {:induction false} ConflictsMean(joined: Joined, names: Naming)
    ensures ConflictsHold(joined, names) <==> forall e :: !ConflictDue(e, joined, names)
  {
    hide RecordsLack;
    RecordsMean(joined.conflictRecords, Built(ConflictBasis(joined), joined.claims, names), Dict(joined.claims));
    assert forall e :: ConflictDue(e, joined, names) <==>
                         RecordsLack(e, joined.conflictRecords, Built(ConflictBasis(joined), joined.claims, names), Dict(joined.claims));
  }

  lemma {:induction false} LimitsMean(sections: seq<Section>)
    ensures StatesConflicts(sections) <==> HasLimits(sections)
  {
    if HasLimits(sections) {
      var s :| s in sections && s.title == "관점 간 상충과 한계";
      var n :| 0 <= n < |sections| && sections[n] == s;
    }
  }

  lemma {:induction false} UsedMeans(report: Report, id: string)
    ensures id in UsedClaims(report) <==> Uses(report, id)
  {
    hide UsedClaims, BodyIds;
    ClaimUsed(report, id);
    BodyHolds(report.sections, id);
  }

  lemma {:induction false} TracedMeans(report: Report, joined: Joined, sources: set<string>)
    ensures Complete(report, joined) && ToSet(InkOf(report, joined).sources) <= sources
            <==> forall id :: Uses(report, id) ==> Traced(id, joined, sources)
  {
    hide Dict, UsedClaims, BodyIds, InkOf, Uses, UsedEvidence;
    var claims := Dict(joined.claims);
    forall id ensures id in UsedClaims(report) <==> Uses(report, id) { UsedMeans(report, id); }
    if Complete(report, joined) && ToSet(InkOf(report, joined).sources) <= sources {
      forall id, e | Uses(report, id) && id in claims && e in claims[id].evidenceIds
        ensures e in joined.evidence && joined.evidence[e].sourceId in sources
      {
        var k :| 0 <= k < |UsedClaims(report)| && UsedClaims(report)[k] == id;
        var j :| 0 <= j < |claims[id].evidenceIds| && claims[id].evidenceIds[j] == e;
        EvidenceUsed(report, claims, id, e);
        SourceListed(report, joined, joined.evidence[e].sourceId);
        assert joined.evidence[e].sourceId in ToSet(InkOf(report, joined).sources);
      }
      forall id | Uses(report, id) ensures id in claims {
        var k :| 0 <= k < |UsedClaims(report)| && UsedClaims(report)[k] == id;
      }
    }
    if forall id :: Uses(report, id) ==> Traced(id, joined, sources) {
      forall k | 0 <= k < |UsedClaims(report)|
        ensures UsedClaims(report)[k] in claims && Backed(claims[UsedClaims(report)[k]], joined.evidence)
      {
        assert UsedClaims(report)[k] in UsedClaims(report);
      }
      forall source | source in InkOf(report, joined).sources ensures source in sources {
        SourceListed(report, joined, source);
        var e :| e in UsedEvidence(report, claims) && e in joined.evidence && joined.evidence[e].sourceId == source;
        EvidenceOfUsed(report, claims, e);
      }
    }
  }

  lemma {:induction false} EvidenceOfUsed(report: Report, claims: Claims, e: string)
    requires e in UsedEvidence(report, claims)
    ensures exists id :: id in UsedClaims(report) && id in claims && e in claims[id].evidenceIds
  {
    hide UsedClaims, EvidenceIdsOf, Unique;
    UniqueMember(EvidenceIdsOf(UsedClaims(report), claims), e);
    EvidenceIdOrigin(UsedClaims(report), claims, e);
    var k :| 0 <= k < |UsedClaims(report)| && UsedClaims(report)[k] in claims
             && e in claims[UsedClaims(report)[k]].evidenceIds;
    assert UsedClaims(report)[k] in UsedClaims(report);
  }
}
