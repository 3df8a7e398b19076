/** The cumulative spend ledger: reservations, settlements and the histories that runs keep of it (rag/budget.py). */
module Ledger {
  import opened Schema

  // ---------- Amounts ----------

  /** Settings are positive; amounts are in millionths of a won. */
  datatype SettingsData = Settings(usdToKrw: real, multiplier: real, callsPerRun: int, spendLimit: real)
  type Settings = s: SettingsData | s.usdToKrw > 0.0 && s.multiplier > 0.0 && s.callsPerRun >= 1 && s.spendLimit > 0.0
    witness Settings(1.0, 1.1, 40, 1.0)

  function Ceil(x: real): int { -((-x).Floor) }

  /** `cost`: every input token at the cache-write price, rounded up to a millionth of a won. */
  function Cost(settings: Settings, input: int, output: int): int {
    Ceil((input as real * 0.25 + output as real * 1.20) * (settings.usdToKrw * settings.multiplier))
  }

  lemma {:induction false} CeilMonotone(x: real, y: real)
    requires x <= y
    ensures Ceil(x) <= Ceil(y)
  {
  }

  lemma {:induction false} ScaleMonotone(x: real, y: real, f: real)
    requires x <= y && f > 0.0
    ensures x * f <= y * f
  {
  }

  /** More tokens never cost less, and nothing costs less than nothing. */
  lemma {:induction false} CostMonotone(settings: Settings, input: int, output: int, input': int, output': int)
    requires 0 <= input <= input' && 0 <= output <= output'
    ensures 0 <= Cost(settings, input, output) <= Cost(settings, input', output')
  {
    var f := settings.usdToKrw * settings.multiplier;
    assert f > 0.0 by { ScaleMonotone(0.0, settings.usdToKrw, settings.multiplier); }
    var x, y := input as real * 0.25 + output as real * 1.20, input' as real * 0.25 + output' as real * 1.20;
    ScaleMonotone(x, y, f);
    ScaleMonotone(0.0, x, f);
    CeilMonotone(x * f, y * f);
    CeilMonotone(0.0, x * f);
  }

  /** A million input tokens cost a quarter of a dollar and a million output tokens a dollar and a fifth, at the
      exchange rate and the margin of the settings, in millionths of a won and rounded up to the next whole one. */
  lemma {:induction false} CostIsPrice(settings: Settings, input: int, output: int)
    ensures var won := settings.usdToKrw * settings.multiplier;
            var price := (input as real / 4.0) * won + (output as real * 6.0 / 5.0) * won;
            Cost(settings, input, output) as real - 1.0 < price <= Cost(settings, input, output) as real
  {
    var won := settings.usdToKrw * settings.multiplier;
    assert (input as real * 0.25 + output as real * 1.20) * won == (input as real / 4.0) * won + (output as real * 6.0 / 5.0) * won;
  }

  // ---------- Entries ----------

  datatype EntryState = Reserved | Uncertain | Settled | LimitViolation

  datatype Usage = Usage(inputTokens: int, outputTokens: int)

  datatype Entry = Entry(
    id: string, runId: string, purpose: string, createdAt: string, state: EntryState, reserved: int,
    inputLimit: int, outputLimit: int, pricing: string,
    usage: Option<Usage>, responseId: Option<string>, charged: Option<int>)

  datatype Ledger = Ledger(schema: int, ledgerId: Option<string>, entries: seq<Entry>)

  function Charge(e: Entry): int { if e.charged.Some? then e.charged.value else e.reserved }

  function Total(entries: seq<Entry>): int {
    if entries == [] then 0 else Total(entries[..|entries| - 1]) + Charge(entries[|entries| - 1])
  }

  predicate AmountsValid(e: Entry) { e.reserved >= 0 && (e.charged.Some? ==> e.charged.value >= 0) }

  predicate AllAmountsValid(entries: seq<Entry>) { forall k :: 0 <= k < |entries| ==> AmountsValid(entries[k]) }

  predicate UniqueIds(entries: seq<Entry>) {
    forall i, j :: 0 <= i < j < |entries| ==> entries[i].id != entries[j].id
  }

  // ---------- Histories ----------

  /** What may happen to an entry: a settlement of a reservation, and nothing else. */
  predicate Evolves(before: Entry, now: Entry) {
    && now.(state := before.state, usage := before.usage, responseId := before.responseId, charged := before.charged) == before
    && (before.state != Reserved ==> now == before)
  }

  predicate Survives(e: Entry, entries: seq<Entry>) {
    exists k :: 0 <= k < |entries| && entries[k].id == e.id && Evolves(e, entries[k])
  }

  /** `_validate_history`: the ledger has unique ids and every entry of the history survives in it. */
  predicate Extends(current: Ledger, previous: Ledger) {
    && current.ledgerId == previous.ledgerId && UniqueIds(current.entries)
    && forall k :: 0 <= k < |previous.entries| ==> Survives(previous.entries[k], current.entries)
  }

  function EntryTable(entries: seq<Entry>): map<string, Entry> {
    if entries == [] then map[]
    else EntryTable(entries[..|entries| - 1])[entries[|entries| - 1].id := entries[|entries| - 1]]
  }

  ghost predicate Holds(entries: seq<Entry>, id: string) {
    exists k :: 0 <= k < |entries| && entries[k].id == id
  }

  lemma {:induction false} TableKeys(entries: seq<Entry>)
    ensures forall id :: id in EntryTable(entries) <==> Holds(entries, id)
  {
    if entries != [] {
      var n := |entries| - 1;
      TableKeys(entries[..n]);
      forall id ensures Holds(entries, id) <==> Holds(entries[..n], id) || entries[n].id == id {
        if Holds(entries[..n], id) {
          var k :| 0 <= k < n && entries[..n][k].id == id;
          assert entries[k].id == id;
        }
      }
    }
  }

  lemma {:induction false} UniqueSnoc(head: seq<Entry>, e: Entry)
    ensures UniqueIds(head + [e]) <==> UniqueIds(head) && !Holds(head, e.id)
  {
    var entries := head + [e];
    assert forall k :: 0 <= k < |head| ==> entries[k] == head[k];
    if UniqueIds(entries) {
      assert forall k :: 0 <= k < |head| ==> entries[k].id != entries[|head|].id;
    }
    if UniqueIds(head) && !Holds(head, e.id) {
      forall i, j | 0 <= i < j < |entries| ensures entries[i].id != entries[j].id {
        assert head[i].id != e.id;
      }
    }
  }

  /** The table by id holds as many entries as the list exactly when no id repeats. */
  lemma {:induction false} TableSize(entries: seq<Entry>)
    ensures |EntryTable(entries)| <= |entries|
    ensures |EntryTable(entries)| == |entries| <==> UniqueIds(entries)
  {
    if entries != [] {
      var n := |entries| - 1;
      var head := entries[..n];
      TableSize(head);
      TableKeys(head);
      UniqueSnoc(head, entries[n]);
      assert entries == head + [entries[n]];
      hide UniqueIds, Holds;
      assert EntryTable(entries).Keys == EntryTable(head).Keys + {entries[n].id};
      assert |EntryTable(entries)| == |EntryTable(entries).Keys| && |EntryTable(head)| == |EntryTable(head).Keys|;
      if Holds(head, entries[n].id) {
        assert EntryTable(entries).Keys == EntryTable(head).Keys;
      }
    }
  }

  lemma {:induction false} TableEntry(entries: seq<Entry>, k: nat)
    requires UniqueIds(entries) && k < |entries|
    ensures entries[k].id in EntryTable(entries) && EntryTable(entries)[entries[k].id] == entries[k]
  {
    var n := |entries| - 1;
    if k < n {
      assert entries[k].id != entries[n].id;
      TableEntry(entries[..n], k);
    }
  }

  method ValidateHistory(current: Ledger, previous: Ledger) returns (ok: bool)
    ensures ok <==> Extends(current, previous)
  {
    TableKeys(current.entries);
    TableSize(current.entries);
    var byId := EntryTable(current.entries);
    if current.ledgerId != previous.ledgerId || |byId| != |current.entries| {
      return false;
    }
    for k := 0 to |previous.entries|
      invariant forall i :: 0 <= i < k ==> Survives(previous.entries[i], current.entries)
    {
      var e := previous.entries[k];
      if e.id !in byId {
        return false;
      }
      var now := byId[e.id];
      ghost var i :| 0 <= i < |current.entries| && current.entries[i].id == e.id;
      TableEntry(current.entries, i);
      if !Evolves(e, now) {
        assert forall j :: 0 <= j < |current.entries| && current.entries[j].id == e.id ==> j == i;
        return false;
      }
    }
    return true;
  }

  lemma {:induction false} ExtendsReflexive(l: Ledger)
    requires UniqueIds(l.entries)
    ensures Extends(l, l)
  {
    forall k | 0 <= k < |l.entries| ensures Survives(l.entries[k], l.entries) {
      assert Evolves(l.entries[k], l.entries[k]);
    }
  }

  lemma {:induction false} SurvivesTransitive(e: Entry, middle: seq<Entry>, now: Ledger, between: Ledger)
    requires between.entries == middle && Survives(e, middle) && Extends(now, between)
    ensures Survives(e, now.entries)
  {
    var k :| 0 <= k < |middle| && middle[k].id == e.id && Evolves(e, middle[k]);
    assert Survives(between.entries[k], now.entries);
    var j :| 0 <= j < |now.entries| && now.entries[j].id == middle[k].id && Evolves(middle[k], now.entries[j]);
    assert Evolves(e, now.entries[j]);
  }

  lemma {:induction false} ExtendsTransitive(now: Ledger, between: Ledger, before: Ledger)
    requires Extends(now, between) && Extends(between, before)
    ensures Extends(now, before)
  {
    forall k | 0 <= k < |before.entries| ensures Survives(before.entries[k], now.entries) {
      SurvivesTransitive(before.entries[k], between.entries, now, between);
    }
  }

  /** What may differ between a history and its ledger: entries may have come in, and an entry that was still open may
      have its outcome; who asked for what, when, at which price and with which limits never changes. */
  lemma {:induction false} ExtendsMeans(current: Ledger, previous: Ledger)
    ensures Extends(current, previous) <==>
              && current.ledgerId == previous.ledgerId
              && (forall i, j :: 0 <= i < j < |current.entries| ==> current.entries[i].id != current.entries[j].id)
              && forall k :: 0 <= k < |previous.entries| ==> Outlives(previous.entries[k], current.entries)
  {
    forall k | 0 <= k < |previous.entries|
      ensures Survives(previous.entries[k], current.entries) <==> Outlives(previous.entries[k], current.entries)
    {
      SurvivesMeans(previous.entries[k], current.entries);
    }
    hide Survives, Outlives;
  }

  /** The entry is still there under its id, with everything that was asked, and unchanged once it had an outcome. */
  ghost predicate Outlives(e: Entry, entries: seq<Entry>) {
    exists j :: 0 <= j < |entries| && SameAsked(e, entries[j]) && (e.state == Reserved || entries[j] == e)
  }

  lemma {:induction false} SurvivesMeans(e: Entry, entries: seq<Entry>)
    ensures Survives(e, entries) <==> Outlives(e, entries)
  {
    if j :| 0 <= j < |entries| && SameAsked(e, entries[j]) && (e.state == Reserved || entries[j] == e) {
      assert Evolves(e, entries[j]);
    }
    if j :| 0 <= j < |entries| && entries[j].id == e.id && Evolves(e, entries[j]) {
      assert SameAsked(e, entries[j]);
    }
  }

  predicate SameAsked(a: Entry, b: Entry) {
    && a.id == b.id && a.runId == b.runId && a.purpose == b.purpose && a.createdAt == b.createdAt
    && a.reserved == b.reserved && a.inputLimit == b.inputLimit && a.outputLimit == b.outputLimit && a.pricing == b.pricing
  }

  /** An entry of the history that is gone, or a settled one that is no longer what it was, is refused. */
  lemma {:induction false} TamperingRefused(current: Ledger, previous: Ledger, k: nat)
    requires k < |previous.entries|
    requires var e := previous.entries[k];
             (forall j :: 0 <= j < |current.entries| ==> current.entries[j].id != e.id)
             || (e.state != Reserved && e !in current.entries)
    ensures !Extends(current, previous)
  {
    assert !Survives(previous.entries[k], current.entries);
  }

  // ---------- Transactions ----------

  /** What a provider reports: the standard tier, the usage when it is present and nonempty, and the response id. */
  datatype Response = Response(standard: bool, usage: Option<Usage>, responseId: Option<string>)

  predicate Violated(entries: seq<Entry>) { exists k :: 0 <= k < |entries| && entries[k].state == LimitViolation }

  function CountOf(entries: seq<Entry>, runId: string): nat {
    if entries == [] then 0
    else CountOf(entries[..|entries| - 1], runId) + (if entries[|entries| - 1].runId == runId then 1 else 0)
  }

  datatype Ask = Ask(id: string, runId: string, purpose: string, createdAt: string, pricing: string, inputLimit: int, outputLimit: int)

  function NewEntry(settings: Settings, ask: Ask): Entry {
    Entry(ask.id, ask.runId, ask.purpose, ask.createdAt, Reserved, Cost(settings, ask.inputLimit, ask.outputLimit),
          ask.inputLimit, ask.outputLimit, ask.pricing, None, None, None)
  }

  /** `reserve`, inside the lock. */
  function ReserveOn(settings: Settings, l: Ledger, ask: Ask): Outcome<Ledger> {
    if Violated(l.entries) || CountOf(l.entries, ask.runId) >= settings.callsPerRun
      || (Total(l.entries) + Cost(settings, ask.inputLimit, ask.outputLimit)) as real > settings.spendLimit
    then Raised(BudgetError)
    else Done(l.(entries := l.entries + [NewEntry(settings, ask)]))
  }

  /** The first entry with the id. */
  function Find(entries: seq<Entry>, id: string): (r: Option<nat>)
    ensures r.Some? ==> r.value < |entries| && entries[r.value].id == id
  {
    if entries == [] then None
    else
      var head := Find(entries[..|entries| - 1], id);
      if head.Some? then head else if entries[|entries| - 1].id == id then Some(|entries| - 1) else None
  }

  predicate Exceeds(e: Entry, usage: Usage) { usage.inputTokens > e.inputLimit || usage.outputTokens > e.outputLimit }

  function Closed(settings: Settings, e: Entry, usage: Usage, responseId: Option<string>): Entry {
    e.(state := if Exceeds(e, usage) then LimitViolation else Settled, usage := Some(usage), responseId := responseId,
       charged := Some(Cost(settings, usage.inputTokens, usage.outputTokens)))
  }

  predicate Usable(response: Response) {
    response.standard && response.usage.Some? && response.usage.value.inputTokens >= 0 && response.usage.value.outputTokens >= 0
  }

  /** `settle`, inside the lock: an exception leaves no trace, whatever was marked in memory. */
  function SettleOn(settings: Settings, l: Ledger, id: string, response: Response): Outcome<Ledger> {
    var k := Find(l.entries, id);
    if k.None? || !Usable(response) then Raised(InvalidResponse)
    else Done(l.(entries := l.entries[k.value := Closed(settings, l.entries[k.value], response.usage.value, response.responseId)]))
  }

  // ---------- What a transaction does ----------

  /** The reservations of a run, failed attempts included. */
  function CallsOf(entries: seq<Entry>, runId: string): set<nat> {
    set k: nat | k < |entries| && entries[k].runId == runId
  }

  lemma {:induction false} CallsSnoc(entries: seq<Entry>, e: Entry, runId: string)
    ensures CallsOf(entries + [e], runId) == CallsOf(entries, runId) + (if e.runId == runId then {|entries|} else {})
  {
    var more := entries + [e];
    assert forall k :: 0 <= k < |entries| ==> more[k] == entries[k];
  }

  lemma {:induction false} CallsCounted(entries: seq<Entry>, runId: string)
    ensures CountOf(entries, runId) == |CallsOf(entries, runId)|
  {
    if entries != [] {
      hide CallsOf;
      var n := |entries| - 1;
      CallsCounted(entries[..n], runId);
      assert entries == entries[..n] + [entries[n]];
      CallsSnoc(entries[..n], entries[n], runId);
      assert n !in CallsOf(entries[..n], runId) by { CallsBelow(entries[..n], runId); }
    } else {
      assert CallsOf(entries, runId) == {};
    }
  }

  lemma {:induction false} CallsBelow(entries: seq<Entry>, runId: string)
    ensures forall k :: k in CallsOf(entries, runId) ==> k < |entries|
  {
  }

  /** A reservation is refused exactly when a violation stands, the run has used up its calls, or the limit cannot
      cover the largest cost of the request; otherwise it is the next entry, open and at that cost. */
  lemma {:induction false} ReserveExactly(settings: Settings, l: Ledger, ask: Ask)
    ensures var most := Cost(settings, ask.inputLimit, ask.outputLimit);
            var r := ReserveOn(settings, l, ask);
            && (r == Raised(BudgetError) || r.Done?)
            && (r.Raised? <==>
                  || (exists k :: 0 <= k < |l.entries| && l.entries[k].state == LimitViolation)
                  || |CallsOf(l.entries, ask.runId)| >= settings.callsPerRun
                  || (Total(l.entries) + most) as real > settings.spendLimit)
            && (r.Done? ==>
                  exists e: Entry :: r.value == Ledger(l.schema, l.ledgerId, l.entries + [e]) && Opens(e, ask, most))
  {
    hide Cost, Total, CallsOf;
    CallsCounted(l.entries, ask.runId);
    if ReserveOn(settings, l, ask).Done? { assert Opens(NewEntry(settings, ask), ask, Cost(settings, ask.inputLimit, ask.outputLimit)); }
  }

  /** An open reservation for the request, charged at `most` until it is settled. */
  predicate Opens(e: Entry, ask: Ask, most: int) {
    && e.id == ask.id && e.runId == ask.runId && e.purpose == ask.purpose && e.createdAt == ask.createdAt
    && e.pricing == ask.pricing && e.inputLimit == ask.inputLimit && e.outputLimit == ask.outputLimit
    && e.state == Reserved && e.reserved == most && Charge(e) == most && e.usage.None? && e.responseId.None?
  }

  /** A settlement needs a known reservation and usage on the standard tier; then it charges exactly the cost of the
      reported usage, marks usage beyond the reserved limits, and changes nothing else. */
  lemma {:induction false} SettleExactly(settings: Settings, l: Ledger, id: string, response: Response)
    ensures var r := SettleOn(settings, l, id, response);
            && (r == Raised(InvalidResponse) || r.Done?)
            && (r.Done? <==>
                  && (exists k :: 0 <= k < |l.entries| && l.entries[k].id == id)
                  && response.standard && response.usage.Some?
                  && 0 <= response.usage.value.inputTokens && 0 <= response.usage.value.outputTokens)
            && (r.Done? ==> exists k :: SettledAt(settings, l, r.value, k, id, response.usage.value, response.responseId))
  {
    hide Cost;
    FoundIff(l.entries, id);
    if SettleOn(settings, l, id, response).Done? {
      var k := Find(l.entries, id).value;
      FoundFirst(l.entries, id);
      assert SettledAt(settings, l, SettleOn(settings, l, id, response).value, k, id, response.usage.value, response.responseId);
    }
  }

  /** Entry `k`, the first with the id, is closed at the cost of the usage; all the others are as they were. */
  ghost predicate SettledAt(settings: Settings, l: Ledger, now: Ledger, k: int, id: string, usage: Usage,
          responseId: Option<string>)
  {
    && 0 <= k < |l.entries| == |now.entries| && l.entries[k].id == id
    && (forall i :: 0 <= i < k ==> l.entries[i].id != id)
    && now.schema == l.schema && now.ledgerId == l.ledgerId
    && (forall i :: 0 <= i < |l.entries| && i != k ==> now.entries[i] == l.entries[i])
    && var was, e := l.entries[k], now.entries[k];
       && Charge(e) == Cost(settings, usage.inputTokens, usage.outputTokens)
       && e.usage == Some(usage) && e.responseId == responseId
       && e.state == (if usage.inputTokens > was.inputLimit || usage.outputTokens > was.outputLimit then LimitViolation else Settled)
       && e.(state := was.state, usage := was.usage, responseId := was.responseId, charged := was.charged) == was
  }

  lemma {:induction false} FoundIff(entries: seq<Entry>, id: string)
    ensures Find(entries, id).Some? <==> exists k :: 0 <= k < |entries| && entries[k].id == id
  {
    if entries != [] {
      var n := |entries| - 1;
      FoundIff(entries[..n], id);
      assert forall k :: 0 <= k < n ==> entries[..n][k] == entries[k];
    }
  }

  lemma {:induction false} FoundFirst(entries: seq<Entry>, id: string)
    requires Find(entries, id).Some?
    ensures forall i :: 0 <= i < Find(entries, id).value ==> entries[i].id != id
  {
    var n := |entries| - 1;
    assert forall k :: 0 <= k < n ==> entries[..n][k] == entries[k];
    if Find(entries[..n], id).Some? { FoundFirst(entries[..n], id); } else { FoundIff(entries[..n], id); }
  }

  lemma {:induction false} ReserveExtends(settings: Settings, l: Ledger, ask: Ask)
    requires UniqueIds(l.entries) && (forall k :: 0 <= k < |l.entries| ==> l.entries[k].id != ask.id)
    requires ReserveOn(settings, l, ask).Done?
    ensures Extends(ReserveOn(settings, l, ask).value, l)
  {
    var now := ReserveOn(settings, l, ask).value;
    forall k | 0 <= k < |l.entries| ensures Survives(l.entries[k], now.entries) {
      assert now.entries[k] == l.entries[k] && Evolves(l.entries[k], now.entries[k]);
    }
  }

  lemma {:induction false} SettleExtends(settings: Settings, l: Ledger, id: string, response: Response)
    requires UniqueIds(l.entries) && SettleOn(settings, l, id, response).Done?
    requires l.entries[Find(l.entries, id).value].state == Reserved
    ensures Extends(SettleOn(settings, l, id, response).value, l)
  {
    var now, n := SettleOn(settings, l, id, response).value, Find(l.entries, id).value;
    forall k | 0 <= k < |l.entries| ensures Survives(l.entries[k], now.entries) {
      assert now.entries[k].id == l.entries[k].id;
      assert Evolves(l.entries[k], now.entries[k]);
    }
  }

  // ---------- The spend limit ----------

  /** What a violating entry was charged beyond its reservation. */
  function Overage(e: Entry): int {
    if e.state == LimitViolation && Charge(e) > e.reserved then Charge(e) - e.reserved else 0
  }

  function Overages(entries: seq<Entry>): int {
    if entries == [] then 0 else Overages(entries[..|entries| - 1]) + Overage(entries[|entries| - 1])
  }

  /** Entries made with these settings: the reservation is the cost of the limits, and a settled entry
      stayed within it. */
  predicate Priced(settings: Settings, e: Entry) {
    && e.inputLimit >= 0 && e.outputLimit >= 0 && e.reserved == Cost(settings, e.inputLimit, e.outputLimit)
    && (e.state == Reserved ==> e.charged.None?)
    && (e.state != LimitViolation ==> Charge(e) <= e.reserved) && AmountsValid(e)
  }

  predicate AllPriced(settings: Settings, entries: seq<Entry>) {
    forall k :: 0 <= k < |entries| ==> Priced(settings, entries[k])
  }

  predicate WithinLimit(settings: Settings, entries: seq<Entry>) {
    Total(entries) as real <= settings.spendLimit + Overages(entries) as real
  }

  lemma {:induction false} SumSnoc(entries: seq<Entry>, e: Entry)
    ensures Total(entries + [e]) == Total(entries) + Charge(e)
    ensures Overages(entries + [e]) == Overages(entries) + Overage(e)
  {
    assert (entries + [e])[..|entries|] == entries;
  }

  lemma {:induction false} SumReplaced(entries: seq<Entry>, k: nat, e: Entry)
    requires k < |entries|
    ensures Total(entries[k := e]) == Total(entries) - Charge(entries[k]) + Charge(e)
    ensures Overages(entries[k := e]) == Overages(entries) - Overage(entries[k]) + Overage(e)
  {
    var n := |entries| - 1;
    if k < n {
      assert entries[k := e][..n] == entries[..n][k := e];
      SumReplaced(entries[..n], k, e);
    } else {
      assert entries[k := e][..n] == entries[..n];
    }
  }

  lemma {:induction false} NoOverage(entries: seq<Entry>)
    requires !Violated(entries)
    ensures Overages(entries) == 0
  {
    if entries != [] {
      var n := |entries| - 1;
      assert forall k :: 0 <= k < n ==> entries[..n][k] == entries[k];
      NoOverage(entries[..n]);
    }
  }

  lemma {:induction false} ReserveWithinLimit(settings: Settings, l: Ledger, ask: Ask)
    requires AllPriced(settings, l.entries) && ask.inputLimit >= 0 && ask.outputLimit >= 0
    requires ReserveOn(settings, l, ask).Done?
    ensures AllPriced(settings, ReserveOn(settings, l, ask).value.entries)
    ensures WithinLimit(settings, ReserveOn(settings, l, ask).value.entries)
  {
    hide Cost;
    var e := NewEntry(settings, ask);
    SumSnoc(l.entries, e);
    NoOverage(l.entries);
    CostMonotone(settings, ask.inputLimit, ask.outputLimit, ask.inputLimit, ask.outputLimit);
    assert Priced(settings, e);
  }

  /** Settling a reservation at its true cost never raises the total, except by the overage of a violation. */
  lemma {:induction false} SettleWithinLimit(settings: Settings, l: Ledger, id: string, response: Response)
    requires AllPriced(settings, l.entries) && WithinLimit(settings, l.entries)
    requires SettleOn(settings, l, id, response).Done?
    requires l.entries[Find(l.entries, id).value].state == Reserved
    ensures AllPriced(settings, SettleOn(settings, l, id, response).value.entries)
    ensures WithinLimit(settings, SettleOn(settings, l, id, response).value.entries)
  {
    hide Cost;
    var n, usage := Find(l.entries, id).value, response.usage.value;
    var e, closed := l.entries[n], Closed(settings, l.entries[n], usage, response.responseId);
    SumReplaced(l.entries, n, closed);
    CostMonotone(settings, usage.inputTokens, usage.outputTokens, usage.inputTokens, usage.outputTokens);
    if !Exceeds(e, usage) {
      CostMonotone(settings, usage.inputTokens, usage.outputTokens, e.inputLimit, e.outputLimit);
    }
    assert Priced(settings, e);
    assert Priced(settings, closed);
  }

  /** A violation disappears exactly when the only violating entry is settled a second time within its limits. */
  lemma {:induction false} ViolationClearedIff(settings: Settings, l: Ledger, id: string, response: Response)
    requires Violated(l.entries) && SettleOn(settings, l, id, response).Done?
    ensures !Violated(SettleOn(settings, l, id, response).value.entries) <==>
              var n := Find(l.entries, id).value;
              !Exceeds(l.entries[n], response.usage.value)
              && forall k :: 0 <= k < |l.entries| && k != n ==> l.entries[k].state != LimitViolation
  {
    hide Cost;
    var n, now := Find(l.entries, id).value, SettleOn(settings, l, id, response).value;
    assert forall k :: 0 <= k < |l.entries| && k != n ==> now.entries[k] == l.entries[k];
    if Violated(now.entries) {
      var k :| 0 <= k < |now.entries| && now.entries[k].state == LimitViolation;
    }
    if Exceeds(l.entries[n], response.usage.value) {
      assert now.entries[n].state == LimitViolation;
    }
  }
}
