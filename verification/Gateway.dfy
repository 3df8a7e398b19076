/** The paid-call gateway: the exact token count before a request, and the retry loop with one reservation
    for every POST (rag/llm.py, rag/request_budget.py). */
module Gateway {
  import opened Schema
  import opened Orders
  import opened Ledger
  import opened LedgerRuns
  import opened Budgets

  const PROTOCOL_MARGIN := 512

  /** What the transport makes of one POST: no usable answer, with the HTTP status if there was one, or an answer. */
  datatype Post =
    | Failure(httpStatus: Option<int>)
    | Answer(response: Response, completed: bool, text: string)

  predicate RateLimited(p: Post) { p.Failure? && p.httpStatus == Some(429) }

  // ---------- The entries of one call ----------

  /** The entries of the ledger that carry one of the ids, in order. */
  function Mine(entries: seq<Entry>, ids: seq<string>): seq<Entry> {
    if entries == [] then []
    else
      var e := entries[|entries| - 1];
      Mine(entries[..|entries| - 1], ids) + (if e.id in ids then [e] else [])
  }

  function EntriesOf(file: Option<Ledger>): seq<Entry> { if file.Some? then file.value.entries else [] }

  /** Other calls, of this run or of another, never use these ids: they are drawn at random for each reservation. */
  ghost predicate Apart(e: Event, ids: seq<string>) {
    match e
    case Reserve(request, _) => request.id !in ids
    case Settle(_, id, _, _) => id !in ids
    case _ => true
  }

  lemma {:induction false} MineSnoc(entries: seq<Entry>, e: Entry, ids: seq<string>)
    ensures Mine(entries + [e], ids) == Mine(entries, ids) + (if e.id in ids then [e] else [])
  {
    assert (entries + [e])[..|entries|] == entries;
  }

  lemma {:induction false} MineReplacedOther(entries: seq<Entry>, n: nat, e: Entry, ids: seq<string>)
    requires n < |entries| && entries[n].id !in ids && e.id == entries[n].id
    ensures Mine(entries[n := e], ids) == Mine(entries, ids)
  {
    var l := |entries| - 1;
    if n < l {
      assert entries[n := e][..l] == entries[..l][n := e];
      MineReplacedOther(entries[..l], n, e, ids);
    } else {
      assert entries[n := e][..l] == entries[..l];
    }
  }

  lemma {:induction false} MineHolds(entries: seq<Entry>, n: nat, ids: seq<string>)
    requires n < |entries| && entries[n].id in ids
    ensures exists k :: 0 <= k < |Mine(entries, ids)| && Mine(entries, ids)[k] == entries[n]
  {
    var l := |entries| - 1;
    if n < l {
      MineHolds(entries[..l], n, ids);
      var k :| 0 <= k < |Mine(entries[..l], ids)| && Mine(entries[..l], ids)[k] == entries[..l][n];
      assert Mine(entries, ids)[k] == entries[n];
    } else {
      assert Mine(entries, ids)[|Mine(entries, ids)| - 1] == entries[n];
    }
  }

  ghost predicate OnlyLast(mine: seq<Entry>, id: string) {
    mine != [] && mine[|mine| - 1].id == id && forall k :: 0 <= k < |mine| - 1 ==> mine[k].id != id
  }

  /** Replacing the entry whose id only the last of mine carries replaces the last of mine. */
  lemma {:induction false} MineReplacedLast(entries: seq<Entry>, n: nat, e: Entry, ids: seq<string>)
    requires n < |entries| && e.id == entries[n].id && e.id in ids && OnlyLast(Mine(entries, ids), e.id)
    ensures Mine(entries[n := e], ids) == Mine(entries, ids)[..|Mine(entries, ids)| - 1] + [e]
    ensures Mine(entries, ids)[|Mine(entries, ids)| - 1] == entries[n]
  {
    var l := |entries| - 1;
    var head, mine := Mine(entries[..l], ids), Mine(entries, ids);
    if n < l {
      assert entries[n := e][..l] == entries[..l][n := e];
      MineHolds(entries[..l], n, ids);
      var k :| 0 <= k < |head| && head[k] == entries[..l][n];
      assert mine[k] == head[k];
      assert entries[l].id !in ids;
      assert mine == head;
      MineReplacedLast(entries[..l], n, e, ids);
    } else {
      assert entries[n := e][..l] == entries[..l];
      assert mine == head + [entries[l]];
    }
  }

  /** Whatever other calls do, the entries of this call stay as they are. */
  lemma {:induction false} OthersStep(settings: Settings, w: World, e: Event, ids: seq<string>)
    requires Apart(e, ids)
    ensures Mine(EntriesOf(Step(settings, w, e).ledger), ids) == Mine(EntriesOf(w.ledger), ids)
  {
    match e
    case Reserve(request, lost) => OtherReserves(settings, w, request, lost, ids);
    case Settle(run, id, response, lost) => OtherSettles(settings, w, run, id, response, lost, ids);
    case _ => hide Extends, AllAmountsValid, Mine; assert Mine([], ids) == [] by { NoneMine(ids); }
  }

  lemma {:induction false} NoneMine(ids: seq<string>)
    ensures Mine([], ids) == []
  {
  }

  lemma {:induction false} OtherReserves(settings: Settings, w: World, request: Request, lost: bool, ids: seq<string>)
    requires request.id !in ids
    ensures Mine(EntriesOf(Step(settings, w, Reserve(request, lost)).ledger), ids) == Mine(EntriesOf(w.ledger), ids)
  {
    MineSnoc(EntriesOf(w.ledger), NewEntry(settings, request), ids);
    hide Extends, AllAmountsValid, Violated, CountOf, Total, Cost, UniqueIds, Mine, Find;
  }

  lemma {:induction false} OtherSettles(settings: Settings, w: World, run: string, id: string, response: Response,
          lost: bool, ids: seq<string>)
    requires id !in ids
    ensures Mine(EntriesOf(Step(settings, w, Settle(run, id, response, lost)).ledger), ids) == Mine(EntriesOf(w.ledger), ids)
  {
    var entries := EntriesOf(w.ledger);
    var k := Find(entries, id);
    if k.Some? && Usable(response) {
      MineReplacedOther(entries, k.value, Closed(settings, entries[k.value], response.usage.value, response.responseId), ids);
    }
    hide Extends, AllAmountsValid, Cost, UniqueIds, Mine, Find, Closed, Usable;
  }

  lemma {:induction false} OthersSteps(settings: Settings, w: World, es: seq<Event>, ids: seq<string>)
    requires forall k :: 0 <= k < |es| ==> Apart(es[k], ids)
    ensures Mine(EntriesOf(Steps(settings, w, es).ledger), ids) == Mine(EntriesOf(w.ledger), ids)
  {
    if es != [] {
      hide Step, Apart, Mine;
      var n := |es| - 1;
      assert forall k :: 0 <= k < n ==> es[..n][k] == es[k];
      OthersSteps(settings, w, es[..n], ids);
      OthersStep(settings, Steps(settings, w, es[..n]), es[n], ids);
    }
  }

  // ---------- One call ----------

  datatype Headroom = Reused | Counted(tokens: int)

  /** What is fixed for one generation: its ids, its stamps and the limits it reserves for. */
  datatype Call = Call(
    runId: string, purpose: string, pricing: string, inputLimit: int, outputLimit: int,
    ids: seq<string>, stamps: nat -> string)

  function AskOf(call: Call, k: nat): Ask
    requires k < |call.ids|
  {
    Ask(call.ids[k], call.runId, call.purpose, call.stamps(k), call.pricing, call.inputLimit, call.outputLimit)
  }

  /** The reservations of the first attempts, all of them still open at full charge. */
  function Reservations(settings: Settings, call: Call, n: nat): (es: seq<Entry>)
    requires n <= |call.ids|
    ensures |es| == n
  {
    seq(n, k requires 0 <= k < n => NewEntry(settings, AskOf(call, k)))
  }

  /** Why a reservation is refused: the budget, or a ledger that cannot be trusted. */
  const REFUSALS := {BudgetError, InvalidResponse}

  /** One reservation for every POST; all are retained but the last, which an answer may have settled. */
  ghost predicate Retained(settings: Settings, call: Call, posts: seq<Post>, mine: seq<Entry>) {
    |posts| <= |call.ids| && |mine| == |posts| &&
    (mine == Reservations(settings, call, |posts|)
     || (posts != [] && posts[|posts| - 1].Answer? && Usable(posts[|posts| - 1].response)
         && var n, response := |posts| - 1, posts[|posts| - 1].response;
            mine == Reservations(settings, call, n)
                    + [Closed(settings, NewEntry(settings, AskOf(call, n)), response.usage.value, response.responseId)]))
  }

  lemma {:induction false} ReservationsSnoc(settings: Settings, call: Call, n: nat)
    requires n < |call.ids|
    ensures Reservations(settings, call, n + 1) == Reservations(settings, call, n) + [NewEntry(settings, AskOf(call, n))]
  {
    hide NewEntry;
  }

  lemma {:induction false} NoneOfMine(entries: seq<Entry>, ids: seq<string>)
    requires forall k :: 0 <= k < |entries| ==> entries[k].id !in ids
    ensures Mine(entries, ids) == []
  {
    if entries != [] {
      assert forall k :: 0 <= k < |entries| - 1 ==> entries[..|entries| - 1][k] == entries[k];
      NoneOfMine(entries[..|entries| - 1], ids);
    }
  }

  lemma {:induction false} LastReservation(settings: Settings, call: Call, n: nat)
    requires n < |call.ids| && Distinct(call.ids)
    ensures OnlyLast(Reservations(settings, call, n + 1), call.ids[n])
  {
    hide Cost;
  }

  /** A settlement closes the newest reservation of the call, or fails without a trace. */
  lemma {:induction false} SettlesNewest(settings: Settings, call: Call, l: Ledger, n: nat, response: Response)
    requires n < |call.ids| && Distinct(call.ids) && Mine(l.entries, call.ids) == Reservations(settings, call, n + 1)
    requires SettleOn(settings, l, call.ids[n], response).Done?
    ensures Mine(SettleOn(settings, l, call.ids[n], response).value.entries, call.ids)
            == Reservations(settings, call, n)
               + [Closed(settings, NewEntry(settings, AskOf(call, n)), response.usage.value, response.responseId)]
    ensures l.entries[Find(l.entries, call.ids[n]).value] == NewEntry(settings, AskOf(call, n))
  {
    hide Cost;
    var k := Find(l.entries, call.ids[n]).value;
    var e := Closed(settings, l.entries[k], response.usage.value, response.responseId);
    LastReservation(settings, call, n);
    MineReplacedLast(l.entries, k, e, call.ids);
    ReservationsSnoc(settings, call, n);
    assert (Reservations(settings, call, n) + [NewEntry(settings, AskOf(call, n))])[..n] == Reservations(settings, call, n);
  }

  class Gateway {
    const budget: Budget
    const limitIn: int
    const limitOutCap: int
    const retries: nat
    const cached: map<string, string>
    var inputCounts: map<string, int>
    var inputReserves: map<string, int>

    constructor (budget: Budget, limitIn: int, limitOutCap: int, retries: nat, cached: map<string, string>)
      requires limitIn >= 1 && limitOutCap >= 1
      ensures this.budget == budget && this.limitIn == limitIn && this.limitOutCap == limitOutCap
      ensures this.retries == retries && this.cached == cached && inputCounts == map[] && inputReserves == map[]
    {
      this.budget, this.limitIn, this.limitOutCap, this.retries, this.cached := budget, limitIn, limitOutCap, retries, cached;
      inputCounts, inputReserves := map[], map[];
    }

    /** The number of input tokens of a payload: as counted before, or as counted now, if at all. */
    function CountOf(hash: string, counted: Option<int>): Option<int>
      reads this`inputCounts
    {
      if hash in inputCounts then Some(inputCounts[hash])
      else if counted.Some? && counted.value >= 0 then counted else None
    }

    /** A request within the byte bound whose exact count leaves room for the protocol and for the repair reserve. */
    predicate HasRoom(bytes: nat, reserve: int, count: Option<int>) {
      && bytes + PROTOCOL_MARGIN <= 200000 && 0 <= reserve
      && count.Some? && 0 <= count.value <= limitIn - PROTOCOL_MARGIN - reserve
    }

    /** A payload is counted at most once, and accepted exactly when there is room for it. */
    method Preflight(hash: string, bytes: nat, reserve: int, counted: Option<int>) returns (r: Outcome<Headroom>)
      modifies this`inputCounts, this`inputReserves
      ensures hash in cached ==> r == Done(Reused) && unchanged(this)
      ensures hash in old(inputCounts) ==> inputCounts == old(inputCounts)
      ensures forall h :: h in old(inputCounts) ==> h in inputCounts && inputCounts[h] == old(inputCounts)[h]
      ensures r.Done? <==> hash in cached || HasRoom(bytes, reserve, old(CountOf(hash, counted)))
      ensures var count := old(if hash in inputCounts then inputCounts[hash] else if counted.Some? then counted.value else -1);
              && (r.Done? <==>
                    hash in cached || (bytes + 512 <= 200000 && reserve >= 0 && 0 <= count && count + 512 + reserve <= limitIn))
              && (r == Raised(InputBudgetError) <==>
                    && hash !in cached
                    && (bytes + 512 > 200000 || (count >= 0 && reserve >= 0 && count + 512 + reserve > limitIn)))
      ensures r.Done? && hash !in cached ==>
                && hash in inputCounts && Some(inputCounts[hash]) == old(CountOf(hash, counted)) && r.value == Counted(inputCounts[hash])
                && inputReserves == old(inputReserves)[hash := Max(reserve, old(if hash in inputReserves then inputReserves[hash] else 0))]
      ensures r.Raised? ==> inputReserves == old(inputReserves)
    {
      if hash in cached {
        return Done(Reused);
      }
      if bytes + PROTOCOL_MARGIN > 200000 {
        return Raised(InputBudgetError);
      }
      if hash !in inputCounts {
        if counted.None? || counted.value < 0 {
          return Raised(ApiError);
        }
        inputCounts := inputCounts[hash := counted.value];
      }
      var count := inputCounts[hash];
      if count < 0 || reserve < 0 {
        return Raised(InvalidResponse);
      }
      if count > limitIn - PROTOCOL_MARGIN - reserve {
        return Raised(InputBudgetError);
      }
      var earlier := if hash in inputReserves then inputReserves[hash] else 0;
      inputReserves := inputReserves[hash := Max(reserve, earlier)];
      r := Done(Counted(count));
    }

    /** What other calls and other runs do to the shared files in the meantime. */
    method Elapse(open: map<string, Handle>, es: seq<Event>, ghost ids: seq<string>)
      requires forall k :: 0 <= k < |es| ==> Apart(es[k], ids)
      modifies budget.disk
      ensures Mine(EntriesOf(budget.disk.ledger), ids) == Mine(EntriesOf(old(budget.disk.ledger)), ids)
    {
      var w := World(budget.disk.ledger, budget.disk.histories, open);
      OthersSteps(budget.settings, w, es, ids);
      hide Steps, Mine, Apart;
      var v := Steps(budget.settings, w, es);
      budget.disk.ledger, budget.disk.histories := v.ledger, v.histories;
    }

    method ReserveNext(call: Call, n: nat) returns (r: Outcome<string>)
      requires n < |call.ids|
      requires Mine(EntriesOf(budget.disk.ledger), call.ids) == Reservations(budget.settings, call, n)
      modifies budget.disk
      ensures Mine(EntriesOf(budget.disk.ledger), call.ids) ==
              Reservations(budget.settings, call, if r.Done? then n + 1 else n)
      ensures r.Raised? ==> r.code in REFUSALS
    {
      hide Mine, Extends, AllAmountsValid, Violated, CountOf, Total, Cost, NewEntry;
      ghost var entries := EntriesOf(budget.disk.ledger);
      r := budget.Reserve(AskOf(call, n));
      if r.Done? {
        AskedEntry(budget.settings, call, n);
        MineSnoc(entries, NewEntry(budget.settings, AskOf(call, n)), call.ids);
        ReservationsSnoc(budget.settings, call, n);
      }
    }

    method SettleLast(call: Call, n: nat, response: Response) returns (r: Outcome<()>)
      requires n < |call.ids| && Distinct(call.ids)
      requires Mine(EntriesOf(budget.disk.ledger), call.ids) == Reservations(budget.settings, call, n + 1)
      modifies budget.disk
      ensures var mine, e := Mine(EntriesOf(budget.disk.ledger), call.ids), NewEntry(budget.settings, AskOf(call, n));
              if mine == Reservations(budget.settings, call, n + 1) then r.Raised?
              else && Usable(response)
                   && mine == Reservations(budget.settings, call, n)
                              + [Closed(budget.settings, e, response.usage.value, response.responseId)]
                   && (r.Raised? <==> Exceeds(e, response.usage.value))
    {
      hide Mine, Extends, AllAmountsValid, Cost, NewEntry, Closed, Exceeds, Distinct;
      ghost var l := if budget.disk.ledger.Some? then budget.disk.ledger.value else NEW_LEDGER;
      assert EntriesOf(budget.disk.ledger) == l.entries;
      r := budget.Settle(call.ids[n], response);
      if SettleOn(budget.settings, l, call.ids[n], response).Done? {
        SettlesNewest(budget.settings, call, l, n, response);
        NewIsOpen(budget.settings, call, n, response);
      }
    }

    /** A new text comes exactly from a completed answer whose settlement was stored and stayed within its
        reservation. */
    predicate Delivers(call: Call, n: nat, post: Post, mine: seq<Entry>)
      requires n < |call.ids|
    {
      && post.Answer? && post.completed && Usable(post.response)
      && !Exceeds(NewEntry(budget.settings, AskOf(call, n)), post.response.usage.value)
      && mine != Reservations(budget.settings, call, n + 1)
    }

    /** What it takes to deliver: a completed answer of the standard tier whose usage stays within the limits that were
        asked for, and an entry that is no longer the open reservation. */
    lemma {:induction false} DeliversExactly(call: Call, n: nat, post: Post, mine: seq<Entry>)
      requires n < |call.ids|
      ensures Delivers(call, n, post, mine) <==>
              && post.Answer? && post.completed && post.response.standard && post.response.usage.Some?
              && 0 <= post.response.usage.value.inputTokens <= call.inputLimit
              && 0 <= post.response.usage.value.outputTokens <= call.outputLimit
              && mine != Reservations(budget.settings, call, n + 1)
    {
      hide Reservations;
    }

    /** One attempt: a reservation of its own, the POST, and the settlement of an answer. */
    method Attempt(call: Call, n: nat, post: Post, open: map<string, Handle>, before: seq<Event>, meanwhile: seq<Event>)
      returns (granted: Outcome<string>, r: Outcome<string>)
      requires n < |call.ids| && Distinct(call.ids)
      requires Mine(EntriesOf(budget.disk.ledger), call.ids) == Reservations(budget.settings, call, n)
      requires forall k :: 0 <= k < |before| ==> Apart(before[k], call.ids)
      requires forall k :: 0 <= k < |meanwhile| ==> Apart(meanwhile[k], call.ids)
      modifies budget.disk
      ensures granted.Raised? ==>
                granted.code in REFUSALS && Mine(EntriesOf(budget.disk.ledger), call.ids) == Reservations(budget.settings, call, n)
      ensures granted.Done? ==>
                var mine := Mine(EntriesOf(budget.disk.ledger), call.ids);
                && (r.Done? <==> Delivers(call, n, post, mine)) && (r.Done? ==> r.value == post.text)
                && (mine == Reservations(budget.settings, call, n + 1)
                    || (post.Answer? && Usable(post.response)
                        && mine == Reservations(budget.settings, call, n)
                                   + [Closed(budget.settings, NewEntry(budget.settings, AskOf(call, n)),
                                             post.response.usage.value, post.response.responseId)]))
      ensures granted.Done? && post.Failure? ==> r == Raised(UncertainRequest)
    {
      hide Mine, Apart, Exceeds, NewEntry, Closed, Usable, Reservations, Distinct;
      r := Raised(UncertainRequest);
      Elapse(open, before, call.ids);
      granted := ReserveNext(call, n);
      if granted.Raised? {
        return;
      }
      Elapse(open, meanwhile, call.ids);
      if post.Answer? {
        var settled := SettleLast(call, n, post.response);
        r := if settled.Raised? then Raised(settled.code) else if post.completed then Done(post.text) else Raised(ApiError);
      }
    }

    /** At most one more POST than retries, each under a reservation of its own and only after a 429; whatever other
        calls do meanwhile, all its reservations stay at full charge except one that an answer settles, and new text
        comes exactly from a settled, completed answer. Nothing is sent only for a cached payload, for one that is
        refused in advance, or when no reservation is granted; sending stops early only for want of another
        reservation; and a failure that is not answered is reported as uncertain. */
    method Generate(call: Call, hash: string, bytes: nat, counted: Option<int>, provider: nat -> Post,
            open: map<string, Handle>, rivals: nat -> seq<Event>)
      returns (r: Outcome<string>, posts: seq<Post>)
      requires |call.ids| == retries + 1 && Distinct(call.ids) && call.inputLimit == limitIn
      requires forall k :: 0 <= k < |EntriesOf(budget.disk.ledger)| ==> EntriesOf(budget.disk.ledger)[k].id !in call.ids
      requires forall n, k :: 0 <= k < |rivals(n)| ==> Apart(rivals(n)[k], call.ids)
      modifies this`inputCounts, this`inputReserves, budget.disk
      ensures |posts| <= retries + 1 && forall k :: 0 <= k < |posts| ==> posts[k] == provider(k)
      ensures forall k :: 0 <= k < |posts| - 1 ==> posts[k].Failure? && posts[k].httpStatus == Some(429)
      ensures hash in cached && call.outputLimit <= limitOutCap ==> r == Done(cached[hash]) && posts == [] && unchanged(budget.disk)
      ensures posts != [] ==>
                (r.Done? <==> Delivers(call, |posts| - 1, posts[|posts| - 1], Mine(EntriesOf(budget.disk.ledger), call.ids)))
      ensures posts != [] && r.Done? ==> r.value == posts[|posts| - 1].text
      ensures posts == [] && (hash !in cached || call.outputLimit > limitOutCap) ==>
                r.Raised? && (call.outputLimit > limitOutCap || !HasRoom(bytes, 0, old(CountOf(hash, counted))) || r.code in REFUSALS)
      ensures posts != [] && posts[|posts| - 1].Failure? ==>
                if posts[|posts| - 1].httpStatus == Some(429) && |posts| <= retries then r.Raised? && r.code in REFUSALS
                else r == Raised(UncertainRequest)
      ensures Retained(budget.settings, call, posts, Mine(EntriesOf(budget.disk.ledger), call.ids))
    {
      hide Mine, Apart, Exceeds, NewEntry, Closed, Usable, HasRoom, CountOf, Distinct;
      posts := [];
      NoneOfMine(EntriesOf(budget.disk.ledger), call.ids);
      assert Reservations(budget.settings, call, 0) == [];
      hide Reservations;
      if call.outputLimit > limitOutCap {
        return Raised(InvalidResponse), posts;
      }
      if hash in cached {
        return Done(cached[hash]), posts;
      }
      var headroom := Preflight(hash, bytes, 0, counted);
      if headroom.Raised? {
        return Raised(headroom.code), posts;
      }
      for attempt := 0 to retries + 1
        invariant |posts| == attempt && forall k :: 0 <= k < attempt ==> posts[k] == provider(k) && RateLimited(posts[k])
        invariant attempt <= retries && hash !in cached && HasRoom(bytes, 0, old(CountOf(hash, counted)))
        invariant Mine(EntriesOf(budget.disk.ledger), call.ids) == Reservations(budget.settings, call, attempt)
      {
        var post := provider(attempt);
        var granted, outcome := Attempt(call, attempt, post, open, rivals(2 * attempt), rivals(2 * attempt + 1));
        if granted.Raised? {
          return Raised(granted.code), posts;
        }
        posts := posts + [post];
        if !RateLimited(post) || attempt == retries {
          return outcome, posts;
        }
      }
    }
  }

  lemma {:induction false} AskedEntry(settings: Settings, call: Call, n: nat)
    requires n < |call.ids|
    ensures NewEntry(settings, AskOf(call, n)).id in call.ids
  {
    hide Cost;
  }

  lemma {:induction false} NewIsOpen(settings: Settings, call: Call, n: nat, response: Response)
    requires n < |call.ids| && response.usage.Some?
    ensures Reservations(settings, call, n)
            + [Closed(settings, NewEntry(settings, AskOf(call, n)), response.usage.value, response.responseId)]
            != Reservations(settings, call, n + 1)
  {
    hide Cost;
    var es := Reservations(settings, call, n)
              + [Closed(settings, NewEntry(settings, AskOf(call, n)), response.usage.value, response.responseId)];
    assert es[n].state != Reserved && Reservations(settings, call, n + 1)[n].state == Reserved;
  }
}
