/** Several processes sharing one ledger under a lock, each run with a history file of its own that is written
    after the ledger; a process may be lost between the two writes (rag/budget.py, rag/agent_runtime.py). */
module LedgerRuns {
  import opened Schema
  import opened Ledger

  /** The limits of a request are never negative. */
  type Request = a: Ask | a.inputLimit >= 0 && a.outputLimit >= 0 witness Ask("", "", "", "", "", 0, 0)

  const NEW_LEDGER := Ledger(1, None, [])

  /** `locked`, up to the point where the block runs. */
  function Opened(file: Option<Ledger>, expected: Option<string>, previous: Option<Ledger>): Outcome<Ledger> {
    var l := if file.Some? then file.value else NEW_LEDGER;
    if expected.Some? && l.ledgerId != expected then Raised(InvalidResponse)
    else if l.schema != 1 || !AllAmountsValid(l.entries) then Raised(InvalidResponse)
    else if previous.Some? && !Extends(l, previous.value) then Raised(InvalidResponse)
    else Done(l)
  }

  /** The block is entered exactly when the ledger has the expected name and the known schema, no amount is negative,
      and it extends the history that is followed; then it is the ledger of the file, or a new one where there is
      none. */
  lemma {:induction false} OpenedExactly(file: Option<Ledger>, expected: Option<string>, previous: Option<Ledger>)
    ensures var r, l := Opened(file, expected, previous), if file.Some? then file.value else Ledger(1, None, []);
            && (r == Raised(InvalidResponse) || r == Done(l))
            && (r.Done? <==>
                  && (expected.Some? ==> l.ledgerId == expected) && l.schema == 1
                  && (forall k :: 0 <= k < |l.entries| ==> l.entries[k].reserved >= 0 && Charge(l.entries[k]) >= 0)
                  && (previous.Some? ==> Extends(l, previous.value)))
  {
    hide Extends;
  }

  // ---------- The processes and their files ----------

  /** A run's `Budget` object. */
  datatype Handle = Handle(expected: Option<string>, history: bool)

  datatype World = World(ledger: Option<Ledger>, histories: map<string, Ledger>, open: map<string, Handle>)

  datatype Event =
    | Create(run: string)
    | Identify(run: string, expected: Option<string>, newId: string, lost: bool)
    | Follow(run: string, resume: bool, lost: bool)
    | Reserve(request: Request, lost: bool)
    | Settle(run: string, id: string, response: Response, lost: bool)
    | Quit(run: string)

  function LedgerOf(w: World): Ledger { if w.ledger.Some? then w.ledger.value else NEW_LEDGER }

  function Previous(w: World, run: string): Option<Ledger> {
    if run in w.open && w.open[run].history && run in w.histories then Some(w.histories[run]) else None
  }

  function Locked(w: World, run: string): Outcome<Ledger>
    requires run in w.open
  {
    Opened(w.ledger, w.open[run].expected, Previous(w, run))
  }

  /** The two writes at the end of a transaction, or the ledger's alone when the process is lost in between. */
  function Commit(w: World, run: string, l: Ledger, lost: bool): World
    requires run in w.open
  {
    if lost then w.(ledger := Some(l), open := w.open - {run})
    else w.(ledger := Some(l), histories := if w.open[run].history then w.histories[run := l] else w.histories)
  }

  function Expecting(w: World, run: string, expected: Option<string>): World
    requires run in w.open
  {
    w.(open := w.open[run := w.open[run].(expected := expected)])
  }

  /** The name a run asks for is kept on its object before the ledger is looked at. */
  function Asked(w: World, run: string, expected: Option<string>): World
    requires run in w.open
  {
    if expected.Some? then Expecting(w, run, expected) else w
  }

  /** The ledger under its name, its own or the new one. */
  function Naming(w: World, run: string, expected: Option<string>, newId: string): Outcome<Ledger>
    requires run in w.open
  {
    var l := Locked(Asked(w, run, expected), run);
    if expected == Some("") || l.Raised? then Raised(InvalidResponse)
    else
      var named := if l.value.ledgerId.Some? then l.value else l.value.(ledgerId := Some(newId));
      if named.ledgerId == Some("") then Raised(InvalidResponse) else Done(named)
  }

  function Identified(w: World, run: string, expected: Option<string>, newId: string, lost: bool): World
    requires run in w.open
  {
    if expected == Some("") then w
    else
      var named := Naming(w, run, expected, newId);
      if named.Raised? then Asked(w, run, expected)
      else Commit(Expecting(w, run, named.value.ledgerId), run, named.value, lost)
  }

  /** The path of the history is kept on the object, whether it can be followed or not. */
  function Following(w: World, run: string): World
    requires run in w.open
  {
    w.(open := w.open[run := w.open[run].(history := true)])
  }

  function Followed(w: World, run: string, resume: bool, lost: bool): World
    requires run in w.open
  {
    var l := Locked(Following(w, run), run);
    if (resume && run !in w.histories) || l.Raised? then Following(w, run)
    else Commit(Following(w, run), run, l.value, lost)
  }

  function ReservedIn(settings: Settings, w: World, request: Request, lost: bool): World
    requires request.runId in w.open
  {
    var l := Locked(w, request.runId);
    if l.Raised? then w
    else
      var now := ReserveOn(settings, l.value, request);
      if now.Raised? then w else Commit(w, request.runId, now.value, lost)
  }

  function SettledIn(settings: Settings, w: World, run: string, id: string, response: Response, lost: bool): World
    requires run in w.open
  {
    var l := Locked(w, run);
    if l.Raised? then w
    else
      var now := SettleOn(settings, l.value, id, response);
      if now.Raised? then w else Commit(w, run, now.value, lost)
  }

  function Step(settings: Settings, w: World, e: Event): World {
    match e
    case Create(run) => if run in w.open then w else w.(open := w.open[run := Handle(None, false)])
    case Identify(run, expected, newId, lost) => if run in w.open then Identified(w, run, expected, newId, lost) else w
    case Follow(run, resume, lost) => if run in w.open then Followed(w, run, resume, lost) else w
    case Reserve(request, lost) => if request.runId in w.open then ReservedIn(settings, w, request, lost) else w
    case Settle(run, id, response, lost) => if run in w.open then SettledIn(settings, w, run, id, response, lost) else w
    case Quit(run) => w.(open := w.open - {run})
  }

  function Steps(settings: Settings, w: World, es: seq<Event>): World {
    if es == [] then w else Step(settings, Steps(settings, w, es[..|es| - 1]), es[|es| - 1])
  }

  const EMPTY := World(None, map[], map[])

  /** A process starts without expectations, and is gone when it ends or is lost between its two writes; then the ledger
      has been written, and no history. */
  lemma {:induction false} ProcessesCome(settings: Settings, w: World, run: string, l: Ledger)
    ensures var n := Step(settings, w, Create(run));
            && run in n.open && (run !in w.open ==> n.open[run].expected.None? && !n.open[run].history)
            && (forall r :: r != run ==> (r in n.open <==> r in w.open) && (r in w.open ==> n.open[r] == w.open[r]))
    ensures var n := Step(settings, w, Quit(run));
            n.ledger == w.ledger && n.histories == w.histories && forall r :: r in n.open <==> r in w.open && r != run
    ensures run in w.open ==>
              var n := Commit(w, run, l, true);
              n.ledger == Some(l) && n.histories == w.histories && forall r :: r in n.open <==> r in w.open && r != run
  {
  }

  // ---------- What the program's own calls keep to ----------

  /** New names are not empty, a run names its ledger before it follows a history, ids are drawn afresh,
      and only a reservation that is still open is settled. */
  ghost predicate Honest(w: World, e: Event) {
    match e
    case Create(_) => true
    case Identify(_, _, newId, _) => newId != ""
    case Follow(run, _, _) => run in w.open ==> w.open[run].expected.Some?
    case Reserve(request, _) => Find(LedgerOf(w).entries, request.id).None?
    case Settle(_, id, _, _) =>
      var k := Find(LedgerOf(w).entries, id); k.Some? ==> LedgerOf(w).entries[k.value].state == Reserved
    case Quit(_) => true
  }

  ghost predicate Honestly(settings: Settings, w: World, es: seq<Event>) {
    es != [] ==> Honestly(settings, w, es[..|es| - 1]) && Honest(Steps(settings, w, es[..|es| - 1]), es[|es| - 1])
  }

  // ---------- What every interleaving keeps ----------

  ghost predicate LedgerOk(settings: Settings, l: Ledger) {
    l.schema == 1 && UniqueIds(l.entries) && AllPriced(settings, l.entries) && WithinLimit(settings, l.entries)
  }

  ghost predicate Inv(settings: Settings, w: World) {
    var l := LedgerOf(w);
    && LedgerOk(settings, l)
    && (forall run :: run in w.open && w.open[run].history ==> w.open[run].expected.Some?)
    && (forall run :: run in w.histories ==> l.ledgerId.Some? && Extends(l, w.histories[run]))
  }

  /** The run expects no other name than the ledger has. */
  ghost predicate Named(w: World, run: string) {
    run in w.open ==> w.open[run].expected.None? || LedgerOf(w).ledgerId == w.open[run].expected
  }

  lemma {:induction false} PricedAmounts(settings: Settings, entries: seq<Entry>)
    requires AllPriced(settings, entries)
    ensures AllAmountsValid(entries)
  {
    hide Cost;
  }

  /** A process is refused exactly when it expects another ledger. */
  lemma {:induction false} RefusedExactly(settings: Settings, w: World, run: string)
    requires Inv(settings, w) && run in w.open
    ensures Locked(w, run).Done? <==> Named(w, run)
    ensures Locked(w, run).Done? ==> Locked(w, run).value == LedgerOf(w)
  {
    hide Extends, WithinLimit, AllPriced;
    PricedAmounts(settings, LedgerOf(w).entries);
  }

  /** Replacing the ledger by one that extends it keeps every history valid. */
  lemma {:induction false} CommitKeeps(settings: Settings, w: World, run: string, now: Ledger, lost: bool)
    requires Inv(settings, w) && run in w.open && LedgerOk(settings, now) && Named(w, run)
    requires Extends(now, LedgerOf(w)) && now.ledgerId == LedgerOf(w).ledgerId
    ensures Inv(settings, Commit(w, run, now, lost))
  {
    hide Extends, LedgerOk;
    var v := Commit(w, run, now, lost);
    LedgerUnique(settings, now);
    ExtendsReflexive(now);
    forall r | r in v.histories ensures now.ledgerId.Some? && Extends(now, v.histories[r]) {
      if r in w.histories && v.histories[r] == w.histories[r] {
        ExtendsTransitive(now, LedgerOf(w), w.histories[r]);
      }
    }
  }

  lemma {:induction false} LedgerUnique(settings: Settings, l: Ledger)
    requires LedgerOk(settings, l)
    ensures UniqueIds(l.entries)
  {
  }

  lemma {:induction false} AskedKeeps(settings: Settings, w: World, run: string, expected: Option<string>)
    requires Inv(settings, w) && run in w.open
    ensures Inv(settings, Asked(w, run, expected)) && LedgerOf(Asked(w, run, expected)) == LedgerOf(w)
  {
    hide Extends, LedgerOk;
  }

  lemma {:induction false} IdentifyKeeps(settings: Settings, w: World, run: string, expected: Option<string>,
          newId: string, lost: bool)
    requires Inv(settings, w) && run in w.open
    ensures Inv(settings, Identified(w, run, expected, newId, lost))
  {
    hide Extends, WithinLimit, AllPriced, UniqueIds;
    AskedKeeps(settings, w, run, expected);
    if Naming(w, run, expected, newId).Done? {
      var named, v := Naming(w, run, expected, newId).value, Identified(w, run, expected, newId, lost);
      RefusedExactly(settings, Asked(w, run, expected), run);
      assert named.entries == LedgerOf(w).entries && LedgerOk(settings, named);
      ExtendsReflexive(named);
      forall r | r in v.histories ensures named.ledgerId.Some? && Extends(named, v.histories[r]) {
        if r in w.histories && v.histories[r] == w.histories[r] { assert named == LedgerOf(w); }
      }
    }
  }

  lemma {:induction false} FollowKeeps(settings: Settings, w: World, run: string, resume: bool, lost: bool)
    requires Inv(settings, w) && run in w.open && w.open[run].expected.Some?
    ensures Inv(settings, Followed(w, run, resume, lost))
  {
    hide Extends, LedgerOk, UniqueIds;
    var following, l := Following(w, run), LedgerOf(w);
    assert Inv(settings, following);
    RefusedExactly(settings, following, run);
    LedgerUnique(settings, l);
    ExtendsReflexive(l);
    if Named(following, run) { CommitKeeps(settings, following, run, l, lost); }
  }

  lemma {:induction false} ReserveKeeps(settings: Settings, w: World, request: Request, lost: bool)
    requires Inv(settings, w) && request.runId in w.open && Find(LedgerOf(w).entries, request.id).None?
    ensures Inv(settings, ReservedIn(settings, w, request, lost))
  {
    hide Extends, UniqueIds, AllPriced, WithinLimit, Cost;
    var l := LedgerOf(w);
    RefusedExactly(settings, w, request.runId);
    if Named(w, request.runId) && ReserveOn(settings, l, request).Done? {
      FindNone(l.entries, request.id);
      var now := ReserveOn(settings, l, request).value;
      ReserveExtends(settings, l, request);
      ReserveWithinLimit(settings, l, request);
      assert UniqueIds(now.entries) by { UniqueSnoc(l.entries, NewEntry(settings, request)); }
      CommitKeeps(settings, w, request.runId, now, lost);
    }
  }

  lemma {:induction false} FindNone(entries: seq<Entry>, id: string)
    requires Find(entries, id).None?
    ensures !Holds(entries, id) && forall k :: 0 <= k < |entries| ==> entries[k].id != id
  {
    if entries != [] {
      FindNone(entries[..|entries| - 1], id);
      assert forall k :: 0 <= k < |entries| - 1 ==> entries[k] == entries[..|entries| - 1][k];
    }
  }

  lemma {:induction false} SettleKeeps(settings: Settings, w: World, run: string, id: string, response: Response,
          lost: bool)
    requires Inv(settings, w) && run in w.open && Honest(w, Settle(run, id, response, lost))
    ensures Inv(settings, SettledIn(settings, w, run, id, response, lost))
  {
    hide Extends, AllPriced, WithinLimit, Cost;
    var l := LedgerOf(w);
    RefusedExactly(settings, w, run);
    if Named(w, run) && SettleOn(settings, l, id, response).Done? {
      var now := SettleOn(settings, l, id, response).value;
      SettleExtends(settings, l, id, response);
      SettleWithinLimit(settings, l, id, response);
      assert forall i :: 0 <= i < |l.entries| ==> now.entries[i].id == l.entries[i].id;
      CommitKeeps(settings, w, run, now, lost);
    }
  }

  lemma {:induction false} CreateKeeps(settings: Settings, w: World, run: string)
    requires Inv(settings, w)
    ensures Inv(settings, Step(settings, w, Create(run))) && Inv(settings, Step(settings, w, Quit(run)))
  {
    hide LedgerOk, Extends;
  }

  lemma {:induction false} StepKeeps(settings: Settings, w: World, e: Event)
    requires Inv(settings, w) && Honest(w, e)
    ensures Inv(settings, Step(settings, w, e))
  {
    hide Inv, Identified, Followed, ReservedIn, SettledIn;
    match e
    case Create(run) => CreateKeeps(settings, w, run);
    case Identify(run, expected, newId, lost) =>
      if run in w.open { IdentifyKeeps(settings, w, run, expected, newId, lost); }
    case Follow(run, resume, lost) => if run in w.open { FollowKeeps(settings, w, run, resume, lost); }
    case Reserve(request, lost) => if request.runId in w.open { ReserveKeeps(settings, w, request, lost); }
    case Settle(run, id, response, lost) => if run in w.open { SettleKeeps(settings, w, run, id, response, lost); }
    case Quit(run) => CreateKeeps(settings, w, run);
  }

  lemma {:induction false} Reachable(settings: Settings, es: seq<Event>)
    requires Honestly(settings, EMPTY, es)
    ensures Inv(settings, Steps(settings, EMPTY, es))
  {
    if es == [] {
    } else {
      hide Inv, Step, Honest;
      Reachable(settings, es[..|es| - 1]);
      StepKeeps(settings, Steps(settings, EMPTY, es[..|es| - 1]), es[|es| - 1]);
    }
  }

  // ---------- The theorems ----------

  /** The event is an attempt of the run to name its ledger, and the ledger goes by another name. */
  ghost predicate Misnames(w: World, e: Event, run: string) {
    e.Identify? && e.run == run && run in w.open && Naming(w, run, e.expected, e.newId).Raised?
  }

  ghost predicate NeverMisnames(settings: Settings, w: World, es: seq<Event>, run: string) {
    es != [] ==>
      NeverMisnames(settings, w, es[..|es| - 1], run) && !Misnames(Steps(settings, w, es[..|es| - 1]), es[|es| - 1], run)
  }

  /** A run keeps expecting the ledger's name, whatever the others do, unless its own attempt to name it is refused. */
  lemma {:induction false} NamedStep(settings: Settings, w: World, e: Event, run: string)
    requires Named(w, run) && !Misnames(w, e, run)
    ensures Named(Step(settings, w, e), run)
  {
    hide Extends, AllAmountsValid, Violated, CountOf, Total, Cost, Find, Closed, Usable;
  }

  lemma {:induction false} NamedSteps(settings: Settings, es: seq<Event>, run: string)
    requires NeverMisnames(settings, EMPTY, es, run)
    ensures Named(Steps(settings, EMPTY, es), run)
  {
    if es != [] {
      hide Named, Step, Misnames;
      NamedSteps(settings, es[..|es| - 1], run);
      NamedStep(settings, Steps(settings, EMPTY, es[..|es| - 1]), es[|es| - 1], run);
    } else {
      assert run !in EMPTY.open;
    }
  }

  /** For every interleaving of runs, with any processes lost between the two writes, a run's ledger or
      history is refused exactly when the run expects a name that the ledger does not have; and so never
      once the run's own attempts to name it have been accepted, whatever the others do. */
  lemma {:induction false} HonestRunsNeverRefused(settings: Settings, es: seq<Event>, run: string)
    requires Honestly(settings, EMPTY, es) && run in Steps(settings, EMPTY, es).open
    ensures Locked(Steps(settings, EMPTY, es), run).Done? <==> Named(Steps(settings, EMPTY, es), run)
    ensures NeverMisnames(settings, EMPTY, es, run) ==> Locked(Steps(settings, EMPTY, es), run).Done?
  {
    Reachable(settings, es);
    RefusedExactly(settings, Steps(settings, EMPTY, es), run);
    if NeverMisnames(settings, EMPTY, es, run) { NamedSteps(settings, es, run); }
  }

  /** Why only open reservations are settled: a second settlement that changes the entry makes every
      history that holds the entry refuse the ledger. */
  lemma {:induction false} SettlementExtendsIff(settings: Settings, l: Ledger, id: string, response: Response)
    requires UniqueIds(l.entries) && SettleOn(settings, l, id, response).Done?
    ensures var now := SettleOn(settings, l, id, response).value;
            Extends(now, l) <==> l.entries[Find(l.entries, id).value].state == Reserved || now == l
  {
    hide Cost;
    var n, now := Find(l.entries, id).value, SettleOn(settings, l, id, response).value;
    if l.entries[n].state == Reserved {
      SettleExtends(settings, l, id, response);
    } else if now == l {
      ExtendsReflexive(l);
    } else {
      assert l.entries[n := l.entries[n]] == l.entries;
      assert now.entries[n] != l.entries[n] && now.entries[n].id == l.entries[n].id;
      forall k | 0 <= k < |now.entries| && now.entries[k].id == l.entries[n].id
        ensures !Evolves(l.entries[n], now.entries[k])
      {
        assert k == n;
      }
      assert !Survives(l.entries[n], now.entries);
    }
  }

  /** The total stays within the limit; only a violation can carry it further, by no more than its own overage. */
  lemma {:induction false} SpendingBounded(settings: Settings, es: seq<Event>)
    requires Honestly(settings, EMPTY, es) && Steps(settings, EMPTY, es).ledger.Some?
    ensures var entries := Steps(settings, EMPTY, es).ledger.value.entries;
            && WithinLimit(settings, entries)
            && (!Violated(entries) ==> Total(entries) as real <= settings.spendLimit)
  {
    Reachable(settings, es);
    var w := Steps(settings, EMPTY, es);
    hide Steps, Violated, AllPriced;
    if !Violated(w.ledger.value.entries) {
      NoOverage(w.ledger.value.entries);
    }
  }

  ghost predicate CallsWithin(settings: Settings, w: World) {
    forall run :: |CallsOf(LedgerOf(w).entries, run)| <= settings.callsPerRun
  }

  lemma {:induction false} ReservedCalls(settings: Settings, l: Ledger, ask: Ask, run: string)
    requires |CallsOf(l.entries, run)| <= settings.callsPerRun && ReserveOn(settings, l, ask).Done?
    ensures |CallsOf(ReserveOn(settings, l, ask).value.entries, run)| <= settings.callsPerRun
  {
    hide CallsOf, Cost, Total;
    ReserveExactly(settings, l, ask);
    CallsSnoc(l.entries, NewEntry(settings, ask), run);
  }

  lemma {:induction false} SettledCalls(settings: Settings, l: Ledger, id: string, response: Response, run: string)
    requires SettleOn(settings, l, id, response).Done?
    ensures CallsOf(SettleOn(settings, l, id, response).value.entries, run) == CallsOf(l.entries, run)
  {
    hide Cost;
  }

  lemma {:induction false} StepCalls(settings: Settings, w: World, e: Event)
    requires CallsWithin(settings, w)
    ensures CallsWithin(settings, Step(settings, w, e))
  {
    hide Extends, AllAmountsValid, CallsOf, ReserveOn, SettleOn, CallsWithin;
    var l := LedgerOf(w);
    assert forall run :: |CallsOf(l.entries, run)| <= settings.callsPerRun by { Within(settings, w); }
    forall run ensures |CallsOf(LedgerOf(Step(settings, w, e)).entries, run)| <= settings.callsPerRun {
      if e.Reserve? && ReserveOn(settings, l, e.request).Done? { ReservedCalls(settings, l, e.request, run); }
      if e.Settle? && SettleOn(settings, l, e.id, e.response).Done? { SettledCalls(settings, l, e.id, e.response, run); }
    }
    WithinAgain(settings, Step(settings, w, e));
  }

  lemma {:induction false} Within(settings: Settings, w: World)
    requires CallsWithin(settings, w)
    ensures forall run :: |CallsOf(LedgerOf(w).entries, run)| <= settings.callsPerRun
  {
  }

  lemma {:induction false} WithinAgain(settings: Settings, w: World)
    requires forall run :: |CallsOf(LedgerOf(w).entries, run)| <= settings.callsPerRun
    ensures CallsWithin(settings, w)
  {
  }

  /** However the runs interleave, no run ever holds more reservations than it may make calls. */
  lemma {:induction false} CallsBounded(settings: Settings, es: seq<Event>, run: string)
    ensures |CallsOf(LedgerOf(Steps(settings, EMPTY, es)).entries, run)| <= settings.callsPerRun
  {
    AllCalls(settings, es);
    hide Steps, CallsOf;
  }

  lemma {:induction false} AllCalls(settings: Settings, es: seq<Event>)
    ensures CallsWithin(settings, Steps(settings, EMPTY, es))
  {
    if es == [] {
      forall run ensures CallsOf(NEW_LEDGER.entries, run) == {} {}
    } else {
      hide CallsWithin, Step;
      AllCalls(settings, es[..|es| - 1]);
      StepCalls(settings, Steps(settings, EMPTY, es[..|es| - 1]), es[|es| - 1]);
    }
  }

  ghost predicate Halted(w: World) { w.ledger.Some? && Violated(w.ledger.value.entries) }

  /** The only violating entry is settled once more, within its limits. */
  ghost predicate Clears(w: World, e: Event) {
    && e.Settle? && e.run in w.open && Locked(w, e.run).Done? && Usable(e.response)
    && var l := LedgerOf(w);
       var n := Find(l.entries, e.id);
       && n.Some? && !Exceeds(l.entries[n.value], e.response.usage.value)
       && forall k :: 0 <= k < |l.entries| && k != n.value ==> l.entries[k].state != LimitViolation
  }

  lemma {:induction false} HaltedSettles(settings: Settings, w: World, run: string, id: string, response: Response,
          lost: bool)
    requires Halted(w) && run in w.open
    ensures Halted(SettledIn(settings, w, run, id, response, lost)) <==> !Clears(w, Settle(run, id, response, lost))
    ensures |LedgerOf(SettledIn(settings, w, run, id, response, lost)).entries| == |LedgerOf(w).entries|
  {
    hide Extends, AllAmountsValid, Closed, Cost;
    if Locked(w, run).Done? && SettleOn(settings, LedgerOf(w), id, response).Done? {
      ViolationClearedIff(settings, LedgerOf(w), id, response);
      hide Violated, Exceeds;
    }
  }

  /** While the ledger holds a violation nothing is reserved, and exactly such a settlement lifts it. */
  lemma {:induction false} HaltedStep(settings: Settings, w: World, e: Event)
    requires Halted(w)
    ensures Halted(Step(settings, w, e)) <==> !Clears(w, e)
    ensures |LedgerOf(Step(settings, w, e)).entries| == |LedgerOf(w).entries|
  {
    hide Violated, Extends, AllAmountsValid, Closed, Total, CountOf, Cost, Find, Usable, SettledIn;
    if e.Settle? && e.run in w.open {
      HaltedSettles(settings, w, e.run, e.id, e.response, e.lost);
    }
  }

  lemma {:induction false} HonestNeverClears(w: World, e: Event)
    requires Halted(w) && Honest(w, e)
    ensures !Clears(w, e)
  {
    hide Extends, AllAmountsValid;
  }

  /** Once a provider has exceeded a reservation, no run ever reserves again. */
  lemma {:induction false} ViolationHaltsEveryRun(settings: Settings, w: World, es: seq<Event>)
    requires Halted(w) && Honestly(settings, w, es)
    ensures Halted(Steps(settings, w, es))
    ensures |LedgerOf(Steps(settings, w, es)).entries| == |LedgerOf(w).entries|
  {
    if es != [] {
      hide Halted, Step, Honest, Clears;
      var n := |es| - 1;
      ViolationHaltsEveryRun(settings, w, es[..n]);
      HaltedStep(settings, Steps(settings, w, es[..n]), es[n]);
      HonestNeverClears(Steps(settings, w, es[..n]), es[n]);
    }
  }

  /** A settlement that raises leaves the persisted ledger and every history as they were. */
  lemma {:induction false} FailedSettlementLeavesNoTrace(settings: Settings, w: World, run: string, id: string,
          response: Response, lost: bool)
    requires run in w.open && (Locked(w, run).Raised? || SettleOn(settings, Locked(w, run).value, id, response).Raised?)
    ensures Step(settings, w, Settle(run, id, response, lost)) == w
  {
    hide Extends, AllAmountsValid;
  }

  ghost predicate NoneUncertain(w: World) {
    w.ledger.Some? ==> forall k :: 0 <= k < |w.ledger.value.entries| ==> w.ledger.value.entries[k].state != Uncertain
  }

  lemma {:induction false} StepCertain(settings: Settings, w: World, e: Event)
    requires NoneUncertain(w)
    ensures NoneUncertain(Step(settings, w, e))
  {
    hide Violated, Extends, AllAmountsValid, Total, CountOf, Cost;
  }

  /** The mark for an unusable response is made in memory only: no ledger ever holds it. */
  lemma {:induction false} UncertainIsNeverStored(settings: Settings, es: seq<Event>)
    ensures NoneUncertain(Steps(settings, EMPTY, es))
  {
    if es != [] {
      hide NoneUncertain, Step;
      UncertainIsNeverStored(settings, es[..|es| - 1]);
      StepCertain(settings, Steps(settings, EMPTY, es[..|es| - 1]), es[|es| - 1]);
    }
  }

  /** Why the identity is bound before the history: naming a ledger that a history already follows is refused
      exactly when the name is new. */
  lemma {:induction false} NamingAfterFollowing(l: Ledger, name: string)
    requires UniqueIds(l.entries)
    ensures Extends(l.(ledgerId := Some(name)), l) <==> l.ledgerId == Some(name)
  {
    hide Evolves;
    if l.ledgerId == Some(name) {
      ExtendsReflexive(l);
      assert l.(ledgerId := Some(name)) == l;
    }
  }
}
