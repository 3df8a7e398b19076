/** The ledger operations as each process carries them out on the shared files (rag/budget.py). */
module Budgets {
  import opened Schema
  import opened Ledger
  import opened LedgerRuns

  /** The ledger file and the history files beside it. */
  class LedgerFiles {
    var ledger: Option<Ledger>
    var histories: map<string, Ledger>

    constructor ()
      ensures ledger.None? && histories == map[]
    {
      ledger, histories := None, map[];
    }
  }

  class Budget {
    const settings: Settings
    const disk: LedgerFiles
    var expected: Option<string>
    var history: Option<string>

    constructor (settings: Settings, disk: LedgerFiles)
      ensures this.settings == settings && this.disk == disk && expected.None? && history.None?
    {
      this.settings, this.disk := settings, disk;
      expected, history := None, None;
    }

    function Followed(): Option<Ledger>
      reads this, disk
    {
      if history.Some? && history.value in disk.histories then Some(disk.histories[history.value]) else None
    }

    /** The shared files and this object as the process of one run, beside whatever other processes are open. */
    function Seen(run: string, open: map<string, Handle>): World
      reads this, disk
    {
      World(disk.ledger, disk.histories, open[run := Handle(expected, history.Some?)])
    }

    /** A run's history is its own file. */
    predicate Owns(run: string)
      reads this
    {
      history.Some? ==> history.value == run
    }

    /** The lock is taken: every check on the ledger and on the history passes, or nothing happens. */
    method Locked() returns (r: Outcome<Ledger>)
      ensures r == Opened(disk.ledger, expected, Followed())
    {
      var l := if disk.ledger.Some? then disk.ledger.value else NEW_LEDGER;
      if expected.Some? && l.ledgerId != expected {
        return Raised(InvalidResponse);
      }
      if l.schema != 1 {
        return Raised(InvalidResponse);
      }
      for k := 0 to |l.entries|
        invariant forall i :: 0 <= i < k ==> AmountsValid(l.entries[i])
      {
        if !AmountsValid(l.entries[k]) {
          return Raised(InvalidResponse);
        }
      }
      if history.Some? && history.value in disk.histories {
        var ok := ValidateHistory(l, disk.histories[history.value]);
        if !ok {
          return Raised(InvalidResponse);
        }
      }
      r := Done(l);
    }

    /** The writes at the end of a transaction: the ledger first, then the history. */
    method Write(l: Ledger)
      modifies disk
      ensures disk.ledger == Some(l)
      ensures disk.histories == if history.Some? then old(disk.histories)[history.value := l] else old(disk.histories)
    {
      disk.ledger := Some(l);
      if history.Some? {
        disk.histories := disk.histories[history.value := l];
      }
    }

    method BindIdentity(known: Option<string>, newId: string) returns (r: Outcome<string>)
      requires newId != ""
      modifies this`expected, disk
      ensures history == old(history)
      ensures var start := Opened(old(disk.ledger), if known.Some? then known else old(expected), old(Followed()));
              && (r.Done? <==> known != Some("") && start.Done? && start.value.ledgerId != Some(""))
              && (r.Done? ==>
                    && r.value == (if start.value.ledgerId.Some? then start.value.ledgerId.value else newId)
                    && expected == Some(r.value) && (known.Some? ==> r.value == known.value)
                    && disk.ledger == Some(start.value.(ledgerId := Some(r.value)))
                    && disk.histories == (if history.Some? then old(disk.histories)[history.value := disk.ledger.value]
                                          else old(disk.histories)))
      ensures r.Raised? ==>
                unchanged(disk) && expected == (if known.Some? && known.value != "" then known else old(expected))
      ensures forall run, open: map<string, Handle> | Owns(run) ::
                Seen(run, open) == Step(settings, old(Seen(run, open)), Identify(run, known, newId, false))
    {
      hide Extends, AllAmountsValid;
      if known.Some? {
        if known.value == "" {
          return Raised(InvalidResponse);
        }
        expected := known;
      }
      var data := Locked();
      if data.Raised? {
        return Raised(data.code);
      }
      var l := data.value;
      if l.ledgerId.None? {
        l := l.(ledgerId := Some(newId));
      }
      if l.ledgerId == Some("") {
        return Raised(InvalidResponse);
      }
      Write(l);
      expected := l.ledgerId;
      r := Done(l.ledgerId.value);
    }

    method BindHistory(path: string, resume: bool) returns (r: Outcome<()>)
      modifies this`history, disk
      ensures history == Some(path) && expected == old(expected)
      ensures r.Done? <==> (resume ==> path in old(disk.histories)) && Opened(old(disk.ledger), expected, old(Recorded(path))).Done?
      ensures r.Done? ==> disk.ledger == Some(Opened(old(disk.ledger), expected, old(Recorded(path))).value)
                          && disk.histories == old(disk.histories)[path := disk.ledger.value]
      ensures r.Raised? ==> unchanged(disk)
      ensures forall open: map<string, Handle> ::
                Seen(path, open) == Step(settings, old(Seen(path, open)), Follow(path, resume, false))
    {
      history := Some(path);
      if resume && path !in disk.histories {
        return Raised(InvalidResponse);
      }
      var data := Locked();
      if data.Raised? {
        return Raised(data.code);
      }
      Write(data.value);
      r := Done(());
    }

    function Recorded(path: string): Option<Ledger>
      reads disk
    {
      if path in disk.histories then Some(disk.histories[path]) else None
    }

    /** A reservation is in the ledger and in the history before its id is handed out; a refusal changes nothing. */
    method Reserve(ask: Ask) returns (r: Outcome<string>)
      modifies disk
      ensures var start := Opened(old(disk.ledger), expected, old(Followed()));
              if start.Raised? then r == Raised(start.code) && unchanged(disk)
              else var now := ReserveOn(settings, start.value, ask);
                   if now.Raised? then r == Raised(now.code) && unchanged(disk)
                   else r == Done(ask.id) && disk.ledger == Some(now.value)
                        && disk.histories == (if history.Some? then old(disk.histories)[history.value := now.value]
                                              else old(disk.histories))
      ensures ask.inputLimit >= 0 && ask.outputLimit >= 0 && Owns(ask.runId) ==>
                forall open: map<string, Handle> ::
                  Seen(ask.runId, open) == Step(settings, old(Seen(ask.runId, open)), Event.Reserve(ask, false))
    {
      hide Extends, AllAmountsValid;
      var data := Locked();
      if data.Raised? {
        return Raised(data.code);
      }
      var l := data.value;
      var amount := Cost(settings, ask.inputLimit, ask.outputLimit);
      if Violated(l.entries) || CountOf(l.entries, ask.runId) >= settings.callsPerRun
        || (Total(l.entries) + amount) as real > settings.spendLimit
      {
        return Raised(BudgetError);
      }
      Write(l.(entries := l.entries + [NewEntry(settings, ask)]));
      r := Done(ask.id);
    }

    /** A settlement is persisted before an excess is reported; any other failure persists nothing. */
    method Settle(id: string, response: Response) returns (r: Outcome<()>)
      modifies disk
      ensures var start := Opened(old(disk.ledger), expected, old(Followed()));
              if start.Raised? then r == Raised(start.code) && unchanged(disk)
              else var now := SettleOn(settings, start.value, id, response);
                   if now.Raised? then r == Raised(now.code) && unchanged(disk)
                   else && disk.ledger == Some(now.value)
                        && disk.histories == (if history.Some? then old(disk.histories)[history.value := now.value]
                                              else old(disk.histories))
                        && (r.Raised? <==> Exceeds(start.value.entries[Find(start.value.entries, id).value], response.usage.value))
      ensures forall run, open: map<string, Handle> | Owns(run) ::
                Seen(run, open) == Step(settings, old(Seen(run, open)), Event.Settle(run, id, response, false))
    {
      hide Extends, AllAmountsValid;
      var data := Locked();
      if data.Raised? {
        return Raised(data.code);
      }
      var l := data.value;
      var k := Find(l.entries, id);
      if k.None? {
        return Raised(InvalidResponse);
      }
      var entry := l.entries[k.value];
      if !response.standard || response.usage.None? {
        entry := entry.(state := Uncertain);
        return Raised(InvalidResponse);
      }
      var usage := response.usage.value;
      if usage.inputTokens < 0 || usage.outputTokens < 0 {
        return Raised(InvalidResponse);
      }
      entry := entry.(state := Settled, usage := Some(usage), responseId := response.responseId,
                      charged := Some(Cost(settings, usage.inputTokens, usage.outputTokens)));
      if usage.inputTokens > entry.inputLimit || usage.outputTokens > entry.outputLimit {
        entry := entry.(state := LimitViolation);
      }
      Write(l.(entries := l.entries[k.value := entry]));
      r := if entry.state == LimitViolation then Raised(InvalidResponse) else Done(());
    }
  }
}
