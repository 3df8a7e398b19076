# A verified model of the report agents

The repository writes a comparison report about two technologies from frozen sources. A Supervisor routes seven
roles (four research views, a writer, an evaluator, a publisher), keeps the run in a directory that survives crashes,
and pays for model calls from a ledger that several runs share. Everything that a model may get wrong is checked by
code: quotations against their chunks, claims against sections, gaps against decisions, patches against their
targets, and finally the report against an independent recomputation. This project models that code in Dafny and
proves what those checks and protocols add up to. `dafny verify dfyconfig.toml` checks all of it.

Callbacks (model calls, the Judge, the tokenizer, the renderer's file output, the provider) are arbitrary values and
functions: every theorem holds for all of them.

## Reading order

| part | modules | main results |
|---|---|---|
| the run | `RunMachine`, `RunInvariant`, `RunRoles`, `RunCalls`, `RunSafety`, `RunTheorems`, `RunRequests`, `RunLimits`, `RunRewrite`, `RunChoices`, `RunMarks`, `RunEffects`, `RunReplies`, `RunProcess`, `ReportInputs` | `RunSafety.Reachable`, `RunTheorems.DispatchedOnce`, `RunTheorems.LostCallNeverRepeats`, `RunTheorems.CompletedRun`, `RunRequests.OnlyBlankNotesFail`, `RunChoices.OffersExactly`, `RunMarks.UncertainCallsAreNamed`, `RunEffects.AnsweredRests`, `RunEffects.RequestTells`, `RunLimits.RunsAreShort`, `RunRewrite.RewriteKeepsDecisions` |
| the money | `Ledger`, `LedgerRuns`, `Budgets`, `Gateway` | `LedgerRuns.HonestRunsNeverRefused`, `LedgerRuns.SpendingBounded`, `LedgerRuns.CallsBounded`, `Gateway.Gateway.Generate` |
| citation repair | `Texts`, `Quotes`, `Repair`, `RepairPlans`, `Structured`, `Reassessment` | `Quotes.RestoredExact`, `Quotes.RestoredKeepsWording`, `Repair.AnyOrder`, `RepairPlans.PlanExactly`, `RepairPlans.PlanCures`, `Structured.RoundOrderFree`, `Reassessment.ReassessFacets` |
| evidence selection | `Companions`, `Context`, `Coverage`, `Chunking` | `Companions.CompanionsExactly`, `Context.BuildResearchContext`, `Coverage.CoveredLength`, `Chunking.CommonChunks` |
| the report | `Ids`, `Evidence`, `Reports`, `Conflicts`, `Contracts`, `Messages`, `Writer`, `WriterResults`, `Render`, `RenderLines`, `Evaluator`, `Storage` | `Writer.WriteReport`, `Reports.SoundReportPartitions`, `Messages.ReportMeans`, `WriterResults.WrittenHolds`, `Render.CitationsResolve`, `RenderLines.LinesSay`, `Evaluator.RoutesExactly`, `Evaluator.EvaluateReport`, `Storage.StoredReportMatches` |

`Schema` holds the values exchanged between roles, `Orders` the order of texts and stable sorting, `Seqs` a few facts
about concatenation.

## How the run is modelled

`RunMachine.Step` is one event of a run: a start, a resume by a new process, a pause, a crash at any point, the entry
into a node, the dispatch of a request, its completion, or a completion whose artifact is stored while the completing
checkpoint is lost. The machine keeps the directory apart from the process, and a trace of what has been dispatched.
`RunProcess` is the same protocol as the source has it, a store and a process that update their fields; each of its
methods is proved to be a run of the machine, so the theorems about the machine are theorems about it. In the same way
the methods of `Budgets` are proved to be steps of `LedgerRuns.Step`, one process of many on a shared ledger.

A reference holds the content it was made for, so a digest is compared as content (an injective digest). The dictionary
of results has no fixed order in the machine: it is chosen anew at every dispatch, because a snapshot is written with
sorted keys while memory keeps insertion order.

## How the checks are stated

A validator is compared with a predicate of its own that says, from the claims, chunks, sections and decisions alone, when
each of its messages is due (`Evidence.Warranted`, `Reports.Lacks`, `Conflicts.RecordsLack`): it gives exactly those
messages. `Messages`, `WriterResults` and `RenderLines` then say in these terms when a message between roles is accepted,
when a report is written and when it renders. What a role leaves behind is said in the same way in `RunEffects`, field
by field of the state, which replies it takes over at all in `RunReplies`, and what a repair opens and puts in place in `RepairPlans`.

## Where the code and its own description differ

* The mark `uncertain` that a settlement sets on an entry is never stored: the exception that follows it skips both
  writes (`LedgerRuns.UncertainIsNeverStored`). The reservation stays at full charge either way.
* The writer's own check of a draft accepts a synthesis quotation that equals an assessed one up to white space, but the
  Supervisor compares exact copies (`Writer.NormalDraftPasses`, `Writer.LooseButNotExact`; `Writer.DoubleSpace` is an
  instance). What the writer returns is accepted exactly when the quotes are exact copies (`Writer.WriteReport`).
* The writer builds conflict records before the synthesis is registered, and renders with it registered: a conflict text
  that names a synthesis id makes the writer itself fail (`Writer.ConflictsHoldExactly`, `Writer.WriteReport`).
* The store writes dictionaries with sorted keys, and the check of conflict records compares lists made in dictionary
  order. The evaluator reads the report from the store, so of the reports that the writer returns it refuses as
  altered exactly those where the claims of a conflict's owner, or the claims its text names, were not collected in
  the order of their ids (`Storage.StoredReportMatches`), though the writer rendered them, and whether or not the
  Supervisor accepts them. While the research stands first in the results, a text that names a technical claim and a
  market or domain claim is enough (`Storage.CrossingDescends`; `Storage.CrossingConflict` is an instance), and so is
  an owner with a conflict and ten claims (`Storage.TenClaimsDescend`). Results in the order of their names, with
  fewer than ten claims for every owner, are never refused for this (`Storage.SortedResultsAscend`); a run resumed
  after its last result was stored has them in that order (`Storage.SnapshotAscends`), one resumed earlier need not.
* A note of the Supervisor is cut to five hundred characters after it was checked to have some ink, and can be blank then;
  the role it is told to fails before anything is sent (`RunRequests.BlankNoteReached`). Nothing else can make building
  a request fail (`RunRequests.OnlyBlankNotesFail`).
* A violation of the spend limit that "requires ledger review" is lifted by settling the same reservation again, and
  a second settlement that changes the entry makes every history that holds it refuse the ledger (`LedgerRuns.HaltedStep`,
  `LedgerRuns.SettlementExtendsIff`). The gateway settles each reservation once, so its runs never do this.
* The comparison of priorities when a neighbour is offered twice never replaces an offer
  (`Companions.FirstOfferStands`), and the fallback repair of a failing verdict is never needed
  (`Evaluator.FallbackNeverNeeded`).
* The step limit of the default limits is never the reason a run ends (`RunLimits.StepLimitNeverReached`).

Nothing of the repository was executed; the code was read.

## Model

| member | source | states |
|---|---|---|
| `RunSafety.StepKeeps` | agents/supervisor.py:339-425 | every event of a run (start, resume, pause, crash, lost checkpoint, entering a node, dispatch, completion) keeps the run invariant, whatever the callbacks answer |
| `RunSafety.Reachable` | agents/supervisor.py:391-425 | every situation reachable from an empty directory through any sequence of events satisfies the invariant |
| `RunSafety.PerformLands` | agents/supervisor.py:202-337 | a role that does not raise lands on a disk that keeps every earlier artifact and gains at most its own; the exclusive write never meets an earlier one |
| `RunTheorems.RequestIdInjective` | agents/supervisor.py:79-84 | request ids of one run identify role and attempt |
| `RunTheorems.AllLabelled` | agents/supervisor.py:79-84 | in every run each dispatched request carries the envelope of its own role and attempt |
| `RunTheorems.DispatchedOnce` | agents/supervisor.py:339-374 | through any crashes and resumes no two dispatches of a run carry the same request id |
| `RunTheorems.MarkedForever` | agents/supervisor.py:400-425 | once a dead process has left its pending mark, no later event dispatches, stores or clears anything |
| `RunTheorems.LostCallNeverRepeats` | agents/supervisor.py:352-373 | a process lost after a dispatch and before the completing checkpoint leaves that dispatch the last one in every continuation, and the snapshot marked with it |
| `RunTheorems.PutIsAlwaysNew` | agents/store.py:71-79 | in no run does a role find an artifact under the key it is about to write |
| `RunTheorems.CompletedRun` | agents/supervisor.py:320-337 | a completed run has an ok, passed evaluation of exactly the report in the state; the report is structurally sound and what the four current results give; the published Markdown is the evaluated one |
| `RunTheorems.CompletedAssessments` | agents/supervisor.py:255-262 | a completed run's report carries exactly the union of the current results' assessments |
| `RunTheorems.ResultsDerived` | agents/supervisor.py:202-229 | every stored market, stakeholder or domain result was computed against the technical research stored beside it, and that is ok |
| `RunTheorems.SnapshotLoads` | agents/store.py:94-112 | a run's own directory is never rejected: every reference of every saved snapshot resolves |
| `RunRequests.OnlyBlankNotesFail` | agents/contracts.py:145-239 | in every reachable call, for every order of the results, building the request fails if and only if the role takes notes and one of them is blank; all other prerequisites always hold |
| `RunRequests.BlankNoteReached` | agents/supervisor.py:178-182 | such a run exists under any limits: a sound note of the first decision is blank once it is cut to five hundred characters, and the request for the research fails |
| `RunRequests.RewriteSeesSameResults` | agents/supervisor.py:235-243 | a rewrite's previous report was computed from the very results it is rewritten from |
| `RunRewrite.DecisionsReusable` | rag/evidence.py:153-171 | gap decisions sound for one synthesis are a sound bijection for the same assessments, in any order, under any other synthesis |
| `RunRewrite.RewriteKeepsDecisions` | rag/writer.py:148-171 | in every run, when a rewrite is asked for, the sound decisions of the previous report are a sound bijection for the rewrite, whatever synthesis it brings |
| `RunLimits.RunsAreShort` | agents/supervisor.py:108-139 | through any crashes and resumes a run makes at most 4 worker + 2 writer attempts + 1 role calls, and a process executes fewer nodes than the graph's recursion limit |
| `RunLimits.StepLimitNeverReached` | agents/state.py:9-12 | with limits that allow more steps than calls, as the defaults do with 24 steps and at most 15 calls, the step limit never decides anything |
| `RunRoles.AfterVerdictSound` | agents/supervisor.py:119-139 | whatever is offered after a verdict has its prerequisites stored and an attempt left |
| `RunChoices.TargetsAreDue` | agents/supervisor.py:119-125 | the views to be done are exactly those due: research before the others, views to be redone before views never ready |
| `RunChoices.AfterVerdictExactly` | agents/supervisor.py:119-139 | after a verdict exactly the due views are on offer, only while each has an attempt left; with none due the writer, and beside it any view with an attempt left unless the writer was asked to repair |
| `RunChoices.OffersExactly` | agents/supervisor.py:108-139 | for every role and every state, exactly when the Supervisor may choose it; only a passed evaluation opens the publisher, only an unjudged report the evaluator |
| `RunChoices.NotesExactly` | agents/supervisor.py:189-200 | a role asked to redo its work is told, each once, exactly the notes left for it, every repair the stored evaluation asks of it and every gap of its earlier result; any other role nothing |
| `RunChoices.NotesInOrder` | agents/supervisor.py:189-200 | the notes left come first, then the repairs, and the gaps last |
| `RunChoices.RepairsAreTold` | agents/supervisor.py:309-318 | after a verdict exactly the targets of its repairs are asked to act, and each is told every repair meant for it |
| `RunMarks.UncertainCallsAreNamed` | agents/supervisor.py:355-374 | in every run a process between two nodes carries a pending mark exactly when its last call is uncertain, and a snapshot that needs attention always names that call |
| `RunEffects.WorkerLeaves` | agents/supervisor.py:202-233 | an accepted result replaces its view's own, and new technical research drops every other; the notes for the view are taken away, one fixed request is left exactly after an insufficient result, and every other role keeps its notes; report, verdict and publication are gone |
| `RunEffects.AnsweredIsNotDue` | agents/supervisor.py:119-125 | a view that has answered ok is not due any more |
| `RunEffects.AnsweredRests` | agents/supervisor.py:220 | in every run it stays so through crashes, resumes and whatever else happens until the next answer of a role |
| `RunEffects.WriterLeaves` | agents/supervisor.py:244-253 | an accepted report becomes the current one, clears verdict, publication, repair source and all notes, and keeps the results |
| `RunEffects.EvaluatorLeaves` | agents/supervisor.py:297-318 | an accepted verdict is about the report sent; it leaves for each role exactly the first eight reasons meant for it, cut to three hundred characters, and nothing for any other |
| `RunEffects.PublisherLeaves` | agents/supervisor.py:320-337 | an accepted publication completes the run, and only one whose files were read back with the evaluated Markdown does |
| `RunEffects.SupervisorLeaves` | agents/supervisor.py:141-187 | a decision is on offer and is kept; its notes, or its reason for a view that is to work again without notes, are left for its role and no other; stopping ends the run for want of evidence |
| `RunEffects.CutsExactly` | agents/supervisor.py:178-182 | cutting keeps the first notes and the beginning of each, no more and no less than the bounds allow |
| `RunEffects.NothingOffered` | agents/supervisor.py:108-118 | with nothing on offer the run ends as out of steps or attempts exactly while it runs without an error, and as failed otherwise |
| `RunEffects.CodeDecides` | agents/supervisor.py:148-170 | the Supervisor's model is asked exactly when a view or the writer is on offer; where nothing is, or the evaluator or the publisher alone, the code decides |
| `RunEffects.RequestTells` | agents/supervisor.py:148-200 | in every run the request that has been sent tells its role, each once, exactly the notes left, the repairs asked and the gaps of its earlier result, and offers the Supervisor exactly the roles that may follow |
| `RunEffects.RequestCarries` | agents/supervisor.py:202-330 | in every run the request that has been sent carries what the saved state refers to: a view its own earlier result and the research it rests on, the writer the results and the earlier report, the evaluator the report, the publisher report and verdict |
| `RunEffects.ErrorsTell` | agents/supervisor.py:97-106 | a reply that is taken over leaves the run in need of attention exactly when its own error is the uncertain request |
| `RunEffects.AttentionExactly` | agents/supervisor.py:355-374 | in every run a completed call leaves it in need of attention exactly when what was thrown, or the error of the result that was taken over, is the uncertain request; every failure is recorded with its own code |
| `RunReplies.ResearchTaken` | agents/supervisor.py:202-229 | a view's answer is taken over exactly when it is a consistent result for this request and view, the stored results beside it can be read, and the registries merge; a conflict of registries is a mismatch, any other refusal an invalid response, and what is thrown its own code |
| `RunReplies.ReportTaken` | agents/supervisor.py:244-288 | a report is taken over exactly when it is consistent, for this request, and without a document or what the results give; the same codes |
| `RunReplies.VerdictTaken` | agents/supervisor.py:297-318 | a verdict is taken over exactly when it is consistent, about the report sent, names only its claims and gaps, and passes no report that is structurally unsound |
| `RunReplies.PublicationTaken` | agents/supervisor.py:326-337 | a publication is taken over exactly when it is consistent, for this request, and its files are there with the content it names, the Markdown being the evaluated one |
| `RunReplies.DecisionTaken` | agents/supervisor.py:170-176 | a decision is taken over exactly when it is consistent, for this request, and stops or names a role on offer, the writer only with sufficient evidence |
| `RunReplies.BuiltPromises` | agents/contracts.py:145-313 | whatever the directory holds, a request that is made meets its contract: what it hands on is consistent, of this run and earlier, the writer gets all four ok views, the publisher a passed verdict of this very report |
| `RunReplies.LoadsExactly` | agents/store.py:94-112 | a snapshot can be resumed exactly when everything it refers to is there with that very content, the published files included |
| `RunProcess.RunStore.Checkpoint` | agents/store.py:65-69 | replaces the snapshot and nothing else |
| `RunProcess.RunStore.Store` | agents/store.py:71-79 | an artifact is written exactly when its key is free, and can be fetched back; a second write raises and changes nothing |
| `RunProcess.RunStore.Get` | agents/store.py:81-92 | a reference is read exactly when its artifact exists with that very content |
| `RunProcess.RunStore.Load` | agents/store.py:94-112 | a snapshot is accepted exactly when it belongs to the identity and every reference in it still resolves |
| `RunProcess.Process.Enter` | agents/supervisor.py:349-354 | counts the attempt and saves the pending mark before anything is sent |
| `RunProcess.Process.Supervise` | agents/supervisor.py:148-187 | checks the choice against the menu, keeps the decision and tells its notes, as the machine does |
| `RunProcess.Process.Work` | agents/supervisor.py:212-233 | reads the remaining results, merges their registries with the new one and drops what depended on the old result, as the machine does |
| `RunProcess.Process.Write` | agents/supervisor.py:244-253 | a report is stored only after the loops of the recomputation accept it, as the machine demands |
| `RunProcess.Process.Judge` | agents/supervisor.py:297-318 | checks every id of the verdict, and the structure of a report it passes, and collects the repairs' reasons by target, as the machine does |
| `RunProcess.Process.Publish` | agents/supervisor.py:326-337 | both files are read back and the Markdown compared before the run is complete, as the machine demands |
| `ReportInputs.CheckReportInputs` | agents/supervisor.py:255-288 | the loops raise exactly when the report is not what the current results give, with artifact_mismatch exactly when the results conflict |
| `RunProcess.Process.Carry` | agents/supervisor.py:202-337 | the role's own imperative work on a reply, whichever role it is, ends as the machine says, on the same directory |
| `RunProcess.Process.Act` | agents/supervisor.py:355-364 | dispatches at most one request, and an exception anywhere leaves the directory as the callback left it |
| `RunProcess.Process.Node` | agents/supervisor.py:340-373 | one node of the process is a run of the machine that ends at rest, with both directories equal |
| `RunProcess.Process.Run` | agents/supervisor.py:391-425 | a run terminates, refines the machine, returns exactly the saved snapshot, and fails only for a missing or foreign snapshot on resume or an existing one on start |
| `Ledger.CostMonotone` | rag/budget.py:92-96 | more tokens never cost less |
| `Ledger.CostIsPrice` | rag/budget.py:92-96 | a cost is the price of the input at a quarter and of the output at six fifths of the exchange rate with its margin, rounded up to the next whole unit |
| `Ledger.ValidateHistory` | rag/budget.py:71-83 | a ledger is accepted for a history exactly when it extends it: same identity, unique ids, and every earlier entry kept, settled ones untouched |
| `Ledger.ExtendsMeans` | rag/budget.py:71-83 | what extending means, field by field: the name, unique ids, and for every earlier entry one that asks the same and, once settled, is the same |
| `Ledger.ExtendsReflexive` | rag/budget.py:71-83 | every ledger with unique ids extends itself |
| `Ledger.ExtendsTransitive` | rag/budget.py:71-83 | extending is transitive |
| `Ledger.TamperingRefused` | rag/budget.py:78-83 | dropping an entry, or changing a settled one, is rejected |
| `Ledger.ReserveExtends` | rag/budget.py:102-116 | a successful reservation extends the ledger |
| `Ledger.ReserveExactly` | rag/budget.py:102-116 | a reservation is refused exactly when a violation stands, the calls of its run, counted as a set of positions, have reached the limit, or the new total exceeds the spend limit; otherwise it adds one entry that holds what was asked at full price |
| `Ledger.SettleExactly` | rag/budget.py:118-134 | a settlement succeeds exactly for a known id, a standard response and usage that is not negative; it changes that one entry to the reported usage at its price, and marks it as a violation exactly when price or usage exceeds what was reserved |
| `Ledger.SettleExtends` | rag/budget.py:118-134 | a successful settlement of a reserved entry extends the ledger |
| `Ledger.ReserveWithinLimit` | rag/budget.py:102-116 | a reservation never carries the total above the spend limit |
| `Ledger.SettleWithinLimit` | rag/budget.py:118-134 | settling a reservation never carries the total above the limit, except by the overage of a violation |
| `Ledger.ViolationClearedIff` | rag/budget.py:118-134 | a violation disappears exactly when the only violating entry is settled again within its limits |
| `LedgerRuns.HonestRunsNeverRefused` | rag/budget.py:30-55 | for every interleaving of runs on one ledger, with any process lost between the two writes, a run is refused exactly when it expects a name that the ledger does not have; so never once its own attempts to name the ledger were accepted |
| `LedgerRuns.SettlementExtendsIff` | rag/budget.py:71-134 | a settlement leaves the ledger acceptable to every history of it exactly when the entry was still reserved or nothing changes |
| `LedgerRuns.SpendingBounded` | rag/budget.py:102-134 | the total stays within the spend limit unless a violation is recorded, and then exceeds it by at most the violations' own overage |
| `LedgerRuns.CallsBounded` | rag/budget.py:107-108 | in every sequence of events, honest or not, no run has more entries in the shared ledger than the calls it is allowed |
| `LedgerRuns.OpenedExactly` | rag/budget.py:31-56 | a ledger is opened exactly when its name is the expected one, its schema is one, no amount is negative and it extends the history |
| `LedgerRuns.ProcessesCome` | rag/budget.py:24-54 | a process that comes or goes touches no other process, no ledger and no history |
| `LedgerRuns.HaltedStep` | rag/budget.py:105-134 | after a violation no event adds an entry, and the violation is lifted exactly by settling the only violating entry again within its limits |
| `LedgerRuns.ViolationHaltsEveryRun` | rag/budget.py:105-106 | once a provider has exceeded a reservation no run ever reserves again |
| `LedgerRuns.FailedSettlementLeavesNoTrace` | rag/budget.py:46-54 | a settlement that raises inside the lock leaves the persisted ledger and every history as they were |
| `LedgerRuns.UncertainIsNeverStored` | rag/budget.py:122-124 | the mark for an unusable response is made in memory only: no persisted ledger ever holds it |
| `LedgerRuns.NamingAfterFollowing` | rag/budget.py:57-69 | naming a ledger that a history already follows is refused exactly when the name is new |
| `Budgets.Budget.Locked` | rag/budget.py:31-45 | the block is entered exactly with the ledger that passes every check |
| `Budgets.Budget.Write` | rag/budget.py:46-53 | ledger first, then the history, nothing else |
| `Budgets.Budget.BindIdentity` | rag/budget.py:57-69 | an existing ledger keeps its name and its entries, an unnamed one gets the new name; exactly a foreign or unsound ledger is refused, unchanged; the object keeps the name it asked for; the whole is one step of the shared machine |
| `Budgets.Budget.BindHistory` | rag/budget.py:85-90 | the history becomes the ledger, exactly when it may be resumed and the ledger extends it; one step of the shared machine |
| `Budgets.Budget.Reserve` | rag/budget.py:102-116 | a reservation is in the ledger and in the history before its id is handed out; a refusal changes nothing; one step of the shared machine |
| `Budgets.Budget.Settle` | rag/budget.py:118-134 | a settlement is persisted before an excess is reported; any other failure persists nothing; one step of the shared machine |
| `Gateway.Gateway.Preflight` | rag/llm.py:73-118 | a payload is counted at most once and accepted exactly when its exact count leaves room for the protocol and the repair reserve |
| `Gateway.Gateway.Attempt` | rag/llm.py:136-206 | one attempt: a reservation of its own before the POST, at full charge until an answer settles it |
| `Gateway.Gateway.DeliversExactly` | rag/llm.py:136-206 | a text is delivered exactly for a completed answer of the standard tier whose usage stays within the limits asked for and whose settlement was stored |
| `Gateway.Gateway.Generate` | rag/llm.py:120-213 | whatever other calls do meanwhile: at most retries + 1 POSTs, each under its own reservation and only after a 429; all reservations but at most one stay at full charge; new text exactly from a settled completed answer; a cache hit sends and reserves nothing |
| `Gateway.SettlesNewest` | rag/llm.py:196-203 | a settlement closes the newest reservation of the call and no other |
| `Texts.PartOccurs` | rag/corpus.py:37-38 | the normal form of any part of a text occurs in the normal form of the text |
| `Texts.NormalizedShape` | rag/corpus.py:37-38 | normal forms hold single spaces only, none at either end |
| `Quotes.BuildPattern` | rag/repair.py:193-201 | the loop builds exactly the pattern: one piece per character, with an optional hyphen break between letters |
| `Quotes.MatchSound` | rag/repair.py:202-204 | what the matcher consumes is a text of the pattern |
| `Quotes.MatchComplete` | rag/repair.py:202-204 | the matcher succeeds wherever a prefix is a text of the pattern |
| `Quotes.MatchUnique` | rag/repair.py:193-204 | two texts of one pattern that start at the same position are the same: greedy and minimal matching agree |
| `Quotes.SourceVerbatimQuote` | rag/repair.py:185-210 | the loops compute the restorer that the lemmas below are about |
| `Quotes.RestoredExact` | rag/repair.py:185-210 | a quote that occurs stays; otherwise it becomes the only rewrapping in the source, or else the only one at a sentence start with its initial in capital; when there is not exactly one it stays |
| `Quotes.FitsExactly` | rag/repair.py:193-204 | the pattern matches exactly the rewrappings of the quotation: white space for white space, and a hyphen with white space only between two letters |
| `Quotes.SentenceStarts` | rag/repair.py:205-210 | a capital is restored only at the start or after a full stop, an exclamation or a question mark |
| `Quotes.RestoredIsPart` | rag/repair.py:185-210 | a changed quote is a contiguous part of the source that rewraps it |
| `Quotes.RestoredIdempotent` | rag/repair.py:185-210 | restoring twice is restoring once |
| `Quotes.RestoredKeepsWording` | rag/repair.py:185-210 | every character is kept in order: only white space changes, hyphens come in between two letters that stand together and nowhere else, none is dropped, and the initial may get its capital; the result's normal form occurs in the source, and there was a reason to change |
| `Quotes.WordingSpanExact` | rag/repair.py:213-232 | a place is found exactly when the chunk knows where it stands and the wording stands in it at one place only, white space aside; and then it is that place |
| `Quotes.QuoteSpanExactly` | rag/repair.py:213-232 | a quotation has a span exactly when its chunk is located and one place of it says the restored quotation, and the span is that place |
| `Quotes.PlainExact` | rag/repair.py:213-232 | the words joined by white space match exactly the spans with ink at both ends whose normal form is the wording |
| `Repair.TargetIdInjective` | rag/repair.py:93-182 | target ids identify what is repaired |
| `Repair.PlanIndependent` | rag/repair.py:93-182 | the units of one plan touch different parts of the answer and have different target ids |
| `RepairPlans.FieldsExactly` | rag/repair.py:157-168 | the fields a claim is opened in are conditions exactly for missing conditions, caveats exactly for missing limitations, references exactly for missing evidence; any other failure opens none |
| `RepairPlans.PlanPossible` | rag/repair.py:93-182 | what can be planned at all: a plan is refused exactly for conflicting chunks, and exists exactly when every claim's failures can be mended on their own |
| `RepairPlans.PlanExactly` | rag/repair.py:93-182 | which units a plan consists of: for every claim in the issues exactly the fields its failures call for, or the references that fail, and the layout exactly when it is at fault |
| `RepairPlans.CitationExactly` | rag/repair.py:120-156 | a reference is opened for a new quotation alone exactly when its chunk is supplied and no usable chunk holds its wording at a single place |
| `RepairPlans.CandidatesAre` | rag/repair.py:129-145 | the candidates are exactly the usable chunks that hold the wording, or all usable ones where the chunk is unknown; of one place shared by all the earliest chunk alone |
| `RepairPlans.FieldIsNeeded` | rag/repair.py:157-168 | while the field that a failure calls for stays as it is, so does the failure |
| `RepairPlans.PlanCures` | rag/repair.py:247-282 | for every claim that a plan opens there is an accepted patch that leaves it without a failure of wording |
| `Repair.OnlyTargetsChange` | rag/repair.py:247-282 | however many patches are accepted, the answer differs only at the very fields and references they were asked for; no earlier reference is dropped where references may be added, and a corrected quotation keeps its chunk |
| `Repair.IndependentScopes` | rag/repair.py:93-182 | the units of one plan never open both a field and a single reference of one claim |
| `Repair.Commute` | rag/repair.py:247-282 | two independent patches are accepted or refused alike in both orders, with the same answer |
| `Repair.AnyOrder` | rag/graph.py:188-194 | the patches of independent units merge to the same answer, or to the same refusal, in every order |
| `Repair.AcceptedReferenceIsQuoted` | rag/repair.py:247-282 | an accepted reference patch always clears its quotation error: the new reference is quoted from a supplied chunk |
| `RepairPlans.CitationPuts` | rag/repair.py:247-282 | a citation patch is accepted exactly for its own target, and puts the new quotation in that one place |
| `RepairPlans.ReferencePuts` | rag/repair.py:247-282 | a reference patch is accepted exactly when its chunk is a supplied, usable one that holds the quotation, the original one where it must be preserved; it puts that reference in its one place |
| `RepairPlans.ClaimPuts` | rag/repair.py:247-282 | a claim patch is accepted exactly when it differs in opened fields only and keeps earlier references; it puts that claim in its one place |
| `RepairPlans.LayoutPuts` | rag/repair.py:247-282 | a layout patch replaces summary and sections and nothing else |
| `Repair.OwnPatchAccepted` | rag/graph.py:174-180 | the patch the code makes itself to preserve a quote is never refused |
| `Structured.RestoreVerbatim` | rag/repair.py:235-244 | every reference, and nothing else, is restored against its own chunk |
| `Structured.RestoreIdempotent` | rag/repair.py:235-244 | restoring all references twice is restoring them once |
| `Structured.ReferenceRestored` | rag/repair.py:235-244 | a reference keeps its chunk; its quotation is restored against the chunk supplied under that id, and stays as it is without one |
| `Structured.QuotedUntouched` | rag/repair.py:235-244 | a reference already quoted from its chunk is left alone |
| `Structured.SufficientRestored` | rag/repair.py:70-90 | outside the missing facets the original claims come back word for word, in their order; inside, the new ones stay |
| `Structured.SufficientIdempotent` | rag/repair.py:70-90 | restoring sufficient claims again changes nothing |
| `Structured.SufficientExactly` | rag/repair.py:70-90 | the restoration happens exactly when both lists cover the same pairs of technology and facet, no pair twice |
| `Structured.KeptExactly` | rag/graph.py:130-145 | a generated value keeps everything but its claims; they are restored verbatim, and in a reassessment the sufficient ones put back |
| `Structured.CodeAnswers` | rag/graph.py:166-183 | exactly the references whose chunk is supplied and that have a single candidate are answered without the model |
| `Structured.PreflightUnits` | rag/graph.py:166-183 | succeeds exactly when every unit that needs the model has been counted |
| `Structured.PatchUnits` | rag/graph.py:184-191 | at most one generation per unit; the result is all patches merged in order, and it fails exactly when a patch is missing or refused |
| `Structured.PatchedExactly` | rag/graph.py:157-194 | a repair round succeeds exactly when there are at most eight units, each one that the code does not answer itself was counted and is answered, and the answer with all patches merged passes its full check |
| `Structured.Structured` | rag/graph.py:122-219 | what is returned has passed the full check; it is the first answer whenever that passes, else exactly what the one repair round gives; at most eight generations after the first answer, none of them before every unit is counted |
| `Structured.RoundOrderFree` | rag/graph.py:158-194 | the repair round gives the same answer in every order of its patches and touches only the fields and references its units were asked for |
| `Reassessment.ReassessFacets` | rag/reassessment.py:12-100 | for every completion order the same merged assessment, or the same facet's failure; no unit is generated before all preflights pass |
| `Reassessment.OtherFacetsSurvive` | rag/reassessment.py:85-87 | claims outside the missing facets survive word for word, every claim in its place |
| `Reassessment.MissingFacetsReplaced` | rag/reassessment.py:85-87 | claims of the missing facets come from the new units |
| `Reassessment.MergedExactly` | rag/reassessment.py:85-100 | the merged assessment is insufficient exactly when a unit is or a claim says unknown; it has exactly the conflicts and gaps of the original and of the units, each once |
| `Companions.GroupIs` | rag/context.py:27-34 | a group is the paged chunks of its source, each once, in page and offset order |
| `Companions.FirstOfferStands` | rag/context.py:35-47 | no later offer of a neighbour ever has a smaller priority: the comparison never replaces one |
| `Companions.NeighboursAre` | rag/context.py:35-48 | the neighbour candidates are exactly the chunks next to a seed in the page order of their own source |
| `Companions.FallbackBest` | rag/context.py:52-63 | the setup paragraphs chosen for a source are its best by the setup key, fewer than three only when there are no more |
| `Companions.CompanionCandidates` | rag/context.py:21-75 | the loops compute the list that the lemmas of this module are about |
| `Companions.CompanionsExactly` | rag/context.py:21-75 | the companions are exactly the immediate neighbours of the seeds in their own source and at most three setup paragraphs per seed source, each once; nothing is reached from a companion |
| `Companions.AblationsLead` | rag/context.py:64-75 | setup paragraphs that state fixed and varied conditions come first, in the order of the setup key |
| `Orders.SortedStable` | rag/context.py:33 | sorting keeps the order of elements that its key does not tell apart |
| `Companions.SetupKeyMeans` | rag/context.py:52-58 | which setup paragraph goes first: one with fixed and varied conditions, then one with both lengths, then the one with more distinct terms, then source, page and offset |
| `Companions.NeighboursAscend` | rag/context.py:35-48 | neighbours with more setup terms, counted up to eight, come first; then the rank of the first seed beside them decides, and the chunk after a seed goes before the one that precedes it |
| `Companions.CompanionOrder` | rag/context.py:64-75 | behind the leading setups captions and setups take turns, a caption first, and the other neighbours follow; each chunk stands in its first place |
| `Context.Pack` | rag/context.py:78-98 | the three phases of the nested loop give the packing that the lemmas below are about |
| `Context.PackSound` | rag/context.py:78-98 | each id once, within the budget, every required chunk in, and no ranked chunk left out that would still fit |
| `Context.PackedExactly` | rag/context.py:78-98 | what is packed: the required chunks once each, then the companions and then the ranked chunks that a greedy pass takes, skipping exactly what would exceed the budget or the phase's limit |
| `Context.GreedyUnique` | rag/context.py:82-94 | and such a pass takes exactly one selection |
| `Context.SeedsAre` | rag/context.py:101-103 | the seeds are ranked chunks about the technology, each id of one once |
| `Context.CompanionsWithinReserve` | rag/context.py:95-97 | companions never use more than the reserve |
| `Context.RequiredFit` | rag/context.py:82-95 | required chunks are taken exactly when, each id once, they fit together |
| `Context.BuildResearchContext` | rag/context.py:101-121 | raises exactly for invalid budgets; the baseline in its order, less exactly the last unranked chunks, three at most, that must give way while it and the first three new companions do not fit together, and then the greedy pass over the companions: none is left out that would fit the whole budget |
| `Context.AssessmentEvidence` | rag/context.py:124-131 | every cited chunk once and then the greedy pass over the companions within the reserve; raises exactly when a cited chunk is not in the corpus, the budgets are invalid or the cited chunks do not fit together |
| `Context.PackersAgree` | rag/graph.py:72-90 | with valid budgets the three packers of the repository make the same selection |
| `Coverage.CoveredLength` | scripts/retrieval_experiments.py:153-158 | the covered length is the number of positions in the union of the intervals, whatever their order |
| `Coverage.FilledExactly` | scripts/retrieval_experiments.py:161-165 | clipped intervals fill a span exactly when each of its positions lies in a chunk of the same source and page |
| `Coverage.SpanRecovered` | scripts/retrieval_experiments.py:161-165 | a span is recovered exactly when each of its positions lies in a chunk of the same source and page |
| `Coverage.Recover` | scripts/evaluate_context.py:35-42 | the second implementation, with a sweep of its own from the span's start, decides the same |
| `Coverage.SpanCoverage` | scripts/benchmark_embeddings.py:51-56 | the third, with a sweep of its own, gives the share of the span's positions that a chunk of its source and page holds: between zero and one, one exactly when the span is recovered |
| `Coverage.MoreChunksRecover` | scripts/retrieval_experiments.py:161-165 | adding chunks never loses a recovered span |
| `Coverage.UnionSize` | scripts/retrieval_experiments.py:153-174 | a union is as large as the lengths together exactly when the intervals are pairwise disjoint |
| `Coverage.DuplicateRatio` | scripts/retrieval_experiments.py:168-174 | at least zero, below one, and zero exactly for chunks that are disjoint page by page |
| `Chunking.Boundaries` | scripts/retrieval_experiments.py:131-136 | all word starts and both ends, in order, and nothing else |
| `Chunking.Furthest` | scripts/retrieval_experiments.py:137-147 | halving finds a boundary that fits, and the furthest one when fitting is monotone |
| `Chunking.CommonChunks` | scripts/retrieval_experiments.py:131-150 | the pieces tile the page and read back as its text, each fits every model, and when fitting is monotone each is the largest possible and it raises exactly when some word does not fit |
| `Ids.NumberedInjective` | rag/evidence.py:82-97 | a numbered id determines its prefix and its number |
| `Evidence.ValidateAssessment` | rag/evidence.py:6-36 | every message is given exactly when it is due, stated from the claim and the supplied chunks; none exactly when every claim is grounded and, where asked, the core facets are complete |
| `Evidence.FailuresAre` | rag/evidence.py:6-36 | for every claim each of the six messages is given exactly when it is due |
| `Evidence.BalancedIsExact` | rag/evidence.py:74-80 | six claims that cover three facets of both technologies cover each pair once |
| `Evidence.BalancedMeans` | rag/evidence.py:41-46 | a view is balanced exactly when its six claims cover, for either technology, the three facets its name asks about and nothing else |
| `Evidence.ClaimIdsDistinct` | rag/evidence.py:82-97 | one claim record per claim: ids never collide |
| `Evidence.EvidenceIdsDistinct` | rag/evidence.py:82-97 | one evidence record per reference: ids never collide |
| `Evidence.ClaimsAppend` | rag/evidence.py:82-97 | collecting the synthesis afterwards only appends claim records |
| `Evidence.RecordOrigin` | rag/evidence.py:82-97 | every claim record repeats one claim of one group and names the evidence of its references in their order |
| `Evidence.RecordAt` | rag/evidence.py:82-97 | and every claim has its record, after those of the groups before |
| `Evidence.EvidenceOrigin` | rag/evidence.py:82-97 | every evidence record repeats one reference with the claim's conditions and limitations and the place of the chunk supplied under its id |
| `Evidence.EvidenceRecorded` | rag/evidence.py:82-97 | and every reference has its record |
| `Evidence.EvidenceAppend` | rag/evidence.py:82-97 | and only appends evidence records |
| `Evidence.CollectEvidence` | rag/evidence.py:82-97 | raises exactly for a reference to a chunk that is not supplied, and else fills both registries |
| `Reports.GapDecisionErrors` | rag/evidence.py:153-171 | every message is given exactly when it is due; none exactly when the decisions are sound for the gaps |
| `Reports.DecidedOnceMeans` | rag/evidence.py:153-159 | the counting test holds exactly when each gap is decided and nothing is decided twice or besides |
| `Reports.DecisionsArePermutation` | rag/evidence.py:153-171 | sound decisions are a permutation of the gaps |
| `Reports.ReportErrors` | rag/evidence.py:100-150 | every message is given exactly when it is due, stated from the summary, the sections, the decisions and the claims; none exactly when the report is sound |
| `Reports.BodyDistinct` | rag/evidence.py:143-144 | the body repeats a claim exactly when two places of its sections name it |
| `Reports.SoundReportPartitions` | rag/evidence.py:100-150 | the body of a sound report names every claim exactly once and nothing else, and each section exactly the claims of its perspectives; only a claim whose perspective belongs to no section may stand anywhere |
| `Conflicts.BuildConflictRecords` | rag/conflicts.py:7-23 | one unresolved record per conflict text, in order |
| `Conflicts.BuiltSays` | rag/conflicts.py:7-23 | every record is about one text of one assessment, linked to exactly the claims of its perspective, these first, and those its text names, with their conditions and evidence, and reviewed by nobody |
| `Conflicts.TextRecorded` | rag/conflicts.py:7-23 | and every text of every assessment has its record |
| `Conflicts.ConflictRecordErrors` | rag/conflicts.py:26-66 | every message is given exactly when it is due for a record, compared with the one built anew under its id; none exactly when the records are sound |
| `Conflicts.BuiltRecordsSound` | rag/conflicts.py:7-66 | built records always pass the check against the registry they were built from |
| `Conflicts.LargerRegistryExact` | agents/supervisor.py:287-288 | records built before the synthesis was added pass the check made with it exactly when no conflict text names a synthesis id |
| `Storage.SortedKeeps` | agents/store.py:13-14 | writing a dictionary with sorted keys keeps every entry |
| `Storage.ReorderedExactly` | rag/conflicts.py:7-66 | records built over one order of the dictionaries pass the check made over another exactly when, for every conflict, the owner's claims and the claims its text names come in the same order |
| `Storage.SortedOrderExactly` | agents/store.py:13-14 | sorting the registry keeps those lists exactly when they ascend already |
| `Storage.StoredConflictsExactly` | rag/conflicts.py:69-79 | the records of a report the writer has checked pass the renderer's check on the report read back from the store exactly when both lists of every conflict ascend |
| `Storage.StoredReportMatches` | rag/evaluator.py:273-302 | whatever the writer returns, read back from the store: it meets its contract as before, and the evaluator takes it for the written artifact exactly when both lists of every conflict ascend |
| `Storage.TenClaimsDescend` | rag/evidence.py:82-97 | an owner with a conflict and ten claims or more never has an ascending list: its tenth id is sorted before its second |
| `Storage.NamedDescend` | rag/conflicts.py:11-14 | nor does a text that names two claims collected against the order of their ids |
| `Storage.ResearchDescends` | agents/supervisor.py:119-122 | and the ids of market and domain claims always come before those of the technical claims, which are collected first |
| `Storage.CrossingDescends` | agents/supervisor.py:119-122 | so they are named by any conflict text that names a technical claim and a market or domain claim, while the research stands first in the results |
| `Storage.CrossingConflict` | rag/conflicts.py:7-14 | it happens: research, then market, and a conflict text that names the first claim of either |
| `Storage.SortedResultsAscend` | rag/conflicts.py:7-23 | results in the order of their assessments' names, with fewer than ten claims for every owner, have ascending lists whatever the texts name |
| `Storage.SnapshotAscends` | agents/store.py:13-14 | the results of a run resumed after its last result was stored are in that order |
| `Contracts.EvidenceRegistry` | agents/contracts.py:82-95 | accepts exactly the sound registries, and changes no lookup |
| `Contracts.MergeResult` | agents/supervisor.py:29-37 | one more result merges into both registries, or conflicts |
| `Contracts.MergeChunksKeeps` | agents/supervisor.py:29-37 | a merged registry resolves every id of either part to the same chunk as before |
| `Contracts.MergeDistinct` | agents/supervisor.py:29-37 | and repeats no id |
| `Messages.ResearchAccepted` | agents/contracts.py:97-137 | a research result is accepted exactly when it is an explained failure that carries nothing, or a sound registry with exactly the assessments its view owes: no message is due for their claims, and its status says whether one of them is insufficient, with a reason |
| `Messages.ReportAccepted` | agents/contracts.py:180-219 | a report result is accepted exactly when it is an explained failure without a document, or a document whose claims draw no message and whose evidence comes from its own chunks |
| `Messages.VerdictAccepted` | agents/contracts.py:267-288 | a failed evaluation is never a verdict; a verdict passes exactly when all four criteria do, and asks for repairs exactly when it does not |
| `Messages.VerdictNames` | agents/supervisor.py:297-303 | the membership check passes exactly when every claim and every gap that a check or a repair lists is one of the report |
| `Messages.PublicationAccepted` | agents/contracts.py:315-331 | a publication has checked files of one to ten pages or an error, never both |
| `Messages.DecisionAccepted` | agents/contracts.py:291-296 | a decision gives a reason and notes that say something, and does not call the Supervisor itself |
| `Messages.MergeIs` | agents/supervisor.py:29-37 | registries merge exactly when no chunk id and no source id stands for two contents, and then hold every chunk and source of the results and nothing else |
| `Messages.GapRecordOrigin` | rag/writer.py:119-121 | every gap record is about one gap of one assessment, under that assessment's name |
| `Messages.ReportMeans` | rag/evidence.py:100-150 | a report is sound exactly when no message is due for it |
| `Messages.InputsRecomputed` | agents/supervisor.py:255-288 | a report passes the recomputation exactly when its registries come from the results, its synthesis repeats assessed references, its joined data is that of the results and the synthesis, and no message is due for its conflict records |
| `Writer.MergeResults` | rag/writer.py:96-131 | succeeds exactly when the registries merge, are sound and hold every cited chunk, with the joined data of all assessments |
| `Writer.CollectedPlaceable` | agents/contracts.py:97-143 | every claim the writer collects belongs to a section |
| `Writer.SourceClaimsUndo` | rag/writer.py:37-43 | dropping a prior synthesis undoes adding it, claims and evidence alike |
| `Writer.GapIdsDistinct` | rag/writer.py:96-131 | gap ids never collide |
| `Writer.DecisionsConcat` | rag/writer.py:80-89 | sound decisions for two parts of the gaps are sound for the whole |
| `Writer.ReviewGaps` | rag/writer.py:148-171 | deciding the gaps five at a time decides every gap exactly once, and fails exactly when a batch fails |
| `Writer.DraftPasses` | rag/writer.py:46-77 | the check handed to the generator accepts exactly the sound drafts |
| `Writer.AcceptedExactly` | agents/supervisor.py:255-288 | the assembled report passes the Supervisor's independent recomputation exactly when its synthesis quotes are exact copies and no conflict text names a synthesis id |
| `Writer.ConflictsHoldExactly` | rag/conflicts.py:69-79 | with the synthesis in the registry the records built before it pass the renderer's check exactly when no conflict text names a synthesis id |
| `Writer.LooseButNotExact` | rag/writer.py:53-66 | a synthesis that copies a quotation in its normal form is grounded whenever the original is quoted, passes the draft's reuse test, and fails the Supervisor's exactly when that form is not itself cited |
| `Writer.NormalDraftPasses` | rag/writer.py:46-77 | a draft that passes the generator's check passes it again with every synthesis quotation in its normal form; it consists of exact copies exactly when each of those forms is itself cited |
| `Writer.DoubleSpace` | rag/writer.py:53-66 | it happens: a chunk with two spaces, quoted as it stands and copied with one; both claims are grounded, the reuse test passes, the copy is not exact |
| `Writer.WriteReport` | rag/writer.py:148-195 | always a consistent result; a report exactly when no step fails, structurally sound, with the earlier decisions when there is an earlier report, and accepted by the Supervisor exactly when its synthesis quotes are exact copies; a conflict text that names a synthesis id makes the writer itself fail |
| `WriterResults.DraftMeans` | rag/writer.py:46-77 | the check handed to the generator accepts exactly the drafts for which no message is due and whose synthesis consists of inferences that repeat collected references up to white space |
| `WriterResults.GapsFromExactly` | rag/writer.py:148-171 | the gaps are decided in batches of five; the review succeeds exactly when every batch is decided without a message, and joins the replies in order |
| `WriterResults.WrittenHolds` | rag/writer.py:148-195 | a written report was prepared in every respect (registries, citations, draft, decisions, structure, rendering), and carries the rendered text, the chunks its claims rest on in the order of their ids, and their sources |
| `WriterResults.NothingWritten` | rag/writer.py:148-195 | when everything is prepared and nothing is written, what would be carried does not meet its contract |
| `Render.SectionEmitsAll` | rag/render.py:130-172 | table or prose, a section emits exactly the claims it was given |
| `Render.SoundBodyEmitsEveryClaim` | rag/render.py:130-172 | the body of a sound report emits every claim exactly once and nothing else |
| `Render.DocumentEntries` | rag/render.py:98-194 | the document's entries are the summary's claims and then the body's, each with its citations |
| `RenderLines.LinesSay` | rag/render.py:98-194 | what every line of the document says: in the three comparison sections the claims about one technology stand in the row of their facet, each on its own side, and everything else in full |
| `RenderLines.DocumentOrder` | rag/render.py:98-194 | the summary, the sections and the conflicts in their own order, and the sources last, numbered in ascending order |
| `Render.StatedIffUsed` | rag/render.py:98-108 | the document states a claim exactly when the report uses it |
| `Render.EntryCites` | rag/render.py:109-115 | an entry cites a number exactly when its evidence rests on the reference with that number |
| `RenderLines.CitationSays` | rag/render.py:109-115 | a citation names the number of its source and the physical page, or the section where there is no page, of one evidence record of the claim, and every record is cited |
| `Render.CitationsResolve` | rag/render.py:98-194 | every citation number is the number of a listed reference |
| `Render.ReferencesCited` | rag/render.py:98-194 | every listed reference is cited |
| `Render.OpenGapsShownOnce` | rag/render.py:98-194 | the gap block shows every gap without a resolving decision exactly once |
| `Render.DocumentShowsOpenGaps` | rag/render.py:98-194 | so does the whole document of a sound report, and it shows no other gap |
| `RenderLines.GapLinesSay` | rag/render.py:164-174 | a gap line names exactly the open gaps that say its text; every open gap has such a line, and that nothing is open is said exactly then |
| `Render.BuildReportMarkdown` | rag/render.py:98-194 | raises exactly for an unknown claim, evidence or source, too long a summary, or conflict records that fail their check where they are stated, and else emits the document above |
| `RenderLines.RendersExactly` | rag/render.py:98-194 | a report renders exactly when every claim it uses can be traced to a known source, its summary has at most 1200 characters, and no message is due for conflict records that are stated |
| `Evaluator.NoMessageIff` | rag/evaluator.py:147-171 | a used claim draws no message exactly when it is grounded, its evidence ids are known and its linked evidence is its references |
| `Evaluator.CheckCode` | rag/evaluator.py:140-196 | both criteria hold exactly the messages of the used claims, of the layout, of the schema and of absent perspectives: none is dropped and none is added |
| `Evaluator.CleanExactly` | rag/evaluator.py:140-196 | both are clean exactly when the used claims, the report's structure, its schema and its perspectives are |
| `Evaluator.AbsentExactly` | rag/evaluator.py:172-196 | a perspective is missing exactly when no section names a claim that belongs to it |
| `Evaluator.CodeFindingSays` | rag/evaluator.py:198-212 | a finding made from a message names exactly the used claims the message is about and the missing perspectives it mentions |
| `Evaluator.RepairRequests` | rag/evaluator.py:331-361 | every repair of every finding once, in order of first appearance |
| `Evaluator.EveryFindingRepaired` | rag/evaluator.py:331-361 | every finding leads to at least one repair with its reason, sent to one of its roles |
| `Evaluator.RoutesExactly` | rag/evaluator.py:331-361 | to whom a finding is sent: wording to the writer, absent perspectives to the roles they name, a labelled target to its role, claims of one view to that view, anything else to the writer |
| `Evaluator.LabelsName` | rag/evaluator.py:300-310 | the label of a perspective leads to the view that owns its claims |
| `Evaluator.AbsentGoesToItsView` | rag/evaluator.py:331-361 | a finding about absent perspectives is sent exactly to the views whose own assessments fill those sections |
| `Evaluator.RepairCarries` | rag/evaluator.py:331-361 | a repair carries the issue and the request, exactly the finding's claims that its role owns, and exactly the gaps of that role |
| `Evaluator.RepairsSound` | rag/evaluator.py:331-361 | every repair that is sent has a target that can act, a reason, and ids of this report |
| `Evaluator.VerdictConsistent` | agents/contracts.py:267-288 | the verdict is always contract-consistent and passes exactly when there is no finding |
| `Evaluator.VerdictIdsKnown` | agents/supervisor.py:299-303 | every claim and gap id in the verdict passes the Supervisor's membership check |
| `Evaluator.FallbackNeverNeeded` | rag/evaluator.py:401-439 | a failing verdict always has a repair of its own: the made-up fallback is never reached |
| `Evaluator.Conclude` | rag/evaluator.py:214-266 | an invalid draft ends in a failure, a valid one in the verdict, unless a criterion has nothing to say |
| `Evaluator.DraftExactly` | rag/evaluator.py:214-266 | a Judge's draft is accepted exactly when it judges the four criteria once each, every revision has findings, and every finding stands |
| `Evaluator.EvaluateReport` | rag/evaluator.py:373-439 | every answer is one the Supervisor accepts; a report is judged exactly when it renders again to its own text, conflict records included, with its synthesis registered and its chunks listed; it raises only for a blank rationale of the Judge |
| `Evaluator.ArtifactExactly` | rag/evaluator.py:273-302 | a report is taken for the written one exactly when its claims can be traced to its own sources, its summary is short, no message is due for conflict records it states, it renders to the text it carries, its synthesis is registered in order and every chunk behind a used claim is listed |

## Left out

- RunSafety.StepKeeps: does not model the 64 KiB bound on the snapshot; a state above it is refused by the code, and no bound on the state's size is claimed.
- RunTheorems.SnapshotLoads: is about directories that only the run itself writes; a directory edited from outside is refused or not by `RunProcess.RunStore.Load`, whose contract says exactly when.
- RunProcess.Process.Act: hands the results to the callback in the fixed order of the views; other orders are covered in the machine, where the order is chosen at every dispatch.
- RunTheorems.CompletedRun: summaries are reduced to the status and request id that steer the run, and feedback stored under the action "stop", which nothing reads, is not kept.
- RunProcess.RunStore.Store: keeps lists of pairs in the order they were given; the sorting of dictionary keys is `Storage.SortedByKey`, and what depends on it is proved in `Storage`.
- LedgerRuns.SpendingBounded: for runs whose calls keep to `LedgerRuns.Honest`, as the program's own do: reservation ids are drawn afresh and only open reservations are settled; what a second settlement does is `LedgerRuns.SettlementExtendsIff` and `LedgerRuns.HaltedStep`.
- LedgerRuns.HonestRunsNeverRefused: likewise for honest runs; new names are not empty, and a run names its ledger before it follows a history.
- Gateway.Gateway.Generate: assumes ids that no other call uses, a nonnegative number of retries, and settings that stay fixed; waiting times, receipts and the limit on parallel calls are not modelled.
- Ledger.CostMonotone: amounts are exact reals rounded up to a millionth of a won, not floating point.
- Quotes.RestoredExact: the class of letters is a parameter (ASCII letters are letters, white space and hyphens are not), white space is Python's exact set, and the initial's capital is that of the ASCII letters the code asks for.
- Conflicts.LargerRegistryExact: which ids a conflict text names is an arbitrary relation instead of a search for the id as a word.
- Chunking.CommonChunks: when a longer text can fit where a shorter one does not, only tiling and fitting are stated, since the halving then finds some boundary that fits.
- Context.BuildResearchContext: the adjacent-page candidates of the baseline are an arbitrary list, and so are the companions, which `Companions` describes exactly; a chunk's token count is an arbitrary number.
- Companions.CompanionsExactly: corpus ids are distinct, and what the regular expressions find in a chunk is a parameter.
- Coverage.SpanRecovered: positions start at zero, as in the protocol of the experiments.
- Writer.WriteReport: an earlier report carries a document, as the request contract demands; the model's draft and gap decisions, the text of the emitted lines and the length of the summary are parameters, and the single repair round of draft and decisions is `Structured.Structured`.
- Evaluator.EvaluateReport: the Judge's draft, the wording of messages and the schema errors are parameters; metrics and source statistics shown to the Judge are not modelled.
- Render.BuildReportMarkdown: lines are kept as what they emit (claim ids, reference numbers, gaps), not as escaped Markdown text.
- Error messages are error codes or typed constructors; only their presence and order matter to the code modelled.
- File locks, fsync, path checks and temporary files: the lock makes a transaction, a checkpoint replaces the snapshot in one step, and the two ledger writes can be separated by a crash.
- HTTP, threads, heartbeats, tracing and event logs: a provider is a sequence of outcomes, and parallel units finish in an arbitrary order.
- Embeddings, search, downloads, link discovery, PDF and HTML extraction, PDF layout and fonts.
- The command line, settings, submission packaging and the older straight-line pipeline nodes, which repeat what the roles do.
