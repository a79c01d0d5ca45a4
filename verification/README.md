# A verified model of the research service

The service answers research questions with agents that search, extract claims, cluster them into
findings, write a report and pass it through an output gate. Runs are queued in one table that an
API, several dispatchers and several agents write at the same time. This project models that system
in Dafny and proves what its design relies on.

`dafny verify dfyconfig.toml` checks everything.

## Layout

* **Run lifecycle.** `RunStates` is the shared transition table, `RunRows` the effect of every
  statement on a row, `Watchdog` the pure decision. `RunsTable` and `Dispatch` are the imperative
  side: the table, a watchdog pass, a replica, a dispatcher pass; `Offers` says what such a pass comes
  to among other writers, and `DispatchCases` has the telling cases. `WatchMeaning` and `StepMeaning`
  say what the watchdog and the single steps do in clocks, limits and fields. `Lifecycle` is the
  transition system in which every statement or transaction is one step and every reading may be
  arbitrarily stale; `LifecycleSafety` and `LifecycleTheorems` hold what all its histories keep.
  `EventStream` is the live stream over the same log.
* **Output gate.** `Reports` and `GateRules` define reports and the rules, `GateEvaluate` the rules
  as the code runs them, `GateRemedy` one remediation round sentence by sentence, `GateRound` the
  in-place loop proved to be that round. `GateSentences` and `GateTheorems` say what rules and round
  do to a sentence and to the violation list, `GateCitations` and `GateSources` what is cited and
  listed. `GateConvergence` and `GateOutcome` say what a round settles, `GateConservation` what it
  leaves alone, `GateCounts` and `GateWitnesses` where it falls short; `GateRun` is the whole gate.
  `RuleMeaning` and `RoundMeaning` restate every rule and remedy as conditions on report and ledger.
  `Numeric` extracts and matches quantities; `QuantityMeaning` says what a match is in numbers and
  dates.
* **Claim ledger.** `UnionFind`, `Origins` and `Syndication` decide what an independent origin is,
  `ClaimOrder` when that depends on listing order. `Clustering` and `Corroboration` (with `Folds`
  and `Numbering`) group claims and recompute statistics. `Verdicts`, `Validation`, `ClaimLedger`
  and `Citations` are the fail-closed checks around arbitrary model replies.
* **Research loop.** `Coverage`, `Queries`, `ResearchLoop`, and `SearchBudget` for the concurrent
  searches of a round. `Masking` replaces identifiers in text.
* `Evidence` holds the research state; `Sorting`, `NameOrder`, `Sets` and `Wrappers` are shared.

Regular expressions, URL parsing, redaction, language detection, text similarity and other functions
of text are parameters of the model: the results hold for all of them. Model replies, network losses,
clocks and the order in which concurrent steps happen are arbitrary inputs. Probabilities and scores
are real numbers.

## Where the code and its own promises differ

The model follows the code; each point is proved.

* The API's cancel says it settles a run only if no agent can. It checks for a queued run, but the
  closing call reads the status again, so a run dispatched or started in between is closed as well:
  `LifecycleTheorems.ApiCancelCommits` is the exact condition, `ApiCancelClosesARunningRun` a history.
* A dispatcher takes "already running" to mean that an earlier request for the same attempt got
  through. A replica gives that answer also while it is busy with an older attempt, and when it is free
  but finds the row moved on; in the first case the run stays dispatched until the watchdog acts.
  `Offers.MisledIff` says exactly when the reading is wrong, `DispatchCases.MisledByAnOlderAttempt` and
  `MisledByACancel` show it, and `LostAnswerIsNoticed` the case it is meant for.
* Support and confidence of a finding can depend on the order of its claims: `ClaimOrder` gives
  three claims that show it and the exact condition under which order is irrelevant.
* One remediation round is meant to leave only what it cannot remedy. `GateOutcome.OneRoundIsEnough`
  gives the exact condition on the report before it; each part can fail, as `GateWitnesses` shows:
  masking can bring in a number that nothing supports, a gap is lost with the sentence that listed it
  (`GateConvergence.GapsAfterwards`), a cited document stays unlisted or a listed URL flagged when
  URLs are missing, shared or not stable (`GateOutcome.SourcesAfterwards`), and the mask can change
  its own output in a title.
* The ledger count check reads a stated zero as minus one, so a true "0 contradictions" is flagged and
  dropped: `GateCounts.TrueCountIsAcceptedIffPositive`, `ZeroCountIsDropped`.
* The first research round gives every open sub-question a query even with fewer searches left
  (`Queries.FirstRoundFits`); the shared counter then skips some (`SearchBudget.SkippedMeansSpent`).
* The recursion limit is called exact; a run of the most rounds takes five steps fewer
  (`ResearchLoop.Research`).

## Model

| member | source | states |
|---|---|---|
| RunStates.Validate | dispatcher/internal/contracts/contracts.go:76-94 | Accepts a file exactly when it has the seven states and no other, terminal states without exits and at least one attempt; otherwise reports the problem that comes first in the order of the checks. |
| RunStates.TableAgrees | contracts/run_states.yaml:1-40 | The case-by-case transition predicate used in the proofs is the shipped table, edge for edge, for every pair of states. |
| RunsTable.Table.Claim | dispatcher/internal/store/store.go:69-110 | Takes the oldest claimable unlocked run, or none exactly when there is none; numbers the attempt, issues a fresh lease and fixes the deadline unless one is set. |
| RunsTable.Table.Transition | dispatcher/internal/store/store.go:198-249 | The compare-and-set of requeue, fail and cancel: commits exactly when the observed row still stands; the terminal ones append run_finished and empty the secrets in the same step. |
| RunsTable.Table.ReturnUnstarted | dispatcher/internal/store/store.go:163-176 | Gives a claimed run back exactly when it is still dispatched under that lease; the attempt is taken back. |
| RunsTable.Table.Emit | dispatcher/internal/store/store.go:276-308 | An event gets the next number of its run in the same step that bumps the counter, so a log numbered 1..event_seq stays so and grows by that event. |
| RunsTable.Table.Watchlist | dispatcher/internal/store/store.go:127-151 | Lists each watched run once with its row: dispatched or running, or queued with a deadline, and not a CLI run. |
| RunsTable.Table.WriteOwned | agent/src/research_agent/db/repository.py:93-106 | A heartbeat, counter or metadata write commits exactly when the run is running under the writer's lease, and then changes only those fields. |
| RunsTable.Table.MarkRunning | agent/src/research_agent/db/repository.py:220-232 | A start commits exactly when the row read and the row found are dispatched under the request's lease and attempt. |
| RunsTable.Table.Finish | agent/src/research_agent/db/repository.py:287-370 | Closes a run with one or two closing events numbered next, artifacts stored and secrets emptied, exactly when the transition is still allowed. |
| RunsTable.Table.WatchOnce | dispatcher/internal/dispatcher/dispatcher.go:252-279 | A pass over an arbitrarily old list has exactly the effect of deciding and applying each entry in turn; WatchMeaning says what that is for a healthy and for a stale entry. |
| RunsTable.Table.Tick | dispatcher/internal/dispatcher/dispatcher.go:252-279 | One watchdog tick without other writers leaves no watched run alive past its deadline plus grace, and touches no unwatched run. |
| RunsTable.PassFails | dispatcher/internal/watchdog/decide.go:66-117 | An overdue entry of the list ends up failed with its secrets gone, wherever it stands in the list. |
| WatchMeaning.RequeuedIff | dispatcher/internal/watchdog/decide.go:66-123 | In clocks, stamps and limits: a run is requeued exactly as dispatched or running, unstarted or unheard of for longer than its limit, with an attempt and time left and not asked to stop; the code says which. |
| WatchMeaning.FailedIff | dispatcher/internal/watchdog/decide.go:66-123 | Failed exactly as past its deadline, a running agent past the grace too, or as stale with no attempt left; with the right code. |
| WatchMeaning.CancelledIff | dispatcher/internal/watchdog/decide.go:82-103 | Cancelled exactly when asked to stop and stale in time. |
| WatchMeaning.AskedIff | dispatcher/internal/watchdog/decide.go:88-95 | Its agent is asked to stop exactly between deadline and grace, once. |
| WatchMeaning.LeftAloneIff | dispatcher/internal/watchdog/decide.go:66-123 | Nothing is done exactly to healthy observations: within the deadline and, if dispatched or running, started or heard of within the limit. |
| WatchMeaning.HealthyRunsStay | dispatcher/internal/dispatcher/dispatcher.go:252-279 | A pass leaves every run as it was whose entries are all healthy. |
| WatchMeaning.StaleRunIsRequeued | dispatcher/internal/store/store.go:198-220 | A stale entry with time and attempts left puts its run back in the queue after the backoff, unless the run moved since it was read. |
| LifecycleSafety.ExecKeeps | dispatcher/internal/store/store.go:69-249 | The row invariant holds after any interleaving of all writers' statements, on however stale readings. |
| LifecycleSafety.SettleKeeps | dispatcher/internal/store/store.go:198-249 | A watchdog settle keeps attempts in range, the log numbered and at most one run_finished. |
| LifecycleSafety.FinishKeeps | agent/src/research_agent/db/repository.py:287-370 | So does the agent's closing transaction, with one or two events. |
| LifecycleTheorems.OnlyTheHolderWrites | agent/src/research_agent/db/repository.py:93-106 | Any write, event, checkpoint or closing under a lease commits only while the row is held by it, and running (dispatched for the start). |
| StepMeaning.HeldWritesCommit | agent/src/research_agent/observability/events.py:145-167 | And while it is held and running they do commit, with exactly the event or checkpoint given. |
| LifecycleTheorems.LostStaysLost | dispatcher/internal/store/store.go:154-158 | A lease that a run no longer holds is never held again. |
| LifecycleTheorems.Fencing | agent/src/research_agent/observability/events.py:145-167 | Once a lease is requeued, replaced or the run closed, no later action under it commits, whatever happens in between. |
| LifecycleTheorems.FencedHistory | agent/src/research_agent/db/checkpoints.py:30-46 | The same in every history from the empty system. |
| LifecycleTheorems.TerminalIsAbsorbing | agent/src/research_agent/db/repository.py:452-486 | A closed run keeps its status and result fields for ever. |
| LifecycleTheorems.SecretsGoWithTheTerminalStep | dispatcher/internal/store/store.go:222-249 | The step that closes a run empties its secrets; only a settle, the API's cancel or the agent's closing is such a step. |
| LifecycleTheorems.OneStartPerLease | agent/src/research_agent/agent_server/executor.py:136-172 | A lease is decided at most once: one start or one give-back, never both, however often it is offered. |
| LifecycleTheorems.StartsBounded | dispatcher/internal/watchdog/decide.go:108-113 | From any state, the starts still to come are bounded by the attempts left. |
| LifecycleTheorems.RetryBudget | dispatcher/internal/watchdog/decide.go:108-113 | Over a whole run at most maxAttempts starts commit; queued means attempts to spare, dispatched and running mean 1..maxAttempts. |
| LifecycleTheorems.ClampNeverBites | dispatcher/internal/store/store.go:163-176 | In reachable states giving back always takes one attempt off; the floor at zero is never used. |
| LifecycleTheorems.GapFreeTimeline | agent/src/research_agent/observability/events.py:145-167 | In every reachable state a run's events are numbered 1..event_seq in order, with at most one run_finished. |
| LifecycleTheorems.LogGrows | dispatcher/internal/store/store.go:276-308 | The log is append-only. |
| LifecycleTheorems.DeadlineNeverMoves | dispatcher/internal/store/store.go:76-82 | Once set, the deadline survives every requeue, start and write. |
| LifecycleTheorems.DeadlineFixedByTheFirstClaim | dispatcher/internal/store/store.go:76-82 | The first claim sets it to now plus the larger of the hard limit and the run's own plus margin; later claims keep it. |
| StepMeaning.ClaimedMeans | dispatcher/internal/store/store.go:76-110 | A claim in its fields: dispatched under the lease, the attempt counted, no agent, and a first deadline no earlier than either limit and equal to one. |
| StepMeaning.GivenBackIff | dispatcher/internal/store/store.go:163-176 | A give-back in its fields: committed exactly while dispatched under the lease, queued after the backoff, the attempt taken off. |
| LifecycleTheorems.PastDeadlineIsNeverRequeued | dispatcher/internal/watchdog/decide.go:66-117 | No overdue observation is requeued, and past the grace every live status is failed. |
| LifecycleTheorems.DeadlineFailureLands | dispatcher/internal/store/store.go:179-182 | The deadline failure commits unless status or lease changed since the observation; any number of heartbeats cannot make it lose. |
| LifecycleTheorems.OverdueRunFails | dispatcher/internal/dispatcher/dispatcher.go:252-279 | With any other writers between the reading and the action: a run read past deadline and grace ends failed for good with its secrets gone, unless its status or lease moved in between. |
| LifecycleTheorems.ConcurrencyLimit | dispatcher/internal/dispatcher/dispatcher.go:131-152 | With d dispatchers each checking room before claiming, at most maxConcurrent + d - 1 runs are active, command-line runs not counted. |
| LifecycleTheorems.ApiCancelCommits | agent/src/research_agent/api/routes/runs.py:184-227 | Whatever two readings it acts on, the API's own closing commits exactly when the first was queued, the second live, and the status has not changed since the second. |
| LifecycleTheorems.ApiCancelClosesARunningRun | agent/src/research_agent/api/routes/runs.py:217-227 | A history from the empty system in which the route sees a queued run, the run is claimed and started, the second reading sees it running, and the cancel closes it under the live lease. |
| LifecycleTheorems.CancelFlagStays | dispatcher/internal/store/store.go:191-194 | A cancel request is never taken back, whatever is done to the run. |
| StepMeaning.AskedIsFlagged | dispatcher/internal/store/store.go:191-194 | It is set by a request, and by the watchdog between deadline and end of the grace. |
| LifecycleTheorems.CancelIsSeen | dispatcher/internal/watchdog/decide.go:66-106 | So every later observation of the watchdog sees it: the run is not requeued again, and is cancelled once its agent falls silent in time. |
| Dispatch.Replica.Execute | agent/src/research_agent/agent_server/executor.py:136-172 | A replica executing the run says so; else it needs a slot, then the row, then the row as claimed: it takes the run exactly when all hold, and otherwise answers why and changes nothing. Its tasks never exceed its slots. |
| Dispatch.Replica.SlotsFree | agent/src/research_agent/agent_server/executor.py:103-109 | No free slot exactly when draining or full. |
| Dispatch.Offer | dispatcher/internal/dispatcher/dispatcher.go:162-184 | With requests and answers lost and anything written by others in between, the offers leave the table, the tasks of every replica and the belief of the dispatcher exactly as the sequence of single offers does. |
| Dispatch.DispatchOnce | dispatcher/internal/dispatcher/dispatcher.go:131-197 | Nothing is claimed exactly when the limit is reached, no replica is known or nothing is claimable; otherwise the pass is the offers after the claim and its event, then run_dispatched, nothing, or give-back and problem by what the dispatcher believes. If nobody else writes, the run ends running where it was taken, dispatched, or given back, with exactly those events. |
| Offers.MisledIff | dispatcher/internal/dispatcher/dispatcher.go:162-184 | The dispatcher believes the run taken though no replica took it when asked exactly when the first replica to decide refuses: still executing the run under an earlier attempt, or with a slot but finding the row moved by somebody else - both answers are 409. |
| Offers.StarterIff | dispatcher/internal/dispatcher/dispatcher.go:162-184 | A replica takes the run exactly when it decides first and finds the row as claimed, and no other does; the start goes unnoticed exactly when from that replica on no replica that executes the run or has a slot is both reached and heard. |
| Offers.NeverGivenBack | dispatcher/internal/store/store.go:163-176 | A run that was taken is never given back, even if every answer is lost and whatever others do. |
| Offers.QuietPassHandles | dispatcher/internal/dispatcher/dispatcher.go:162-197 | Without other writers: running under the new lease, dispatched for the watchdog, or given back, and the dispatcher's own events are exactly claim plus success, nothing, or problem. |
| Offers.ReturnedIsGivenBack | dispatcher/internal/store/store.go:163-176 | Claim followed by give-back restores the row but for first deadline, availability and log. |
| DispatchCases.OthersYield | dispatcher/internal/store/store.go:69-176 | In a reachable system no steps of anybody delete a run or dispatch it again under a lease issued before. |
| DispatchCases.PassesAreFair | dispatcher/internal/dispatcher/dispatcher.go:162-184 | So every pass interleaved with steps of the system meets the fairness the two statements above assume. |
| DispatchCases.LostAnswerIsNoticed | dispatcher/internal/dispatcher/dispatcher.go:177-180 | Two idle replicas, the first answer lost: the second finds the row running and refuses, the dispatcher counts it as success, and no problem is reported. |
| DispatchCases.MisledByACancel | agent/src/research_agent/agent_server/app.py:152-157 | A run cancelled between claim and offer: an idle replica refuses it and the dispatcher believes it taken. |
| DispatchCases.MisledByAnOlderAttempt | dispatcher/internal/dispatcher/dispatcher.go:177-180 | A pass, a silent agent, the watchdog's requeue and a second pass over the replica that still holds the first attempt: the run ends dispatched, believed taken, and nobody works on the second attempt. |
| EventStream.StreamEvents | agent/src/research_agent/api/sse.py:79-111 | For any interleaving of commits with status-then-fetch, a client resuming at n gets exactly n+1, n+2, ...: each turn all there is, at most a batch, up to the first turn that finds less than a batch and a run that is over or unknown; run_closed only after everything committed up to the terminal status it saw. |
| EventStream.ProtocolReads | agent/src/research_agent/api/sse.py:79-86 | Readings at any later and later points of any history of the run lifecycle are gap-free and each extends the one before. |
| EventStream.StreamRun | agent/src/research_agent/api/sse.py:75-111 | So over every such history the client resuming at n gets exactly n+1, n+2, ... of the final log, and a close tells the final terminal status. |
| EventStream.KeepsUp | agent/src/research_agent/api/sse.py:87-100 | Every turn so far was a full batch, or the client has all that was there when it connected. |
| EventStream.ClosesInTime | agent/src/research_agent/api/sse.py:97-104 | On a run that is over, the stream is closed once it has had the turns to send what is left. |
| EventStream.FetchIsSlice | agent/src/research_agent/api/sse.py:65-72 | A fetch from a gap-free log is the contiguous slice after the cursor. |
| EventStream.PieceGrows | agent/src/research_agent/api/sse.py:87-111 | A batch extends what was sent without gap or repeat, and a short batch means nothing is left. |
| EventStream.Turn | agent/src/research_agent/api/sse.py:87-111 | One turn of the loop: cursor and frames stay in step with the log. |
| GateEvaluate.Support | agent/src/research_agent/gate/rules.py:192-206 | The gathered quantities match exactly what some cited text states. |
| GateEvaluate.CheckNumbers | agent/src/research_agent/gate/rules.py:229-317 | The number check with its lazily gathered support flags exactly what the per-quantity rule says; RuleMeaning says what that is. |
| GateEvaluate.CheckSources | agent/src/research_agent/gate/rules.py:387-423 | The URL check with its two running sets equals the rule stated over earlier entries. |
| GateEvaluate.CheckListed | agent/src/research_agent/gate/rules.py:161-171 | The walk over the distinct listed documents finds each uncited one once. |
| GateEvaluate.CheckUnlisted | agent/src/research_agent/gate/rules.py:172-180 | Sorting the difference of cited and listed documents gives what filtering the sorted cited documents gives. |
| GateEvaluate.CheckKnownGaps | agent/src/research_agent/gate/rules.py:364-381 | The set of gap labels decides which exhausted sub-questions are missing, in the order of the plan. |
| GateEvaluate.Evaluate | agent/src/research_agent/gate/rules.py:539-543 | All rules in order, as the code runs them with its sets, loops and sorting, produce exactly the specified violations. |
| GateTheorems.ScanMembers | agent/src/research_agent/gate/rules.py:72-75 | With distinct section keys an address names one sentence, and a scan flags exactly what the rule says of it. |
| GateTheorems.ViolationMembers | agent/src/research_agent/gate/rules.py:539-543 | Which violations a report has, told by kind: sentence, section, source, gap. |
| RuleMeaning.BareFactIff | agent/src/research_agent/gate/rules.py:271-302 | A sentence is reported as bare exactly if it is a fact or recommendation stating a quantity, not a count of the ledger, that no quantity of the question and none of a non-empty text behind its cited findings matches, exactly or within tolerance. |
| RuleMeaning.WithinToleranceIff | agent/src/research_agent/gate/rules.py:271-317 | Reported as approximate exactly if some such quantity is matched within tolerance only. |
| RuleMeaning.BackedIff | agent/src/research_agent/gate/rules.py:192-206 | What backs a quantity, text by text: statement and value of a cited finding, text, quote, value and as-of date of its claims. |
| RuleMeaning.LedgerMismatchIff | agent/src/research_agent/gate/rules.py:246-268 | A count of the ledger is reported exactly if it is zero or missing, or its whole part is none of the counts it may mean. |
| RuleMeaning.UncitedIff | agent/src/research_agent/gate/rules.py:118-130 | A sentence lacks a citation exactly if it is a fact that cites no finding. |
| RuleMeaning.UnknownCitationIff | agent/src/research_agent/gate/rules.py:149-160 | A citation is unknown exactly if the sentence makes it and the ledger has no such finding. |
| RuleMeaning.UnhedgedIff | agent/src/research_agent/gate/rules.py:323-345 | A sentence is unhedged exactly if it cites a contested finding outside the section for them and is not labelled uncertain. |
| RuleMeaning.UnlabelledIff | agent/src/research_agent/gate/rules.py:348-361 | A fact is unlabelled exactly if it cites findings of the ledger, all of them single-sourced, and does not say so. |
| RuleMeaning.UnlinkedIff | agent/src/research_agent/gate/rules.py:471-485 | A recommendation is unlinked exactly if it refers to no finding of the ledger. |
| RuleMeaning.IneligibleIff | agent/src/research_agent/gate/rules.py:489-520 | A cited finding is ineligible exactly if it awaits confirmation or a claim of it was refuted or never judged. |
| RuleMeaning.MissingGapIff | agent/src/research_agent/gate/rules.py:364-381 | A gap is missing exactly for an exhausted sub-question no sentence among the known gaps is labelled with. |
| RuleMeaning.MissingSectionIff | agent/src/research_agent/gate/rules.py:81-115 | A section is missing exactly if the report has none and it is required, or it is the known gaps and a sub-question was given up. |
| RuleMeaning.NoSupportedFindingIff | agent/src/research_agent/gate/rules.py:81-115 | Findings are lacking exactly if their section has no fact that cites one. |
| RuleMeaning.SourceListIff | agent/src/research_agent/gate/rules.py:161-181 | A document is listed but not cited, or cited but not listed, told by the sentences that cite it and the entries that list it. |
| RuleMeaning.DuplicateSourceIff | agent/src/research_agent/gate/rules.py:387-423 | An entry repeats another exactly if an earlier valid one has its canonical URL or its document. |
| RuleMeaning.InvalidUrlIff | agent/src/research_agent/gate/rules.py:387-423 | An entry is invalid exactly if its URL has no canonical form. |
| RuleMeaning.NotCanonicalIff | agent/src/research_agent/gate/rules.py:387-423 | Not canonical exactly if that form differs from it. |
| RuleMeaning.SensitiveTextIff | agent/src/research_agent/gate/rules.py:426-442 | A text is sensitive exactly if redaction changes it. |
| RuleMeaning.SensitiveSourceIff | agent/src/research_agent/gate/rules.py:426-442 | So is a listed title. |
| RuleMeaning.WrongLanguageIff | agent/src/research_agent/gate/rules.py:445-468 | The language is judged on the whole prose, the texts that assert something joined in order. |
| RuleMeaning.ConfirmsIff | agent/src/research_agent/gate/rules.py:209-227 | Which counts of the ledger a number may mean, by the word before or after it. |
| GateRemedy.CiteDocuments | agent/src/research_agent/gate/rules.py:133-144 | Cited documents in order of first citation, once each. |
| GateRemedy.RebuildSources | agent/src/research_agent/gate/runner.py:145-165 | The source list is a function of the citations: canonical URLs, no URL twice, numbered from one. |
| GateSources.CitedOnce | agent/src/research_agent/gate/rules.py:133-144 | No document is cited twice in the list. |
| GateCitations.CitedMembers | agent/src/research_agent/gate/rules.py:133-144 | A document is in it exactly if it is known and behind a cited finding. |
| GateCitations.DocumentMembers | agent/src/research_agent/gate/rules.py:133-144 | In terms of the report: exactly if some sentence of some section rests on it, so neither the order of sections nor that of sentences changes what is cited. |
| GateSources.SourceListShape | agent/src/research_agent/gate/runner.py:145-165 | Every entry is a cited document under its own canonical URL, numbered in order, no URL or document twice. |
| GateSources.AllListed | agent/src/research_agent/gate/runner.py:148-153 | Every cited document is listed exactly if the cited documents have valid, pairwise distinct canonical URLs. |
| GateRound.ApplyViolation | agent/src/research_agent/gate/runner.py:195-238 | One violation treated by address has its specified effect although earlier ones already edited the report. |
| GateRound.Remediate | agent/src/research_agent/gate/runner.py:168-259 | The in-place round by address equals the sentence-by-sentence specification: treated survivors in order, gate prose behind them, exact number removed, sources rebuilt. |
| GateSentences.TreatedShape | agent/src/research_agent/gate/runner.py:195-238 | A treated sentence keeps kind and finding references, citations are only filtered to the ledger, labels only added, text changed only by masking. |
| RoundMeaning.DroppedIff | agent/src/research_agent/gate/runner.py:204-215 | A sentence is dropped exactly for one of five kinds of violation naming it, or as a fact none of whose citations is in the ledger, one of them reported. |
| RoundMeaning.LabelsIff | agent/src/research_agent/gate/runner.py:216-221 | Its labels afterwards are those before and exactly the ones its warnings ask for. |
| RoundMeaning.CitationsAre | agent/src/research_agent/gate/runner.py:207-212 | Its citations afterwards are all, or once an unknown one was reported exactly those in the ledger. |
| RoundMeaning.MaskedText | agent/src/research_agent/gate/runner.py:234-238 | Its text is masked exactly if that was reported. |
| RoundMeaning.GapsIff | agent/src/research_agent/gate/runner.py:222-233 | Exactly one kind of sentence is written for a reported gap, about the sub-question of that id. |
| RoundMeaning.MarkerIff | agent/src/research_agent/gate/runner.py:196-203 | A missing section is marked empty exactly if nothing was put into it. |
| RoundMeaning.OpenedInOrder | agent/src/research_agent/gate/runner.py:135-142 | An opened section takes its place in the order of reading, empty. |
| GateSentences.DoomedHasCause | agent/src/research_agent/gate/runner.py:204-212 | A sentence is dropped only for a violation that names it. |
| GateSentences.StillCites | agent/src/research_agent/gate/runner.py:204-215 | A surviving fact or recommendation still rests on a finding of the ledger. |
| GateSentences.NumbersAfter | agent/src/research_agent/gate/runner.py:204-215 | The number rule says of a survivor exactly what it says of its new text with the citations it had before the round. |
| GateSentences.SurvivorIsClean | agent/src/research_agent/gate/runner.py:168-259 | After the round no rule says more of a survivor than that a number is approximate exactly if the text it is left with has all its quantities supported by what it cited before and is left alone by the mask. |
| GateSentences.AuthoredIsClean | agent/src/research_agent/gate/runner.py:195-238 | What the gate writes itself is never flagged but for sensitive wording. |
| GateConvergence.ViolationsAreGenuine | agent/src/research_agent/gate/runner.py:174-180 | Every address a round starts from exists. |
| GateConvergence.Convergence | agent/src/research_agent/gate/runner.py:168-259 | After one round no required section is missing and no listed source uncited; and no rule flags a sentence except as an approximation, or gate prose for its wording, exactly if everything the round masked reads well afterwards. |
| GateConvergence.GapsAfterwards | agent/src/research_agent/gate/rules.py:364-381 | An exhausted sub-question is missing from the known gaps afterwards exactly if it was listed before and every sentence listing it was dropped. |
| GateConvergence.CitationFreeGapsStay | agent/src/research_agent/gate/runner.py:222-233 | Gap sentences that cite nothing keep their sub-question listed. |
| GateOutcome.CitedAfterwards | agent/src/research_agent/gate/runner.py:240-259 | The documents cited after a round are exactly those behind findings cited by the sentences it keeps, hence among those cited before. |
| GateOutcome.SourcesAfterwards | agent/src/research_agent/gate/runner.py:145-165 | Told from the report before the round: no cited document is unlisted afterwards exactly if those still cited have valid, distinct URLs, and no listed URL is flagged exactly if their URLs are fixed points of canonicalisation. |
| GateOutcome.OneRoundIsEnough | agent/src/research_agent/gate/runner.py:262-300 | After one round nothing but a lack of supported findings can fail the report exactly if what was masked reads well, no listed gap lost its last sentence, and the documents still cited have valid, distinct, stable URLs and stably masked titles. |
| GateOutcome.TidyReportsConverge | agent/src/research_agent/gate/runner.py:262-300 | So a report with nothing to mask, gap sentences that cite nothing, and valid, distinct, stable URLs of the documents it cites has no error after one round but, perhaps, the lack of a finding. |
| GateCounts.CountIsFlaggedIff | agent/src/research_agent/gate/rules.py:246-268 | A number counting something of the ledger is flagged exactly if it is zero, whatever the ledger holds, or its whole part is no count of the ledger. |
| GateCounts.TrueCountIsAcceptedIffPositive | agent/src/research_agent/gate/rules.py:250 | A true count is accepted exactly if it is not zero. |
| GateCounts.FalseCountIsFlagged | agent/src/research_agent/gate/rules.py:250-251 | A false count is always flagged. |
| GateCounts.ZeroCountIsDropped | agent/src/research_agent/gate/runner.py:204-206 | In any report, a fact or recommendation stating a zero count is dropped by the round. |
| GateWitnesses.RunRound | agent/src/research_agent/gate/runner.py:281-290 | Every report has its round, so none of the statements about rounds is empty. |
| GateWitnesses.TrueZeroIsDropped | agent/src/research_agent/gate/rules.py:250-251 | A ledger without contradictions and the cited sentence "0 contradictions": its count is its only violation, and it is dropped. |
| GateWitnesses.MaskBringsANumber | agent/src/research_agent/gate/runner.py:234-238 | A report with nothing wrong but an address inside angle brackets: the mask ends the bracketed, unread text early, and a number stated by no source is an error after the round. |
| GateWitnesses.GapIsLost | agent/src/research_agent/gate/runner.py:204-233 | A gap listed by an uncited fact: no gap violation before the round, one after it. |
| GateWitnesses.OnlyItsOwnAmountIsBacked | agent/src/research_agent/gate/rules.py:271-302 | A fact citing a finding about ten million euros: stating ten million passes, stating twenty million is flagged and dropped. |
| GateWitnesses.WithoutUrlIsUnlisted | agent/src/research_agent/gate/runner.py:148-153 | A cited page without a valid URL leaves a cited document unlisted. |
| GateWitnesses.OneOfTwoIsUnlisted | agent/src/research_agent/gate/runner.py:148-153 | So do two cited pages with one canonical URL. |
| GateWitnesses.UnstableIsFlagged | agent/src/research_agent/agent/dedup/urls.py:34-62 | A canonical URL that is not its own canonical form is flagged after the round that wrote it. |
| GateWitnesses.LeakyTitleIsFlagged | agent/src/research_agent/gate/runner.py:156-162 | A listed title whose mask the mask would change again is an error after the round that wrote it. |
| GateWitnesses.SuchPagesExist | agent/src/research_agent/agent/dedup/urls.py:41-62 | Pages of all four kinds: an ftp address, one page over http and https, a doubled www prefix, of which only one is removed, and a title in which a masked phone number completes a connection string. |
| GateConvergence.SecondRoundRemovesNothing | agent/src/research_agent/gate/runner.py:281-290 | A second round drops no sentence exactly if the numbers of the masked sentences are all supported. |
| GateConservation.TreatedIsKept | agent/src/research_agent/gate/runner.py:195-238 | Whatever violations touch a sentence, it is kept as itself: masked, filtered, labelled. |
| GateConservation.KeptTwice | agent/src/research_agent/gate/runner.py:240-256 | Being a faithful subsequence survives further rounds, losses adding up. |
| GateConservation.ConservedCounts | agent/src/research_agent/gate/runner.py:240-256 | The drop count bounds the missing facts and recommendations, and equals their number when notes cite nothing. |
| GateConservation.RoundConserves | agent/src/research_agent/gate/runner.py:240-259 | Section by section, one round only drops, masks, filters and labels, and counts its drops exactly. |
| GateConservation.MaskedOnce | agent/src/research_agent/gate/runner.py:234-237 | With an idempotent mask a delivered text is the original or its mask. |
| GateRun.NoteChangesNoError | agent/src/research_agent/gate/runner.py:292-300 | Evaluating the delivered report, drop note included, finds the same errors the verdict was based on. |
| GateRun.RunGate | agent/src/research_agent/gate/runner.py:262-317 | A whole run: negative rounds refused; round after round as long as something can be remedied and a round is left, each exactly as specified; the delivered report is the last one, with a sentence at the end of the summary naming the number removed exactly if any was; prose conserved with an exact count; verdict fail exactly with an error left and pass exactly with nothing ever found, errors those of the delivered report; with one round allowed, only a lack of findings is left exactly if no round was needed or the round was safe. |
| Numeric.ExtractQuantities | agent/src/research_agent/gate/numeric.py:233-252 | In reading order and disjoint, exactly the matches that touch no ignored text and no match kept of an earlier pattern or earlier in their own. |
| Numeric.MatchIsSymmetric | agent/src/research_agent/gate/numeric.py:346-394 | Matching does not depend on which side is which. |
| QuantityMeaning.MatchMeans | agent/src/research_agent/gate/numeric.py:346-394 | Match by kind, in numbers and units alone: percentages within the points, years as numbers, money of one currency and numbers equal, within the share, or one a rounding of the other in its scale and decimals; other kinds never. |
| QuantityMeaning.DatesMatchIff | agent/src/research_agent/gate/numeric.py:334-394 | Two dates match exactly if every part both state agrees. |
| QuantityMeaning.NearestIff | agent/src/research_agent/gate/numeric.py:314-331 | Rounding is to the nearest integer, of two equally near to the even one. |
| Numeric.MatchIsMonotone | agent/src/research_agent/gate/numeric.py:346-394 | Widening any tolerance loses no match. |
| Numeric.DayDatesMatchExactly | agent/src/research_agent/gate/numeric.py:334-394 | Two full dates match exactly when equal, whatever the tolerance. |
| Numeric.CoarseDatesContain | agent/src/research_agent/gate/numeric.py:334-394 | A day matches a month exactly when it lies in it. |
| Masking.ChooseSpans | agent/src/research_agent/pii/masking.py:122-129 | Chosen spans are disjoint and proposed; every proposed span is chosen or starts inside a chosen one that is at least as long if it starts at the same place; of spans over the same characters the first proposed is chosen. |
| Masking.AssignPlaceholders | agent/src/research_agent/pii/masking.py:130-141 | Each distinct key gets its kind and the number of its first appearance within the kind. |
| Masking.PlaceholderIsInjective | agent/src/research_agent/pii/masking.py:138-140 | A placeholder determines kind and number, underscores in the kind notwithstanding. |
| Masking.SamePlaceholder | agent/src/research_agent/pii/masking.py:138-142 | Equal placeholders exactly for equal kind and separator-stripped value. |
| Masking.StrippedJoins | agent/src/research_agent/pii/masking.py:137 | A value is one key however spaced or hyphenated: every other character stays, in order. |
| Masking.FirstSeenFirst | agent/src/research_agent/pii/masking.py:138-150 | Keys are numbered and listed by first appearance in the text. |
| Masking.NumbersHaveNoGap | agent/src/research_agent/pii/masking.py:138-142 | The numbers of a kind are 1..n. |
| Masking.MaskingIsLocal | agent/src/research_agent/pii/masking.py:142-146 | Putting the values back in place of the placeholders restores the text. |
| Masking.ApplySpans | agent/src/research_agent/pii/masking.py:122-154 | The masked text is the text with exactly the chosen spans replaced; one entity a key, with its number of occurrences, at least one. |
| UnionFind.Groups.Find | agent/src/research_agent/agent/clustering.py:261-264 | Following parents ends, at the least name connected to the start. |
| UnionFind.Groups.Join | agent/src/research_agent/agent/clustering.py:266-269 | Joining adds one edge: afterwards two names share a root exactly when the edges connect them. |
| UnionFind.HangMoves | agent/src/research_agent/agent/clustering.py:266-269 | Hanging a root under a smaller one renames it for its whole group and nobody else. |
| UnionFind.JoinSound | agent/src/research_agent/agent/clustering.py:266-269 | Roots stay equal exactly for connected names. |
| UnionFind.RootIsLeast | agent/src/research_agent/agent/clustering.py:261-264 | A root is the least of its component. |
| Origins.IndependentOriginKeys | agent/src/research_agent/agent/clustering.py:253-291 | Every claim id gets the key of its group of shared origins and sites: first speaker in origin order, else least origin. |
| Origins.FirstOriginIsLeast | agent/src/research_agent/agent/clustering.py:285-286 | A group without a speaker is named by its least origin. |
| Origins.SharedKey | agent/src/research_agent/agent/clustering.py:276-291 | Two claims get one key exactly when linked, when their groups quote the same speaker, or when a least origin id spells the other's speaker key. |
| Origins.SharedKeyMeansOneVoice | agent/src/research_agent/agent/clustering.py:276-291 | When no origin id looks like a speaker key, only the two intended reasons remain. |
| Origins.SupportWithinOrigins | agent/src/research_agent/agent/clustering.py:305-307 | Distinct keys never outnumber distinct origins. |
| Origins.SupportWithinSites | agent/src/research_agent/agent/clustering.py:271-274 | Nor distinct publishers, when all pages are known. |
| ClaimOrder.OrderIrrelevantIffAgreed | agent/src/research_agent/agent/clustering.py:276-286 | The keys are independent of claim order exactly when members speaking first in a group agree on the speaker. |
| ClaimOrder.ConfidenceOfAgreed | agent/src/research_agent/agent/clustering.py:294-332 | Then support and confidence are independent of it too. |
| ClaimOrder.OrderCanMatter | agent/src/research_agent/agent/clustering.py:276-286 | Otherwise support can be one or two by listing order: three claims that show it. |
| Syndication.CountShared | agent/src/research_agent/agent/dedup/syndication.py:37-40 | Each pair of origins is counted once for every long quote both hold. |
| Syndication.JoinCopies | agent/src/research_agent/agent/dedup/syndication.py:42-54 | Joining the pairs over the limit in any order gives the components of that graph. |
| Syndication.Library.MergeSyndicatedOrigins | agent/src/research_agent/agent/dedup/syndication.py:19-62 | Every document and claim ends under the least origin of its component of copies, everything else unchanged. |
| Syndication.MergedIffCopies | agent/src/research_agent/agent/dedup/syndication.py:43-57 | Two origins become one exactly when a chain of copies links them. |
| Syndication.MergeIsDetermined | agent/src/research_agent/agent/dedup/syndication.py:26-30 | The result does not depend on the order of claims. |
| Syndication.OriginsNeverGrow | agent/src/research_agent/agent/dedup/syndication.py:57-62 | The number of origins never grows. |
| Syndication.ClaimsFollowDocuments | agent/src/research_agent/agent/dedup/syndication.py:57-62 | A claim keeps carrying its document's origin. |
| Numbering.DecimalRoundTrip | agent/src/research_agent/agent/clustering.py:219-221 | Reading a written number gives it back, so different numbers give different ids. |
| Numbering.FreshId | agent/src/research_agent/agent/clustering.py:218-221 | The search for a free id ends at the first free number from its start. |
| Clustering.ConflictIsSymmetric | agent/src/research_agent/agent/clustering.py:145-157 | Value conflict does not depend on which side is which. |
| Clustering.FindBest | agent/src/research_agent/agent/clustering.py:194-216 | The first eligible cluster with the highest score, or none exactly when none is eligible. |
| Clustering.AgreesIff | agent/src/research_agent/agent/clustering.py:199-214 | Agreement with the first member, field by field: compatible entity, the same folded conditions, dates and freshness, and no quantity on one side or some pair that matches within 0.02, 0.5 and 31. |
| Clustering.AlikeIff | agent/src/research_agent/agent/clustering.py:205-214 | Similar enough: by 0.04 more, up to certainty, unless both name an entity. |
| Clustering.PlacementMeans | agent/src/research_agent/agent/clustering.py:194-246 | A claim joins an old finding exactly if it fits one, at the end of its members; otherwise it opens one with its own text, value, entity, conditions and dates under a free id. |
| Clustering.AssignClaims | agent/src/research_agent/agent/clustering.py:160-246 | Old findings keep id, text and members as prefixes; members afterwards are the old ones and the new claims; a missing claim is refused; partition and agreement with the anchor are kept. |
| Clustering.PlacementPartitions | agent/src/research_agent/agent/clustering.py:242-246 | A claim not yet a member joins one finding and the memberships stay disjoint. |
| Clustering.PlacementFits | agent/src/research_agent/agent/clustering.py:193-246 | Every member stays about the finding's sub-question and agrees with its first member. |
| Corroboration.Refresh | agent/src/research_agent/agent/clustering.py:294-332 | Pages, voices, confidence and best score to four places, primary flag and status equal what the members and documents say. |
| Corroboration.ClusterClaims | agent/src/research_agent/agent/clustering.py:160-250 | The whole pass: one new claim after the other joins the finding it fits best, field by field, or opens its own; membership as above, and every statistic recomputed from the full ledger. |
| Corroboration.ConfidenceInRange | agent/src/research_agent/agent/clustering.py:323-326 | Confidence lies in [0, 0.99]. |
| Corroboration.OneVoice | agent/src/research_agent/agent/clustering.py:309-326 | One voice of best score s gives 0.8 s, at most 0.99, to four places. |
| Corroboration.TwoVoices | agent/src/research_agent/agent/clustering.py:309-326 | Two are wrong together only if each is: one less the product of 1 - 0.8 s and 1 - 0.8 t. |
| Corroboration.NoVoice | agent/src/research_agent/agent/clustering.py:309-326 | Without a known page there is none. |
| QuantityMeaning.FourPlacesMeans | agent/src/research_agent/agent/clustering.py:323-332 | To four places: the nearest ten-thousandth, of two equally near the even one. |
| Corroboration.ConfidenceIgnoresOrder | agent/src/research_agent/agent/clustering.py:309-326 | For given voices it does not depend on the order of members. |
| Corroboration.MoreClaimsMoreConfident | agent/src/research_agent/agent/clustering.py:309-326 | One more claim never lowers it. |
| Verdicts.Poll | agent/src/research_agent/agent/validation.py:28-56 | An item is settled by the first reply that names it exactly once; every other stays open. |
| Verdicts.SettledBy | agent/src/research_agent/agent/validation.py:53-56 | A settled item was named exactly once in the deciding reply and by no earlier one. |
| Verdicts.SettledIff | agent/src/research_agent/agent/validation.py:28-56 | An item is settled with a verdict exactly if some reply names it exactly once with that verdict and no earlier reply names it exactly once. |
| Validation.ValidateClaims | agent/src/research_agent/agent/validation.py:21-83 | Each claim ends judged by its own deciding verdict, or unavailable without one, in place; no verdict stands behind two claims. |
| Validation.FailClosed | agent/src/research_agent/agent/validation.py:53-80 | Supported means exactly one verdict naming the claim once, supported and complete, with its scope represented and legal authority present. |
| Validation.JudgedIff | agent/src/research_agent/agent/validation.py:53-83 | Affirmed exactly on a supporting and complete opinion, in scope, with no authority missing for the claim as then dated; the freshness flags spelled out; without an opinion only the status changes. |
| Validation.NeverNamedNeverSettled | agent/src/research_agent/agent/validation.py:81-83 | A claim never named exactly once stays without a verdict. |
| ClaimLedger.AdmitItems | agent/src/research_agent/agent/nodes/evidence.py:188-226 | Exactly the items with a verified quote and no text addressed to the model become candidates, in order; those addressed to the model and those unquoted are counted apart. |
| ClaimLedger.CandidateMeans | agent/src/research_agent/agent/nodes/evidence.py:205-226 | A candidate carries the page, the trimmed texts, and a sub-question and facet of the plan: its own if known, else the first of the page and none. |
| ClaimLedger.Ledger.Record | agent/src/research_agent/agent/nodes/evidence.py:246-258 | Validated candidates are recorded under the next free numbers, whatever their verdict, and findings stay sound. |
| ClaimLedger.Ledger.Corroborate | agent/src/research_agent/agent/nodes/evidence.py:276-321 | Without new evidence nothing happens; otherwise copies are merged, the evidence no finding holds is placed claim by claim, and every statistic recomputed; findings continue, every admitted claim is a member, and the ledger stays sound. |
| ClaimLedger.EveryMemberIsEarned | agent/src/research_agent/agent/nodes/evidence.py:276-321 | In any valid ledger every member of a finding has one affirmative verdict behind it, scope and legal checks passed. |
| ClaimLedger.Run | agent/src/research_agent/agent/nodes/evidence.py:152-321 | Any sequence of batches and merges, with any replies, takes the ledger from state to state by exactly those steps and keeps it valid. |
| Citations.Verify | agent/src/research_agent/agent/nodes/report.py:375-472 | The batches ask about every cited sentence once; unsupported are exactly those refuted or left without a verdict. |
| Citations.BatchIs | agent/src/research_agent/agent/nodes/report.py:424-425 | A question is asked in the batch of its position. |
| Citations.Drop | agent/src/research_agent/agent/nodes/report.py:475-485 | Cuts exactly the withheld addresses and counts them. |
| Citations.VerifyCitations | agent/src/research_agent/agent/nodes/report.py:488-526 | Rewritten once exactly if every cited sentence was settled and some was refuted. A non-fallback result keeps, at their positions in the report verified last, exactly the uncited and the supported sentences, counts the others, notes that number among the known gaps exactly if the last verification left one open, and lists exactly what the delivered sentences cite; a fallback loses none. |
| Citations.KeptIsSupported | agent/src/research_agent/agent/nodes/report.py:431-455 | A cited sentence that stays was named exactly once, in support, by a reply to the batch its place in the list of questions puts it in. |
| Coverage.AssessFacet | agent/src/research_agent/agent/coverage.py:27-89 | Finding by finding: sufficient exactly with a strong primary source or enough independent voices over all findings about the facet, none contested and unsettled, and no accepted evidence awaiting confirmation without current evidence beside it. |
| Coverage.FacetMembersAre | agent/src/research_agent/agent/coverage.py:44-60 | The claims heard are those behind findings about the facet; StoredOriginsAre the voices without any. |
| Coverage.SupportIsIndependent | agent/src/research_agent/agent/coverage.py:54-60 | Its voices never outnumber the origins, nor the publishers, of its claims. |
| Coverage.ClusterSupportIsIndependent | agent/src/research_agent/agent/clustering.py:294-307 | Nor do those of one finding. |
| Queries.PlanTargets | agent/src/research_agent/agent/nodes/search.py:61-110 | Targets are open sub-questions; a first round gives each the same quota, a follow-up grants quotas in order, conflicts first, up to the smaller of the round cap and the searches left, stopping short only at the cap. |
| Queries.ConflictsAre | agent/src/research_agent/agent/nodes/search.py:77-92 | A conflict is chased exactly for a contradiction that is open, under an open sub-question, once, in their order. |
| Queries.GapsAre | agent/src/research_agent/agent/nodes/search.py:93-102 | A gap is chased exactly for a missing facet of an open sub-question, with the quota of a gap. |
| Queries.GapsInOrder | agent/src/research_agent/agent/nodes/search.py:93-102 | Gaps come in the order of the plan, and GapsOfInOrder of its facets. |
| Queries.WidthMeans | agent/src/research_agent/agent/nodes/search.py:69-71 | The widest equal share of the searches left within the limit, but at least one query each. |
| Queries.FirstRoundFits | agent/src/research_agent/agent/nodes/search.py:69-71 | A first round asks for no more queries than there are searches left exactly when none is left or there is one for every open sub-question. |
| Queries.GenerateQueries | agent/src/research_agent/agent/nodes/search.py:188-246 | Whatever the model suggests, no target gets more queries than its quota, nor all together more than the limit, and each is new. Every suggestion that matches a target is asked or refused for a reason that held at its turn; a target left without a query had every template refused for such a reason; and nothing else is asked. |
| Queries.MatchExact | agent/src/research_agent/agent/nodes/search.py:230-236 | A suggestion is for the last target of exactly its sub-question and facet; |
| Queries.MatchLoose | agent/src/research_agent/agent/nodes/search.py:230-236 | failing that, for the first target of its sub-question; |
| Queries.MatchNone | agent/src/research_agent/agent/nodes/search.py:230-236 | and for none exactly if no target is about it. |
| Queries.MarkSubQuestions | agent/src/research_agent/agent/nodes/search.py:248-273 | A sub-question is exhausted exactly when a gap of it got no query and nothing else was asked about its facets, searching exactly when some target of it got one; settled ones do not change. |
| ResearchLoop.OpenRound | agent/src/research_agent/agent/nodes/search.py:167-273 | A round plans, asks and marks as stated above; a follow-up adds at most the cap and at most the searches left; settled sub-questions keep their status. |
| ResearchLoop.ProgressedShape | agent/src/research_agent/agent/coverage.py:92-107 | Progress touches status and idle count only, never a settled sub-question, and leaves an open one below the stagnation limit. |
| ResearchLoop.ProgressedIff | agent/src/research_agent/agent/coverage.py:92-107 | An open sub-question with facets, all sufficient, becomes sufficient; otherwise it goes on while it gains or has not stagnated long enough, and is exhausted when it has. |
| ResearchLoop.OpenMeansRecentGain | agent/src/research_agent/agent/coverage.py:92-107 | Over any history, an open sub-question is unanswered and gained something in its last rounds, fewer than the stagnation limit ago. |
| ResearchLoop.ContinuesIff | agent/src/research_agent/agent/termination.py:33-77 | The router goes on exactly when rounds and budget are left, something is open and not all that is needed is answered. |
| ResearchLoop.StopsFor | agent/src/research_agent/agent/termination.py:33-77 | Each reason to stop, exactly, in its order: all needed answered, rounds used up, budget exceeded, nothing open. |
| ResearchLoop.RoutedIff | agent/src/research_agent/agent/nodes/coverage.py:108-111 | The reason is that there is no evidence exactly if the run stops without any finding. |
| ResearchLoop.AssessCoverage | agent/src/research_agent/agent/nodes/coverage.py:56-131 | Facets judged, widened by what the model reports missing and judged again, progress applied, and the stop decided on the result, exactly. |
| ResearchLoop.NameIsHeard | agent/src/research_agent/agent/nodes/coverage.py:69-82 | A missing name goes without a facet only if it was covered at its turn or the limit was reached. |
| ResearchLoop.AssessedShape | agent/src/research_agent/agent/nodes/coverage.py:56-131 | Facets keep their ids and grow within the limit and for open sub-questions only; each is judged by the ledger. |
| ResearchLoop.Research | agent/src/research_agent/agent/graph.py:95-125 | For any inputs the run is a trail of node visits, each opening a round, assessing it, or passing the plan on; it ends after exactly 8 + 8 * rounds visits, 1..max_iterations rounds, five below the recursion limit when all rounds are used and eight further for each round not used; settled sub-questions stay settled throughout. |
| SearchBudget.BudgetHolds | agent/src/research_agent/agent/nodes/search.py:315-362 | For every interleaving of the parallel tasks, retries included, counted searches never exceed the limit, nor calls in flight the semaphore. |
| SearchBudget.SkippedMeansSpent | agent/src/research_agent/agent/nodes/search.py:317-319 | A task is skipped only with the budget spent to the last search, and searches at most twice. |
| SearchBudget.BeginMeans | agent/src/research_agent/agent/nodes/search.py:315-340 | A task begins with a search exactly if one is left, and is skipped otherwise. |
| SearchBudget.RetriedIff | agent/src/research_agent/agent/nodes/search.py:341-362 | A search is retried exactly if it was the first, found nothing, can be broadened and a search is left; any other result is final. |
| SearchBudget.TwiceMeansRetried | agent/src/research_agent/agent/nodes/search.py:341-362 | So a task searches twice only if its first search was broadened. |
| SearchBudget.RoundEnds | agent/src/research_agent/agent/nodes/search.py:341-362 | At most four steps a planned query in any interleaving. |
| SearchBudget.EffectiveCounts | agent/src/research_agent/agent/nodes/search.py:311-362 | The steps counted there are exactly those that change anything. |
| SearchBudget.NoDeadlock | agent/src/research_agent/agent/nodes/search.py:311-362 | While a task is unfinished some step is possible. |

## Left out

- SQL, locking, notifications, HTTP and DNS: each statement or transaction is one atomic step; SKIP LOCKED is an arbitrary set of rows passed over.
- Python `claim`, `requeue` and `create_local`: the service path claims and requeues in Go; CLI runs stay off the watchlist.
- Encryption, loading and expiry of provider keys: secrets are a set of names, stored by a step of their own, so they are proved emptied in the terminal step rather than absent ever after.
- The executor's background task (`_execute`, `_heartbeat`, `_settle`): its database statements are steps of the lifecycle, its exception handling is not modelled.
- Dispatch.DispatchOnce: a replica's draining flag and tasks are arbitrary at the start of the pass and stay until it is asked; in `Offers` its standing is that at its own offer.
- A request that reaches its replica only after the dispatcher has given up waiting: in `Offers` its effect is another writer's step.
- Surveying and ranking replicas, throttled deferral logs, and the level and wording of events.
- RunsTable.Table.WatchOnce: does not forward a cancel request to the agent over HTTP, because that call writes nothing.
- Numeric.ExtractQuantities: takes the pattern matches as input; reading a number out of a match is a function of text.
- Section titles, the remediation log, violation messages and rule descriptions of the gate.
- GateRound.Remediate: reports have one section a key, as the report node builds them; of two sections with one key every lookup sees the first.
- GateRun.RunGate: likewise assumes one section a key.
- Corroboration.Refresh: scores are real numbers rounded half to even; binary fractions are not modelled.
- RunsTable.Table.Tick: has no other writer between its list and its pass; LifecycleTheorems.OverdueRunFails covers those.
- Clustering.FindBest: similarity scores and thresholds are functions of two claims; cosine and token overlap are not modelled.
- Clustering.AssignClaims: partition and agreement are kept for fresh claims with distinct ids, which is what the ledger passes in; a repeated id could join two findings.
- The MinHash near-duplicate index, source scoring, contradiction judging, page triage and fetching.
- Citations.Verify: batches are read one after the other; they share nothing but the sets they add to.
- Reasons given with verdicts, and the prompts they come from.
- Queries.GenerateQueries: the similarity test against earlier queries is a function of the texts asked so far.
- Which contradictions are resolved or followed up, and the ledger behind facet verdicts, are inputs of each round; `Coverage` states one verdict.
- ResearchLoop.Research: facet verdicts, gains and other limits are arbitrary inputs of each round, so that the bounds hold for every ledger; wall clock and cost are one of them.
- Checkpoint restore and the cancellation check at node boundaries of the graph.
- Masking.ApplySpans: spans lie within the text, as pattern matches do; a skipped span may reach beyond the masked one.
- The user interface, the configuration form, report rendering and the heuristics that only annotate.
