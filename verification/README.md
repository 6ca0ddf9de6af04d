# Personal CFO: verified model

A Dafny model of the deterministic core of a single-user finance agent, with proofs. Each module
models one part of the system; methods and classes follow the code that works by updating
variables or session state, functions and lemmas follow the code made of expressions. Every method
is proved against a specification function, and the main results are lemmas about those functions.

- **Rounding, Projection, DecimalContext** (`scenarios/`): the compounding search for the month a target
  is reached. Each Decimal operation is "exact, then rounded" by a rounding function that is a parameter,
  so the ordering results hold for every monotone rounding; the identity gives exact arithmetic, and
  half-even rounding to 28 significant digits gives Decimal's own.
- **AuditTrail** (`vault/crud.py`, `db.py`): create/update/delete on one generic table keyed by type
  and id, the append-only log, flush, commit and rollback. A deleted object stays reachable by id
  until the next flush, as in the ORM's identity map; a query may flush before or between any
  operations, and where it does decides when the log is exact.
- **ImportKeys, StatementImport, ImportProtocol** (`integrations/csv_import.py`,
  `routers/imports.py`): the deduplication key, one import, and any number of interleaved imports
  under the unique index. The digest is taken to be collision-free; dates and amounts print without a bar.
- **Reducer, AgentNodes, AgentTurn** (`agent/`): the proposals channel, the nodes, and one chat turn as
  a step machine over arbitrary language-model replies, routes and completion orders.
- **Sums, WealthLadder, IncomeLadder** (`vault/`): the two ladders and net worth from the vault's rows.
- **Consumers, Pace** (`memory/retrieval.py`, `vault/financial_snapshot.py`, `digest.py`,
  `agent/nodes/tracker.py`, `agent/nodes/alert.py`): what several modules derive from the ladders,
  how far they agree, and exact error bounds along the rounding chain.
- **DigestProtocol** (`digest.py`, `worker/cron.py`): check, send, mark, with cron and manual runs
  interleaved and failing at any point.

Within one stage of a turn the graph merges writes in an order of its own; the model allows every order.
Dates are day numbers, money is an exact real, a missing figure is `None`. Language-model replies,
token usage, clocks, flush and commit outcomes, and mail-server outcomes are inputs of the model.

## What the proofs show that the documentation does not say

- `docs/CONTRACTS.md` promises a disclaimer whenever any fired proposal is flagged. The code keeps one
  entry per node, so a later write can drop a flag. `DisclaimerExactly`, `TaxFlagSurvivesExactly` and
  `OnlyLastAlertCounts` give the exact rules, `TaxDisclaimerCanBeDropped` a concrete turn.
- Replaying the audit log rebuilds the vault exactly when no committed unit of work updated an entity
  between deleting it and the next flush; the before/after chain is unbroken exactly when none reached
  such an entity again. A flush in between makes the lookup find nothing. No unit of work that asks nothing
  of an object after deleting it does either, and every endpoint on the vault layer is such a unit, the value refresh with
  its many updates included.
- The sent log's docstring calls its unique week the backstop against duplicate mail. It bounds rows,
  not emails: a cron call repeats its week's email exactly when every run that delivered for the week is
  still between send and mark, died there, or was told that its send had failed. Each of these occurs.
- Better figures can unfund a step: exactly when high-interest balances that summed to zero now sum to
  less, and the allocation step then moves back exactly when it was past step 2.
- Step 1 can be funded while the low-fund flag is raised, exactly when cash reaches three months'
  expenses and active checking, savings and cash accounts hold under 2.995 months'.
- Bridge and vault snapshot report different steps exactly when a position could not be computed.
- The digest's action item is never step 6, even when step 6 is the only open step.
- Retrieval's docstring says figures are rounded to the nearest hundred; the code rounds up. The two
  agree exactly for whole hundreds and for figures at least 50 above the hundred below; 101 becomes 200.

## Model

| member | source | states |
|---|---|---|
| Projection.TimeToTarget | scenarios/engine.py:90-108 | the result is the first month in range whose rounded balance is at or above the target, and None iff there is none |
| Projection.RunScenario | scenarios/engine.py:24-38 | missing or non-positive target is rejected; month 0 when already there; disclaimer iff the return is positive |
| Projection.ScenarioFlags | scenarios/engine.py:28-38 | rejected iff the given target is missing or not positive; the disclaimer iff a positive return is given |
| Projection.ScenarioMonth | scenarios/engine.py:24-35 | over the scenario's own fields: month 0 iff the current amount is enough, else the first of 600 months whose closed-form value reaches the target, None iff none does |
| Projection.ScenarioWithoutReturn | scenarios/engine.py:24-35 | without a return a given positive contribution takes the ceiling of shortfall over contribution, when in range |
| Projection.RaisingInputsNeverDelays | scenarios/engine.py:90-108 | more balance, contribution, return or window, a lower target, or a rounding that never rounds lower: never a later month, None counting as infinity |
| Projection.BetterScenarioNeverLater | scenarios/models.py:27-42 | the same for whole scenarios within the validated ranges, "already there" included |
| Projection.BalanceMonotone | scenarios/engine.py:102-105 | larger inputs give a larger balance in every month under any monotone rounding |
| Projection.StaysReached | scenarios/engine.py:104-107 | from the reported month on the balance never falls below the target, under monotone idempotent rounding |
| Projection.LongerSearchKeepsAnswer | scenarios/engine.py:95-108 | raising the month limit never changes a found answer, and answers are unique |
| Projection.SearchSplits | scenarios/engine.py:103-108 | k months without a hit, then a search from that balance with the rest of the window, is the same search |
| Projection.LoopIsFutureValue | scenarios/engine.py:102-105 | in exact arithmetic the loop's balance is the closed-form future value, also at zero return |
| Projection.ZeroReturnAnswer | scenarios/engine.py:102-108 | at 0% the answer is the ceiling of shortfall over contribution when in range, else None; never with no contribution |
| DecimalContext.DecimalIsARounder | scenarios/engine.py:102-105 | rounding half-even to any number of significant digits, Decimal's 28 among them, meets every hypothesis on the rounding function |
| DecimalContext.BetterScenarioNeverLaterInDecimal | scenarios/engine.py:90-108 | a better scenario is never answered later in 28-digit arithmetic |
| DecimalContext.BalanceDrift | scenarios/engine.py:102-105 | if a rounding moves a figure by at most a fraction, the balance after n months is the exact one times that factor at most 5n times |
| DecimalContext.DecimalTracksFutureValue | scenarios/engine.py:102-105 | within the window the 28-digit balance is within 3 parts in 10^24 of the closed-form future value |
| DecimalContext.DecimalAnswerIsExact | scenarios/engine.py:90-108 | unless some month's exact balance is that close to the target, the reported month is that of exact arithmetic |
| AuditTrail.Session.Flush | vault/crud.py:112 | pending deletes leave the identity map and nothing else changes |
| AuditTrail.Session.WriteAuditLog | vault/crud.py:85-102 | one entry is appended to the open unit of work |
| AuditTrail.Session.Rollback | db.py:49-59 | the session is back at the committed rows, pending entries dropped |
| AuditTrail.Session.Get | vault/crud.py:129 | a lookup that queries flushes pending deletes first; a marked object is held and found without one |
| AuditTrail.Session.Commit | routers/vault.py:98-99 | rows and log entries become visible together, or neither |
| AuditTrail.Session.Create | vault/crud.py:109-114 | the new row under a fresh id and its entry without a before; a failed flush leaves nothing but a used id |
| AuditTrail.Session.Update | vault/crud.py:128-137 | after the lookup, unknown id: nothing; else the assigned fields and an entry with both snapshots |
| AuditTrail.Session.Delete | vault/crud.py:140-147 | after the lookup, unknown id: nothing; else an entry without an after and a mark that the next flush carries out |
| AuditTrail.ReplayRebuildsVault | vault/crud.py:77-147 | for every run with flushes anywhere, replaying the committed log gives every committed row's snapshot plus exactly the entities updated after an unflushed delete; it is the vault iff there are none |
| AuditTrail.LogKeepsEveryField | vault/crud.py:77-82 | for every run the replayed log holds each committed row's fields and no others: dates and decimals as the text they print as, every other value unchanged |
| AuditTrail.EqualImagesAgree | vault/crud.py:77-82 | rows with equal log images have the same fields and equal values up to printing |
| AuditTrail.CreateCommitted | vault/crud.py:109-114 | a committed create adds exactly one row, the given fields over the defaults with its new id, and one entry by the actor |
| AuditTrail.UpdateCommitted | vault/crud.py:128-137 | a committed update changes exactly the assigned fields of one row and adds one entry with both images |
| AuditTrail.DeleteCommitted | vault/crud.py:140-147 | a committed delete removes exactly one row and adds one entry with its last image |
| AuditTrail.ChainIsUnbroken | vault/crud.py:85-147 | each entry's before is the entity's previous after, iff no committed unit reused a deleted object |
| AuditTrail.ReplayCanDiffer | vault/crud.py:128-147 | delete then update in one unit leaves a log that shows a row the vault has not |
| AuditTrail.FlushInBetweenIsExact | vault/crud.py:128-147 | with a flush between delete and update the update finds nothing and writes nothing |
| AuditTrail.LogGrows | vault/models.py:438-445 | the committed log only grows, as a prefix |
| AuditTrail.UncommittedLeavesNoTrace | db.py:49-59 | without a successful commit rows and log stay as they were |
| AuditTrail.EarlierVaultIsRecoverable | vault/crud.py:77-147 | a later log holds, as a prefix, a log that rebuilds the earlier vault |
| AuditTrail.EndpointsNeverReuse | routers/vault.py:91-146 | units of any operations that ask nothing of an object after its delete, each with one commit, never reuse a deleted object |
| AuditTrail.EndpointsKeepApart | routers/vault.py:496-531 | the endpoints with one operation and the value refresh with one update per estimate are such units |
| AuditTrail.Session.RefreshValues | routers/vault.py:511-529 | one update for every property that has an estimate, in order, and nothing else |
| AuditTrail.RefreshSetsValues | routers/vault.py:518-529 | a refresh sets the current value of exactly the properties with an estimate and touches no other field or row |
| AuditTrail.EndpointRunsAreExact | routers/vault.py:91-146 | so for every run of such requests the log rebuilds the vault and its chain is unbroken |
| ImportKeys.DecimalInjective | integrations/csv_import.py:70 | different account ids print differently |
| ImportKeys.SplitAtBar | integrations/csv_import.py:70 | text before the first bar can be read back whatever follows it |
| ImportKeys.KeyIdentifiesRow | integrations/csv_import.py:69-71 | equal keys iff equal account, date, amount and description, bars in descriptions included |
| ImportKeys.DecimalDenotes | integrations/csv_import.py:70 | the printed account id denotes the id |
| ImportKeys.KeyReadsBack | integrations/csv_import.py:70 | splitting the hashed text at its first three bars gives account id, date, amount and description, in this order |
| StatementImport.ParseRows | integrations/csv_import.py:81-108 | the rows with a readable date and amount, in order; rejected iff there are more than the limit |
| StatementImport.UsableAreReadings | integrations/csv_import.py:82-107 | the parsed rows are, at increasing positions, exactly the rows with a readable date and amount, each with its own date, amount and description |
| StatementImport.FilterNew | routers/imports.py:81-98 | the loop keeps exactly the selected rows |
| StatementImport.SelectedAreFirstOccurrences | routers/imports.py:81-98 | the inserted rows are, in file order, exactly the first rows with their key whose key is not stored |
| StatementImport.SelectedKeys | routers/imports.py:81-98 | an import adds exactly the file's keys that were missing, each once |
| StatementImport.SplitFile | routers/imports.py:81-98 | importing two parts in order selects the rows that importing them together selects |
| StatementImport.NothingNew | routers/imports.py:85-86 | a file inserts nothing iff all its keys are stored |
| StatementImport.OwnHashesSuffice | routers/imports.py:73-79 | a key of this account is stored anywhere iff it is stored for this account |
| StatementImport.FreshRowsNeverCollide | vault/models.py:489-496 | pre-loading one account's hashes never leaves a row that the global unique index would refuse |
| StatementImport.ImportKeeps | routers/imports.py:57-115 | hashes stay unique over all accounts and every batch's row count equals its tagged transactions |
| StatementImport.HashesAfterImport | routers/imports.py:81-100 | the stored keys become the old ones and the file's |
| StatementImport.PartsImportWhole | routers/imports.py:81-102 | importing A then B stores what importing A+B stores, and the row counts add up |
| StatementImport.ReimportStoresNothing | routers/imports.py:81-102 | importing a file again stores nothing and counts zero rows |
| StatementImport.ImportStoresTheFile | routers/imports.py:81-113 | from file to store: one transaction for exactly the first readable rows with their fields that were not stored, in file order, each with its row's own fields, account, batch and key; the summary counts readable and stored rows |
| StatementImport.Store.ImportTransactions | routers/imports.py:25-116 | unknown account, oversized or unreadable upload change nothing, a failed commit only uses an id; else the whole new state, parsed and inserted counts |
| ImportProtocol.RefusedExactlyWhenOvertaken | vault/models.py:489-496 | a commit is refused iff a key of the file was stored for the same account after the hashes were read |
| ImportProtocol.CommitIsAtomicImport | routers/imports.py:73-115 | a commit that goes through stores what one undisturbed import at that moment would |
| ImportProtocol.OthersChangeNothing | routers/imports.py:60-114 | refused, failed and unfinished imports leave no data |
| ImportProtocol.StepKeeps | routers/imports.py:57-115 | every step keeps hashes unique and row counts exact |
| ImportProtocol.RunKeeps | routers/imports.py:57-115 | the same for every interleaving |
| ImportProtocol.EveryReachableState | vault/models.py:489-496 | so from an empty store hashes are unique and row counts exact in every reachable state |
| ImportProtocol.InterleavingIsSerial | routers/imports.py:57-115 | every interleaving ends as its committed imports one after the other would |
| ImportProtocol.HashesAfterAll | routers/imports.py:81-100 | a sequence of imports stores the old keys and all the files' |
| ImportProtocol.SameFilesSameKeys | routers/imports.py:81-100 | committing the same files in any order stores the same keys |
| Reducer.PutEach | agent/state.py:47-49 | the loop is the fold of single writes |
| Reducer.MergeProposals | agent/state.py:38-50 | the reducer's result is what the whole history of writes leaves |
| Reducer.LatestIsLastWriteInFirstOrder | agent/state.py:38-50 | one entry per node that wrote, its last write, in order of first writes |
| Reducer.RebuildIsSame | agent/state.py:47-50 | reading the dictionary out and building it again gives the same dictionary |
| Reducer.MergeExtendsHistory | agent/state.py:38-50 | merging batch by batch is one history |
| Reducer.WriteBackIsNoOp | agent/nodes/coach.py:121-127 | re-emitting the channel's own proposals changes nothing |
| Reducer.EntriesNeverDisappear | agent/state.py:38-50 | later writes never remove or move an entry |
| AgentNodes.RoutedExactlyWhenNamed | agent/graph.py:93-104 | a specialist is routed iff some route names it |
| AgentNodes.CoachDirectExactlyWhenNoneNamed | agent/graph.py:93-104 | Coach runs directly iff no route names a specialist |
| AgentNodes.ClampIsNearest | agent/nodes/_llm.py:67 | the clamped score lies in [0,1], between the reported one and every score in range |
| AgentNodes.CutExactlyWhenFarBelow | agent/nodes/income_optimizer.py:30-56 | cutting is advised iff the best rate is positive and some stream is below 70% of it; the score is in [0,1] |
| AgentTurn.IncomeScoreExactly | agent/nodes/income_optimizer.py:20-56 | the score: 0.5 without streams, 0.3 without a comparison, 0.4 in range, else the worst stream's distance from the best, at most 1 |
| AgentNodes.Top | agent/nodes/synthesizer.py:31 | a proposal with the highest score |
| AgentNodes.TopIsFirstHighest | agent/nodes/synthesizer.py:31 | among equal scores, the earliest |
| AgentTurn.FromSpecialists | agent/graph.py:127-141 | a specialist's completion waits for the others; the last one merges all and moves to Coach |
| AgentTurn.StepAdvances | agent/graph.py:107-149 | a completion moves the machine to the next position; one that is not running changes nothing |
| AgentTurn.EveryReachableState | agent/graph.py:107-149 | every reachable state is a possible position with the channels of its trace |
| AgentTurn.EveryPositionIsReached | agent/graph.py:107-149 | every possible position is reached by the completions of its trace |
| AgentTurn.TurnsTerminate | agent/graph.py:123-146 | an unfinished turn has a node to run, each completion lowers a measure of at most eleven |
| AgentTurn.FinishedTurn | agent/graph.py:37-82 | a finished turn ran the routed specialists and Coach, Tracker, Alert, Synthesizer, Persist once each, and saved the tokens of every call made, cut-off ones included |
| AgentTurn.FinishedTurnAnswers | agent/nodes/synthesizer.py:117-154 | for every finished run: a complete final reply's recommendation, reasoning, principle, stamp and decision are the response's and the saved ones; a cut-off one gives no decision and no stamp |
| AgentTurn.CompleteReplyIsAnswered | agent/nodes/synthesizer.py:144-154 | the same at a finished position, with the saved decision being the reply's own summary |
| AgentTurn.CutOffReplyIsPlain | agent/nodes/synthesizer.py:46-56 | a cut-off final reply: no decision, an empty stamp, nothing saved but the message |
| AgentTurn.SavedTokensExactly | agent/graph.py:58-68 | the saved counts are the usage of Analyzer's call, of each language-model specialist that ran, of Coach's and of the final call |
| AgentTurn.SpecialistsRanExactly | agent/graph.py:85-104 | past the fan-out a specialist has run iff a route names it |
| AgentTurn.CutOffAnalyzerRunsBothTracks | agent/nodes/analyzer.py:81-92 | a cut-off analyzer runs exactly Strategist and Income-Optimizer |
| AgentTurn.DecisionSavedExactly | agent/graph.py:70-78 | a decision is saved iff the final reply was complete, states one and summarises it |
| AgentTurn.TokensIgnoreOrder | agent/state.py:91-95 | token totals do not depend on the order of completions |
| AgentTurn.CompletionOrderIrrelevant | agent/graph.py:93-146 | Coach sees the same node-to-proposal map and token totals in every completion order |
| AgentTurn.OrderIrrelevantAtEnd | agent/graph.py:93-146 | with the same later replies the final entries, tokens and flag do not depend on the completion order |
| AgentTurn.OrderIrrelevantForAnswer | agent/nodes/synthesizer.py:24-56 | nor does the response, when the final reply is complete or one entry alone has the highest score |
| AgentTurn.OrderMattersExactly | agent/nodes/synthesizer.py:24-56 | some completion order changes the response iff the final reply is cut off and two specialists tie for the highest score with different texts |
| AgentTurn.TiedTurnDependsOnOrder | agent/nodes/synthesizer.py:31 | a concrete such turn |
| AgentTurn.EntriesStay | agent/state.py:38-50 | no completion removes or moves an entry |
| AgentTurn.EntriesStayOverRuns | agent/state.py:38-50 | however a turn continues, no entry disappears or moves |
| AgentTurn.ChannelHoldsLastWrites | agent/state.py:38-50 | in every reachable state: one entry per node that wrote, its last merged write, in first-write order |
| AgentTurn.ScoresStayInRange | agent/nodes/_llm.py:63-70 | every leverage score in every reachable state lies in [0,1] |
| AgentTurn.FlagsAreLastWrites | agent/nodes/synthesizer.py:135-137 | some entry is flagged iff some node's last write is |
| AgentTurn.SpecialistIsHeard | agent/nodes/_llm.py:62-80 | a specialist's complete reply is in the final state in its own words, clamped score and flag, the tax one always flagged, unless Coach re-emits its node |
| AgentTurn.RankingIsHeard | agent/nodes/income_optimizer.py:58-67 | so is the income ranking, unflagged and with its score |
| AgentTurn.CoachIsHeard | agent/nodes/coach.py:129-148 | of Coach's reply each node's last entry is in the final state in its own words, the quoted principle standing for the rationale |
| AgentTurn.LastAlertIsHeard | agent/nodes/alert.py:31-47 | the last alert is in the final state with its text and its kind's score, principle and flag |
| AgentTurn.DisclaimerExactly | agent/nodes/synthesizer.py:24-56 | on both paths: a disclaimer iff some node's last write is flagged, or the complete reply asks, or the keyword test hits |
| AgentTurn.CutOffAnswerIsTopLastWrite | agent/nodes/synthesizer.py:24-56 | a cut-off final reply repeats the highest-scoring last write of the turn, or asks to try again when there is none |
| AgentTurn.TaxFlagSurvivesExactly | agent/nodes/coach.py:121-148 | a tax proposal is flagged at the end iff Coach did not re-emit it unflagged |
| AgentTurn.TaxTurnHasDisclaimer | agent/nodes/tax_optimizer.py:81-89 | a turn with a tax proposal and an unusable Coach reply ends with the disclaimer |
| AgentTurn.OnlyLastAlertCounts | agent/nodes/alert.py:25-47 | of several alerts only the last is in the final state |
| AgentTurn.TaxDisclaimerCanBeDropped | agent/nodes/coach.py:129-148 | a concrete turn with a tax proposal and no disclaimer |
| WealthLadder.SumAssets | vault/wealth_position.py:74-108 | accounts, assets, property values and retirement balances, missing figures as zero |
| WealthLadder.SumLiabilities | vault/wealth_position.py:111-130 | debts and mortgages |
| WealthLadder.SumCash | vault/wealth_position.py:216-230 | the balances of cash-like account types, case-folded, any status |
| WealthLadder.SumTaxableBrokerage | vault/wealth_position.py:281-294 | the balances of brokerage-type accounts |
| WealthLadder.SumHighInterestDebt | vault/wealth_position.py:233-246 | the balances of debts above the APR threshold |
| WealthLadder.SumRealEstateEquity | vault/wealth_position.py:297-317 | recorded equity, else positive value less mortgage |
| WealthLadder.SumBusinessNetIncome | vault/wealth_position.py:320-331 | positive margins only |
| WealthLadder.SumMonthlyExpenses | vault/_money.py:44-63 | the monthly total by cadence, or the default when it is not positive |
| WealthLadder.FactorsFollowTheCalendar | vault/_money.py:23-41 | twelve months at a cadence's factor are within 0.004 periods of its calendar year |
| WealthLadder.MonthlyFollowsCalendar | vault/_money.py:36-41 | twelve months of an amount are a calendar year of it, to within 0.004 of the amount |
| WealthLadder.ExpensesFollowCalendar | vault/_money.py:57-63 | twelve times the monthly expenses are a calendar year's, to within 0.004 of each amount; 3000 stands in only for a total not above zero |
| WealthLadder.EmergencyStepFollowsCalendar | vault/wealth_position.py:136-147 | so step 1 is funded iff cash covers a quarter of a calendar year's expenses, up to that allowance |
| WealthLadder.LowerExactly | vault/wealth_position.py:226 | case folding turns capitals into their small letters and leaves the rest |
| WealthLadder.LadderFigures | vault/wealth_position.py:133-208 | each rung's current figure, gap and funding from the rows' own fields, types and rates |
| WealthLadder.BuildAllocationLadder | vault/wealth_position.py:133-208 | the six rungs of the specification |
| WealthLadder.ComputeWealthPosition | vault/wealth_position.py:56-71 | totals, net worth, ladder and open gaps of the specification |
| WealthLadder.FundedExactlyWhenNoGap | vault/wealth_position.py:140-206 | each step is funded iff its gap is zero |
| Sums.OpenIsOrderedSublist | vault/wealth_position.py:62 | open gaps are exactly the unfunded rungs, in order |
| WealthLadder.AllocationStepIsLeastUnfunded | vault/wealth_position.py:61-62 | the reported step is the least unfunded, else 6; it is 6 iff steps 1 to 5 are funded |
| WealthLadder.DebtStepExactly | vault/wealth_position.py:149-158 | with non-negative balances step 2 is funded iff no debt above 7% has a balance |
| WealthLadder.ContributionStepExactly | vault/wealth_position.py:160-172 | step 3 is funded iff IRA and HSA contributions together reach 11,300 |
| WealthLadder.BrokerageStepExactly | vault/wealth_position.py:174-184 | with non-negative balances step 4 is funded iff some brokerage account holds something |
| WealthLadder.PropertyStepExactly | vault/wealth_position.py:297-317 | with no negative recorded equity step 5 is funded iff some property has equity |
| WealthLadder.BusinessStepExactly | vault/wealth_position.py:197-206 | step 6 is funded iff some business has a positive margin |
| WealthLadder.NetWorthIsSignedSum | vault/wealth_position.py:56-130 | the position's total assets and liabilities are the rows' own figures, and net worth is their one signed sum |
| WealthLadder.TransferConserves | vault/wealth_position.py:74-130 | transfers keep every total, and within one class of accounts the whole position |
| WealthLadder.PaymentsConserve | vault/wealth_position.py:74-130 | debt and mortgage payments keep net worth and lower both totals alike |
| WealthLadder.NoWorseNeverMovesBack | vault/wealth_position.py:133-208 | with expenses fixed and no negative high-interest balance, better figures, lower rates and removed debts never widen a gap, unfund a step or move the step back |
| WealthLadder.FundedStepsStayExactly | vault/wealth_position.py:133-208 | when no figure gets worse, every funded step stays funded unless high-interest debt that summed to zero now sums to less |
| WealthLadder.StepMovesBackExactly | vault/wealth_position.py:61-62 | and the allocation step moves back iff it was past 2 and high-interest debt now sums to less than zero |
| WealthLadder.OverpaymentReopensDebtStep | vault/wealth_position.py:149-158 | a concrete overpayment that reopens step 2 |
| WealthLadder.DefaultExpensesExactly | vault/_money.py:57-63 | with non-negative amounts the default stands in iff no positive expense is recorded |
| IncomeLadder.StreamMonthlies | vault/income_position.py:56-65 | the monthly figures of streams with an amount, in order |
| IncomeLadder.SumDeductions | vault/income_position.py:132-136 | the recorded deduction amounts |
| IncomeLadder.ComputeIncomePosition | vault/income_position.py:37-160 | total, ladder and open gaps of the specification |
| IncomeLadder.TotalIsSumOfStreams | vault/income_position.py:72 | total income counts every stream once, missing amounts as zero |
| IncomeLadder.IncomeFollowsCalendar | vault/income_position.py:56-72 | twelve times the reported monthly income is a calendar year of every stream's usual, else rolling, amount, to within 0.004 of each |
| IncomeLadder.StepsExactly | vault/income_position.py:74-156 | when steps 1, 3, 4 and 5 are open, and each step's monthly figure from the rows |
| IncomeLadder.IncomeStepIsLeastUnfunded | vault/income_position.py:39 | the reported income step is the least unfunded, else 5 |
| IncomeLadder.BottomStepExactly | vault/income_position.py:85-96 | step 2 is open iff no net-hourly data exists and some stream earns under 70% of a positive best one |
| Consumers.ConsumersAgree | vault/financial_snapshot.py:84-87 | for every computed ladder snapshot, bridge, vault snapshot and digest, each as its own code has it, report the same steps, the least unfunded |
| Consumers.BridgeShowsTheGap | memory/retrieval.py:191-202 | the published shortfall is the reported step's gap raised to the next hundred, and absent iff all steps are funded |
| Consumers.DisagreeExactlyOnFailure | memory/retrieval.py:185-261 | bridge and vault snapshot differ iff the position could not be computed |
| Consumers.ActionItemSkipsStepSix | digest.py:65-114 | the digest's action comes from the income track iff steps 1 to 5 are funded |
| Consumers.Round100IsLeastHundred | memory/retrieval.py:273-276 | the published figure is the least whole hundred not below the true one |
| Consumers.NearestExactly | memory/retrieval.py:273-276 | it is a nearest hundred iff the figure is whole hundreds or at least 50 above the hundred below |
| Consumers.HundredAndOne | memory/retrieval.py:48-49 | 101 is published as 200 |
| Consumers.PublishedNetWorthIsOffByHundred | memory/retrieval.py:263-276 | published net worth exceeds published assets less liabilities by 0 or 100, by 100 iff rounding adds more to liabilities |
| Consumers.SumSavings | vault/financial_snapshot.py:109-113 | active checking, savings and cash balances, types compared exactly |
| Consumers.SavingsExactly | vault/financial_snapshot.py:108-112 | the snapshot's savings are the balances of active accounts of exactly three types |
| Consumers.FlagExactly | vault/financial_snapshot.py:225-228 | the low-fund flag is raised iff savings cover less than 2.995 months |
| Consumers.UnfundedReadsAtMostThree | vault/financial_snapshot.py:106-114 | with non-negative cash an unfunded step 1 reads as at most 3.00 months |
| Consumers.UnfundedReadsOverThreeExactly | vault/financial_snapshot.py:106-114 | with no condition: unfunded yet over 3.00 months iff cash is under 3 months and active savings reach 3.005 |
| Consumers.FlagAgainstLadder | vault/wealth_position.py:136-147 | with active narrow cash types a funded step 1 keeps the flag silent; they differ exactly between 2.995 and 3 months |
| Consumers.FundedButFlaggedExactly | vault/financial_snapshot.py:225-228 | step 1 is funded and flagged iff cash reaches 3 months and active savings stay under 2.995 |
| Consumers.FlagCanContradictLadder | vault/financial_snapshot.py:110-113 | a high-yield account funds step 1 while the flag is raised |
| Pace.GoalLineEnds | agent/nodes/tracker.py:79-83 | the goal line runs from the first net worth to the target |
| Pace.GoalLineStraight | agent/nodes/tracker.py:79-83 | the line is straight in whole days, counting at least one day to the deadline and none before the start |
| Pace.GoalLineWithinBounds | agent/nodes/tracker.py:79-83 | towards a higher target it stays between the two before the deadline and above the target after it |
| Pace.GoalAlertExactly | agent/nodes/alert.py:79-85 | on the goal path the alert fires iff published net worth is over 500.50 below the line |
| Pace.GoalAlertInFigures | agent/nodes/tracker.py:53-90 | the same over the goal's, the first snapshot's and the day counts' own figures, without division |
| Pace.SnapshotAlertExactly | agent/nodes/tracker.py:93-105 | without a goal it fires iff net worth fell by over 500.50 a month |
| Pace.SnapshotAlertInFigures | agent/nodes/tracker.py:57-105 | iff thirty times the change since the first snapshot is under minus 500.50 for every day passed |
| Pace.PaceFigures | agent/nodes/tracker.py:85-105 | each published figure is its exact one to the nearest dollar, and on pace means at or above the line, or growing |
| Pace.ShortfallBounds | agent/nodes/tracker.py:66-90 | true net worth 600.50 or more below the line always alerts, 500.50 or less never |
| Pace.DecimalShortfallBounds | agent/nodes/tracker.py:79-90 | with every tracker operation rounded to 28 digits: 601 below the computed line always alerts, 500.50 never |
| Pace.RoundedLineNear | agent/nodes/tracker.py:81-83 | the computed line is off by at most one rounding of the first net worth and six of the way gone |
| Pace.DecimalShortfallFromExactLine | agent/nodes/tracker.py:79-90 | so for amounts up to 10^20 a shortfall of 601.000001 from the exact line always alerts, 500.499999 never |
| Pace.BetweenBoundsEitherOutcome | memory/retrieval.py:273-276 | strictly between those bounds both outcomes occur |
| Pace.FailureLooksLikeZero | memory/retrieval.py:26-32 | without a computed position the alert fires iff the line exceeds 500.50 |
| DigestProtocol.Digest.AlreadySent | digest.py:140-146 | whether the week is logged |
| DigestProtocol.Digest.MarkSent | digest.py:149-158 | inserts the week once, doing nothing on conflict |
| DigestProtocol.Digest.GenerateAndSend | digest.py:161-187 | a call does exactly what its protocol steps do when nothing interrupts them |
| DigestProtocol.UninterruptedRun | digest.py:161-187 | those steps' effect on log and outbox, per path and outcome |
| DigestProtocol.StepKeeps | digest.py:161-187 | one log row per week, marked weeks have a confirmed email, one email per run, kept by every step |
| DigestProtocol.EveryReachableState | digest.py:149-187 | the same in every reachable state, under any interleaving and failures |
| DigestProtocol.LateCheckNeverSends | digest.py:171-174 | a cron run whose check follows its week's mark never sends |
| DigestProtocol.CronSendsExactlyWhenUnmarked | digest.py:161-187 | an uninterrupted cron run sends iff the week is unmarked |
| DigestProtocol.EmailedUnmarkedExactly | digest.py:149-187 | in every reachable state an emailed week is unmarked iff every run that delivered for it is between send and mark, died there or was told it failed |
| DigestProtocol.RepeatsExactlyAfterLapses | digest.py:161-187 | from every reachable state a cron call repeats its week's email iff the week was emailed and all those runs lapsed |
| DigestProtocol.CronSendsAtMostOncePerWeek | worker/cron.py:23-36 | without overlap, death between send and mark, or unreported delivery, no email precedes a week's cron email |
| DigestProtocol.EachLapseRepeatsTheEmail | vault/models.py:461-471 | any one such lapse lets the next cron run repeat the email although the log stays unique |

## Left out

- Language-model calls and prompts; a reply, its token usage and its truncation are inputs.
- Exceptions that escape a node (the turn then fails as a whole) and partial tool results with missing fields.
- HTTP routing, authentication, rate limits, encryption, pages, migrations and scripts: framework plumbing.
- ORM and database internals beyond the identity map's treatment of deleted objects, atomic commit, rollback and the unique indexes; two vault sessions writing at once.
- How stored values read back (time zones, numeric scale) and database-computed timestamps in snapshots.
- Writes that bypass the vault layer (intake submission, price refresh, imported rows): they keep no per-row audit entries.
- The other nineteen copies of the create/update/delete triple: identical to the one modelled.
- CSV dialects, header names, date formats, debit and credit columns, OFX parsing, category mappings: an upload arrives as too large, undecodable, or rows with their date and amount read or not.
- Collisions of the 256-bit digest.
- Decimal's 28-digit limit outside the projection engine and the goal-path pace, and its exponent range; case folding beyond ASCII.
- `income_change`, percentages, savings rate, debt ratio, retirement and goal progress figures: straight-line arithmetic.
- Which alerts fire, except the net-worth pace alert: the turn takes any list of fired alerts.
- Income-optimizer inputs are taken as any list of hourly rates, although the vault snapshot currently carries none.
- Display strings, trajectory note, markdown layout, the disclaimer text and the keyword test, which is any predicate on text.
- Decisions, patterns and memory summaries in the retrieval context: read-only lists.
