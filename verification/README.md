# Verification of the SOC assistant's core

This project models the parts of the repository whose correctness spans many functions or whole runs, and proves what
they promise. It is organised as the repository is:

- **Alert and case lifecycle** (`Common`, `Store`, `Transitions`, `Lifecycle`, `Runs`, `Joins`, `Decisions`,
  `Database`): the tables of alerts, cases, intake rows, jobs and the append-only audit log. `Transitions` says what
  each transaction commits, as a function of the store; `Database` is the same tables as an object whose methods run
  the statements one after another; `Lifecycle` proves the invariant each transaction keeps and `Runs` what follows
  for whole runs; `Joins` and `Decisions` say in rows, columns and times what the pipeline and the analyst's
  transactions do. CHECK and UNIQUE constraints are guards that abort a transaction.
- **Time-window clustering** (`ClusterFold`, `AlertOrder`, `FoldLoops`): the greedy fold, its optimality, its
  independence of other keys and of input order, and the agreement of its two codings.
- **Prompt boundary** (`Text`, `Wrap`, `Values`, `Tokens`, `Vocabulary`, `Linter`, `RoundTrip`, `Lint`, `CleanText`,
  `Prompt`, `Findings`, `Builder`): untrusted text is wrapped under a nonce by the builder and cut out again by a
  linter that shares no code with it; built messages pass, and free text outside the blocks is reported.
- **Decision tables and the gate** (`DecisionTables`, `Quotes`, `Gate`): a finite consistency check that speaks for
  unboundedly many fact points, and the steps between a model's proposal and a verdict.
- **Stratified sampling** (`Remainder`, `Topup`, `SamplePlan`): largest-remainder shares, category floors and the plan
  with its cap.
- **Jobs, cache and spend** (`Jobs`, `JobProtocol`, `SpendCache`): state machines whose steps are the commits of
  several workers or the moves of several threads, in any order, crashes included.
- **Statistics and validation** (`Statistics`, `Schemas`, `RepairLines`, `RepairPrompt`): McNemar's exact test,
  Cohen's kappa, the schema validator, the repair prompt's lines and the linter's reading of the repair prompt.

Where a promise does not hold of the code, the code is kept and the model says when it does. Proved both ways, for all
inputs: an escalation checks no status and relies on constraints (`Runs.EscalateSucceedsExactly`); the fold respects
its ceilings exactly for sensible ceilings (`ClusterFold.FeasibleExactly`); the nonce returns through a truncation
marker exactly when the cut-off byte count spells it (`Wrap.WrappedContentIsInertExactly`, with the input in
`Wrap.NonceReturnsThroughTheMarker`); a built message passes its linter exactly when no shown time has a seconds
offset (`Prompt.BuiltMessageIsCleanExactly`); a write of the job protocol is refused exactly when it comes late
(`JobProtocol.LateWritesAreRefusedExactly`), which a reclaim under a running worker can bring about
(`JobProtocol.UntimelyReclaimIsRefused`) and timely runs never do; and the repair lines are free of the model's text
exactly when no undeclared key has a colon and a blank (`RepairLines.RepairLinesAreValueFreeExactly`, with the leak in
`RepairLines.KeyTextAfterColonLeaks`). An unexpected key is documented to be shown under its parent whatever it
contains: it is exactly when no known object's path lies further along the key's
(`RepairLines.KeyNamesItsObjectExactly`, with the family that breaks it in `RepairLines.KeyCanNameAnotherObject`).
Every intake row is documented to get a receipt: a pipeline job writes one exactly when the row's alert id is not
taken (`Runs.PipelineReceiptsExactly`), and a row whose id is taken never gets one
(`Runs.CollidingRowIsNeverReceipted`). The consistency check is exact for thresholds on its grid
(`DecisionTables.ConsistencyCheckIsExact`) and can be fooled off it (`DecisionTables.OffGridThresholdFoolsTheCheck`);
for every table the grid refined by its own thresholds is exact (`DecisionTables.RefinedGridDecidesEveryTable`).

`dafny verify dfyconfig.toml` checks the whole project.

## Model

| member | source | states |
|---|---|---|
| Runs.AuditLogRebuildsTheState | backend/app/domain/transitions.py:89-122 | After any run from the empty store, folding the audit log gives back every alert's status, every duplicate's parent, every head's count and every case's members |
| Runs.StepKeepsInv | backend/app/domain/transitions.py:198-621 | Each transaction keeps the lifecycle invariant: duplicates mirror their head, counts count, cases hold their heads, the log replays to the state |
| Runs.ReachableIsValid | backend/app/domain/transitions.py:198-621 | The invariant and the CHECK constraints hold in every state a run reaches |
| Runs.OccurrencesAreConserved | backend/app/soar/pipeline.py:93-143 | The occurrence counts of the heads add up to the number of alert rows, which is the number of intake rows receipted alert, auto_closed or duplicate |
| Runs.ClustersPartitionTheirRows | backend/app/domain/transitions.py:198-303 | Any set of heads with their duplicates covers as many rows as its occurrence counts say |
| Runs.ClustersAreFlatAndBounded | backend/app/ingest/dedup.py:81-107 | A duplicate points to a head and never to a duplicate; a head's count is one plus its duplicates and stays within the maximum cluster size |
| Joins.PipelineJoinsExactly | backend/app/ingest/dedup.py:81-107 | A pipeline run makes the alert a duplicate exactly when an undecided head of the same rule, addresses and agent was seen within the idle gap, is within the age its status allows and is not full; then of the one seen last |
| Joins.EveryRowArrived | backend/app/ingest/dedup.py:168-184 | Over every run: each row arrived at one step, and was made a duplicate of the head seen last of those it could join then, or a head as there was none |
| Joins.DuplicatesShareTheirKey | backend/app/ingest/dedup.py:81-107 | In every reachable state a duplicate has the rule, addresses and agent of its head |
| Runs.ClosureIsUniform | backend/app/domain/transitions.py:406-415 | A head closed by a decision or a conclusion shares that status with all its duplicates, late arrivals included |
| Runs.ConclusionClosesTheCase | backend/app/domain/transitions.py:575-621 | A conclusion closes every head of its case and every duplicate as false positive, benign or confirmed, as it was concluded false positive, policy violation or confirmed incident; every other row stays as it was |
| Runs.CaseStatusIsTheRows | backend/app/domain/transitions.py:82-86 | In every reachable state, alerts of a concluded case have the closed status its conclusion calls for, and those of a case under investigation are escalated, their duplicates duplicates |
| Runs.DecisionsAreFinal | backend/app/domain/transitions.py:603-613 | No later transaction changes a row that a decision or conclusion closed, nor reopens its cluster |
| Runs.DecidedRowsKept | backend/app/domain/transitions.py:406-429 | One transaction leaves every decided row as it was |
| Runs.CasesHoldTheirHeads | backend/app/domain/transitions.py:484-525 | A head is in at most one case, carries its case's status, and a case holds at most the maximum number of heads |
| Runs.NoHeadWithoutTriageJob | backend/app/domain/transitions.py:311-350 | Every head that left enrichment or was auto-closed has a triage job |
| Runs.OnlyTheTriggerCanBeRefused | backend/app/domain/transitions.py:460-525 | Of an escalation's candidates only the trigger can make a statement roll back |
| Runs.EscalateSucceedsExactly | backend/app/domain/transitions.py:445-556 | An escalation commits exactly when its guards hold: the trigger is an open head in no case and the case id is new; with a cap of zero it opens an empty case and changes no alert |
| Runs.PipelineReceiptsExactly | backend/app/soar/pipeline.py:53-75 | A pipeline job receipts its row exactly when the row's alert id is not already an alert, and rejects it exactly when its text is no alert the tables take: no JSON, a value the database refuses, or the parser's own rejection |
| Runs.ArrivalIsStoredOnce | backend/app/infra/puller.py:181-210 | An arrival is stored once, a heartbeat with its receipt; a second arrival of the row changes nothing |
| Transitions.RecordedIsTheFront | backend/app/soar/pipeline.py:67-75 | An error is recorded as its first thousand characters |
| Runs.ReceiptsAreWrittenOnce | backend/app/soar/pipeline.py:192-201 | A receipt once written stays as it is through every run |
| Runs.CollidingRowIsNeverReceipted | backend/app/infra/errors.py:44-66 | The documented receipt-for-every-row promise fails for a row whose alert id was taken first: no run ever receipts it, because the stale state it raises is classified transient |
| Runs.CollisionHappens | backend/app/soar/pipeline.py:93-143 | Such a row is reached in three legal steps from the empty store |
| Lifecycle.MergeKeepsInv | backend/app/soar/pipeline.py:93-109 | Merging a duplicate keeps the invariant, the head's count included |
| Lifecycle.EscalateKeepsInv | backend/app/domain/transitions.py:445-556 | Escalation keeps the invariant over all heads and duplicates it takes |
| Lifecycle.EscalateTakesOpenHeads | backend/app/domain/transitions.py:484-525 | A committed escalation took only open heads that were in no case |
| Lifecycle.ConclusionTouchesMembers | backend/app/domain/transitions.py:575-621 | The rows a conclusion updates are exactly the case's heads and their duplicates |
| Lifecycle.NoticesReplayToNothing | backend/app/domain/transitions.py:509-556 | The truncation and case-opened notices change nothing in the replay |
| Transitions.WithoutKeepsOthers | backend/app/domain/transitions.py:484-490 | Dropping the trigger from the correlated heads keeps all the others |
| Decisions.DecisionSucceedsExactly | backend/app/domain/transitions.py:367-429 | A decision goes through exactly on an acknowledged alert whose arrivals, itself and its duplicates, exceed those the analyst saw by no more than the tolerance; otherwise nothing changes |
| Decisions.DecisionClosesTheCluster | backend/app/domain/transitions.py:406-429 | It closes the alert and all its duplicates as decided and at that time, and no other row |
| Decisions.AcknowledgeSucceedsExactly | backend/app/domain/transitions.py:353-364 | Exactly the alerts waiting in the queue can be acknowledged, and nothing else changes |
| Decisions.ReopenSucceedsExactly | backend/app/domain/transitions.py:559-572 | Exactly the auto-closed alerts can be reopened, for a reason; they are queued and open again |
| Decisions.EscalationTakesExactly | backend/app/domain/transitions.py:484-525 | The new case holds the trigger and the first of the correlated heads, as many as the cap has room for; these are escalated, their duplicates linked, and no other row changes |
| Decisions.EscalationIsLogged | backend/app/domain/transitions.py:526-556 | The log gains how many candidates the cap left out, if any, who was escalated and how many the case began with |
| Database.Database.FindOpenCluster | backend/app/ingest/dedup.py:168-184 | Answers the most recently seen of the heads that may be joined, column by column and window by window, or nothing when there is none |
| Database.Database.BumpParent | backend/app/ingest/dedup.py:187-202 | Adds one to the head's count and moves its last-seen time; nothing else changes |
| Database.Database.Apply | backend/app/domain/transitions.py:89-122 | One guarded edge: updates the row and logs the event when the status and guard allow, otherwise changes nothing and answers stale |
| Database.Database.StartEnrichment | backend/app/domain/transitions.py:306-308 | The received row goes to enriching with its event |
| Database.Database.FinishEnrichment | backend/app/domain/transitions.py:311-350 | The enriching row is queued with its event and its triage job |
| Database.Database.Acknowledge | backend/app/domain/transitions.py:353-364 | The new tables are the specification's acknowledgement of the old ones |
| Database.Database.Reopen | backend/app/domain/transitions.py:559-572 | The new tables are the specification's reopening of the old ones |
| Database.Database.OpenDuplicate | backend/app/domain/transitions.py:228-303 | Inserts the sealed, closed duplicate with its event, or answers stale on a taken id and changes nothing |
| Database.Database.OpenAutoClosed | backend/app/domain/transitions.py:198-303 | Inserts the auto-closed head with its event and triage job, or answers stale on a taken id and changes nothing |
| Database.Database.OpenReceived | backend/app/domain/transitions.py:198-303 | Inserts the received head with its event, or answers stale on a taken id and changes nothing |
| Database.Database.FinishReceipt | backend/app/soar/pipeline.py:192-201 | Writes outcome, error text and time of one intake row, and nothing else |
| Database.Database.RunPipelineJob | backend/app/soar/pipeline.py:53-75 | The new tables are the specification's pipeline step of the old ones, rollback on failure included; the alert's row is a duplicate exactly when a head could be joined |
| Database.Database.Decide | backend/app/domain/transitions.py:367-429 | The new tables are the specification's decision: the head and every duplicate closed, or nothing |
| Database.Database.TwoUpdatesCloseClusters | backend/app/domain/transitions.py:406-415 | The head update and the fan-out update together close exactly the cluster |
| Database.Database.ConcludeCase | backend/app/domain/transitions.py:575-621 | The new tables are the specification's conclusion, and heads and duplicates of the case have the closed status the conclusion calls for |
| Database.Database.InsertCaseAlerts | backend/app/domain/transitions.py:496-508 | Row by row, inserts every head or stops at the first the unique index refuses |
| Database.Database.RefusalByStatements | backend/app/domain/transitions.py:484-525 | Which statement refuses an escalation, in the order the statements come |
| Database.Database.EscalateUpdates | backend/app/domain/transitions.py:509-525 | The two updates change exactly the heads and their duplicates, or answer why not |
| Database.Database.Escalate | backend/app/domain/transitions.py:445-556 | The new tables are the specification's escalation: all of it, or none of it |
| ClusterFold.KeyClustersAreItsOwnFold | eval/dedup_verify.py:158-200 | The clusters of one key in the interleaved fold are the fold of that key's alerts alone |
| ClusterFold.KeysDoNotInterfere | eval/dedup_verify.py:158-200 | Removing every other key from the stream leaves a key's clusters as they were |
| ClusterFold.ClustersAreGreedyRuns | eval/dedup_verify.py:167-200 | Each key's clusters describe the greedy runs of its alerts: count, members, first and last times |
| ClusterFold.ClosedByIsTheCeilingBroken | eval/dedup_verify.py:177-196 | The recorded reason is the first ceiling the next alert of the key broke |
| ClusterFold.GreedyPartitions | eval/dedup_verify.py:167-200 | The runs, put together, are the key's alerts in order, and none is empty |
| ClusterFold.FeasibleExactly | eval/dedup_verify.py:167-200 | Every run of the fold respects the three ceilings for every stream exactly when the size ceiling is at least one and the age ceiling not negative |
| ClusterFold.StaysAhead | eval/dedup_verify.py:167-200 | After as many runs as any other feasible split, the greedy fold has consumed at least as many alerts |
| ClusterFold.FoldIsOptimal | eval/dedup_verify.py:167-200 | No split of a key's sorted alerts into runs within the ceilings uses fewer clusters than the fold |
| ClusterFold.OfKeySorted | eval/dedup_verify.py:163-167 | One key's alerts stay in time order |
| AlertOrder.SortedFacts | eval/dedup_verify.py:163-167 | Sorting orders by time and id and keeps exactly the alerts |
| AlertOrder.TextBeforeExactly | eval/dedup_verify.py:163-167 | Ids of one time are ordered as texts: a front first, else by the first difference |
| AlertOrder.OrderedIsUnique | eval/dedup_verify.py:163-167 | With distinct ids there is only one sorted order |
| AlertOrder.FoldIgnoresInputOrder | eval/dedup_verify.py:158-200 | For distinct alert ids the clusters do not depend on the order of the input |
| AlertOrder.MembersPartitionInOrder | eval/dedup_verify.py:158-200 | A key's clusters hold its alerts once each, and each head is the earliest of its cluster |
| FoldLoops.FeedCluster | eval/dedup_verify.py:168-198 | One turn of the loop updates the open cluster in place, or closes it and opens the next, as one step of the specification |
| FoldLoops.FoldClusters | eval/dedup_verify.py:158-200 | The loop over cluster objects yields the specification's fold of the sorted alerts |
| FoldLoops.FeedTallyInPlace | scripts/measure_clusters.py:141-158 | One turn of the second coding's loop, in place |
| FoldLoops.MeasureFold | scripts/measure_clusters.py:138-165 | The second coding yields the specification's tallies of the alerts since the cut-off, in input order |
| FoldLoops.LoopsAgree | scripts/measure_clusters.py:138-159 | Fed the same stream, the two codings agree cluster by cluster |
| FoldLoops.CodingsAgreeOnSortedInput | scripts/measure_clusters.py:138-159 | On input sorted by time and id the two codings agree cluster by cluster |
| FoldLoops.CodingsAgreeOnEveryKey | scripts/measure_clusters.py:138-159 | On any stream in time order, however alerts of one time are ordered, both codings give every key the same clusters: first time, last time, number of alerts |
| FoldLoops.CodingsDifferOnUnsortedInput | scripts/measure_clusters.py:138-159 | Time order is needed: on a pair out of order the codings differ, as only the first sorts |
| Wrap.StrippedHasNoNonce | backend/app/security/wrap.py:49-52 | Replacing the nonce leaves no occurrence of it, not even one formed by the replacement |
| Wrap.EscapeKeepsNonceExactly | backend/app/security/wrap.py:99-116 | Escaped text holds the nonce exactly when the text does: escaping neither forms it nor takes it away |
| Wrap.MarkerNonce | backend/app/security/wrap.py:63-73 | The truncation marker can bring the nonce back only through the digits of its byte count |
| Wrap.WrappedContentIsInertExactly | backend/app/security/wrap.py:76-116 | Wrapped content has no angle bracket, and holds the nonce exactly when the number of bytes the limit cuts off spells it, which takes a text of ten to the fifteenth bytes |
| Wrap.NonceReturnsThroughTheMarker | backend/app/security/wrap.py:63-116 | The input that breaks it: for every sixteen-digit number, a text of that many bytes cut to nothing is wrapped with that number inside, and the number is a possible nonce |
| Wrap.HeadIsMaximal | backend/app/security/wrap.py:55-73 | The kept front is within the byte budget, and one more character would not be |
| Wrap.BlockSaysWhatWasCut | backend/app/security/wrap.py:55-116 | A block is all of its text, or the longest front within the limit followed by how many bytes were left out, counted exactly |
| Wrap.SizeIsShortest | backend/app/security/wrap.py:55-60 | A character takes the fewest bytes with room for it |
| Text.EscapeHasNoBracket | backend/app/security/wrap.py:99-116 | Escaped text has no angle bracket |
| Text.EscapeIsInjective | backend/app/security/wrap.py:99-116 | Escaping loses nothing: different texts are escaped differently |
| Text.ReplaceFirst | backend/app/security/wrap.py:49-52 | Replacing takes the first occurrence, then those behind it |
| Text.ReplaceNothing | backend/app/security/wrap.py:49-52 | Text without an occurrence stays as it is |
| Text.DecimalIsWorth | backend/app/security/wrap.py:63-73 | A number is written as digits worth it, with no zero in front |
| Text.NewlinesConcat | backend/app/security/linter.py:37-38 | Line counts add up over concatenation |
| Linter.PairTags | backend/app/security/linter.py:57-75 | The loop pairs tags in document order and lists those without partner, as specified |
| Linter.CutSpans | backend/app/security/linter.py:76-83 | The loop replaces each span by its newlines |
| Linter.StripBlocks | backend/app/security/linter.py:41-84 | Both loops together: what is left of the text, and the unbalanced tags |
| Linter.ResidualKeepsLines | backend/app/security/linter.py:76-83 | Cutting spans keeps the number of lines, for every text |
| RoundTrip.BlockIsLegible | backend/app/security/linter.py:51-75 | A printed block is read back as exactly one span, wherever it stands |
| RoundTrip.PlainTextIsLegible | backend/app/security/linter.py:51-75 | Text none of whose brackets can begin a tag is read as no block, wherever it stands |
| RoundTrip.StrippingRecoversTheBlocks | backend/app/security/linter.py:41-84 | For every sequence of sections the linter cuts exactly the builder's blocks, finds no unbalanced tag and leaves the rest |
| RoundTrip.SectionsKeepTheirLines | backend/app/security/linter.py:76-83 | Every section starts on the same line before and after the cut |
| Values.ValueLooks | backend/app/llm/builder.py:251-272 | A shown value uses the value alphabet only, colons only after digits |
| Values.IsoSaysTheMoment | backend/app/llm/builder.py:263-268 | A shown time reads back as its year, month, day, hour, minute, second and offset with its sign |
| Values.NumberSaysTheNumber | backend/app/llm/builder.py:269-270 | A shown number reads back as the number |
| Values.OddOffsetIsRefused | backend/app/security/linter.py:100-109 | A time whose offset has seconds is no allowed token |
| Values.ValueIsAllowedExactly | backend/app/security/linter.py:100-109 | A shown value is an allowed token exactly when it is no time with a seconds offset |
| Tokens.AllowedExactly | backend/app/security/linter.py:100-109 | A token passes exactly as a word of the closed sets, a decimal number, a time with a whole-minute offset, an identifier of one of the shapes, or an equals sign |
| Tokens.FreeWordIsRefused | backend/app/security/linter.py:100-126 | A word with no digit in it and no edge character at its ends, that is in no closed set, never passes |
| Tokens.TrimCutsTheEdges | backend/app/security/linter.py:112-119 | Trimming cuts edge characters off both ends, all of them, and nothing else |
| Vocabulary.TemplateIsSound | backend/app/llm/builder.py:162-237 | The shipped headings, sentences and labels meet the conditions the removal of constants relies on |
| Vocabulary.CoreIsSound | backend/app/security/linter.py:87-97 | A multi-character constant of the template starts and ends with text, has single blanks only, no bracket, and occurs in no shown value |
| Vocabulary.ConstantsDoNotSplice | backend/app/security/linter.py:87-97 | No constant the linter knows can be formed across the blank between two constants of the template |
| Vocabulary.ClosedDoesNotSplice | backend/app/security/linter.py:87-97 | No constant can be formed across the blank after a label or a bullet's dash |
| Lint.StripConstants | backend/app/security/linter.py:87-97 | Removes every multi-character constant, longest first, equal lengths in any order |
| Lint.JudgeLine | backend/app/security/linter.py:112-126 | One violation for a line with bad tokens: the first, cut to forty characters, and their number |
| Lint.LintMessage | backend/app/security/linter.py:129-147 | Block violations with their lines, then line violations, for some longest-first order; what they are in terms of the text is in the next rows |
| Lint.UnbalancedInRange | backend/app/security/linter.py:57-75 | Every unbalanced tag lies in the text, so its line exists |
| Lint.LinesAreCleanExactly | backend/app/security/linter.py:129-147 | No line has a violation exactly when every word of the text passes |
| Findings.FreeTextIsReported | backend/app/security/linter.py:129-147 | Whatever builder calls come before and after it: a line outside every block, with no constant in it, whose words pass up to one that is free text between its edge characters, is reported under its line's number with that text, cut to forty characters |
| Findings.ReportedApart | backend/app/security/linter.py:129-147 | Texts with a line break between them are judged apart, the second's lines numbered on |
| Findings.LinesAreTheText | backend/app/security/linter.py:129-147 | The lines, joined by line breaks, are the text, and no line has a break |
| Findings.NoTagEscapes | backend/app/security/linter.py:41-84 | In a message with no unbalanced tag every boundary tag lies in a block that is cut out |
| Findings.CutsAreBlocks | backend/app/security/linter.py:41-84 | What is cut out begins with the opening tag and ends with the closing one |
| CleanText.ReplaceOnPieces | backend/app/security/linter.py:87-97 | Removing a constant from the text removes exactly the pieces that are that constant |
| CleanText.RemoveOnPieces | backend/app/security/linter.py:87-97 | Removing all constants, longest first, leaves exactly the values and the single glyphs |
| CleanText.TidyTextIsCleanExactly | backend/app/security/linter.py:87-126 | What is left passes exactly when every value in it passes |
| Prompt.BuiltMessageIsTakenApart | backend/app/llm/builder.py:305-358 | For every sequence of builder calls and every untrusted text the linter takes the message apart as it was put together |
| Prompt.AttrTextHasNoBracket | backend/app/security/wrap.py:99-116 | An escaped attribute has no bracket and no quote |
| Prompt.BuiltMessageIsCleanExactly | backend/app/llm/builder.py:305-358 | The linter finds nothing in a built message exactly when every time on a line has an offset of whole minutes |
| Builder.PromptBuilder.AddHeading | backend/app/llm/builder.py:318-321 | Appends a template constant and refuses anything else |
| Builder.PromptBuilder.AddLine | backend/app/llm/builder.py:323-329 | Appends a line of fact renderings and constants, or refuses and changes nothing |
| Builder.PromptBuilder.AddSentence | backend/app/llm/builder.py:331-335 | Appends a sentence of constants, or refuses and changes nothing |
| Builder.PromptBuilder.AddBlock | backend/app/llm/builder.py:337-350 | Appends one block for a known, unused source and indexes it, or refuses and changes nothing |
| Builder.PromptBuilder.Build | backend/app/llm/builder.py:352-358 | The message of the sections so far; its blocks are recovered exactly, and it is clean exactly when its times have whole-minute offsets |
| DecisionTables.RuleMatches | backend/app/kb/lookup.py:118-135 | True exactly when every clause holds; an absent fact holds no clause |
| DecisionTables.TableAnswersFirst | backend/app/kb/lookup.py:138-145 | The table answers with the first rule in file order that holds, and nothing exactly when none does |
| DecisionTables.NamedIsFirst | backend/app/kb/lookup.py:148-154 | A rule is found by its id as the first of that id |
| DecisionTables.SeverityRises | backend/app/kb/lookup.py:88-96 | Severity does not fall as the level rises, and rises at 5, 8 and 12 only |
| DecisionTables.HoldingRuleGivesTheAnswer | backend/app/kb/lookup.py:138-145 | Where the rules agree, any rule that holds has the table's answer |
| DecisionTables.OrderDoesNotMatter | backend/app/kb/lookup.py:138-145 | Where the rules agree, reordering them does not change the table's action |
| DecisionTables.AgreementIsDecidedByTheCuts | backend/app/kb/lookup.py:157-172 | Rules agree at all fact points exactly when they agree at the points made of cuts that separate their thresholds and the severity bands |
| DecisionTables.RefinedGridDecidesEveryTable | backend/app/kb/lookup.py:157-172 | For every table, the grid refined by the table's own thresholds decides agreement at all fact points |
| DecisionTables.GridSize | backend/app/kb/lookup.py:99-115 | The grid has 2,520 points |
| DecisionTables.GridMembers | backend/app/kb/lookup.py:99-115 | The grid holds exactly the combinations of its axes, severity following the level |
| DecisionTables.ConsistencyCheckIsExact | backend/app/kb/lookup.py:157-172 | For thresholds on the grid, the check finds nothing exactly when the rules agree at every fact point, unbounded levels and counts included |
| DecisionTables.OffGridThresholdFoolsTheCheck | backend/app/kb/lookup.py:157-172 | With a threshold off the grid the check can find nothing while two rules clash at level 13 |
| DecisionTables.CheckConsistency | backend/app/kb/lookup.py:157-172 | The loops report every clashing pair at every grid point, in order |
| Gate.GateState.Step2Basis | backend/app/security/gate.py:93-108 | Forces needs_review exactly when one of the five basis fields differs from the facts, and names those that do |
| Gate.GateState.Step3Quotes | backend/app/security/gate.py:115-136 | Keeps exactly the reasons whose quote's words stand in the block they name, records why the others went, and forces needs_review when none is left |
| Gate.GateState.Step4FpPolicy | backend/app/security/gate.py:139-170 | A false positive stands exactly when the policy and the cited rule allow it; all gaps and the rule's own reason are named; other verdicts pass |
| Gate.GateState.Step5Detector | backend/app/security/gate.py:173-176 | Records the findings and touches no verdict |
| Gate.GateState.Step6Verifier | backend/app/security/gate.py:197-210 | The verdict stands exactly when the verifier agreed with it as it was after step 4 |
| Gate.NothingMismatchedExactly | backend/app/security/gate.py:93-108 | No field is listed exactly when all five agree |
| Gate.MismatchesAreNamed | backend/app/security/gate.py:93-108 | A name is listed exactly when it is that of a field whose texts differ in more than the case of letters |
| Gate.NamesAreTheKeys | backend/app/security/gate.py:93-108 | The fields carry the names of the alert's record |
| Text.LowerExactly | backend/app/security/gate.py:93-108 | Texts are alike in lower case exactly when they differ in the case of letters only |
| Gate.SurvivorsAreSupported | backend/app/security/gate.py:115-136 | The survivors are exactly the supported reasons, and each other one is dropped once |
| Gate.FaultSaysWhy | backend/app/security/gate.py:115-136 | A reason goes for an unknown block, a quote without words or words that do not stand there, and each is told exactly when it is so |
| Gate.NormIsItsWords | backend/app/security/gate.py:111-112 | A normalised text has the words of the folded text, single blanks between them and none at the ends |
| Gate.NormsAgreeExactly | backend/app/security/gate.py:111-112 | Two texts normalise alike exactly when they have the same words |
| Quotes.WordsByTheirLaws | backend/app/security/gate.py:111-112 | The words of a text are its pieces between white space: three laws that fix them |
| Quotes.QuoteStandsExactly | backend/app/security/gate.py:115-136 | Joined words occur in joined words exactly when they stand among them, inner ones whole, the first ending a word and the last beginning one |
| Gate.GapsNameTheFacts | backend/app/security/gate.py:139-170 | Each fact that stands in the way of a false positive is named, and no other |
| Gate.RuleCheckExactly | backend/app/tier1/triage.py:196-220 | The rule check passes exactly when a reviewed table's rule of the cited id holds and says false positive, and otherwise gives a reason |
| Gate.RuleCheckNamesTheFirst | backend/app/tier1/triage.py:196-220 | The reason given is the first thing in the way |
| Gate.RunSteps1To5 | backend/app/security/gate.py:179-194 | After step 5 the verdict is the proposed one exactly when it is grounded, and the forcing steps are named in order |
| Gate.RunGate | backend/app/security/gate.py:179-210 | The final verdict is the proposed one exactly when basis, quotes, policy, rule and verifier all support it, and needs_review in every other case; a quote supports when its words stand in the named block; the forcing steps are named in order |
| Gate.EarnedFalsePositiveIsTheTables | backend/app/tier1/triage.py:196-220 | On a table consistent at the alert's facts, a final false positive is the table's own answer |
| Gate.CheckedTableGivesTheVerdict | backend/app/kb/lookup.py:138-172 | The same for every table the consistency check passed, thresholds on its grid |
| Remainder.AllottedSum | eval/build_gold.py:613-634 | The allocation sums to exactly k, cut to nothing and to the total |
| Remainder.AllottedBounds | eval/build_gold.py:613-634 | Each key gets the floor or ceiling of its exact share and never more than its size |
| Remainder.AllottedInOrder | eval/build_gold.py:613-634 | A larger key never gets less than a smaller one; equal keys differ by at most one |
| Remainder.AllottedIsUnique | eval/build_gold.py:613-634 | Sizes and k determine the allocation |
| Remainder.PickedHaveRests | eval/build_gold.py:628-633 | A leftover unit goes only to a key with a fractional remainder |
| Remainder.SortedByRemainder | eval/build_gold.py:628-631 | The order of the leftover units: larger remainder first, then earlier key |
| Remainder.LargestRemainder | eval/build_gold.py:613-634 | The loops compute that allocation over distinct keys |
| Topup.BestDonor | eval/build_gold.py:661-672 | The donor is the first, in falling order of allocation and then category order, with a surplus |
| Topup.Lift | eval/build_gold.py:661-676 | One round: the best donor gives what it can spare and the recipient needs, keeping sum and floors, or nobody has anything to give |
| Topup.FloorTopup | eval/build_gold.py:637-682 | The loop ends, keeps the sum, takes no donor below its floor, lifts nobody above it, and ends with all floors met, or with exactly the categories below theirs noted in order and nothing left to give |
| SamplePlan.SplitCategory | eval/build_gold.py:715-722 | A category's share goes to its severities by largest remainder, within each stratum |
| SamplePlan.AllocateAndLift | eval/build_gold.py:734-738 | Largest-remainder shares over categories raised to the floors, within what each has, summing to what was asked |
| SamplePlan.PlanProportional | eval/build_gold.py:724-742 | The proportional branch is sound: unknown draws its largest-remainder share cut to the budget, the classified share the rest and are lifted to their floors, severities by largest remainder; cap and floor notes are exact |
| SamplePlan.PlanTakeAll | eval/build_gold.py:753-777 | The take-all branch is sound: all critical and high rows, unknown within its budget or what the rule took of it, the classified sharing what remains and lifted to their floors; notes exact |
| SamplePlan.UnknownIsFilled | eval/build_gold.py:753-777 | In the take-all branch unknown gets what the rule took of it and then as much as there is, the budget allows and the target has room for |
| SamplePlan.PresentInOrder | eval/build_gold.py:715-722 | The strata of a category come in the order of the severities |
| SamplePlan.ClassifiedInOrder | eval/build_gold.py:703-713 | The classified categories come in the order of all |
| SamplePlan.PlanAllKnown | eval/build_gold.py:780-786 | Taking all classified rows and filling up with unknown is sound |
| SamplePlan.PlanOnlyKnown | eval/build_gold.py:787-799 | Sharing the target among the classified rows alone is sound, with floors and notes as above |
| SamplePlan.StrataCountThePool | eval/build_gold.py:703-713 | The strata's sizes add up to the pool |
| SamplePlan.Plan | eval/build_gold.py:692-807 | In every branch: each stratum within its pool, the total within target and pool, unknown within its budget or what the take-all rule took, short only when all classified rows are taken and the cap keeps some of unknown out; the branch's shares and floors, and all notes in order |
| SamplePlan.FloorsAreMetOrNoted | eval/build_gold.py:637-682 | Every classified category has its floor or a note of how far it is short; it is short only when no category can spare a row above its own floor, and nobody ends below both its floor and its largest-remainder share |
| Jobs.JobTable.Enqueue | backend/app/infra/jobs.py:48-80 | Inserts a pending job unless one is live for the type and subject; an unknown type is refused before the table |
| Jobs.JobTable.ClaimJob | backend/app/infra/jobs.py:83-114 | Claims a due unlocked job of the types, the oldest of them, and counts the attempt, or finds none |
| Jobs.JobTable.FinishJob | backend/app/infra/jobs.py:117-168 | Resolves a job by outcome and attempts, recording the error; nothing is committed when the backoff list is too short or the unique index refuses |
| Jobs.FinishResolves | backend/app/infra/jobs.py:117-168 | A finish that commits leaves one row changed: succeeded, failed for good with its error, or pending again after the delay of its attempt, and exactly when each |
| Jobs.JobTable.ReclaimStale | backend/app/infra/jobs.py:171-183 | Returns exactly the stale running jobs to pending and counts them |
| Jobs.BackoffIsLongEnoughExactly | backend/app/infra/jobs.py:140-158 | Every retried attempt has a delay exactly when the list has one for each attempt but the last |
| JobProtocol.AlwaysSane | backend/app/infra/worker.py:35-114 | In every interleaving, crashes and untimely reclaims included: one live job for each type and subject, no intake row receipted twice |
| JobProtocol.TimelyRunsAreNeverRefused | backend/app/infra/worker.py:35-114 | While no job is reclaimed under its running worker, neither the unique index nor the receipt pins ever refuse a write |
| JobProtocol.LateWritesAreRefusedExactly | backend/app/infra/worker.py:78-114 | Over any run, timely or not, the writes refused are exactly the late ones: a retry of a job that others resolved and asked for again, or a receipt for a row that got one since it was read |
| JobProtocol.CommittedPipelineIsReceipted | backend/app/infra/worker.py:78-114 | When a worker commits a pipeline job's success or rejection, whatever happened before, the intake row has exactly one receipt |
| JobProtocol.FinishLeavesItResolved | backend/app/infra/worker.py:78-96 | A finish that is not refused resolves the worker's row and no other, and frees the worker |
| JobProtocol.AskedIsQueued | backend/app/infra/worker.py:100-114 | After a follow-up was asked for, its subject has a live job: the new one, due after the delay, or one there already was |
| JobProtocol.CrashedIsReclaimed | backend/app/infra/jobs.py:171-183 | A crashed worker's job can be claimed again exactly when its lock is too old |
| JobProtocol.HandsAreApart | backend/app/infra/jobs.py:83-114 | Two workers never hold the same subject of one type |
| JobProtocol.BackoffIsAlwaysInRange | backend/app/infra/jobs.py:140-158 | With a delay for each attempt but the last, no run indexes outside the backoff list |
| JobProtocol.UntimelyReclaimIsRefused | backend/app/infra/jobs.py:171-183 | A run in which a job reclaimed under its worker makes the unique index refuse the finish |
| JobProtocol.RunsFromTheStart | backend/app/infra/worker.py:35-114 | All of this for any number of workers from an empty queue |
| SpendCache.SpendStaysBounded | eval/llm_cache.py:123-172 | In every interleaving, once a spend check has passed, recorded spend stays below the cap plus one call for each thread; before that nothing is spent |
| SpendCache.LiveIsPaid | eval/llm_cache.py:123-172 | Over every run, recorded spend is exactly the sum, read off the actions, of the costs of the answers that were recorded |
| SpendCache.PaidStaysBounded | eval/llm_cache.py:123-172 | The bound in terms of that sum: below the cap plus one call for each thread once a check has passed, nothing before |
| SpendCache.CheckRefusesExactly | eval/llm_cache.py:152-172 | At any point of any run a check refuses exactly when the month's spend and that sum have reached the cap |
| SpendCache.OneAnswerForEachKey | eval/llm_cache.py:285-397 | In every interleaving all results for a key carry the answer on disk, at most one live call's entry is written for it, and its calls never overlap |
| SpendCache.MeasuredOncePerKey | eval/llm_cache.py:285-397 | Over every run, live results for a key and entries written for it are equal in number: one when the run put the key on disk, none otherwise |
| SpendCache.ThreadsAreServed | eval/llm_cache.py:299-330 | An entry on disk is served at either look without a call, a miss goes on towards one, and a failed call gives no result |
| SpendCache.StartIsFit | eval/llm_cache.py:414-436 | Any number of idle threads over any disk is a start both results apply to |
| Statistics.ClampActsOnTiesOnly | eval/metrics.py:506-511 | Twice the lower tail exceeds two to the n exactly when the discordant counts are equal |
| Statistics.PIsTheSmaller | eval/metrics.py:506-511 | The p-value is twice the lower tail, or one where the counts are equal |
| Statistics.ChooseByFactorials | eval/metrics.py:510 | The binomial coefficients are those of the factorials |
| Statistics.PIsSymmetric | eval/metrics.py:493-517 | Swapping the two runs, pair by pair, leaves the p-value as it is |
| Statistics.PFallsWithLopsidedness | eval/metrics.py:493-517 | For a fixed number of discordant pairs the p-value does not increase as the split grows more lopsided |
| Statistics.TailsAreComplementary | eval/metrics.py:506-511 | The lower and the upper binomial tail make up two to the n |
| Statistics.McNemar | eval/metrics.py:493-517 | Counts the discordant pairs and gives the exact clamped fraction |
| Statistics.KappaIsBounded | eval/label_export.py:270-284 | Kappa is undefined exactly when all pairs are one identical label; otherwise it lies in [-1, 1] and is 1 exactly when all pairs agree |
| Statistics.KappaIsSymmetric | eval/label_export.py:270-284 | Swapping the labellers leaves kappa as it is |
| Statistics.CohenKappa | eval/label_export.py:270-284 | The table, the observed and the chance agreement, and kappa, as defined |
| Schemas.ValidatorIsExact | backend/app/llm/schemas.py:104-168 | For every schema tree and value the validator has no message exactly when the value conforms |
| Schemas.ListedWordsExactly | backend/app/llm/schemas.py:76-95 | A leaf that lists words accepts exactly those, and null where it is listed |
| Schemas.StringLeavesExactly | backend/app/llm/schemas.py:76-95 | Every other leaf accepts exactly the strings, and null where its notation is string or null |
| Schemas.LeafTextSaysWhatIsWanted | backend/app/llm/schemas.py:152-168 | A leaf's message says what it takes |
| Schemas.NonEmptyWantedExactly | backend/app/llm/schemas.py:138-149 | Items are wanted exactly where the item's notation says so, in any case of letters |
| Schemas.MemberIsThere | backend/app/llm/schemas.py:122-135 | A member that is found is one of the value's |
| Schemas.ValidateNode | backend/app/llm/schemas.py:104-119 | The recursive loops produce the specified messages in order |
| Schemas.ValidateObject | backend/app/llm/schemas.py:122-135 | Missing and misfitting fields in schema order, then unexpected keys in the value's order |
| Schemas.ValidateArray | backend/app/llm/schemas.py:138-149 | The empty-array message where items are wanted, then each item's messages |
| RepairLines.FindObjectPrefix | backend/app/llm/triage.py:648-653 | The loop ends at a known object path or at nothing |
| RepairLines.ObjectPrefixIsLongest | backend/app/llm/triage.py:648-653 | What is found is the longest dotted front of the path that is a known object |
| RepairLines.LineNamesThePlace | backend/app/llm/triage.py:656-664 | A message about a place of the schema is shown under that place's own path, indices as brackets |
| RepairLines.KeyNamesItsObjectExactly | backend/app/llm/triage.py:648-664 | An unexpected key without a colon and a blank is shown under the object that has it exactly when no known object's path lies further along the key's own |
| RepairLines.KeyCanNameAnotherObject | backend/app/llm/triage.py:648-664 | A key of the root that begins with the path of a known object and a dot is shown under a known object instead |
| RepairLines.StructuredBasisIsKnown | backend/app/llm/triage.py:636-645 | The structured basis of the shipped schema is such an object |
| RepairLines.ErrorSplits | backend/app/llm/triage.py:656-664 | Splitting at the first colon and blank gives back the path and the message |
| RepairLines.RepairLinesAreValueFreeExactly | backend/app/llm/triage.py:616-664 | For every schema with plain keys and every value: each message becomes a known path, or the root, and a fixed text, exactly when no key the schema does not declare, where the schema reaches, has a colon and a blank |
| RepairLines.RepairRoundIsValueFreeExactly | backend/app/llm/triage.py:636-664 | The same for the two schemas of the repair round, with both schemas' paths and messages |
| RepairLines.KeyTextAfterColonLeaks | backend/app/llm/triage.py:656-664 | A triage answer with a made-up key with a colon and a blank gives a line that carries the rest of the key and is no value-free line |
| RepairPrompt.RepairVocabularyIsSound | backend/app/llm/triage.py:636-645 | The schemas' paths and messages meet, beside the template, the conditions the removal of constants relies on |
| RepairPrompt.ValueFreeLinesPassExactly | backend/app/llm/triage.py:667-684 | A message with any value-free repair lines behind it passes the linter exactly when the message without them does |
| RepairPrompt.RepairPromptPassesExactly | backend/app/llm/triage.py:667-691 | For every sequence of builder calls and every model answer, parsed or not, no undeclared key of which has a colon and a blank: the repair prompt passes its own linter exactly when no shown time has a seconds offset |

## Left out

- Transitions of rows take the answers of three queries as parameters: which cluster absorbs an alert is constrained to what the dedup query can answer, correlation to at most the limit of distinct open heads other than the trigger, and the auto-close decision is arbitrary.
- Alert columns the lifecycle does not read (context, risk, categories, source, triage counters, close reason) and the event payload fields they feed.
- SQL text, locks and isolation levels: each transaction is one atomic step of the store, and a transient failure is a step that changes nothing.
- Job sweeping and the web layer: every way a transaction is requested is an action a run may contain.
- The parser of intake documents: what a text comes to, a permanent error of the parser or of the database included, is part of the row.
- Unicode normalisation: wrapped text is already normalised, and the gate's quote folding is an arbitrary function.
- Digits in the linter's and the identifiers' patterns are the ASCII ones; the pattern language of Python also matches other decimal digits.
- Lower-casing in the gate and the schema notes is that of ASCII letters.
- Lone surrogates and negative byte limits in block truncation.
- Attribute names of a block are assumed free of a closing bracket, as Python identifiers are.
- Times are shown with whole seconds; offsets with microseconds are not modelled.
- FoldLoops.MeasureFold: does not model the category, severity and family looked up for each cluster after the loop.
- Gate.RunGate: does not model step 7, the output guard's flat list of membership tests, nor the fields of the result document.
- Step 1 of the gate is the schema validator, which is modelled on its own.
- Loading of playbooks and decision tables from files: a table is its rules and whether it is reviewed.
- SamplePlan.Plan: does not say which category a lifted unit ends in, beyond sum, floors and donors' limits; which donor gives in a round is stated by `Topup.Lift`.
- The random draw within a stratum, the coverage tables and the CSV files of the sample.
- Category and stratum rank: the order of categories is a parameter, and the results hold for every order; severities are the four listed ones.
- The unknown budget is a natural number; its float computation is left to the caller.
- The ORDER BY of a claim under concurrency: in the protocol a claim may take any due row, since older ones may be locked; `Jobs.JobTable.ClaimJob` states it for the rows that are not.
- Handler bodies of job types other than the pipeline: they may succeed, ask for a follow-up or fail.
- Cache keys: a key stands for its request, so collisions of the digest and entries changed by other programs are not modelled; re-entrant locking by nested wrappers neither.
- Money is counted in whole smallest units and month spend does not change during a run.
- Floating point: p-values and kappa are exact fractions.
- Bootstrap intervals, grouped tables and the other metrics.
- Numbers other than integers in model output are one value that is no integer.
