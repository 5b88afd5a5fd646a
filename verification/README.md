# Verified model of the @model tier's support code

The @model tier measures claims about a language model over many trials: it runs trials in a worker
pool, keeps what each of them printed and spent, reads its verdicts off the kept conversation, and
merges the result into a scorecard that several processes share. This project models that code in
Dafny and proves what it promises, over every input, every run and every interleaving. Nothing here
runs the TypeScript; the theorems are about the model.

`dafny verify dfyconfig.toml` checks the whole project.

## Modules

| file | component |
|---|---|
| `Scorecard.dfy`, `Takeover.dfy`, `TakeoverLimits.dfy`, `OneMerge.dfy` | `withLock`, `readCard` and `mergeCell` as a step machine: one file-system call of one process at a time, with time passing, failures and deaths between them |
| `ProfileLock.dfy` | `takeProfileLock` as a step machine: link, read, rename and read-back, one call at a time |
| `Trials.dfy` | `runTrials`: the worker pool; the code between two awaits is one step |
| `Text.dfy`, `Flat.dfy`, `Lines.dfy`, `Grammar.dfy` | strings and lists; the reader's regular expressions, written out as what they accept and capture, and said again by the parts of what they match |
| `Sayings.dfy`, `Answers.dfy`, `Called.dfy` | `trialOf`, `promptedAgents`, `answersIn`, `saidFrom`, `calledIn` |
| `Matching.dfy` | which answer is which call's: a declarative matching, and that the reader's queues compute it |
| `Runs.dfy` | `keptOfRun`, `ofRun` |
| `Conversations.dfy`, `RoundTrip.dfy`, `ReadBack.dfy` | conversations as they happen, printed as `printLines` prints them; what is heard of them, and when that is what happened |
| `Chart.dfy`, `EndToEnd.dfy`, `Misjudged.dfy` | `readChartRefusal`, the whole way from what happened to the reading, and printed trials that are misjudged |
| `Replay.dfy` | `modeAtAsk` |
| `Utf8.dfy`, `Paths.dfy` | `segment`, `cellDir`, `trialDir` |
| `KeptLog.dfy` | `followAcross` |
| `Settlements.dfy`, `TrialUsage.dfy`, `History.dfy` | `settledIn`, `usageOf`, `trialUsage`, `trialUsageAcross`, `viewSettled`, `historyFile` |
| `Seed.dfy`, `LargeSeed.dfy` | `makeRepoScript` cut at any moment and run again; concurrent `ensureLargeSeed` builders |

The concurrent components are total step functions, and a run is any list of steps, so each theorem
about `Run` is a theorem about every interleaving. Loops of one process (`answersIn`, `saidFrom`,
`modeAtAsk`, `runTrials`, `segment`, `trialUsage`, `historyFile`, `settledIn`) are methods with loops,
proved against specification functions; `followAcross` is a class.

## Where the code differs from what is said of it

Each of these is a lemma; the promise itself is proved under its exact condition.

- `withLock` stamps the lock with the time of the call, not of the acquisition. A caller may wait 60 s
  and a stamp is stale after 30 s, so a late waiter's lock can be stale the moment it is made
  (`TakeoverLimits.ALateLockIsStaleAtOnce`). A process
  inside can be joined by a new caller exactly when its stamp is stale
  (`TakeoverLimits.ExcludesExactlyWhileTheStampIsFresh`). With the source's own bounds an update is lost
  by it, from every start (`TakeoverLimits.TheDefaultsLoseAnUpdate`).
- The second read before an unlink does not by itself leave alone a lock that another process took in
  the meantime: the read and the unlink are two calls
  (`TakeoverLimits.WithoutPairsAFreshLockIsRemoved`). It does when each such pair acts as one step.
- The read-back of `takeProfileLock` does not always tell the loser of two takeovers. Over a gone lock
  two suites can both return; the lock excludes in every interleaving exactly from an absent or live
  lock, or with one suite (`ProfileLock.ExcludesExactlyFromASafeStart`).
- The final loop of `modeAtAsk` stops in an opening mode that has no pick, because the mode counts as
  seen once its picks opened. It reaches the first mode with a pick exactly when no such mode is on the
  way (`Replay.ChaseReachesThePickExactlyWithoutAStall`).
- `readChartRefusal` takes a call without an answer for one that reached the door. A call that a provider
  error ended has none, and never reached it, so a miss can be measured
  (`Chart.ACutAfterTheRefusalIsMisread`, `Chart.ACutBeforeTheRefusalPassesAMiss`) and a pass lost
  (`Chart.ACutBeforeTheRefusalLosesAPass`). `Chart.MeasuredExactly` says what is measured on every trace,
  and `Chart.RightExactly` exactly when that is what the claim asks for.
- The printer cuts a body at `\n` only, and `.` in the readings' regular expressions matches neither `\r`
  nor U+2028 nor U+2029: a printed line that holds one is not read, by `answersIn`, `calledIn` or
  `keptOfRun` (`Lines.ReadPrinted`, `ReadBack.ABrokenRefusalIsNotHeard`). The round trip holds exactly
  without them in calls and answers (`ReadBack.ReadBackExactly`). A refusal that is lost so makes a false
  pass (`Misjudged.ALostRefusalIsAFalsePass`), and a prompt that is lost so lets an answer cross it
  (`Misjudged.ALostPromptLetsAnAnswerCross`). `RoundTrip.PrintedIsHeard` says what is read in every case.
- A later line of a body that opens with a bracket is not always read as it was: `[Note]text` comes back
  as `[Note] text` (`ReadBack.ASpaceIsAdded`), and `[note]text` as a call that was never made
  (`ReadBack.ALaterLineBecomesACall`). `Conversations.LaterLineRead` has the exact condition.
- Taking the Instance ID off a second time changes a line exactly when its body opens with a bracketed
  word of two slashes or more (`Runs.SecondStrip`; `Runs.ASecondStripTakesAPath` is such a line).
- "Absent or complete" of `large.git` holds exactly while no generator dies alone: the shell sees only the
  last command of `awk | git fast-import`, and a part that ends between two records is imported and
  installed (`LargeSeed.AbsentOrComplete`, `LargeSeed.ADyingGeneratorIsInstalled`).

In the matching, an answer pairs with the *oldest* open call of its pick. That is a clause of its own, which
makes the matching unique.

## Model

| member | source | states |
|---|---|---|
| `Scorecard.LastMergeStands` | features/lib/model-scorecard.ts:128 | After any list of merges, the cell of each merged update holds the value of the last update of that cell |
| `Scorecard.OtherCellsStay` | features/lib/model-scorecard.ts:128 | A cell that no merge is of stays as the first card has it, through any list of merges |
| `Scorecard.CardAlways` | features/lib/model-scorecard.ts:98-134 | While one live process is inside at a time: the card is the first card with the renamed merges applied in order, what a process inside has read is still what the card holds, and the log is exactly the calls that renamed, each once |
| `Scorecard.NoLostUpdate` | features/lib/model-scorecard.ts:98-134 | No lost update, in every such run: every call that renamed is in the card or overwritten by a later merge of its own cell; a reader never finds a torn card; an unreadable first card is moved aside, never lost |
| `Scorecard.QuietRunsOwn` | features/lib/model-scorecard.ts:63-96 | In every interleaving of file-system calls in which no staleness check succeeds, each holder made the lock file that is there, so at most one process is inside at every moment |
| `Scorecard.QuietLockIsHeld` | features/lib/model-scorecard.ts:91-95 | In every such run the lock is there only while the call that made it holds it: every call that comes to its end, well or not, has released it |
| `Scorecard.NoLostUpdateWithoutTakeover` | features/lib/model-scorecard.ts:63-134 | Hence no update is lost in any such run, whatever fails or dies |
| `OneMerge.AnOrdinaryMerge` | features/lib/model-scorecard.ts:63-134 | From every start a call on its own makes the lock, moves an unreadable card aside, merges its cell, renames and releases: it ends well, the lock is gone, the card is the first card with its cell, and nothing else changed |
| `OneMerge.AFailedMergeReleases` | features/lib/model-scorecard.ts:91-95 | A merge that fails inside releases the lock too, and leaves the card as it was |
| `OneMerge.ADeadOwnersLockIsTaken` | features/lib/model-scorecard.ts:84-86 | A process that dies inside leaves its lock; the next call takes it over at once, merges and releases |
| `OneMerge.JudgesExactly` | features/lib/model-scorecard.ts:49-55 | A call that finds a lock waits if and only if its owner is alive with a stamp that is not old, or no owner is written yet and the file is not old; otherwise it goes on to take it |
| `OneMerge.GivesUpExactly` | features/lib/model-scorecard.ts:88-89 | A call that waits gives up if and only if its time is over, and otherwise tries again |
| `Takeover.GuardedStep` | features/lib/model-scorecard.ts:49-96 | Every step keeps the protocol's invariant: a live holder with a fresh stamp made the lock that is there, and a condemned lock is expired |
| `Takeover.OneFreshHolder` | features/lib/model-scorecard.ts:49-96 | With create+write and compare+unlink as single steps, at every moment of every run at most one live holder has a stamp that is not stale, and the lock file is its own |
| `Takeover.RemovalIsSafe` | features/lib/model-scorecard.ts:84-95 | Neither takeover nor release ever removes a lock that another process took in the meantime: the lock that a step removes still holds the very text that this call judged stale, and its owner is dead or its stamp is old; or the call releases, and the lock is the one it made |
| `Takeover.NoLostUpdateAcrossTakeover` | features/lib/model-scorecard.ts:63-134 | Across deaths and takeovers no update is lost, when each live call is done within the bound of its stamp |
| `TakeoverLimits.ExcludesExactlyWhileTheStampIsFresh` | features/lib/model-scorecard.ts:68-69 | In every state the protocol reaches, a new caller can join a holder at once if and only if the holder's stamp is stale |
| `TakeoverLimits.ALateLockIsStaleAtOnce` | features/lib/model-scorecard.ts:68-78 | From every start, a call that waits past the bound and takes the free lock is inside with a lock that is stale the moment it is made |
| `TakeoverLimits.TwoInsideLoseAnUpdate` | features/lib/model-scorecard.ts:124-133 | From any state with two processes inside: a run in which both rename and the first one's cell is gone |
| `TakeoverLimits.TheDefaultsLoseAnUpdate` | features/lib/model-scorecard.ts:30-32 | With the source's own bounds, from every start and with each pair one step: a run in which a late waiter is joined by a new caller, both rename, and the late waiter's cell is gone |
| `TakeoverLimits.WithoutPairsAFreshLockIsRemoved` | features/lib/model-scorecard.ts:84-86 | With the read and the unlink as two calls, a takeover can remove a live, fresh lock made in between |
| `OneMerge.GivesUpOnlyLate` | features/lib/model-scorecard.ts:88 | In every run, whatever the interleaving, a call gives up only when its time is over |
| `OneMerge.AChangedLockIsLeft` | features/lib/model-scorecard.ts:85-86 | A lock that is gone or was taken between the two reads is left alone, and the call tries again at once |
| `OneMerge.AGoneLockIsWaitedFor` | features/lib/model-scorecard.ts:82-89 | A call that finds the lock gone before its first read waits and tries again |
| `ProfileLock.StepSafe` | features/lib/model-lock.ts:86-110 | Every file-system call of every worker keeps the safety invariant |
| `ProfileLock.SafeFromAbsentOrLive` | features/lib/model-lock.ts:80-110 | From an absent or live lock, in every interleaving of any number of suites: written at most once, never seen half-written, every worker that returned is of the suite the lock names, every other one is refused at its first attempt |
| `ProfileLock.OneSuiteSharesAGoneLock` | features/lib/model-lock.ts:97-106 | From a gone lock contended by one suite, no worker is refused and none tries again |
| `ProfileLock.EveryCallIsProgress` | features/lib/model-lock.ts:86-109 | Each call of a worker brings it nearer to its end, whatever the others do |
| `ProfileLock.NineTurnsEnd` | features/lib/model-lock.ts:86-109 | After nine calls of its own, in any interleaving, a worker returned if the lock names its suite and was refused if not; over a gone lock of one suite all return |
| `ProfileLock.ReturnsUnderItsOwnSuite` | features/lib/model-lock.ts:89-106 | From every start and in every interleaving, a worker returns only at a moment at which the lock names its suite |
| `ProfileLock.TempsAreRemoved` | features/lib/model-lock.ts:86-104 | From every start no worker leaves a temporary file behind, and none makes more than ten attempts |
| `ProfileLock.NinetyTurnsEnd` | features/lib/model-lock.ts:86-109 | From every start, whatever other suites do, a worker that made ninety calls is at its end |
| `ProfileLock.TheLoserTriesAgain` | features/lib/model-lock.ts:105-109 | A worker that reads another suite's lock back does not return: it tries again and is refused when that suite is alive, and gives up at its tenth attempt |
| `ProfileLock.TheLoserIsTold` | features/lib/model-lock.ts:97-106 | Two suites over a gone lock, when the first reads back after the second's rename: the first is refused and the second returns |
| `ProfileLock.TwoSuitesBothReturn` | features/lib/model-lock.ts:97-106 | Two suites that both judge a gone lock before either renames both return |
| `ProfileLock.ExcludesExactlyFromASafeStart` | features/lib/model-lock.ts:80-110 | The lock excludes in every interleaving if and only if it starts absent or live, or one suite contends |
| `Trials.StepBalanced` | features/steps/model.steps.ts:1474-1500 | Every step of every worker keeps the pool's balance |
| `Trials.AlwaysBalanced` | features/steps/model.steps.ts:1467-1503 | In every interleaving `next` is the kept results plus the trials in flight; as many are in flight as the width and the work left allow; the results are the ended trials without the first `ceil(n/2)` void ones, in order; each ended trial's usage is in `spent` once |
| `Trials.PoolBounds` | features/steps/model.steps.ts:1467-1503 | Exactly `min(max(1, min(parallel, n)), n - results)` in flight; twice the replaced ones are at most `n + 1`; a void trial is kept only when twice the replaced ones are `n` or more |
| `Trials.PoolEndsWithExactlyN` | features/steps/model.steps.ts:1501-1503 | The pool ends exactly when it has `n` results, with `n` plus the replaced ones in `spent` |
| `Trials.EveryEndIsProgress` | features/steps/model.steps.ts:1474-1500 | Each trial that ends adds a result or uses a replacement: no run goes on for ever |
| `Trials.AllAreKept` | features/steps/model.steps.ts:1490-1499 | Without a void trial every trial that ended is kept, in order |
| `Trials.RunTrials` | features/steps/model.steps.ts:1459-1504 | The pool's loops compute the run of the step machine; it is done exactly with `n` results |
| `Answers.CollectAgents` | features/lib/model-said.ts:151-158 | Exactly the Agents whose prompt printed, each once, in the order of their first prompts |
| `Answers.ReadTrial` | features/lib/model-said.ts:91-133 | The loop with its mutable list, queues and sink computes the event reader up to another trial's Frame |
| `Answers.ReadAnswers` | features/lib/model-said.ts:87-134 | The whole of `answersIn` |
| `Answers.ReadingWholeBodies` | features/lib/model-said.ts:93-131 | Reading line by line with the sink is reading whole bodies |
| `Matching.MatchingIsUnique` | features/lib/model-said.ts:99-125 | There is at most one matching: pairs share Agent and pick, the call is earlier, no prompt is between, an answer takes the oldest open call, and stays alone only if every earlier such call is taken |
| `Matching.OrderIsKept` | features/lib/model-said.ts:109-125 | Answers of one pick are in the order of their calls, and no call has two |
| `Matching.QueuesFindTheMatching` | features/lib/model-said.ts:99-125 | Queueing per (Agent, pick) finds that matching, for every conversation |
| `Matching.ReaderGivesTheMatching` | features/lib/model-said.ts:87-134 | For every log, `answersIn` gives every call in order with its whole input and the whole answer the one matching gives it |
| `Called.ReadSaid` | features/lib/model-said.ts:207-224 | `saidFrom`, its list filled line by line |
| `Called.TwoReadersAgree` | features/lib/model-said.ts:60-63 | For every log and marker, `answersIn` is undefined exactly when `calledIn` is, and otherwise both tell the same calls in the same order |
| `Lines.ReadPrinted` | features/lib/model-said.ts:166-178 | `printedLine` takes a printed line apart into what was printed, if and only if its text holds no `\r`, U+2028 or U+2029; otherwise it takes nothing, and `withoutIid` leaves the line as it is |
| `Lines.UntimedParts` | features/lib/model-said.ts:203 | A stamp, said by its characters (`dddd-dd-dd`, `T`, digits, `:` and `.`, `Z` or an offset, a space), is taken off before any line |
| `Lines.OnlyStampsAreTaken` | features/lib/model-said.ts:203 | A line that is changed began with such a stamp; every other line is untouched |
| `Grammar.BracketedExactly` | features/lib/model-said.ts:169 | A text opens with a bracket if and only if it is `[`, something without `]`, `]`, and the rest |
| `Grammar.FrameExactly` | features/lib/model-said.ts:100 | A prompt is a Frame if and only if it opens with a word in brackets |
| `Grammar.LineEndsExactly` | features/lib/model-said.ts:169 | The four line ends, and no other character, break a line |
| `Grammar.IidExactly` | features/lib/model-said.ts:167-169 | An Instance ID is three parts between slashes, the last one any, without a space, and nothing else is |
| `Grammar.SomeSpaces` | features/lib/model-said.ts:169 | Characters that are spaces, and some that are not |
| `Grammar.CallLabelExactly` | features/lib/model-said.ts:11 | A call's label is a snake name, or a server and a tool with a slash between, and nothing else is |
| `Grammar.AnswerLabelExactly` | features/lib/model-said.ts:109 | An answer's label is a pick and `answer` or `error`, and nothing else is |
| `Grammar.SomeLabels` | features/lib/model-said.ts:8-11 | Labels that are calls, and words that are not |
| `Grammar.PromptAgentExactly` | features/lib/model-said.ts:151-158 | A line is an Agent's prompt if and only if, without its Instance ID, it is the Agent in brackets and then `[prompt]` |
| `Grammar.OpensPromptExactly` | features/lib/model-said.ts:145 | A line opens a prompt of one of the Agents if and only if it is that Agent in brackets and then `[prompt]` |
| `Grammar.WithoutAMarkerTheFirstPrompt` | features/lib/model-said.ts:146 | Without a marker the trial starts at the first prompt |
| `Grammar.RestatementExactly` | features/lib/model-said.ts:19 | A restated Turn part is a prompt that opens with its tag, and nothing else is |
| `Text.IncludesExactly` | features/lib/model-said.ts:146 | A line carries a marker if and only if the marker stands somewhere in it |
| `Runs.RunsAreIsolated` | features/lib/model-said.ts:195-198 | Out of every interleaving of many runs' lines and the echo, `keptOfRun` returns those of one run's lines whose text holds no line end, all of them, in order |
| `Runs.AllAreKeptExactly` | features/lib/model-said.ts:195-198 | It returns all that the run printed if and only if none of its lines holds a line end |
| `Runs.PrintedIsOfItsRun` | features/lib/model-said.ts:195-198 | What the printer writes for a run, stamped or not, is that run's, and is kept if and only if its text holds no line end |
| `Runs.OfRunShows` | features/lib/model-said.ts:188-192 | `ofRun` gives each Agent and text of the run's lines, without the stamp and without the Instance ID |
| `Runs.SecondStrip` | features/lib/model-said.ts:166-178 | A second strip changes a line if and only if its body opens with a bracketed word of two slashes or more |
| `Runs.ASecondStripTakesAPath` | features/lib/model-said.ts:166-178 | A line that it changes: `[a/b/c] text` |
| `Runs.ReadingOneRun` | features/lib/model-said.ts:188-192 | Reading `ofRun`'s stripped lines, by either reader, is reading the run's own lines |
| `Runs.OneRunOfMany` | features/lib/model-said.ts:180-198 | Out of any interleaving, one run's part reads, by either reader, as all that this run printed, alone: the lines that `keptOfRun` drops are lost to the readers either way |
| `Conversations.LinesRead` | packages/harness/src/printer.ts:140-145 | Each printed line of a body is heard as the event it is, or as nothing when it holds a line end |
| `Conversations.LaterLineRead` | features/lib/model-said.ts:126-128 | A later line of a body is read as it was if and only if it holds no line end, and opens with no bracket or with one that holds no label and that a space follows |
| `Conversations.DisciplineIsTheMatching` | features/lib/model-said.ts:72-84 | Where answers print in the order of their calls and before the next prompt, what they are to is the matching, if and only if no open call of the pick is passed over (its answer lost) |
| `Answers.SilentLinesAreDropped` | features/lib/model-said.ts:95-97 | Lines that say nothing to the reader, wherever they stand, change nothing |
| `Answers.MuteLinesAreNothing` | features/lib/model-said.ts:140-148 | A line that is no prompt and says nothing can be left out of a log: the trial, its Agents and its events are the same |
| `Answers.NobodysLineIsSilent` | features/lib/model-said.ts:49-53 | A line of no Agent whose prompt printed, as the echo's lines are, says nothing |
| `RoundTrip.PromptIsHeardExactly` | features/lib/model-said.ts:145-146 | A printed prompt can start a trial if and only if its first line holds no line end |
| `RoundTrip.NoStartIsNoTrial` | features/lib/model-said.ts:140-148 | Without a line that starts it, `answersIn` is undefined |
| `RoundTrip.PrintedIsHeard` | features/lib/model-said.ts:87-134 | Whatever was printed: for every log that holds a trial's prompt and its conversation, with silent lines anywhere among its lines, anything before and another trial's Frame after, by any Agent whose prompt is heard anywhere in the log, `answersIn` gives the one matching of the conversation without the lines that hold a line end |
| `RoundTrip.PrintedIsCalled` | features/lib/model-said.ts:60-63 | And `calledIn` gives the calls and the prompts that are heard, in order |
| `ReadBack.PrintedIsReadBack` | features/lib/model-said.ts:87-134 | Round trip: when no line of a call or an answer, and no first line of another body, holds a line end, `answersIn` gives exactly the calls of such a log, whole inputs, and each call's own whole answer and error flag |
| `ReadBack.ReadBackIsWhole` | features/lib/model-said.ts:87-134 | And whenever it gives that, no line of a call or an answer holds a line end |
| `ReadBack.ReadBackExactly` | features/lib/model-said.ts:87-134 | So the round trip holds if and only if no line of a call or an answer holds a line end, where the first lines of the other bodies hold none |
| `ReadBack.ConversationIsReadBack` | packages/harness/src/printer.ts:140-145 | The same if and only if for every conversation printed alone |
| `ReadBack.ASpaceIsAdded` | features/lib/model-said.ts:126-128 | A later line `[Note]text` comes back as `[Note] text` |
| `ReadBack.ALaterLineBecomesACall` | features/lib/model-said.ts:120-125 | A later line `[note]text` is read as a call `note` that was never made |
| `ReadBack.ABrokenRefusalIsNotHeard` | features/lib/model-said.ts:90-97 | A refusal whose text ends with `\r` is heard as nothing |
| `Chart.VoidExactly` | features/lib/model-chart.ts:45-63 | Whatever happened, the reading is void exactly when no Chart reached the door, the first was not refused, or an answer was lost |
| `Chart.ALostPromptIsVoid` | features/lib/model-chart.ts:47-53 | Without the trial's own prompt nothing is measured and the trial is void, for that reason if and only if the first verdict refused |
| `Chart.MeasuredExactly` | features/lib/model-chart.ts:45-65 | Whatever happened, "measured" if and only if the reading is not void, the door's second verdict admitted, and the Menu refused neither its first pick that got through nor the pick right after that |
| `Chart.RightExactly` | features/lib/model-chart.ts:45-65 | On every trace that is not void, the reading is right (measured exactly when the door admitted the pick after its refusal) if and only if no call that was cut before the door misleads it |
| `Chart.ReadingIsWhatHappened` | features/lib/model-chart.ts:40-66 | When every call that did not reach the door is answered, "measured" exactly when no answer was lost, the first verdict was a refusal and the next pick that ran was admitted |
| `Chart.ACutAfterTheRefusalIsMisread` | features/lib/model-chart.ts:56-65 | A call cut after the refusal: measured, though the next pick was not admitted |
| `Chart.ACutBeforeTheRefusalPassesAMiss` | features/lib/model-chart.ts:56-65 | A call cut before the refusal: measured, though the Menu refused the pick after the refusal |
| `Chart.ACutBeforeTheRefusalLosesAPass` | features/lib/model-chart.ts:56-65 | A call cut before the refusal: not measured, though the door admitted the pick after the refusal |
| `EndToEnd.HeardTrialIsJudged` | features/lib/model-chart.ts:40-66 | End to end, whatever was printed: when what is heard of each call shows what happened to it, the reading is void exactly by the void rule, right exactly where no cut call misleads, and what happened when every call that did not reach the door is answered |
| `EndToEnd.PrintedTrialIsJudged` | features/lib/model-chart.ts:40-66 | End to end: the same of what was printed, when no line of a call or an answer, and no first line of another body, holds a line end |
| `EndToEnd.ALogWithoutTheTrialIsVoid` | features/lib/model-chart.ts:51-53 | End to end: a kept log in which no line starts the trial is void and never measured |
| `Misjudged.APrintedCutIsMisjudged` | features/lib/model-chart.ts:56-65 | A printed log of a trial in which the call after the refusal was cut: measured, though that pick was not admitted |
| `Misjudged.ALostRefusalIsAFalsePass` | features/lib/model-said.ts:90-97 | A printed log of a trial in which the Menu's refusal holds a line end: it is not read, the next answer goes to the refused call, and the trial is measured, though that pick was refused |
| `Misjudged.ALostPromptLetsAnAnswerCross` | features/lib/model-said.ts:99-107 | A printed log in which a prompt holds a line end: it closes nothing, and a call that was cut is read with a later call's answer |
| `Replay.ReplayConcat` | features/lib/model-said.ts:365-370 | Replay over a concatenation is replay in sequence |
| `Replay.ErasingRefusedCallsChangesNothing` | features/lib/model-said.ts:365-370 | Erasing refused, closed-time and non-Menu calls and prompts that restate nothing changes nothing, and everything left moves |
| `Replay.ReplayIsReachable` | features/lib/model-said.ts:349-370 | The replay's state is reached from the initial one by allowed picks and timers |
| `Replay.NothingMovesAClosedMode` | features/lib/model-said.ts:367 | While a mode's picks are closed, no run of calls and prompts moves it, except a restated Turn part |
| `Replay.NothingElseMoves` | features/lib/model-said.ts:365-370 | Nor does any run of calls outside the Menu, calls without a pick and prompts that restate nothing |
| `Replay.APickMoves` | features/lib/model-said.ts:351-354 | A Menu call that an open mode has a pick for moves to the pick's mode, closed if that one opens |
| `Replay.ARestatementIsATimer` | features/lib/model-said.ts:355-369 | A restated Turn part opens a closed mode, and otherwise moves to the first timer's mode, if any |
| `Replay.ChaseReachesThePickExactlyWithoutAStall` | features/lib/model-said.ts:371-376 | The loop reaches the first mode with a pick on the timer chain if and only if no opening mode without a pick is on the way |
| `Replay.TheAskIsAtTheFirstPick` | features/lib/model-said.ts:348-377 | Where every opening mode has a pick, the answer is the first mode with a pick on the chain from where the replay ended |
| `Replay.ChaseEnds` | features/lib/model-said.ts:372-375 | For every table, cyclic or not, the loop ends on the first-timer chain, for one of five named reasons |
| `Replay.AnOpeningModeWithoutAPickStalls` | features/lib/model-said.ts:372-375 | A table in which it stalls before the mode with a pick |
| `Replay.ModeAtAsk` | features/lib/model-said.ts:348-377 | The two loops compute the replay and the chase, and end |
| `Utf8.DecodeIsInverse` | features/lib/model-evidence.ts:29 | UTF-8 decoding is the inverse of encoding on every string of scalar values |
| `Paths.MakeSegment` | features/lib/model-evidence.ts:24-32 | The loop spells each character, a leading `.` among the others |
| `Paths.SegmentReadsBack` | features/lib/model-evidence.ts:24-32 | `segment` has a left inverse on every string |
| `Paths.SegmentIsSafe` | features/lib/model-evidence.ts:19-32 | A folder name is never empty, never starts with `.`, holds no `/` and only the allowed characters |
| `Paths.PlainNamesStand` | features/lib/model-evidence.ts:17-28 | A name of letters, digits, `.`, `_` and `-` that does not start with `.` stands as it is |
| `Paths.OthersAreSpelled` | features/lib/model-evidence.ts:28-29 | Any other character, and a `.` in front, is spelled octet by octet |
| `Paths.SomeSpellings` | features/lib/model-evidence.ts:29 | `%2F`, `%3A`, `%2E`, `%0A`, and `%C3%A9` for U+00E9 |
| `Paths.ResolveLaws` | features/lib/model-evidence.ts:36 | How the root is normalised: empty parts and `.` are nothing, and `..` goes up |
| `Paths.TrialStaysBelow` | features/lib/model-evidence.ts:34-42 | After normalisation, a trial's folder is the root's folders and then one safe folder for the model, each part of the cell and the run |
| `Paths.TrialFolders` | features/lib/model-evidence.ts:34-42 | Folder by folder below the root: the model, each part of the cell in order, and the run |
| `Paths.TrialDirIsInjective` | features/lib/model-evidence.ts:39-42 | Two trials share a folder only when model, cell and run are the same |
| `KeptLog.TextIsWhatWasPrinted` | features/lib/model-evidence.ts:164-182 | At every moment the text is the non-empty follows' texts, in order, with the line between each two |
| `KeptLog.EarlierReadsStand` | features/lib/model-evidence.ts:155-194 | Every earlier read is the start of every later one, across closes, new follows and `stop` |
| `KeptLog.EndedStands` | features/lib/model-evidence.ts:166-178 | Once the loop returned, the text stands |
| `KeptLog.StoppedFollowsNoMore` | features/lib/model-evidence.ts:188-192 | Once `stop` was called no further follow is opened |
| `KeptLog.AClosedFollowIsFollowedAgain` | features/lib/model-evidence.ts:167-175 | A follow that closed is followed again when `again` says so and no one stopped: what the new one prints is in the text, after the line between |
| `KeptLog.AClosedFollowEnds` | features/lib/model-evidence.ts:174 | Otherwise the loop returns, and the text stands |
| `KeptLog.Keeper.Closed` | features/lib/model-evidence.ts:170-174 | The loop after a follow closed is the machine's step, and leaves the text as it was |
| `KeptLog.Keeper.Again` | features/lib/model-evidence.ts:167-175 | The loop after `again` is the machine's steps, and leaves the text as it was |
| `KeptLog.Keeper.StopFollowing` | features/lib/model-evidence.ts:188-190 | `stop` is the machine's step |
| `KeptLog.Keeper.Text` | features/lib/model-evidence.ts:164-182 | The getter gives the visible text |
| `Settlements.SettledIn` | features/lib/model-evidence.ts:201-215 | Exactly the page's settlements, each once, in order |
| `Settlements.PutKnown` | features/lib/model-evidence.ts:314-315 | A key that a map holds keeps its place when it is set again, and every other entry stays |
| `Settlements.AViewIsRead` | features/lib/model-evidence.ts:230-239 | A view `read at ...`, `HTTP 200` and a body is read by its body |
| `Settlements.OnlyA200IsRead` | features/lib/model-evidence.ts:230-239 | And no other text is |
| `TrialUsage.FirstUsageIsKept` | features/lib/model-evidence.ts:255-260 | The usage counted of a Submission is one that a kept settlement of it carries, number for number |
| `TrialUsage.SpentByField` | features/lib/model-evidence.ts:263-271 | Each of the five numbers of what was spent is the sum of that number over the Submissions |
| `TrialUsage.TakenIsSpent` | features/lib/model-evidence.ts:286-295 | The map holds one usage per Submission, the first valid one, and its sum is the sum over the Submissions |
| `TrialUsage.UsageIsSpent` | features/lib/model-evidence.ts:282-296 | `trialUsage` is the sum over distinct Submissions of the first valid usage, views before streams; undefined exactly when there is none |
| `TrialUsage.ReadTrialUsage` | features/lib/model-evidence.ts:282-296 | Its loops compute that |
| `TrialUsage.ViewsComeFirst` | features/lib/model-evidence.ts:292-293 | What the views say of a Submission is counted before what the streams say |
| `TrialUsage.AViewIsSpent` | features/lib/model-evidence.ts:287-292 | The usage of the one settlement of a view that is a 200 is what was spent, if and only if its ID is a string |
| `TrialUsage.AnotherTextIsNotSpent` | features/lib/model-evidence.ts:231-232 | A view of another shape or status says nothing |
| `TrialUsage.AStreamIsSpent` | features/lib/model-evidence.ts:293 | The usage of the one settlement of a stream is what was spent, when it carries one |
| `TrialUsage.KeysStayApart` | features/lib/model-evidence.ts:314-315 | The key of a side and an Instance ID says both |
| `TrialUsage.NoSideIsLost` | features/lib/model-evidence.ts:310-316 | The joined map holds every side's values, side after side, also when sides share an Instance ID |
| `TrialUsage.UsageAcrossIsSpent` | features/lib/model-evidence.ts:305-318 | `trialUsageAcross` counts each Submission once over every side; undefined exactly when no valid usage was kept |
| `TrialUsage.AKeptSideAgain` | features/lib/model-evidence.ts:305-318 | Keeping a side again, anywhere after it, changes nothing |
| `TrialUsage.ReadTrialUsageAcross` | features/lib/model-evidence.ts:310-318 | Its loops compute that |
| `History.HistoryFile` | features/lib/model-evidence.ts:360-380 | The loop writes the parts one after the other, or says that nothing was kept |
| `History.HistoryConserves` | features/lib/model-evidence.ts:360-380 | Exactly one part for each conversation with a view or a settlement: its view whole, then each stream settlement the readable 200 view does not hold, once per occurrence, in order, and no other |
| `History.PartSaysItsPast` | features/lib/model-evidence.ts:371-376 | The lines of a part are the conversation's head and its whole view, then the title, then one line for each settlement past the view, in order |
| `History.PartHoldsItsView` | features/lib/model-evidence.ts:371 | A part opens with its conversation and then the view's own text, or says that none was read |
| `History.PartsAreInOrder` | features/lib/model-evidence.ts:366 | The parts are in the order of the conversations |
| `History.UnionHasEach` | features/lib/model-evidence.ts:366 | Each conversation once, those with a view first, in their order |
| `History.StreamIsKept` | features/lib/model-evidence.ts:369 | The stream of a conversation is the one that was kept for it |
| `History.ListedExactly` | features/lib/model-evidence.ts:368-369 | After a view that is a 200, a stream settlement is listed if and only if the view's body does not hold one of its Submission |
| `History.ListedAfterAnotherText` | features/lib/model-evidence.ts:368-369 | After any other text, or none, it is listed |
| `History.UnavailableExactly` | features/lib/model-evidence.ts:379 | The file is the "unavailable" note exactly when there is nothing to show |
| `Seed.AbsentOrWhole` | features/steps/seed.ts:86-133 | However often the script ran and wherever it was cut, a served path is absent or a whole repository of its own project |
| `Seed.NeverReplaced` | features/steps/seed.ts:94-96 | A served repository is never replaced and keeps every push |
| `Seed.APushIsKept` | features/steps/seed.ts:88-90 | A push to a served repository is in it, ever after |
| `Seed.AWholeRunServesAll` | features/steps/seed.ts:97-133 | After one whole run every path is served, ever after |
| `Seed.TheSeedIsServed` | features/steps/seed.ts:97-133 | The seed's own script: after any cuts, one run that is not cut ends and serves all five paths with their projects |
| `LargeSeed.AbsentOrComplete` | features/steps/seed.ts:476-491 | In every interleaving of any number of builders, cut anywhere, `large.git` is absent, or complete if and only if its builder's generator did not die alone; it is installed at most once, and a builder that ended left no copy |
| `LargeSeed.ADyingGeneratorIsInstalled` | features/steps/seed.ts:484 | A generator that dies alone in the pipe leaves a part of the repository, and it is installed |
| `LargeSeed.NeverReplaced` | features/steps/seed.ts:488 | Once installed it is never replaced |
| `LargeSeed.AWorkerEnds` | features/steps/seed.ts:476-491 | A builder that is not killed ends after seven steps of its own, in any interleaving with the others' steps and deaths, with the repository served |
| `LargeSeed.AKilledWorkerStops` | features/steps/seed.ts:476-491 | A builder that is cut before its end does nothing more |
| `LargeSeed.AServedRepositoryIsNotBuilt` | features/steps/seed.ts:479 | A builder that starts when the repository is served builds nothing |

## Left out

- JSON, the clock, pids, random nonces and the file system are axiomatised: a text that does not parse is a constructor or a parameter's answer, nonces are unique, time does not go back, dead pids stay dead, and exclusive create, link and rename are atomic.
- The scorecard's lock: a write of the lock's own text that fails, and errors other than "exists" and "not there", are not modelled; nor are the `floor` and `usage` of a cell, which a merge only carries.
- Takeover.OneFreshHolder: takes create+write and compare+unlink as single steps; without that it is false, which `TakeoverLimits.WithoutPairsAFreshLockIsRemoved` shows.
- Takeover.NoLostUpdateAcrossTakeover: needs every live process inside to have a fresh stamp; `TakeoverLimits` shows why.
- The concurrent protocols are modelled on values, as step machines, not as objects: what they say is about interleavings. The answers that the source updates through shared objects are updated by their place in the list, so aliasing is not modelled.
- ReadBack.ReadBackExactly: takes the first lines of prompts, texts and answers to no call of the trial to hold no line end. Without that there is no such condition on the lines alone: whether a lost prompt matters depends on which calls are open and on texts that happen to be equal. `RoundTrip.PrintedIsHeard` states what is read then.
- The texts of notes, refusals and errors (`conflictMessage`, `note`, the `void` sentences) are constructors or left out.
- Paths.SegmentReadsBack: strings are sequences of Unicode scalar values. A lone surrogate, which the source's encoder replaces, is not modelled, and two of them would share a name.
- `path.join` is modelled for POSIX paths.
- Usage is summed over real numbers, not floating point.
- `follow`, `containerRun` and the `why` of a kept log, and the processes, pods and streams behind them: a follow is a text that grows until it closes.
- `saidIn`, `saidAfterPrompt`, `conversationsIn`, `saidNote`, `modesOf`, `askAfter`, `menuCalls`, `cellUsage`, `monthToDate`, `readContinue`, `readMcpThenPick`: short readings or folds that would add easy members.
- The commands inside a stretch of the seed's script are taken together: making the work tree, and one `serve`, each with the moments at which a cut leaves something half done. What is in the files is not modelled.
- The step files, the fixtures, the operator and the scripted servers are not part of this model.
