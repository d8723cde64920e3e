# A verified model of the personal assistant's core

This project models the parts of the assistant where state, time or recovery make behaviour hard to
predict, and proves what they promise. Statements are for all inputs, all runs and all answers of the
parties the code talks to - the chat model, tool handlers, the lifecycle resolver, validator and renderer,
the Notion server, Discord's edit endpoint, the recurrence library - which are arbitrary functions, arguments
or maps. A statement that assumes more, such as calls with their own distinct ids, says so in its row or under
"Left out".

**The native tool loop** (`app/agents/harness.py`) alternates model turns with ordered batches of tool
calls, appends to one transcript, checkpoints after every append, and rebuilds its failure control from the
transcript after a crash.

| module | role |
|---|---|
| `Prelude`, `Transcript`, `SyntheticIds` | messages, call ids, the two scans that read failures back out of a transcript, and which failures of id-less calls they find |
| `FailureControl` | the live and the restored verdict on a failure, and the decision of a batch |
| `BatchDecision` | live and resumed batches as one fold; what a crash does to the decision, exactly |
| `HostContracts` | executing a call, ending a run, and the host's resolver, validator and renderer |
| `LoopSpec`, `ToolLoop` | the loop as functions over traces of visible actions, and the loop itself as a class with fields, proved against them |
| `Pacing` | what every invocation keeps from any transcript: each handler run is followed by the checkpoint of its result, and checkpoints only grow |
| `LoopSafety`, `ResumeOrder` | order: what is checkpointed before what is executed or announced, and exactly when a resumed batch keeps it |
| `BatchVerdicts`, `ReplyVerdicts` | what batches and replies lead to, told from results, codes and messages alone: independent statements that the specification is proved to meet |
| `BatchReplay`, `CrashResume`, `CrashResults`, `ResumedReplies` | batches and whole invocations under chains of crashes, what their callers get back, and which replies a crash treats differently |
| `LoopExits`, `LoopOutcomes`, `PendingEvents` | how runs end, what they may tell the owner, and the budgets |

A run is a trace of actions - emit an event, ask the model, run a handler, save a checkpoint, ask the
resolver. A crash keeps the transcript of the last `Save` before an arbitrary point of the trace; a chain of
crashes is a list of such points.

**Other machines.** `NotionWalk`, `NotionWalker` and `NotionListing` model the bounded recursive walk over a
page's blocks and what it lists (`app/connectors/notion.py`); `IcsText`, `IcsEvents` and `Recurrence` the iCal
reader and the recurrence expansion (`app/connectors/google_calendar.py`); `WallTime`, `Gregorian`,
`QueryWindows` and `NotionTemporal` local times, calendar windows and date properties
(`app/agents/action_items.py`, `app/agents/query_contracts.py`); `ProgressReporter` and `ProgressText` the
Discord progress message (`app/connectors/discord.py`); `ArtifactStore` the content-addressed store
(`app/artifacts/store.py`); `MessageGateway` the gateway's message deduplication
(`app/connectors/discord_gateway.py`).

## Where the code does not do what one would expect

Each of these is stated exactly, with a lemma that exhibits or characterizes the case.

- A repairable argument error that the live loop lets the model correct ends a resumed run, when the tool is
  not read-only - and also on a read-only tool when the error is flagged non-retryable
  (`RepairOnWriteDiffersAfterResume`, `FinalRepairOnReadDiffersAfterResume`). A fingerprint that two different
  failures share has the same effect when one of them was recorded before the crash (`MeetingDiffersAfterResume`).
  `ResumeAgreesIff` says for all batches and all fingerprint functions when the decision survives a crash.
- After a crash a failed batch may report another code (`ReportedCodeMayDiffer`); `ReportedCodeIff` says exactly when, for
  all batches.
- A resumed batch takes an unanswered call for answered when it carries the id of an answered one, which two calls of
  one reply may do: the call never runs, and the run goes on out of order. The loop writes such checkpoints itself
  (`TwinIsWritten`, `TwinIsPassedOver`). Every call gets its result if and only if no unanswered call carries such an id
  (`ResumeAnswersIff`), and the run keeps its order if and only if no such call stands before one that runs
  (`SessionTraced`).
- With lifecycle mode off only the live loop shows a plain answer to the resolver, so a crash may change how it ends
  (`AnswerResumesIff`, `AnswerMayChange`). An explicit terminal call that completes the run is refused live and accepted
  when resumed (`CompletedOnlyResumed`, `TerminalMayComplete`); `TerminalResumesIff` says when such a call ends alike.
- The failure of an id-less call is found again by the transcript scans if and only if its assistant message stands
  at the index that equals its turn: in the loop, only when nothing but the system message came before
  (`SyntheticIdsAreLost`, `RecoveredOnlyAtTheStart`, `BothCasesOccur`).
- An invocation that raises returns the transcript it was handed, so after a crash it returns another one than
  uninterrupted, unless each crash came before a checkpoint of anything new (`ReturnedResults`, `HandsOverNothingIff`,
  `RaisedTranscriptMoves`).
- Two shown calendar events have one identity exactly when two events of live masters of a UID start at one instant, two
  uncancelled overrides have one key, a single event has an override at its own start, or two occurrences claim one
  override (`IdentityRepeatsIff`, with a witness for each). One master suffices: of an hourly event the hour that the
  clock leaves out and the hour after it name one instant and are both shown (`GapRepeats`).
- The legacy form of a date range covers the local days that its instants show if and only if every change of the
  clock inside it is tame: none leaves a later day than the last behind, goes back before the first, or goes over a
  whole day. A clock that goes back across midnight gives a window without days (`InstantRangeCoversItsDays`,
  `FoldAcrossMidnight`, `FoldedWindowIsEmpty`).
- A date-only Notion range that ends on 9999-12-31 is refused although it is ordered (`DaysAccepted`); so is
  every window whose exclusive end lies past that day.
- Live thinking made of many short lines disappears from the progress message altogether, because the quote
  marks alone exceed the budget; the first shrink then keeps nothing (`ManyLinesVanish`).
- Content cannot be stored while just one of its two files is there: for ever after a put that crashed between them,
  until the next prune of it after a prune that crashed between them (`InconsistentIff`, `OrphanPayloadStays`,
  `BothRefusalsHappen`).

## Model

| member | source | states |
|---|---|---|
| `Transcript.CollectToolCalls` | app/agents/harness.py:1129-1194 | one turn's calls in order, parsed ones before unparsed ones, each with its own or a synthesized id |
| `Transcript.ExplicitIdsIgnoreTurn` | app/agents/harness.py:1129-1194 | calls that carry ids are the same whatever turn number they are read under |
| `Transcript.JoinKeepsCode` | app/agents/harness.py:2055-2056 | the error code can be read back from a failure fingerprint even when its call part collides |
| `FailureControl.JoinedCodesAreReadable` | app/agents/harness.py:2055-2056 | the joined form of a fingerprint tells its code whenever no code holds a bar |
| `Transcript.ScanRun` | app/agents/harness.py:1951-1963 | the inner scan takes exactly the unbroken run of results of one assistant message and leaves a later message that no earlier one owns |
| `Transcript.ScanFailedFingerprints` | app/agents/harness.py:1944-1964 | the nested scan finds exactly the fingerprints of failures attributed result by result |
| `Transcript.CountFailures` | app/agents/harness.py:2034-2052 | the counting scan counts the same attribution, once per result |
| `Transcript.FailedMeansCounted` | app/agents/harness.py:1944-1964 | a fingerprint is in the recovered set exactly when the counting scan meets it |
| `Transcript.OwnerOfRun` | app/agents/harness.py:1944-1964 | every result of an unbroken run is attributed to the assistant message that starts it |
| `FailureControl.DecisionCases` | app/agents/harness.py:676-713 | a batch goes on, asks the resolver first, or fails, decided by deferred failures, their effect classes and any success |
| `FailureControl.FirstUnsafeFinds` | app/agents/harness.py:1993-2012 | the blocking code is that of the first deferred failure that is not read-only, and exists exactly when there is one |
| `BatchDecision.QuietSet` | app/agents/harness.py:1967-1990 | while nothing is deferred, the live set is what the transcript records |
| `BatchDecision.DeferredIffNotQuiet` | app/agents/harness.py:673-675 | a batch goes on exactly when none of its failures is final and none repeats one recorded before or within it |
| `BatchDecision.DeferredAfterResume` | app/agents/harness.py:826-926 | a resumed batch defers something exactly when the live one does or an excused failure was already recorded |
| `BatchDecision.RepairableRemembered` | app/agents/harness.py:1967-1990 | repairable failures are never missing from the live set, even after something was deferred |
| `BatchDecision.RememberedExactly` | app/agents/harness.py:1967-1990 | for every fingerprint function the live set holds what the restored results show and, after them, exactly the failures that are not final |
| `BatchDecision.UnsafeAfterResume` | app/agents/harness.py:1993-2031 | a resumed batch blocks on an unsafe failure exactly when the live one does, an excused one of a writing tool was recorded, or a recorded fingerprint comes back in an unsafe failure |
| `BatchDecision.ResumedDecision` | app/agents/harness.py:826-926 | for every fingerprint function the severity after a crash at any result is the larger of the live one and what excused failures and shared fingerprints force |
| `BatchDecision.ResumeAgreesIff` | app/agents/harness.py:826-926 | a crash leaves the severity of the decision alone if and only if it forces nothing more severe |
| `BatchDecision.ReadableForcesOnlyExcused` | app/agents/harness.py:826-926 | when fingerprints tell their codes only excused failures force anything |
| `BatchDecision.SteadyDecision` | app/agents/harness.py:676-713 | without excused failures every crash point reaches the live decision, the same blocking code for unsafe failures, and the same remembered failures when it goes on |
| `BatchDecision.RepairOnWriteDiffersAfterResume` | app/agents/harness.py:1976-2026 | an argument error on a writing tool: repaired live, fatal when resumed |
| `BatchDecision.FinalRepairOnReadDiffersAfterResume` | app/agents/harness.py:1976-2031 | the same on a read-only tool whose argument error is flagged non-retryable |
| `BatchDecision.MeetingDiffersAfterResume` | app/agents/harness.py:1976-2031 | two failures that share a fingerprint: the live run asks the resolver, the resumed one fails unasked |
| `BatchDecision.ReportedCodeMayDiffer` | app/agents/harness.py:2015-2031 | calls A, B, A: both runs fail, with different codes |
| `BatchDecision.ReportedCodeIff` | app/agents/harness.py:1993-2031 | for all batches: a crash leaves the reported code alone if and only if the item that the resumed batch reports was not excused before the crash and, where it is reported as a repeat, the live batch reports a repeat as well |
| `BatchDecision.ReportedBy` | app/agents/harness.py:1993-2012 | the reported code is that of the first unsafe deferral or, without any, of the first deferral; without deferrals there is none |
| `BatchDecision.LiveDefersToo` | app/agents/harness.py:1967-2031 | whatever the live batch defers the resumed one defers as well |
| `BatchDecision.ReportedCodeAgreesIff` | app/agents/harness.py:1993-2031 | for batches without excused failures, by the items alone: a crash changes the reported code if and only if no failure is unsafe, the live run stops at a final one, and a failure before it repeats within the restored results |
| `BatchDecision.FirstAfterCrash` | app/agents/harness.py:1993-2031 | which code each run reports: the first live deferral, or a repeat seen early |
| `BatchDecision.ReadOnlyFailuresBlock` | app/agents/harness.py:1993-2012 | after any history and from any crash point a batch of nothing but read-only failures fails with the code of the first deferred one |
| `HostContracts.ExecutedResultsAreKnown` | app/agents/harness.py:1765-1888 | every executed call on an unregistered name fails as unknown or as an argument error |
| `LoopSafety.AnswerNext` | app/agents/harness.py:640-665 | appending the next call's result keeps the results a prefix of the calls, in order, with matching ids |
| `ResumeOrder.RecordedAreAnswered` | app/agents/harness.py:952-960 | with distinct ids exactly the calls that have a result are recognized as recorded, with that result |
| `ResumeOrder.RecordedIff` | app/agents/harness.py:943-960 | a restored tail takes a call for recorded exactly when it is answered or carries the id of an answered one, whatever ids there are |
| `ResumeOrder.ResumeAnswersIff` | app/agents/harness.py:822-886 | a resumed batch leaves a result for each of its calls, in order, if and only if no unanswered call carries the id of an answered one |
| `LoopSafety.BatchTraced` | app/agents/harness.py:636-675 | every step of a batch, live or resumed, whose passed-over calls come last follows the checkpoint order and keeps the results in order |
| `LoopSafety.TurnTraced` | app/agents/harness.py:510-713 | the same for a whole model turn |
| `LoopSafety.LoopTraced` | app/agents/harness.py:510-730 | the same for the whole loop |
| `ResumeOrder.ResumeTraced` | app/agents/harness.py:733-926 | the same for a resumed tail that passes over no call before one it runs |
| `ResumeOrder.SessionTraced` | app/agents/harness.py:454-926 | an invocation from an orderly transcript is well traced, whatever model, handlers and resolver answer, if and only if no call of a batch it resumes is passed over before one that runs |
| `ResumeOrder.TwinIsPassedOver` | app/agents/harness.py:822-849 | three calls, the first two with one id and the first answered: resumed, the second never runs, the third does, and the transcript is out of order |
| `ResumeOrder.TwinIsWritten` | app/agents/harness.py:636-664 | the loop itself writes that checkpoint |
| `LoopSafety.WellTracedAt` | app/agents/harness.py:541-665 | at any point of a well traced run: a handler runs only for the next unanswered call of a checkpointed assistant message, a result is announced only after its checkpoint, checkpoints are prefix-ordered |
| `Pacing.SessionPaced` | app/agents/harness.py:454-926 | every invocation, from any transcript and with any ids: each handler run is followed by the checkpoint of its result, checkpoints extend one another and the transcript it started from, and the resolver sees what is durable |
| `Pacing.HandlersPaced` | app/agents/harness.py:636-665 | at any crash point of such a run at most one handler ran without its result being durable |
| `BatchReplay.AllResultsFromPrefix` | app/agents/harness.py:863-876 | handlers that see the same transcript again complete a batch to the same results |
| `BatchReplay.ScanIsJudge` | app/agents/harness.py:822-886 | with explicit, distinct ids: the loop's batch, resumed after any number of results, takes the verdicts of the abstract fold and records the same results |
| `BatchReplay.LaterCheckpointAgrees` | app/agents/harness.py:822-926 | with explicit, distinct ids: restarting from a later checkpoint of a steady batch gives the same transcript, outcomes, severity and remembered failures |
| `BatchReplay.ResumedBatchSeverity` | app/agents/harness.py:822-926 | with explicit, distinct ids: the exact effect of a crash on the severity of a batch that the loop runs, for every fingerprint function |
| `BatchReplay.ResumedBatchCode` | app/agents/harness.py:822-926 | with explicit, distinct ids: exactly when a crash keeps the code that a batch the loop runs reports |
| `BatchReplay.ReadableBatchSeverity` | app/agents/harness.py:822-926 | with explicit, distinct ids and fingerprints that tell their codes: only excused failures move the severity |
| `BatchReplay.UnsafeFailureBlocks` | app/agents/harness.py:632-688 | in every batch, with ids or without, fresh or resumed, a final failure that is not read-only ends the run without asking the resolver, with the first deferred code that is not read-only |
| `BatchReplay.ResolverAskedIff` | app/agents/harness.py:676-713 | the resolver is asked about a batch exactly when nothing is deferred, or only read-only failures are and some call succeeded |
| `BatchReplay.ReadFailureNeverBlocks` | app/agents/harness.py:676-700 | in a batch with a success whose failures are all read-only the resolver is asked |
| `BatchVerdicts.FreshVerdict` | app/agents/harness.py:1967-1990 | the verdict on a fresh failure in codes, flags and effect classes: argument errors and everything else that may be retried and is no writing tool's is held against the run only as a repeat, the rest with its own code |
| `BatchVerdicts.RestoredSpelled` | app/agents/harness.py:2015-2031 | the same for a recorded failure: no exception for argument errors, only retryable failures of registered read-only tools are spared, and twice recorded is a repeat |
| `BatchVerdicts.ScanFollows` | app/agents/harness.py:636-675 | whatever ids there are, the scan of a batch leaves the transcript, what the resolver is told, the failures held against it and the remembered fingerprints that the results alone say |
| `BatchVerdicts.BatchIsJudged` | app/agents/harness.py:632-713 | every batch, by its results alone: it fails unasked when a call held against it is no registered read-only one or none succeeded, with the code of the first such; else the resolver is asked about all its outcomes; left alone, the run fails with the first code held or goes on, remembering exactly the fingerprints met |
| `BatchVerdicts.FinalFailureEnds` | app/agents/harness.py:676-688 | a fresh failure other than an argument error, on other than a registered read-only tool, ends the run unasked, whatever else the batch holds |
| `BatchVerdicts.CrashedWriteEnds` | app/agents/harness.py:1801-1888 | so does a handler of a writing tool that crashes, reports an error of its own, or returns what is too large or not serializable |
| `BatchVerdicts.UnknownToolEnds` | app/agents/harness.py:1779-1787 | so does a well-formed call of a tool nobody registered |
| `BatchVerdicts.RestoredFailureEnds` | app/agents/harness.py:2015-2031 | so does any failure recorded before the crash on other than a registered read-only tool |
| `BatchVerdicts.ArgumentErrorsGoOn` | app/agents/harness.py:1967-1990 | a fresh batch whose only failures are argument errors with new fingerprints goes on exactly when the resolver leaves it alone, with exactly these fingerprints remembered beside the earlier ones |
| `BatchVerdicts.RepeatEnds` | app/agents/harness.py:1985-2012 | the second of two argument errors with one fingerprint, on other than a registered read-only tool, ends the run unasked |
| `BatchVerdicts.ExecuteSpelled` | app/agents/harness.py:1765-1888 | which defect and which outcome of the handler becomes which result, code, retry flag and message |
| `BatchVerdicts.CallSeen` | app/agents/harness.py:636-665 | a fresh call is announced, the first with the reply's text, runs its handler exactly when it is well-formed and registered, is saved and then reported; of a recorded call nothing is seen |
| `CrashResume.BatchResumes` | app/agents/harness.py:733-926 | resuming from any checkpoint of a tame batch - explicit, distinct ids, no failure that only the live loop excuses - ends or goes on as the uninterrupted batch does |
| `CrashResume.ReplyResumes` | app/agents/harness.py:541-713 | resuming from any checkpoint after a tame model reply - a batch, a plain answer that stands or a terminal call that ends the run - does what the turn does |
| `CrashResume.TurnGoesOn` | app/agents/harness.py:490-713 | a tame turn that goes on hands over exactly the failures its transcript records, whichever attempt it is and whether or not the run was corrected before |
| `CrashResume.LoopBudget` | app/agents/harness.py:510-730 | a tame run that ends within its turns ends the same way with more turns |
| `CrashResume.LoopCrash` | app/agents/harness.py:454-730 | an invocation restarted from any checkpoint of a tame loop ends as the loop does |
| `CrashResume.TerminalAllowed` | app/agents/harness.py:1197-1263 | a terminal call accepted live is accepted alike on resumption, and one accepted on resumption is accepted live exactly when it awaits the owner |
| `CrashResume.SessionCrash` | app/agents/harness.py:454-926 | the same for every checkpoint of an invocation, also one that itself resumed |
| `CrashResume.RestartsAlike` | app/agents/harness.py:454-926 | at every crash point a tame run leaves an orderly transcript from which it is tame again and, unless it stops at its turn limit, ends alike |
| `CrashResume.CrashesChangeNothing` | app/agents/harness.py:454-926 | over any chain of crashes a run that is tame from its open tail on, whatever came before, reaches the uninterrupted transcript and exit: same status, answer and turn count when it finishes, same failure when it raises; only a failed run's code may differ |
| `CrashResults.ReturnedResults` | app/agents/harness.py:390-451 | what the caller gets back after any chain of crashes of a tame run: the uninterrupted result up to a failed run's code when it finishes; when it raises the same failure with the transcript last handed in, which is the uninterrupted one exactly when each crash came before a checkpoint of anything new |
| `CrashResults.HandsOverNothingIff` | app/agents/harness.py:390-451 | for every run and any chain: the last invocation is handed what the first was if and only if each crash that happens comes before a checkpoint of anything beyond the opening |
| `CrashResults.RaisedTranscriptMoves` | app/agents/harness.py:430-451 | a run that raises returns another transcript after a crash |
| `CrashResults.SessionReaches` | app/agents/harness.py:454-926 | resumed from any part of its transcript a tame invocation gets at least as far, whether or not it stops at its turn limit |
| `CrashResults.CrashesLoseNothing` | app/agents/harness.py:390-926 | the uninterrupted transcript of a tame run, also of one stopped by its turn limit, is a prefix of every chain's |
| `CrashResume.EachCrashCostsOneExecution` | app/agents/harness.py:822-886 | over any chain, from any transcript and with any ids, handlers run at most once per result gained plus once per crash |
| `ResumedReplies.AnswerResumesIff` | app/agents/harness.py:591-628 | a plain answer ends alike after a crash if and only if lifecycle mode is on, or the resolver leaves it alone or settles it the way it would end anyway |
| `ResumedReplies.TerminalResumesIff` | app/agents/harness.py:552-589 | an explicit terminal call ends alike if and only if it is accepted both times, settled by the resolver the way the resumed run ends, or refused both times with one error while a correction is still to be had |
| `ResumedReplies.CompletedOnlyResumed` | app/agents/harness.py:1252-1265 | a terminal call is accepted only on resumption exactly when it is acceptable and completes the run |
| `ResumedReplies.AnswerMayChange` | app/agents/harness.py:591-628 | one answer: live a question to the owner, resumed a completed run |
| `ResumedReplies.TerminalMayComplete` | app/agents/harness.py:552-589 | one terminal call: live corrected, resumed a completed run |
| `LoopExits.LoopCloses` | app/agents/harness.py:510-730 | the loop asks the model at most its budget, corrects at most once, and closes with exactly one final response, last, equal to the returned content |
| `LoopExits.SessionCloses` | app/agents/harness.py:454-730 | the same for an invocation that first resumes a tail |
| `LoopExits.TurnsCountAssistants` | app/agents/harness.py:390-451 | on every exit the returned turn count is the number of assistant messages returned |
| `LoopOutcomes.HostResolutionSound` | app/agents/harness.py:1461-1589 | a host resolution concludes only what the validator accepts, else the run fails |
| `LoopOutcomes.TerminalSound` | app/agents/harness.py:1197-1233 | an explicit terminal call concludes only what the validator accepts for the present transcript |
| `LoopOutcomes.AnswerSound` | app/agents/harness.py:591-628 | in lifecycle mode a plain answer does not complete over a result awaiting review or over nothing but failures |
| `LoopOutcomes.LoopSound` | app/agents/harness.py:510-730 | every exit of the loop is sound in this sense |
| `LoopOutcomes.OutcomesAreSound` | app/agents/harness.py:390-451 | every returned result: error codes exactly on failure and turn limit, awaiting the owner exactly with that disposition, and no conclusion the validator refused except the host's notice that all tools failed |
| `ReplyVerdicts.StripTrims` | app/agents/harness.py:1312-1323 | stripping removes exactly the blanks at both ends, and leaves nothing exactly of a blank text |
| `ReplyVerdicts.CallsSpelled` | app/agents/harness.py:1129-1194 | name, arguments, own id and defect of each parsed and unparsed call |
| `ReplyVerdicts.LookupIsLast` | app/agents/harness.py:1951-1963 | a failure is attributed to the last call with its id |
| `ReplyVerdicts.DecimalReadsBack` | app/agents/harness.py:1154-1190 | the numerals in synthesized ids read back as the numbers |
| `ReplyVerdicts.RecordedIsFirst` | app/agents/harness.py:952-960 | of each non-empty id the first result is taken for recorded |
| `ReplyVerdicts.RecentSpelled` | app/agents/harness.py:1726-1751 | the two tests of lifecycle mode look at exactly the results after the last owner message |
| `ReplyVerdicts.ResolverSettles` | app/agents/harness.py:1355-1589 | what each answer of the resolver settles: a lifecycle only if it is supported, approved by the validator and shows some text, a failure with its own code and text, and when the batch is saved first |
| `ReplyVerdicts.TerminalIff` | app/agents/harness.py:1197-1265 | exactly which terminal calls are accepted, and as what; the others are refused for the first reason that applies |
| `ReplyVerdicts.ClosingSpelled` | app/agents/harness.py:1597-1723 | a run is closed with the message of the last failure, at most 1024 characters of it, when nothing but failures came back and it has a message; else it fails |
| `ReplyVerdicts.AnswerSpelled` | app/agents/harness.py:591-628 | a plain answer ends as the resolver settles it; else in lifecycle mode it fails over a result awaiting review and closes over nothing but failures; else it completes with its text |
| `ReplyVerdicts.TerminalSpelled` | app/agents/harness.py:552-589 | an accepted terminal call concludes at once and unasked; a refused one goes to the resolver first and is then corrected or closed |
| `ReplyVerdicts.ReplySpelled` | app/agents/harness.py:551-713 | a fresh reply: a terminal call may only ask the owner back and is corrected once and not on the last turn |
| `ReplyVerdicts.ResumeSpelled` | app/agents/harness.py:733-926 | a restored reply: it keeps its turn, its plain answer is shown to the resolver only in lifecycle mode, its terminal call may complete the run and is corrected rather than closed |
| `ReplyVerdicts.TurnSpelled` | app/agents/harness.py:510-551 | a turn is announced, the model is asked with the whole transcript, and its reply is saved before anything else |
| `ReplyVerdicts.CorrectionsAreAnswered` | app/agents/harness.py:510-730 | a finished run never leaves the model a correction it may not answer, not even at the turn limit |
| `ReplyVerdicts.LimitIsSpent` | app/agents/harness.py:510-730 | a run stops at the turn limit only after every turn it had, with the fixed text and code |
| `ToolLoop.ContinuingBatchRemembers` | app/agents/harness.py:673-713 | with explicit, distinct ids a batch that lets the loop go on has recorded every failure it met |
| `ToolLoop.TurnRemembers` | app/agents/harness.py:490-713 | with explicit, distinct ids one model turn keeps the mutable failure set equal to the set recomputed from the transcript |
| `ToolLoop.ResumeRemembers` | app/agents/harness.py:733-926 | with explicit, distinct ids a resumed tail that goes on hands over exactly the failures its transcript records |
| `ToolLoop.EveryHeadRemembers` | app/agents/harness.py:490-713 | with explicit, distinct ids in replies and resumed tail the mutable failure set equals the recomputed one at every loop head of every invocation, also after a resumed tail |
| `SyntheticIds.SyntheticIdsTell` | app/agents/harness.py:1154-1190 | ids synthesized at two numbers agree if and only if the numbers do |
| `SyntheticIds.SyntheticIdsAreLost` | app/agents/harness.py:1944-1964 | the failure of an id-less call whose id no other call takes is found again if and only if its message index equals its turn |
| `SyntheticIds.RecoveredOnlyAtTheStart` | app/agents/harness.py:551-675 | in the loop that is exactly when a single message that is no assistant message came before |
| `SyntheticIds.BothCasesOccur` | app/agents/harness.py:484-551 | found again after the system message alone, not after an owner's message |
| `ToolLoop.Loop.constructor` | app/agents/harness.py:484-490 | a loop starts with the transcript, the failures recovered from it and no correction |
| `ToolLoop.Loop.RepeatedFailureCode` | app/agents/harness.py:1967-1990 | the verdict on one outcome, and the fingerprint it adds to the set |
| `ToolLoop.Loop.RunBatch` | app/agents/harness.py:822-886 | messages, outcomes, deferred failures, set and trace after a batch are those of the batch scan |
| `ToolLoop.Loop.FinishCalls` | app/agents/harness.py:630-713 | the new state and exit after all calls of a message are those of the batch phase |
| `ToolLoop.Loop.FinishAnswer` | app/agents/harness.py:591-628 | the same for an answer without calls |
| `ToolLoop.Loop.FinishTerminal` | app/agents/harness.py:552-589 | the same for an explicit terminal call, accepted, corrected or closed |
| `ToolLoop.Loop.FinishReply` | app/agents/harness.py:551-713 | the same for whatever follows a checkpointed reply |
| `ToolLoop.Loop.ModelTurn` | app/agents/harness.py:510-713 | one iteration of the loop is one turn of the specification |
| `ToolLoop.Loop.ResumeTail` | app/agents/harness.py:733-926 | resuming a checkpointed tail is the resume phase of the specification |
| `ToolLoop.Loop.Run` | app/agents/harness.py:510-730 | the bounded loop is the loop of the specification, and its heads are the specified ones |
| `ToolLoop.RunNativeToolLoop` | app/agents/harness.py:390-508 | the whole invocation returns what the specification's invocation does, and refuses a bad configuration |
| `PendingEvents.PendingElapsedSchedule` | app/agents/harness.py:1048-1064 | a bad configuration is refused in order of the checks; otherwise twelve ascending times |
| `PendingEvents.ExtendedByRepeat` | app/agents/harness.py:1060-1064 | past the configured times each follows its predecessor by the repeat interval |
| `PendingEvents.ModelCall` | app/agents/harness.py:998-1023 | one call reports, in order, the scheduled times it outlasts, while the budget lasts |
| `PendingEvents.PassedAreOutlasted` | app/agents/harness.py:998-1023 | what a call outlasts is exactly the leading times before its end |
| `PendingEvents.BudgetIsShared` | app/agents/harness.py:372-373 | over any calls exactly the smaller of the budget and what they outlast is reported |
| `PendingEvents.InvocationEvents` | app/agents/harness.py:998-1023 | one invocation reports at most twelve |
| `NotionWalk.WalkKeeps` | app/connectors/notion.py:2900-3023 | for every server, also cyclic ones, the walk stays within requests, blocks and files, numbers texts and files 0..n-1 without gap, and stops early exactly with a request or block diagnostic |
| `NotionWalk.PagesFollow` | app/connectors/notion.py:2914-3023 | the pagination of one parent writes a prefix of its children's preorder, all of it unless stopped |
| `NotionWalk.WalkIsPreorder` | app/connectors/notion.py:2900-3023 | against a consistent server the texts are a prefix of the preorder of the depth-cut tree, all of it unless a limit is reported |
| `NotionWalker.PropertiesKeep` | app/connectors/notion.py:898-986 | property files come first and number from zero without gaps |
| `NotionWalker.Walker.AddPropertyFiles` | app/connectors/notion.py:898-986 | the property loop is the specified scan |
| `NotionWalker.Walker.Walk` | app/connectors/notion.py:2900-3023 | the closure over shared counters is the specified walk, including when it raises |
| `NotionWalker.RetrieveMaterials` | app/connectors/notion.py:2887-3038 | a retrieval returns the walked state when the result model accepts it |
| `NotionWalker.RetrievedMaterials` | app/connectors/notion.py:2887-3038 | a retrieval is bounded for every server and the preorder for a consistent one |
| `NotionListing.WalkLists` | app/connectors/notion.py:2900-3023 | against a consistent server the walk writes exactly the texts, files and diagnostics of a prefix of the depth-cut preorder, each block listed and reported by its own form, all of it unless it reports a limit |
| `NotionListing.PropertiesScanned` | app/connectors/notion.py:898-986 | the properties' attachments and diagnostics in order, an item without usable URL reported as a malformed reference, up to the hundredth file |
| `NotionListing.RetrievalLists` | app/connectors/notion.py:2887-3038 | a retrieval in full: the attachments and diagnostics of the properties, then those of the blocks, numbered on |
| `NotionListing.RetrievedFiles` | app/connectors/notion.py:2887-3038 | ids and names of the files are the usable ones of the properties, then those of the preorder's blocks: the first hundred of a prefix of that list, and of all of it unless a request or block limit is reported |
| `NotionWalker.AcceptedIff` | app/connectors/notion.py:611-618 | a finished walk is handed out if and only if it wrote at most 500 texts and 1000 diagnostics; the hundred files it keeps itself |
| `IcsText.UnfoldIcsLines` | app/connectors/google_calendar.py:433-443 | the loop joins continuation lines, skips empty ones and refuses a leading continuation |
| `IcsText.UnfoldInvertsFolding` | app/connectors/google_calendar.py:433-443 | unfolding inverts every folding of content lines (section 3.1 of RFC 5545) |
| `IcsText.UnfoldRules` | app/connectors/google_calendar.py:433-443 | what one more physical line does after any lines that unfold: skipped when empty, joined without its first character behind a blank or tab, else a line of its own; refused as a continuation of nothing |
| `IcsText.LineEnds` | app/connectors/google_calendar.py:433-443 | lines end with return and feed, a return or a feed, and nothing else |
| `IcsText.UnescapeText` | app/connectors/google_calendar.py:553-566 | the flag-driven loop is the recursive unescaping |
| `IcsText.UnescapeInvertsEscape` | app/connectors/google_calendar.py:553-566 | unescaping inverts TEXT escaping for every text (section 3.3.11 of RFC 5545) |
| `IcsText.UnescapeRules` | app/connectors/google_calendar.py:553-566 | every text character by character: which escapes become what, and a last lone backslash stays |
| `IcsText.SplitInvertsJoin` | app/connectors/google_calendar.py:454-469 | splitting at a character undoes joining parts that do not hold it |
| `IcsText.JoinInvertsSplit` | app/connectors/google_calendar.py:454-469 | splitting loses nothing and leaves no separator in a part |
| `IcsText.UnquoteStrips` | app/connectors/google_calendar.py:454-469 | exactly the quotes at both ends are stripped |
| `IcsText.ReadProperty` | app/connectors/google_calendar.py:454-469 | the property parser, with its refusals |
| `IcsText.PropertyReadsBack` | app/connectors/google_calendar.py:454-469 | a printed property reads back as its name, parameters and value, for parameters free of the split characters |
| `IcsText.PropertyIff` | app/connectors/google_calendar.py:454-469 | exactly which lines are properties and which property each is: a colon, a name, and parameters that each hold an equals sign, of each key the last |
| `IcsEvents.ReadEvent` | app/connectors/google_calendar.py:446-451 | the properties of one event, grouped by name |
| `IcsEvents.GroupIsNamed` | app/connectors/google_calendar.py:113-124 | grouping loses and reorders nothing under each name |
| `IcsEvents.ReadBrackets` | app/connectors/google_calendar.py:389-430 | the bracket loop, with its refusals |
| `IcsEvents.BracketsIff` | app/connectors/google_calendar.py:389-430 | exactly which lines are accepted, and what is read: one or more calendars end to end, each opened and closed, with plain lines and closed, unnested events inside; the events are the lines between their brackets (section 3.6.1 of RFC 5545) |
| `IcsEvents.TruncatedIsRefused` | app/connectors/google_calendar.py:428-429 | a feed that breaks off inside an event or a calendar is refused |
| `IcsEvents.CalendarIff` | app/connectors/google_calendar.py:389-469 | exactly which feeds are read: those that unfold to such calendars in which every line of an event is a property |
| `IcsEvents.OneCalendar` | app/connectors/google_calendar.py:389-430 | bracketing a single calendar returns exactly the lines of each event |
| `IcsEvents.ReadIcsEvents` | app/connectors/google_calendar.py:389-430 | the whole reader is unfolding, bracketing and parsing in turn |
| `IcsEvents.CalendarReadsBack` | app/connectors/google_calendar.py:389-469 | printing a calendar under any folding and reading it back returns every event's properties |
| `IcsEvents.TextReadsBack` | app/connectors/google_calendar.py:389-566 | a TEXT value comes back as the text through escaping, printing, folding, reading and unescaping |
| `Recurrence.IndexIsIndexed` | app/connectors/google_calendar.py:225-243 | after it every event is in exactly its collection, once; keys are overridden or cancelled exactly when some event says so |
| `Recurrence.MastersInFileOrder` | app/connectors/google_calendar.py:230-236 | masters are visited by UID in the order of their first ones, and within one UID in the order of the file |
| `Recurrence.LooseInFileOrder` | app/connectors/google_calendar.py:243 | overrides are kept in the order of the file |
| `Recurrence.SearchMissesNothing` | app/connectors/google_calendar.py:316-318 | every occurrence that meets the window starts inside the searched interval |
| `Recurrence.BetweenAscends` | app/connectors/google_calendar.py:316-318 | a master's occurrences come in the order of time |
| `Recurrence.EventFields` | app/connectors/google_calendar.py:334-386 | what times a shown event carries, from the raw fields: its start or the occurrence's, its DTEND moved with the start, without one a day later when it lasts all day and at once otherwise; its UID, kind and content |
| `Recurrence.SlotsListed` | app/connectors/google_calendar.py:247-264 | the first pass looks at each occurrence of a live master within the search, and each live master that does not recur, exactly once |
| `Recurrence.FirstPassIsSlots` | app/connectors/google_calendar.py:247-331 | the first pass shows exactly what some of these show, and something twice exactly when two of them show it |
| `Recurrence.SlotShowsOverride` | app/connectors/google_calendar.py:319-331 | an occurrence shows an override exactly when it names the instant of its key, which is not cancelled and which no later override has, and the override meets the window |
| `Recurrence.WithinTheLimit` | app/connectors/google_calendar.py:245-270 | unless the event limit is hit the masters' events are all kept, in order |
| `Recurrence.SecondPassShows` | app/connectors/google_calendar.py:272-283 | the loose pass shows exactly the expected overrides not shown before |
| `Recurrence.ExpansionIsExpected` | app/connectors/google_calendar.py:221-285 | the two passes show exactly the uncancelled, unreplaced occurrences, single events and overrides that meet the window, each as its source says, and no source twice exactly when no override is claimed twice |
| `Recurrence.ShownIff` | app/connectors/google_calendar.py:221-386 | what a window shows, in raw fields: every live single event, uncancelled override and unreplaced occurrence whose times, so computed, start before the window's end and end after its start |
| `Recurrence.RefusedIff` | app/connectors/google_calendar.py:266-270 | a window is refused exactly when its masters show more than 5000 events |
| `Recurrence.ClashIsDoubleClaim` | app/connectors/google_calendar.py:247-331 | one source is shown twice exactly when two occurrences, of two masters of one UID or of one, claim one override, the last of its key |
| `Recurrence.IdentityRepeatsIff` | app/connectors/google_calendar.py:334-360 | two shown events have one identity - UID and instant - if and only if two events of live masters of a UID start at one instant, two uncancelled overrides have one key, a single event has an override at its start, or two occurrences claim one override |
| `Recurrence.OneMasterPerUid` | app/connectors/google_calendar.py:221-360 | with one live master per UID whose occurrences name different instants, one override per key and none at a single event's start no identity repeats, in any window |
| `Recurrence.CommonStartRepeats` | app/connectors/google_calendar.py:245-265 | two single events of one UID at one start are both shown, under one identity |
| `Recurrence.GapRepeats` | app/connectors/google_calendar.py:316-331 | one hourly master: the hour the clock leaves out and the next one are both shown, under one identity |
| `Recurrence.TwinOverridesRepeat` | app/connectors/google_calendar.py:238-283 | two overrides of one key are both shown, under one identity |
| `Recurrence.SingleBesideOverrideRepeats` | app/connectors/google_calendar.py:245-283 | a single event and an override at its start are both shown, under one identity |
| `Recurrence.DoubleClaimRepeats` | app/connectors/google_calendar.py:288-331 | an override at which two masters recur is shown twice |
| `Recurrence.SameEventInEveryWindow` | app/connectors/google_calendar.py:334-386 | an event's identity and content do not depend on the window |
| `Recurrence.ExpandRecurring` | app/connectors/google_calendar.py:288-331 | the generator's events and the overrides it consumed |
| `Recurrence.ShowMaster` | app/connectors/google_calendar.py:248-264 | what one master shows, and the overrides it consumed |
| `Recurrence.ShowEvents` | app/connectors/google_calendar.py:245-285 | masters under the event limit, then loose overrides, as loops over a growing list and a consumed set, are the specified passes |
| `Recurrence.ParseEvents` | app/connectors/google_calendar.py:221-285 | both passes as loops over growing lists compute the specified expansion |
| `WallTime.FoldsFindEveryInstant` | app/agents/action_items.py:238-244 | whatever instant shows a wall time, fold 0 or fold 1 finds it |
| `WallTime.DifferingFolds` | app/agents/action_items.py:238-248 | when the folds differ the wall time lies in a gap, without instants, or in a fold, with two |
| `WallTime.WallTimeIsDecided` | app/agents/action_items.py:231-248 | a naive time is refused as nonexistent exactly in a gap, as ambiguous exactly in a fold, and otherwise becomes the one instant that shows it |
| `WallTime.WallTimeReadsBack` | app/agents/action_items.py:231-248 | an instant's own wall time gives the instant back or is refused as ambiguous |
| `WallTime.NotionDatetimeToUtc` | app/agents/action_items.py:231-248 | the loop over folds computes that answer; aware times pass through |
| `Gregorian.OrdinalsAscend` | app/agents/query_contracts.py:128-133 | calendar order and ordinal order agree, and no two dates share an ordinal |
| `Gregorian.FromOrdinal` | app/agents/query_contracts.py:293-314 | the date with a given ordinal, for every ordinal up to 9999-12-31 |
| `Gregorian.AddDays` | app/agents/query_contracts.py:271-314 | day arithmetic exact on ordinals, refused exactly outside the calendar |
| `Gregorian.MonthLength` | app/agents/query_contracts.py:402-403 | the first of the next month is the month's own length after its first, in leap years and December alike |
| `Gregorian.KnownCalendar` | app/agents/query_contracts.py:293-314 | ordinals are anchored: 1 January 1970 is day 719163 and a Thursday, weekdays follow each other, months have their known lengths |
| `QueryWindows.RangeIs` | app/agents/query_contracts.py:315-342 | stepping the exclusive end back and forth changes nothing |
| `QueryWindows.TodayIsToday` | app/agents/query_contracts.py:295-296 | today covers exactly today, refused exactly on 9999-12-31 |
| `QueryWindows.TomorrowIsTheDayAfter` | app/agents/query_contracts.py:297-298 | tomorrow covers exactly the next day, refused exactly when the day after it is outside the calendar |
| `QueryWindows.OverdueIsThePast` | app/agents/query_contracts.py:262-269 | overdue covers exactly the days before today and all covers every day; neither is refused |
| `QueryWindows.ThisWeekIsOwnWeek` | app/agents/query_contracts.py:299-301 | seven days from a Monday that contain today, refused exactly past the calendar's end |
| `QueryWindows.NextWeekFollows` | app/agents/query_contracts.py:302-304 | next week starts on the Monday that ends this week |
| `QueryWindows.ThisMonthIsOwnMonth` | app/agents/query_contracts.py:305-307 | this month is exactly the dates with today's year and month, from day 1 to the next day 1 |
| `QueryWindows.NextMonthFollows` | app/agents/query_contracts.py:308-310 | next month starts where this one ends, is the whole following month, 28 to 31 days |
| `QueryWindows.AcceptedRanges` | app/agents/query_contracts.py:109-140 | exactly the inclusive ranges of 1 to 31 days are accepted |
| `QueryWindows.AcceptedIff` | app/agents/query_contracts.py:109-140 | exactly which queries are accepted, field by field |
| `QueryWindows.RefusedWhy` | app/agents/query_contracts.py:109-140 | for which reason each other one is refused |
| `QueryWindows.RangeCoversItsDays` | app/agents/query_contracts.py:311-342 | an accepted range covers exactly its first to its last day, 1 to 31 of them |
| `QueryWindows.UpcomingCoversItsDays` | app/agents/query_contracts.py:270-278 | upcoming covers today and exactly the asked number of days after it |
| `QueryWindows.InstantRangeResolved` | app/agents/query_contracts.py:279-291 | the local days the legacy form resolves to, a midnight end left out, and when it is refused |
| `QueryWindows.InstantRangeCoversItsDays` | app/agents/query_contracts.py:279-291 | an accepted interval of instants covers exactly the local days its instants show if and only if every change of the clock within it is tame |
| `QueryWindows.FoldAcrossMidnight` | app/agents/query_contracts.py:279-291 | a clock that goes back from one to midnight: two intervals that are not covered |
| `QueryWindows.FoldedWindowIsEmpty` | app/agents/query_contracts.py:244-291 | one of them, accepted, resolves to a window that covers no day |
| `NotionTemporal.WrittenReadsBack` | app/connectors/notion.py:1266-1289 | every legal temporal value written to Notion parses back to itself |
| `NotionTemporal.ParsedIsLegal` | app/agents/action_items.py:105-141 | whatever parses satisfies the models' own validators |
| `NotionTemporal.DaysAccepted` | app/agents/action_items.py:105-132 | a date-only range is accepted exactly when its end is not before its start nor the calendar's last day, and covers both ends |
| `NotionTemporal.ReadInItsZone` | app/agents/action_items.py:105-141 | a timed property is read in its own zone when it names one, else in the default; accepted exactly when its times each name one instant there and ascend |
| `NotionTemporal.DaysAreRead` | app/agents/action_items.py:105-132 | a date-only property reads as its days; its parts must be of one kind |
| `NotionTemporal.TimesRefused` | app/agents/action_items.py:133-141 | the first time that names no instant decides: nonexistent when none shows it, ambiguous when two do; else times that do not ascend |
| `ProgressReporter.MilestonesAreRecentHistory` | app/connectors/discord.py:1925-1957 | over any run the milestones are the last seven of the unbounded history of retired stages, each once, and the active stage is the last accepted |
| `ProgressReporter.MilestonesAreSolid` | app/connectors/discord.py:1947-1957 | at most seven, pairwise distinct, no liveness pulse |
| `ProgressReporter.TerminalIsAbsorbing` | app/connectors/discord.py:1925-1945 | after a terminal stage no event changes anything |
| `ProgressReporter.PendingNeverGoesBack` | app/connectors/discord.py:2240-2252 | an accepted pending update is of no earlier turn than the stage before it |
| `ProgressReporter.CutCommutes` | app/connectors/discord.py:1952-1957 | cutting the history before adding a stage shows what never cutting would |
| `ProgressReporter.StageEffect` | app/connectors/discord.py:1925-1957 | what one event does, in the events' own fields: when it is refused, and when the stage before it joins the milestones |
| `ProgressReporter.StagesShown` | app/connectors/discord.py:1959-1963 | what a message shows after any events: the last seven retired stages, then the latest accepted one |
| `ProgressReporter.Reporter.constructor` | app/connectors/discord.py:1716-1753 | an empty board, nothing shown |
| `ProgressReporter.Reporter.CommitActiveStage` | app/connectors/discord.py:1947-1957 | the new history after a commit |
| `ProgressReporter.Reporter.ApplyStage` | app/connectors/discord.py:1925-1945 | the new board, and whether the event took effect |
| `ProgressReporter.Reporter.Flush` | app/connectors/discord.py:1965-1977 | an accepted edit shows the board, a refused one disables the reporter |
| `ProgressReporter.Reporter.Update` | app/connectors/discord.py:1787-1810 | the board follows the events; the message, started or adopted, shows it unless fewer than the configured number of updates wait, and always after a terminal stage |
| `ProgressReporter.Reporter.FlushPending` | app/connectors/discord.py:1862-1864 | after it nothing waits and the message shows the board, unless the reporter is disabled |
| `ProgressReporter.Reporter.FlushThinking` | app/connectors/discord.py:1866-1880 | a thinking edit shows the present stages, leaves waiting updates counted, and never disables the reporter |
| `ProgressText.Bounded` | app/connectors/discord.py:164-168 | never over the limit, unchanged when it fits, else a prefix and a marker |
| `ProgressText.CutOff` | app/connectors/discord.py:164-168 | what is too long keeps 1988 characters before the marker |
| `ProgressText.SpacesAndBreaks` | app/connectors/discord.py:2303-2314 | the code points that separate words and lines |
| `ProgressText.TailIsSuffix` | app/connectors/discord.py:2303-2314 | a shortened tail is one ellipsis and a suffix no longer than asked |
| `ProgressText.OneShrinkFits` | app/connectors/discord.py:2283-2287 | giving up the excess once is enough |
| `ProgressText.QuotedLines` | app/connectors/discord.py:2274-2281 | a live text is quoted line by line, a final one put between spoiler marks |
| `ProgressText.StagesListed` | app/connectors/discord.py:2267 | one line per stage |
| `ProgressText.ShownIff` | app/connectors/discord.py:2268-2289 | when thinking is shown, in numbers |
| `ProgressText.ManyLinesVanish` | app/connectors/discord.py:2283-2289 | a live one may show none although there is room |
| `ProgressText.RenderProgressContent` | app/connectors/discord.py:2255-2290 | always at most 2000 characters; thinking is shown exactly under a stated condition, and then stage lines and the closing marker are whole and the text is a suffix behind at most one ellipsis |
| `ArtifactStore.VisitedFacts` | app/artifacts/store.py:215-237 | what a prune visits and finds expired goes, payload and sidecar, and nothing else changes |
| `ArtifactStore.StoreStaysSound` | app/artifacts/store.py:166-237 | over any puts, prunes and crashes payloads hash to their keys, sidecars match them and their class's retention, and a sidecar without payload has expired |
| `ArtifactStore.KeptFor` | app/artifacts/store.py:239-245 | how long each class is kept: as the policy names it, else for ever for the four immutable classes, else by default |
| `ArtifactStore.PutAnswers` | app/artifacts/store.py:166-192 | what a put answers and leaves, from the files alone |
| `ArtifactStore.PrunedIff` | app/artifacts/store.py:215-237 | a completed prune removes exactly the listed content whose recorded expiry has come |
| `ArtifactStore.ArtifactsSurvive` | app/artifacts/store.py:166-245 | an artifact stays unchanged through any run that does not prune at or after its recorded expiry, forever without one |
| `ArtifactStore.RepeatedPutChangesNothing` | app/artifacts/store.py:178-186 | putting the same content again changes no file and answers with the first metadata |
| `ArtifactStore.FullPruneClears` | app/artifacts/store.py:215-237 | a completed prune leaves exactly the unexpired sidecars, each with its payload |
| `ArtifactStore.OrphanPayloadStays` | app/artifacts/store.py:178-192 | a payload left without sidecar stays through every run and refuses every later put of its content |
| `ArtifactStore.OrphanPayloadIff` | app/artifacts/store.py:178-192 | over every run a payload lacks its sidecar if and only if a put of it was cut |
| `ArtifactStore.OrphanSidecarIff` | app/artifacts/store.py:215-237 | over every run a sidecar lacks its payload if and only if a prune was cut inside it and no later one made up for it |
| `ArtifactStore.InconsistentIff` | app/artifacts/store.py:178-237 | a put is refused as inconsistent if and only if one of those two cuts lies in the run's past |
| `ArtifactStore.BothRefusalsHappen` | app/artifacts/store.py:166-237 | both cuts happen, and completing the prune ends the second refusal |
| `ArtifactStore.Store.Put` | app/artifacts/store.py:166-192 | the new files and the answer of an uncrashed put |
| `ArtifactStore.Store.Prune` | app/artifacts/store.py:215-237 | the new files of an uncrashed prune, and exactly the expired keys visited as removed |
| `MessageGateway.EveryInterleavingIsSound` | app/connectors/discord_gateway.py:437-461 | at most one handler per message, in-flight and seen messages apart, the seen list bounded and free of repetition |
| `MessageGateway.SeenAreTheLastKept` | app/connectors/discord_gateway.py:569-572 | the seen list is the last completions that were kept |
| `MessageGateway.StartsAreAccountedFor` | app/connectors/discord_gateway.py:586-613 | each started handler has ended or is the one in flight |
| `MessageGateway.WhenAMessageStarts` | app/connectors/discord_gateway.py:457-461 | an arrival starts a handler exactly when none runs for it and it is not among the last kept |
| `MessageGateway.EndingsDecide` | app/connectors/discord_gateway.py:599-613 | a handled message or a duplicate is remembered; one that failed or was cancelled may be started again at once |
| `MessageGateway.KeptMessageIsNotRestarted` | app/connectors/discord_gateway.py:457-613 | a handled message is not started again until as many others were kept as the list holds |
| `MessageGateway.Listener.HandleMessageCreate` | app/connectors/discord_gateway.py:437-461 | the new state, and that a started handler is the only one for its message |
| `MessageGateway.Listener.MessageTaskDone` | app/connectors/discord_gateway.py:599-613 | the new state after a completion, a kept one remembered |
| `MessageGateway.Listener.RememberMessage` | app/connectors/discord_gateway.py:569-572 | the new seen list |

## Left out

- CrashResume.CrashesChangeNothing: assumes that the results at the end of the transcript handed in answer the first calls of the last assistant message, in order, as in the checkpoints of a run in order; and of the open batch and everything after it, and of nothing before: explicit distinct call ids, no failure that only the live loop excuses, plain answers and terminal calls that end the run alike (`ResumedReplies` says when they do not; a run in which a terminal call is corrected is not covered), and that the uninterrupted run does not stop at its turn limit, since each restart grants a fresh one. Handlers and the model are functions of the transcript they see, which is what determinism means here.
- BatchDecision.ReportedCodeIff: executed results only, whose failures on unregistered names are argument errors or unknown tools.
- CrashResults.ReturnedResults: the same assumptions as CrashResume.CrashesChangeNothing; a crashed run is called again with its last checkpoint and no new input.
- CrashResults.CrashesLoseNothing: the same assumptions without the one on the turn limit.
- BatchReplay.ScanIsJudge: assumes explicit, distinct ids in the batch, as do BatchReplay.LaterCheckpointAgrees, BatchReplay.ResumedBatchSeverity, BatchReplay.ResumedBatchCode, BatchReplay.ReadableBatchSeverity and ToolLoop.ContinuingBatchRemembers; `ResumeOrder` and `SyntheticIds` say what happens without.
- ToolLoop.EveryHeadRemembers: assumes explicit, distinct ids in the replies and in the resumed tail; `SyntheticIds` says what happens without.
- Recurrence.ExpansionIsExpected: a time is a wall time and the instant it names, paired arbitrarily; the recurrence library is an arbitrary partial function from wall times to instants, so it yields one occurrence per wall time, as it does within one zone.
- QueryWindows.InstantRangeCoversItsDays: assumes the same of the zone as the next line, and that the two datetimes are compared as instants; Python compares and subtracts two datetimes of one zone object by what they show.
- WallTime.WallTimeIsDecided: assumes transitions further apart than the time they shift; years outside 1 to 9999 are not refused by the model.
- Abort checks, failing event or checkpoint sinks and cancellation: a run they stop is a run cut at that point, which is what a crash is here.
- The pre-model hook is part of the model's answer; the checkpoint's status label and its storage are not modelled.
- Restored transcripts are taken as handed in; a caller that drops system messages before handing them over would drop a lifecycle correction.
- Tool names, schemas and argument values are opaque; a fingerprint is an arbitrary function of call and code, whose truncation may make it collide. The grounding of a terminal response is part of its opaque content. Canned owner texts are constructors, `strip` removes ASCII blanks in the harness model. Upper-casing in the iCal reader is an arbitrary function that keeps the four bracket keywords.
- Hidden-reasoning removal, redaction, thinking sanitizing, JSON, hashing and text of dates are functions or values given from outside.
- Races between a call's completion and its timer in the pending-event wait: times are exact reals.
- Rejected block texts, block file kinds and the shapes of Notion property payloads are reduced to what the walk does with them.
- Missing or malformed DTSTART, DTEND and UID, TZID lookup, and title, description and fingerprint of an event: an event's remaining content is one opaque value.
- A window's own two instants: the local midnights of its dates, the time of the request as the end of overdue and the start of upcoming, the given ones for the legacy form.
- Progress: what the message shows is its stages; timers and the buffering of thinking text are not modelled, and events are taken as coerced. The reporter's public `start`, which opens or adopts the message without or before an event, is left out; the first update opens it here.
- Artifact store: files it did not write, symbolic links, temporary files of a single write, and sorting of the removed keys.
- Gateway: rejected, unauthorized and interaction messages never reach the modelled state; task identity is a position among running tasks.
- `retrieve_calendar_event_evidence`, `_query_all_source_pages`, the Discord handoff and delivery-intent flows, HTTP, SQL and file mechanics, routes and settings: plumbing, or the same shapes as what is modelled.
