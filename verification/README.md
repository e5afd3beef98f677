# A verified model of Chickpea's core protocols

This project models six components of the repository in Dafny and proves what their documentation and
tests promise, or shows exactly where the code falls short of it.

1. **The live-run journal machine** (`qa/live/runner.ts`, `state.ts`, `report.ts`). A run keeps no state
   but an append-only journal; each call derives the phase, the unanswered intent and the active
   variant from past events and appends a few more. `LiveRunner` gives each call as a function from the
   view of a journal to the events it appends; `LiveRun` is the same code with its loops and appends,
   proved equal to it. A crash is any prefix of a call's appends (`LiveSafety.Cut`), a throw is a call
   that stops with what it already appended, and the theorems hold for every journal that any sequence
   of calls, crashes and notes can produce (`LiveSafety.Reachable`).
2. **The conservative shell parser** (`src/activity/curl-request-urls.ts`), a subset of the Shell Command
   Language of IEEE Std 1003.1-2017 (sections 2.2.1 to 2.2.3, 2.7 and 2.7.4 of its Shell and Utilities
   volume). `Shell` is the automaton, `ShellParser` the index loop.
3. **The activity lifecycle reducer** (`src/activity/lifecycle.ts`) and the copy layer below it
   (`src/activity/semantic.ts`). `Activity` and `ActivityWorld` give each event as a function,
   `ActivityReducer` the two classes that update their fields in place.
4. **Two concurrent pieces of the state store** (`src/cloudflare.ts`): the worker pool that drains the
   gateway inbox, with the inbox row each admission settles (`src/slack/gateway/inbox.ts`), and the loop that keeps admitting while other alarm work runs. Both are state machines
   whose steps run from one `await` to the next; every order of steps is an interleaving.
5. **The connector schema derivation** (`scripts/lib/composio-manifests.ts`): the recursive walk with its
   withholding rules, and the draft/check pair.
6. **Price review** (`scripts/lib/price-review.ts`): exact decimal arithmetic, its printer, and the rule
   that decides when a price may change.

Time, the network, the word lists, credential detection and the stores behind the calls are parameters
of the models: a request says what the clock and the doctor answered, a policy holds the rules as
functions, a scheduler is an arbitrary sequence of choices.

## Where the code does not meet the plain promise

Each of these is proved; where an exact condition is known it is stated as an if-and-only-if.

- A run can be brought to its end if and only if it is in none of five dead ends
  (`LiveComplete.CompletesExactly`, over all later histories of every suite, in which a failed doctor and
  a crash are means like any other; `LiveFinish.FinishesExactly`, over accepted calls with a ready doctor,
  for suites that clean everywhere). Nothing that happens later leads out of one (`LiveDead.DeadForever`),
  and each is reached by a short history:
  - an intent is open in cleanup, from which the transition table has no way to recovery: a doctor fails
    while an action waits (`LiveEnds.StrandedByDoctor`, and `LiveDead.DoctorFailureKillsExactly` for exactly
    when a failed doctor does this), or a call crashes with a ready doctor (`LiveEnds.StrandedByCrash`);
  - preflight has no variant left to expose: a crash while a new run is blocked (`LiveEnds.EmptiedByCrash`);
  - cleanup names a variant that has no case result: a crash behind a cleanup result and a failed doctor
    (`LiveEnds.MisnamedByDoctor`);
  - an intent is open while the run waits or asserts. A suite can get there if and only if some variant
    before the last needs no cleanup (`LiveEnds.MaroonsExactly`, `LiveEnds.MaroonHistory`);
  - every variant is closed behind a shown action whose receipts lead to a decision, and the table has no
    way from an action to the end. A suite can get there if and only if its last variant needs no cleanup
    (`LiveEnds.JamsExactly`, `LiveEnds.JamHistory`), also behind an action whose own receipt settles
    (`LiveEnds.LateJamHistory`).
- After a crash behind a receipt, the next call repeats the interrupted one exactly under the condition of
  `LiveRecovery.CrashAfterReceipt`, which is that the last transition had shown that very action when every
  variant before the last needs cleanup (`LiveRecovery.CrashAfterShownReceipt`); with a second intent open,
  another open action is shown again (`LiveRecovery.CrashShowsOtherIntent`). An earlier crash between an intent and
  its transition leaves an action that can be answered without having been shown
  (`LiveHistories.UnshownAction`).
- At most one intent is open in every reachable journal if and only if every variant before the last needs
  cleanup (`LiveHistories.OneOpenExactly`, with the history of `LiveHistories.TwoOpenHistory` otherwise).
- The cases above of a variant that needs no cleanup are inputs that the suite schema admits
  (qa/live/schema.ts:533-534); each of the 26 variants of the shipped manifest (qa/live/manifest.ts:10)
  has an action that needs it.
- A here-document appended to a source is invisible if and only if the source ends neither in a comment
  nor on a closing delimiter line that lacks its newline (`ShellLimits.HidesDocumentsExactly`, with
  `ShellRoundTrip.TextBehindClosingLine` as the concrete case).
- A fact that takes the known target away from the shown call leaves a stale status exactly when
  another running call is newer or has a known target, and reads differently
  (`ActivityInvariant.RegisterKeepsAgreementExactly`, `ActivityStale.FactCanLeaveStaleStatus`).
- A wake is followed by a dispatch pass if and only if it comes before the loop's final check, and one
  that comes during a pass, or before the loop has begun, waits for a timer, another wake or the end of
  the work (`WakeLoop.NoWakeIsLost`, `WakeLoop.WakeDuringPassWaits`, `WakeLoop.WaitEnds`).
- A delivery whose callback throws after it was completed stays completed, and is recorded as a dead
  letter all the same (`InboxAdmit.Delivery.Admit`).
- At every object of a connector schema, a required name that is no kept argument gets through exactly
  when the source does not declare it and every JavaScript object answers to it, such as `toString`
  (`ConnectorTheorems.UndeclaredNames`, with `ConnectorTheorems.InheritedName` as the smallest case).

## Model

| member | source | states |
|---|---|---|
| `LiveState.PassMeansEveryVariantPassed` | qa/live/report.ts:19-71 | The aggregate is a pass exactly when every declared variant has a case result, its last one is a pass, and no cleanup failed |
| `LiveState.ReportConservesVariants` | qa/live/report.ts:19-81 | Both tallies add up to the executed variants, and blocked plus executed variants account for every declared one |
| `LiveState.ReportsLastCases` | qa/live/report.ts:19-49 | Each reported case is the last case result of a declared variant, so a repeated result counts once |
| `LiveGuarded.AdvanceGuarded` | qa/live/runner.ts:107-197 | Every event a call appends is justified where it stands, in whatever phase and with whatever signal the call comes |
| `LiveGuarded.BeginGuarded` | qa/live/runner.ts:107-197 | The same for the first call of a run, which may block all variants or show the first action |
| `LiveSafety.HistoryLegal` | qa/live/runner.ts:107-197 | Every journal that calls, crashes after any append and notes produce obeys the guards, event by event |
| `LiveSafety.RetryFollowsAbsentReadback` | qa/live/runner.ts:253-309 | In every reachable journal an intent for attempt k+1 stands behind an absent readback of attempt k of the same action |
| `LiveSafety.ReceiptsAreUnique` | qa/live/runner.ts:217-251 | In every reachable journal a receipt answers an intent declared before it that nothing has answered, so no intent gets two receipts |
| `LiveSafety.PassIsEarned` | qa/live/runner.ts:333-406 | A variant that the report passes had all its actions declared and reported done in index order before the assertion phase in which its last case result was written |
| `LiveSafety.JournalReplays` | qa/live/runner.ts:689-748 | Every reachable journal replays: each transition starts in the phase derived so far and is in the table |
| `LiveSafety.CleanedInHeaderOrder` | qa/live/runner.ts:408-478 | In every reachable journal of every suite the cleaned variants are a prefix of the header order |
| `LiveSafety.FinishedRunIsComplete` | qa/live/runner.ts:573-602 | A run in its terminal phase has decided every variant, so its report is never incomplete |
| `LiveSafety.FinishedCallRepeatsReport` | qa/live/runner.ts:587-614 | Every admitted call on a finished run returns the report of its journal |
| `LiveSafety.FinishedReportIsFinal` | qa/live/runner.ts:587-614 | No later call, crash or note changes the phase or the report of a finished run |
| `LiveOrdered.HistoryIsOrdered` | qa/live/runner.ts:107-197 | When every variant before the last needs cleanup, in every reachable journal at most one intent is open, it belongs to the variant at work, the phase tells which one it can be, and only closed variants and that one have left intents or case results |
| `LiveOrdered.OneIntentAtATime` | qa/live/runner.ts:499-526 | With a cleanup action in every variant, at most one intent is unanswered, and it belongs to the active variant |
| `LiveRecovery.CrashAfterReceipt` | qa/live/runner.ts:217-250 | For every suite and reachable journal: after a crash right behind a receipt, the next call without a signal appends and returns what the interrupted call had left if and only if no other intent is open and the last transition showed that action, or showed one of the same variant whose receipt has the same continuation |
| `LiveRecovery.CrashAfterShownReceipt` | qa/live/runner.ts:217-250 | When every variant before the last needs cleanup, it does so if and only if the last transition showed that very action |
| `LiveRecovery.CrashShowsOtherIntent` | qa/live/runner.ts:217-233 | In every reachable journal with another intent open, the next call after such a crash appends its doctor record and one transition that shows another open action again, and asks for that action if the target binds its variant |
| `LiveRecovery.LostTransitionLeavesUnshownAction` | qa/live/runner.ts:499-526 | A call cut off between the next intent and its transition answers one action and leaves exactly the next one open in its place, which the last transition does not show |
| `LiveHistories.UnshownAction` | qa/live/runner.ts:499-526 | A two-call history of every suite whose first variant has two actions that ends in such a journal, with the unshown action as the only open one |
| `LiveRecovery.LostRetry` | qa/live/runner.ts:286-309 | The same for a retry: its intent is open while the phase still names the attempt before it |
| `LiveRecovery.WithoutCleanupTwoIntentsStayOpen` | qa/live/runner.ts:451-478 | In a variant without cleanup, a second readback closes the variant over a lost retry, and two intents are open |
| `LiveHistories.TwoOpenHistory` | qa/live/runner.ts:286-309 | A five-call history that leaves two intents open, for every suite with a variant before the last that needs no cleanup |
| `LiveHistories.OneOpenExactly` | qa/live/runner.ts:451-526 | In every reachable journal at most one intent is open, if and only if every variant before the last needs cleanup |
| `LiveProgress.CallProgress` | qa/live/runner.ts:107-197 | With a ready doctor and cleanup everywhere, an idle call keeps the measure, an absent readback adds one, and every other accepted call lowers it |
| `LiveProgress.RunsEnd` | qa/live/runner.ts:107-526 | Productive calls of a run number at most the cost of the suite plus one per retry, and a run that has used them up is complete |
| `LiveProgress.NextCallIsProductive` | qa/live/runner.ts:107-526 | Until the run is complete some call is accepted and lowers the measure |
| `LiveProgress.RunCanFinish` | qa/live/runner.ts:107-526 | From every settled view some sequence of accepted calls completes the run |
| `LiveProgress.BeginIsAdvance` | qa/live/runner.ts:107-197 | On an empty journal the first call does what a resumed call would |
| `LiveComplete.CompletesExactly` | qa/live/runner.ts:107-526 | For every suite and reachable journal: some later history of calls, failed doctors and crashes completes the run if and only if the run is in none of five dead ends |
| `LiveFinish.FinishesExactly` | qa/live/runner.ts:107-526 | With a cleanup action in every variant, accepted calls with a ready doctor alone complete the run under the same condition |
| `LiveDead.DeadForever` | qa/live/state.ts:119-127 | In every suite, whatever later history a dead run has, nothing more is answered or closed and the run stays dead; in cleanup and preflight not even a record changes but the last transition |
| `LiveDead.DoctorFailureKillsExactly` | qa/live/runner.ts:631-647 | In every suite, a failed doctor turns a live run into a dead one if and only if a variant is left and either an action or readback is open or cleanup has nothing left to clean |
| `LiveEnds.StrandedByDoctor` | qa/live/runner.ts:631-647 | A two-call history of every suite: the doctor fails while the first action waits, and its intent is open in cleanup |
| `LiveEnds.StrandedByCrash` | qa/live/runner.ts:480-526 | The same dead end with a ready doctor throughout: the crash falls behind the first intent of the second variant |
| `LiveEnds.EmptiedByCrash` | qa/live/runner.ts:616-629 | A one-call history: the doctor fails at once and the crash falls before the last transition, so preflight has no variant left |
| `LiveEnds.MisnamedByDoctor` | qa/live/runner.ts:408-449 | A four-call history: a crash behind a cleanup result and a failed doctor leave cleanup naming a variant that has no case result |
| `LiveEnds.JamHistory` | qa/live/runner.ts:451-497 | A three-call history of every suite whose last variant needs no cleanup: its first action is denied, everything is closed, and the phase cannot move to its end |
| `LiveEnds.LateJamHistory` | qa/live/runner.ts:311-331 | A three-call history of a one-variant suite that jams behind a shown action whose receipt settles: the decided action was never shown |
| `LiveEnds.JamsExactly` | qa/live/runner.ts:451-497 | In every suite, a run can jam if and only if the last variant needs no cleanup |
| `LiveEnds.MaroonHistory` | qa/live/runner.ts:377-406 | A history of every suite with a variant before the last that needs no cleanup: the verdict is cut off behind the next intent, which is then open in the assertion phase |
| `LiveEnds.MaroonsExactly` | qa/live/runner.ts:451-526 | In every suite, a run can be waiting or asserting with an open intent if and only if some variant before the last needs no cleanup |
| `LiveRun.DerivePhase` | qa/live/runner.ts:737-748 | The loop over transitions gives the phase of the view, and fails exactly where the view does |
| `LiveRun.FindOutstandingIntent` | qa/live/runner.ts:758-769 | The loop finds the newest intent that nothing answered |
| `LiveRun.LastTransition` | qa/live/runner.ts:750-756 | The loop finds the last transition of the journal |
| `LiveRun.FindReceipt` | qa/live/runner.ts:781-799 | The loop finds the receipt of an action reference |
| `LiveRun.ReadCases` | qa/live/runner.ts:801-815 | The loop projects the case results and cleanup outcomes of the journal |
| `LiveRun.ReportFromJournal` | qa/live/runner.ts:604-614 | The report read from the events is the report of their view |
| `LiveRun.ActiveVariant` | qa/live/runner.ts:828-837 | The first header variant that is not cleaned |
| `LiveRun.LastResult` | qa/live/runner.ts:587-602 | The loop finds the last aggregate result recorded |
| `LiveRun.Runner.Advance` | qa/live/runner.ts:107-197 | A resumed call appends exactly the specified events and returns the specified record or error |
| `LiveRun.Runner.Begin` | qa/live/runner.ts:107-197 | The same for the first call of a run |
| `LiveRun.Runner.ContinuePendingAction` | qa/live/runner.ts:217-251 | Re-shows the action, rejects a foreign signal, or appends the receipt and settles it |
| `LiveRun.Runner.ContinueRecovery` | qa/live/runner.ts:253-309 | Re-asks for the readback, or appends it and retries, decides or goes on |
| `LiveRun.Runner.ResumeDurableReceipt` | qa/live/runner.ts:311-331 | Settles the receipt that a crash left behind |
| `LiveRun.Runner.AfterCompletedAction` | qa/live/runner.ts:333-355 | Shows the next action, waits for the observation window, or asks for the assertion |
| `LiveRun.Runner.ContinueObservationWait` | qa/live/runner.ts:357-375 | Waits on until the window opens, then asks for the assertion |
| `LiveRun.Runner.RecordAssertion` | qa/live/runner.ts:377-406 | Appends the assertion and the case result and leaves the variant |
| `LiveRun.Runner.RecordCleanup` | qa/live/runner.ts:408-449 | Appends the cleanup outcome of the variant that awaits it and continues the suite |
| `LiveRun.Runner.EnterCleanupOrContinue` | qa/live/runner.ts:451-478 | Enters cleanup, or closes a variant that needs none and continues |
| `LiveRun.Runner.ContinueSuite` | qa/live/runner.ts:480-497 | Shows the first action of the active variant or finishes the run |
| `LiveRun.Runner.ExposeNextAction` | qa/live/runner.ts:499-526 | Appends the intent and its transition and returns the action |
| `LiveRun.Runner.FinishRun` | qa/live/runner.ts:573-585 | Appends the aggregate and the final transition and returns the report |
| `LiveRun.Runner.ResumeTerminalRun` | qa/live/runner.ts:587-602 | Returns the report again and records the aggregate if a crash lost it |
| `LiveRun.Runner.BlockNewRun` | qa/live/runner.ts:616-629 | Blocks every variant of a new run whose doctor is not ready |
| `LiveRun.Runner.StopForDoctorFailure` | qa/live/runner.ts:631-647 | Decides the active variant and stops, or throws where the table has no transition |
| `LiveRun.Runner.AppendTransition` | qa/live/runner.ts:689-704 | Writes a transition exactly when the table allows it |
| `LiveRefs.PrintedRefReadsBack` | qa/live/runner.ts:847-857 | The index and attempt of a printed action reference read back |
| `LiveRefs.PrintIsInjective` | qa/live/runner.ts:499-526 | Two action references never share a text, whatever the variant ids look like |
| `ShellParser.ParseShellCommands` | src/activity/curl-request-urls.ts:322-485 | The index loop returns what the automaton returns, for every source |
| `ShellParser.ConsumeHereDocuments` | src/activity/curl-request-urls.ts:487-510 | The cursor loop ends behind the last closing line, or fails exactly when a document is never closed |
| `ShellParser.ConsumeHereDocument` | src/activity/curl-request-urls.ts:494-508 | The inner loop ends behind the first line that closes the document, tabs and a carriage return stripped |
| `ShellParser.Parser.FinishWord` | src/activity/curl-request-urls.ts:333-353 | Ends a word: a word of the command, a redirection target, a here-document delimiter, or invalid when a target is empty |
| `ShellParser.Parser.FinishCommand` | src/activity/curl-request-urls.ts:354-365 | Ends a command, dropping empty ones and refusing a redirection without a target |
| `ShellParser.Parser.BeginRedirection` | src/activity/curl-request-urls.ts:366-380 | Starts a redirection, taking a number in front of it as a file descriptor |
| `ShellParser.Parser.Read` | src/activity/curl-request-urls.ts:382-480 | One pass of the loop is one step of the automaton |
| `ShellTheorems.ParseComposes` | src/activity/curl-request-urls.ts:322-485 | If `a` parses and leaves no here-document open, then `a`, a newline and `b` parse to the commands of both, and fail exactly when `b` fails |
| `ShellTheorems.BodiesContributeNothing` | src/activity/curl-request-urls.ts:440-465 | A here-document behind such a source contributes no words, whatever lines its body holds |
| `ShellTheorems.RunExtends` | src/activity/curl-request-urls.ts:382-480 | Running over a source and then over more text is running over both |
| `ShellTheorems.RunPrefixed` | src/activity/curl-request-urls.ts:322-485 | The commands found so far influence nothing that is read later |
| `ShellTheorems.SkipLines` | src/activity/curl-request-urls.ts:487-510 | A skip passes exactly over the lines that do not close the document |
| `ShellTheorems.SkipExtends` | src/activity/curl-request-urls.ts:487-510 | Text behind a source leaves a skip that read its closing newline as it was, and a newline first closes a closing line that was still open |
| `ShellTheorems.SkipReadsOn` | src/activity/curl-request-urls.ts:487-510 | In general, a skip is left alone if and only if it read a closing line with its newline; otherwise it reads on with what the open line held |
| `ShellLimits.HidesDocumentsExactly` | src/activity/curl-request-urls.ts:426-465 | Every here-document behind a parsed source is invisible if and only if the source ends neither in a comment nor on an open closing line |
| `ShellLimits.SmallestBehindComment` | src/activity/curl-request-urls.ts:426-434 | Behind a comment the body becomes a command |
| `ShellRoundTrip.PrintedCommandsReadBack` | src/activity/curl-request-urls.ts:322-485 | Commands of at least one word each, over arbitrary characters, printed in escaped single quotes, parse to exactly themselves with no output redirection |
| `ShellRoundTrip.TextBehindClosingLine` | src/activity/curl-request-urls.ts:487-510 | A source whose closing line lacks its newline parses, and no longer parses with a here-document behind it |
| `ActivityInvariant.RunIsOk` | src/activity/lifecycle.ts:146-195 | After any events running, non-work and completed calls together never exceed the seen calls, which never exceed 256, and no id runs twice |
| `ActivityInvariant.LatestIsShown` | src/activity/lifecycle.ts:271-284 | The loop result is exactly the newest running call with a known target, or the newest call if none has one |
| `ActivityInvariant.StatusAgrees` | src/activity/lifecycle.ts:146-223 | While work runs the last status text is the narration of that call, over every run in which no fact displaces the shown call |
| `ActivityInvariant.RegisterKeepsAgreementExactly` | src/activity/lifecycle.ts:90-114 | A fact keeps the agreement if and only if it does not displace the shown call or the call shown instead reads the same |
| `ActivityStale.FactCanLeaveStaleStatus` | src/activity/lifecycle.ts:109-113 | Three concrete events after which the status says that a web page is read, while the call to show is the one on memory, in the words of the copy layer and for any word lists |
| `ActivityRuns.BatchVerdict` | src/activity/lifecycle.ts:187-213 | When a batch empties it is narrated as a success exactly when every call that ended in it settled with isError false |
| `ActivityRuns.RedeliveryChangesNothing` | src/activity/lifecycle.ts:146-195 | Within an attempt a repeated start or settlement, at any later time and with any payload, changes nothing and shows nothing |
| `ActivityRuns.OncePerAttempt` | src/activity/lifecycle.ts:307-315 | Between two starts, or two settlements, of one call id lies the start of a new attempt |
| `ActivityTheorems.KeysStayDisjoint` | src/activity/lifecycle.ts:225-252 | Live and settled submission keys stay disjoint and number at most 256 each |
| `ActivityTheorems.OrderIsRecency` | src/activity/lifecycle.ts:225-232 | Live submissions are kept in the order of their last use |
| `ActivityTheorems.OnlyLeastRecentIsEvicted` | src/activity/lifecycle.ts:244-250 | A live submission goes only when it is settled, when its instance is cleared, or when 256 others were used after it; an evicted key counts as settled |
| `ActivityTheorems.LiveStateIsItsOwnRun` | src/activity/lifecycle.ts:60-88 | The state of a live submission is the run of exactly the events told about it since it was created |
| `ActivityTheorems.RedeliveryChangesOnlyRecency` | src/activity/lifecycle.ts:60-88 | Redelivering a tool event changes nothing but the recency of its submission |
| `ActivityTheorems.StepKeepsAllOk` | src/activity/lifecycle.ts:60-125 | Every signal keeps every live submission in order |
| `ActivityKeys.TextIsInjective` | src/activity/lifecycle.ts:317-319 | Different submission keys have different texts |
| `ActivityKeys.PrefixIsInstance` | src/activity/lifecycle.ts:116-125 | The prefix test of clearInstance picks out the keys of exactly its own instance |
| `ActivityReducer.LatestActiveCall` | src/activity/lifecycle.ts:271-284 | The maximum-finding loop returns the one call to show |
| `ActivityReducer.AddBounded` | src/activity/lifecycle.ts:321-329 | The value becomes the newest element and the oldest ones beyond the limit go |
| `ActivityReducer.Submission.ObserveToolStart` | src/activity/lifecycle.ts:146-170 | A start changes the fields as specified |
| `ActivityReducer.Submission.ObserveToolSettlement` | src/activity/lifecycle.ts:172-214 | A settlement changes the fields and shows what is specified |
| `ActivityReducer.Submission.RegisterFact` | src/activity/lifecycle.ts:98-113 | A fact changes the fields and shows what is specified |
| `ActivityReducer.Submission.ObserveAttempt` | src/activity/lifecycle.ts:127-144 | A higher attempt number resets the submission |
| `ActivityReducer.Submission.RecordNewCall` | src/activity/lifecycle.ts:307-315 | A new call id is recorded, or the submission is suppressed when 256 were seen |
| `ActivityReducer.ActivityLifecycleReducer.Observe` | src/activity/lifecycle.ts:60-88 | An observation changes the maps as specified and keeps the states apart |
| `ActivityReducer.ActivityLifecycleReducer.RegisterInvocationFact` | src/activity/lifecycle.ts:90-114 | The same for a fact |
| `ActivityReducer.ActivityLifecycleReducer.ClearInstance` | src/activity/lifecycle.ts:116-125 | The two loops remove exactly the keys of one instance |
| `ActivityReducer.ActivityLifecycleReducer.State` | src/activity/lifecycle.ts:225-252 | The submission of a key is found or created, becomes the newest, and the oldest is evicted |
| `NarrationTheorems.EveryNarrationIsSafe` | src/activity/semantic.ts:540-577 | Every narration of any descriptor, valid or not, and any event holds at most 50 UTF-16 units, is said in full and passes the wire check |
| `NarrationTheorems.SafeLabelIsNormal` | src/activity/semantic.ts:695-702 | A normalised label has no control or markup character, single inner spaces only, and is never empty |
| `NarrationTheorems.NormalStays` | src/activity/semantic.ts:695-702 | Normalising a normal label changes nothing, so normalisation is idempotent |
| `NarrationTheorems.FamilyFits` | src/activity/semantic.ts:728-824 | Every copy of the family table leaves room for its item |
| `NarrationTheorems.FittingCopyIsSafe` | src/activity/semantic.ts:616-677 | Copy that fits is never cut, and building its status again from its parts gives the same text |
| `InboxPoolTheorems.GroupsPartition` | src/cloudflare.ts:3694-3699 | The groups are exactly the conversations, each with its deliveries in claimed order |
| `InboxPoolTheorems.ConversationsRunOneByOne` | src/cloudflare.ts:3689-3707 | Under every interleaving each conversation sees its deliveries admitted one by one in claimed order, never overlapping, and all of them when the workers have ended |
| `InboxPoolTheorems.FewInFlight` | src/cloudflare.ts:3700-3707 | At most four admissions are in flight, and one without onAdmitted |
| `InboxPoolTheorems.ExactlyOnce` | src/cloudflare.ts:3700-3707 | When the pool has ended every claimed delivery was admitted once and settled once, and nothing else was |
| `InboxPoolTheorems.EachRowIsWrittenOnce` | src/cloudflare.ts:3639-3709 | And while rows stay in flight until their processing ends, each settlement is exactly one write that leaves the row no longer in flight, and another drain is asked for exactly when some row went back to pending without a delay |
| `InboxAdmit.Delivery.Admit` | src/cloudflare.ts:3668-3690 | The try and catch clauses write a claimed row exactly once whatever the processing and the callback do; the row is completed, parked or pending exactly as the processing ended; another drain is asked for exactly when the row is due at once; a dead letter is recorded exactly when the attempts are spent or the callback threw |
| `InboxAdmit.Delivery.RetryOrRecover` | src/slack/gateway/inbox.ts:374-400 | An in-flight row goes back to pending or, its attempts spent, is parked; any other row is left alone and reported as parked |
| `InboxPoolTheorems.RetryIsAskedFor` | src/cloudflare.ts:3676-3709 | The drain asks for a retry exactly when some admission stayed pending with no delay |
| `InboxPoolTheorems.EveryDrainEnds` | src/cloudflare.ts:3700-3709 | Every interleaving ends after a fixed number of steps, and until then some worker can move |
| `InboxDrain.GroupByConversation` | src/cloudflare.ts:3694-3698 | The loop builds the groups |
| `InboxDrain.DrainInbox` | src/cloudflare.ts:3606-3710 | Under any scheduler the drain ends with every conversation admitted one by one, nothing in flight, and a retry asked for exactly when one is due at once |
| `InboxDrain.Drain.Step` | src/cloudflare.ts:3700-3707 | Each step of a worker changes the queue, the workers and the flag as specified |
| `InboxDrain.Drain.Settle` | src/cloudflare.ts:3668-3690 | An admission settles its row as specified and keeps the retry flag |
| `WakeLoop.NoWakeIsLost` | src/cloudflare.ts:3044-3081 | Over every interleaving, wakes before the loop begins included, a wake is followed by a pass that starts after it if and only if it came before the final check |
| `WakeLoop.FlagIsPending` | src/cloudflare.ts:3050-3055 | Before the final check the flag says exactly whether some wake still waits for a pass |
| `WakeLoop.PassesNeverOverlap` | src/cloudflare.ts:3060-3074 | Passes start and end in turn |
| `WakeLoop.LoopEnds` | src/cloudflare.ts:3056-3081 | Once the work has ended the loop can always move, each of its own steps brings its end nearer, and nothing puts it off |
| `WakeLoop.WakeDuringPassWaits` | src/cloudflare.ts:3051-3072 | A wake during a pass, or before the loop has begun, starts nothing at once: the loop goes to sleep over it |
| `WakeLoop.WaitEnds` | src/cloudflare.ts:3060-3074 | Such a wait ends with another wake, the timer or the end of the work and with nothing else, and each leads at once to a pass that serves every wake so far |
| `WakeLoop.Dispatcher.EnterLoop` | src/cloudflare.ts:3060-3068 | The loop begins asleep once the work has reached its first await |
| `WakeLoop.Dispatcher.DispatchWake` | src/cloudflare.ts:3051-3054 | A wake sets the flag and resolves the promise |
| `WakeLoop.Dispatcher.TimerFires` | src/cloudflare.ts:3060-3068 | The timer resolves the promise and nothing else |
| `WakeLoop.Dispatcher.WorkFinished` | src/cloudflare.ts:3056-3059 | The end of the work sets the flag for it and resolves the promise |
| `WakeLoop.Dispatcher.Resume` | src/cloudflare.ts:3062-3073 | Behind the promise the loop starts a pass or leaves |
| `WakeLoop.Dispatcher.PassFinished` | src/cloudflare.ts:3060-3074 | Behind a pass the loop sleeps again or makes its final check |
| `ConnectorTheorems.DerivedInputIsSafe` | scripts/lib/composio-manifests.ts:400-424 | A derived input schema reads its source faithfully, holds no denied path, none that a rule withholds unless review allows it, and keeps all limits |
| `ConnectorTheorems.DeriveIsFaithful` | scripts/lib/composio-manifests.ts:426-580 | At every kept object each source argument is kept, being permitted, or recorded as withheld, and the required names are the source's |
| `ConnectorTheorems.KeptOrWithheld` | scripts/lib/composio-manifests.ts:519-566 | Each source argument of a kept object is kept faithfully, or is recorded as withheld and not required |
| `ConnectorTheorems.FaithfulAvoidsDenied` | scripts/lib/composio-manifests.ts:519-551 | No path of the derived schema is one that review denies |
| `ConnectorTheorems.DeriveIsWithin` | scripts/lib/composio-manifests.ts:426-580 | Nesting, property counts, string and array bounds, enum sizes and argument names stay within the limits |
| `ConnectorTheorems.UndeclaredNames` | scripts/lib/composio-manifests.ts:519-580 | At every object node derivation succeeds if and only if its arguments are derived, it is not an empty nested object, and each required name is declared by the source or one that every object answers to; then a required name is no kept argument exactly when it is undeclared and of that kind |
| `ConnectorTheorems.InheritedName` | scripts/lib/composio-manifests.ts:567-569 | The smallest case: a root object that requires one undeclared name is derived exactly when every object answers to that name |
| `ConnectorWalk.DeriveInputSchema` | scripts/lib/composio-manifests.ts:400-424 | The walk that notes down what it withholds gives the specified schema and notes |
| `ConnectorWalk.Walk.DeriveNode` | scripts/lib/composio-manifests.ts:426-580 | One node of the walk changes the notes and gives the schema as specified |
| `ConnectorWalk.Walk.DeriveArguments` | scripts/lib/composio-manifests.ts:519-566 | The loop over properties keeps, withholds or gives up as specified |
| `ConnectorFixpoint.DraftIsFixpoint` | scripts/lib/composio-manifests.ts:582-732 | Drafting again from a drafted manifest and the same snapshot returns that manifest |
| `ConnectorFixpoint.CheckAcceptsFixpoints` | scripts/lib/composio-manifests.ts:742-786 | The checker finds no problem exactly in manifests that parse, pin the snapshot, name only its tools in review, and are returned unchanged by drafting |
| `ConnectorFixpoint.DraftChecksClean` | scripts/lib/composio-manifests.ts:742-786 | A draft checks clean exactly when the snapshot holds every reviewed tool |
| `ConnectorFixpoint.TidiedStays` | scripts/lib/composio-manifests.ts:716-728 | Writing a review again changes nothing |
| `ConnectorSafety.DraftExposesOnlyReviewed` | scripts/lib/composio-manifests.ts:607-688 | Every capability of a draft comes from a snapshot tool that review does not drop; an effect that needs review appears only for a tool review adds; a read keeps no withheld argument, a write that keeps one is administrative or destructive; and the input is vetted against the review of its tool |
| `ConnectorDrafter.CollectCapabilities` | scripts/lib/composio-manifests.ts:607-688 | The loop pushes the capabilities of all tools in order, or throws |
| `ConnectorDrafter.DraftManifest` | scripts/lib/composio-manifests.ts:582-732 | The whole draft, whose result drafting returns again |
| `PriceDecimal.ScaledDecimalIsExact` | scripts/lib/price-review.ts:426-440 | The scaled text is the integer n exactly when its decimal value times the power of ten is n within the safe range, and not whole exactly when that product is no integer |
| `PriceDecimal.SpellingsOfOneNumberAgree` | scripts/lib/price-review.ts:426-440 | All spellings of one number scale alike |
| `PriceDecimal.ScanFindsSpelling` | scripts/lib/price-review.ts:427-429 | The pattern finds every spelling of a numeral |
| `PriceDecimal.ScanIsSpelling` | scripts/lib/price-review.ts:427-429 | The pattern finds nothing else |
| `PriceDecimal.PrintedAmountReadsBack` | scripts/lib/price-review.ts:713-717 | The dollar form of any safe amount of micros, without its sign and with exponent 6, scales back to that amount |
| `PriceReviewer.ScaledDecimal` | scripts/lib/price-review.ts:426-440 | The method that scales the digits in place is exact |
| `PriceTheorems.CheckFieldRule` | scripts/lib/price-review.ts:230-261 | A field is confirmed exactly when some source lists it and all give the catalog value, and changed to p exactly when at least two list it, all as the whole value p, which is not the catalog value |
| `PriceTheorems.RateWithUndoesCatalogFields` | scripts/lib/price-review.ts:288-340 | Rebuilding a rate from its own fields gives that rate |
| `PriceTheorems.ProposedRateIsWanted` | scripts/lib/price-review.ts:195-228 | A proposed rate keeps identity and fields, and changes a field only to a whole value that at least two sources list and all that list it agree on |
| `PriceTheorems.ProposalRule` | scripts/lib/price-review.ts:157-228 | Which verdicts carry a proposal, and that an accepted or unchanged one rebuilds exactly the current rate |
| `PriceTheorems.ChangedMeansDifferent` | scripts/lib/price-review.ts:219-228 | A price is called changed exactly when its proposal differs from the current rate |
| `PriceTheorems.OneSourceNeverChanges` | scripts/lib/price-review.ts:250-261 | With at most one source nothing is changed, whatever it says |
| `PriceTheorems.SingleSourceProviders` | scripts/lib/price-review.ts:386-407 | The providers with at most one source are exactly the listed ones, and a review of their prices is never a change: any proposal keeps the rate |
| `PriceTheorems.SingleSourceRenews` | scripts/lib/price-review.ts:157-228 | Some answer of the source gives such a price a proposal if and only if the day has changed and either `--accept` is given or the price has run its time and has a source |
| `PriceTheorems.OwnPageConfirms` | scripts/lib/price-review.ts:263-286 | A proposal cites a provider's own page only if that page lists a proposed field and agrees with all it lists |
| `PriceReviewer.CheckOneField` | scripts/lib/price-review.ts:230-261 | The loop over readings obeys the rule |
| `PriceReviewer.ReviewOnePrice` | scripts/lib/price-review.ts:157-228 | The review filled in step by step is the specified one, and is called changed exactly when the rate differs |

## Left out

- LiveRunner.Request: `admitted` stands for the timestamp, suite-policy, header and doctor-identity checks made before anything is appended; their field comparisons are not modelled.
- LiveFinish.FinishesExactly: stated, like the other results on progress by accepted calls alone, for suites all of whose variants need cleanup; in other suites `LiveComplete.CompletesExactly` counts failed doctors and crashes among the means.
- LiveHistories.OneOpenExactly: takes, like `LiveComplete.CompletesExactly` and the results of LiveEnds, from the suite schema (qa/live/schema.ts:483) that every variant has an action.
- LiveRefs.PrintedRefReadsBack: attempt and index numbers beyond 2^53 are exact here, while the source reads them as floating-point numbers.
- LiveSafety.Reachable: two processes racing on one journal file are not modelled; the path that finds the journal already there equals a resumed call.
- LiveRun.Runner.Begin: journal storage, locks, attestation, privacy and postflight proofs, and the record fields that only copy manifest text (mutation, human gate, fixtures) are not modelled.
- qa/live/coordinator.ts is the environment that sends signals; suite selection and the manifest validators are taken as given data with unique variant ids.
- ShellParser.ParseShellCommands: a JavaScript string is a sequence of UTF-16 units; the model reads Unicode characters, which the parser never splits because all its special characters are single units.
- The curl argument tables behind the parser (`curlRequestsFromArgs`, `applyShortCurlOptions`) and URL parsing are not part of this model.
- ActivityReducer.Submission.ObserveToolSettlement: telemetry and the start time it needs are not modelled.
- ActivityKeys.TextIsInjective: lone surrogates, which `JSON.stringify` escapes, are not characters of the model.
- NarrationTheorems.EveryNarrationIsSafe: `IsDescriptor` models the label part of descriptor validation; a value with a wrong field or trust tier is an absent descriptor, and the name patterns and credential detection are arbitrary predicates.
- InboxAdmit.Delivery.Admit: what the processing of a delivery does is one of its outcomes here, and releasing the receipt note is not modelled.
- InboxPoolTheorems.ExactlyOnce: store calls are assumed not to throw, and the branch that retries every claimed delivery because no gateway client could be built is not modelled.
- InboxPoolTheorems.GroupsPartition: the conversation of a delivery is given; how it is read from channel, thread and timestamp is not modelled.
- WakeLoop.NoWakeIsLost: passes are assumed not to throw, and the alarm that a late wake arms by itself (`setAlarmNoLaterThan`) is not modelled.
- ConnectorTheorems.DerivedInputIsSafe: numeric minimum and maximum, descriptions of derived arguments and the wording of refusals are not modelled, and an argument literally named `__proto__` is treated like any other.
- ConnectorFixpoint.DraftIsFixpoint: a snapshot is taken to hold one tool per slug, tools are taken in the snapshot's own sorted order, and `parseComposioManifest` is the identity on the manifests it accepts; the draft report is not modelled.
- PriceTheorems.ProposalRule: a threshold read from a source is an integer here, reasons and notes are not modelled, and the readings are whatever the sources answered.
- PriceDecimal.ScaledDecimalIsExact: exponents so large that `Number` rounds them are exact here, and a zero written with an exponent too large for a BigInt power, such as `0e999999999`, gives 0 here while the source throws a RangeError.
- PriceReviewer.ScaledDecimal: the same texts give 0 here while the source throws a RangeError.
- Fetching, scraping, file writing, catalog source editing, billing views, admin routes, onboarding, logos and telemetry would only add input/output and easy members.
