# Verification of the model retry wrapper

A Dafny model of the plugin's logic, with proofs of what its parts are for. `dafny verify dfyconfig.toml` checks
everything.

The plugin sits between a host and the model executors. It retries failed model calls under a configured policy,
steers which credential the host dispatches, decides on the first event of a stream whether to retry or to forward,
and keeps a registry of running requests so that they can be cancelled.

## How the model is laid out

- **Scheduler and loop.** `Scheduler` gives one function per mutex region of the credential scheduler, `PickOrder` the order in which it chooses.
  `CredentialRetry` is the class that updates those fields in place, method by method, each proved against its
  function. `RetryLoop` is the loop as a state machine; `Executor` and `StreamExecutor` are the two executors as
  imperative loops, proved to do exactly what the machine does, for every script. `Turns`, `Budget`,
  `Schedule`, `Polls`, `PlainLoop` and `StatusKept` prove facts about all runs; `ObligingHost` shows that the hosts
  some of them assume exist. `Decisions`, `Recovery` and `Replies` say when a turn goes on, waits, fails over or ends,
  in terms of the host's callbacks, the error and the metadata alone. `Sequences` adds the table of live requests, and
  `TableRuns` carries whole runs of the loop to that table.
- **The host** is an adversary: a script lists, call by call, the context's error, the scheduler callbacks with any
  candidate lists, the reply, the runtime metadata, and what becomes of a wait of any length. A finite script is a
  prefix of a run, so a statement about every script is one about every reachable state.
- **Stream startup.** `Json` scans one JSON object byte by byte (RFC 8259, sections 2 to 7); `JsonGrammar` is the
  grammar of those sections as a datatype with its renderings, `JsonComplete` and `JsonSound` prove that the scanner
  accepts exactly those. `StreamStartup` is the inspector and the reader (the event-stream shape is the loose one of
  the code, after sections 9.2.5 and 9.2.6 of the WHATWG HTML standard); `Chunking` proves what cutting the first
  event into chunks can and cannot change. `EventVerdict`, `CodeNumbers` and `StartupReads` say which events, codes
  and reads are failures, `Forwarding` which error a request returns. `Downstream` proves what bytes go out,
  `OpenStreams` which host streams are closed, and `StreamTracking` which of the others a shutdown closes.
- **Lifecycle.** `Lifecycle` has one step per mutex region and per call made after an unlock, so runs are all
  interleavings. `LifecycleRuns` and `LifecycleCauses` prove facts about runs, `LifecycleState` is the class, whose
  `Valid` holds every invariant of the state machine.
- **Arithmetic, errors, configuration.** `Backoff`, `Cooldown`, `ErrorStatus`, `ErrorSearch`, `RetryRules`, `Config`,
  `EffectivePolicy`, `Text`, with `Arith` and `Collections` for facts about numbers and sequences.

Assumptions about the host, all of them:

- Scheduler callbacks for a token happen only while that token's host call is in flight.
- After the reads listed for a stream the host reports an empty end.
- Where a result says that all bytes of a stream are sent, the host sends no more bytes once it has said Done
  (`Downstream.QuietAfterDone`, a hypothesis of that part only).
- The host reopens the lifecycle only after shutdown has returned.

Where code and documentation disagree the model follows the code. README.md:118 of the repository says exhausted
credentials stay excluded for the rest of the request; credential_retry.go:211-219 starts a new round with them, and
credential_retry_test.go:258-259 expects that. `Scheduler.PickRules` and `Budget.BudgetSafety` state the rounds.

Some expectations hold only under a condition, and the condition is proved to be exact:

- The reader returns the first event whole, however it is cut in two, if and only if no proper prefix ends in a blank
  line outside an event line whose text is blank (`Chunking.SmoothExactly`; `Chunking.EarlyCut` is an event for which
  it fails).
- The verdict on the chunks read is the verdict on the whole event if and only if they stay under 16 KiB, or the event
  does not, or it reports no failure (`Chunking.VerdictInvariance`; `Chunking.LargeChunkHidesFailure` is an event for
  which it fails).
- A startup failure that is not retried is forwarded byte for byte if and only if status 200 is not a retryable status
  (`Downstream.StartupFailureDecided`; `Downstream.SuccessStatusWithheld` shows both sides).
- An opened host stream is left unclosed by its executor exactly when the scheduler is on, the reply that carries it
  fails, and no callback of that call dispatched a credential (`OpenStreams.AttemptedUnlessUnselected`,
  `OpenStreams.StreamsAccountedFor`; `OpenStreams.LeftOpenOnce` is such a call).
- The error that ends a loop has the last failure's status if and only if that failure had one, or neither the reason
  nor the whole text names one (`ErrorStatus.TerminationKeepsStatusExactly`; `ErrorStatus.StatusReplaced` is a pair of
  errors for which it fails).

## Model

| member | source | states |
|---|---|---|
| Scheduler.SelectionIsBest | credential_retry.go:231-246 | the selection loop returns an eligible offer that no eligible offer beats, and none only when nothing is eligible |
| Scheduler.SelectionUnique | credential_retry.go:231-246 | that offer is unique, so the order of the host's candidate list does not matter |
| Scheduler.PickRules | credential_retry.go:189-229 | one callback keeps the invariant; the first one of a call dispatches exactly when some offer has an ID, is not excluded, and is the pin when there is one, so exhausted credentials never starve a request; a new round opens only when every offer is exhausted or excluded and one is merely exhausted; a rejection changes only `deferred` and `candidates` |
| PickOrder.PickForemost | credential_retry.go:202-246 | the credential a callback is given has the highest priority of those it may take, and the first ID byte by byte among equals, in this round or in the one that it begins |
| Scheduler.StepsKeepValid | credential_retry.go:74-123 | prepare, retire and failed keep the scheduler invariant, and `excluded` only grows |
| Scheduler.FailureBudget | credential_retry.go:86-123 | a credential stays pinned through as many matching failures as there are retries, and one more exhausts it |
| Scheduler.OtherFailureExcludes | credential_retry.go:86-123 | a failure that was not dispatched or matches no rule puts the pin out for the rest of the request |
| RetryLoop.CallbackRules | credential_retry.go:189-229 | over all callbacks of one host call: the number answered with a credential is at most one, that dispatch is legal, and nothing else changes |
| Decisions.AttemptDecided | main.go:461-496 | after a failed attempt another one is due if and only if the cap allows it and either the failure matches a rule or the host asked for another credential after one callback had been answered; the loop then waits min(initial * 2^(attempt-1), max) milliseconds and goes on unless that wait is cut short; otherwise it ends with that failure, or under the scheduler with an error that names the cap; stated on the host's callbacks, the status and the text alone |
| Decisions.AcceptedExactly | main.go:461-464 | a counted attempt completes the loop exactly when it carries no error to retry and no configured status |
| Replies.ReplyDecided | main.go:576-602 | an answer completes the request exactly when it decodes to a response below 400 that is not configured; a failed call, an undecodable body and an error status are judged and remembered as the errors they stand for |
| Recovery.PolledExactly | credential_retry.go:126-156 | an undispatched failure is waited for if and only if not everything seen is excluded and a cooldown is decoded from the text, or the text has one of the two names and the metadata lists a cooling credential of this request; it then waits for the decoded seconds, else for the least in the metadata, rounded up past a whole second; any other such failure gives up the pin for good, or finds no credential |
| Recovery.UnselectedTurn | main.go:451-460 | what a call that fails without an answered callback does to the whole loop: the same attempt again, the pin excluded, or the end with that error |
| CredentialRetry.Credentials.constructor | credential_retry.go:51-59 | a new scheduler is in its initial state |
| CredentialRetry.Credentials.Prepare | credential_retry.go:74-84 | clears the per-call flags only and reports the pin |
| CredentialRetry.Credentials.Retire | credential_retry.go:107-123 | unpins, and adds the pin to exactly one of the two sets |
| CredentialRetry.Credentials.Failed | credential_retry.go:86-103 | counts a matching failure, retires the credential when its budget is spent, excludes it otherwise |
| CredentialRetry.Credentials.ReleaseForFailover | credential_retry.go:160-171 | releases the pin exactly when the host deferred a second pick and the cap allows another attempt |
| CredentialRetry.Credentials.Select | credential_retry.go:231-246 | the loop over candidates returns the specified selection |
| CredentialRetry.Credentials.Observe | credential_retry.go:202-209 | the candidate set grows by exactly the non-empty offered IDs |
| CredentialRetry.Credentials.Choose | credential_retry.go:189-229 | the callback, statement by statement, is the specified step with the specified response |
| CredentialRetry.Credentials.ShortestCooldown | credential_retry.go:300-314 | the loop over runtime metadata finds the least wait |
| CredentialRetry.Credentials.ReportedRecovery | credential_retry.go:254-315 | where the recovery time comes from, and when there is none |
| CredentialRetry.Credentials.CooldownWait | credential_retry.go:250-329 | the wait before polling again, or none |
| CredentialRetry.Credentials.BoundedWait | credential_retry.go:316-328 | in int64 arithmetic the wait is max(backoff, min(max delay, max(1, seconds) seconds)) for every reported number of seconds |
| CredentialRetry.Credentials.HandleSelectionFailure | credential_retry.go:126-156 | how a failure is classified before it counts as an attempt, and what it does to the pin |
| Cooldown.MinWaitIsLeast | credential_retry.go:300-314 | the wait found is attained by a cooling entry and is least; none is found only when nothing is cooling |
| Cooldown.PollDelayBounds | credential_retry.go:316-328 | a poll waits at least the backoff and at most the configured maximum, without overflow |
| Cooldown.PollDelayExactly | credential_retry.go:316-328 | between the backoff and the maximum a poll waits exactly the reported seconds, and at either bound not beyond it |
| Executor.HostCallbacks | credential_retry.go:189-229 | the callbacks of one host call, in order, are the specified ones |
| Executor.NoteFailure | main.go:465-473 | the status, the remembered error and the rule match of a failed attempt |
| Executor.AfterAttempt | main.go:465-496 | stop with the failure or the cap error, or update the scheduler and wait |
| Executor.MakeCall | main.go:453-460 | prepare, call with callbacks, and classify an undispatched failure |
| Executor.ExecuteTurn | main.go:445-497 | one turn of the loop is one step of the machine |
| Executor.RunModelExecuteWithRetry | main.go:437-498 | for every script the loop ends in the machine's state |
| Turns.TurnShape | main.go:445-497 | what any turn does to attempt number, trace and scheduler, whatever the host does |
| Budget.BudgetSafety | credential_retry.go:86-123 | over every run: at most r+1 dispatches of a credential per round, exactly r+1 matching failures for one in `exhausted`, and no dispatch after any other retirement |
| Budget.CapBoundsCalls | main.go:445-497 | with a cap: attempts and total dispatches within it, and non-poll host calls at most twice the cap less one |
| Budget.UnmatchedFailuresBounded | credential_retry.go:158-171 | failures outside the rules after which the loop goes on number at most the credentials ever offered |
| Schedule.ClosedFormSchedule | credential_retry.go:202-246 | after any obliging calls, and for one more call of which nothing is asked but that it happens and offers the credentials (it may be accepted, reach the cap or be cancelled), every call k of the run, that one included, dispatches the k-th entry of a closed form, rounds and once-only members included; without survivors up to the end of round one |
| Schedule.NextDispatch | credential_retry.go:202-246 | where the scheduler stands decides the next dispatch, whatever becomes of the call that makes it |
| Schedule.UniformSchedule | credential_retry.go:202-246 | without once-only members dispatch k goes to entry (k / (r+1)) mod n in round 1 + k / (n(r+1)), counting k from zero |
| Schedule.FirstRound | credential_retry.go:202-246 | where in round 1 each dispatch of each credential is, once-only members among the others |
| Schedule.FirstRoundLength | credential_retry.go:202-246 | round 1 has r+1 dispatches for every survivor and one for every once-only member |
| Schedule.LaterRounds | credential_retry.go:211-219 | after round 1 the survivors cycle, r+1 dispatches each: entry (j / (r+1)) mod n in round 2 + j / (n(r+1)), for the j-th dispatch after round 1 and n survivors |
| Schedule.RetiredOnce | credential_retry.go:105-123 | a credential whose failures never match is dispatched exactly once, in round 1 |
| ObligingHost.ScheduleAttained | credential_retry.go:202-246 | without a cap and with survivors, any two replies of the host, one matching a rule and one not, make up runs of every length that follow the closed form |
| Polls.PollsAreInvisible | credential_retry.go:125-143 | inserting any number of cooldown polls leaves every later dispatch, attempt number and result unchanged |
| ObligingHost.ConfiguredStatusMatches | main.go:597-602 | a response with a configured status is such a matching reply |
| ObligingHost.OtherStatusDoesNotMatch | main.go:597-602 | without keywords a response with any other error status is such an unmatched reply |
| ObligingHost.PollsHappen | credential_retry.go:125-143 | while a credential may still come back, a host that keeps failing with an error from which a cooldown is read causes any number of polls |
| ObligingHost.MetadataPollsHappen | credential_retry.go:281-318 | so does a host whose error only names an unavailable credential, while the metadata says that one is cooling |
| PlainLoop.EndingsAt | main.go:445-497 | entry i tells whether reply i would end a plain loop at its attempt number |
| PlainLoop.LeastEnding | main.go:445-497 | the number of calls needed is the least index of a reply that ends the loop, and all of them when none does |
| PlainLoop.PlainRetryCount | main.go:445-497 | with `same_auth_retries` 0 and no cancellation the loop makes exactly that many host calls |
| PlainLoop.CancellationStops | main.go:446-451 | after cancellation no further host call starts, and the loop returns |
| PlainLoop.CancelledWaitStops | main.go:490-495 | when the context is done, so that any wait after a failed attempt or a poll is cut short, the loop has ended and makes no further host call |
| StatusKept.FinalErrorKeepsStatus | main.go:445-497 | the final error has the status of the last counted failure whenever that has one, whatever ended the loop |
| ErrorStatus.AttachedStatusIsFound | logic.go:374-382 | a status attached to an error is the one found in it, and its text is unchanged |
| ErrorStatus.RecordedStatus | logic.go:343-382 | recording an error under its own status keeps that status |
| ErrorStatus.TerminationKeepsStatus | logic.go:384-390 | through wrapping and depth-first search the last failure's status wins over the reason's |
| ErrorStatus.TerminationWithoutStatus | logic.go:384-390 | without a status of the last failure the reason's own is found, and else the one named in the whole text |
| ErrorStatus.TerminationKeepsStatusExactly | logic.go:384-390 | the final error has the last failure's status if and only if that is non-zero or neither the reason nor the text names one |
| ErrorStatus.StatusReplaced | logic.go:384-390 | two errors for which the final status is the reason's and not the last failure's |
| ErrorStatus.StartupStatus | stream_startup.go:47-54 | the status of a startup error is found again, and none is invented from its text |
| CodeNumbers.StartupMessage | stream_startup.go:47-52 | the messages of two startup failures are the same exactly when their statuses are, so the message names the status and none of the upstream details |
| ErrorSearch.StatusInOrder | logic.go:361-372 | the structured status is that of the first part with a StatusCode method in the depth-first list of everything wrapped, and there is none without such a part |
| ErrorSearch.StatusInText | logic.go:343-359 | without a structured status, the status is the error status that the expression reads in the text, and only that |
| ErrorSearch.KeywordDecided | logic.go:245-265 | the keyword rule holds if and only if the normal form of a configured keyword occurs in the normal form of the upstream details of the first startup failure wrapped anywhere in the error, or of the message when there is none |
| RetryRules.RetryKeywordFromError | logic.go:245-265 | the first configured keyword contained in the failure's text, empty exactly when none is |
| RetryRules.ShouldRetryFailure | logic.go:230-243 | retry if and only if a rule matches and the cap allows it |
| Backoff.RetryDelay | logic.go:267-290 | the doubling loop in wrapping int64 equals the unbounded power cut at the cap, or saturated without one |
| Backoff.ValidatedDelay | logic.go:267-300 | for a validated policy the wait is min(initial * 2^(attempt-1), max) milliseconds |
| Backoff.DelayDoubles | logic.go:267-290 | the first wait is the initial delay, and each later one is twice the one before, up to the maximum |
| Backoff.DelayMonotone | logic.go:267-290 | later attempts never wait less |
| Config.ValidateRetryConfig | model_overrides.go:16-36 | accepts exactly the policies the loops rely on |
| Config.ValidExactly | model_overrides.go:16-36 | those are the policies without a negative count, with positive ordered delays, and with durations that all survive the conversion to nanoseconds |
| Config.NormalizeList | logic.go:427-442 | the loop with its seen-set computes the normal forms kept, in order |
| Config.KeptExactly | logic.go:427-485 | nothing kept is lost, nothing else appears, nothing appears twice |
| Config.NormalizeModelOverrides | model_overrides.go:38-66 | for every iteration order: accepted exactly when names and policies are valid, with exactly the normalized map and nothing else changed |
| Config.OverridesOrderIndependent | model_overrides.go:43-64 | two iteration orders accept or reject alike, and accept the same configuration |
| Config.FinishConfig | logic.go:143-153 | accepted exactly when policy and overrides are valid; the lists are then in normal form, every other field is as decoded, and every model's policy is valid |
| Config.AcceptedModelsValid | model_overrides.go:68-96 | every model string gets a valid policy with real status codes |
| Config.LookupIgnoresCaseAndPads | model_overrides.go:68-70 | looking a model up ignores case and surrounding space |
| EffectivePolicy.OverrideApplies | model_overrides.go:68-96 | a model with an override, named in any case and padding, runs under each field that the override gives and the decoded configuration's for the others; codes are exactly the real statuses of the list that applies, keywords exactly its non-blank normal forms, each once |
| EffectivePolicy.NoOverrideApplies | model_overrides.go:68-96 | every other model runs under the decoded configuration, with its lists in that form |
| Text.NormalizeKeyIgnoresCaseAndPads | logic.go:540-542 | the normal form ignores case and surrounding space |
| Text.NormalizeKeyIdempotent | logic.go:540-542 | normalizing twice changes nothing |
| Text.TrimExactly | logic.go:540-550 | trimming keeps everything between the outer white space, and the normal form is that in lower case |
| Text.SameLowerExactly | logic.go:540-542 | two texts have the same lower case exactly when they differ in the case of ASCII letters only |
| Lifecycle.RequestIDExactly | logic.go:544-550 | a request ID is what stands between the outer white space when that has at most 128 bytes, and none otherwise |
| Sequences.Isolation | credential_retry.go:21-59 | in every interleaving a request's responses and final state are those of its own steps alone |
| TableRuns.CallbackReaches | credential_retry.go:173-229 | a callback with a live token is always answered, with a credential exactly when the request has none in flight and the host offers one it may use; without a live token it is unhandled and changes nothing |
| TableRuns.TurnIsMoves | credential_retry.go:74-229 | one turn of a retry loop is a sequence of moves on the shared table: prepare, the host's callbacks, then what the class of the call asks for; they hand out the credential that the trace records |
| TableRuns.RunUndisturbed | credential_retry.go:21-59 | in every interleaving with other requests, the callbacks of a whole run are handed exactly the credentials of the run its loop makes alone, in order, and its scheduler ends the same |
| TableRuns.RequestUndisturbed | credential_retry.go:51-59 | a whole request, from beginning to release, in every table and interleaving: its callbacks are handed exactly the credentials of the run its loop makes alone from the start, and nothing of it remains |
| Sequences.Table.BeginCredentialRetry | credential_retry.go:51-59 | without same-credential retries nothing is stored; otherwise a fresh scheduler is added under its token and no other is touched |
| Sequences.Table.OwnerMove | credential_retry.go:74-171 | an owner's prepare, failure, failover or unpin reaches its own scheduler and leaves every other request as it was |
| Sequences.Table.ReleaseCredentials | credential_retry.go:58-58 | removes exactly its token |
| Sequences.Table.PickRetryCredential | credential_retry.go:173-229 | an empty, unknown or released token is unhandled and changes nothing; any other reaches its own scheduler only |
| Lifecycle.NextInv | lifecycle_cgo.go:65-247 | every step keeps the registry invariants: the active entry of an ID is its latest registration not cleaned or dropped, active and pending IDs are disjoint, at most 1024 pending, a registration that lost its entry is cancelled or owed a cancel |
| LifecycleRuns.AlwaysInv | lifecycle_cgo.go:65-247 | every run from a state with the invariants keeps them |
| LifecycleRuns.ReachableInv | lifecycle_cgo.go:34-247 | every state that a new lifecycle can reach, in any interleaving, has the invariants |
| LifecycleRuns.UnderwayPersists | lifecycle_cgo.go:103-122 | a cancel once owed stays owed until it has happened, in every interleaving |
| LifecycleRuns.SupersededAreCancelled | lifecycle_cgo.go:98-107 | when no call is owed, every superseded, cleaned or dropped registration is cancelled |
| LifecycleRuns.CleanupSparesOthers | lifecycle_cgo.go:112-122 | a first or repeated cleanup never removes another registration's entry |
| LifecycleRuns.CancelAfterRegistration | lifecycle_cgo.go:129-159 | a cancel after registration and before cleanup reaches that registration |
| LifecycleRuns.RememberedCancelReaches | lifecycle_cgo.go:92-110 | a remembered cancel reaches the first later registration in time, and its tombstone is spent |
| LifecycleRuns.RememberedCancelLands | lifecycle_cgo.go:92-159 | end to end: once no call is owed, that registration's context is cancelled |
| LifecycleRuns.NoTombstoneNoCancel | lifecycle_cgo.go:94-97 | a registration without a tombstone is owed no cancel |
| LifecycleRuns.TombstonesNeedCancels | lifecycle_cgo.go:139-152 | only a remembering cancel of the same ID lays a tombstone |
| LifecycleRuns.TombstoneSpentOnce | lifecycle_cgo.go:92-110 | one tombstone cancels at most one registration: after a registration, over any run without another remembered cancel of the ID, the next registration is born uncancelled |
| LifecycleCauses.CancelExactly | lifecycle_cgo.go:65-247 | an event starts the cancellation of a registration if and only if it registers or cancels the same ID while that is current, cleans it up, or shuts down; whoever else it concerns |
| LifecycleCauses.SparedIsNotCancelled | lifecycle_cgo.go:65-247 | in every interleaving without such an event a request is never cancelled |
| LifecycleCauses.BornCancelledExactly | lifecycle_cgo.go:92-101 | a new registration is born with a cancel owed if and only if its ID has an unexpired tombstone |
| LifecycleCauses.TombstonesAfter | lifecycle_cgo.go:139-152 | a remembered cancel lasts thirty seconds and keeps every other unexpired tombstone, but for one victim when 1024 are live |
| LifecycleCauses.TasksCounted | lifecycle_cgo.go:169-186 | over every run the stream tasks are those begun less those ended, and after a shutdown none begins |
| LifecycleCauses.ReopenedIsUsable | lifecycle_cgo.go:45-60 | a reopened lifecycle starts empty, and a request registered under its context is alive |
| LifecycleRuns.ClosedAddsNothing | lifecycle_cgo.go:71-74 | once closed, no stream task, registration or stream is added and every context is cancelled |
| LifecycleRuns.ShutdownCompletes | lifecycle_cgo.go:210-247 | a returned shutdown leaves no stream task, cancelled every entry and closed exactly the streams it found, in every interleaving |
| LifecycleState.PluginLifecycle.RegisterLocked | lifecycle_cgo.go:69-101 | the critical section, the entry it supersedes and the tombstone it spends |
| LifecycleState.PluginLifecycle.FireCancel | lifecycle_cgo.go:103-110 | one owed cancel call |
| LifecycleState.PluginLifecycle.RegisterRequest | lifecycle_cgo.go:65-110 | without interference: the whole new state, in which the entry is registered and every cancel call it owed has been made |
| LifecycleState.PluginLifecycle.CancelLocked | lifecycle_cgo.go:133-153 | the critical section of a cancel, eviction included |
| LifecycleState.PluginLifecycle.CancelRequest | lifecycle_cgo.go:129-159 | without interference: the whole new state, in which an active entry is cancelled, or the cancel is remembered, or nothing changes; and its result |
| LifecycleState.PluginLifecycle.CleanupLocked | lifecycle_cgo.go:113-122 | runs once and removes only its own entry |
| LifecycleState.PluginLifecycle.BeginStreamTask | lifecycle_cgo.go:169-180 | refused exactly when closed |
| LifecycleState.PluginLifecycle.EndStreamTask | lifecycle_cgo.go:182-186 | one stream task fewer |
| LifecycleState.PluginLifecycle.TrackHostStream | lifecycle_cgo.go:188-199 | refused exactly when closed, and an empty ID is ignored |
| LifecycleState.PluginLifecycle.UntrackHostStream | lifecycle_cgo.go:201-208 | removes exactly that stream |
| LifecycleState.PluginLifecycle.ShutdownLocked | lifecycle_cgo.go:214-236 | closes, and takes the entries and streams it must call |
| LifecycleState.PluginLifecycle.DrainCancels | lifecycle_cgo.go:238-240 | every taken entry is cancelled |
| LifecycleState.PluginLifecycle.DrainCloses | lifecycle_cgo.go:241-245 | every taken stream gets a close call |
| LifecycleState.PluginLifecycle.ReopenLifecycle | lifecycle_cgo.go:45-60 | a new generation with empty tables, only when closed |
| Json.PrefixesAreOpen | stream_startup.go:113-117 | an object is incomplete in every shorter prefix |
| Json.ExtensionsAgree | stream_startup.go:112-113 | what follows a complete object does not change it |
| JsonComplete.ObjectsAreRead | stream_startup.go:112-113 | every object of the grammar of RFC 8259, sections 2 to 7, rendered with any white space, escapes, numbers and nesting down to 10000 levels, is read exactly to its end |
| JsonSound.OnlyObjectsAreRead | stream_startup.go:112-113 | every text that is read to its end is such an object, which is found and rendered back to the text |
| JsonSound.ScannerIsTheGrammar | stream_startup.go:112-113 | so the scanner accepts a text if and only if it is the rendering of an object of the grammar |
| StreamStartup.ImpliedStatus | stream_startup.go:131-151 | without an error status in the code, the status is the greatest one that the code or the type stands for, and the one named in the message when they stand for none |
| StreamStartup.ExplicitCodeWins | stream_startup.go:131-151 | an error status written as a number in the code is the status, whatever the type and the message say |
| CodeNumbers.CodeNumberExactly | stream_startup.go:131-136 | a code reads as a positive number exactly when it is that number in decimal, behind any zeros or a plus |
| EventVerdict.InspectedFormats | stream_startup.go:73-77 | the formats that are inspected, under every name, case and padding |
| EventVerdict.FailureExactly | stream_startup.go:104-155 | any payload below the limit that contains the whole event: a failure is reported if and only if the decoded event is "error" with an error, or "response.failed" without output and with a response error; its status and text are those of that part's code, type and message |
| EventVerdict.NoEventDecided | stream_startup.go:73-98 | other formats, 16 KiB and more, white space only, comments and other protocols are decided at once, without a failure |
| EventVerdict.OtherDataDecided | stream_startup.go:102-117 | so is data that is not an object, or starts like one and cannot become one |
| EventVerdict.UnfinishedObject | stream_startup.go:78-117 | an object that is still open is waited for exactly until the payload ends in a blank line, of either kind |
| StreamStartup.InspectStreamStartup | stream_startup.go:73-155 | the loop that shortens its data equals the recursive inspector |
| StreamStartup.ReadStreamStartupPayload | stream_startup.go:19-39 | the reader returns what the accumulated chunks and the inspector decide, and how many reads it took |
| StartupReads.ReadsExactly | stream_startup.go:19-39 | for every script of reads: a payload is returned if and only if every read taken is a chunk without an error, and then it is all their bytes; otherwise the last read taken carries the error returned; which read is the last is decided by the inspector and by Done |
| StartupReads.FailedRead | main.go:604-643 | a readable stream fails its attempt exactly when a read of its startup is in error, with that read's error and status |
| StartupReads.FailedReadSendsNothing | main.go:508-573 | such an attempt is not accepted and sends nothing downstream |
| StartupReads.FailedStart | main.go:604-637 | every other reply is a failed attempt, with the error and status of the step that failed |
| Chunking.PendingExactly | stream_startup.go:73-103 | exactly when the inspector waits on a proper prefix of the first event |
| Chunking.WholeEvent | stream_startup.go:104-155 | below the size limit, with the object complete, whatever follows, the verdict is the object's |
| Chunking.ReachBounds | stream_startup.go:19-39 | the boundary meant below is the first one at which the bytes asked for are carried |
| Chunking.ChunkingInvariance | stream_startup.go:19-39 | for every way of cutting the stream, into chunks of any size, the reader returns exactly the chunks up to the first boundary at or past the end of the object, or at or past 16 KiB if that comes first, also when the last of them says Done and whatever reads would follow |
| Chunking.VerdictInvariance | stream_startup.go:73-155 | the verdict on what is read is the verdict on the unsplit event if and only if the payload is under 16 KiB, or the event is not, or it reports no failure |
| Chunking.LargeChunkHidesFailure | stream_startup.go:73-77 | a failure event in one chunk that goes on past 16 KiB is read and not recognised |
| Chunking.SmoothExactly | stream_startup.go:79-103 | the smoothness condition is exact for cuts in two |
| Chunking.EarlyCut | stream_startup.go:79-103 | a concrete event that is returned early when cut after its blank line |
| StreamExecutor.StartHostModelStream | main.go:604-643 | outcome, open stream and host requests of starting a stream |
| StreamExecutor.ForwardRest | main.go:655-683 | the forwarding loop equals the recursive forwarder |
| StreamExecutor.ForwardHostStream | main.go:645-684 | startup payload, rest of the stream, then exactly one close |
| Forwarding.ForwardExactly | main.go:655-683 | forwarding ends at the first read that fails, carries an error, cannot be passed on, says Done or is followed by the context's end; the error returned is that one's, and every payload before it was sent |
| Forwarding.ReturnedError | main.go:539-551 | the accepted call's request returns that error, or the first payload's, and nil when the stream ended well |
| StreamExecutor.RetryableStreamStartupError | stream_startup.go:63-71 | an error exactly when the failure may be retried |
| StreamExecutor.StreamTurn | main.go:508-573 | one turn is one step of the machine and makes exactly the listed requests to the host |
| StreamExecutor.RunModelStreamWithRetry | main.go:500-574 | for every script the loop ends in the machine's state with exactly its requests |
| StreamExecutor.StreamRunsTheLoop | main.go:508-573 | the streaming loop is the same machine with another test of acceptance, so every fact about runs holds for it |
| Downstream.ForwardSends | main.go:655-683 | forwarding sends a beginning of the remaining bytes, and all of them when it ends without an error |
| Downstream.GatherHolds | stream_startup.go:19-39 | the startup payload is exactly what its reads carried |
| Downstream.DownstreamBytes | main.go:508-573 | over every run, without an accepted call nothing is sent; otherwise the run was open and silent before the accepted call, that call ends it, and only a beginning of its own host stream's bytes is sent after it; a nil return means all bytes up to Done were sent |
| Downstream.StartupFailureDecided | main.go:523-551 | the inspector's decision and the one computed again from its error agree: retried without a byte, or forwarded byte for byte |
| Downstream.SuccessStatusWithheld | main.go:523-551 | a configuration for which a failure event is neither retried nor forwarded, because 200 is retryable; without 200 the same event is forwarded |
| OpenStreams.AttemptedUnlessUnselected | main.go:516-522 | a call does not count as an attempt exactly when the scheduler is on, the call fails, and no callback dispatched |
| OpenStreams.TurnCloses | main.go:516-543 | the turn that opens a stream closes that stream once and no other, unless the call fails unselected |
| OpenStreams.StreamsAccountedFor | main.go:508-573 | over every run and for every stream ID: closes equal opens, less the calls that opened it and failed unselected |
| OpenStreams.LeftOpenOnce | main.go:517-522 | such a call exists: the executor ends and its stream is never closed |
| StreamTracking.TurnTracking | main.go:604-643 | what one turn tells the lifecycle: a readable stream is tracked, and untracked again unless the call fails unselected |
| StreamTracking.LeftOpenIsClosedByShutdown | lifecycle_cgo.go:188-247 | a readable stream left open stays on the lifecycle's list, and in every interleaving the next shutdown closes it |
| StreamTracking.ErrorStreamIsNeverClosed | main.go:628-637 | a stream left open that came with an error status was never on the list, so no shutdown closes it |
| StreamTracking.UntrackedIsNotClosed | lifecycle_cgo.go:201-247 | a stream taken off the list is not closed again by a later shutdown, in any interleaving |

## Left out

- The C bridge, buffers, JSON envelopes, registration metadata and header cloning: foreign calls and serialization.
- Logging and diagnostics text: observation only.
- YAML decoding and route decisions: `Config` starts from a decoded value, and `models`, `source_formats` and `enabled` only decide routing.
- The status regular expression, the decoded fields of events and of cooldown errors: parameters of the model. Of the expression only the fact is used that it cannot match a text without a digit.
- Finding the token in request headers: the model starts from the token. Fresh random tokens are distinct by assumption only where a caller reuses none; reusing one replaces its scheduler, as in the code.
- Clocks and timers: times are parameters, and a wait of given length either completes or returns the context's error, as the host's script says.
- Unicode: a `char` stands for one byte, and trimming and case folding are the ASCII ones.
- The wait group is a counter, and a shutdown that waits is a step that is not yet enabled; fairness of the scheduler of goroutines is not modelled, so nothing is said about a shutdown whose stream tasks never end.
- ReopenLifecycle: requires that no shutdown is still draining; the code would replace the wait group under the waiting shutdown, and what follows is not modelled.
- A cleanup is one critical section followed by an owed cancel; the once-guard is the set of cleaned registrations.
- The bodies of the two retry loops are split into a few methods per turn, so that each proof stays small.
- Runs are finite prefixes. Termination is stated as bounds on the number of calls; with no cap, matching failures may go on for ever, as in the code.
