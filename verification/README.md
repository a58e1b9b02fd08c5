# A verified model of the state machines inside mongosh

mongosh is a shell around a REPL, a driver and a telemetry client. This project models the parts of it
that are small machines of their own, and proves in Dafny what they promise over every input and every
run. Classes, loops and fields are kept where the source has them; each method is proved to compute a
function or a state machine that is written down separately, and the promises are proved about that.

- **Terminal input** (`LineTokens`, `LineGate`, `LineByLineInput`). The input lets one line through per
  release and calls back into itself from inside a push. A consumer is a script: the list of calls it
  makes during each push to come. The re-entrant class is proved to compute a flat automaton in which
  nothing is re-entered; conservation, the gate discipline and chunk independence are proved for every
  script and every sequence of calls.
- **Array polyfills** (`JsArrays`, `Polyfills`). Sparse arrays, and callbacks that may change the array
  and throw. Each loop computes the algorithm of ECMA-262 (2023); `reduceRight` is `reduce` over the
  mirror image, `flatMap` is `map` then `flat`.
- **Telemetry** (`AnalyticsQueue`, `Throttle`, `Lockfile`, `TelemetryBuffer`, `SessionCounters`). The
  three-state queue, the fixed-window throttle and its sliding-window bound, the directory lock between
  processes, the two buffers in front of the target, and the counters of a session.
- **Evaluation** (`EvaluationLock`, `AsyncRepl`). The worker's evaluate/interrupt protocol as macrotasks
  and microtasks, and the listener swap of nested asynchronous evaluations.
- **Handle cache** (`JsonText`, `DbCache`). Why `name-JSON(options)` can be read in one way only, and why
  the cache therefore answers like a table keyed by the pair itself.
- **Options and URIs** (`Folds`, `ArgMapper`, `HostList`, `UriGenerator`). Folding options in any order,
  and URI normalization as a fixed point.
- **Shard statistics** (`ShardStats`) and **snake case** (`SnakeCase`).

`Prelude` holds an option type, character classes and one fact about concatenation.

## What turned out not to hold

- In pass-through mode a chunk is pushed in front of whatever is still queued. The order of the text is
  kept for every chunk exactly when nothing is queued (`LineGate.PassThroughConservesIffQueueEmpty`); four
  calls are enough to get there (`LineGate.OvertakingIsReached`).
- A call that leaves the input resumed does not always flush: text is left behind with nothing to hold it
  back exactly when the input is resumed with the gate open, from outside or by the consumer during
  pass-through data (`LineGate.SettledUnlessStranded`); both are reached from the start
  (`LineGate.StrandingIsReached`).
- Two contenders for a stale lock can both end up holding it (`Lockfile.TwoContendersBothHold`), and so can
  two processes without any racing contender, when a third unlocks so late that its directory was stale
  and has been replaced (`Lockfile.LateUnlockBreaks`). A removal, by a contender or by a process that
  unlocks, leads to that exactly when the directory was made again in between and its maker is alive
  (`Lockfile.RemovalBreaksIffRecreated`).
- When an evaluation ends with an exit event to pass on while another one is already queued for the next
  tick, the original exit listeners can be called twice: two nested evaluations that both heard one and end
  before the tick are enough (`AsyncRepl.BothPassOn`). When that never happens they are called exactly once
  (`AsyncRepl.ExitReachesOriginalsOnce`), and for the part of a run behind its last tick the condition is
  exact (`AsyncRepl.OnceIffUndoubledAfterTicks`).
- `mapCliToDriver` depends on the order of its keys exactly when `csfleLibraryPath` and
  `cryptSharedLibPath` are both given with different values (`ArgMapper.OrderIndependentIffNoConflict`).
- `validateHostSeedList` is a fixed point on its own output exactly when the fixed port is a number, apart
  from a fixed port with a line break in it (`HostList.IdempotentIffNumericPort`); `abc` is added twice
  (`HostList.OddPortIsAddedAgain`). It rejects its own output exactly when the fixed port is not a number
  but ends in a colon and digits (`HostList.FailsOnOwnOutputIff`), as `a:1` does
  (`HostList.OddPortIsRejectedAgain`).
- A generated URI is accepted again unchanged, unless `--host` named a replica set and no hosts
  (`UriGenerator.GenerateUriIsFixedPoint`), as in `rs/` (`UriGenerator.NoHostsComeBackRejected`).
- A URI given by the user keeps all its parts and parameters exactly when the host option gives neither a
  replica set name nor several hosts (`UriGenerator.UserParametersAreKept`). Otherwise the whole URI ends up
  encoded in the path: `--host r/h` leaves the host `h` and the parameter `replicaSet=r` and no other
  (`UriGenerator.UriIsLostBehindHostList`).

The evaluate/interrupt protocol does hold, but only because microtasks drain before the next message:
`EvaluationLock.EarlyMessageFreesLaterLock` shows what a different event loop would do to it.

## Model

| member | source | states |
|---|---|---|
| LineTokens.EnqueueCanonical | packages/cli-repl/src/line-by-line-input.ts:119-140 | queueing one character keeps the queue a canonical tokenization and adds just this character to its text |
| LineTokens.CanonicalIsTokenize | packages/cli-repl/src/line-by-line-input.ts:119-140 | a canonical queue is the longest-match tokenization of its text, hence determined by it |
| LineTokens.CanonicalMeans | packages/cli-repl/src/line-by-line-input.ts:119-140 | character by character: the end of the input, the three line breaks, and maximal runs of everything else but U+0003 and U+0004 |
| LineTokens.TokenEndsLineIff | packages/cli-repl/src/line-by-line-input.ts:5-5 | a token ends a line if and only if it is LF, CR or CR LF, and it holds as many line breaks |
| LineGate.FlushConserves | packages/cli-repl/src/line-by-line-input.ts:170-191 | a flush moves text from the queue to the output without changing their concatenation |
| LineGate.AbsorbConserves | packages/cli-repl/src/line-by-line-input.ts:117-141 | a chunk adds its non-control text to the queue and sends its control characters straight out |
| LineGate.StepConserves | packages/cli-repl/src/line-by-line-input.ts:93-151 | what each call does to the text, in blocking and in pass-through mode; control characters are never reordered |
| LineGate.Conservation | packages/cli-repl/src/line-by-line-input.ts:93-191 | over every run in which pass-through data meets an empty queue, output text followed by queued text is the input text |
| LineGate.PassThroughConservesIffQueueEmpty | packages/cli-repl/src/line-by-line-input.ts:145-151 | pass-through mode keeps the order of every chunk if and only if nothing is queued |
| LineGate.OvertakingIsReached | packages/cli-repl/src/line-by-line-input.ts:104-151 | a run from the start in which any two different characters come out in the wrong order |
| LineGate.BlockingRun | packages/cli-repl/src/line-by-line-input.ts:109-115 | a run that never disables blocking never has data overtake the queue |
| LineGate.RunGated | packages/cli-repl/src/line-by-line-input.ts:153-191 | over every run the forwarding flag is what the history of line endings and releases says, and queued entries only pass an open gate |
| LineGate.DisciplineBoundsLines | packages/cli-repl/src/line-by-line-input.ts:9-24 | a disciplined blocking history has at most one line ending more than releases, and none more while the gate is open |
| LineGate.OneLinePerRelease | packages/cli-repl/src/line-by-line-input.ts:9-24 | every blocking run from the start: the line breaks in the output (each LF, and each CR without one behind it) are at most one more than the calls of `nextLine`; all text conserved, control characters in order |
| LineGate.ReleasesAreCalls | packages/cli-repl/src/line-by-line-input.ts:93-96 | each release in the history is one call of `nextLine`, from outside or by the consumer |
| LineGate.OnlyInterruptsOvertake | packages/cli-repl/src/line-by-line-input.ts:131-140 | while forwarding is withheld U+0003 and U+0004 come out at once, and every other character is queued |
| LineGate.NoReleaseIsLost | packages/cli-repl/src/line-by-line-input.ts:93-143 | when a release, the end of blocking or blocking-mode data returns, queued text is held back only by a shut gate or a paused input |
| LineGate.SettledUnlessStranded | packages/cli-repl/src/line-by-line-input.ts:93-151 | exactly which outermost calls leave queued text that nothing holds back, told from the state and the consumer's reactions: those that resume the input with the gate open |
| LineGate.StrandingIsReached | packages/cli-repl/src/line-by-line-input.ts:93-151 | two runs from the start that leave such text behind, one resuming from outside and one during pass-through data |
| LineGate.ReleaseForwardsOneLine | packages/cli-repl/src/line-by-line-input.ts:170-191 | with a consumer that asks for nothing, a release lets out exactly the entries up to the first line ending |
| LineGate.ReleaseForwardsFirstLine | packages/cli-repl/src/line-by-line-input.ts:170-191 | the same on characters: the text up to and including its first line break |
| LineGate.FirstLineComesThrough | packages/cli-repl/src/line-by-line-input.ts:33-40 | the first line comes through without a release, whatever the chunk |
| LineGate.GateShutByBreak | packages/cli-repl/src/line-by-line-input.ts:185-187 | an entry shuts the gate if and only if it is one of the three line breaks |
| LineGate.ChunkIndependence | packages/cli-repl/src/line-by-line-input.ts:117-143 | while forwarding is withheld two chunks have the effect of their concatenation, and the queue is the tokenization of the text |
| LineByLineInput.LineByLineInput.constructor | packages/cli-repl/src/line-by-line-input.ts:33-40 | starts forwarding, blocking, with an empty queue |
| LineByLineInput.LineByLineInput.NextLine | packages/cli-repl/src/line-by-line-input.ts:93-96 | opens the gate and flushes, but leaves the flush to the one under way when inside a push |
| LineByLineInput.LineByLineInput.EnableBlockOnNewLine | packages/cli-repl/src/line-by-line-input.ts:99-101 | switches blocking on and changes nothing else |
| LineByLineInput.LineByLineInput.DisableBlockOnNewline | packages/cli-repl/src/line-by-line-input.ts:104-107 | switches blocking off and flushes unless inside a push |
| LineByLineInput.LineByLineInput.OnData | packages/cli-repl/src/line-by-line-input.ts:109-115 | data is one step of the automaton |
| LineByLineInput.LineByLineInput.ForwardAndBlockOnNewline | packages/cli-repl/src/line-by-line-input.ts:117-143 | the loop over the characters absorbs the chunk and then flushes, although every push may call back |
| LineByLineInput.LineByLineInput.Flush | packages/cli-repl/src/line-by-line-input.ts:170-191 | computes the flat flush at the outermost level and nothing inside a push |
| LineByLineInput.LineByLineInput.Push | packages/cli-repl/src/line-by-line-input.ts:214-221 | logs the push, runs the consumer's reactions, and restores the nesting count |
| LineByLineInput.LineByLineInput.Replay | packages/cli-repl/src/line-by-line-input.ts:93-191 | any sequence of outside calls on the re-entrant class is a run of the flat automaton |
| Polyfills.ForEach | packages/async-rewriter2/src/runtime-support.nocov.js:9-64 | refines section 23.1.3.15 of ECMA-262 |
| JsArrays.ForEachVisits | packages/async-rewriter2/src/runtime-support.nocov.js:9-64 | whatever the callback does to the array: calls in ascending order below the entry length, each with an index that is present at that moment and its value then, and no present index left out |
| JsArrays.ForEachNotesPresent | packages/async-rewriter2/src/runtime-support.nocov.js:9-64 | a callback that leaves the array alone is called once for each present element, in order |
| JsArrays.WalkVisits | packages/async-rewriter2/src/runtime-support.nocov.js:9-372 | the calls of all seven algorithms, with holes visited or not, up to the one that returns or throws |
| Polyfills.Map | packages/async-rewriter2/src/runtime-support.nocov.js:67-150 | refines section 23.1.3.21: holes stay holes, the length is fixed at entry |
| Polyfills.HasSome | packages/async-rewriter2/src/runtime-support.nocov.js:153-173 | refines section 23.1.3.29 |
| Polyfills.Every | packages/async-rewriter2/src/runtime-support.nocov.js:176-241 | refines section 23.1.3.6 |
| Polyfills.Filter | packages/async-rewriter2/src/runtime-support.nocov.js:244-280 | refines section 23.1.3.8: the preallocated array cut to size is the array grown element by element |
| Polyfills.Find | packages/async-rewriter2/src/runtime-support.nocov.js:283-326 | refines section 23.1.3.9: holes are read as undefined |
| Polyfills.FindIndex | packages/async-rewriter2/src/runtime-support.nocov.js:329-372 | refines section 23.1.3.10 |
| Polyfills.ReduceLeft | packages/async-rewriter2/src/runtime-support.nocov.js:375-429 | refines section 23.1.3.24, with the error for an empty array |
| Polyfills.ReduceFromRight | packages/async-rewriter2/src/runtime-support.nocov.js:432-460 | refines section 23.1.3.25, with the error for an empty array |
| Polyfills.FlatMap | packages/async-rewriter2/src/runtime-support.nocov.js:509-511 | mapping everything and then flattening refines section 23.1.3.14, which flattens as it maps |
| JsArrays.ReduceRightIsMirroredReduce | packages/async-rewriter2/src/runtime-support.nocov.js:375-460 | reducing from the right is reducing the mirror image from the left, with or without an initial value, whatever the callback does to the array |
| JsArrays.ReduceIsForEach | packages/async-rewriter2/src/runtime-support.nocov.js:375-429 | `reduce` makes the calls of `forEach`, with the accumulator in the state |
| JsArrays.ReduceFoldsPresent | packages/async-rewriter2/src/runtime-support.nocov.js:375-429 | for callbacks that leave the array alone, the fold of the present elements from the left; an error if and only if there are none and no initial value |
| JsArrays.ReduceRightFoldsPresent | packages/async-rewriter2/src/runtime-support.nocov.js:432-460 | the same from the right |
| JsArrays.MapThenFlat | packages/async-rewriter2/src/runtime-support.nocov.js:509-511 | the same calls, the same error or the same flattened array, from any index on |
| JsArrays.FlatMapIsMapThenFlat | packages/async-rewriter2/src/runtime-support.nocov.js:509-511 | `map` then `flat` equals `flatMap`, also when the callback throws half-way |
| JsArrays.FlatOpensOnce | packages/async-rewriter2/src/runtime-support.nocov.js:509-511 | `flat` opens arrays one level deep, drops the holes of both levels and keeps the order |
| JsArrays.SomeIffAccepted | packages/async-rewriter2/src/runtime-support.nocov.js:153-173 | for callbacks that leave the array alone, true if and only if a present element is accepted |
| JsArrays.EveryIffAllAccepted | packages/async-rewriter2/src/runtime-support.nocov.js:176-241 | true if and only if every present element is accepted |
| JsArrays.FindIsFirstAccepted | packages/async-rewriter2/src/runtime-support.nocov.js:283-372 | the first accepted index, holes included, and the value there; -1 and undefined when there is none |
| JsArrays.FilterKeepsAccepted | packages/async-rewriter2/src/runtime-support.nocov.js:244-280 | the accepted present values, in order and without holes |
| JsArrays.MapAnswersEach | packages/async-rewriter2/src/runtime-support.nocov.js:67-150 | the callback's answer in the place of every present element, and the same holes |
| AnalyticsQueue.Queue.DoPush | packages/logging/src/analytics-helpers.ts:21-33 | held while paused, applied while enabled, forgotten while disabled |
| AnalyticsQueue.Queue.DoEnable | packages/logging/src/analytics-helpers.ts:34-41 | applies what was held, in order |
| AnalyticsQueue.Queue.DoDisable | packages/logging/src/analytics-helpers.ts:42-45 | forgets what was held |
| AnalyticsQueue.Queue.DoPause | packages/logging/src/analytics-helpers.ts:46-48 | only changes the state |
| AnalyticsQueue.Queue.Perform | packages/logging/src/analytics-helpers.ts:14-52 | after any run every event is applied, waiting or lost as the first enable or disable after its push decided, in push order |
| AnalyticsQueue.FateDecides | packages/logging/src/analytics-helpers.ts:14-52 | the same of the queue as a function of the calls |
| Throttle.OfferKeepsValid | packages/logging/src/analytics-helpers.ts:163-168 | one offered event keeps numbering, windows and times of the emissions consistent |
| Throttle.WindowBound | packages/logging/src/analytics-helpers.ts:261-277 | a window forwards at most `max(rate, 1)` events and windows start more than a timeframe apart |
| Throttle.SlidingWindowBound | packages/logging/src/analytics-helpers.ts:163-277 | every closed interval of a timeframe sees at most `2 * max(rate, 1)` forwarded events, over every run from every restored state |
| Throttle.WindowIsFilled | packages/logging/src/analytics-helpers.ts:163-277 | within one window exactly as many events are forwarded as the rate leaves room for |
| Throttle.NextWindowOpens | packages/logging/src/analytics-helpers.ts:261-277 | behind its end the next event is forwarded and opens the next window |
| Throttle.TwoWindowsCanMeet | packages/logging/src/analytics-helpers.ts:261-277 | a run that reaches twice the rate within one timeframe, so the bound is sharp |
| Throttle.ThrottledAnalytics.ShouldEmitAnalyticsEvent | packages/logging/src/analytics-helpers.ts:261-277 | resets an expired window and allows the event, otherwise compares the count with the rate |
| Throttle.ThrottledAnalytics.Apply | packages/logging/src/analytics-helpers.ts:163-168 | offers one event: emits and counts it when allowed |
| Throttle.ThrottledAnalytics.ApplyAll | packages/logging/src/analytics-helpers.ts:34-41 | offers the events that were held, in order |
| Lockfile.StepKeepsValid | packages/logging/src/analytics-helpers.ts:120-160 | every file-system step under the two provisos keeps holders fresh, unique and unthreatened |
| Lockfile.AtMostOneHolder | packages/logging/src/analytics-helpers.ts:120-160 | over every interleaving of any number of processes in which directories are only removed by those who know them, at most one live process holds the lock |
| Lockfile.AtMostOneHolderInTime | packages/logging/src/analytics-helpers.ts:120-160 | the same when holders refresh and unlock before staleness, with a proviso on contenders only |
| Lockfile.RemovalBreaksIffRecreated | packages/logging/src/analytics-helpers.ts:111-157 | a removal by a contender or by an unlock puts the next process beside a holder if and only if the directory was made again and its maker is alive |
| Lockfile.LateUnlockBreaks | packages/logging/src/analytics-helpers.ts:111-118 | the run in which a late unlock removes the directory of the next holder, every step before it being allowed |
| Lockfile.TwoContendersBothHold | packages/logging/src/analytics-helpers.ts:151-157 | the run in which two contenders see the same stale directory and both take the lock |
| Lockfile.FreeLockIsTaken | packages/logging/src/analytics-helpers.ts:120-134 | a process that finds no directory holds the lock, with a directory of this moment |
| Lockfile.TakenLockIsJudged | packages/logging/src/analytics-helpers.ts:145-158 | a fresh directory refuses the next process, a stale one is taken over |
| Lockfile.HolderKeepsOrFrees | packages/logging/src/analytics-helpers.ts:111-143 | a refresh keeps the lock fresh for as long again, an unlock leaves it free |
| TelemetryBuffer.LoggingAndTelemetry.Track | packages/logging/src/logging-and-telemetry.ts:291-328 | queued for the logger, queued for the device id, or delivered, after everything tracked before |
| TelemetryBuffer.LoggingAndTelemetry.Emit | packages/logging/src/logging-and-telemetry.ts:275-281 | a bus event waits or its listener runs, in emission order |
| TelemetryBuffer.LoggingAndTelemetry.RunPendingEvent | packages/logging/src/logging-and-telemetry.ts:215-217 | running one pending callback lowers the outstanding work although it may append to the queue |
| TelemetryBuffer.LoggingAndTelemetry.RunAndClearPendingBusEvents | packages/logging/src/logging-and-telemetry.ts:213-219 | the drain ends, tracks what the listeners in the queue track, and leaves nothing buffered |
| TelemetryBuffer.LoggingAndTelemetry.RunAndClearPendingTelemetryEvents | packages/logging/src/logging-and-telemetry.ts:221-227 | delivers what waited for the device id, in order |
| TelemetryBuffer.LoggingAndTelemetry.DeviceIdResolved | packages/logging/src/logging-and-telemetry.ts:178-188 | tracks the identify event and stops buffering for the device id |
| TelemetryBuffer.LoggingAndTelemetry.AttachLogger | packages/logging/src/logging-and-telemetry.ts:190-205 | refused while a logger is attached, otherwise drains the bus events |
| TelemetryBuffer.LoggingAndTelemetry.Flush | packages/logging/src/logging-and-telemetry.ts:135-176 | tracks the end of the session and drains the bus events |
| TelemetryBuffer.LoggingAndTelemetry.DetachLogger | packages/logging/src/logging-and-telemetry.ts:207-211 | goes back to the dummy logger and flushes |
| TelemetryBuffer.LoggingAndTelemetry.Perform | packages/logging/src/logging-and-telemetry.ts:135-328 | in every reachable state delivered, waiting for the logger and waiting for the device id are the `track` calls in order, as the happenings make them; all are delivered once both have come |
| TelemetryBuffer.EverythingIsTracked | packages/logging/src/logging-and-telemetry.ts:275-328 | the happenings track each of their events once, now or when a waiting listener runs, and in order when nothing is buffered |
| SessionCounters.TallyEntries | packages/logging/src/helpers.ts:42-56 | the multiset iterates over each entry once, in the order of first addition |
| SessionCounters.TallyTotal | packages/logging/src/helpers.ts:42-45 | its counts are the numbers of additions |
| SessionCounters.MultiSet.Add | packages/logging/src/helpers.ts:42-45 | the entries are the tally of everything added since the last clear |
| SessionCounters.CountersMatchTrace | packages/logging/src/logging-and-telemetry.ts:456-475 | over every trace each counter is the number of `use` events and of depth-0 async calls in evaluations that finished, attributed as at their finish |
| SessionCounters.KeysMatchTrace | packages/logging/src/logging-and-telemetry.ts:456-792 | the key log is, in order, each finished evaluation's depth-0 async calls once and each `use`; evaluations are counted when they finish |
| SessionCounters.SessionState.OnEvaluateFinished | packages/logging/src/logging-and-telemetry.ts:763-792 | the loop over the multiset adds the tally to the right counter and the keys to the sequence |
| SessionCounters.SessionState.On | packages/logging/src/logging-and-telemetry.ts:740-792 | each bus event is one step of the counters |
| SessionCounters.SessionState.Observe | packages/logging/src/logging-and-telemetry.ts:456-475 | after any trace counters and key log match it, the sequence is the first hundred keys, and it is marked truncated if and only if there were more |
| EvaluationLock.RunKeepsValid | packages/node-runtime-worker-thread/src/worker-runtime.ts:127-199 | every event-loop run keeps lock, races, microtasks, settlements and interrupts consistent |
| EvaluationLock.AtMostOneAwaits | packages/node-runtime-worker-thread/src/worker-runtime.ts:127-181 | one evaluation awaits at most, each call settles exactly once when it is over, and as interrupted if and only if an interrupt hit it |
| EvaluationLock.WinnerIsAnswered | packages/node-runtime-worker-thread/src/worker-runtime.ts:163-180 | over every run: a call whose race is won by a result is answered with its value, by a rejection is rejected with it, by an interrupt says so |
| EvaluationLock.NewCallIsAnswered | packages/node-runtime-worker-thread/src/worker-runtime.ts:127-180 | over every run: a new call is refused while one awaits, fails as its code threw, or says that it was killed |
| EvaluationLock.InterruptReturnsIffAwaiting | packages/node-runtime-worker-thread/src/worker-runtime.ts:197-199 | after every run `interrupt` returns true if and only if an evaluation awaits its result |
| EvaluationLock.BusyIffAwaiting | packages/node-runtime-worker-thread/src/worker-runtime.ts:128-132 | after every run a call is refused if and only if another one awaits |
| EvaluationLock.FinallyFreesOwnLockOnly | packages/node-runtime-worker-thread/src/worker-runtime.ts:166-170 | in every run the unlock in `finally` finds its own lock or none, and nothing is left pending behind it |
| EvaluationLock.DrainSettles | packages/node-runtime-worker-thread/src/worker-runtime.ts:166-181 | draining the microtasks settles every call whose race was won |
| EvaluationLock.EarlyMessageFreesLaterLock | packages/node-runtime-worker-thread/src/worker-runtime.ts:166-170 | were messages handled before microtasks drained, a later evaluation would be interrupted by an earlier one |
| EvaluationLock.Lock.DoLock | packages/node-runtime-worker-thread/src/lock.ts:10-19 | takes a free lock and refuses a taken one |
| EvaluationLock.Lock.DoUnlock | packages/node-runtime-worker-thread/src/lock.ts:21-30 | frees the lock, resolves its promise, and says whether there was one |
| EvaluationLock.WorkerRuntime.Evaluate | packages/node-runtime-worker-thread/src/worker-runtime.ts:127-167 | the synchronous part is one step; a killed evaluation adds nothing to the require cache |
| EvaluationLock.WorkerRuntime.RestoreRequireCache | packages/node-runtime-worker-thread/src/worker-runtime.ts:152-161 | forgets exactly the modules that are new, whatever else happened to the cache |
| EvaluationLock.WorkerRuntime.Interrupt | packages/node-runtime-worker-thread/src/worker-runtime.ts:197-199 | one step; the result says whether a lock was held |
| EvaluationLock.WorkerRuntime.RunMicrotask | packages/node-runtime-worker-thread/src/worker-runtime.ts:166-181 | the rest of `evaluate` behind its `await` unlocks and settles by the winner of the race |
| AsyncRepl.ProcessKeepsShape | packages/cli-repl/src/async-repl.ts:175-239 | each armed SIGINT listener is in one of the saved or current lists at most, whenever it was armed |
| AsyncRepl.ExitsKeepShape | packages/cli-repl/src/async-repl.ts:205-250 | an exit listener is used up exactly when its evaluation has an exit event to pass on, and an event on its way stays on its way |
| AsyncRepl.EvaluationRestores | packages/cli-repl/src/async-repl.ts:55-65 | after any nested evaluations the listeners are back in order, raw mode and an untouched prompt are restored, and no original exit listener was called |
| AsyncRepl.OriginalsAreOutOfReach | packages/cli-repl/src/async-repl.ts:175-210 | while anything is evaluated no event reaches a listener that was there before |
| AsyncRepl.ExitIsDeferred | packages/cli-repl/src/async-repl.ts:205-250 | an exit event is pending after the outermost evaluation if and only if one arrived during it |
| AsyncRepl.HeardInTheEnd | packages/cli-repl/src/async-repl.ts:205-250 | over every run the restored originals hear as many exit events as ticks are queued in the end, none without an exit event |
| AsyncRepl.LastLeaveDecides | packages/cli-repl/src/async-repl.ts:224-250 | they hear exactly one if and only if, before the last evaluation ends, one tick is queued or this evaluation brings the only one |
| AsyncRepl.ExitReachesOriginalsOnce | packages/cli-repl/src/async-repl.ts:205-250 | any number of exit events reach the restored original listeners exactly once when no evaluation ends with one to pass on while another is queued |
| AsyncRepl.OnceIffUndoubledAfterTicks | packages/cli-repl/src/async-repl.ts:205-250 | exactly when: behind the last tick of the run at most one is queued, and no evaluation ends with one to pass on while another is queued |
| AsyncRepl.OnceIffUndoubled | packages/cli-repl/src/async-repl.ts:205-250 | for runs without a tick the condition is exact by itself |
| AsyncRepl.BothPassOn | packages/cli-repl/src/async-repl.ts:248-250 | an outer and an inner evaluation that both hear an exit event and end before the tick: the originals are called twice, the second time only those that are not `once` |
| AsyncRepl.Repl.DoEnter | packages/cli-repl/src/async-repl.ts:127-217 | saves the lists, installs its own listeners, empties the prompt, leaves raw mode |
| AsyncRepl.Repl.DoArm | packages/cli-repl/src/async-repl.ts:219-221 | installs the process listener once the evaluator has returned |
| AsyncRepl.Repl.DoLeave | packages/cli-repl/src/async-repl.ts:224-251 | the `finally` block puts everything back and passes on a pending exit event |
| AsyncRepl.Repl.EmitExit | packages/cli-repl/src/async-repl.ts:163-166 | the innermost evaluation notes the event; without one the listeners hear it |
| AsyncRepl.Repl.RunTick | packages/cli-repl/src/async-repl.ts:248-250 | the deferred exit event is emitted to whoever listens by then |
| JsonText.StringifyUnique | packages/service-provider-node-driver/src/node-driver-service-provider.ts:586 | two JSON values with texts of which one continues the other up to a delimiter are the same value |
| JsonText.ScanStringify | packages/service-provider-node-driver/src/node-driver-service-provider.ts:586 | a scanner that knows only strings, escapes and minus signs ends a JSON text outside every string |
| JsonText.NoInnerObject | packages/service-provider-node-driver/src/node-driver-service-provider.ts:586 | no JSON text ends with a minus sign and another whole object |
| JsonText.KeyInjective | packages/service-provider-node-driver/src/node-driver-service-provider.ts:586 | the cache key determines the database name and the options, for arbitrary names |
| DbCache.DbKeepsValid | packages/service-provider-node-driver/src/node-driver-service-provider.ts:585-595 | a request keeps the table equal to what this epoch's requests were answered with |
| DbCache.BarrierKeepsValid | packages/service-provider-node-driver/src/node-driver-service-provider.ts:723-727 | closing or resetting starts with an empty table |
| DbCache.CacheIsTransparent | packages/service-provider-node-driver/src/node-driver-service-provider.ts:585-614 | over every run two requests get the same handle if and only if name and options agree and nothing was closed or reset in between; handles belong to the current client |
| DbCache.NodeDriverServiceProvider.GetDBCache | packages/service-provider-node-driver/src/node-driver-service-provider.ts:607-614 | returns the table of the current client and makes it when it is missing |
| DbCache.NodeDriverServiceProvider.Db | packages/service-provider-node-driver/src/node-driver-service-provider.ts:585-595 | returns the cached handle or makes and stores a new one |
| DbCache.NodeDriverServiceProvider.Close | packages/service-provider-node-driver/src/node-driver-service-provider.ts:723-727 | replaces the table of the current client |
| DbCache.NodeDriverServiceProvider.ResetConnectionOptions | packages/service-provider-node-driver/src/node-driver-service-provider.ts:1438-1445 | a new client takes over and the old tables stay behind |
| ArgMapper.WritesCommute | packages/arg-parser/src/arg-mapper.ts:11-177 | nested setters at diverging paths commute, whatever was there before |
| ArgMapper.HostsStay | packages/arg-parser/src/arg-mapper.ts:154-177 | no option changes the hosts that `oidcTrustedEndpoint` reads |
| ArgMapper.TargetsDiverge | packages/arg-parser/src/arg-mapper.ts:182-253 | two options write at diverging paths unless they are the two names of the library path |
| ArgMapper.OptionsCommute | packages/arg-parser/src/arg-mapper.ts:182-261 | any two options that do not conflict can be applied in either order |
| ArgMapper.OrderIndependentIffNoConflict | packages/arg-parser/src/arg-mapper.ts:271-284 | every order of the keys gives the same record if and only if the two library paths are not both given with different values |
| ArgMapper.OptionsAreThere | packages/arg-parser/src/arg-mapper.ts:182-284 | in the end every given option is found in its documented place with its documented value |
| ArgMapper.OthersStay | packages/arg-parser/src/arg-mapper.ts:271-284 | everything that no given option is about is as it was |
| ArgMapper.MapCliToDriver | packages/arg-parser/src/arg-mapper.ts:271-284 | the loop folds the options that have a value |
| HostList.DoValidateHostSeedList | packages/arg-parser/src/uri-generator.ts:109-132 | the loop normalizes host by host and fails on the first port that differs |
| HostList.SplitJoined | packages/arg-parser/src/uri-generator.ts:117-118 | the expression splits a joined host and numeric port where they were joined |
| HostList.NormalizeAnswers | packages/arg-parser/src/uri-generator.ts:114-129 | a host keeps its port, which must not differ from a fixed one, or gets the fixed one |
| HostList.ValidationIsIdempotent | packages/arg-parser/src/uri-generator.ts:109-132 | with a numeric fixed port, or none, the result is accepted again unchanged |
| HostList.IdempotentIffNumericPort | packages/arg-parser/src/uri-generator.ts:109-132 | for every list and fixed port, exactly when that is so |
| HostList.OddPortIsAddedAgain | packages/arg-parser/src/uri-generator.ts:122-129 | a fixed port that is no number is appended a second time |
| HostList.FailsOnOwnOutputIff | packages/arg-parser/src/uri-generator.ts:114-129 | validation fails on its own output if and only if the fixed port is one line, no number, and ends in a colon and digits |
| HostList.OddPortIsRejectedAgain | packages/arg-parser/src/uri-generator.ts:114-129 | host `h` with the fixed port `a:1` |
| UriGenerator.DefaultUri | packages/arg-parser/src/uri-generator.ts:139-248 | without a specifier: the host in front of the first colon of the host option or 127.0.0.1, and its own port, the port option or 27017; fails exactly on an invalid character or two different ports |
| UriGenerator.AddressUri | packages/arg-parser/src/uri-generator.ts:262-302 | `host.name`, `host:port`, `host/db` and `host:port/db` give these parts, and conflict with host and port options |
| UriGenerator.NameIsDatabase | packages/arg-parser/src/uri-generator.ts:262-302 | a lone name without a dot is the database, with host and port from the options |
| UriGenerator.TextIsDatabase | packages/arg-parser/src/uri-generator.ts:267-302 | so is any other text without a character that no database name has |
| UriGenerator.NoUri | packages/arg-parser/src/uri-generator.ts:267-277 | any other text with such a character is refused |
| UriGenerator.AddressMatches | packages/arg-parser/src/uri-generator.ts:264-265 | the expression takes an address apart where it was put together |
| UriGenerator.HostListIsRead | packages/arg-parser/src/uri-generator.ts:180-206 | a host option of a replica set name and hosts, or of hosts, is read as these |
| UriGenerator.HostListOnly | packages/arg-parser/src/uri-generator.ts:180-206 | nothing else is read as a host list: every host that is read is a name or an address in brackets, perhaps with a port, and one slash at most is read, behind the name of the replica set |
| UriGenerator.UriIsRefusedIff | packages/arg-parser/src/uri-generator.ts:44-87 | exactly when a given URI is refused, and why |
| UriGenerator.GeneratedIsNormal | packages/arg-parser/src/uri-generator.ts:208-322 | each of the five ways ends in a string that needs no further parameter, but for an empty host list |
| UriGenerator.GenerateUriIsFixedPoint | packages/arg-parser/src/uri-generator.ts:208-322 | a generated URI given back as the only option comes back unchanged, and is rejected exactly when the host option named a replica set and no hosts |
| UriGenerator.NoHostsComeBackRejected | packages/arg-parser/src/uri-generator.ts:231-239 | the host option `rs/` |
| UriGenerator.NormalIsFixed | packages/arg-parser/src/uri-generator.ts:208-224 | which connection strings come back unchanged, in terms of their hosts and parameters |
| UriGenerator.UserParametersAreKept | packages/arg-parser/src/uri-generator.ts:208-260 | with any other options, scheme, credentials, hosts, path and parameters of a given URI are kept if and only if the host option gives no host list; then only missing parameters are added, and otherwise only the encoded path is left of it |
| UriGenerator.HostListKeepsIffSame | packages/arg-parser/src/uri-generator.ts:231-239 | leaving the path aside, a host list keeps the URI, or its parameters, if and only if it would have said the same |
| UriGenerator.UriIsLostBehindHostList | packages/arg-parser/src/uri-generator.ts:231-239 | `--host r/h` with any URI: the host `h`, the parameter `replicaSet`, and the encoded URI as the path |
| UriGenerator.HostListIsValidated | packages/arg-parser/src/uri-generator.ts:231-239 | a host list fails exactly when its ports do, keeps hosts and replica set name, and passes again under the exact condition |
| ShardStats.FieldOrderDoesNotMatter | packages/shell-api/src/collection.ts:1756-1842 | the totals are the same for every order of the fields within each shard and of the entries within `indexSizes` and `timeseries` |
| ShardStats.ShardOrderDoesNotMatter | packages/shell-api/src/collection.ts:1747-1850 | and for every order of the shards |
| ShardStats.SumsAreExact | packages/shell-api/src/collection.ts:1800-1884 | a summed field is there if and only if some shard reports it: the exact sum of what the shards report, over the scale for the four sizes and unscaled for the two counts |
| ShardStats.IndexSumsAreExact | packages/shell-api/src/collection.ts:1823-1902 | the same for the size of each index |
| ShardStats.StatSumsAreExact | packages/shell-api/src/collection.ts:1781-1897 | the same, unscaled, for each number of a time series |
| ShardStats.NIndexesIsMaximum | packages/shell-api/src/collection.ts:1832-1841 | `nindexes` bounds what the shards report and is reported by one, or is zero |
| ShardStats.MaxSizeIsExact | packages/shell-api/src/collection.ts:1820-1822 | the same for `maxSize`, over the scale |
| ShardStats.AveragesAreWeightedMeans | packages/shell-api/src/collection.ts:1886-1909 | both averages are the means of the shards' averages weighted with their counts, or zero without objects or buckets |
| ShardStats.AverageObjectSizeIsMean | packages/shell-api/src/collection.ts:1903-1909 | `avgObjSize` lies within any bounds on the averages of the shards that have objects |
| ShardStats.AverageBucketSizeIsMean | packages/shell-api/src/collection.ts:1886-1897 | `avgBucketSize` likewise |
| ShardStats.VisitField | packages/shell-api/src/collection.ts:1756-1842 | the body of the loop over the fields, with its two inner loops |
| ShardStats.AggregateAndScaleCollStats | packages/shell-api/src/collection.ts:1747-1912 | the loops over shards and fields compute the scaled totals |
| ShardStats.CompletionOrderDoesNotMatter | packages/shell-api/src/collection.ts:2249-2312 | the report is the same for every order in which the shards' queries finish |
| ShardStats.ReportIsExact | packages/shell-api/src/collection.ts:2264-2335 | the totals are the sums of what the shards own, less orphaned documents, and each row is the share in per cent rounded down to two decimals, or zero of nothing |
| ShardStats.DataSharesAddUp | packages/shell-api/src/collection.ts:2320-2335 | every shard has a row, its share of the data is within 0 and 100, and the shares add up to 100 less than 0.01 a shard |
| ShardStats.DocumentSharesAddUp | packages/shell-api/src/collection.ts:2320-2335 | the same for the shares of the documents |
| ShardStats.GetShardDistribution | packages/shell-api/src/collection.ts:2234-2335 | accumulating as queries finish and reporting in that order computes totals and rows |
| SnakeCase.Acronym | packages/logging/src/helpers.ts:76 | the greedy first alternative takes the longest run of capitals that the lookahead allows |
| SnakeCase.AcronymIsCut | packages/logging/src/helpers.ts:74-78 | where a run of capitals is cut, by what follows it |
| SnakeCase.WordIsCut | packages/logging/src/helpers.ts:74-78 | at most one capital, then small letters, then digits: all of them that there are |
| SnakeCase.LoneIsCut | packages/logging/src/helpers.ts:74-78 | a lone capital, and digits in front of everything |
| SnakeCase.MatchIsWord | packages/logging/src/helpers.ts:74-78 | there is a match exactly where a letter or digit begins, and it is letters followed by digits |
| SnakeCase.WordsSpell | packages/logging/src/helpers.ts:74-83 | the lower-cased matches are words and together spell the letters and digits of the input |
| SnakeCase.SnakeCaseIsLossless | packages/logging/src/helpers.ts:74-83 | letters and digits are kept in order and lower-cased; without any the input comes back |
| SnakeCase.SnakeCaseSeparates | packages/logging/src/helpers.ts:74-83 | single underscores, and only between words |
| SnakeCase.SnakeCaseIsIdempotent | packages/logging/src/helpers.ts:74-83 | the result of `toSnakeCase` is a fixed point of it |

## Left out

- UTF-8 decoding, the listener forwarding and the proxy of `LineByLineInput`: the model starts at decoded characters. Data events and exceptions from inside a push are not modelled either.
- `thisArg`, typed arrays, array subclasses, and the `sort`, `toString`, `Map` and `Set` polyfills. Arrays that a callback returned are values, so a callback that changes one later is not covered.
- The real clock, file system, timers and HTTP: clock readings are parameters, file-system calls are atomic steps, and a lock refresh only moves the modification time forward.
- Throttle state across overlapping sessions, because `flush` writes it without holding the lock.
- A restored throttle count below zero, which only a damaged metadata file could hold: then the first window could forward more.
- A target that calls back into the analytics queue while held events are being applied.
- What the events carry, log lines, and that "Session Ended" is tracked once: `detachLogger` and `flush` can each track it.
- Deprecated API calls of a session, which are only logged, and the session's simple flags and counters.
- Listeners that evaluated code adds to the REPL or the process, and a REPL started without `onAsyncSigint`.
- `TypeError`s of the REPL callback and the recoverable-error path behind the `finally` block of `_eval`.
- Options with values that are no JSON, such as functions, and lone surrogates in names.
- A failing connection attempt during a reset; it leaves the provider as it was.
- The grammar of connection strings: they are records whose printing and parsing are inverse, except that parsing rejects an empty host list. Whether the parser accepts each generated host name is not checked.
- The order of URL parameters and of the parts of `authMechanismProperties`: both are maps.
- Aliasing in `arg-mapper.ts`, where four setters write into the objects they were given.
- `matchingAllowedHosts` is a parameter of the model: any function of the hosts.
- Validation after option mapping, which only looks at the finished record.
- Fields copied from the first shard, among them `capped`, without which `maxSize` is not reported; individual shard statistics, `dataFormat` and floating point rounding. Counts that are no numbers; an average bucket size without a bucket count weighs nothing here.
- Babel rewriting, the shell API wrappers, autocomplete, formatting and the driver's pass-through methods.
