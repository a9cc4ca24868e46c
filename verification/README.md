# COM-RPC plugin starter: a Dafny model of `COMRPCStarter::activatePlugin`

ThunderPluginActivator starts a Thunder plugin from outside the framework. Its
core is `COMRPCStarter`, which owns the plugin's name and a single controller
connector. `activatePlugin(maxRetries, retryDelayMs)` runs a retry loop, and
each pass does the following:

- it asks the connector `IsOperational` and opens it if the answer is false;
- it queries an `IPluginAsyncStateControl` interface by the plugin's callsign;
- it calls `Activate` with two hints: the remaining retry budget and the delay;
- it sorts the result into one of three cases: ERROR_NONE, a COM (link)
  error, or any other code.

Open failures, missing interfaces and COM errors count one retry and sleep
once. Any other code releases the interface and leaves the loop. On the way
out `IsOperational` is asked once more, and the connector is closed if the
answer is true.

This project models that loop as a state machine driven by a scripted
sequence of environment answers, one `Round` per pass. Each round says whether
a link opened earlier is still up (so `IsOperational` can answer false after
the link dropped), whether `Open` succeeds, whether the query returns an
interface, and what `Activate` returns. One more answer, `upAtExit`, is what
`IsOperational` says after the loop. The model records every call as an event
trace: `Probe(operational)` for each `IsOperational` answer, `Open(ok)`,
`Query(callsign, found)`, `Activate(callsign, retries, delay, result)`,
`Release`, `Sleep(ms)` and `Close`. The properties are stated over that trace.

The files are:

- `types.dfy`: the `uint8_t`/`uint16_t` domains and the result tags, with
  their classification.
- `trace.dfy`: the events and the trace predicates. These are counts, the
  replay of the single connector, the rule that Open and Close each follow
  an `IsOperational` answer, and the ordering of retries hints.
- `machine.dfy`: the loop state (`currentRetry`, `success`, connector,
  unreleased interface references, left by `break`), one pass (`Step`),
  the exit (`Finish`) and the loop (`Run`).
- `proofs.dfy`: induction over the script for the properties of whole runs.
- `starter.dfy`: the starter, its constructor, `ActivatePlugin` over the
  model, and `ActivatePluginLoop`, a loop shaped like the C++ code. This
  loop is proved to make the same calls and reach the same end as the model.

The model follows the code, not its doc comment. The comment at
source/COMRPCStarter.cpp:40 promises `true` when the plugin was activated.
In the compiled code, though, the ERROR_NONE branch is empty, and
`success = true` appears only inside the `#if 0` block. So:

- `activatePlugin` never returns `true`;
- an ERROR_NONE answer neither advances `currentRetry` nor leaves the loop,
  so the loop runs for as long as `Activate` keeps answering ERROR_NONE;
- the interface obtained on such a pass is never released.

The model states each of these as a proved property. Because the loop can go
on without end, a run is defined over a finite script. If the script runs
out while the loop guard still holds, the run ends as `ScriptExhausted`
rather than with a return value.

Three more details of `activatePlugin` are easy to misread, and the model
follows the code in each:

- The loop never waits on the callback sink it passes to `Activate`
  (source/COMRPCStarter.cpp:79). No asynchronous `Success`/`Failure`/`Aborted`
  outcome takes part in the loop.
- `currentRetry` starts at 1, and the loop guard is `currentRetry <= maxRetries`.
  So `maxRetries` bounds the number of passes that end in a retryable failure,
  and `maxRetries` = 0 runs no pass at all.
- The connector is closed only when `IsOperational` answers true after the
  loop. A link that dropped is not closed.

## Model

| member | source | states |
|---|---|---|
| Types.Classify | source/COMRPCStarter.cpp:86-117 | ERROR_NONE is tested first, then the COM error bit, and every other code falls into the non-retry switch; the three classes partition the results |
| Machine.Init | source/COMRPCStarter.cpp:45-48 | The loop is entered with `success` false, `currentRetry` 1 and no `break` taken, within the bounds the loop keeps. Its body runs at least once exactly when `maxRetries` is positive. No interface is held yet |
| Machine.Step | source/COMRPCStarter.cpp:48-118 | One pass: only the retryable failures (open failure, null interface, COM error) advance `currentRetry`, by exactly one. Only a rejection leaves the loop. `success` is never set. The connector holds a link afterwards unless Open failed. Only ERROR_NONE keeps an interface reference. Activate is called only when the interface was found, and its result is the round's answer |
| Machine.Finish | source/COMRPCStarter.cpp:147-149 | After the loop `IsOperational` is asked first, Close is called exactly when it answers true, nothing else is called, and no link is left; the loop's counters are untouched |
| Machine.Run | source/COMRPCStarter.cpp:42-151 | A run returns only once the loop guard has failed. It gives back the `success` it started with and leaves the connector not operational. A run that has not returned has used up the whole script with the loop guard still true. Every non-empty run starts by asking `IsOperational` |
| MachineProofs.StepShape | source/COMRPCStarter.cpp:53-62 | A pass asks `IsOperational` first. Open is the second call exactly when the answer was false, and its outcome is whether the connector holds a link afterwards. No later call of the pass asks `IsOperational`, opens or closes |
| MachineProofs.StepCalls | source/COMRPCStarter.cpp:64-82 | The query is made, by the plugin's name, unless Open failed. Activate is called exactly once when the query found the interface and never otherwise. It carries the plugin's name, the budget left, the delay, and the round's result is what it returned. Every Sleep lasts the delay |
| MachineProofs.StepConnector | source/COMRPCStarter.cpp:53-61 | Replaying the pass's calls, the connector is opened only while not holding a link and only right after `IsOperational` answered false. No call of the pass is a Close, and the connector is left as the pass left it |
| MachineProofs.FinishConnector | source/COMRPCStarter.cpp:147-149 | The exit closes the connector only while it holds a link and only right after `IsOperational` answered true, and leaves no link |
| MachineProofs.RunConnector | source/COMRPCStarter.cpp:53-54 | Across all passes and the exit, Open comes only right after `IsOperational` answered false and Close only right after it answered true. Replaying those answers with the Open and Close calls, the one connector is opened only while closed and closed only while open, and ends in the run's final state |
| MachineProofs.StepCounts | source/COMRPCStarter.cpp:55-117 | A pass sleeps exactly when `currentRetry` advances. Every interface it obtains is released unless Activate answered ERROR_NONE, and that answer is the only one that keeps a reference. Activate is called once when the interface was found and not at all otherwise. Its answer is a rejection exactly when the pass leaves the loop |
| MachineProofs.RunCounts | source/COMRPCStarter.cpp:46-97 | Over a run, `currentRetry` advances once per Sleep. The sleeps (one per retryable failure) number at most the budget left. Obtained interfaces equal releases plus ERROR_NONE answers, and those answers are the references still held. There is at most one Activate per pass. The loop was left by `break` exactly when one Activate was rejected |
| MachineProofs.RunRetriesUntilBudgetSpent | source/COMRPCStarter.cpp:46-97 | The loop retries until its budget is spent: a run returns without a rejected Activate exactly when it has slept once for every unit of budget left, i.e. when `currentRetry` has passed `maxRetries` |
| MachineProofs.RunOpenAlwaysFails | source/COMRPCStarter.cpp:53-62 | On a closed connector whose every Open fails, each pass is `IsOperational`, a failed Open and one Sleep. The loop returns false after exactly the budget left of such passes, with that many failed Opens and no query or Activate |
| MachineProofs.RunCalls | source/COMRPCStarter.cpp:64-82 | Every query and Activate names the starter's plugin. Every Sleep and Activate carries `retryDelayMs`. Every retries hint is below `maxRetries` and at most the budget left at the start |
| MachineProofs.StepHints | source/COMRPCStarter.cpp:79-82 | Within a pass no Sleep comes before the Activate call, so the hint it carries is the budget left when the pass started |
| MachineProofs.RunHintsTrackSleeps | source/COMRPCStarter.cpp:46-82 | Every retries hint of a run is `maxRetries - currentRetry` at the start less the number of Sleeps (one per retryable failure) made before that Activate call |
| MachineProofs.RunHintsNonIncreasing | source/COMRPCStarter.cpp:80-82 | The retries hints of successive Activate calls in one run never increase |
| MachineProofs.StepRejected | source/COMRPCStarter.cpp:99-117 | Within a pass, a rejected Activate is followed only by the Release of its interface, and it ends the loop |
| MachineProofs.RunRejectionStops | source/COMRPCStarter.cpp:99-117 | After a rejected Activate (in progress, illegal state, not existing, or any other non-COM code), the run's only calls are its Release, the last `IsOperational` and possibly Close. No further Open, query, Activate or Sleep happens, and the run returns |
| MachineProofs.RunTerminatesWithoutErrorNone | source/COMRPCStarter.cpp:46-48 | When no answer is ERROR_NONE, the loop returns within the budget left, given that many rounds |
| MachineProofs.RunLoopsWhileAccepted | source/COMRPCStarter.cpp:86-88 | While Open succeeds when asked, the interface is found and Activate answers ERROR_NONE, the loop never returns and `currentRetry` stays put. Each such pass adds one unreleased interface reference, so no bound on the number of passes exists |
| Starter.NewStarter | source/COMRPCStarter.cpp:27-32 | The constructor stores the plugin name, and the fresh connector is not operational |
| Starter.ActivatePlugin | source/COMRPCStarter.cpp:42-151 | The name never changes and is the callsign of every query and Activate. Every return yields false and leaves no operational connector. Open and Close each follow the matching `IsOperational` answer. With `maxRetries` = 0 no Open, query, Activate or Sleep happens. Sleeps number at most `maxRetries`, each of `retryDelayMs`. The call returns without a rejected Activate exactly when it has slept `maxRetries` times. At most one Activate per pass. The first hint is `maxRetries - 1`, and each hint is that less the Sleeps before it, so the hints never increase. A rejection ends the call. Without ERROR_NONE answers it returns within `maxRetries` passes. When every Open fails on a closed connector it makes exactly `maxRetries` failed Opens and returns false |
| Starter.Attempt | source/COMRPCStarter.cpp:53-118 | The loop body, written imperatively with its early exits, makes exactly the calls and reaches exactly the state of the model's `Step` |
| Starter.Leave | source/COMRPCStarter.cpp:147-149 | The code after the loop, written imperatively, makes exactly the calls and reaches exactly the state of the model's `Finish` |
| Starter.ActivatePluginLoop | source/COMRPCStarter.cpp:42-152 | The loop with its `break` and the final close makes exactly the trace, reaches the same connector state and ends the same way as `ActivatePlugin`. When it returns, the value is false and the connector is not operational |

## Left out

- `source/main.cpp` as a whole. Argument parsing, the `pidof` process check and exit-code plumbing are glue around `getopt_long`, `popen` and `kill`.
- `deactivatePlugin`: it is declared in the header, but its body is not among the modelled sources.
- The `IPluginStarter` interface: it has the one implementation, which is modelled directly. Its header `IPluginStarter.h` is not part of this model.
- The `#if 0` block in `activatePlugin`: it is not compiled.
- The `Core::SinkType<PluginActivatorCallback>` callback. The loop never waits on it, and its delivery happens in another context.
- Logging, `Core::StopWatch` durations and the real time spent in `SleepMs`. A sleep is recorded only as an event carrying its millisecond argument.
- Numeric hresult values and the `COM_ERROR` bit mask. They belong to the framework headers, so results are kept as tags.
- Connector internals (`Open`, `Close`, `IsOperational`, `QueryInterfaceByCallsign`, `Release`) belong to the Thunder RPC runtime. Their answers are scripted. `IsOperational` answers true only for a link that was opened and, by the round's `linkUp`, is still up. A successful Open gives a link and a failed one leaves none. A link dropping between `IsOperational` and a later call of the same pass is not modelled: it would show only in that call's scripted answer.
- Machine.Run: the function is defined only over a finite script of environment answers. A run whose script ends while the loop guard holds is reported as `ScriptExhausted`. This stands in for the unbounded looping of `activatePlugin`, which `MachineProofs.RunLoopsWhileAccepted` exhibits.
