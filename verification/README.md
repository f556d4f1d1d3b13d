# signal: registry, dispatch and termination pipeline, modelled in Dafny

This project models the in-process logic of the Go `signal` package: the
`Handlers` object that binds callbacks to operating-system signals, runs them
when a signal is dispatched, and on a termination signal runs every registered
termination procedure and calls the exit function with one resolved exit code.
It also models the exit-code carrier (`WrapErrorWithCode`, `getCodeFromError`)
and the `NewTerminationFunc` adapter.

Modules, one concept each:

- `Wrappers` (`wrappers.dfy`): `Option`, standing for Go's nil-able values.
- `Seqs` (`seqs.dfy`): `Count`, `Repeat`, `Range` and their small lemmas.
- `Signals` (`signals.dfy`): `Signal = NilSignal | Sys(number)`. Go callers may pass a nil `os.Signal`, so nil is a value. `SIGINT`, `SIGUSR1` and `SIGTERM` use their Linux numbers.
- `ExitCode` (`exit_code.dfy`): `Err = Plain(id) | Coded(cause, code)`, the carrier functions, `Outcome` (the actions a callback performs and the error it returns), `TerminationFunc` and `Procedure`.
- `Registry` (`registry.dfy`): the registry key `Wildcard | Specific(sig)` replaces the `anySignal` sentinel. Handlers are opaque references, `Client(id)` or the package's own `TerminationHandler`. This module holds registration on the table and dispatch. `Scan` models the source's `range` over the map in an arbitrary iteration order, and `Dispatch` is proved equal to it for every order.
- `Trace` (`trace.dfy`): the events a dispatch produces and their projections. A client handler running is `Handled`, a procedure being invoked is `ProcedureRan`, an action a callback performs is `Performed`, and a call of the exit function is `Exit`.
- `Termination` (`termination.dfy`): `runTerminationProcedures` as a pure fold. The fold (`FoldCodes`) is proved equal to an independent reference, `FirstNonZeroCode`, which is also characterised by a lemma.
- `SignalHandlers` (`handlers.dfy`): the facade, meaning construction, `RegisterSignalHandler`, `RegisterTerminationProcedure`, `SetLogger`, `handleTerminationSignals` and `handleSignal`. Also the invariant `Valid`: the wildcard key is present; the termination handler is bound to exactly the termination signals, once per occurrence; and in every list the termination handlers come first, followed by client handlers only.
- `Scenarios` (`scenarios.dfy`): properties of values built through the public operations, including the situations the package's tests set up.
- `AsWritten` (`as_written.dfy`): the source's log calls, and what they do after `SetLogger(nil)`. Every `s.log.Info` or `s.log.Debug` is a method call on the `Logger` interface value. When that value is nil, the call panics, and the panic unwinds past the rest of the dispatch. The module proves that with any logger set, these traces are exactly the ones `SignalHandlers` gives. It also proves that with a nil logger, dispatch panics and the exit function is never called. Left unrecovered, that panic ends the process with Go's status 2, without the procedures having run (see Findings).

`SignalHandlers` gives logging no effect. A nil logger therefore silences
logging, which is what accepting nil in `SetLogger` evidently intends. The
source panics instead. The rest of the model follows the intended behaviour.

Exit-code resolution follows the code rather than the doc comment. The comment
on `TerminationFunc` says the first error determines the exit code. The loop
only sets the code while it is still 0, so the code is the *first non-zero
resolved code*. An error wrapped with code 0 does not fix the result, and a
later error can still set it (`Termination.ZeroCodedErrorDoesNotLatch`).

The default termination list is `[SIGTERM, SIGINT]`, in that order, as
`DefaultTerminationSignals` declares it.

## Model

| member | source | states |
|---|---|---|
| `ExitCode.GetCodeFromError` | signal/termination_procedure.go:29-34 | a top-level carrier yields its own code; any other value yields the default, including nil and a foreign error wrapping a carrier (which `Plain` stands for) |
| `ExitCode.WrapErrorWithCode` | signal/termination_procedure.go:36-42 | nil stays nil; a non-nil error becomes a carrier with that cause, whose code `GetCodeFromError` returns for every default |
| `ExitCode.NewTerminationFunc` | signal/termination_procedure.go:11-17 | the adapted callback performs the wrapped action exactly once per call and returns nil, for every signal |
| `ExitCode.WrapNilIsNil` | signal/termination_procedure.go:37-40 | wrapping nil gives nil whatever the code |
| `ExitCode.WrapThenGetCode` | signal/termination_procedure.go:29-31 | the code put in by wrapping is recovered whatever default is supplied |
| `ExitCode.OutermostCarrierWins` | signal/termination_procedure.go:24-31 | of two nested carriers only the outer code counts |
| `Registry.AppendToEach` | signal/handlers.go:68-74 | every named signal's list gains the handler at its end once per time it is named, created when absent; the key set grows by exactly the named keys |
| `Registry.Register` | signal/handlers.go:60-75 | no signals appends to the end of the wildcard list and changes no other key; with signals each named list is extended and the rest are unchanged; no list shrinks and no key disappears |
| `Registry.Scan` | signal/handlers.go:110-118 | a scan that never meets the target's key runs nothing, and every handler it runs belongs to the target's list |
| `Registry.ScanFindsOnlyTarget` | signal/handlers.go:110-118 | scanning keys without repetition runs the target's list if the target is among them and nothing otherwise |
| `Registry.Dispatch` | signal/handlers.go:103-119 | the wildcard list followed by the target's handlers, equal to the source's map scan under every iteration order Go may pick |
| `Termination.Latch` | signal/handlers.go:139-145 | a non-zero code is kept; while the code is 0, an error sets it to the error's resolved code, and nil leaves it 0 |
| `Termination.FoldCodes` | signal/handlers.go:135-146 | once non-zero the code is kept; from 0 the loop reaches the first non-zero resolved code |
| `Termination.Effects` | signal/handlers.go:138 | a callback's actions are recorded in the order it performs them, and nothing else is |
| `Termination.RunEvents` | signal/handlers.go:136-146 | the loop invokes every procedure once, in registration order; the actions performed are each procedure's actions, in that order; it never calls exit |
| `Termination.Run` | signal/handlers.go:127-149 | with no procedures nothing runs and the code is 0; otherwise every procedure runs once in order whatever earlier results were; the actions are those of every result in registration order; the code is the first non-zero resolved code |
| `Termination.FirstNonZeroCodeCharacterized` | signal/handlers.go:135-148 | the code is 0 exactly when no result resolves to non-zero, and otherwise it is the code of a result preceded only by results resolving to 0 |
| `Termination.FirstErrorWins` | signal/handlers.go:139-145 | when the first failing procedure's error resolves to non-zero, that is the exit code whatever follows |
| `Termination.ZeroCodedErrorDoesNotLatch` | signal/handlers.go:143-145 | an error wrapped with code 0 followed by a plain error yields 1 |
| `SignalHandlers.InstallTerminationHandlers` | signal/handlers.go:45-56 | the new table has the empty wildcard list and, under each termination signal, the termination handler once per occurrence of that signal |
| `SignalHandlers.NewHandlers` | signal/handlers.go:39-52 | the defaults replace only an empty list; the wildcard key maps to the empty list; the keys are exactly the wildcard and the termination signals; no procedures; the result is valid, so each list is its termination handlers followed by nothing else |
| `SignalHandlers.RegisterClientKeepsTerminationCounts` | signal/handlers.go:60-75 | registering a client handler never changes how often the termination handler is bound under any key |
| `SignalHandlers.AppendClientsKeepsOrder` | signal/handlers.go:69-70 | appending client handlers to a list whose termination handlers come first keeps them first and everything after them a client |
| `SignalHandlers.RegisterClientKeepsOrder` | signal/handlers.go:60-75 | registering a client handler keeps every list in the order termination handlers first, client handlers after |
| `SignalHandlers.RegisterSignalHandler` | signal/handlers.go:60-75 | appends at the end of the wildcard list, or at the end of each named list once per time it is named, creating lists when absent; other keys unchanged |
| `SignalHandlers.RegisterSignalHandlerKeepsInvariants` | signal/handlers.go:60-75 | no list shrinks, the wildcard key is never removed, and validity is kept |
| `SignalHandlers.RegisterLeavesUnnamedKeys` | signal/handlers.go:67-74 | with signals named, the wildcard and every unnamed key keep both their presence and their list |
| `SignalHandlers.RegisterTerminationProcedure` | signal/handlers.go:78-83 | the procedure is appended at the end, earlier ones and the signal table untouched, validity kept |
| `SignalHandlers.SetLogger` | signal/handlers.go:156-160 | only the logger changes, nil included, and validity is unchanged |
| `SignalHandlers.Outcomes` | signal/handlers.go:138 | each registered procedure is called with the received signal, one result per procedure, in registration order |
| `SignalHandlers.HandleTerminationSignals` | signal/handlers.go:121-125 | every procedure is invoked once in order and its actions are performed in order; then exit is called exactly once, last, with the resolved code; no client handler runs |
| `SignalHandlers.Invoke` | signal/handlers.go:106-125 | a client handler records one call of itself with the signal and nothing else; the termination handler invokes every procedure once in registration order, performs their actions in order, and ends with exactly one call of exit with the resolved code, calling no client |
| `SignalHandlers.InvokeAll` | signal/handlers.go:106-117 | running a list of handlers never panics, so no handler cuts the rest of the list short |
| `SignalHandlers.InvokeAllOfClients` | signal/handlers.go:106-117 | a list of client handlers gives one call per handler, each in its list position and given the signal, and nothing else |
| `SignalHandlers.InvokeAllAppend` | signal/handlers.go:106-117 | running two lists one after the other gives the first list's trace followed by the second's |
| `SignalHandlers.InvokeAllTerminationHandlers` | signal/handlers.go:115-125 | n termination handlers in a row run the whole termination sequence, procedures and exit, n times over |
| `SignalHandlers.InvokeAllRunsClients` | signal/handlers.go:106-117 | the client handlers of a list run once each, in list order, each given the signal |
| `SignalHandlers.InvokeAllExits` | signal/handlers.go:106-117 | exit is called once per termination handler in the list, each time with the resolved code |
| `SignalHandlers.HandleSignal` | signal/handlers.go:103-119 | the trace is the whole run of the wildcard list followed by the whole run of the target's list, so every wildcard handler's events precede the target's; the clients called are the wildcard clients then the target's clients, each given the target; for a valid state exit is called once per occurrence of the target among the termination signals, always with the resolved code |
| `SignalHandlers.ValidListShape` | signal/handlers.go:45-75 | in a valid state the wildcard list holds clients only, and a signal's list is its termination handlers followed by clients only |
| `SignalHandlers.DispatchShape` | signal/handlers.go:103-125 | when the target's list starts with n termination handlers, dispatch is the wildcard run, then n termination sequences, then the run of the remaining handlers |
| `SignalHandlers.HandleSignalOrder` | signal/handlers.go:103-125 | in a valid state dispatch runs the wildcard clients, then the termination sequence once per occurrence of the target among the termination signals, and only then the target's client handlers |
| `SignalHandlers.HandleSignalIgnoresLogger` | signal/handlers.go:156-160 | replacing the logger, nil included, leaves every dispatch trace unchanged |
| `Scenarios.DefaultsOnlyForEmptyList` | signal/handlers.go:39-42 | no signals gives `[SIGTERM, SIGINT]`, while a single nil signal is kept as given |
| `Scenarios.NilSignalHandlersStartEmpty` | signal/handlers_test.go:25 | built with a nil signal, the handlers have no wildcard and no SIGUSR1 handlers |
| `Scenarios.DefaultHandlersBindEachSignalOnce` | signal/handlers.go:13 | the default handlers are valid, have no procedures, and name each default signal once |
| `Scenarios.TerminationSignalExitsOnce` | signal/handlers.go:121-125 | a termination signal named once calls exit exactly once, with the first non-zero resolved code |
| `Scenarios.OtherSignalsNeverExit` | signal/handlers.go:110-118 | a signal outside the termination list never reaches exit |
| `Scenarios.DefaultSignalsExitWithZero` | signal/handlers_test.go:76-85 | with no procedures, each default signal calls exit exactly once, with 0 |
| `Scenarios.SingleProcedureCode` | signal/handlers.go:135-148 | with one procedure, exit gets the code that procedure's result resolves to |
| `Scenarios.CodedErrorSetsItsCode` | signal/handlers_test.go:142-154 | a lone procedure failing with a carrier of code c exits with c |
| `Scenarios.PlainErrorSetsOne` | signal/handlers_test.go:128-140 | a lone procedure failing with a plain error exits with 1 |
| `Scenarios.AdaptedProcedureExitsWithZero` | signal/handlers_test.go:111-126 | a lone procedure that returns nil exits with 0 |
| `Scenarios.RegisterForOne` | signal/handlers.go:67-74 | registering for one signal appends to that list and leaves the wildcard list alone |
| `Scenarios.RegisterForAll` | signal/handlers.go:63-66 | registering for no signal appends to the wildcard list and leaves each signal's list alone |
| `Scenarios.ExecutionOrderLists` | signal/handlers.go:60-75 | two SIGUSR1 registrations and then two wildcard registrations leave the lists in registration order |
| `Scenarios.ExecutionOrder` | signal/handlers_test.go:23-47 | for those registrations, dispatching SIGUSR1 runs a1, a2, 1, 2, each given SIGUSR1 |
| `Scenarios.DefaultSigtermList` | signal/handlers.go:13 | the default handlers have no procedures, an empty wildcard list, and bind SIGTERM to the termination handler alone |
| `Scenarios.ClientAfterExit` | signal/handlers.go:106-125 | with no procedures and no wildcard handlers, a list holding the termination handler and then a client gives exit with 0 before the client's call |
| `Scenarios.RegisteredAfterTermination` | signal/handlers.go:67-75 | a client registered for a signal bound to the termination handler alone is called after exit |
| `Scenarios.ClientOfTerminationSignalRunsAfterExit` | signal/handlers.go:103-125 | a client registered for SIGTERM on the default handlers is called only after exit with 0 |
| `Scenarios.ProceduresActInOrder` | signal/handlers_test.go:49-66 | two procedures registered one after the other perform their actions in registration order |
| `AsWritten.RegisterTerminationProcedureAsWritten` | signal/handlers.go:78-83 | the procedure is appended at the end, and the log call after it panics exactly when the logger is nil |
| `AsWritten.ProcedureLoopWithLogger` | signal/handlers.go:136-146 | with a logger set, the loop with its log calls gives the events of `Termination.RunEvents` |
| `AsWritten.RunWithLogger` | signal/handlers.go:127-149 | with a logger set, runTerminationProcedures with its log calls gives the events of `Termination.Run` |
| `AsWritten.NilLoggerRunPanics` | signal/handlers.go:130-137 | through a nil logger the first log line panics, before any procedure runs, whether or not procedures are registered |
| `AsWritten.TerminationWithLogger` | signal/handlers.go:121-125 | with a logger set, handleTerminationSignals with its log calls gives the trace of `SignalHandlers.HandleTerminationSignals` |
| `AsWritten.TerminationNilLogger` | signal/handlers.go:121-125 | through a nil logger handleTerminationSignals panics at once and the exit function is never called |
| `AsWritten.InvokeAllWithLogger` | signal/handlers.go:106-117 | with a logger set, running a list with its log calls gives the trace of `SignalHandlers.InvokeAll` |
| `AsWritten.ScanWithLogger` | signal/handlers.go:110-118 | with a logger set, the map scan with its log calls runs exactly the handlers `Registry.Scan` selects |
| `AsWritten.HandleSignalWithLogger` | signal/handlers.go:103-119 | with a logger set, handleSignal with its log calls gives the trace of `SignalHandlers.HandleSignal` in every iteration order Go may choose |
| `AsWritten.InvokeAllNilLoggerSkipsExit` | signal/handlers.go:106-117 | through a nil logger no list of handlers invokes a procedure or calls the exit function |
| `AsWritten.ScanNilLogger` | signal/handlers.go:110-118 | through a nil logger the scan panics by the time it visits the wildcard key, invokes no procedure and never calls the exit function |
| `AsWritten.NilLoggerSkipsExit` | signal/handlers.go:103-125 | after `SetLogger(nil)`, dispatching any signal of a valid state panics in every iteration order, invokes no procedure and never calls the exit function |
| `AsWritten.SilencedDefaultsSkipExit` | signal/handlers.go:156-160 | with the default handlers and a nil logger, SIGTERM calls the exit function with 0 in the intended model, while as written the exit function is never called |

## Left out

- `StartListen` and its cancel function (signal/handlers.go:87-101): the goroutine, the channel, `signal.Notify` and `signal.Stop`, and the second `close` of the channel. These are operating-system I/O and concurrency. Delivering a signal is modelled as one call of `HandleSignal`.
- The `sync.RWMutex` (signal/handlers.go:20 and the lock calls). Every operation is treated as atomic, including the nested read lock between `handleSignal` and `runTerminationProcedures`. Callbacks that register handlers re-entrantly are not modelled.
- Logging: the text of every `Info` and `Debug` call, and `stdLogger` in signal/logger.go. With a non-nil logger a log call has no effect on the dispatch. The one behaviour of logging that is modelled is the panic through a nil logger, in `AsWritten`. A client's logger that panics by itself is not modelled.
- `os.Exit` and `setExit`. The exit function is not a field. Each call of it is an `Exit(code)` event. The trace continues after an `Exit`, as it does with the substitute exit functions the package's tests install. With the real `os.Exit`, nothing after the first `Exit` would happen. In particular a client handler registered for a termination signal comes after the termination handler in that signal's list, so it never runs (`Scenarios.ClientOfTerminationSignalRunsAfterExit`, `SignalHandlers.HandleSignalOrder`).
- Callbacks are Dafny functions, so a termination procedure gives the same `Outcome` every time it is called with the same signal. Client signal handlers are opaque ids whose own effects are not modelled.
- The random order of Go's map iteration is not chosen by the model. `Registry.Dispatch` is proved to agree with the scan under every order.
- The `anySignal` sentinel and its `String` text (signal/handlers.go:28-36), replaced by the `Wildcard` key.
- `SignalHandlers.HandleSignal`: the statement about `Exit` events holds for states satisfying `Valid`. Every state that `NewHandlers` and the registration functions produce satisfies it, but the statement is not made for arbitrary records.
- `SignalHandlers.HandleSignal`: models the intended silent nil logger. After `SetLogger(nil)` the source panics at its first log call, and the exit function is never called; `AsWritten.HandleSignalAsWritten` and `AsWritten.NilLoggerSkipsExit` state that behaviour.
- `SignalHandlers.HandleTerminationSignals`: models the intended silent nil logger. Through a nil logger the source panics before any procedure runs (`AsWritten.TerminationNilLogger`).
- `SignalHandlers.RegisterTerminationProcedure`: the panic of the source's log call through a nil logger, after the procedure is appended, is stated by `AsWritten.RegisterTerminationProcedureAsWritten` instead.
- `Scenarios.TerminationSignalExitsOnce`: holds for the intended silent nil logger, as it builds on `SignalHandlers.HandleSignal`. As written, through a nil logger the exit function is never called and the panic ends the process instead (`AsWritten.NilLoggerSkipsExit`).
- `Scenarios.SingleProcedureCode`: as for `Scenarios.TerminationSignalExitsOnce`, the exit code is the intended one; as written, a nil logger panics first.
- A panic raised by a client handler or a termination procedure itself. Callbacks are total functions here.
- testutil/tempfile.go (a file-system test helper) and signal/example_test.go (usage documentation).

## Findings

| source | as written | input that shows it | evidently intended | confidence | as-written member | corrected member |
|---|---|---|---|---|---|---|
| signal/handlers.go:156-160 | `SetLogger` stores nil, and later `s.log.Debug` or `s.log.Info` calls through the nil interface panic: in `handleSignal` the scan logs at the wildcard key (line 112), and `runTerminationProcedures` logs before its first procedure (lines 131 and 137). The exit function is never called. The unrecovered panic ends the process with Go's status 2 instead of the resolved code, and no procedure runs. Under `StartListen` the goroutine's own log call (line 93) already panics before `handleSignal` | `NewHandlers()`, then `SetLogger(nil)`, then SIGTERM | a nil logger only disables logging, and SIGTERM still runs the procedures and exits with 0 | medium, not executed | `AsWritten.NilLoggerSkipsExit` | `SignalHandlers.HandleSignalIgnoresLogger` |
