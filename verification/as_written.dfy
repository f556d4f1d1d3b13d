/** The logging calls of signal/handlers.go as the source makes them. Each
    s.log.Info or s.log.Debug is a method call on the Logger interface value;
    after SetLogger(nil) that value is nil and the call panics. The panic
    unwinds past the rest of the dispatch, so the exit function is never
    called; left unrecovered it ends the process with Go's panic status 2
    instead of the resolved code. With any other logger the calls return and
    these traces are the SignalHandlers ones. */
module AsWritten {
  import opened Seqs
  import opened Signals
  import opened ExitCode
  import opened Registry
  import opened Trace
  import opened Termination
  import opened SignalHandlers

  /** One call of s.log.Info or s.log.Debug. */
  function LogCall(log: Logger): (events: seq<Event>)
    ensures log.NilLogger? ==> events == [Panic]
    ensures !log.NilLogger? ==> events == []
  {
    if log.NilLogger? then [Panic] else []
  }

  /** A trace cut short by a panic ends with it. */
  predicate Panicked(events: seq<Event>) {
    |events| > 0 && events[|events| - 1] == Panic
  }

  /** Running b after a: a panic in a unwinds past b. */
  function Then(a: seq<Event>, b: seq<Event>): (r: seq<Event>)
    ensures Panicked(a) ==> r == a
    ensures Panic !in a ==> r == a + b
    ensures Panicked(b) ==> Panicked(r)
    ensures ExitCodes(a) == [] && ExitCodes(b) == [] ==> ExitCodes(r) == []
    ensures Invoked(a) == [] && Invoked(b) == [] ==> Invoked(r) == []
  {
    if Panicked(a) then a
    else
      ExitCodesAppend(a, b);
      InvokedAppend(a, b);
      a + b
  }

  /** The loop of runTerminationProcedures over procedures i..: the message
      is logged, the procedure runs, and an error is logged. */
  function ProcedureLoop(log: Logger, outs: seq<Outcome>, i: nat): (events: seq<Event>)
    requires i <= |outs|
    decreases |outs| - i
  {
    if i == |outs| then []
    else
      var ran := [ProcedureRan(i)] + Effects(outs[i].actions) + (if outs[i].err.Some? then LogCall(log) else []);
      Then(LogCall(log), Then(ran, ProcedureLoop(log, outs, i + 1)))
  }

  /** runTerminationProcedures: the log line for the empty list, or the loop
      followed by the closing log line. */
  function RunAsWritten(log: Logger, outs: seq<Outcome>): seq<Event> {
    if |outs| == 0 then LogCall(log)
    else Then(ProcedureLoop(log, outs, 0), LogCall(log))
  }

  /** handleTerminationSignals: the procedures, the "bye" log line, exit. */
  function HandleTerminationSignalsAsWritten(h: Handlers, sig: Signal): seq<Event> {
    var outs := Outcomes(h.procedures, sig);
    Then(RunAsWritten(h.log, outs), Then(LogCall(h.log), [Exit(Run(outs).code)]))
  }

  function InvokeAsWritten(h: Handlers, ref: HandlerRef, sig: Signal): seq<Event> {
    match ref
    case Client(id) => [Handled(id, sig)]
    case TerminationHandler => HandleTerminationSignalsAsWritten(h, sig)
  }

  function InvokeAllAsWritten(h: Handlers, refs: seq<HandlerRef>, sig: Signal): seq<Event>
    decreases |refs|
  {
    if |refs| == 0 then []
    else Then(InvokeAsWritten(h, refs[0], sig), InvokeAllAsWritten(h, refs[1..], sig))
  }

  /** The range over the map in the given key order: every key other than
      the target logs that no handler was found, the target runs its list. */
  function ScanAsWritten(h: Handlers, order: seq<Key>, target: Signal): seq<Event>
    decreases |order|
  {
    if |order| == 0 then []
    else
      var step := if order[0] == Specific(target) then InvokeAllAsWritten(h, Lookup(h.handlers, order[0]), target) else LogCall(h.log);
      Then(step, ScanAsWritten(h, order[1..], target))
  }

  /** handleSignal as written, for one iteration order of the map. */
  function HandleSignalAsWritten(h: Handlers, target: Signal, order: seq<Key>): seq<Event> {
    Then(InvokeAllAsWritten(h, Lookup(h.handlers, Wildcard), target), ScanAsWritten(h, order, target))
  }

  /** RegisterTerminationProcedure as written: the procedure is appended, then
      the registration is logged. */
  datatype Registration = Registration(h: Handlers, trace: seq<Event>)

  function RegisterTerminationProcedureAsWritten(h: Handlers, fn: TerminationFunc, message: string): (r: Registration)
    ensures r.h.procedures == h.procedures + [Procedure(fn, message)]
    ensures Panicked(r.trace) <==> h.log.NilLogger?
  {
    Registration(RegisterTerminationProcedure(h, fn, message), LogCall(h.log))
  }

  /** With a logger set, the loop's events are those of the silent model. */
  lemma {:induction false} ProcedureLoopWithLogger(log: Logger, outs: seq<Outcome>, i: nat)
    requires i <= |outs| && !log.NilLogger?
    ensures ProcedureLoop(log, outs, i) == RunEvents(outs, i)
    decreases |outs| - i
  {
    if i < |outs| {
      ProcedureLoopWithLogger(log, outs, i + 1);
      var ran := [ProcedureRan(i)] + Effects(outs[i].actions);
      assert ran + [] == ran;
      assert Panic !in ran;
    }
  }

  /** Through a nil logger the first log line of the run panics, before any
      procedure runs. */
  lemma NilLoggerRunPanics(outs: seq<Outcome>)
    ensures RunAsWritten(NilLogger, outs) == [Panic]
  {
  }

  /** With a logger set, runTerminationProcedures as written produces the
      silent model's events. */
  lemma RunWithLogger(log: Logger, outs: seq<Outcome>)
    requires !log.NilLogger?
    ensures RunAsWritten(log, outs) == Run(outs).events
  {
    if |outs| > 0 {
      ProcedureLoopWithLogger(log, outs, 0);
      assert RunEvents(outs, 0) + [] == RunEvents(outs, 0);
    }
  }

  /** With a logger set, handleTerminationSignals as written is the silent
      model's trace. */
  lemma TerminationWithLogger(h: Handlers, sig: Signal)
    requires !h.log.NilLogger?
    ensures HandleTerminationSignalsAsWritten(h, sig) == HandleTerminationSignals(h, sig)
  {
    var outs := Outcomes(h.procedures, sig);
    RunWithLogger(h.log, outs);
    var exit := [Exit(Run(outs).code)];
    assert Then(LogCall(h.log), exit) == exit by {
      assert [] + exit == exit;
    }
  }

  /** Through a nil logger, handleTerminationSignals as written panics at
      once and never reaches exit. */
  lemma TerminationNilLogger(h: Handlers, sig: Signal)
    requires h.log.NilLogger?
    ensures HandleTerminationSignalsAsWritten(h, sig) == [Panic]
  {
    NilLoggerRunPanics(Outcomes(h.procedures, sig));
  }

  lemma {:induction false} InvokeAllWithLogger(h: Handlers, refs: seq<HandlerRef>, sig: Signal)
    requires !h.log.NilLogger?
    ensures InvokeAllAsWritten(h, refs, sig) == InvokeAll(h, refs, sig)
    decreases |refs|
  {
    if |refs| > 0 {
      InvokeAllWithLogger(h, refs[1..], sig);
      TerminationWithLogger(h, sig);
      assert InvokeAsWritten(h, refs[0], sig) == Invoke(h, refs[0], sig);
    }
  }

  lemma {:induction false} ScanWithLogger(h: Handlers, order: seq<Key>, target: Signal)
    requires !h.log.NilLogger?
    ensures ScanAsWritten(h, order, target) == InvokeAll(h, Scan(h.handlers, order, target), target)
    decreases |order|
  {
    if |order| > 0 {
      ScanWithLogger(h, order[1..], target);
      var head := if order[0] == Specific(target) then Lookup(h.handlers, order[0]) else [];
      InvokeAllWithLogger(h, head, target);
      InvokeAllAppend(h, head, Scan(h.handlers, order[1..], target), target);
    }
  }

  /** With a logger set, handleSignal as written produces the silent model's
      trace in every iteration order Go may choose. */
  lemma HandleSignalWithLogger(h: Handlers, target: Signal, order: seq<Key>)
    requires !h.log.NilLogger? && Enumerates(order, h.handlers)
    ensures HandleSignalAsWritten(h, target, order) == HandleSignal(h, target)
  {
    var w := Lookup(h.handlers, Wildcard);
    InvokeAllWithLogger(h, w, target);
    ScanWithLogger(h, order, target);
    InvokeAllAppend(h, w, Scan(h.handlers, order, target), target);
  }

  lemma {:induction false} InvokeAllNilLoggerSkipsExit(h: Handlers, refs: seq<HandlerRef>, sig: Signal)
    requires h.log.NilLogger?
    ensures ExitCodes(InvokeAllAsWritten(h, refs, sig)) == []
    ensures Invoked(InvokeAllAsWritten(h, refs, sig)) == []
    decreases |refs|
  {
    if |refs| > 0 {
      InvokeAllNilLoggerSkipsExit(h, refs[1..], sig);
      TerminationNilLogger(h, sig);
      assert ExitCodes(InvokeAsWritten(h, refs[0], sig)) == [] && Invoked(InvokeAsWritten(h, refs[0], sig)) == [] by {
        assert [Panic][1..] == [];
      }
    }
  }

  /** Through a nil logger the scan panics once it reaches the wildcard key,
      if not before, invokes no procedure and never calls exit. */
  lemma {:induction false} ScanNilLogger(h: Handlers, order: seq<Key>, target: Signal)
    requires h.log.NilLogger?
    ensures Wildcard in order ==> Panicked(ScanAsWritten(h, order, target))
    ensures ExitCodes(ScanAsWritten(h, order, target)) == []
    ensures Invoked(ScanAsWritten(h, order, target)) == []
    decreases |order|
  {
    if |order| > 0 {
      ScanNilLogger(h, order[1..], target);
      InvokeAllNilLoggerSkipsExit(h, Lookup(h.handlers, order[0]), target);
      if order[0] == Wildcard {
        assert ScanAsWritten(h, order, target) == [Panic];
      } else {
        assert Wildcard in order ==> Wildcard in order[1..];
      }
    }
  }

  /** After SetLogger(nil), handleSignal as written panics in every iteration
      order, whatever the signal; no procedure is invoked and the exit
      function is never called: the panic ends the process without running
      the procedures and without the resolved exit code. */
  lemma NilLoggerSkipsExit(h: Handlers, target: Signal, order: seq<Key>)
    requires h.log.NilLogger? && Valid(h) && Enumerates(order, h.handlers)
    ensures Panicked(HandleSignalAsWritten(h, target, order))
    ensures ExitCodes(HandleSignalAsWritten(h, target, order)) == []
    ensures Invoked(HandleSignalAsWritten(h, target, order)) == []
  {
    InvokeAllNilLoggerSkipsExit(h, Lookup(h.handlers, Wildcard), target);
    ScanNilLogger(h, order, target);
  }

  /** The default handlers with the logger set to nil: SIGTERM calls the exit
      function with 0 in the silent model; as written it never calls it, and
      the panic ends the process instead. */
  lemma SilencedDefaultsSkipExit(order: seq<Key>)
    requires Enumerates(order, NewHandlers([]).handlers)
    ensures ExitCodes(HandleSignal(SetLogger(NewHandlers([]), NilLogger), SIGTERM)) == [0]
    ensures ExitCodes(HandleSignalAsWritten(SetLogger(NewHandlers([]), NilLogger), SIGTERM, order)) == []
  {
    var h := SetLogger(NewHandlers([]), NilLogger);
    HandleSignalIgnoresLogger(NewHandlers([]), NilLogger, SIGTERM);
    NilLoggerSkipsExit(h, SIGTERM, order);
    assert Count([SIGTERM, SIGINT], SIGTERM) == 1 by {
      assert [SIGTERM, SIGINT][1..] == [SIGINT];
      assert [SIGINT][1..] == [];
    }
    assert Repeat(0, 1) == [0];
  }
}
