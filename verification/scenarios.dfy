/** Properties of whole Handlers values built through the public operations,
    including the situations the package's own tests exercise. */
module Scenarios {
  import opened Wrappers
  import opened Seqs
  import opened Signals
  import opened ExitCode
  import opened Registry
  import opened Trace
  import opened Termination
  import opened SignalHandlers

  /** The default list replaces only an empty one: a single nil signal is
      kept as given. */
  lemma DefaultsOnlyForEmptyList()
    ensures NewHandlers([]).terminationSignals == [SIGTERM, SIGINT]
    ensures NewHandlers([NilSignal]).terminationSignals == [NilSignal]
  {
  }

  /** A termination signal named once makes dispatch call exit exactly once,
      with the first non-zero resolved code of the procedures. */
  lemma TerminationSignalExitsOnce(h: Handlers, sig: Signal)
    requires Valid(h) && Count(h.terminationSignals, sig) == 1
    ensures ExitCodes(HandleSignal(h, sig)) == [FirstNonZeroCode(Outcomes(h.procedures, sig))]
  {
    assert Repeat(TerminationCode(h, sig), 1) == [TerminationCode(h, sig)];
  }

  /** A signal that is not a termination signal never reaches exit. */
  lemma OtherSignalsNeverExit(h: Handlers, sig: Signal)
    requires Valid(h) && sig !in h.terminationSignals
    ensures ExitCodes(HandleSignal(h, sig)) == []
  {
    CountZeroIffAbsent(h.terminationSignals, sig);
  }

  /** With the default termination signals and no procedures, each default
      signal calls exit exactly once, with 0. */
  lemma DefaultSignalsExitWithZero(sig: Signal)
    requires sig in DefaultTerminationSignals
    ensures ExitCodes(HandleSignal(NewHandlers([]), sig)) == [0]
  {
    var h := NewHandlers([]);
    DefaultHandlersBindEachSignalOnce(sig);
    TerminationSignalExitsOnce(h, sig);
  }

  /** With a single procedure registered, a termination signal named once
      calls exit once with the code that procedure's result resolves to. */
  lemma SingleProcedureCode(h: Handlers, fn: TerminationFunc, message: string, sig: Signal)
    requires Valid(h) && h.procedures == [] && Count(h.terminationSignals, sig) == 1
    ensures ExitCodes(HandleSignal(RegisterTerminationProcedure(h, fn, message), sig)) == [ResolvedCode(fn(sig).err)]
  {
    var h1 := RegisterTerminationProcedure(h, fn, message);
    TerminationSignalExitsOnce(h1, sig);
    var outs := Outcomes(h1.procedures, sig);
    assert outs == [fn(sig)];
    assert outs[1..] == [];
  }

  /** A termination callback that performs nothing and returns err. */
  function FailWith(err: Option<Err>): (f: TerminationFunc)
    ensures forall sig :: f(sig).err == err
  {
    sig => Outcome([], err)
  }

  /** The handlers NewHandlers builds with no signals given. */
  lemma DefaultHandlersBindEachSignalOnce(sig: Signal)
    requires sig in DefaultTerminationSignals
    ensures Valid(NewHandlers([])) && NewHandlers([]).procedures == []
    ensures Count(NewHandlers([]).terminationSignals, sig) == 1
  {
  }

  /** A lone procedure failing with a code-carrying error sets that code. */
  lemma CodedErrorSetsItsCode(sig: Signal, code: int, id: nat)
    requires sig in DefaultTerminationSignals
    ensures ExitCodes(HandleSignal(RegisterTerminationProcedure(NewHandlers([]), FailWith(WrapErrorWithCode(Some(Plain(id)), code)), ""), sig)) == [code]
  {
    var h := NewHandlers([]);
    DefaultHandlersBindEachSignalOnce(sig);
    SingleProcedureCode(h, FailWith(WrapErrorWithCode(Some(Plain(id)), code)), "", sig);
  }

  /** A lone procedure failing with a plain error sets the default code 1. */
  lemma PlainErrorSetsOne(sig: Signal, id: nat)
    requires sig in DefaultTerminationSignals
    ensures ExitCodes(HandleSignal(RegisterTerminationProcedure(NewHandlers([]), FailWith(Some(Plain(id))), ""), sig)) == [1]
  {
    var h := NewHandlers([]);
    var f := FailWith(Some(Plain(id)));
    DefaultHandlersBindEachSignalOnce(sig);
    SingleProcedureCode(h, f, "", sig);
    assert ResolvedCode(f(sig).err) == 1;
  }

  /** A lone procedure made by NewTerminationFunc never fails, so exit gets 0. */
  lemma AdaptedProcedureExitsWithZero(sig: Signal, action: nat)
    requires sig in DefaultTerminationSignals
    ensures ExitCodes(HandleSignal(RegisterTerminationProcedure(NewHandlers([]), NewTerminationFunc(action), ""), sig)) == [0]
  {
    var h := NewHandlers([]);
    DefaultHandlersBindEachSignalOnce(sig);
    SingleProcedureCode(h, NewTerminationFunc(action), "", sig);
  }

  lemma TwoClientCalls(x: nat, y: nat, sig: Signal)
    ensures ClientCalls([Client(x), Client(y)], sig) == [(x, sig), (y, sig)]
  {
    assert [Client(x), Client(y)][1..] == [Client(y)];
    assert [Client(y)][1..] == [];
    assert ClientCalls([Client(y)], sig) == [(y, sig)];
  }

  /** Registering for one signal extends only that signal's list. */
  lemma RegisterForOne(h: Handlers, id: nat, sig: Signal)
    ensures Lookup(RegisterSignalHandler(h, id, [sig]).handlers, Specific(sig)) == Lookup(h.handlers, Specific(sig)) + [Client(id)]
    ensures Lookup(RegisterSignalHandler(h, id, [sig]).handlers, Wildcard) == Lookup(h.handlers, Wildcard)
  {
    assert Occurrences([sig], Wildcard) == 0;
    assert Count([sig], sig) == 1;
    assert Occurrences([sig], Specific(sig)) == 1;
    assert Repeat(Client(id), 1) == [Client(id)];
  }

  /** Registering for all signals extends only the wildcard list. */
  lemma RegisterForAll(h: Handlers, id: nat, sig: Signal)
    ensures Lookup(RegisterSignalHandler(h, id, []).handlers, Specific(sig)) == Lookup(h.handlers, Specific(sig))
    ensures Lookup(RegisterSignalHandler(h, id, []).handlers, Wildcard) == Lookup(h.handlers, Wildcard) + [Client(id)]
  {
  }

  /** The lists left by registering f1 and f2 for SIGUSR1, then a1 and a2 for
      all signals. */
  lemma ExecutionOrderLists(h: Handlers, a1: nat, a2: nat, f1: nat, f2: nat)
    requires Lookup(h.handlers, Wildcard) == [] && Lookup(h.handlers, Specific(SIGUSR1)) == []
    ensures
      var h4 := RegisterSignalHandler(RegisterSignalHandler(RegisterSignalHandler(RegisterSignalHandler(h, f1, [SIGUSR1]), f2, [SIGUSR1]), a1, []), a2, []);
      Lookup(h4.handlers, Wildcard) == [Client(a1), Client(a2)] && Lookup(h4.handlers, Specific(SIGUSR1)) == [Client(f1), Client(f2)]
  {
    var h1 := RegisterSignalHandler(h, f1, [SIGUSR1]);
    var h2 := RegisterSignalHandler(h1, f2, [SIGUSR1]);
    var h3 := RegisterSignalHandler(h2, a1, []);
    RegisterForOne(h, f1, SIGUSR1);
    RegisterForOne(h1, f2, SIGUSR1);
    RegisterForAll(h2, a1, SIGUSR1);
    RegisterForAll(h3, a2, SIGUSR1);
  }

  /** Wildcard handlers run before the target's handlers, each in
      registration order and each given the target, whatever order the
      registrations came in. */
  lemma ExecutionOrder(h: Handlers, a1: nat, a2: nat, f1: nat, f2: nat)
    requires Lookup(h.handlers, Wildcard) == [] && Lookup(h.handlers, Specific(SIGUSR1)) == []
    ensures
      var h4 := RegisterSignalHandler(RegisterSignalHandler(RegisterSignalHandler(RegisterSignalHandler(h, f1, [SIGUSR1]), f2, [SIGUSR1]), a1, []), a2, []);
      HandledCalls(HandleSignal(h4, SIGUSR1)) == [(a1, SIGUSR1), (a2, SIGUSR1), (f1, SIGUSR1), (f2, SIGUSR1)]
  {
    var h4 := RegisterSignalHandler(RegisterSignalHandler(RegisterSignalHandler(RegisterSignalHandler(h, f1, [SIGUSR1]), f2, [SIGUSR1]), a1, []), a2, []);
    ExecutionOrderLists(h, a1, a2, f1, f2);
    TwoClientCalls(f1, f2, SIGUSR1);
    TwoClientCalls(a1, a2, SIGUSR1);
  }

  /** The handlers built with a nil termination signal have neither wildcard
      handlers nor SIGUSR1 handlers yet. */
  lemma NilSignalHandlersStartEmpty()
    ensures Lookup(NewHandlers([NilSignal]).handlers, Wildcard) == []
    ensures Lookup(NewHandlers([NilSignal]).handlers, Specific(SIGUSR1)) == []
  {
    assert Count([NilSignal], SIGUSR1) == 0;
  }

  /** Two procedures made by NewTerminationFunc perform their actions in
      registration order when the procedures run. */
  lemma ProceduresActInOrder(first: nat, second: nat, sig: Signal)
    ensures
      var h := RegisterTerminationProcedure(RegisterTerminationProcedure(NewHandlers([]), NewTerminationFunc(first), ""), NewTerminationFunc(second), "");
      Actions(Run(Outcomes(h.procedures, sig)).events) == [first, second]
  {
    var h := RegisterTerminationProcedure(RegisterTerminationProcedure(NewHandlers([]), NewTerminationFunc(first), ""), NewTerminationFunc(second), "");
    var outs := Outcomes(h.procedures, sig);
    assert |outs| == 2 && outs[0].actions == [first] && outs[1].actions == [second];
    assert outs[1..][1..] == [];
    assert AllActions(outs[1..]) == [second];
  }

  /** With no procedures and no wildcard handlers, a signal whose list is
      the termination handler followed by client id gives exit with 0, then
      the client. */
  lemma ClientAfterExit(h: Handlers, id: nat, sig: Signal)
    requires h.procedures == []
    requires Lookup(h.handlers, Wildcard) == [] && Lookup(h.handlers, Specific(sig)) == [TerminationHandler, Client(id)]
    ensures HandleSignal(h, sig) == [Exit(0), Handled(id, sig)]
  {
    var refs := Lookup(h.handlers, Specific(sig));
    assert InvokeAll(h, refs, sig) == Invoke(h, TerminationHandler, sig) + InvokeAll(h, refs[1..], sig);
    assert InvokeAll(h, refs[1..], sig) == [Handled(id, sig)] by {
      assert refs[1..] == [Client(id)];
      assert InvokeAll(h, [Client(id)], sig) == Invoke(h, Client(id), sig) + InvokeAll(h, [], sig);
    }
    assert Invoke(h, TerminationHandler, sig) == [Exit(0)] by {
      assert HandleTerminationSignals(h, sig) == [Exit(0)];
    }
  }

  /** A client handler registered for SIGTERM on the default handlers runs
      after the exit call, so the real os.Exit would keep it from running. */
  lemma ClientOfTerminationSignalRunsAfterExit(id: nat)
    ensures HandleSignal(RegisterSignalHandler(NewHandlers([]), id, [SIGTERM]), SIGTERM) == [Exit(0), Handled(id, SIGTERM)]
  {
    DefaultSigtermList();
    RegisteredAfterTermination(NewHandlers([]), id, SIGTERM);
  }

  /** The default handlers bind SIGTERM to the termination handler alone. */
  lemma DefaultSigtermList()
    ensures NewHandlers([]).procedures == [] && Lookup(NewHandlers([]).handlers, Wildcard) == []
    ensures Lookup(NewHandlers([]).handlers, Specific(SIGTERM)) == [TerminationHandler]
  {
    assert Count([SIGTERM, SIGINT], SIGTERM) == 1 by {
      CountCons([SIGTERM, SIGINT], SIGTERM);
      assert [SIGTERM, SIGINT][1..] == [SIGINT];
      CountCons([SIGINT], SIGTERM);
      assert [SIGINT][1..] == [];
    }
    assert Repeat(TerminationHandler, 1) == [TerminationHandler];
  }

  /** A client registered for a signal bound to the termination handler
      alone runs after exit. */
  lemma RegisteredAfterTermination(h: Handlers, id: nat, sig: Signal)
    requires h.procedures == [] && Lookup(h.handlers, Wildcard) == [] && Lookup(h.handlers, Specific(sig)) == [TerminationHandler]
    ensures HandleSignal(RegisterSignalHandler(h, id, [sig]), sig) == [Exit(0), Handled(id, sig)]
  {
    RegisterForOne(h, id, sig);
    ClientAfterExit(RegisterSignalHandler(h, id, [sig]), id, sig);
  }
}
