/** The observable trace of dispatching a signal: which callbacks ran, in which
    order, and the calls of the exit function. */
module Trace {
  import opened Signals

  datatype Event =
    | Handled(handler: nat, sig: Signal)  // a client handler ran with sig
    | ProcedureRan(index: nat)            // the termination procedure at index was invoked
    | Performed(action: nat)              // a callback performed an opaque action
    | Exit(code: int)                     // the exit function was called with code
    | Panic                               // a panic unwound the dispatch; nothing after it ran

  /** The indices of the termination procedures invoked, in order. */
  function Invoked(events: seq<Event>): seq<nat>
    decreases |events|
  {
    if |events| == 0 then []
    else (if events[0].ProcedureRan? then [events[0].index] else []) + Invoked(events[1..])
  }

  /** The codes the exit function was called with, in order. */
  function ExitCodes(events: seq<Event>): seq<int>
    decreases |events|
  {
    if |events| == 0 then []
    else (if events[0].Exit? then [events[0].code] else []) + ExitCodes(events[1..])
  }

  /** The client handlers that ran and the signal each was given, in order. */
  function HandledCalls(events: seq<Event>): seq<(nat, Signal)>
    decreases |events|
  {
    if |events| == 0 then []
    else (if events[0].Handled? then [(events[0].handler, events[0].sig)] else []) + HandledCalls(events[1..])
  }

  /** The actions the callbacks performed, in order. */
  function Actions(events: seq<Event>): seq<nat>
    decreases |events|
  {
    if |events| == 0 then []
    else (if events[0].Performed? then [events[0].action] else []) + Actions(events[1..])
  }

  /** Each projection of a concatenated trace is the concatenation of the
      projections. */
  lemma {:induction false} InvokedAppend(a: seq<Event>, b: seq<Event>)
    ensures Invoked(a + b) == Invoked(a) + Invoked(b)
    decreases |a|
  {
    if |a| == 0 {
      assert a + b == b;
    } else {
      assert (a + b)[0] == a[0];
      assert (a + b)[1..] == a[1..] + b;
      InvokedAppend(a[1..], b);
    }
  }

  lemma {:induction false} ExitCodesAppend(a: seq<Event>, b: seq<Event>)
    ensures ExitCodes(a + b) == ExitCodes(a) + ExitCodes(b)
    decreases |a|
  {
    if |a| == 0 {
      assert a + b == b;
    } else {
      assert (a + b)[0] == a[0];
      assert (a + b)[1..] == a[1..] + b;
      ExitCodesAppend(a[1..], b);
    }
  }

  lemma {:induction false} HandledCallsAppend(a: seq<Event>, b: seq<Event>)
    ensures HandledCalls(a + b) == HandledCalls(a) + HandledCalls(b)
    decreases |a|
  {
    if |a| == 0 {
      assert a + b == b;
    } else {
      assert (a + b)[0] == a[0];
      assert (a + b)[1..] == a[1..] + b;
      HandledCallsAppend(a[1..], b);
    }
  }

  lemma {:induction false} ActionsAppend(a: seq<Event>, b: seq<Event>)
    ensures Actions(a + b) == Actions(a) + Actions(b)
    decreases |a|
  {
    if |a| == 0 {
      assert a + b == b;
    } else {
      assert (a + b)[0] == a[0];
      assert (a + b)[1..] == a[1..] + b;
      ActionsAppend(a[1..], b);
    }
  }

  lemma ProjectionsAppend(a: seq<Event>, b: seq<Event>)
    ensures Invoked(a + b) == Invoked(a) + Invoked(b)
    ensures ExitCodes(a + b) == ExitCodes(a) + ExitCodes(b)
    ensures HandledCalls(a + b) == HandledCalls(a) + HandledCalls(b)
    ensures Actions(a + b) == Actions(a) + Actions(b)
  {
    InvokedAppend(a, b);
    ExitCodesAppend(a, b);
    HandledCallsAppend(a, b);
    ActionsAppend(a, b);
  }

  /** The projections of a lone procedure start. */
  lemma ProjectionsOfRan(index: nat)
    ensures Invoked([ProcedureRan(index)]) == [index] && Actions([ProcedureRan(index)]) == []
    ensures HandledCalls([ProcedureRan(index)]) == [] && ExitCodes([ProcedureRan(index)]) == []
  {
    assert [ProcedureRan(index)][1..] == [];
  }

  /** The projections of a lone call of exit. */
  lemma ProjectionsOfExit(code: int)
    ensures Invoked([Exit(code)]) == [] && Actions([Exit(code)]) == []
    ensures HandledCalls([Exit(code)]) == [] && ExitCodes([Exit(code)]) == [code]
  {
    assert [Exit(code)][1..] == [];
  }
}
