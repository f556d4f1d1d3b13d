/** The Handlers facade of signal/handlers.go: construction, registration,
    logger replacement and the dispatch of one received signal, with the exit
    function observed as an Exit event of the trace. */
module SignalHandlers {
  import opened Seqs
  import opened Signals
  import opened ExitCode
  import opened Registry
  import opened Trace
  import opened Termination

  /** The Logger interface value: the standard logger, a client's logger, or
      nil, which SetLogger accepts. This module gives logging no effect, so a
      nil logger silences it; the source instead panics at the first log call
      through nil, which the AsWritten module models. */
  datatype Logger = NilLogger | StdLogger | CustomLogger(id: nat)

  /** The Handlers struct without its lock and its exit function. */
  datatype Handlers = Handlers(
    log: Logger,
    handlers: Table,
    terminationSignals: seq<Signal>,
    procedures: seq<Procedure>)

  /** DefaultTerminationSignals. */
  const DefaultTerminationSignals: seq<Signal> := [SIGTERM, SIGINT]

  /** A list of client handlers only. */
  predicate ClientsOnly(refs: seq<HandlerRef>) {
    forall i :: 0 <= i < |refs| ==> refs[i].Client?
  }

  /** refs starts with n termination handlers and holds only client
      handlers after them. */
  predicate TerminationFirst(refs: seq<HandlerRef>, n: nat) {
    n <= |refs| && refs[..n] == Repeat(TerminationHandler, n) && ClientsOnly(refs[n..])
  }

  /** What every reachable Handlers value satisfies: the wildcard key is
      present, and the termination handler is bound to each termination
      signal once per occurrence of it in the list, and to nothing else.
      Installed first, the termination handlers head every list, and only
      client handlers follow them. */
  ghost predicate Valid(h: Handlers) {
    && Wildcard in h.handlers
    && (forall k :: Count(Lookup(h.handlers, k), TerminationHandler) == Occurrences(h.terminationSignals, k))
    && (forall k :: TerminationFirst(Lookup(h.handlers, k), Occurrences(h.terminationSignals, k)))
  }

  /** installTerminationHandlers: binds the termination handler to every
      termination signal, starting from the table holding only the empty
      wildcard list. */
  function InstallTerminationHandlers(ts: seq<Signal>): (t: Table)
    requires |ts| > 0
    ensures t.Keys == {Wildcard} + KeysOf(ts)
    ensures t[Wildcard] == []
    ensures forall k :: Lookup(t, k) == Repeat(TerminationHandler, Occurrences(ts, k))
  {
    var empty: Table := map[Wildcard := []];
    assert forall k :: Lookup(empty, k) == [];
    var t := Register(empty, TerminationHandler, ts);
    assert Lookup(t, Wildcard) == [];
    t
  }

  /** NewHandlers: the defaults are used only when no signal is given; the
      table holds an empty wildcard list and, under each termination signal,
      the termination handler once per occurrence of that signal. */
  function NewHandlers(terminationSignals: seq<Signal>): (h: Handlers)
    ensures h.terminationSignals == if |terminationSignals| == 0 then DefaultTerminationSignals else terminationSignals
    ensures h.handlers.Keys == {Wildcard} + KeysOf(h.terminationSignals)
    ensures h.handlers[Wildcard] == []
    ensures forall s :: Lookup(h.handlers, Specific(s)) == Repeat(TerminationHandler, Count(h.terminationSignals, s))
    ensures h.procedures == [] && h.log == StdLogger
    ensures Valid(h)
  {
    var ts := if |terminationSignals| == 0 then DefaultTerminationSignals else terminationSignals;
    var t := InstallTerminationHandlers(ts);
    assert forall s :: Lookup(t, Specific(s)) == Repeat(TerminationHandler, Count(ts, s)) by {
      forall s ensures Lookup(t, Specific(s)) == Repeat(TerminationHandler, Count(ts, s)) {
        assert Occurrences(ts, Specific(s)) == Count(ts, s);
      }
    }
    assert forall k :: Count(Lookup(t, k), TerminationHandler) == Occurrences(ts, k) by {
      forall k
        ensures Count(Lookup(t, k), TerminationHandler) == Occurrences(ts, k)
      {
        CountRepeatSame(TerminationHandler, Occurrences(ts, k));
      }
    }
    assert forall k :: TerminationFirst(Lookup(t, k), Occurrences(ts, k)) by {
      forall k
        ensures TerminationFirst(Lookup(t, k), Occurrences(ts, k))
      {
        var n := Occurrences(ts, k);
        assert Lookup(t, k)[..n] == Lookup(t, k);
      }
    }
    Handlers(StdLogger, t, ts, [])
  }

  /** Appending handlers other than the termination handler keeps its count. */
  lemma ClientsDoNotCountAsTermination(a: seq<HandlerRef>, id: nat, n: nat)
    ensures Count(a + Repeat(Client(id), n), TerminationHandler) == Count(a, TerminationHandler)
  {
    CountAppend(a, Repeat(Client(id), n), TerminationHandler);
    CountRepeatOther(Client(id), n, TerminationHandler);
  }

  /** Registering a client handler leaves the termination handler's count
      under every key as it was. */
  lemma RegisterClientKeepsTerminationCounts(t: Table, id: nat, signals: seq<Signal>)
    ensures forall k :: Count(Lookup(Register(t, Client(id), signals), k), TerminationHandler) == Count(Lookup(t, k), TerminationHandler)
  {
    var r := Register(t, Client(id), signals);
    forall k
      ensures Count(Lookup(r, k), TerminationHandler) == Count(Lookup(t, k), TerminationHandler)
    {
      if |signals| == 0 {
        if k == Wildcard {
          assert Repeat(Client(id), 1) == [Client(id)];
          ClientsDoNotCountAsTermination(Lookup(t, k), id, 1);
        }
      } else {
        ClientsDoNotCountAsTermination(Lookup(t, k), id, Occurrences(signals, k));
      }
    }
  }

  /** RegisterSignalHandler for the client handler id: no signals appends it to
      the end of the wildcard list and leaves every other key alone; otherwise
      it is appended to the end of each named signal's list (created when
      absent), once per time the signal is named. */
  function RegisterSignalHandler(h: Handlers, id: nat, signals: seq<Signal>): (r: Handlers)
    ensures r.log == h.log && r.terminationSignals == h.terminationSignals && r.procedures == h.procedures
    ensures |signals| == 0 ==> Lookup(r.handlers, Wildcard) == Lookup(h.handlers, Wildcard) + [Client(id)]
    ensures |signals| == 0 ==> forall k :: k != Wildcard ==> (k in r.handlers <==> k in h.handlers) && Lookup(r.handlers, k) == Lookup(h.handlers, k)
    ensures |signals| > 0 ==> r.handlers.Keys == h.handlers.Keys + KeysOf(signals)
    ensures |signals| > 0 ==> forall k :: Lookup(r.handlers, k) == Lookup(h.handlers, k) + Repeat(Client(id), Occurrences(signals, k))
  {
    h.(handlers := Register(h.handlers, Client(id), signals))
  }

  /** Client handlers appended after the termination handlers stay after
      them. */
  lemma AppendClientsKeepsOrder(refs: seq<HandlerRef>, n: nat, id: nat, m: nat)
    requires TerminationFirst(refs, n)
    ensures TerminationFirst(refs + Repeat(Client(id), m), n)
  {
    var r := refs + Repeat(Client(id), m);
    assert r[..n] == refs[..n];
    assert r[n..] == refs[n..] + Repeat(Client(id), m);
  }

  /** Registering a client handler keeps every list in the order
      termination handlers first, client handlers after. */
  lemma RegisterClientKeepsOrder(t: Table, ts: seq<Signal>, id: nat, signals: seq<Signal>)
    requires forall k :: TerminationFirst(Lookup(t, k), Occurrences(ts, k))
    ensures forall k :: TerminationFirst(Lookup(Register(t, Client(id), signals), k), Occurrences(ts, k))
  {
    var r := Register(t, Client(id), signals);
    forall k
      ensures TerminationFirst(Lookup(r, k), Occurrences(ts, k))
    {
      if |signals| == 0 {
        if k == Wildcard {
          assert Repeat(Client(id), 1) == [Client(id)];
          AppendClientsKeepsOrder(Lookup(t, k), Occurrences(ts, k), id, 1);
        }
      } else {
        AppendClientsKeepsOrder(Lookup(t, k), Occurrences(ts, k), id, Occurrences(signals, k));
      }
    }
  }

  /** Registration only ever grows: no list shrinks, the wildcard key is
      never removed, and a valid Handlers stays valid. */
  lemma RegisterSignalHandlerKeepsInvariants(h: Handlers, id: nat, signals: seq<Signal>)
    ensures forall k :: Lookup(h.handlers, k) <= Lookup(RegisterSignalHandler(h, id, signals).handlers, k)
    ensures Wildcard in h.handlers ==> Wildcard in RegisterSignalHandler(h, id, signals).handlers
    ensures Valid(h) ==> Valid(RegisterSignalHandler(h, id, signals))
  {
    RegisterClientKeepsTerminationCounts(h.handlers, id, signals);
    if Valid(h) {
      RegisterClientKeepsOrder(h.handlers, h.terminationSignals, id, signals);
    }
  }

  /** Naming signals leaves the wildcard list and every unnamed key's list
      exactly as they were. */
  lemma RegisterLeavesUnnamedKeys(h: Handlers, id: nat, signals: seq<Signal>, k: Key)
    requires |signals| > 0 && k !in KeysOf(signals)
    ensures Lookup(RegisterSignalHandler(h, id, signals).handlers, k) == Lookup(h.handlers, k)
    ensures k in RegisterSignalHandler(h, id, signals).handlers <==> k in h.handlers
  {
    if k.Specific? {
      assert k.sig !in signals;
      CountZeroIffAbsent(signals, k.sig);
    }
  }

  /** RegisterTerminationProcedure: the procedure goes to the end of the list;
      earlier procedures and the signal table are untouched. */
  function RegisterTerminationProcedure(h: Handlers, fn: TerminationFunc, message: string): (r: Handlers)
    ensures |r.procedures| == |h.procedures| + 1
    ensures r.procedures[..|h.procedures|] == h.procedures
    ensures r.procedures[|h.procedures|].fn == fn && r.procedures[|h.procedures|].message == message
    ensures r.handlers == h.handlers && r.terminationSignals == h.terminationSignals && r.log == h.log
    ensures Valid(h) ==> Valid(r)
  {
    h.(procedures := h.procedures + [Procedure(fn, message)])
  }

  /** SetLogger: replaces the logger, nil included, and nothing else. */
  function SetLogger(h: Handlers, l: Logger): (r: Handlers)
    ensures r.log == l
    ensures r.handlers == h.handlers && r.terminationSignals == h.terminationSignals && r.procedures == h.procedures
    ensures Valid(r) <==> Valid(h)
  {
    h.(log := l)
  }

  /** What the registered procedures return when run with sig. */
  function Outcomes(procs: seq<Procedure>, sig: Signal): (outs: seq<Outcome>)
    ensures |outs| == |procs|
    ensures forall i :: 0 <= i < |procs| ==> outs[i] == procs[i].fn(sig)
  {
    seq(|procs|, i requires 0 <= i < |procs| => procs[i].fn(sig))
  }

  /** The exit code a termination signal sig leads to. */
  function TerminationCode(h: Handlers, sig: Signal): int {
    FirstNonZeroCode(Outcomes(h.procedures, sig))
  }

  /** handleTerminationSignals: runs every procedure once, in order, then calls
      exit exactly once, last, with the resolved code. */
  function HandleTerminationSignals(h: Handlers, sig: Signal): (trace: seq<Event>)
    ensures |trace| > 0 && trace[|trace| - 1] == Exit(TerminationCode(h, sig))
    ensures ExitCodes(trace) == [TerminationCode(h, sig)]
    ensures Invoked(trace) == Range(0, |h.procedures|)
    ensures Actions(trace) == AllActions(Outcomes(h.procedures, sig))
    ensures HandledCalls(trace) == []
    ensures Panic !in trace
  {
    var run := Run(Outcomes(h.procedures, sig));
    var exit := [Exit(run.code)];
    ProjectionsOfExit(run.code);
    ProjectionsAppend(run.events, exit);
    run.events + exit
  }

  /** The calls of the client handlers in a handler list, each given sig, in
      list order. */
  function ClientCalls(refs: seq<HandlerRef>, sig: Signal): seq<(nat, Signal)>
    decreases |refs|
  {
    if |refs| == 0 then []
    else (if refs[0].Client? then [(refs[0].id, sig)] else []) + ClientCalls(refs[1..], sig)
  }

  lemma {:induction false} ClientCallsAppend(a: seq<HandlerRef>, b: seq<HandlerRef>, sig: Signal)
    ensures ClientCalls(a + b, sig) == ClientCalls(a, sig) + ClientCalls(b, sig)
    decreases |a|
  {
    if |a| == 0 {
      assert a + b == b;
    } else {
      assert (a + b)[0] == a[0];
      assert (a + b)[1..] == a[1..] + b;
      ClientCallsAppend(a[1..], b, sig);
    }
  }

  /** Calling one handler with sig: a client handler records one call of
      itself with sig; the termination handler runs every procedure in
      order and then calls exit, last. */
  function Invoke(h: Handlers, ref: HandlerRef, sig: Signal): (trace: seq<Event>)
    ensures ref.Client? ==> trace == [Handled(ref.id, sig)]
    ensures ref.Client? ==> HandledCalls(trace) == [(ref.id, sig)] && ExitCodes(trace) == []
    ensures ref.TerminationHandler? ==> HandledCalls(trace) == [] && ExitCodes(trace) == [TerminationCode(h, sig)]
    ensures ref.TerminationHandler? ==> Invoked(trace) == Range(0, |h.procedures|) && Actions(trace) == AllActions(Outcomes(h.procedures, sig))
    ensures ref.TerminationHandler? ==> |trace| > 0 && trace[|trace| - 1] == Exit(TerminationCode(h, sig))
    ensures Panic !in trace
  {
    match ref
    case Client(id) => [Handled(id, sig)]
    case TerminationHandler => HandleTerminationSignals(h, sig)
  }

  /** Calling the handlers of a list one after the other. No handler panics,
      so none cuts the rest of the list short. */
  function InvokeAll(h: Handlers, refs: seq<HandlerRef>, sig: Signal): (trace: seq<Event>)
    ensures Panic !in trace
    decreases |refs|
  {
    if |refs| == 0 then [] else Invoke(h, refs[0], sig) + InvokeAll(h, refs[1..], sig)
  }

  /** A list of client handlers gives exactly one call per handler, in list
      order, each with sig. */
  lemma {:induction false} InvokeAllOfClients(h: Handlers, refs: seq<HandlerRef>, sig: Signal)
    requires ClientsOnly(refs)
    ensures |InvokeAll(h, refs, sig)| == |refs|
    ensures forall i :: 0 <= i < |refs| ==> InvokeAll(h, refs, sig)[i] == Handled(refs[i].id, sig)
    decreases |refs|
  {
    if |refs| > 0 {
      var rest := refs[1..];
      assert ClientsOnly(rest) by {
        assert forall i :: 0 <= i < |rest| ==> rest[i] == refs[i + 1];
      }
      InvokeAllOfClients(h, rest, sig);
      assert InvokeAll(h, refs, sig) == [Handled(refs[0].id, sig)] + InvokeAll(h, rest, sig);
    }
  }

  /** Each client handler of the list runs once with sig, in list order. */
  lemma {:induction false} InvokeAllRunsClients(h: Handlers, refs: seq<HandlerRef>, sig: Signal)
    ensures HandledCalls(InvokeAll(h, refs, sig)) == ClientCalls(refs, sig)
    decreases |refs|
  {
    if |refs| > 0 {
      InvokeAllRunsClients(h, refs[1..], sig);
      HandledCallsAppend(Invoke(h, refs[0], sig), InvokeAll(h, refs[1..], sig));
    }
  }

  /** Exit is called once per termination handler in the list, each time
      with the resolved code. */
  lemma {:induction false} InvokeAllExits(h: Handlers, refs: seq<HandlerRef>, sig: Signal)
    ensures ExitCodes(InvokeAll(h, refs, sig)) == Repeat(TerminationCode(h, sig), Count(refs, TerminationHandler))
    decreases |refs|
  {
    if |refs| > 0 {
      var head := Invoke(h, refs[0], sig);
      var rest := InvokeAll(h, refs[1..], sig);
      var c := TerminationCode(h, sig);
      var n := Count(refs[1..], TerminationHandler);
      var m := if refs[0] == TerminationHandler then 1 else 0;
      CountCons(refs, TerminationHandler);
      InvokeAllExits(h, refs[1..], sig);
      assert ExitCodes(InvokeAll(h, refs, sig)) == ExitCodes(head) + ExitCodes(rest) by {
        assert InvokeAll(h, refs, sig) == head + rest;
        ExitCodesAppend(head, rest);
      }
      assert ExitCodes(head) + Repeat(c, n) == Repeat(c, m + n) by {
        if refs[0].TerminationHandler? {
          RepeatSucc(c, n);
        }
      }
    }
  }

  /** handleSignal: the wildcard handlers run first, then the target's own
      handlers, each list in registration order and each handler given the
      target. For a valid Handlers, exit is called once per occurrence of the
      target among the termination signals, each time with the resolved code. */
  function HandleSignal(h: Handlers, target: Signal): (trace: seq<Event>)
    ensures trace == InvokeAll(h, Lookup(h.handlers, Wildcard), target) + InvokeAll(h, Lookup(h.handlers, Specific(target)), target)
    ensures HandledCalls(trace) == ClientCalls(Lookup(h.handlers, Wildcard), target) + ClientCalls(Lookup(h.handlers, Specific(target)), target)
    ensures Panic !in trace
    ensures Valid(h) ==> ExitCodes(trace) == Repeat(TerminationCode(h, target), Count(h.terminationSignals, target))
  {
    var refs := Dispatch(h.handlers, target);
    InvokeAllRunsClients(h, refs, target);
    InvokeAllExits(h, refs, target);
    ClientCallsAppend(Lookup(h.handlers, Wildcard), Lookup(h.handlers, Specific(target)), target);
    CountAppend(Lookup(h.handlers, Wildcard), Lookup(h.handlers, Specific(target)), TerminationHandler);
    InvokeAllAppend(h, Lookup(h.handlers, Wildcard), Lookup(h.handlers, Specific(target)), target);
    InvokeAll(h, refs, target)
  }

  /** Running the concatenation of two lists is running one after the other. */
  lemma {:induction false} InvokeAllAppend(h: Handlers, a: seq<HandlerRef>, b: seq<HandlerRef>, sig: Signal)
    ensures InvokeAll(h, a + b, sig) == InvokeAll(h, a, sig) + InvokeAll(h, b, sig)
    decreases |a|
  {
    if |a| > 0 {
      assert (a + b)[0] == a[0];
      assert (a + b)[1..] == a[1..] + b;
      InvokeAllAppend(h, a[1..], b, sig);
    } else {
      assert a + b == b;
    }
  }

  /** The logger plays no part in dispatch: replacing it, nil included,
      leaves every trace as it was. */
  lemma {:induction false} InvokeAllIgnoresLogger(h: Handlers, l: Logger, refs: seq<HandlerRef>, sig: Signal)
    ensures InvokeAll(SetLogger(h, l), refs, sig) == InvokeAll(h, refs, sig)
    decreases |refs|
  {
    if |refs| > 0 {
      InvokeAllIgnoresLogger(h, l, refs[1..], sig);
      assert Invoke(SetLogger(h, l), refs[0], sig) == Invoke(h, refs[0], sig);
    }
  }

  /** Dispatch behaves the same whatever logger is set, nil included: a nil
      logger only silences logging. */
  lemma HandleSignalIgnoresLogger(h: Handlers, l: Logger, target: Signal)
    ensures HandleSignal(SetLogger(h, l), target) == HandleSignal(h, target)
  {
    InvokeAllIgnoresLogger(h, l, Dispatch(h.handlers, target), target);
  }

  /** n runs of a trace, one after the other. */
  function Copies(t: seq<Event>, n: nat): seq<Event> {
    if n == 0 then [] else t + Copies(t, n - 1)
  }

  /** n termination handlers in a row run the whole termination sequence n
      times. */
  lemma {:induction false} InvokeAllTerminationHandlers(h: Handlers, n: nat, sig: Signal)
    ensures InvokeAll(h, Repeat(TerminationHandler, n), sig) == Copies(HandleTerminationSignals(h, sig), n)
  {
    if n > 0 {
      var refs := Repeat(TerminationHandler, n);
      InvokeAllTerminationHandlers(h, n - 1, sig);
      assert InvokeAll(h, refs, sig) == Invoke(h, TerminationHandler, sig) + InvokeAll(h, Repeat(TerminationHandler, n - 1), sig) by {
        assert refs[0] == TerminationHandler && refs[1..] == Repeat(TerminationHandler, n - 1);
      }
    }
  }

  /** The shape of every list of a valid state: the wildcard list holds
      clients only, and the target's list is its termination handlers
      followed by clients only. */
  lemma ValidListShape(h: Handlers, target: Signal)
    requires Valid(h)
    ensures ClientsOnly(Lookup(h.handlers, Wildcard))
    ensures
      var refs := Lookup(h.handlers, Specific(target));
      var n := Count(h.terminationSignals, target);
      && n <= |refs| && refs == Repeat(TerminationHandler, n) + refs[n..] && ClientsOnly(refs[n..])
  {
    var w := Lookup(h.handlers, Wildcard);
    assert TerminationFirst(w, Occurrences(h.terminationSignals, Wildcard));
    assert w[0..] == w;
    var refs := Lookup(h.handlers, Specific(target));
    var n := Count(h.terminationSignals, target);
    assert TerminationFirst(refs, Occurrences(h.terminationSignals, Specific(target)));
    assert refs == refs[..n] + refs[n..];
  }

  /** Dispatch over a target list made of n termination handlers and a rest. */
  lemma DispatchShape(h: Handlers, target: Signal, n: nat)
    requires n <= |Lookup(h.handlers, Specific(target))|
    requires Lookup(h.handlers, Specific(target)) == Repeat(TerminationHandler, n) + Lookup(h.handlers, Specific(target))[n..]
    ensures HandleSignal(h, target)
      == InvokeAll(h, Lookup(h.handlers, Wildcard), target) + Copies(HandleTerminationSignals(h, target), n) + InvokeAll(h, Lookup(h.handlers, Specific(target))[n..], target)
  {
    var rest := Lookup(h.handlers, Specific(target))[n..];
    InvokeAllAppend(h, Repeat(TerminationHandler, n), rest, target);
    InvokeAllTerminationHandlers(h, n, target);
  }

  /** In a valid state dispatch runs the wildcard list, which holds clients
      only, then the termination sequence once per occurrence of the target
      among the termination signals, and only then the target's own client
      handlers. A client handler registered for a termination signal thus
      runs after exit, so with os.Exit it never runs. */
  lemma HandleSignalOrder(h: Handlers, target: Signal)
    requires Valid(h)
    ensures ClientsOnly(Lookup(h.handlers, Wildcard))
    ensures
      var refs := Lookup(h.handlers, Specific(target));
      var n := Count(h.terminationSignals, target);
      && n <= |refs| && ClientsOnly(refs[n..])
      && HandleSignal(h, target)
         == InvokeAll(h, Lookup(h.handlers, Wildcard), target) + Copies(HandleTerminationSignals(h, target), n) + InvokeAll(h, refs[n..], target)
  {
    ValidListShape(h, target);
    DispatchShape(h, target, Count(h.terminationSignals, target));
  }
}
