/** The termination pipeline of signal/handlers.go (runTerminationProcedures):
    every procedure runs, in registration order, and the errors fold into one
    exit code. */
module Termination {
  import opened Wrappers
  import opened Seqs
  import opened ExitCode
  import opened Trace

  /** The code an individual result contributes: 0 for nil, otherwise the
      carried code or the default 1. */
  function ResolvedCode(err: Option<Err>): int {
    if err.None? then 0 else GetCodeFromError(err, 1)
  }

  /** Reference definition of the aggregate exit code: the first non-zero
      resolved code, in registration order, or 0 when there is none. */
  function FirstNonZeroCode(outs: seq<Outcome>): int
    decreases |outs|
  {
    if |outs| == 0 then 0
    else if ResolvedCode(outs[0].err) != 0 then ResolvedCode(outs[0].err)
    else FirstNonZeroCode(outs[1..])
  }

  /** One step of the loop: an error sets the code only while it is still 0. */
  function Latch(code: int, err: Option<Err>): (c: int)
    ensures code != 0 ==> c == code
    ensures code == 0 ==> c == ResolvedCode(err)
  {
    if err.None? then code
    else if code == 0 then GetCodeFromError(err, 1)
    else code
  }

  /** The loop over procedures i.. starting from code. A non-zero code is
      kept; from 0 the loop reaches the first non-zero resolved code. */
  function FoldCodes(outs: seq<Outcome>, i: nat, code: int): (r: int)
    requires i <= |outs|
    ensures code != 0 ==> r == code
    ensures code == 0 ==> r == FirstNonZeroCode(outs[i..])
    decreases |outs| - i
  {
    if i == |outs| then code
    else
      assert outs[i..][0] == outs[i] && outs[i..][1..] == outs[i + 1..];
      FoldCodes(outs, i + 1, Latch(code, outs[i].err))
  }

  /** Reference definition of what a run performs: the actions of each
      result, concatenated in registration order. */
  function AllActions(outs: seq<Outcome>): seq<nat>
    decreases |outs|
  {
    if |outs| == 0 then [] else outs[0].actions + AllActions(outs[1..])
  }

  /** The events of a callback performing its actions, in order. */
  function Effects(actions: seq<nat>): (events: seq<Event>)
    ensures Actions(events) == actions
    ensures Invoked(events) == [] && ExitCodes(events) == [] && HandledCalls(events) == []
    ensures Panic !in events
    decreases |actions|
  {
    if |actions| == 0 then []
    else
      var rest := Effects(actions[1..]);
      ProjectionsAppend([Performed(actions[0])], rest);
      [Performed(actions[0])] + rest
  }

  /** The events of procedures i..: each one is invoked, then performs its
      actions. No result stops the loop. */
  function RunEvents(outs: seq<Outcome>, i: nat): (events: seq<Event>)
    requires i <= |outs|
    ensures Invoked(events) == Range(i, |outs|)
    ensures Actions(events) == AllActions(outs[i..])
    ensures ExitCodes(events) == [] && HandledCalls(events) == []
    ensures Panic !in events
    decreases |outs| - i
  {
    if i == |outs| then []
    else
      var rest := RunEvents(outs, i + 1);
      AllActionsStep(outs, i);
      RunEventsStep(outs, i, rest);
      [ProcedureRan(i)] + Effects(outs[i].actions) + rest
  }

  lemma AllActionsStep(outs: seq<Outcome>, i: nat)
    requires i < |outs|
    ensures AllActions(outs[i..]) == outs[i].actions + AllActions(outs[i + 1..])
  {
    assert outs[i..][0] == outs[i] && outs[i..][1..] == outs[i + 1..];
  }

  /** The projections of one procedure's events followed by rest. */
  lemma RunEventsStep(outs: seq<Outcome>, i: nat, rest: seq<Event>)
    requires i < |outs|
    ensures
      var events := [ProcedureRan(i)] + Effects(outs[i].actions) + rest;
      && Invoked(events) == [i] + Invoked(rest)
      && Actions(events) == outs[i].actions + Actions(rest)
      && ExitCodes(events) == ExitCodes(rest) && HandledCalls(events) == HandledCalls(rest)
      && (Panic !in rest ==> Panic !in events)
  {
    var eff := Effects(outs[i].actions);
    assert [ProcedureRan(i)] + eff + rest == [ProcedureRan(i)] + (eff + rest);
    ProjectionsOfRan(i);
    ProjectionsAppend(eff, rest);
    ProjectionsAppend([ProcedureRan(i)], eff + rest);
  }

  datatype RunResult = RunResult(events: seq<Event>, code: int)

  /** runTerminationProcedures over the results the registered procedures
      return. With none registered nothing runs and the code is 0; otherwise
      every procedure is invoked exactly once, in registration order, and the
      code is the first non-zero resolved code. The actions performed are
      those of every result in registration order. The run never calls exit. */
  function Run(outs: seq<Outcome>): (r: RunResult)
    ensures |outs| == 0 ==> r.events == [] && r.code == 0
    ensures Invoked(r.events) == Range(0, |outs|)
    ensures Actions(r.events) == AllActions(outs)
    ensures r.code == FirstNonZeroCode(outs)
    ensures ExitCodes(r.events) == [] && HandledCalls(r.events) == []
    ensures Panic !in r.events
  {
    if |outs| == 0 then RunResult([], 0)
    else
      assert outs[0..] == outs;
      RunResult(RunEvents(outs, 0), FoldCodes(outs, 0, 0))
  }

  /** The reference definition, characterised: the code is 0 exactly when no
      result resolves to a non-zero code, and otherwise it is the code of a
      result before which every result resolved to 0. */
  lemma {:induction false} FirstNonZeroCodeCharacterized(outs: seq<Outcome>)
    ensures FirstNonZeroCode(outs) == 0 <==> forall i :: 0 <= i < |outs| ==> ResolvedCode(outs[i].err) == 0
    ensures FirstNonZeroCode(outs) != 0 ==>
      exists i :: 0 <= i < |outs| && ResolvedCode(outs[i].err) == FirstNonZeroCode(outs)
        && forall j :: 0 <= j < i ==> ResolvedCode(outs[j].err) == 0
    decreases |outs|
  {
    if |outs| > 0 {
      var rest := outs[1..];
      FirstNonZeroCodeCharacterized(rest);
      assert forall i :: 1 <= i < |outs| ==> outs[i] == rest[i - 1];
      if ResolvedCode(outs[0].err) == 0 && FirstNonZeroCode(rest) != 0 {
        var i :| 0 <= i < |rest| && ResolvedCode(rest[i].err) == FirstNonZeroCode(rest)
          && forall j :: 0 <= j < i ==> ResolvedCode(rest[j].err) == 0;
        assert ResolvedCode(outs[i + 1].err) == FirstNonZeroCode(outs);
        assert forall j :: 0 <= j < i + 1 ==> ResolvedCode(outs[j].err) == 0;
      }
    }
  }

  /** When the first failing procedure's error resolves to a non-zero code,
      that code is the result, whatever later procedures return. */
  lemma {:induction false} FirstErrorWins(outs: seq<Outcome>, i: nat)
    requires i < |outs| && outs[i].err.Some?
    requires forall j :: 0 <= j < i ==> outs[j].err.None?
    requires ResolvedCode(outs[i].err) != 0
    ensures Run(outs).code == ResolvedCode(outs[i].err)
    decreases i
  {
    if i > 0 {
      assert forall j :: 0 <= j < i - 1 ==> outs[1..][j] == outs[j + 1];
      FirstErrorWins(outs[1..], i - 1);
    }
  }

  /** A procedure failing with an error wrapped with code 0 does not latch the
      code: a later plain error still sets it to 1. */
  lemma ZeroCodedErrorDoesNotLatch(cause: Err, later: nat)
    ensures Run([Outcome([], WrapErrorWithCode(Some(cause), 0)), Outcome([], Some(Plain(later)))]).code == 1
  {
    var outs := [Outcome([], WrapErrorWithCode(Some(cause), 0)), Outcome([], Some(Plain(later)))];
    assert outs[1..] == [Outcome([], Some(Plain(later)))];
    assert outs[1..][1..] == [];
  }
}
