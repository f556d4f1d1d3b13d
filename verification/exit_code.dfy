/** Termination callbacks and the exit-code carrier (signal/termination_procedure.go). */
module ExitCode {
  import opened Wrappers
  import opened Signals

  /** A non-nil Go error, reduced to what the package can observe: Plain(id) is
      any error the package did not build, a foreign wrapper around a carrier
      included, since the type assertion does not look through it; Coded is
      errorWithExitCode, which embeds its cause and carries an exit code. */
  datatype Err = Plain(id: nat) | Coded(cause: Err, code: int)

  /** What one call of a termination callback does: the opaque actions it
      performs, in order, and the error it returns (None for nil). */
  datatype Outcome = Outcome(actions: seq<nat>, err: Option<Err>)

  /** TerminationFunc: a callback run with the termination signal received. */
  type TerminationFunc = Signal -> Outcome

  /** terminationProcedure: a callback and the message logged before it runs. */
  datatype Procedure = Procedure(fn: TerminationFunc, message: string)

  /** True when the top-level value of e is an exit-code carrier. This is the
      Go type assertion e.(errorWithExitCode): it does not look inside causes. */
  predicate IsCarrier(e: Option<Err>) {
    e.Some? && e.value.Coded?
  }

  /** getCodeFromError: the code of a top-level carrier, otherwise def. */
  function GetCodeFromError(e: Option<Err>, def: int): (r: int)
    ensures IsCarrier(e) ==> r == e.value.code
    ensures !IsCarrier(e) ==> r == def
  {
    match e
    case Some(Coded(_, code)) => code
    case _ => def
  }

  /** WrapErrorWithCode: nil stays nil; any other error becomes a carrier of
      code around it, recoverable by GetCodeFromError whatever the default. */
  function WrapErrorWithCode(e: Option<Err>, code: int): (r: Option<Err>)
    ensures r.None? <==> e.None?
    ensures e.Some? ==> IsCarrier(r) && r.value.cause == e.value
    ensures forall def :: GetCodeFromError(r, def) == if e.Some? then code else def
  {
    match e
    case None => None
    case Some(err) => Some(Coded(err, code))
  }

  /** NewTerminationFunc: adapts a no-argument action into a termination
      callback that performs the action once and returns nil, for any signal. */
  function NewTerminationFunc(action: nat): (f: TerminationFunc)
    ensures forall sig :: f(sig).actions == [action]
    ensures forall sig :: f(sig).err == None
  {
    sig => Outcome([action], None)
  }

  /** Wrapping nil gives nil for every code. */
  lemma WrapNilIsNil(code: int)
    ensures WrapErrorWithCode(None, code) == None
  {
  }

  /** The code put in by WrapErrorWithCode is the one GetCodeFromError returns,
      whatever default is supplied. */
  lemma WrapThenGetCode(e: Err, code: int, def: int)
    ensures GetCodeFromError(WrapErrorWithCode(Some(e), code), def) == code
  {
  }

  /** Only the outermost carrier counts. */
  lemma OutermostCarrierWins(e: Err, inner: int, outer: int, def: int)
    ensures GetCodeFromError(WrapErrorWithCode(WrapErrorWithCode(Some(e), inner), outer), def) == outer
  {
  }
}
