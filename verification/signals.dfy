/** Operating-system signals as the signal package receives them. */
module Signals {

  /** An os.Signal value. The Go type is an interface, so a caller may pass nil
      (NilSignal); a real signal is identified by its number. */
  datatype Signal = NilSignal | Sys(number: nat)

  /** Linux numbering of the signals the package and its tests name. */
  const SIGINT: Signal := Sys(2)
  const SIGUSR1: Signal := Sys(10)
  const SIGTERM: Signal := Sys(15)
}
