/**
 The result of a call that may throw. The TypeScript code has no error
 values of its own: the only failures it can produce are the TypeErrors
 raised when a property of `undefined` is read.
 */
module Outcomes {

  /** Why a call threw. */
  datatype Fault =
    | UndefinedHandlerTable  // the signalling channel's handler table was never assigned
    | UndefinedPeer(id: string)  // no peer is registered under `id`

  /** Either the call completed with `value`, or it threw `fault`. */
  datatype Outcome<+T> = Done(value: T) | Threw(fault: Fault)
}
