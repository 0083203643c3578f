/** How the hooks see an awaited call: it settles with a value, or it throws. */
module Outcomes {
  import opened Wrappers

  /** What a failed call threw: an `Error` with its message, or anything else. */
  datatype Thrown = Error(message: string) | NonError

  /** The settled result of an awaited call. */
  type Outcome<T> = Result<T, Thrown>

  /** `err instanceof Error ? err.message : fallback`. */
  function MessageOf(t: Thrown, fallback: string): string {
    if t.Error? then t.message else fallback
  }
}
