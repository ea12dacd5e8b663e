/**
 * The boundary to the external data mover.  The copy and listing commands
 * are not run: what a run reports back, and what the operator does with the
 * interrupt key, are inputs to the model.
 */
module Rclone {
  import opened Wrappers

  newtype byte = x: int | 0 <= x < 256

  /** What one `subprocess.run(..., check=True)` of a copy command yields. */
  datatype Outcome =
    | Success(stdout: seq<byte>, stderr: seq<byte>)
    | Failure(returncode: int, stderr: seq<byte>)

  /**
   * The environment of one resume run, indexed by the cursor value i at
   * which the loop consults it (a run visits each cursor value at most
   * once): whether the interrupt flag is set when the loop checks it with
   * the cursor at i, the outcome of the copy of item i, and the `utcnow()`
   * stamp taken when that copy completes.
   */
  datatype Env = Env(outcome: nat -> Outcome, interrupted: nat -> bool, clock: nat -> string)

  /** One object of the JSON array that `rclone lsjson --recursive` prints. */
  datatype ListEntry = ListEntry(path: string, isDir: bool)

  /** The `CalledProcessError` of a listing command that exited non-zero. */
  datatype ListingFailure = ListingFailure(returncode: int, stderr: string)

  /** The listing tool: what `rclone lsjson` does for a given argument list. */
  type Lister = seq<string> -> Result<seq<ListEntry>, ListingFailure>

  /** Number of items among the n with ids from k on whose copy fails. */
  function FailuresAmong(outcome: nat -> Outcome, k: nat, n: nat): (c: nat)
    ensures c <= n
    decreases n
  {
    if n == 0 then 0
    else (if outcome(k).Failure? then 1 else 0) + FailuresAmong(outcome, k + 1, n - 1)
  }
}
