/** Result types shared by the model. */
module Base {

  datatype Option<+T> = None | Some(value: T)

  /** Why an operation failed. The first two are the caller's deterministic conflicts
      (replerr.ErrCollectionConflict, replerr.ErrStalePrecondition); Broken is every other error. */
  datatype Fault = CollectionConflict | StalePrecondition | Broken {
    /** semanticConflict: rejected for the caller without fencing the replica. */
    predicate Semantic() { CollectionConflict? || StalePrecondition? }
  }

  datatype Result<+T> = Ok(value: T) | Err(fault: Fault) {
    predicate IsFailure() { Err? }

    function PropagateFailure<U>(): Result<U>
      requires Err?
    {
      Err(fault)
    }

    function Extract(): T
      requires Ok?
    {
      value
    }
  }

  /** An identifier: derived from a seed by a truncated SHA-256, which is taken to be injective, or
      drawn at random. */
  datatype Id = Sha(seed: string) | Random(token: nat)

  /** Timestamps are integers; UNSET stands for the empty string. */
  type Time = int
  const UNSET: Time := 0

  /** The SQL columns that `nullable` writes: the empty string is stored as NULL. */
  function Nullable(s: string): Option<string> {
    if s == "" then None else Some(s)
  }

  /** COALESCE(column, ''). */
  function Coalesce(column: Option<string>): string {
    match column
    case None => ""
    case Some(s) => s
  }
}
