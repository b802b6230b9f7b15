/** Optional values and the error-carrying results that every fallible operation returns. */
module Wrappers {

  datatype Option<+T> = None | Some(value: T) {

    predicate IsFailure() {
      None?
    }

    function PropagateFailure<U>(): Option<U>
      requires None?
    {
      None
    }

    function Extract(): T
      requires Some?
    {
      value
    }

    /** `ok_or`: the value, or the given error. */
    function OkOr(error: MemoryError): Result<T> {
      if Some? then Ok(value) else Err(error)
    }
  }

  /** The error classes of the core crate. Display text is dropped, except where two
      returns that share a class have to be told apart. */
  datatype MemoryError =
    | CanonicalEncoding
    | SizeModelDrifted
    | EmptyField
    | EmptyEpisode
    | NonContiguousEvents(expected: int, found: int)
    | EventScopeMismatch(sequence: int)
    | EventTimeOutOfRange(sequence: int)
    | NonMonotonicEventTime(sequence: int)
    | InvalidTimeInterval
    | InsufficientEpisodeContent
    | InlinePayloadTooLarge
    | ArtifactTooLarge
    | ArtifactDigestMismatch
    | ExactPackageTooLarge
    | AtomTooLarge(actual: int)
    | InvalidAtomBody
    | ChainNotClosed
    | UndeclaredArtifactReference
    | EpisodeRequiresSplit(actual: int)
    | AtomDigestMismatch(atom: int)
    | DuplicateAtom(atom: int)
    | InvalidRetirementCandidate(atom: int)
    | InvalidRetrievalCandidate(atom: int)
    | MemorySpaceMismatch
    | CohortTooLarge
    | EmptyRetirementCohort
    | RetirementCohortNotClosed
    | PolicyMismatch
    | StalePlan
    | EpisodicBudgetExceeded(actual: int)
    | RetrievalLimitExceeded
    | CandidateLimitExceeded
    | InvalidFlashbackBudget
    | InvalidApplyClosure
    | ReceiptRejected
    | UnknownVersion

  /** A failure-compatible result, usable with `:-`. */
  datatype Result<+T> = Ok(value: T) | Err(error: MemoryError) {

    predicate IsFailure() {
      Err?
    }

    function PropagateFailure<U>(): Result<U>
      requires Err?
    {
      Err(error)
    }

    function Extract(): T
      requires Ok?
    {
      value
    }
  }

  /** A failed check stops its caller with the error. */
  function Need(condition: bool, error: MemoryError): Result<()> {
    if condition then Ok(()) else Err(error)
  }
}
