/** The error enums of the MLS client: message-processing errors and client errors. */
module ClientErrors {
  import StorageErrors

  /** The width of a server cursor (`u64`). */
  type u64 = x: int | 0 <= x < 0x1_0000_0000_0000_0000

  /**
   * MessageProcessingError. Variants that only wrap an error of a foreign library
   * (OpenMLS, TLS codec, prost, identity, intents, codecs) are collapsed into `Wrapped`.
   */
  datatype MessageProcessingError =
    | AlreadyProcessed(cursor: u64)
    | Diesel(diesel: StorageErrors.DieselError)
    | InvalidSender(messageTimeNs: u64, credential: seq<bv8>)
    | InvalidPayload
    | Storage(storage: StorageErrors.StorageError)
    | EpochIncrementNotAllowed
    | WelcomeProcessing(message: string)
    | Generic(message: string)
    | Wrapped(kind: string)

  /** `RetryableError for MessageProcessingError`. */
  predicate IsRetryable(e: MessageProcessingError)
  {
    match e
    case Storage(s) => StorageErrors.IsRetryable(s)
    case _ => false
  }

  /**
   * ClientError. Variants that only wrap an error of a foreign library are collapsed
   * into `Wrapped`; network failures carry their message.
   */
  datatype ClientError =
    | AddressValidation(message: string)
    | PublishError(message: string)
    | Storage(storage: StorageErrors.StorageError)
    | Diesel(diesel: StorageErrors.DieselError)
    | QueryError(message: string)
    | Api(message: string)
    | SyncingError(errors: seq<MessageProcessingError>)
    | StreamInconsistency(message: string)
    | Generic(message: string)
    | Wrapped(kind: string)

  /**
   * A message-processing error is retryable exactly when it is a storage error whose
   * inner storage error is retryable; in particular AlreadyProcessed never is.
   */
  lemma MessageProcessingRetryableIff(e: MessageProcessingError)
    ensures IsRetryable(e) <==> e.Storage? && StorageErrors.IsRetryable(e.storage)
    ensures e.AlreadyProcessed? || e.WelcomeProcessing? || e.InvalidPayload? ==> !IsRetryable(e)
  {
  }
}
