/**
 * The storage error of the MLS client and the retryability classification of the
 * storage error and of the OpenMLS errors that wrap it.
 */
module StorageErrors {

  /** diesel::ConnectionError. */
  datatype ConnectionError =
    | InvalidCString
    | BadConnection(message: string)
    | InvalidConnectionUrl(message: string)
    | CouldntSetupConfiguration

  /**
   * diesel::result::Error. How diesel's own result errors are classified is decided
   * outside the storage module, so the model carries that verdict as `transient`.
   */
  datatype DieselError = DieselError(description: string, transient: bool)

  datatype StorageError =
    | DieselConnect(connection: ConnectionError)
    | DieselResult(result: DieselError)
    | Pool(message: string)
    | DbInit(message: string)
    | Store(message: string)
    | Serialization(message: string)
    | Deserialization(message: string)
    | NotFound
    | Lock(message: string)

  /** The message a poisoned lock is reported with. */
  const LOCK_POISONED: string := "Lock poisoned"

  /** `From<PoisonError<T>>`: whatever the guarded value, a poisoned lock becomes a Lock error. */
  function FromPoisonError<T>(poisoned: T): StorageError
  {
    Lock(LOCK_POISONED)
  }

  /** `RetryableError for StorageError`. */
  predicate IsRetryable(e: StorageError)
  {
    match e
    case DieselConnect(connection) => connection.BadConnection?
    case Pool(_) => true
    case _ => false
  }

  /** diesel's result errors, classified by the verdict they carry. */
  predicate DieselIsRetryable(e: DieselError)
  {
    e.transient
  }

  // The OpenMLS errors parameterised by the storage error (only the variants the
  // classification looks at are distinguished; the rest are named by `name`).

  datatype KeyPackageNewError = KeyPackageStorageError | KeyPackageOther(name: string)

  datatype CreateCommitError =
    | CommitKeyStoreError(storage: StorageError)
    | CommitKeyPackageGenerationError(generation: KeyPackageNewError)
    | CommitOther(name: string)

  datatype AddMembersError = AddMembersCreateCommitError(commit: CreateCommitError) | AddMembersOther(name: string)

  datatype RemoveMembersError = RemoveMembersCreateCommitError(commit: CreateCommitError) | RemoveMembersOther(name: string)

  datatype NewGroupError = NewGroupStorageError(storage: StorageError) | NewGroupOther(name: string)

  datatype SelfUpdateError =
    | SelfUpdateCreateCommitError(commit: CreateCommitError)
    | SelfUpdateStorageError(storage: StorageError)
    | SelfUpdateOther(name: string)

  datatype WelcomeError = WelcomeStorageError(storage: StorageError) | WelcomeOther(name: string)

  predicate KeyPackageIsRetryable(e: KeyPackageNewError)
  {
    e.KeyPackageStorageError?
  }

  predicate CommitIsRetryable(e: CreateCommitError)
  {
    match e
    case CommitKeyStoreError(storage) => IsRetryable(storage)
    case CommitKeyPackageGenerationError(generation) => KeyPackageIsRetryable(generation)
    case CommitOther(_) => false
  }

  predicate AddMembersIsRetryable(e: AddMembersError)
  {
    match e
    case AddMembersCreateCommitError(commit) => CommitIsRetryable(commit)
    case AddMembersOther(_) => false
  }

  predicate RemoveMembersIsRetryable(e: RemoveMembersError)
  {
    match e
    case RemoveMembersCreateCommitError(commit) => CommitIsRetryable(commit)
    case RemoveMembersOther(_) => false
  }

  predicate NewGroupIsRetryable(e: NewGroupError)
  {
    match e
    case NewGroupStorageError(storage) => IsRetryable(storage)
    case NewGroupOther(_) => false
  }

  predicate SelfUpdateIsRetryable(e: SelfUpdateError)
  {
    match e
    case SelfUpdateCreateCommitError(commit) => CommitIsRetryable(commit)
    case SelfUpdateStorageError(storage) => IsRetryable(storage)
    case SelfUpdateOther(_) => false
  }

  predicate WelcomeIsRetryable(e: WelcomeError)
  {
    match e
    case WelcomeStorageError(storage) => IsRetryable(storage)
    case WelcomeOther(_) => false
  }

  /**
   * The innermost cause a wrapped error's classification finally rests on: a storage
   * error, the storage failure of key-package generation, or nothing retryable at all.
   */
  datatype RetryRoot = StorageRoot(storage: StorageError) | KeyPackageStorageRoot | NoRoot

  predicate RootIsRetryable(root: RetryRoot)
  {
    match root
    case StorageRoot(s) => IsRetryable(s)
    case KeyPackageStorageRoot => true
    case NoRoot => false
  }

  function CommitRoot(e: CreateCommitError): RetryRoot
  {
    match e
    case CommitKeyStoreError(storage) => StorageRoot(storage)
    case CommitKeyPackageGenerationError(KeyPackageStorageError) => KeyPackageStorageRoot
    case _ => NoRoot
  }

  /** Only two storage errors are ever retryable: a pool error, and a connection that went bad. */
  lemma StorageRetryableCases(e: StorageError)
    ensures IsRetryable(e) <==> e.Pool? || (e.DieselConnect? && e.connection.BadConnection?)
    ensures e.DieselResult? || e.DbInit? || e.Store? || e.Serialization? || e.Deserialization? || e.NotFound? || e.Lock? ==> !IsRetryable(e)
  {
  }

  /** A poisoned lock converts to Lock("Lock poisoned"), which is not retryable. */
  lemma PoisonErrorIsLock<T>(poisoned: T)
    ensures FromPoisonError(poisoned) == Lock("Lock poisoned")
    ensures !IsRetryable(FromPoisonError(poisoned))
  {
  }

  /**
   * A create-commit error is retryable exactly when the root it delegates to is:
   * a retryable key-store error or the storage failure of key-package generation.
   */
  lemma CommitRetryableIffRoot(e: CreateCommitError)
    ensures CommitIsRetryable(e) <==> RootIsRetryable(CommitRoot(e))
  {
  }

  /**
   * Adding and removing members are retryable only through their create-commit error,
   * and then exactly as that error is.
   */
  lemma MembersRetryableOnlyThroughCommit(a: AddMembersError, r: RemoveMembersError)
    ensures AddMembersIsRetryable(a) <==> a.AddMembersCreateCommitError? && RootIsRetryable(CommitRoot(a.commit))
    ensures RemoveMembersIsRetryable(r) <==> r.RemoveMembersCreateCommitError? && RootIsRetryable(CommitRoot(r.commit))
  {
    CommitRetryableIffRoot(if a.AddMembersCreateCommitError? then a.commit else CommitOther(""));
    CommitRetryableIffRoot(if r.RemoveMembersCreateCommitError? then r.commit else CommitOther(""));
  }

  /**
   * Every wrapper that carries a storage error is transparent to it: wrapping a storage
   * error never changes whether it is retryable.
   */
  lemma WrappersAreTransparent(s: StorageError)
    ensures CommitIsRetryable(CommitKeyStoreError(s)) == IsRetryable(s)
    ensures AddMembersIsRetryable(AddMembersCreateCommitError(CommitKeyStoreError(s))) == IsRetryable(s)
    ensures RemoveMembersIsRetryable(RemoveMembersCreateCommitError(CommitKeyStoreError(s))) == IsRetryable(s)
    ensures NewGroupIsRetryable(NewGroupStorageError(s)) == IsRetryable(s)
    ensures SelfUpdateIsRetryable(SelfUpdateStorageError(s)) == IsRetryable(s)
    ensures SelfUpdateIsRetryable(SelfUpdateCreateCommitError(CommitKeyStoreError(s))) == IsRetryable(s)
    ensures WelcomeIsRetryable(WelcomeStorageError(s)) == IsRetryable(s)
  {
  }

  /** New-group, self-update and welcome errors other than the storage-carrying ones are never retryable. */
  lemma OtherWrappedVariantsNotRetryable(name: string)
    ensures !NewGroupIsRetryable(NewGroupOther(name))
    ensures !SelfUpdateIsRetryable(SelfUpdateOther(name))
    ensures !WelcomeIsRetryable(WelcomeOther(name))
    ensures !CommitIsRetryable(CommitOther(name))
    ensures !CommitIsRetryable(CommitKeyPackageGenerationError(KeyPackageOther(name)))
  {
  }
}
