/** GroupError, the error of every group operation, and its retryability. */
module GroupErrors {
  import opened Wrappers
  import StorageErrors
  import ClientErrors

  /** The error of reading the mutable-metadata extension. */
  datatype GroupMutableMetadataError = MissingExtension | MutableMetadataOther(name: string)

  /**
   * GroupError. Variants that only wrap an error of a foreign library (OpenMLS messages
   * and extensions, TLS codec, HPKE, identity, prost, commit validation, metadata and
   * permissions decoding, message history) are collapsed into `Wrapped`.
   */
  datatype GroupError =
    | GroupNotFound
    | UserLimitExceeded
    | Api(message: string)
    | Storage(storage: StorageErrors.StorageError)
    | Intent(message: string)
    | AddMembers(addMembers: StorageErrors.AddMembersError)
    | RemoveMembers(removeMembers: StorageErrors.RemoveMembersError)
    | GroupCreate(groupCreate: StorageErrors.NewGroupError)
    | SelfUpdate(selfUpdate: StorageErrors.SelfUpdateError)
    | WelcomeError(welcome: StorageErrors.WelcomeError)
    | Client(client: ClientErrors.ClientError)
    | ReceiveError(receive: ClientErrors.MessageProcessingError)
    | ReceiveErrors(receiveErrors: seq<ClientErrors.MessageProcessingError>)
    | Generic(message: string)
    | Diesel(diesel: StorageErrors.DieselError)
    | AddressValidation(message: string)
    | InvalidPublicKeys(keys: seq<seq<bv8>>)
    | GroupMutableMetadata(metadata: GroupMutableMetadataError)
    | Sync(errors: seq<GroupError>)
    | Wrapped(kind: string)

  /** `RetryableError for GroupError`. */
  predicate IsRetryable(e: GroupError)
  {
    match e
    case Diesel(d) => StorageErrors.DieselIsRetryable(d)
    case Storage(s) => StorageErrors.IsRetryable(s)
    case ReceiveError(m) => ClientErrors.IsRetryable(m)
    case AddMembers(a) => StorageErrors.AddMembersIsRetryable(a)
    case RemoveMembers(r) => StorageErrors.RemoveMembersIsRetryable(r)
    case GroupCreate(g) => StorageErrors.NewGroupIsRetryable(g)
    case SelfUpdate(u) => StorageErrors.SelfUpdateIsRetryable(u)
    case WelcomeError(w) => StorageErrors.WelcomeIsRetryable(w)
    case _ => false
  }

  /** The variants whose classification is delegated to the error they wrap. */
  predicate Delegates(e: GroupError)
  {
    e.Diesel? || e.Storage? || e.ReceiveError? || e.AddMembers? || e.RemoveMembers?
      || e.GroupCreate? || e.SelfUpdate? || e.WelcomeError?
  }

  /**
   * The storage error a group error's classification finally rests on, found by
   * following the delegating variants down to a storage error.
   */
  function StorageRoot(e: GroupError): Option<StorageErrors.StorageError>
  {
    match e
    case Storage(s) => Some(s)
    case ReceiveError(m) => if m.Storage? then Some(m.storage) else None
    case AddMembers(a) => if a.AddMembersCreateCommitError? then CommitStorage(a.commit) else None
    case RemoveMembers(r) => if r.RemoveMembersCreateCommitError? then CommitStorage(r.commit) else None
    case GroupCreate(g) => if g.NewGroupStorageError? then Some(g.storage) else None
    case SelfUpdate(u) =>
      if u.SelfUpdateStorageError? then Some(u.storage)
      else if u.SelfUpdateCreateCommitError? then CommitStorage(u.commit)
      else None
    case WelcomeError(w) => if w.WelcomeStorageError? then Some(w.storage) else None
    case _ => None
  }

  function CommitStorage(c: StorageErrors.CreateCommitError): Option<StorageErrors.StorageError>
  {
    if c.CommitKeyStoreError? then Some(c.storage) else None
  }

  /** Whether a group error rests on the storage failure of key-package generation inside a commit. */
  predicate KeyPackageStorageRooted(e: GroupError)
  {
    match e
    case AddMembers(a) => a.AddMembersCreateCommitError? && StorageErrors.CommitRoot(a.commit).KeyPackageStorageRoot?
    case RemoveMembers(r) => r.RemoveMembersCreateCommitError? && StorageErrors.CommitRoot(r.commit).KeyPackageStorageRoot?
    case SelfUpdate(u) => u.SelfUpdateCreateCommitError? && StorageErrors.CommitRoot(u.commit).KeyPackageStorageRoot?
    case _ => false
  }

  /**
   * A group error is retryable exactly when its root is: a retryable storage error reached
   * through the delegating variants, a transient diesel error, or the storage failure of
   * key-package generation.
   */
  lemma RetryableIffRetryableRoot(e: GroupError)
    ensures IsRetryable(e) <==>
      (StorageRoot(e).Some? && StorageErrors.IsRetryable(StorageRoot(e).value))
      || (e.Diesel? && StorageErrors.DieselIsRetryable(e.diesel))
      || KeyPackageStorageRooted(e)
  {
  }

  /**
   * Only the delegating variants can be retryable: a full group, invalid keys, sync
   * failures and the rest never are.
   */
  lemma OnlyDelegatingVariantsRetryable(e: GroupError)
    ensures IsRetryable(e) ==> Delegates(e)
    ensures !IsRetryable(UserLimitExceeded) && !IsRetryable(GroupNotFound)
    ensures !IsRetryable(InvalidPublicKeys([])) && !IsRetryable(Sync([]))
  {
  }

  /** Wrapping a storage error in a group error keeps its retryability. */
  lemma StorageWrappingTransparent(s: StorageErrors.StorageError)
    ensures IsRetryable(Storage(s)) == StorageErrors.IsRetryable(s)
    ensures IsRetryable(ReceiveError(ClientErrors.MessageProcessingError.Storage(s))) == StorageErrors.IsRetryable(s)
    ensures IsRetryable(WelcomeError(StorageErrors.WelcomeStorageError(s))) == StorageErrors.IsRetryable(s)
  {
  }
}
