# libxmtp core decision procedures, modelled in Dafny

This project models the small, self-contained decision procedures inside libxmtp, the Rust
implementation of the XMTP messaging protocol on top of MLS. It proves properties of them.
Most of the surrounding code delegates to OpenMLS, HPKE, diesel/SQLite, gRPC and generated
protobuf code, and that code is not modelled. What is modelled:

- **Group metadata and admin lists** (`GroupMetadata`, from `xmtp_mls/src/groups/mod.rs`):
  - the attribute update of a metadata change;
  - the push-if-absent and retain-not-equal edits of the admin and super-admin lists;
  - reading the group name back.
- **Group decisions** (`Groups`):
  - the group-size admission check of `add_members` and the intent it stores;
  - ed25519 key validation;
  - payload-version extraction of group messages;
  - the stored-group row a welcome produces, inserted with insert-or-ignore.
- **Client decisions** (`MlsClient`, from `xmtp_mls/src/client.rs`):
  - the cursor-based de-duplication of `process_for_id`, as one transaction over a refresh-cursor table;
  - the welcome sync, which skips every envelope that fails;
  - `can_message`, the group lookup and welcome-payload extraction.
- **Identity associations** (`Associations`, from `xmtp_id/src/associations/mod.rs`):
  - the fold `get_state` computes over identity updates, and `apply_update`;
  - a per-action transition that satisfies every rule the tests of that file assert.
- **Error classification** (`StorageErrors`, `ClientErrors`, `GroupErrors`): which storage,
  OpenMLS-wrapped, message-processing and group errors are retryable.
- **Error-chain stringification** (`ErrorChain`, `BindingsFfi`, `BindingsWasm`): the text both
  bindings make of an error and its chain of sources, and their `GenericError` constructors.

Several parts are imperative in the source, and the model keeps that form:
- the admin-list edits and the attribute insert are methods over local sequences and maps;
- `process_for_id`, `sync_welcomes` and `add_members` change the state of a `class`;
- `get_state` and `stringify_error_chain` are loops.

Each of these is proved against a specification function, and the lemmas are stated about those functions.

Calls into code outside this model become parameters of the operations that need them:
- address sanitising;
- the ed25519 validity test;
- decrypting and joining a welcome;
- the inbox-id lookup on the network.

Timestamps (`now_ns`) are parameters too.

## Model

| member | source | states |
|---|---|---|
| StorageErrors.StorageRetryableCases | xmtp_mls/src/storage/errors.rs:35-45 | a storage error is retryable iff it is Pool, or DieselConnect carrying BadConnection; every other variant is not |
| StorageErrors.PoisonErrorIsLock | xmtp_mls/src/storage/errors.rs:29-33 | any poisoned lock converts to Lock("Lock poisoned"), which is not retryable |
| StorageErrors.CommitRetryableIffRoot | xmtp_mls/src/storage/errors.rs:57-71 | a create-commit error is retryable iff it wraps a retryable key-store error or the storage failure of key-package generation; key-package errors are retryable iff they are StorageError |
| StorageErrors.MembersRetryableOnlyThroughCommit | xmtp_mls/src/storage/errors.rs:48-80 | add-members and remove-members errors are retryable only through their create-commit error, and then exactly as it is |
| StorageErrors.WrappersAreTransparent | xmtp_mls/src/storage/errors.rs:82-108 | new-group, self-update and welcome errors that carry a storage error (self-update also via a commit) are retryable exactly as that storage error |
| StorageErrors.OtherWrappedVariantsNotRetryable | xmtp_mls/src/storage/errors.rs:57-108 | the remaining variants of every OpenMLS wrapper are never retryable |
| ClientErrors.MessageProcessingRetryableIff | xmtp_mls/src/client.rs:146-153 | a message-processing error is retryable iff it is Storage with a retryable inner error; AlreadyProcessed, WelcomeProcessing and InvalidPayload never are |
| GroupErrors.RetryableIffRetryableRoot | xmtp_mls/src/groups/mod.rs:163-177 | a group error is retryable iff the storage error its delegating variants lead to is retryable, or it is a retryable diesel error, or it rests on key-package storage failure |
| GroupErrors.OnlyDelegatingVariantsRetryable | xmtp_mls/src/groups/mod.rs:163-177 | only the eight delegating variants can be retryable; UserLimitExceeded, GroupNotFound, InvalidPublicKeys and Sync never are |
| GroupErrors.StorageWrappingTransparent | xmtp_mls/src/groups/mod.rs:166-173 | wrapping a storage error as Storage, as ReceiveError(Storage) or as a welcome storage error keeps its retryability |
| GroupMetadata.ExtractMutableMetadata | xmtp_mls/src/groups/mod.rs:772 | succeeds iff the mutable-metadata extension is present, returning its metadata; otherwise fails with GroupMutableMetadata(MissingExtension) |
| GroupMetadata.BuildMutableMetadataExtensions | xmtp_mls/src/groups/mod.rs:767-786 | passes an extraction error on unchanged; otherwise sets attributes[field] = value, keeps every other attribute and both admin lists, keeps the key set and replaces only the mutable-metadata extension |
| GroupMetadata.Retain | xmtp_mls/src/groups/mod.rs:803 | the loop leaves exactly Removed(list, id), every element other than id, in order |
| GroupMetadata.BuildMutableMetadataExtensionsForAdminListsUpdate | xmtp_mls/src/groups/mod.rs:788-821 | passes an extraction error on; otherwise replaces the mutable-metadata extension by the metadata AdminListsAfter gives, as the source writes it |
| GroupMetadata.RemovedMembership | xmtp_mls/src/groups/mod.rs:803 | x survives the filter iff it was in the list and differs from the removed id |
| GroupMetadata.RemovedAppend | xmtp_mls/src/groups/mod.rs:803 | filtering keeps order: filtering a concatenation concatenates the filtered parts |
| GroupMetadata.RemovedAbsent | xmtp_mls/src/groups/mod.rs:803 | a list without the id is left unchanged |
| GroupMetadata.RemovedLength | xmtp_mls/src/groups/mod.rs:803 | filtering never lengthens the list, and shortens it when the id was present |
| GroupMetadata.AddAdminAppendsIfAbsent | xmtp_mls/src/groups/mod.rs:797-801 | AddAdmin appends the id only if absent, never creates a duplicate, grows the list by at most one, and leaves the super-admin list and attributes unchanged |
| GroupMetadata.RemoveAdminRemovesEveryOccurrence | xmtp_mls/src/groups/mod.rs:802-804 | RemoveAdmin removes every occurrence and only that id, and leaves the super-admin list and attributes unchanged |
| GroupMetadata.AddSuperAdminAppendsIfAbsent | xmtp_mls/src/groups/mod.rs:805-809 | AddSuperAdmin appends to the super-admin list only if absent, without duplicates; the admin list and attributes are unchanged |
| GroupMetadata.RemoveSuperAdminAsWritten | xmtp_mls/src/groups/mod.rs:810-812 | as written, RemoveSuperAdmin leaves the super-admin list unchanged and removes the id from the admin list |
| GroupMetadata.RemoveSuperAdminLeavesSuperAdmin | xmtp_mls/src/groups/mod.rs:810-812 | on admin list [] and super-admin list ["inbox"], removing super admin "inbox" leaves "inbox" a super admin |
| GroupMetadata.IntendedRemoveSuperAdmin | xmtp_mls/src/groups/mod.rs:810-812 | the corrected action removes every occurrence of the id from the super-admin list, keeps the others, and leaves the admin list and attributes unchanged |
| GroupMetadata.AdminListsUpdateReplacesOnlyMutableMetadata | xmtp_mls/src/groups/mod.rs:814-820 | the admin-list update keeps every other extension and the set of extension types |
| GroupMetadata.GroupName | xmtp_mls/src/groups/mod.rs:549-560 | succeeds iff the mutable metadata is there and holds the group-name attribute, returning it; otherwise GroupMutableMetadata(MissingExtension) |
| GroupMetadata.GroupNameAfterUpdate | xmtp_mls/src/groups/mod.rs:549-560 | after the group-name attribute is set to a name, the group name reads back as that name, with the admin lists untouched |
| GroupMetadata.GroupNameWithoutExtension | xmtp_mls/src/groups/mod.rs:549-560 | without the mutable-metadata extension, reading the group name fails with GroupMutableMetadata(MissingExtension) |
| Groups.CheckGroupSize | xmtp_mls/src/groups/mod.rs:466-471 | a failing size check fails with UserLimitExceeded |
| Groups.CheckGroupSizeIff | xmtp_mls/src/groups/mod.rs:469-471 | the check passes iff member count + addresses to add <= MAX_GROUP_SIZE |
| Groups.GroupOfMaxSizeIsFull | xmtp_mls/src/groups/mod.rs:1375-1391 | the creator plus 249 added members fit; any addition to a group of 250 fails with UserLimitExceeded |
| Groups.IntentStore.AddMembersIntent | xmtp_mls/src/groups/mod.rs:458-481 | sanitising and member-count failures are returned and store nothing; the size check fails with UserLimitExceeded and stores nothing; otherwise exactly one AddMembers intent with the sanitised addresses is appended |
| Groups.IntentStore.AddMembersByInstallationIdIntent | xmtp_mls/src/groups/mod.rs:486-502 | the keys are validated first; any invalid key stores nothing; otherwise one AddMembers intent with the installation ids is appended |
| Groups.InvalidKeys | xmtp_mls/src/groups/mod.rs:711-714 | the invalid keys never outnumber the keys |
| Groups.InvalidKeysMembership | xmtp_mls/src/groups/mod.rs:711-714 | a key is reported iff it is in the input and fails the validity predicate |
| Groups.ValidateEd25519Keys | xmtp_mls/src/groups/mod.rs:710-723 | passes iff every key is valid; otherwise fails with InvalidPublicKeys carrying the non-empty list of exactly the invalid keys |
| Groups.InvalidKeysAppend | xmtp_mls/src/groups/mod.rs:711-719 | the invalid keys of a concatenation are those of each part, in input order |
| Groups.InvalidKeysAllInvalid | xmtp_mls/src/groups/mod.rs:716-719 | when every key is invalid the error carries the whole input, order and duplicates included |
| Groups.ExtractMessageV1 | xmtp_mls/src/groups/mod.rs:696-701 | returns the V1 payload iff the version is set, and fails with InvalidPayload otherwise |
| Groups.ExtractGroupId | xmtp_mls/src/groups/mod.rs:703-708 | a failure is InvalidPayload |
| Groups.ExtractGroupIdOfMessageV1 | xmtp_mls/src/groups/mod.rs:696-708 | both extractors fail together, and the group id is that of the V1 payload |
| Groups.StoredGroupForWelcome | xmtp_mls/src/groups/mod.rs:283-295 | the row carries the group id and the creation time given |
| Groups.WelcomeMembershipState | xmtp_mls/src/groups/mod.rs:283-295 | a Group or Dm welcome is stored Pending with the adder's address as a conversation; a Sync welcome is stored Allowed as a sync group |
| Groups.InsertOrIgnoreGroup | xmtp_mls/src/groups/mod.rs:297 | an existing row wins and no other row changes; the returned row is the one in the table |
| Groups.InsertOrIgnoreIdempotent | xmtp_mls/src/groups/mod.rs:297 | inserting the same row twice is the same as inserting it once |
| Groups.CreateFromWelcome | xmtp_mls/src/groups/mod.rs:266-304 | an already stored group keeps its row and creation time; a new one gets the welcome's row; the handle carries the stored id and creation time |
| Groups.CreateFromWelcomeTwice | xmtp_mls/src/groups/mod.rs:266-267 | a second welcome for the same group leaves the table as it was and returns the same handle |
| MlsClient.AsI64 | xmtp_mls/src/client.rs:409 | the cast lands in the i64 range and agrees with the u64 modulo 2^64 |
| MlsClient.UpdateCursor | xmtp_mls/src/client.rs:406-409 | the cursor is updated iff the stored one (0 when absent) is strictly smaller; otherwise the store is unchanged |
| MlsClient.AlreadyProcessedSkipsProcessor | xmtp_mls/src/client.rs:406-413 | at or before the stored cursor the call returns AlreadyProcessed(cursor) with the store unchanged, whatever the processor |
| MlsClient.ProcessForIdRollsBack | xmtp_mls/src/client.rs:406-415 | a failing call leaves the store, cursor included, as it was |
| MlsClient.ProcessForIdCommits | xmtp_mls/src/client.rs:406-415 | a successful call had a smaller stored cursor and commits what the processor produced on the store with the advanced cursor |
| MlsClient.Client.ProcessForId | xmtp_mls/src/client.rs:396-416 | the result and the new store are those of the transaction ProcessForIdSpec describes |
| MlsClient.ExtractWelcomeMessage | xmtp_mls/src/client.rs:521-530 | returns the V1 payload iff the version is set; otherwise Generic("unexpected message type in welcome") |
| MlsClient.Client.SyncWelcomes | xmtp_mls/src/client.rs:434-469 | the groups and the new store are those of SyncWelcomesSpec, which tries each envelope in order and keeps the successes |
| MlsClient.SyncWelcomeStep | xmtp_mls/src/client.rs:439-465 | an envelope yields a group iff it has a V1 payload whose id is past the stored cursor and the join succeeds on the store with the advanced cursor; the group is the one joined and the envelope is processed afterwards; otherwise the store is unchanged (rollback) |
| MlsClient.SyncWelcomeStepGrows | xmtp_mls/src/client.rs:406-415 | one envelope never lowers a cursor |
| MlsClient.ProcessedStaysProcessed | xmtp_mls/src/client.rs:406-409 | an envelope at or before the cursor stays so while cursors only grow |
| MlsClient.ProcessedStepIsNoop | xmtp_mls/src/client.rs:406-412 | a processed envelope yields no group and leaves the store unchanged, whatever the join would do |
| MlsClient.SomesMembership | xmtp_mls/src/client.rs:463-466 | `filter_map` keeps exactly the present values: x is collected iff Some(x) is among the outcomes |
| MlsClient.SyncWelcomesInOrder | xmtp_mls/src/client.rs:432-469 | the returned groups are exactly the groups the envelopes yielded, one per yielding envelope, in envelope order |
| MlsClient.SyncWelcomesGrows | xmtp_mls/src/client.rs:437-466 | a sync only raises cursors, and every envelope that yielded a group is processed afterwards |
| MlsClient.OutcomeOfProcessed | xmtp_mls/src/client.rs:406-412 | an envelope already processed when the sync starts yields no group in it |
| MlsClient.SyncWelcomesOverProcessed | xmtp_mls/src/client.rs:437-466 | a sync over processed envelopes yields no groups and changes nothing, whatever the join does |
| MlsClient.SyncWelcomesRerunSkipsProcessed | xmtp_mls/src/client.rs:406-415 | re-running over the same envelopes with any join: no envelope that yielded a group yields one again, and when the first run processed them all the second yields nothing and changes nothing |
| MlsClient.SyncOneWelcomeTwice | xmtp_mls/src/client.rs:618-637 | one new welcome whose join succeeds gives back exactly its group, and a second sync gives none |
| MlsClient.CanMessageResults | xmtp_mls/src/client.rs:510-515 | the keys are exactly the addresses, and each value is true iff the address has an inbox id |
| MlsClient.CanMessage | xmtp_mls/src/client.rs:499-518 | sanitising and lookup failures are returned; otherwise the map's keys are exactly the sanitised addresses, each true iff the address is a key of the inbox-id map |
| MlsClient.Client.Group | xmtp_mls/src/client.rs:290-301 | fails with Storage(NotFound) iff no row is stored; otherwise the handle carries the stored id and created_at_ns |
| MlsClient.GroupLookupAfterWelcome | xmtp_mls/src/client.rs:290-301 | a stored group is found under its own id |
| Associations.GetState | xmtp_id/src/associations/mod.rs:30-40 | the loop returns GetStateSpec(updates): the fold from None with early return on the first error, NotCreated when nothing was created |
| Associations.ApplyAction | xmtp_id/src/associations/mod.rs:153-612 | only CreateInbox starts a state and only on none (NotCreated, MultipleCreate otherwise); reusing a seen signature is Replay; no action changes the seen signatures; only ChangeRecoveryAddress moves the recovery address |
| Associations.ApplyActionsFromCreated | xmtp_id/src/associations/mod.rs:22-27 | from an existing state the actions keep a state and never fail with NotCreated |
| Associations.ApplyActionsKeepsSeen | xmtp_id/src/associations/mod.rs:254-268 | the actions themselves leave the seen signatures as they were |
| Associations.UpdateState | xmtp_id/src/associations/mod.rs:33-39 | no actions on no state is NotCreated; on success the seen signatures are the earlier ones plus all of this update's |
| Associations.ApplyUpdate | xmtp_id/src/associations/mod.rs:22-27 | is update_state on Some(initial state), the step of the fold; it never fails with NotCreated and keeps every signature seen before |
| Associations.FoldErrorSticks | xmtp_id/src/associations/mod.rs:33-37 | once the fold fails, every longer prefix fails with the same error |
| Associations.GetStateEmpty | xmtp_id/src/associations/mod.rs:31-40 | an empty list of updates gives NotCreated |
| Associations.GetStateSingle | xmtp_id/src/associations/mod.rs:33-36 | the first update is applied to no state at all |
| Associations.GetStateSnoc | xmtp_id/src/associations/mod.rs:22-36 | on success, get_state(us + [u]) == apply_update(get_state(us), u) |
| Associations.GetStateFirstError | xmtp_id/src/associations/mod.rs:29-37 | the whole call fails with the error of the first update that fails |
| Associations.GetStateOkIffFoldCreated | xmtp_id/src/associations/mod.rs:39 | get_state succeeds iff the fold succeeds with a created state, and that is always the case for a successful non-empty fold |
| Associations.CreateInboxSingleMember | xmtp_id/src/associations/mod.rs:153-165 | an inbox created with a signature by the account address has exactly that address as member (added by nobody) and as recovery address |
| Associations.CreateInboxWrongSigner | xmtp_id/src/associations/mod.rs:305-325 | a CreateInbox signed by anyone else fails with MissingExistingMember |
| Associations.CreationRules | xmtp_id/src/associations/mod.rs:33-39 | without a state every action but CreateInbox fails with NotCreated; on an existing state CreateInbox fails with MultipleCreate |
| Associations.AddAssociationRules | xmtp_id/src/associations/mod.rs:370-429 | a fresh, correctly signed AddAssociation fails with MissingExistingMember for a non-member signer and MemberNotAllowed(Installation, Installation) for an installation adding one, succeeds otherwise, and then adds the member recorded as added by the signer |
| Associations.AddAssociationSignatureMismatch | xmtp_id/src/associations/mod.rs:345-367 | a new-member signature by anyone but the new member fails with NewMemberIdSignatureMismatch |
| Associations.SeenSignatureIsReplay | xmtp_id/src/associations/mod.rs:254-268 | an action carrying a signature an earlier update used fails with Replay |
| Associations.UpdateRecordsSignatures | xmtp_id/src/associations/mod.rs:254-262 | after a successful update all of its signatures are seen |
| Associations.RevokeRemovesMemberAndChildren | xmtp_id/src/associations/mod.rs:431-456 | a revocation signed by the recovery address removes the member and every member it added, keeps all others with their adder, and never adds a member |
| Associations.RecoveryActionsNeedRecoverySigner | xmtp_id/src/associations/mod.rs:600-611 | revoking or changing the recovery address without the recovery address's signature fails with MissingExistingMember |
| Associations.ChangeRecoveryAddressThenOldSignerRejected | xmtp_id/src/associations/mod.rs:571-612 | after the change the new address is the recovery address, members are unchanged, and a revocation signed by the old address fails with MissingExistingMember |
| Associations.LegacySignatureCannotBeReplayed | xmtp_id/src/associations/mod.rs:234-269 | an inbox created with a legacy-delegated signature rejects the next update reusing it with Replay |
| Associations.RevokeWalletWithTwoInstallations | xmtp_id/src/associations/mod.rs:458-501 | a wallet with two installations it added (3 members) revoked by its own recovery signature leaves 0 members |
| Associations.TwoActionUpdate | xmtp_id/src/associations/mod.rs:199-232 | an update with two actions applies them in order, and afterwards the signatures of both are seen |
| Associations.CreateAndAddTogether | xmtp_id/src/associations/mod.rs:199-232 | creating an inbox and adding an installation in one update gives 2 members, the installation added by the account address |
| Associations.RevokeAndReAdd | xmtp_id/src/associations/mod.rs:503-569 | adding and revoking a second wallet in one update restores the members; re-adding it gives them back plus the wallet |
| ErrorChain.StringifyErrorChain | bindings_ffi/src/lib.rs:59-69 | the loop over the source chain returns ChainText(error): the error's line followed by one cause line per source |
| ErrorChain.ChainTextStartsWithFirstLine | bindings_wasm/src/lib.rs:47 | the text begins with "Error: " + message + "\n" |
| ErrorChain.NoSourceIsFirstLine | bindings_ffi/src/lib.rs:60-68 | an error without a source gives exactly its first line |
| ErrorChain.ChainTextLineCount | bindings_ffi/src/lib.rs:62-66 | with single-line messages the text holds 1 + chain-length newlines |
| ErrorChain.CauseLinesRead | bindings_wasm/src/lib.rs:49-53 | the cause lines split into one "Caused by: " + cause line per cause, in chain order |
| ErrorChain.ChainTextLines | bindings_wasm/src/lib.rs:46-56 | with single-line messages the text splits into the error's line and then one "Caused by: " line per cause, in chain order, so the chain reads back from the text |
| BindingsFfi.FromString | bindings_ffi/src/lib.rs:44-48 | the string becomes a Generic error carrying it unchanged |
| BindingsFfi.FromError | bindings_ffi/src/lib.rs:50-56 | from_error is Generic carrying the stringified chain, i.e. FromString of ChainText |
| BindingsFfi.FromStringRoundTrip | bindings_ffi/src/lib.rs:44-48 | reading the Generic text back after From<String> gives the string; only Generic errors carry one |
| BindingsWasm.FromString | bindings_wasm/src/lib.rs:32-36 | the string becomes a Generic error carrying it unchanged |
| BindingsWasm.FromError | bindings_wasm/src/lib.rs:38-44 | from_error is Generic carrying the stringified chain, i.e. FromString of ChainText |
| BindingsWasm.FromStringRoundTrip | bindings_wasm/src/lib.rs:32-36 | reading the Generic text back after From<String> gives the string; only Generic errors carry one |

## Left out

- `MlsClient.Join`, the welcome decryption and group join, is a function of the store inside the transaction and of the welcome. It can give different results on different stores. Its own writes to the key store and its retryable-error handling are not modelled.
- The OpenMLS, HPKE and crypto calls are not modelled:
  - welcome staging and decryption, group load and save;
  - key packages, commits and extension encoding.
  - The model takes their results as parameters: the joined welcome, the ed25519 validity test, the member count.
- Address sanitising (`sanitize_evm_addresses`) and the inbox-id lookup (`get_inbox_ids`) are network or foreign code. They are parameters of `CanMessage` and `AddMembersIntent`.
- Intent publishing and the wait for an intent (`sync_until_intent_resolved`), and the whole of `sync`, `receive` and `publish_intents`, are async network code in files that are not part of this model. The add-members operations stop once the intent is stored.
- The serialisation of intents and metadata (`try_into()?` on protobuf encoding) is not modelled. Its errors are not produced.
- Storage failures of the database calls themselves are not produced:
  - in the cursor and group tables: connection errors, `update_cursor`'s own error, the `fetch` error of `group`;
  - in the intent store: `store.conn()?` and `insert_group_intent(...)?` of `add_members` and `add_members_by_installation_id` never fail in `Groups.IntentStore`.
- `extract_group_mutable_metadata` is in a file that is not part of this model. `GroupMetadata.ExtractMutableMetadata` reports a mutable-metadata extension that is present but cannot be decoded (`Opaque`) with the same MissingExtension error as an absent one. The decode error is not modelled separately.
- xmtp_mls/src/storage/encrypted_store/refresh_state.rs is not part of this model. `update_cursor` follows the refresh-state table: a missing row reads as cursor 0, and the update succeeds only when the new cursor is strictly larger.
- The diesel error classification (`retryable!` on a diesel error) lives in a file that is not part of this model. A diesel error carries its retryability as a flag.
- xmtp_id/src/associations/association_log.rs is not part of this model.
  - `update_state` is replaced by a transition built to satisfy the assertions of the tests in `mod.rs`.
  - The order of its checks, the MultipleCreate rule, and the removal of direct children only are choices of the model.
  - A replay is any signature byte-string an earlier update carried.
- The inbox id of an identity update (`inbox_id`, computed by `generate_inbox_id`, a hash) is dropped from the model, and so is any inbox-id check of `update_state`. Only the CreateInbox nonce and the client timestamp are carried, and neither is interpreted.
- `StoredGroup::new_sync_group` is in a file that is not part of this model. Its adder column is modelled as the empty string.
- Each envelope of a sync gets the same `now_ns` in the model. The source reads the clock for every group it creates.
- `query_welcome_messages` is a network call. The model is given the fetched envelopes directly and does not filter them by the stored cursor.
- Logging (`log::error!`) is not modelled, and neither is the `Display` text of the wrapped error variants (the variants of foreign crates are collapsed into one `Wrapped` case).
- The two `stringify_error_chain` functions have identical code. Both are modelled by the single `ErrorChain.StringifyErrorChain`.

## Findings

| source | as written | input that shows it | evidently intended | confidence | as-written member | corrected member |
|---|---|---|---|---|---|---|
| xmtp_mls/src/groups/mod.rs:810-812 | RemoveSuperAdmin runs `admin_list.retain(...)`, so it filters the admin list and leaves the super-admin list untouched | admin list [], super-admin list ["inbox"], RemoveSuperAdmin "inbox": the super-admin list is still ["inbox"] | `super_admin_list.retain(...)`, removing the id from the super-admin list only | not executed | GroupMetadata.RemoveSuperAdminLeavesSuperAdmin | GroupMetadata.IntendedRemoveSuperAdmin |
