/**
 * The decision procedures of an MLS group: the group-size admission check and the intent
 * `add_members` stores, the ed25519 key validation of `add_members_by_installation_id`,
 * payload-version extraction of group messages, and the stored-group row a welcome produces.
 */
module Groups {
  import opened Wrappers
  import GroupErrors
  import ClientErrors

  type Bytes = seq<bv8>

  /** The largest number of members a group may have (`MAX_GROUP_SIZE`). */
  const MAX_GROUP_SIZE: nat := 250

  // ------------------------------------------------------------------ group-size check

  /** The admission check of `add_members`: the members after the addition must not exceed the maximum. */
  function CheckGroupSize(memberCount: nat, addressCount: nat): (r: Outcome<GroupErrors.GroupError>)
    ensures r.Fail? ==> r.error == GroupErrors.UserLimitExceeded
  {
    if memberCount + addressCount > MAX_GROUP_SIZE then Fail(GroupErrors.UserLimitExceeded) else Pass
  }

  /** The check rejects exactly the additions that would take the group past the maximum. */
  lemma CheckGroupSizeIff(memberCount: nat, addressCount: nat)
    ensures CheckGroupSize(memberCount, addressCount).Pass? <==> memberCount + addressCount <= MAX_GROUP_SIZE
  {
  }

  /** The creator plus 249 added members fit; one more does not, so a group of 250 is full. */
  lemma GroupOfMaxSizeIsFull(addressCount: nat)
    ensures CheckGroupSize(1, MAX_GROUP_SIZE - 1).Pass?
    ensures addressCount > 0 ==> CheckGroupSize(MAX_GROUP_SIZE, addressCount) == Fail(GroupErrors.UserLimitExceeded)
  {
  }

  // ------------------------------------------------------------------ group intents

  datatype IntentKind = SendMessage | AddMembers | RemoveMembers | KeyUpdate | MetadataUpdate | UpdateAdminList

  /** What an add-members intent carries: account addresses, or installation public keys. */
  datatype AddressesOrInstallationIds = AccountAddresses(addresses: seq<string>) | InstallationIds(ids: seq<Bytes>)

  datatype NewGroupIntent = NewGroupIntent(kind: IntentKind, groupId: Bytes, data: AddressesOrInstallationIds)

  /** The group intents of the local store. */
  class IntentStore {
    var intents: seq<NewGroupIntent>

    constructor ()
      ensures intents == []
    {
      intents := [];
    }

    /**
     * `add_members` up to the point where the intent is stored: the addresses are sanitised,
     * the size check runs on the current member count, and only then is an AddMembers intent
     * inserted. Any failure leaves the intents as they were.
     */
    method AddMembersIntent(
      groupId: Bytes,
      accountAddressesToAdd: seq<string>,
      sanitize: seq<string> -> Result<seq<string>, GroupErrors.GroupError>,
      memberCount: Result<nat, GroupErrors.GroupError>)
      returns (r: Outcome<GroupErrors.GroupError>)
      modifies this
      ensures sanitize(accountAddressesToAdd).Err? ==>
        r == Fail(sanitize(accountAddressesToAdd).error) && intents == old(intents)
      ensures sanitize(accountAddressesToAdd).Ok? && memberCount.Err? ==>
        r == Fail(memberCount.error) && intents == old(intents)
      ensures sanitize(accountAddressesToAdd).Ok? && memberCount.Ok? ==>
        var addresses := sanitize(accountAddressesToAdd).value;
        if memberCount.value + |addresses| > MAX_GROUP_SIZE then
          r == Fail(GroupErrors.UserLimitExceeded) && intents == old(intents)
        else
          r == Pass && intents == old(intents) + [NewGroupIntent(AddMembers, groupId, AccountAddresses(addresses))]
    {
      var addresses := sanitize(accountAddressesToAdd);
      if addresses.Err? {
        return Fail(addresses.error);
      }
      if memberCount.Err? {
        return Fail(memberCount.error);
      }
      var sizeCheck := CheckGroupSize(memberCount.value, |addresses.value|);
      if sizeCheck.Fail? {
        return sizeCheck;
      }
      intents := intents + [NewGroupIntent(AddMembers, groupId, AccountAddresses(addresses.value))];
      r := Pass;
    }

    /**
     * `add_members_by_installation_id` up to the point where the intent is stored: every key
     * is validated first and a single invalid key stores nothing.
     */
    method AddMembersByInstallationIdIntent(groupId: Bytes, installationIds: seq<Bytes>, isValidKey: Bytes -> bool)
      returns (r: Outcome<GroupErrors.GroupError>)
      modifies this
      ensures r == ValidateEd25519Keys(installationIds, isValidKey)
      ensures r.Fail? ==> intents == old(intents)
      ensures r.Pass? ==> intents == old(intents) + [NewGroupIntent(AddMembers, groupId, InstallationIds(installationIds))]
    {
      r := ValidateEd25519Keys(installationIds, isValidKey);
      if r.Pass? {
        intents := intents + [NewGroupIntent(AddMembers, groupId, InstallationIds(installationIds))];
      }
    }
  }

  // ------------------------------------------------------------------ ed25519 key validation

  /** The keys the validity predicate rejects, in input order. */
  function InvalidKeys(keys: seq<Bytes>, isValidKey: Bytes -> bool): (r: seq<Bytes>)
    ensures |r| <= |keys|
  {
    if keys == [] then []
    else
      var last := keys[|keys| - 1];
      InvalidKeys(keys[..|keys| - 1], isValidKey) + (if isValidKey(last) then [] else [last])
  }

  /** A key is reported exactly when it occurs in the input and is not valid. */
  lemma {:induction false} InvalidKeysMembership(keys: seq<Bytes>, isValidKey: Bytes -> bool, k: Bytes)
    ensures k in InvalidKeys(keys, isValidKey) <==> k in keys && !isValidKey(k)
  {
    if keys != [] {
      var init := keys[..|keys| - 1];
      InvalidKeysMembership(init, isValidKey, k);
      assert keys == init + [keys[|keys| - 1]];
    }
  }

  /** `validate_ed25519_keys`. */
  function ValidateEd25519Keys(keys: seq<Bytes>, isValidKey: Bytes -> bool): (r: Outcome<GroupErrors.GroupError>)
    ensures r.Pass? <==> forall k :: k in keys ==> isValidKey(k)
    ensures r.Fail? ==> r.error == GroupErrors.InvalidPublicKeys(InvalidKeys(keys, isValidKey)) && |r.error.keys| > 0
  {
    var invalid := InvalidKeys(keys, isValidKey);
    if |invalid| > 0 then
      InvalidKeysMembership(keys, isValidKey, invalid[0]);
      Fail(GroupErrors.InvalidPublicKeys(invalid))
    else
      assert forall k :: k in keys ==> isValidKey(k) by {
        forall k | k in keys ensures isValidKey(k) {
          InvalidKeysMembership(keys, isValidKey, k);
        }
      }
      Pass
  }

  /** The invalid keys of a concatenation are those of each part, in order. */
  lemma {:induction false} InvalidKeysAppend(a: seq<Bytes>, b: seq<Bytes>, isValidKey: Bytes -> bool)
    ensures InvalidKeys(a + b, isValidKey) == InvalidKeys(a, isValidKey) + InvalidKeys(b, isValidKey)
  {
    if b == [] {
      assert a + b == a;
    } else {
      InvalidKeysAppend(a, b[..|b| - 1], isValidKey);
      assert (a + b)[..|a + b| - 1] == a + b[..|b| - 1];
    }
  }

  /** When every key is invalid, the error carries the whole input, duplicates and order included. */
  lemma {:induction false} InvalidKeysAllInvalid(keys: seq<Bytes>, isValidKey: Bytes -> bool)
    requires forall k :: k in keys ==> !isValidKey(k)
    ensures InvalidKeys(keys, isValidKey) == keys
  {
    if keys != [] {
      InvalidKeysAllInvalid(keys[..|keys| - 1], isValidKey);
      assert keys[..|keys| - 1] + [keys[|keys| - 1]] == keys;
    }
  }

  // ------------------------------------------------------------------ payload versions

  datatype GroupMessageV1 = GroupMessageV1(id: ClientErrors.u64, createdNs: ClientErrors.u64, groupId: Bytes, data: Bytes)

  /** The version oneof of a group message; an unset oneof is None. */
  datatype GroupMessageVersion = V1(v1: GroupMessageV1)

  datatype GroupMessage = GroupMessage(version: Option<GroupMessageVersion>)

  /** `extract_message_v1`: the V1 payload, or InvalidPayload. */
  function ExtractMessageV1(message: GroupMessage): (r: Result<GroupMessageV1, ClientErrors.MessageProcessingError>)
    ensures r.Ok? <==> message.version.Some?
    ensures r.Ok? ==> message.version == Some(V1(r.value))
    ensures r.Err? ==> r.error == ClientErrors.InvalidPayload
  {
    match message.version
    case Some(V1(value)) => Ok(value)
    case None => Err(ClientErrors.InvalidPayload)
  }

  /** `extract_group_id`: the group id of the V1 payload, or InvalidPayload. */
  function ExtractGroupId(message: GroupMessage): (r: Result<Bytes, ClientErrors.MessageProcessingError>)
    ensures r.Err? ==> r.error == ClientErrors.InvalidPayload
  {
    match message.version
    case Some(V1(value)) => Ok(value.groupId)
    case None => Err(ClientErrors.InvalidPayload)
  }

  /** The two extractors agree: the group id is that of the extracted V1 payload, and both fail together. */
  lemma ExtractGroupIdOfMessageV1(message: GroupMessage)
    ensures ExtractGroupId(message).Ok? <==> ExtractMessageV1(message).Ok?
    ensures ExtractGroupId(message).Ok? ==> ExtractGroupId(message).value == ExtractMessageV1(message).value.groupId
    ensures ExtractGroupId(message).Err? ==> ExtractGroupId(message) == Err(ClientErrors.InvalidPayload)
  {
  }

  // ------------------------------------------------------------------ welcome -> stored group

  datatype GroupMembershipState = Allowed | Rejected | Pending

  datatype Purpose = Conversation | SyncPurpose

  /** The conversation type in a group's protected metadata. */
  datatype ConversationType = GroupConversation | Dm | SyncConversation

  /** A row of the groups table. */
  datatype StoredGroup = StoredGroup(
    id: Bytes,
    createdAtNs: int,
    membershipState: GroupMembershipState,
    purpose: Purpose,
    addedByAddress: string)

  /** A group handle: its id and creation time. */
  datatype MlsGroup = MlsGroup(groupId: Bytes, createdAtNs: int)

  /** The groups table, keyed by group id (the primary key): every row is stored under its own id. */
  type GroupTable = t: map<Bytes, StoredGroup> | WellKeyed(t)

  predicate WellKeyed(table: map<Bytes, StoredGroup>)
  {
    forall id :: id in table ==> table[id].id == id
  }

  /** `StoredGroup::new`: a conversation group. */
  function NewStoredGroup(id: Bytes, createdAtNs: int, membershipState: GroupMembershipState, addedByAddress: string): StoredGroup
  {
    StoredGroup(id, createdAtNs, membershipState, Conversation, addedByAddress)
  }

  /** `StoredGroup::new_sync_group`: a sync group, which has no adder. */
  function NewSyncStoredGroup(id: Bytes, createdAtNs: int, membershipState: GroupMembershipState): StoredGroup
  {
    StoredGroup(id, createdAtNs, membershipState, SyncPurpose, "")
  }

  /** The row `create_from_welcome` stores for a joined group of the given conversation type. */
  function StoredGroupForWelcome(groupId: Bytes, conversationType: ConversationType, addedByAddress: string, nowNs: int): (g: StoredGroup)
    ensures g.id == groupId && g.createdAtNs == nowNs
  {
    match conversationType
    case GroupConversation => NewStoredGroup(groupId, nowNs, Pending, addedByAddress)
    case Dm => NewStoredGroup(groupId, nowNs, Pending, addedByAddress)
    case SyncConversation => NewSyncStoredGroup(groupId, nowNs, Allowed)
  }

  /** A Group or Dm welcome awaits the user's decision and records who added us; a Sync welcome is accepted. */
  lemma WelcomeMembershipState(groupId: Bytes, conversationType: ConversationType, addedByAddress: string, nowNs: int)
    ensures var g := StoredGroupForWelcome(groupId, conversationType, addedByAddress, nowNs);
      && (g.membershipState == Pending <==> conversationType != SyncConversation)
      && (g.membershipState == Allowed <==> conversationType == SyncConversation)
      && (conversationType != SyncConversation ==> g.addedByAddress == addedByAddress && g.purpose == Conversation)
      && (conversationType == SyncConversation ==> g.purpose == SyncPurpose)
  {
  }

  /** `insert_or_ignore_group`: an existing row wins; the row in the table is returned. */
  function InsertOrIgnoreGroup(table: GroupTable, group: StoredGroup): (r: (StoredGroup, GroupTable))
    ensures group.id in r.1 && r.1[group.id] == r.0
    ensures r.1.Keys == table.Keys + {group.id}
    ensures forall id :: id in table ==> id in r.1 && r.1[id] == table[id]
    ensures group.id !in table ==> r.0 == group
  {
    if group.id in table then (table[group.id], table) else (group, table[group.id := group])
  }

  /** Inserting the same row twice is the same as inserting it once. */
  lemma InsertOrIgnoreIdempotent(table: GroupTable, group: StoredGroup)
    ensures var (_, once) := InsertOrIgnoreGroup(table, group);
      InsertOrIgnoreGroup(once, group) == (InsertOrIgnoreGroup(table, group).0, once)
  {
  }

  /**
   * `create_from_welcome` after the MLS group has been joined: the row for the welcome is
   * inserted unless the group is already stored, and the returned handle carries the id and
   * creation time of the row in the table.
   */
  function CreateFromWelcome(table: GroupTable, groupId: Bytes, conversationType: ConversationType, addedByAddress: string, nowNs: int)
    : (r: (MlsGroup, GroupTable))
    ensures r.0.groupId == groupId
    ensures groupId in r.1 && r.0 == MlsGroup(r.1[groupId].id, r.1[groupId].createdAtNs)
    ensures groupId in table ==> r.1 == table && r.0.createdAtNs == table[groupId].createdAtNs
    ensures groupId !in table ==> r.1 == table[groupId := StoredGroupForWelcome(groupId, conversationType, addedByAddress, nowNs)]
  {
    var (stored, table') := InsertOrIgnoreGroup(table, StoredGroupForWelcome(groupId, conversationType, addedByAddress, nowNs));
    (MlsGroup(stored.id, stored.createdAtNs), table')
  }

  /** A second welcome for the same group leaves the table as it was and returns the same handle. */
  lemma CreateFromWelcomeTwice(table: GroupTable, groupId: Bytes, t1: ConversationType, a1: string, n1: int,
                               t2: ConversationType, a2: string, n2: int)
    ensures var (g1, table1) := CreateFromWelcome(table, groupId, t1, a1, n1);
      CreateFromWelcome(table1, groupId, t2, a2, n2) == (g1, table1)
  {
  }
}
