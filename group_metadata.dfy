/**
 * The group's mutable metadata (attributes, admin list, super-admin list), kept in the
 * mutable-metadata extension of the group context, and the two builders that produce
 * the group-context extensions for a metadata change or an admin-list change.
 */
module GroupMetadata {
  import opened Wrappers
  import GroupErrors

  datatype GroupMutableMetadata = GroupMutableMetadata(
    attributes: map<string, string>,
    adminList: seq<string>,
    superAdminList: seq<string>)

  /** The extension types of a group context; the XMTP ones are told apart by their role. */
  datatype ExtensionType =
    | ImmutableMetadataExtension
    | MutableMetadataExtension
    | GroupMembershipExtension
    | GroupPermissionsExtension
    | RequiredCapabilitiesExtension
    | OtherExtension(id: nat)

  /** An extension's content: the mutable metadata it encodes, or bytes the model does not read. */
  datatype Extension = MutableMetadata(metadata: GroupMutableMetadata) | Opaque(data: seq<bv8>)

  /** A group context's extensions, at most one per type (`add_or_replace`). */
  type Extensions = map<ExtensionType, Extension>

  /** The error every reader of the mutable metadata returns when the extension is absent. */
  const MISSING_EXTENSION: GroupErrors.GroupError := GroupErrors.GroupMutableMetadata(GroupErrors.MissingExtension)

  /** The attribute under which the group name is kept. */
  const GROUP_NAME: string := "group_name"

  /** `extract_group_mutable_metadata`: the metadata in the mutable-metadata extension. */
  function ExtractMutableMetadata(extensions: Extensions): (r: Result<GroupMutableMetadata, GroupErrors.GroupError>)
    ensures r.Ok? <==> MutableMetadataExtension in extensions && extensions[MutableMetadataExtension].MutableMetadata?
    ensures r.Ok? ==> r.value == extensions[MutableMetadataExtension].metadata
    ensures r.Err? ==> r.error == MISSING_EXTENSION
  {
    if MutableMetadataExtension in extensions && extensions[MutableMetadataExtension].MutableMetadata? then
      Ok(extensions[MutableMetadataExtension].metadata)
    else
      Err(MISSING_EXTENSION)
  }

  /** `MlsGroup::group_name`: the group-name attribute, or MissingExtension when it is absent. */
  function GroupName(extensions: Extensions): (r: Result<string, GroupErrors.GroupError>)
    ensures r.Ok? <==> ExtractMutableMetadata(extensions).Ok? && GROUP_NAME in ExtractMutableMetadata(extensions).value.attributes
    ensures r.Ok? ==> r.value == ExtractMutableMetadata(extensions).value.attributes[GROUP_NAME]
    ensures r.Err? ==> r.error == MISSING_EXTENSION
  {
    match ExtractMutableMetadata(extensions)
    case Err(e) => Err(e)
    case Ok(metadata) =>
      if GROUP_NAME in metadata.attributes then Ok(metadata.attributes[GROUP_NAME])
      else Err(MISSING_EXTENSION)
  }

  /** `build_mutable_metadata_extensions`: set one attribute and replace the mutable-metadata extension. */
  method BuildMutableMetadataExtensions(extensions: Extensions, fieldName: string, fieldValue: string)
    returns (r: Result<Extensions, GroupErrors.GroupError>)
    ensures ExtractMutableMetadata(extensions).Err? ==> r == Err(ExtractMutableMetadata(extensions).error)
    ensures ExtractMutableMetadata(extensions).Ok? ==> r.Ok?
    ensures r.Ok? ==>
      var old_ := ExtractMutableMetadata(extensions).value;
      && MutableMetadataExtension in r.value
      && r.value[MutableMetadataExtension] == MutableMetadata(GroupMutableMetadata(
           old_.attributes[fieldName := fieldValue], old_.adminList, old_.superAdminList))
    ensures r.Ok? ==> r.value.Keys == extensions.Keys
    ensures r.Ok? ==> forall t :: t in extensions && t != MutableMetadataExtension ==> r.value[t] == extensions[t]
  {
    var existing := ExtractMutableMetadata(extensions);
    if existing.Err? {
      return Err(existing.error);
    }
    var attributes := existing.value.attributes;
    attributes := attributes[fieldName := fieldValue];
    var newMetadata := GroupMutableMetadata(attributes, existing.value.adminList, existing.value.superAdminList);
    var updated := extensions;
    updated := updated[MutableMetadataExtension := MutableMetadata(newMetadata)];
    r := Ok(updated);
  }

  /** The four admin-list actions of an admin-list update intent. */
  datatype AdminListActionType = AddAdmin | RemoveAdmin | AddSuperAdmin | RemoveSuperAdmin

  datatype UpdateAdminListIntentData = UpdateAdminListIntentData(actionType: AdminListActionType, inboxId: string)

  /** The list `Vec::retain(|x| x != id)` leaves: every element other than `id`, in order. */
  function Removed(list: seq<string>, id: string): seq<string>
  {
    if list == [] then []
    else Removed(list[..|list| - 1], id) + (if list[|list| - 1] == id then [] else [list[|list| - 1]])
  }

  /** The list `if !list.contains(id) { list.push(id) }` leaves. */
  function PushedIfAbsent(list: seq<string>, id: string): seq<string>
  {
    if id in list then list else list + [id]
  }

  /** The admin and super-admin lists the admin-list builder stores, AS THE SOURCE WRITES IT. */
  function AdminListsAfter(metadata: GroupMutableMetadata, update: UpdateAdminListIntentData): GroupMutableMetadata
  {
    match update.actionType
    case AddAdmin => metadata.(adminList := PushedIfAbsent(metadata.adminList, update.inboxId))
    case RemoveAdmin => metadata.(adminList := Removed(metadata.adminList, update.inboxId))
    case AddSuperAdmin => metadata.(superAdminList := PushedIfAbsent(metadata.superAdminList, update.inboxId))
    // The source filters the admin list here, not the super-admin list.
    case RemoveSuperAdmin => metadata.(adminList := Removed(metadata.adminList, update.inboxId))
  }

  /** The evidently intended result: RemoveSuperAdmin works on the super-admin list. */
  function IntendedAdminListsAfter(metadata: GroupMutableMetadata, update: UpdateAdminListIntentData): GroupMutableMetadata
  {
    match update.actionType
    case RemoveSuperAdmin => metadata.(superAdminList := Removed(metadata.superAdminList, update.inboxId))
    case _ => AdminListsAfter(metadata, update)
  }

  /** `Vec::retain(|x| x != id)`, one element at a time. */
  method Retain(list: seq<string>, id: string) returns (kept: seq<string>)
    ensures kept == Removed(list, id)
  {
    kept := [];
    var i := 0;
    while i < |list|
      invariant 0 <= i <= |list|
      invariant kept == Removed(list[..i], id)
    {
      assert list[..i + 1][..i] == list[..i];
      if list[i] != id {
        kept := kept + [list[i]];
      }
      i := i + 1;
    }
    assert list[..i] == list;
  }

  /** `build_mutable_metadata_extensions_for_admin_lists_update`. */
  method BuildMutableMetadataExtensionsForAdminListsUpdate(extensions: Extensions, update: UpdateAdminListIntentData)
    returns (r: Result<Extensions, GroupErrors.GroupError>)
    ensures ExtractMutableMetadata(extensions).Err? ==> r == Err(ExtractMutableMetadata(extensions).error)
    ensures ExtractMutableMetadata(extensions).Ok? ==>
      r == Ok(extensions[MutableMetadataExtension := MutableMetadata(AdminListsAfter(ExtractMutableMetadata(extensions).value, update))])
  {
    var existing := ExtractMutableMetadata(extensions);
    if existing.Err? {
      return Err(existing.error);
    }
    var attributes := existing.value.attributes;
    var adminList := existing.value.adminList;
    var superAdminList := existing.value.superAdminList;
    match update.actionType {
      case AddAdmin =>
        if update.inboxId !in adminList {
          adminList := adminList + [update.inboxId];
        }
      case RemoveAdmin =>
        adminList := Retain(adminList, update.inboxId);
      case AddSuperAdmin =>
        if update.inboxId !in superAdminList {
          superAdminList := superAdminList + [update.inboxId];
        }
      case RemoveSuperAdmin =>
        adminList := Retain(adminList, update.inboxId);
    }
    var newMetadata := GroupMutableMetadata(attributes, adminList, superAdminList);
    r := Ok(extensions[MutableMetadataExtension := MutableMetadata(newMetadata)]);
  }

  // ---------------------------------------------------------------- properties of Removed

  /** An element survives the filter exactly when it was in the list and is not the removed id. */
  lemma {:induction false} RemovedMembership(list: seq<string>, id: string, x: string)
    ensures x in Removed(list, id) <==> x in list && x != id
  {
    if list != [] {
      var init := list[..|list| - 1];
      RemovedMembership(init, id, x);
      assert list == init + [list[|list| - 1]];
    }
  }

  /** The filter keeps order: filtering a concatenation filters each part. */
  lemma {:induction false} RemovedAppend(a: seq<string>, b: seq<string>, id: string)
    ensures Removed(a + b, id) == Removed(a, id) + Removed(b, id)
  {
    if b == [] {
      assert a + b == a;
    } else {
      var init := b[..|b| - 1];
      RemovedAppend(a, init, id);
      assert (a + b)[..|a + b| - 1] == a + init;
    }
  }

  /** A list without the removed id is left as it is. */
  lemma {:induction false} RemovedAbsent(list: seq<string>, id: string)
    requires id !in list
    ensures Removed(list, id) == list
  {
    if list != [] {
      RemovedAbsent(list[..|list| - 1], id);
    }
  }

  /** The filter never lengthens a list, and shortens it when the id was present. */
  lemma {:induction false} RemovedLength(list: seq<string>, id: string)
    ensures |Removed(list, id)| <= |list|
    ensures id in list ==> |Removed(list, id)| < |list|
  {
    if list != [] {
      var init := list[..|list| - 1];
      RemovedLength(init, id);
      assert list == init + [list[|list| - 1]];
    }
  }

  ghost predicate NoDuplicates(list: seq<string>)
  {
    forall i, j :: 0 <= i < j < |list| ==> list[i] != list[j]
  }

  // ------------------------------------------------------- properties of the admin-list update

  /**
   * AddAdmin puts the id in the admin list only if it was absent: the list grows by at
   * most one, gains no duplicate, and the super-admin list and attributes are unchanged.
   */
  lemma AddAdminAppendsIfAbsent(metadata: GroupMutableMetadata, id: string)
    ensures var after := AdminListsAfter(metadata, UpdateAdminListIntentData(AddAdmin, id));
      && id in after.adminList
      && (id in metadata.adminList ==> after.adminList == metadata.adminList)
      && (id !in metadata.adminList ==> after.adminList == metadata.adminList + [id])
      && |after.adminList| <= |metadata.adminList| + 1
      && (NoDuplicates(metadata.adminList) ==> NoDuplicates(after.adminList))
      && after.superAdminList == metadata.superAdminList
      && after.attributes == metadata.attributes
  {
  }

  /**
   * RemoveAdmin removes every occurrence of the id from the admin list and keeps all other
   * entries in order; the super-admin list and attributes are unchanged.
   */
  lemma RemoveAdminRemovesEveryOccurrence(metadata: GroupMutableMetadata, id: string)
    ensures var after := AdminListsAfter(metadata, UpdateAdminListIntentData(RemoveAdmin, id));
      && id !in after.adminList
      && (forall x :: x in after.adminList <==> x in metadata.adminList && x != id)
      && (id !in metadata.adminList ==> after.adminList == metadata.adminList)
      && after.superAdminList == metadata.superAdminList
      && after.attributes == metadata.attributes
  {
    forall x ensures x in Removed(metadata.adminList, id) <==> x in metadata.adminList && x != id {
      RemovedMembership(metadata.adminList, id, x);
    }
    if id !in metadata.adminList {
      RemovedAbsent(metadata.adminList, id);
    }
  }

  /** AddSuperAdmin puts the id in the super-admin list only if absent; the admin list and attributes are unchanged. */
  lemma AddSuperAdminAppendsIfAbsent(metadata: GroupMutableMetadata, id: string)
    ensures var after := AdminListsAfter(metadata, UpdateAdminListIntentData(AddSuperAdmin, id));
      && id in after.superAdminList
      && (id in metadata.superAdminList ==> after.superAdminList == metadata.superAdminList)
      && (id !in metadata.superAdminList ==> after.superAdminList == metadata.superAdminList + [id])
      && (NoDuplicates(metadata.superAdminList) ==> NoDuplicates(after.superAdminList))
      && after.adminList == metadata.adminList
      && after.attributes == metadata.attributes
  {
  }

  /**
   * As written, RemoveSuperAdmin leaves the super-admin list unchanged and instead
   * removes the id from the admin list.
   */
  lemma RemoveSuperAdminAsWritten(metadata: GroupMutableMetadata, id: string)
    ensures var after := AdminListsAfter(metadata, UpdateAdminListIntentData(RemoveSuperAdmin, id));
      && after.superAdminList == metadata.superAdminList
      && after.adminList == Removed(metadata.adminList, id)
      && id !in after.adminList
  {
    RemovedMembership(metadata.adminList, id, id);
  }

  /** The discrepancy on one input: a super admin survives its own removal. */
  lemma RemoveSuperAdminLeavesSuperAdmin()
    ensures var metadata := GroupMutableMetadata(map[], [], ["inbox"]);
      "inbox" in AdminListsAfter(metadata, UpdateAdminListIntentData(RemoveSuperAdmin, "inbox")).superAdminList
  {
  }

  /**
   * The corrected RemoveSuperAdmin removes every occurrence of the id from the super-admin
   * list, keeps the other super admins in order, and leaves the admin list and attributes alone.
   */
  lemma IntendedRemoveSuperAdmin(metadata: GroupMutableMetadata, id: string)
    ensures var after := IntendedAdminListsAfter(metadata, UpdateAdminListIntentData(RemoveSuperAdmin, id));
      && id !in after.superAdminList
      && (forall x :: x in after.superAdminList <==> x in metadata.superAdminList && x != id)
      && after.adminList == metadata.adminList
      && after.attributes == metadata.attributes
  {
    forall x ensures x in Removed(metadata.superAdminList, id) <==> x in metadata.superAdminList && x != id {
      RemovedMembership(metadata.superAdminList, id, x);
    }
  }

  /** The extensions the admin-list builder returns differ from the old ones only in the mutable-metadata extension. */
  lemma AdminListsUpdateReplacesOnlyMutableMetadata(extensions: Extensions, update: UpdateAdminListIntentData, t: ExtensionType)
    requires ExtractMutableMetadata(extensions).Ok?
    requires t in extensions && t != MutableMetadataExtension
    ensures var updated := extensions[MutableMetadataExtension := MutableMetadata(AdminListsAfter(ExtractMutableMetadata(extensions).value, update))];
      t in updated && updated[t] == extensions[t] && updated.Keys == extensions.Keys
  {
  }

  /** Setting the group-name attribute and reading the group name back gives the name set. */
  lemma GroupNameAfterUpdate(extensions: Extensions, name: string, updated: Extensions)
    requires ExtractMutableMetadata(extensions).Ok?
    requires updated == extensions[MutableMetadataExtension := MutableMetadata(
      var m := ExtractMutableMetadata(extensions).value; m.(attributes := m.attributes[GROUP_NAME := name]))]
    ensures GroupName(updated) == Ok(name)
    ensures ExtractMutableMetadata(updated).value.adminList == ExtractMutableMetadata(extensions).value.adminList
  {
  }

  /** Without the mutable-metadata extension, reading the group name fails with MissingExtension. */
  lemma GroupNameWithoutExtension(extensions: Extensions)
    requires MutableMetadataExtension !in extensions
    ensures GroupName(extensions) == Err(MISSING_EXTENSION)
  {
  }
}
