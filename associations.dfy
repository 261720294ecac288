/**
 * The identity association log: an inbox's association state is the fold of its identity
 * updates, each a list of actions (create the inbox, add or revoke a member, change the
 * recovery address) checked against the state before it.
 */
module Associations {
  import opened Wrappers

  type Bytes = seq<bv8>

  datatype MemberKind = Address | Installation

  /** A wallet address, or an installation's public key. */
  datatype MemberIdentifier = AddressId(address: string) | InstallationId(key: Bytes)
  {
    function Kind(): MemberKind
    {
      match this
      case AddressId(_) => Address
      case InstallationId(_) => Installation
    }
  }

  /** A member and the member that added it (none for the inbox's first address). */
  datatype Member = Member(identifier: MemberIdentifier, addedByEntity: Option<MemberIdentifier>)

  datatype SignatureKind = Erc191 | Erc1271 | InstallationKey | LegacyDelegated

  /** A signature whose signer has already been recovered and checked. */
  datatype VerifiedSignature = VerifiedSignature(signer: MemberIdentifier, kind: SignatureKind, rawBytes: Bytes)

  datatype Action =
    | CreateInbox(nonce: nat, accountAddress: string, initialAddressSignature: VerifiedSignature)
    | AddAssociation(newMemberIdentifier: MemberIdentifier, newMemberSignature: VerifiedSignature,
                     existingMemberSignature: VerifiedSignature)
    | RevokeAssociation(recoveryAddressSignature: VerifiedSignature, revokedMember: MemberIdentifier)
    | ChangeRecoveryAddress(newRecoveryAddress: string, recoveryAddressSignature: VerifiedSignature)

  datatype IdentityUpdate = IdentityUpdate(actions: seq<Action>, clientTimestampNs: nat)

  /**
   * An inbox's members (each with the member that added it), its recovery address, and the
   * signatures earlier updates used.
   */
  datatype AssociationState = AssociationState(
    members: map<MemberIdentifier, Option<MemberIdentifier>>,
    recoveryAddress: string,
    seenSignatures: set<Bytes>)

  datatype AssociationError =
    | NotCreated
    | MultipleCreate
    | MissingExistingMember
    | NewMemberIdSignatureMismatch
    | MemberNotAllowed(existingMemberKind: MemberKind, newMemberKind: MemberKind)
    | Replay

  /** `AssociationState::get`. */
  function Get(state: AssociationState, id: MemberIdentifier): (r: Option<Member>)
    ensures r.Some? <==> id in state.members
    ensures r.Some? ==> r.value.identifier == id
  {
    if id in state.members then Some(Member(id, state.members[id])) else None
  }

  /** The state a CreateInbox starts: the account address is the only member and the recovery address. */
  function NewAssociationState(accountAddress: string): AssociationState
  {
    AssociationState(map[AddressId(accountAddress) := None], accountAddress, {})
  }

  /** Which kind of member may add which: everything except an installation adding an installation. */
  predicate AllowedAssociation(existing: MemberKind, added: MemberKind)
  {
    !(existing == Installation && added == Installation)
  }

  /** The raw bytes of the signatures an action carries. */
  function ActionSignatures(action: Action): set<Bytes>
  {
    match action
    case CreateInbox(_, _, s) => {s.rawBytes}
    case AddAssociation(_, n, e) => {n.rawBytes, e.rawBytes}
    case RevokeAssociation(s, _) => {s.rawBytes}
    case ChangeRecoveryAddress(_, s) => {s.rawBytes}
  }

  function UpdateSignatures(actions: seq<Action>): set<Bytes>
  {
    if actions == [] then {} else ActionSignatures(actions[0]) + UpdateSignatures(actions[1..])
  }

  /** The state without the revoked member and without every member it added. */
  function RemoveWithChildren(members: map<MemberIdentifier, Option<MemberIdentifier>>, revoked: MemberIdentifier)
    : map<MemberIdentifier, Option<MemberIdentifier>>
  {
    map id | id in members && id != revoked && members[id] != Some(revoked) :: members[id]
  }

  /**
   * One action's transition. Only CreateInbox starts a state and only on none; an action
   * reusing a seen signature is a Replay; no action touches the seen signatures, and only
   * ChangeRecoveryAddress moves the recovery address.
   */
  function ApplyAction(state: Option<AssociationState>, action: Action): (r: Result<AssociationState, AssociationError>)
    ensures state.None? && !action.CreateInbox? ==> r == Err(NotCreated)
    ensures state.Some? && action.CreateInbox? ==> r == Err(MultipleCreate)
    ensures state.Some? && !action.CreateInbox? && ActionSignatures(action) * state.value.seenSignatures != {} ==> r == Err(Replay)
    ensures r.Ok? ==> r.value.seenSignatures == (if state.Some? then state.value.seenSignatures else {})
    ensures r.Ok? && state.Some? && !action.ChangeRecoveryAddress? ==> r.value.recoveryAddress == state.value.recoveryAddress
  {
    match action
    case CreateInbox(_, accountAddress, signature) =>
      if state.Some? then Err(MultipleCreate)
      else if signature.signer != AddressId(accountAddress) then Err(MissingExistingMember)
      else Ok(NewAssociationState(accountAddress))
    case AddAssociation(newId, newSignature, existingSignature) =>
      if state.None? then Err(NotCreated)
      else
        var s := state.value;
        if ActionSignatures(action) * s.seenSignatures != {} then Err(Replay)
        else if newSignature.signer != newId then Err(NewMemberIdSignatureMismatch)
        else if existingSignature.signer !in s.members then Err(MissingExistingMember)
        else if !AllowedAssociation(existingSignature.signer.Kind(), newId.Kind()) then
          Err(MemberNotAllowed(existingSignature.signer.Kind(), newId.Kind()))
        else Ok(s.(members := s.members[newId := Some(existingSignature.signer)]))
    case RevokeAssociation(signature, revoked) =>
      if state.None? then Err(NotCreated)
      else
        var s := state.value;
        if ActionSignatures(action) * s.seenSignatures != {} then Err(Replay)
        else if signature.signer != AddressId(s.recoveryAddress) then Err(MissingExistingMember)
        else Ok(s.(members := RemoveWithChildren(s.members, revoked)))
    case ChangeRecoveryAddress(newAddress, signature) =>
      if state.None? then Err(NotCreated)
      else
        var s := state.value;
        if ActionSignatures(action) * s.seenSignatures != {} then Err(Replay)
        else if signature.signer != AddressId(s.recoveryAddress) then Err(MissingExistingMember)
        else Ok(s.(recoveryAddress := newAddress))
  }

  /** The actions of one update, in order, stopping at the first failure. */
  function ApplyActions(state: Option<AssociationState>, actions: seq<Action>): Result<Option<AssociationState>, AssociationError>
    decreases |actions|
  {
    if actions == [] then Ok(state)
    else match ApplyAction(state, actions[0])
      case Err(e) => Err(e)
      case Ok(s) => ApplyActions(Some(s), actions[1..])
  }

  /** From an existing state the actions of an update keep a state, and never fail with NotCreated. */
  lemma {:induction false} ApplyActionsFromCreated(s: AssociationState, actions: seq<Action>)
    ensures ApplyActions(Some(s), actions).Ok? ==> ApplyActions(Some(s), actions).value.Some?
    ensures ApplyActions(Some(s), actions).Err? ==> ApplyActions(Some(s), actions).error != NotCreated
    decreases |actions|
  {
    if actions != [] && ApplyAction(Some(s), actions[0]).Ok? {
      ApplyActionsFromCreated(ApplyAction(Some(s), actions[0]).value, actions[1..]);
    }
  }

  /** The actions of an update leave the seen signatures as they were. */
  lemma {:induction false} ApplyActionsKeepsSeen(state: Option<AssociationState>, actions: seq<Action>)
    ensures ApplyActions(state, actions).Ok? && ApplyActions(state, actions).value.Some? ==>
      ApplyActions(state, actions).value.value.seenSignatures == (if state.Some? then state.value.seenSignatures else {})
    decreases |actions|
  {
    if actions != [] && ApplyAction(state, actions[0]).Ok? {
      ApplyActionsKeepsSeen(Some(ApplyAction(state, actions[0]).value), actions[1..]);
    }
  }

  /**
   * `IdentityUpdate::update_state`: all actions, then the update's signatures become seen.
   * Signatures seen before stay seen, so a replay stays rejected.
   */
  function UpdateState(update: IdentityUpdate, state: Option<AssociationState>): (r: Result<AssociationState, AssociationError>)
    ensures state.None? && update.actions == [] ==> r == Err(NotCreated)
    ensures r.Ok? ==> r.value.seenSignatures == UpdateSignatures(update.actions) + (if state.Some? then state.value.seenSignatures else {})
  {
    ApplyActionsKeepsSeen(state, update.actions);
    match ApplyActions(state, update.actions)
    case Err(e) => Err(e)
    case Ok(None) => Err(NotCreated)
    case Ok(Some(s)) => Ok(s.(seenSignatures := s.seenSignatures + UpdateSignatures(update.actions)))
  }

  /**
   * `apply_update`: one update on an existing state, the step of the fold. It never fails
   * with NotCreated, and keeps every signature seen before.
   */
  function ApplyUpdate(initialState: AssociationState, update: IdentityUpdate): (r: Result<AssociationState, AssociationError>)
    ensures r == UpdateState(update, Some(initialState))
    ensures r.Err? ==> r.error != NotCreated
    ensures r.Ok? ==> initialState.seenSignatures <= r.value.seenSignatures
  {
    ApplyActionsFromCreated(initialState, update.actions);
    UpdateState(update, Some(initialState))
  }

  /** The fold `get_state` computes: None at the start, each update applied to the previous state. */
  function FoldUpdates(updates: seq<IdentityUpdate>): Result<Option<AssociationState>, AssociationError>
  {
    if updates == [] then Ok(None)
    else match FoldUpdates(updates[..|updates| - 1])
      case Err(e) => Err(e)
      case Ok(state) =>
        match UpdateState(updates[|updates| - 1], state)
        case Err(e) => Err(e)
        case Ok(s) => Ok(Some(s))
  }

  /** What `get_state` returns: the folded state, NotCreated when nothing was folded. */
  function GetStateSpec(updates: seq<IdentityUpdate>): Result<AssociationState, AssociationError>
  {
    match FoldUpdates(updates)
    case Err(e) => Err(e)
    case Ok(None) => Err(NotCreated)
    case Ok(Some(s)) => Ok(s)
  }

  /** `get_state`. */
  method GetState(updates: seq<IdentityUpdate>) returns (r: Result<AssociationState, AssociationError>)
    ensures r == GetStateSpec(updates)
  {
    var state: Option<AssociationState> := None;
    for i := 0 to |updates|
      invariant FoldUpdates(updates[..i]) == Ok(state)
    {
      assert updates[..i + 1][..i] == updates[..i];
      var res := UpdateState(updates[i], state);
      if res.Err? {
        FoldErrorSticks(updates, i + 1, |updates|);
        assert updates[..|updates|] == updates;
        return Err(res.error);
      }
      state := Some(res.value);
    }
    assert updates[..|updates|] == updates;
    r := if state.Some? then Ok(state.value) else Err(NotCreated);
  }

  // ------------------------------------------------------------------ properties of the fold

  /** Once the fold fails, every longer prefix fails with the same error. */
  lemma {:induction false} FoldErrorSticks(updates: seq<IdentityUpdate>, i: nat, j: nat)
    requires i <= j <= |updates|
    requires FoldUpdates(updates[..i]).Err?
    ensures FoldUpdates(updates[..j]) == FoldUpdates(updates[..i])
  {
    if i < j {
      FoldErrorSticks(updates, i, j - 1);
      assert updates[..j][..j - 1] == updates[..j - 1];
    }
  }

  /** An empty log has no state. */
  lemma GetStateEmpty()
    ensures GetStateSpec([]) == Err(NotCreated)
  {
  }

  /** The first update is applied to no state at all. */
  lemma GetStateSingle(update: IdentityUpdate)
    ensures GetStateSpec([update]) == UpdateState(update, None)
  {
    assert [update][..0] == [];
    assert FoldUpdates([update]) == (match UpdateState(update, None) case Err(e) => Err(e) case Ok(s) => Ok(Some(s)));
  }

  /** Extending a log that folds to a state is `apply_update` on that state. */
  lemma GetStateSnoc(updates: seq<IdentityUpdate>, update: IdentityUpdate)
    requires GetStateSpec(updates).Ok?
    ensures GetStateSpec(updates + [update]) == ApplyUpdate(GetStateSpec(updates).value, update)
  {
    assert (updates + [update])[..|updates|] == updates;
  }

  /** The whole call fails with the error of the first update that fails. */
  lemma GetStateFirstError(updates: seq<IdentityUpdate>, i: nat, state: Option<AssociationState>)
    requires i < |updates|
    requires FoldUpdates(updates[..i]) == Ok(state)
    requires UpdateState(updates[i], state).Err?
    ensures GetStateSpec(updates) == Err(UpdateState(updates[i], state).error)
  {
    assert updates[..i + 1][..i] == updates[..i];
    FoldErrorSticks(updates, i + 1, |updates|);
    assert updates[..|updates|] == updates;
  }

  /** A successful log never leaves the state uncreated. */
  lemma {:induction false} GetStateOkIffFoldCreated(updates: seq<IdentityUpdate>)
    ensures GetStateSpec(updates).Ok? <==> FoldUpdates(updates).Ok? && FoldUpdates(updates).value.Some?
    ensures updates != [] && FoldUpdates(updates).Ok? ==> FoldUpdates(updates).value.Some?
  {
  }

  // ------------------------------------------------------------------ properties of the transition

  /** An update with a single action is that action's transition, after which its signatures are seen. */
  lemma SingleActionUpdate(state: Option<AssociationState>, action: Action, timestamp: nat)
    ensures ApplyAction(state, action).Err? ==>
      UpdateState(IdentityUpdate([action], timestamp), state) == Err(ApplyAction(state, action).error)
    ensures ApplyAction(state, action).Ok? ==>
      var s := ApplyAction(state, action).value;
      UpdateState(IdentityUpdate([action], timestamp), state) == Ok(s.(seenSignatures := s.seenSignatures + ActionSignatures(action)))
  {
    assert [action][1..] == [];
    assert UpdateSignatures([action]) == ActionSignatures(action) + UpdateSignatures([]);
    if ApplyAction(state, action).Ok? {
      var s := ApplyAction(state, action).value;
      assert ApplyActions(state, [action]) == ApplyActions(Some(s), []) == Ok(Some(s));
      assert UpdateSignatures([action]) == ActionSignatures(action);
    }
  }

  /** Signing with the account address creates an inbox whose only member is that address. */
  lemma CreateInboxSingleMember(nonce: nat, accountAddress: string, kind: SignatureKind, raw: Bytes, timestamp: nat)
    ensures var r := GetStateSpec([IdentityUpdate([CreateInbox(nonce, accountAddress, VerifiedSignature(AddressId(accountAddress), kind, raw))], timestamp)]);
      && r.Ok?
      && r.value.members.Keys == {AddressId(accountAddress)}
      && Get(r.value, AddressId(accountAddress)) == Some(Member(AddressId(accountAddress), None))
      && r.value.recoveryAddress == accountAddress
      && raw in r.value.seenSignatures
  {
    var u := IdentityUpdate([CreateInbox(nonce, accountAddress, VerifiedSignature(AddressId(accountAddress), kind, raw))], timestamp);
    GetStateSingle(u);
    SingleActionUpdate(None, u.actions[0], timestamp);
  }

  /** A CreateInbox signed by anyone but the account address fails with MissingExistingMember. */
  lemma CreateInboxWrongSigner(nonce: nat, accountAddress: string, signature: VerifiedSignature, timestamp: nat)
    requires signature.signer != AddressId(accountAddress)
    ensures GetStateSpec([IdentityUpdate([CreateInbox(nonce, accountAddress, signature)], timestamp)]) == Err(MissingExistingMember)
  {
    GetStateSingle(IdentityUpdate([CreateInbox(nonce, accountAddress, signature)], timestamp));
  }

  /** Every action but CreateInbox needs an existing state, and CreateInbox needs there to be none. */
  lemma CreationRules(state: Option<AssociationState>, action: Action)
    ensures state.None? && !action.CreateInbox? ==> ApplyAction(state, action) == Err(NotCreated)
    ensures state.Some? && action.CreateInbox? ==> ApplyAction(state, action) == Err(MultipleCreate)
  {
  }

  /**
   * An AddAssociation that is not a replay and whose new-member signature matches succeeds
   * exactly when the existing signer is a member and the pair of kinds is allowed; it then
   * adds the new member, recorded as added by the signer, and changes nothing else.
   */
  lemma AddAssociationRules(s: AssociationState, newId: MemberIdentifier, newSignature: VerifiedSignature, existingSignature: VerifiedSignature)
    requires ActionSignatures(AddAssociation(newId, newSignature, existingSignature)) * s.seenSignatures == {}
    requires newSignature.signer == newId
    ensures var r := ApplyAction(Some(s), AddAssociation(newId, newSignature, existingSignature));
      && (existingSignature.signer !in s.members ==> r == Err(MissingExistingMember))
      && (existingSignature.signer in s.members && existingSignature.signer.Kind() == Installation && newId.Kind() == Installation
          ==> r == Err(MemberNotAllowed(Installation, Installation)))
      && (r.Ok? <==> existingSignature.signer in s.members && AllowedAssociation(existingSignature.signer.Kind(), newId.Kind()))
      && (r.Ok? ==>
            && r.value.members.Keys == s.members.Keys + {newId}
            && Get(r.value, newId) == Some(Member(newId, Some(existingSignature.signer)))
            && r.value.recoveryAddress == s.recoveryAddress)
  {
  }

  /** A new-member signature by someone other than the new member fails with NewMemberIdSignatureMismatch. */
  lemma AddAssociationSignatureMismatch(s: AssociationState, newId: MemberIdentifier, newSignature: VerifiedSignature, existingSignature: VerifiedSignature)
    requires ActionSignatures(AddAssociation(newId, newSignature, existingSignature)) * s.seenSignatures == {}
    requires newSignature.signer != newId
    ensures ApplyAction(Some(s), AddAssociation(newId, newSignature, existingSignature)) == Err(NewMemberIdSignatureMismatch)
  {
  }

  /** A signature an earlier update carried cannot be used again. */
  lemma SeenSignatureIsReplay(s: AssociationState, action: Action, raw: Bytes)
    requires !action.CreateInbox?
    requires raw in ActionSignatures(action) && raw in s.seenSignatures
    ensures ApplyAction(Some(s), action) == Err(Replay)
  {
    assert raw in ActionSignatures(action) * s.seenSignatures;
  }

  /** Every signature of a successful update is seen afterwards. */
  lemma UpdateRecordsSignatures(update: IdentityUpdate, state: Option<AssociationState>)
    requires UpdateState(update, state).Ok?
    ensures UpdateSignatures(update.actions) <= UpdateState(update, state).value.seenSignatures
  {
  }

  /**
   * A revocation signed by the recovery address removes the revoked member and every member
   * it added, and keeps every other member with its adder.
   */
  lemma RevokeRemovesMemberAndChildren(s: AssociationState, signature: VerifiedSignature, revoked: MemberIdentifier)
    requires ActionSignatures(RevokeAssociation(signature, revoked)) * s.seenSignatures == {}
    requires signature.signer == AddressId(s.recoveryAddress)
    ensures var r := ApplyAction(Some(s), RevokeAssociation(signature, revoked));
      && r.Ok?
      && revoked !in r.value.members
      && (forall id :: id in r.value.members ==> r.value.members[id] != Some(revoked))
      && (forall id :: id in s.members && id != revoked && s.members[id] != Some(revoked) ==>
            id in r.value.members && r.value.members[id] == s.members[id])
      && r.value.members.Keys <= s.members.Keys
  {
  }

  /** Revoking or changing the recovery address needs the recovery address's signature. */
  lemma RecoveryActionsNeedRecoverySigner(s: AssociationState, action: Action)
    requires action.RevokeAssociation? || action.ChangeRecoveryAddress?
    requires ActionSignatures(action) * s.seenSignatures == {}
    requires action.recoveryAddressSignature.signer != AddressId(s.recoveryAddress)
    ensures ApplyAction(Some(s), action) == Err(MissingExistingMember)
  {
  }

  /**
   * After a change of recovery address the new address is the recovery address, and a later,
   * fresh revocation signed by the old address fails with MissingExistingMember.
   */
  lemma ChangeRecoveryAddressThenOldSignerRejected(s: AssociationState, newAddress: string, signature: VerifiedSignature, timestamp: nat,
                                                  revokeSignature: VerifiedSignature, revoked: MemberIdentifier, later: nat)
    requires newAddress != s.recoveryAddress
    requires signature.signer == AddressId(s.recoveryAddress) && signature.rawBytes !in s.seenSignatures
    requires revokeSignature.signer == AddressId(s.recoveryAddress)
    requires revokeSignature.rawBytes !in s.seenSignatures && revokeSignature.rawBytes != signature.rawBytes
    ensures var r := ApplyUpdate(s, IdentityUpdate([ChangeRecoveryAddress(newAddress, signature)], timestamp));
      && r.Ok?
      && r.value.recoveryAddress == newAddress
      && r.value.members == s.members
      && ApplyUpdate(r.value, IdentityUpdate([RevokeAssociation(revokeSignature, revoked)], later)) == Err(MissingExistingMember)
  {
    SingleActionUpdate(Some(s), ChangeRecoveryAddress(newAddress, signature), timestamp);
    var r := ApplyUpdate(s, IdentityUpdate([ChangeRecoveryAddress(newAddress, signature)], timestamp));
    SingleActionUpdate(Some(r.value), RevokeAssociation(revokeSignature, revoked), later);
  }

  /**
   * An inbox created with a legacy-delegated signature cannot use that signature again: the
   * next update that carries it fails with Replay.
   */
  lemma LegacySignatureCannotBeReplayed(accountAddress: string, legacy: Bytes, timestamp: nat,
                                        newId: MemberIdentifier, newSignature: VerifiedSignature, later: nat)
    ensures var created := GetStateSpec([IdentityUpdate([CreateInbox(0, accountAddress,
                             VerifiedSignature(AddressId(accountAddress), LegacyDelegated, legacy))], timestamp)]);
      && created.Ok?
      && ApplyUpdate(created.value, IdentityUpdate([AddAssociation(newId, newSignature,
           VerifiedSignature(AddressId(accountAddress), LegacyDelegated, legacy))], later)) == Err(Replay)
  {
    CreateInboxSingleMember(0, accountAddress, LegacyDelegated, legacy, timestamp);
    var created := GetStateSpec([IdentityUpdate([CreateInbox(0, accountAddress,
                     VerifiedSignature(AddressId(accountAddress), LegacyDelegated, legacy))], timestamp)]);
    SeenSignatureIsReplay(created.value, AddAssociation(newId, newSignature,
      VerifiedSignature(AddressId(accountAddress), LegacyDelegated, legacy)), legacy);
  }

  /**
   * A wallet that added two installations and is then revoked by its own (recovery)
   * signature takes both installations with it: three members become none.
   */
  lemma RevokeWalletWithTwoInstallations(wallet: string, i1: Bytes, i2: Bytes, signature: VerifiedSignature)
    requires i1 != i2
    requires signature.signer == AddressId(wallet)
    ensures var s := AssociationState(map[AddressId(wallet) := None,
                                          InstallationId(i1) := Some(AddressId(wallet)),
                                          InstallationId(i2) := Some(AddressId(wallet))], wallet, {});
      && |s.members| == 3
      && ApplyAction(Some(s), RevokeAssociation(signature, AddressId(wallet))).Ok?
      && ApplyAction(Some(s), RevokeAssociation(signature, AddressId(wallet))).value.members == map[]
  {
    var s := AssociationState(map[AddressId(wallet) := None,
                                  InstallationId(i1) := Some(AddressId(wallet)),
                                  InstallationId(i2) := Some(AddressId(wallet))], wallet, {});
    assert s.members.Keys == {AddressId(wallet), InstallationId(i1), InstallationId(i2)};
    var r := ApplyAction(Some(s), RevokeAssociation(signature, AddressId(wallet)));
    RevokeRemovesMemberAndChildren(s, signature, AddressId(wallet));
    assert r.value.members.Keys == {};
  }
  /** Two actions in one update, applied in order. */
  lemma TwoActionUpdate(state: Option<AssociationState>, a1: Action, a2: Action, timestamp: nat)
    requires ApplyAction(state, a1).Ok?
    ensures var s1 := ApplyAction(state, a1).value;
      ApplyAction(Some(s1), a2).Err? ==>
        UpdateState(IdentityUpdate([a1, a2], timestamp), state) == Err(ApplyAction(Some(s1), a2).error)
    ensures var s1 := ApplyAction(state, a1).value;
      ApplyAction(Some(s1), a2).Ok? ==>
        var s2 := ApplyAction(Some(s1), a2).value;
        UpdateState(IdentityUpdate([a1, a2], timestamp), state)
          == Ok(s2.(seenSignatures := s2.seenSignatures + ActionSignatures(a1) + ActionSignatures(a2)))
  {
    var s1 := ApplyAction(state, a1).value;
    assert [a1, a2][1..] == [a2];
    assert [a2][1..] == [];
    assert ApplyActions(state, [a1, a2]) == ApplyActions(Some(s1), [a2]);
    if ApplyAction(Some(s1), a2).Ok? {
      var s2 := ApplyAction(Some(s1), a2).value;
      assert ApplyActions(Some(s1), [a2]) == ApplyActions(Some(s2), []) == Ok(Some(s2));
      assert UpdateSignatures([a2]) == ActionSignatures(a2) + UpdateSignatures([]);
      assert UpdateSignatures([a1, a2]) == ActionSignatures(a1) + UpdateSignatures([a2]);
      assert s2.seenSignatures + UpdateSignatures([a1, a2]) == s2.seenSignatures + ActionSignatures(a1) + ActionSignatures(a2);
    }
  }

  /**
   * Creating an inbox and adding an installation signed by the account address in the same
   * update gives two members, the installation recorded as added by the address.
   */
  lemma CreateAndAddTogether(nonce: nat, accountAddress: string, createSignature: VerifiedSignature,
                             key: Bytes, newRaw: Bytes, existingRaw: Bytes, timestamp: nat)
    requires createSignature.signer == AddressId(accountAddress)
    ensures var r := GetStateSpec([IdentityUpdate([
              CreateInbox(nonce, accountAddress, createSignature),
              AddAssociation(InstallationId(key), VerifiedSignature(InstallationId(key), InstallationKey, newRaw),
                             VerifiedSignature(AddressId(accountAddress), Erc191, existingRaw))], timestamp)]);
      && r.Ok?
      && r.value.members.Keys == {AddressId(accountAddress), InstallationId(key)}
      && |r.value.members| == 2
      && Get(r.value, InstallationId(key)) == Some(Member(InstallationId(key), Some(AddressId(accountAddress))))
  {
    var create := CreateInbox(nonce, accountAddress, createSignature);
    var add := AddAssociation(InstallationId(key), VerifiedSignature(InstallationId(key), InstallationKey, newRaw),
                              VerifiedSignature(AddressId(accountAddress), Erc191, existingRaw));
    GetStateSingle(IdentityUpdate([create, add], timestamp));
    TwoActionUpdate(None, create, add, timestamp);
    var r := GetStateSpec([IdentityUpdate([create, add], timestamp)]);
    assert r.value.members.Keys == {AddressId(accountAddress), InstallationId(key)};
    assert AddressId(accountAddress) != InstallationId(key);
  }

  /**
   * Adding a new wallet and revoking it again in one update restores the members; adding the
   * same wallet once more, with fresh signatures, brings it back with the same adder.
   */
  lemma RevokeAndReAdd(s: AssociationState, wallet2: string, addSignatures: (Bytes, Bytes), revokeRaw: Bytes,
                       readdSignatures: (Bytes, Bytes), t1: nat, t2: nat)
    requires AddressId(s.recoveryAddress) in s.members
    requires AddressId(wallet2) !in s.members
    requires forall id :: id in s.members ==> s.members[id] != Some(AddressId(wallet2))
    requires addSignatures.0 !in s.seenSignatures && addSignatures.1 !in s.seenSignatures
    requires revokeRaw !in s.seenSignatures && revokeRaw != addSignatures.0 && revokeRaw != addSignatures.1
    requires readdSignatures.0 !in s.seenSignatures && readdSignatures.1 !in s.seenSignatures
    requires readdSignatures.0 !in {addSignatures.0, addSignatures.1, revokeRaw}
    requires readdSignatures.1 !in {addSignatures.0, addSignatures.1, revokeRaw}
    ensures var add := AddAssociation(AddressId(wallet2), VerifiedSignature(AddressId(wallet2), Erc191, addSignatures.0),
                                      VerifiedSignature(AddressId(s.recoveryAddress), Erc191, addSignatures.1));
      var revoke := RevokeAssociation(VerifiedSignature(AddressId(s.recoveryAddress), Erc191, revokeRaw), AddressId(wallet2));
      var readd := AddAssociation(AddressId(wallet2), VerifiedSignature(AddressId(wallet2), Erc191, readdSignatures.0),
                                  VerifiedSignature(AddressId(s.recoveryAddress), Erc191, readdSignatures.1));
      var removed := ApplyUpdate(s, IdentityUpdate([add, revoke], t1));
      && removed.Ok?
      && removed.value.members == s.members
      && ApplyUpdate(removed.value, IdentityUpdate([readd], t2)).Ok?
      && ApplyUpdate(removed.value, IdentityUpdate([readd], t2)).value.members
           == s.members[AddressId(wallet2) := Some(AddressId(s.recoveryAddress))]
  {
    var w := AddressId(s.recoveryAddress);
    var add := AddAssociation(AddressId(wallet2), VerifiedSignature(AddressId(wallet2), Erc191, addSignatures.0),
                              VerifiedSignature(w, Erc191, addSignatures.1));
    var revoke := RevokeAssociation(VerifiedSignature(w, Erc191, revokeRaw), AddressId(wallet2));
    var readd := AddAssociation(AddressId(wallet2), VerifiedSignature(AddressId(wallet2), Erc191, readdSignatures.0),
                                VerifiedSignature(w, Erc191, readdSignatures.1));
    assert ActionSignatures(add) * s.seenSignatures == {};
    var s1 := ApplyAction(Some(s), add).value;
    assert ActionSignatures(revoke) * s1.seenSignatures == {};
    TwoActionUpdate(Some(s), add, revoke, t1);
    var s2 := ApplyAction(Some(s1), revoke).value;
    assert s2.members == s.members;
    var removed := ApplyUpdate(s, IdentityUpdate([add, revoke], t1)).value;
    assert ActionSignatures(readd) * removed.seenSignatures == {};
    SingleActionUpdate(Some(removed), readd, t2);
  }
}
