/**
 * The MLS client's local decisions: cursor-based de-duplication of envelopes
 * (`process_for_id`), the welcome sync that keeps only the welcomes that turned into groups,
 * `can_message`, the group lookup and the extraction of a welcome's V1 payload.
 */
module MlsClient {
  import opened Wrappers
  import StorageErrors
  import ClientErrors
  import Groups

  type Bytes = seq<bv8>
  type u64 = ClientErrors.u64
  type MessageProcessingError = ClientErrors.MessageProcessingError

  // ------------------------------------------------------------------ refresh cursors

  datatype EntityKind = WelcomeEntity | GroupEntity

  /** The primary key of the refresh-state table. */
  datatype CursorKey = CursorKey(entityId: Bytes, entityKind: EntityKind)

  /** The part of the local store this model reads and writes. */
  datatype Database = Database(cursors: map<CursorKey, int>, groups: Groups.GroupTable)

  /** The cursor stored for a key; a missing row reads as a fresh row with cursor 0. */
  function StoredCursor(db: Database, key: CursorKey): int
  {
    if key in db.cursors then db.cursors[key] else 0
  }

  /** `cursor as i64`: a u64 reinterpreted as a two's-complement 64-bit integer. */
  function AsI64(cursor: u64): (r: int)
    ensures -0x8000_0000_0000_0000 <= r < 0x8000_0000_0000_0000
    ensures r % 0x1_0000_0000_0000_0000 == cursor
  {
    if cursor < 0x8000_0000_0000_0000 then cursor else cursor - 0x1_0000_0000_0000_0000
  }

  /** `update_cursor`: the stored cursor moves to the new one only when it is strictly larger. */
  function UpdateCursor(db: Database, key: CursorKey, cursor: int): (r: (bool, Database))
    ensures r.0 <==> StoredCursor(db, key) < cursor
    ensures r.0 ==> r.1 == db.(cursors := db.cursors[key := cursor])
    ensures !r.0 ==> r.1 == db
  {
    if StoredCursor(db, key) < cursor then (true, db.(cursors := db.cursors[key := cursor])) else (false, db)
  }

  /**
   * `process_for_id`, as one transaction: advance the cursor, then run the processor on the
   * advanced store. An envelope whose cursor is not past the stored one is AlreadyProcessed;
   * any error rolls the whole transaction back.
   */
  function ProcessForIdSpec<R>(
    db: Database, key: CursorKey, cursor: u64,
    process: Database -> Result<(R, Database), MessageProcessingError>)
    : (Result<R, MessageProcessingError>, Database)
  {
    var (isUpdated, advanced) := UpdateCursor(db, key, AsI64(cursor));
    if !isUpdated then (Err(ClientErrors.AlreadyProcessed(cursor)), db)
    else match process(advanced)
      case Err(e) => (Err(e), db)
      case Ok((value, db')) => (Ok(value), db')
  }

  /** An envelope at or before the stored cursor is AlreadyProcessed and the processor is never run. */
  lemma AlreadyProcessedSkipsProcessor<R>(
    db: Database, key: CursorKey, cursor: u64,
    process: Database -> Result<(R, Database), MessageProcessingError>,
    other: Database -> Result<(R, Database), MessageProcessingError>)
    requires StoredCursor(db, key) >= AsI64(cursor)
    ensures ProcessForIdSpec(db, key, cursor, process) == (Err(ClientErrors.AlreadyProcessed(cursor)), db)
    ensures ProcessForIdSpec(db, key, cursor, process) == ProcessForIdSpec(db, key, cursor, other)
  {
  }

  /** A failing call leaves the store, cursor included, as it was. */
  lemma ProcessForIdRollsBack<R>(
    db: Database, key: CursorKey, cursor: u64,
    process: Database -> Result<(R, Database), MessageProcessingError>)
    ensures ProcessForIdSpec(db, key, cursor, process).0.Err? ==> ProcessForIdSpec(db, key, cursor, process).1 == db
  {
  }

  /**
   * A successful call ran the processor on the store with the advanced cursor and commits
   * what the processor produced.
   */
  lemma ProcessForIdCommits<R>(
    db: Database, key: CursorKey, cursor: u64,
    process: Database -> Result<(R, Database), MessageProcessingError>)
    ensures var (r, db') := ProcessForIdSpec(db, key, cursor, process);
      r.Ok? ==>
        && StoredCursor(db, key) < AsI64(cursor)
        && process(db.(cursors := db.cursors[key := AsI64(cursor)])) == Ok((r.value, db'))
  {
  }

  // ------------------------------------------------------------------ welcome messages

  datatype WelcomeMessageV1 = WelcomeMessageV1(
    id: u64, createdNs: u64, installationKey: Bytes, data: Bytes, hpkePublicKey: Bytes)

  datatype WelcomeMessageVersion = V1(v1: WelcomeMessageV1)

  /** A welcome envelope; an unset version oneof is None. */
  datatype WelcomeMessage = WelcomeMessage(version: Option<WelcomeMessageVersion>)

  const UNEXPECTED_WELCOME: string := "unexpected message type in welcome"

  /** `extract_welcome_message`: the V1 payload, or a Generic client error. */
  function ExtractWelcomeMessage(welcome: WelcomeMessage): (r: Result<WelcomeMessageV1, ClientErrors.ClientError>)
    ensures r.Ok? <==> welcome.version.Some?
    ensures r.Ok? ==> welcome.version == Some(V1(r.value))
    ensures r.Err? ==> r.error == ClientErrors.ClientError.Generic(UNEXPECTED_WELCOME)
  {
    match welcome.version
    case Some(V1(w)) => Ok(w)
    case None => Err(ClientErrors.ClientError.Generic(UNEXPECTED_WELCOME))
  }

  /**
   * What decrypting a welcome and joining its MLS group yields: the group id, the
   * conversation type of its protected metadata and the adder's address, or the text of the
   * group error that stopped it.
   */
  datatype JoinedWelcome = JoinedWelcome(groupId: Bytes, conversationType: Groups.ConversationType, addedByAddress: string)

  /**
   * Decrypting and joining reads the local store the transaction sees (the provider's key
   * store), so the outcome may differ from one store to the next.
   */
  type Join = (Database, WelcomeMessageV1) -> Result<JoinedWelcome, string>

  /** The processor `sync_welcomes` hands to `process_for_id` for one welcome. */
  function WelcomeProcessor(w: WelcomeMessageV1, join: Join, nowNs: int)
    : Database -> Result<(Option<Groups.MlsGroup>, Database), MessageProcessingError>
  {
    (db: Database) =>
      match join(db, w)
      case Err(message) => Err(ClientErrors.WelcomeProcessing(message))
      case Ok(joined) =>
        var (group, table) := Groups.CreateFromWelcome(db.groups, joined.groupId, joined.conversationType, joined.addedByAddress, nowNs);
        Ok((Some(group), db.(groups := table)))
  }

  /** The refresh-cursor key of this installation's welcomes. */
  function WelcomeKey(installationId: Bytes): CursorKey
  {
    CursorKey(installationId, WelcomeEntity)
  }

  /** The store inside the transaction of a welcome: its cursor already moved to the welcome's id. */
  function Advanced(db: Database, installationId: Bytes, w: WelcomeMessageV1): Database
  {
    db.(cursors := db.cursors[WelcomeKey(installationId) := AsI64(w.id)])
  }

  /** An envelope that cannot be processed again from this store on: it has no payload, or its id is at or before the cursor. */
  predicate Processed(db: Database, installationId: Bytes, envelope: WelcomeMessage)
  {
    match ExtractWelcomeMessage(envelope)
    case Err(_) => true
    case Ok(w) => StoredCursor(db, WelcomeKey(installationId)) >= AsI64(w.id)
  }

  /**
   * One envelope of `sync_welcomes`: extraction or processing failures give None (`.ok().flatten()`).
   * It yields a group exactly when the envelope is not yet processed and the join succeeds
   * on the advanced store; the group is the one joined, and the envelope is processed
   * afterwards. Otherwise the store is left as it was.
   */
  function SyncWelcomeStep(db: Database, installationId: Bytes, envelope: WelcomeMessage, join: Join, nowNs: int)
    : (r: (Option<Groups.MlsGroup>, Database))
    ensures r.0.Some? <==>
      && !Processed(db, installationId, envelope)
      && var w := ExtractWelcomeMessage(envelope).value;
         join(Advanced(db, installationId, w), w).Ok?
    ensures r.0.Some? ==>
      var w := ExtractWelcomeMessage(envelope).value;
      && r.0.value.groupId == join(Advanced(db, installationId, w), w).value.groupId
      && Processed(r.1, installationId, envelope)
    ensures r.0.None? ==> r.1 == db
  {
    match ExtractWelcomeMessage(envelope)
    case Err(_) => (None, db)
    case Ok(w) =>
      var (r, db') := ProcessForIdSpec(db, WelcomeKey(installationId), w.id, WelcomeProcessor(w, join, nowNs));
      if r.Ok? then (r.value, db') else (None, db')
  }

  /** The groups `sync_welcomes` returns, and the store it leaves, for envelopes taken in order. */
  function SyncWelcomesSpec(db: Database, installationId: Bytes, envelopes: seq<WelcomeMessage>, join: Join, nowNs: int)
    : (seq<Groups.MlsGroup>, Database)
  {
    if envelopes == [] then ([], db)
    else
      var (groups, db1) := SyncWelcomesSpec(db, installationId, envelopes[..|envelopes| - 1], join, nowNs);
      var (r, db2) := SyncWelcomeStep(db1, installationId, envelopes[|envelopes| - 1], join, nowNs);
      (groups + (if r.Some? then [r.value] else []), db2)
  }

  // ------------------------------------------------------------------ can_message

  /** The map `can_message` collects: each address maps to whether it has an inbox id. */
  function CanMessageResults(addresses: seq<string>, inboxIds: map<string, string>): (r: map<string, bool>)
    ensures r.Keys == set a | a in addresses
    ensures forall a :: a in r ==> (r[a] <==> a in inboxIds)
  {
    if addresses == [] then map[]
    else
      var last := addresses[|addresses| - 1];
      CanMessageResults(addresses[..|addresses| - 1], inboxIds)[last := last in inboxIds]
  }

  /**
   * `can_message`: sanitise the addresses, look their inbox ids up, and report for every
   * sanitised address whether one was found. Failures of either step are returned.
   */
  function CanMessage(
    accountAddresses: seq<string>,
    sanitize: seq<string> -> Result<seq<string>, ClientErrors.ClientError>,
    getInboxIds: seq<string> -> Result<map<string, string>, ClientErrors.ClientError>)
    : (r: Result<map<string, bool>, ClientErrors.ClientError>)
    ensures sanitize(accountAddresses).Err? ==> r == Err(sanitize(accountAddresses).error)
    ensures sanitize(accountAddresses).Ok? && getInboxIds(sanitize(accountAddresses).value).Err? ==>
      r == Err(getInboxIds(sanitize(accountAddresses).value).error)
    ensures sanitize(accountAddresses).Ok? && getInboxIds(sanitize(accountAddresses).value).Ok? ==> r.Ok?
    ensures r.Ok? ==>
      var addresses := sanitize(accountAddresses).value;
      && r.value.Keys == (set a | a in addresses)
      && forall a :: a in r.value ==> (r.value[a] <==> a in getInboxIds(addresses).value)
  {
    match sanitize(accountAddresses)
    case Err(e) => Err(e)
    case Ok(addresses) =>
      match getInboxIds(addresses)
      case Err(e) => Err(e)
      case Ok(inboxIdMap) => Ok(CanMessageResults(addresses, inboxIdMap))
  }

  // ------------------------------------------------------------------ the client

  /** The client's installation and its local store. */
  class Client {
    const installationId: Bytes
    var db: Database

    constructor (installationId: Bytes, db: Database)
      ensures this.installationId == installationId && this.db == db
    {
      this.installationId := installationId;
      this.db := db;
    }

    /** `group`: the handle of a stored group, or Storage(NotFound). */
    function Group(groupId: Bytes): (r: Result<Groups.MlsGroup, ClientErrors.ClientError>)
      reads this
      ensures r.Err? <==> groupId !in db.groups
      ensures r.Err? ==> r.error == ClientErrors.ClientError.Storage(StorageErrors.NotFound)
      ensures r.Ok? ==> r.value == Groups.MlsGroup(groupId, db.groups[groupId].createdAtNs)
    {
      if groupId in db.groups then
        var group := db.groups[groupId];
        Ok(Groups.MlsGroup(group.id, group.createdAtNs))
      else
        Err(ClientErrors.ClientError.Storage(StorageErrors.NotFound))
    }

    /** `process_for_id` on this client's store. */
    method ProcessForId<R>(entityId: Bytes, entityKind: EntityKind, cursor: u64,
                           process: Database -> Result<(R, Database), MessageProcessingError>)
      returns (r: Result<R, MessageProcessingError>)
      modifies this
      ensures (r, db) == ProcessForIdSpec(old(db), CursorKey(entityId, entityKind), cursor, process)
    {
      var key := CursorKey(entityId, entityKind);
      var isUpdated := StoredCursor(db, key) < AsI64(cursor);
      if !isUpdated {
        return Err(ClientErrors.AlreadyProcessed(cursor));
      }
      var advanced := db.(cursors := db.cursors[key := AsI64(cursor)]);
      var outcome := process(advanced);
      if outcome.Err? {
        return Err(outcome.error);
      }
      db := outcome.value.1;
      r := Ok(outcome.value.0);
    }

    /**
     * `sync_welcomes` over the envelopes fetched from the network: every envelope is tried in
     * order and the groups that were created are collected.
     */
    method SyncWelcomes(envelopes: seq<WelcomeMessage>, join: Join, nowNs: int) returns (groups: seq<Groups.MlsGroup>)
      modifies this
      ensures (groups, db) == SyncWelcomesSpec(old(db), installationId, envelopes, join, nowNs)
    {
      groups := [];
      for i := 0 to |envelopes|
        invariant (groups, db) == SyncWelcomesSpec(old(db), installationId, envelopes[..i], join, nowNs)
      {
        assert envelopes[..i + 1][..i] == envelopes[..i];
        ghost var step := SyncWelcomeStep(db, installationId, envelopes[i], join, nowNs);
        ghost var groupsBefore := groups;
        var welcome := ExtractWelcomeMessage(envelopes[i]);
        if welcome.Ok? {
          var w := welcome.value;
          var r := ProcessForId(installationId, WelcomeEntity, w.id, WelcomeProcessor(w, join, nowNs));
          if r.Ok? && r.value.Some? {
            groups := groups + [r.value.value];
          }
        }
        assert db == step.1;
        assert groups == groupsBefore + (if step.0.Some? then [step.0.value] else []);
      }
      assert envelopes[..|envelopes|] == envelopes;
    }
  }

  // ------------------------------------------------------------------ properties of the welcome sync

  /** Every cursor of `after` is at least the one of `before`. */
  ghost predicate CursorsGrow(before: Database, after: Database)
  {
    forall key :: StoredCursor(after, key) >= StoredCursor(before, key)
  }

  /** One envelope never lowers a cursor. */
  lemma SyncWelcomeStepGrows(db: Database, installationId: Bytes, envelope: WelcomeMessage, join: Join, nowNs: int)
    ensures CursorsGrow(db, SyncWelcomeStep(db, installationId, envelope, join, nowNs).1)
  {
  }

  lemma ProcessedStaysProcessed(db: Database, db': Database, installationId: Bytes, envelope: WelcomeMessage)
    requires Processed(db, installationId, envelope) && CursorsGrow(db, db')
    ensures Processed(db', installationId, envelope)
  {
    var key := WelcomeKey(installationId);
    assert StoredCursor(db', key) >= StoredCursor(db, key);
  }

  /** A processed envelope yields nothing and changes nothing, whatever the join would do. */
  lemma ProcessedStepIsNoop(db: Database, installationId: Bytes, envelope: WelcomeMessage, join: Join, nowNs: int)
    requires Processed(db, installationId, envelope)
    ensures SyncWelcomeStep(db, installationId, envelope, join, nowNs) == (None, db)
  {
  }

  /** What each envelope of a sync yields: its step on the store the envelopes before it left. */
  function Outcomes(db: Database, installationId: Bytes, envelopes: seq<WelcomeMessage>, join: Join, nowNs: int)
    : (r: seq<Option<Groups.MlsGroup>>)
    ensures |r| == |envelopes|
  {
    seq(|envelopes|, i requires 0 <= i < |envelopes| =>
      SyncWelcomeStep(SyncWelcomesSpec(db, installationId, envelopes[..i], join, nowNs).1, installationId, envelopes[i], join, nowNs).0)
  }

  /** The values present in a sequence of options, in order. */
  function Somes<T>(xs: seq<Option<T>>): (r: seq<T>)
    ensures |r| <= |xs|
  {
    if xs == [] then []
    else Somes(xs[..|xs| - 1]) + (if xs[|xs| - 1].Some? then [xs[|xs| - 1].value] else [])
  }

  lemma {:induction false} SomesMembership<T>(xs: seq<Option<T>>, x: T)
    ensures x in Somes(xs) <==> Some(x) in xs
  {
    if xs != [] {
      var init := xs[..|xs| - 1];
      SomesMembership(init, x);
      assert xs == init + [xs[|xs| - 1]];
    }
  }

  /** The outcomes of a longer batch extend those of its prefix by the step of the last envelope. */
  lemma OutcomesSnoc(db: Database, installationId: Bytes, envelopes: seq<WelcomeMessage>, join: Join, nowNs: int)
    requires envelopes != []
    ensures var n := |envelopes| - 1;
      && Outcomes(db, installationId, envelopes, join, nowNs)[..n] == Outcomes(db, installationId, envelopes[..n], join, nowNs)
      && Outcomes(db, installationId, envelopes, join, nowNs)[n]
           == SyncWelcomeStep(SyncWelcomesSpec(db, installationId, envelopes[..n], join, nowNs).1, installationId, envelopes[n], join, nowNs).0
  {
    var n := |envelopes| - 1;
    var init := envelopes[..n];
    forall i | 0 <= i < n
      ensures Outcomes(db, installationId, envelopes, join, nowNs)[i] == Outcomes(db, installationId, init, join, nowNs)[i]
    {
      assert envelopes[..i] == init[..i];
    }
  }

  /**
   * The groups a sync returns are the groups its envelopes yielded, in envelope order: an
   * envelope yields one exactly when it was not yet processed on reaching it and its join
   * succeeded there (SyncWelcomeStep).
   */
  lemma {:induction false} SyncWelcomesInOrder(db: Database, installationId: Bytes, envelopes: seq<WelcomeMessage>, join: Join, nowNs: int)
    ensures SyncWelcomesSpec(db, installationId, envelopes, join, nowNs).0 == Somes(Outcomes(db, installationId, envelopes, join, nowNs))
  {
    if envelopes != [] {
      var n := |envelopes| - 1;
      SyncWelcomesInOrder(db, installationId, envelopes[..n], join, nowNs);
      OutcomesSnoc(db, installationId, envelopes, join, nowNs);
    }
  }

  /** A sync only raises cursors, and every envelope that yielded a group is processed afterwards. */
  lemma {:induction false} SyncWelcomesGrows(db: Database, installationId: Bytes, envelopes: seq<WelcomeMessage>, join: Join, nowNs: int)
    ensures var db' := SyncWelcomesSpec(db, installationId, envelopes, join, nowNs).1;
      && CursorsGrow(db, db')
      && forall i :: 0 <= i < |envelopes| && Outcomes(db, installationId, envelopes, join, nowNs)[i].Some? ==>
           Processed(db', installationId, envelopes[i])
  {
    if envelopes != [] {
      var n := |envelopes| - 1;
      var init := envelopes[..n];
      SyncWelcomesGrows(db, installationId, init, join, nowNs);
      OutcomesSnoc(db, installationId, envelopes, join, nowNs);
      var db1 := SyncWelcomesSpec(db, installationId, init, join, nowNs).1;
      var db2 := SyncWelcomeStep(db1, installationId, envelopes[n], join, nowNs).1;
      SyncWelcomeStepGrows(db1, installationId, envelopes[n], join, nowNs);
      var outs := Outcomes(db, installationId, envelopes, join, nowNs);
      forall i | 0 <= i < |envelopes| && outs[i].Some?
        ensures Processed(db2, installationId, envelopes[i])
      {
        if i < n {
          assert outs[i] == outs[..n][i];
          assert envelopes[i] == init[i];
          ProcessedStaysProcessed(db1, db2, installationId, envelopes[i]);
        }
      }
    }
  }

  /** An envelope processed before the sync starts yields nothing in it. */
  lemma OutcomeOfProcessed(db: Database, installationId: Bytes, envelopes: seq<WelcomeMessage>, join: Join, nowNs: int, i: int)
    requires 0 <= i < |envelopes| && Processed(db, installationId, envelopes[i])
    ensures Outcomes(db, installationId, envelopes, join, nowNs)[i] == None
  {
    SyncWelcomesGrows(db, installationId, envelopes[..i], join, nowNs);
    var dbi := SyncWelcomesSpec(db, installationId, envelopes[..i], join, nowNs).1;
    ProcessedStaysProcessed(db, dbi, installationId, envelopes[i]);
    ProcessedStepIsNoop(dbi, installationId, envelopes[i], join, nowNs);
  }

  /** A sync over processed envelopes creates no group and leaves the store as it was. */
  lemma {:induction false} SyncWelcomesOverProcessed(db: Database, installationId: Bytes, envelopes: seq<WelcomeMessage>, join: Join, nowNs: int)
    requires forall i :: 0 <= i < |envelopes| ==> Processed(db, installationId, envelopes[i])
    ensures SyncWelcomesSpec(db, installationId, envelopes, join, nowNs) == ([], db)
  {
    if envelopes != [] {
      var init := envelopes[..|envelopes| - 1];
      assert forall i :: 0 <= i < |init| ==> init[i] == envelopes[i];
      SyncWelcomesOverProcessed(db, installationId, init, join, nowNs);
      ProcessedStepIsNoop(db, installationId, envelopes[|envelopes| - 1], join, nowNs);
      var empty: seq<Groups.MlsGroup> := [];
      assert SyncWelcomesSpec(db, installationId, envelopes, join, nowNs) == (empty + empty, db);
      assert empty + empty == empty;
    }
  }

  /**
   * Re-running `sync_welcomes` over the same envelopes, whatever the join does the second
   * time: no envelope that yielded a group the first time yields one again, and when the
   * first run left every envelope processed the second yields nothing and changes nothing.
   * A welcome whose join failed was rolled back and may yield its group on the re-run.
   */
  lemma SyncWelcomesRerunSkipsProcessed(db: Database, installationId: Bytes, envelopes: seq<WelcomeMessage>,
                                        join: Join, join2: Join, nowNs: int, laterNs: int)
    ensures var db' := SyncWelcomesSpec(db, installationId, envelopes, join, nowNs).1;
      forall i :: 0 <= i < |envelopes| && Outcomes(db, installationId, envelopes, join, nowNs)[i].Some? ==>
        Outcomes(db', installationId, envelopes, join2, laterNs)[i].None?
    ensures var db' := SyncWelcomesSpec(db, installationId, envelopes, join, nowNs).1;
      (forall i :: 0 <= i < |envelopes| ==> Processed(db', installationId, envelopes[i])) ==>
        SyncWelcomesSpec(db', installationId, envelopes, join2, laterNs) == ([], db')
  {
    SyncWelcomesGrows(db, installationId, envelopes, join, nowNs);
    var db' := SyncWelcomesSpec(db, installationId, envelopes, join, nowNs).1;
    forall i | 0 <= i < |envelopes| && Outcomes(db, installationId, envelopes, join, nowNs)[i].Some?
      ensures Outcomes(db', installationId, envelopes, join2, laterNs)[i].None?
    {
      OutcomeOfProcessed(db', installationId, envelopes, join2, laterNs, i);
    }
    if forall i :: 0 <= i < |envelopes| ==> Processed(db', installationId, envelopes[i]) {
      SyncWelcomesOverProcessed(db', installationId, envelopes, join2, laterNs);
    }
  }

  /**
   * A single new welcome whose join succeeds gives back exactly its group, and syncing the
   * same envelope again gives none.
   */
  lemma SyncOneWelcomeTwice(db: Database, installationId: Bytes, envelope: WelcomeMessage,
                            join: Join, join2: Join, nowNs: int, laterNs: int)
    requires !Processed(db, installationId, envelope)
    requires var w := ExtractWelcomeMessage(envelope).value; join(Advanced(db, installationId, w), w).Ok?
    ensures var (groups, db') := SyncWelcomesSpec(db, installationId, [envelope], join, nowNs);
      var w := ExtractWelcomeMessage(envelope).value;
      && |groups| == 1
      && groups[0].groupId == join(Advanced(db, installationId, w), w).value.groupId
      && SyncWelcomesSpec(db', installationId, [envelope], join2, laterNs) == ([], db')
  {
    assert [envelope][..0] == [];
    SyncWelcomesRerunSkipsProcessed(db, installationId, [envelope], join, join2, nowNs, laterNs);
  }

  /** A group the client can look up is one the store holds, under its own id. */
  lemma GroupLookupAfterWelcome(c: Client, groupId: Bytes)
    requires groupId in c.db.groups
    ensures c.Group(groupId).Ok? && c.Group(groupId).value.groupId == groupId
  {
  }
}
