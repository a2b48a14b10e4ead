/** The vault tables and their write handlers, refined against one append-only log per vault. */
module VaultServer {
  import opened Results
  import opened Payloads
  import opened Chain

  datatype VaultRow = VaultRow(accountId: string, headSeq: int, headHash: string, genesisHeadHash: string)

  datatype ItemRow = ItemRow(vaultId: string, latestRevisionId: Option<string>, latestRevisionSeq: int, deleted: bool)

  datatype RevisionRow = RevisionRow(vaultId: string, change: Change)

  /** The tables; each map is keyed by the table's primary key. */
  datatype Db = Db(
    vaults: map<string, VaultRow>,
    items: map<string, ItemRow>,
    revisions: map<string, RevisionRow>)

  datatype CreateItemRequest = CreateItemRequest(
    itemId: string, revisionId: string, baseHeadSeq: int, baseHeadHash: string, newHeadHash: string,
    changeMac: string, envelopeHash: string, envelope: Envelope)

  datatype CreateRevisionRequest = CreateRevisionRequest(
    revisionId: string, operation: string, baseRevisionSeq: int, baseHeadSeq: int, baseHeadHash: string,
    newHeadHash: string, changeMac: string, envelopeHash: string, envelope: Envelope)

  datatype WriteResponse =
    | Written(itemId: string, revisionId: string, revisionSeq: int, headSeq: int, headHash: string)
    | Conflict(current: Head)
    | NotFound
    | BadRequest
    | Unavailable

  datatype WriteError = UniqueViolation | OtherDatabaseError

  // ----- statements -----

  function VaultOf(db: Db, accountId: string, vaultId: string): Option<VaultRow> {
    if vaultId in db.vaults && db.vaults[vaultId].accountId == accountId then Some(db.vaults[vaultId]) else None
  }

  function HeadOfRow(row: VaultRow): Head {
    Head(row.headSeq, row.headHash)
  }

  function InsertItemRow(db: Db, itemId: string, vaultId: string): Result<Db, WriteError> {
    if itemId in db.items then Err(UniqueViolation)
    else Ok(db.(items := db.items[itemId := ItemRow(vaultId, None, 0, false)]))
  }

  /** The table's CHECK constraints. */
  predicate RevisionChecks(ch: Change) {
    && ch.headSeq > 0 && ch.revisionSeq > 0 && ch.baseRevisionSeq >= 0 && ch.baseHeadSeq >= 0
    && ch.headSeq == ch.baseHeadSeq + 1
    && ch.baseHeadHash == ch.previousHeadHash
    && ((ch.operation == "create" && ch.revisionSeq == 1 && ch.baseRevisionSeq == 0)
        || (ch.operation in {"update", "delete"} && ch.revisionSeq > ch.baseRevisionSeq > 0))
  }

  /** The primary key and the two unique constraints. */
  predicate RevisionIsUnique(db: Db, row: RevisionRow) {
    && row.change.revisionId !in db.revisions
    && (forall id :: id in db.revisions && db.revisions[id].vaultId == row.vaultId ==>
                       db.revisions[id].change.headSeq != row.change.headSeq)
    && (forall id :: id in db.revisions && db.revisions[id].vaultId == row.vaultId
                     && db.revisions[id].change.itemId == row.change.itemId ==>
                       db.revisions[id].change.revisionSeq != row.change.revisionSeq)
  }

  function InsertRevisionRow(db: Db, row: RevisionRow): Result<Db, WriteError> {
    if !RevisionChecks(row.change)
       || row.change.itemId !in db.items || db.items[row.change.itemId].vaultId != row.vaultId
    then Err(OtherDatabaseError)
    else if !RevisionIsUnique(db, row) then Err(UniqueViolation)
    else Ok(db.(revisions := db.revisions[row.change.revisionId := row]))
  }

  function UpdateItemLatest(db: Db, vaultId: string, itemId: string, revisionId: string, revisionSeq: int,
                            deleted: bool): Db {
    if itemId in db.items && db.items[itemId].vaultId == vaultId then
      db.(items := db.items[itemId := ItemRow(vaultId, Some(revisionId), revisionSeq,
                                              deleted || db.items[itemId].deleted)])
    else db
  }

  function UpdateVaultHead(db: Db, accountId: string, vaultId: string, head: Head): Db {
    if VaultOf(db, accountId, vaultId).Some? then
      db.(vaults := db.vaults[vaultId := db.vaults[vaultId].(headSeq := head.seqNo, headHash := head.hash)])
    else db
  }

  predicate HeadMatches(row: VaultRow, baseHeadSeq: int, baseHeadHash: string) {
    row.headSeq == baseHeadSeq && row.headHash == baseHeadHash
  }

  // ----- the two write handlers, each one transaction -----

  datatype Outcome = Outcome(db: Db, response: WriteResponse)

  function CreatedChange(req: CreateItemRequest, headSeq: int): Change {
    Change(req.itemId, req.revisionId, "create", 1, headSeq, req.baseHeadHash, req.newHeadHash, 0,
           req.baseHeadSeq, req.baseHeadHash, req.changeMac, req.envelopeHash, req.envelope)
  }

  function RevisedChange(itemId: string, req: CreateRevisionRequest, revisionSeq: int, headSeq: int): Change {
    Change(itemId, req.revisionId, req.operation, revisionSeq, headSeq, req.baseHeadHash, req.newHeadHash,
           req.baseRevisionSeq, req.baseHeadSeq, req.baseHeadHash, req.changeMac, req.envelopeHash, req.envelope)
  }

  /** The tail that both handlers share: insert the revision, then move the item and the vault head. */
  function WriteRevision(before: Db, db: Db, accountId: string, vaultId: string, ch: Change): Outcome
    requires vaultId in before.vaults
  {
    match InsertRevisionRow(db, RevisionRow(vaultId, ch))
    case Err(UniqueViolation) => Outcome(before, Conflict(HeadOfRow(before.vaults[vaultId])))
    case Err(OtherDatabaseError) => Outcome(before, Unavailable)
    case Ok(db1) =>
      var db2 := UpdateItemLatest(db1, vaultId, ch.itemId, ch.revisionId, ch.revisionSeq, ch.operation == "delete");
      var db3 := UpdateVaultHead(db2, accountId, vaultId, HeadAfter(ch));
      Outcome(db3, Written(ch.itemId, ch.revisionId, ch.revisionSeq, ch.headSeq, ch.headHash))
  }

  function CreateItem(db: Db, accountId: string, vaultId: string, req: CreateItemRequest): Outcome {
    if req.baseHeadSeq < 0 || !Supported(req.envelope) then Outcome(db, BadRequest)
    else
      match VaultOf(db, accountId, vaultId)
      case None => Outcome(db, NotFound)
      case Some(vault) =>
        if !HeadMatches(vault, req.baseHeadSeq, req.baseHeadHash) then Outcome(db, Conflict(HeadOfRow(vault)))
        else
          match InsertItemRow(db, req.itemId, vaultId)
          case Err(_) => Outcome(db, Conflict(HeadOfRow(vault)))
          case Ok(db1) => WriteRevision(db, db1, accountId, vaultId, CreatedChange(req, vault.headSeq + 1))
  }

  function CreateRevision(db: Db, accountId: string, vaultId: string, itemId: string,
                          req: CreateRevisionRequest): Outcome
  {
    if req.operation !in {"update", "delete"} || req.baseRevisionSeq <= 0 || req.baseHeadSeq < 0
       || !Supported(req.envelope)
    then Outcome(db, BadRequest)
    else
      match VaultOf(db, accountId, vaultId)
      case None => Outcome(db, NotFound)
      case Some(vault) =>
        if itemId !in db.items || db.items[itemId].vaultId != vaultId then Outcome(db, NotFound)
        else
          var item := db.items[itemId];
          if !HeadMatches(vault, req.baseHeadSeq, req.baseHeadHash)
             || req.baseRevisionSeq != item.latestRevisionSeq || item.deleted
          then Outcome(db, Conflict(HeadOfRow(vault)))
          else WriteRevision(db, db, accountId, vaultId,
                             RevisedChange(itemId, req, item.latestRevisionSeq + 1, vault.headSeq + 1))
  }

  datatype Write =
    | NewVault(accountId: string, vaultId: string, genesis: string)   // the vault part of registration
    | WriteItem(accountId: string, vaultId: string, create: CreateItemRequest)
    | WriteUpdate(accountId: string, vaultId: string, itemId: string, revise: CreateRevisionRequest)

  function Step(db: Db, w: Write): Outcome {
    match w
    case NewVault(accountId, vaultId, genesis) =>
      if vaultId in db.vaults then Outcome(db, Unavailable)
      else Outcome(db.(vaults := db.vaults[vaultId := VaultRow(accountId, 0, genesis, genesis)]),
                   Written("", "", 0, 0, genesis))
    case WriteItem(accountId, vaultId, req) => CreateItem(db, accountId, vaultId, req)
    case WriteUpdate(accountId, vaultId, itemId, req) => CreateRevision(db, accountId, vaultId, itemId, req)
  }

  function Run(db: Db, writes: seq<Write>): Db
    decreases writes
  {
    if writes == [] then db else Run(Step(db, writes[0]).db, writes[1..])
  }

  // ----- the abstract server: one append-only ledger per vault -----

  datatype Ledger = Ledger(accountId: string, genesis: string, log: seq<Change>)

  type Ledgers = map<string, Ledger>

  /** The last entry about an item. */
  function LastOf(log: seq<Change>, itemId: string): Option<Change> {
    if log == [] then None
    else if log[|log| - 1].itemId == itemId then Some(log[|log| - 1])
    else LastOf(log[..|log| - 1], itemId)
  }

  /** What entry number |log|+1 must look like. */
  predicate WellPlaced(genesis: string, log: seq<Change>, ch: Change) {
    && Extends(HeadOf(genesis, log), ch)
    && ch.headSeq == |log| + 1
    && match LastOf(log, ch.itemId)
       case None => ch.operation == "create" && ch.revisionSeq == 1 && ch.baseRevisionSeq == 0
       case Some(last) =>
         && ch.operation in {"update", "delete"} && last.operation != "delete"
         && ch.baseRevisionSeq == last.revisionSeq && ch.revisionSeq == last.revisionSeq + 1
  }

  predicate WellFormedLog(genesis: string, log: seq<Change>) {
    forall i :: 0 <= i < |log| ==> WellPlaced(genesis, log[..i], log[i])
  }

  ghost predicate ItemUsed(ls: Ledgers, itemId: string) {
    exists v, i :: v in ls && 0 <= i < |ls[v].log| && ls[v].log[i].itemId == itemId
  }

  ghost predicate RevisionUsed(ls: Ledgers, revisionId: string) {
    exists v, i :: v in ls && 0 <= i < |ls[v].log| && ls[v].log[i].revisionId == revisionId
  }

  /** The entry a write appends when it is accepted. */
  function Entry(ls: Ledgers, w: Write): Change
    requires !w.NewVault? && w.vaultId in ls
  {
    var log := ls[w.vaultId].log;
    match w
    case WriteItem(_, _, req) => CreatedChange(req, |log| + 1)
    case WriteUpdate(_, _, itemId, req) =>
      RevisedChange(itemId, req, req.baseRevisionSeq + 1, |log| + 1)
  }

  /** Exactly when a write commits: the caller owns the vault, wrote on its current head, the entry is
      well placed, and its identifiers were never used in any vault. */
  ghost predicate Accepts(ls: Ledgers, w: Write) {
    match w
    case NewVault(_, vaultId, _) => vaultId !in ls
    case _ =>
      && w.vaultId in ls && ls[w.vaultId].accountId == w.accountId
      && var e := Entry(ls, w);
      && WellPlaced(ls[w.vaultId].genesis, ls[w.vaultId].log, e)
      && Supported(e.envelope)
      && !RevisionUsed(ls, e.revisionId)
      && (w.WriteItem? ==> !ItemUsed(ls, e.itemId))
      && (w.WriteUpdate? ==> LastOf(ls[w.vaultId].log, e.itemId).Some?)
  }

  ghost function StepLedgers(ls: Ledgers, w: Write): Ledgers {
    if !Accepts(ls, w) then ls
    else if w.NewVault? then ls[w.vaultId := Ledger(w.accountId, w.genesis, [])]
    else ls[w.vaultId := ls[w.vaultId].(log := ls[w.vaultId].log + [Entry(ls, w)])]
  }

  ghost function RunLedgers(ls: Ledgers, writes: seq<Write>): Ledgers
    decreases writes
  {
    if writes == [] then ls else RunLedgers(StepLedgers(ls, writes[0]), writes[1..])
  }

  // ----- the tables represent the ledgers -----

  ghost predicate VaultAgrees(row: VaultRow, ledger: Ledger) {
    && HeadOfRow(row) == HeadOf(ledger.genesis, ledger.log)
    && row.accountId == ledger.accountId
    && row.genesisHeadHash == ledger.genesis
    && WellFormedLog(ledger.genesis, ledger.log)
  }

  ghost predicate VaultsAgree(db: Db, ls: Ledgers) {
    db.vaults.Keys == ls.Keys && forall v :: v in ls ==> VaultAgrees(db.vaults[v], ls[v])
  }

  predicate EntryStored(db: Db, v: string, ch: Change) {
    ch.revisionId in db.revisions && db.revisions[ch.revisionId] == RevisionRow(v, ch)
  }

  predicate RowLogged(ls: Ledgers, id: string, row: RevisionRow) {
    && row.change.revisionId == id
    && row.vaultId in ls
    && 1 <= row.change.headSeq <= |ls[row.vaultId].log|
    && ls[row.vaultId].log[row.change.headSeq - 1] == row.change
  }

  ghost predicate RevisionsAgree(db: Db, ls: Ledgers) {
    && (forall v, i :: v in ls && 0 <= i < |ls[v].log| ==> EntryStored(db, v, ls[v].log[i]))
    && (forall id :: id in db.revisions ==> RowLogged(ls, id, db.revisions[id]))
  }

  predicate ItemIndexed(ls: Ledgers, itemId: string, row: ItemRow) {
    && row.vaultId in ls
    && var last := LastOf(ls[row.vaultId].log, itemId);
    && last.Some?
    && row == ItemRow(row.vaultId, Some(last.value.revisionId), last.value.revisionSeq,
                      last.value.operation == "delete")
  }

  predicate EntryIndexed(db: Db, v: string, ch: Change) {
    ch.itemId in db.items && db.items[ch.itemId].vaultId == v
  }

  ghost predicate ItemsAgree(db: Db, ls: Ledgers) {
    && (forall itemId :: itemId in db.items ==> ItemIndexed(ls, itemId, db.items[itemId]))
    && (forall v, i :: v in ls && 0 <= i < |ls[v].log| ==> EntryIndexed(db, v, ls[v].log[i]))
  }

  ghost predicate Represents(db: Db, ls: Ledgers) {
    VaultsAgree(db, ls) && RevisionsAgree(db, ls) && ItemsAgree(db, ls)
  }

  // ----- facts about logs -----

  lemma {:induction false} LastOfIsIn(log: seq<Change>, itemId: string)
    ensures LastOf(log, itemId).Some? <==> exists i :: 0 <= i < |log| && log[i].itemId == itemId
    ensures LastOf(log, itemId).Some? ==> LastOf(log, itemId).value in log && LastOf(log, itemId).value.itemId == itemId
  {
    if log != [] {
      LastOfIsIn(log[..|log| - 1], itemId);
    }
  }

  lemma LastOfSnoc(log: seq<Change>, ch: Change, itemId: string)
    ensures LastOf(log + [ch], itemId) == if ch.itemId == itemId then Some(ch) else LastOf(log, itemId)
  {
    assert (log + [ch])[..|log|] == log;
  }

  lemma WellFormedLogSnoc(genesis: string, log: seq<Change>, ch: Change)
    requires WellFormedLog(genesis, log) && WellPlaced(genesis, log, ch)
    ensures WellFormedLog(genesis, log + [ch])
    ensures HeadOf(genesis, log + [ch]) == HeadAfter(ch)
  {
    var log' := log + [ch];
    forall i | 0 <= i < |log'| ensures WellPlaced(genesis, log'[..i], log'[i]) {
      assert log'[..i] == log[..i];
      if i == |log| {
        assert log[..i] == log;
      }
    }
  }

  lemma HeadOfWellFormed(genesis: string, log: seq<Change>)
    requires WellFormedLog(genesis, log)
    ensures HeadOf(genesis, log).seqNo == |log|
  {
    if log != [] {
      assert WellPlaced(genesis, log[..|log| - 1], log[|log| - 1]);
    }
  }

  /** An item's revision numbers grow along the log, so its last revision number bounds them all. */
  lemma {:induction false} RevisionsBelowLast(genesis: string, log: seq<Change>, itemId: string, i: nat)
    requires WellFormedLog(genesis, log) && i < |log| && log[i].itemId == itemId
    ensures LastOf(log, itemId).Some? && 1 <= log[i].revisionSeq <= LastOf(log, itemId).value.revisionSeq
    ensures log[i].revisionSeq == LastOf(log, itemId).value.revisionSeq ==> log[i] == LastOf(log, itemId).value
    decreases |log|
  {
    var n := |log| - 1;
    assert WellPlaced(genesis, log[..n], log[n]);
    assert WellFormedLog(genesis, log[..n]) by {
      forall k | 0 <= k < n ensures WellPlaced(genesis, log[..n][..k], log[..n][k]) {
        assert log[..n][..k] == log[..k];
      }
    }
    if i < n {
      assert log[..n][i] == log[i];
      RevisionsBelowLast(genesis, log[..n], itemId, i);
    } else {
      LastOfIsIn(log[..n], itemId);
      if LastOf(log[..n], itemId).Some? {
        var k :| 0 <= k < n && log[..n][k] == LastOf(log[..n], itemId).value;
        RevisionsBelowLast(genesis, log[..n], itemId, k);
      }
    }
  }

  // ----- refinement -----

  lemma IdsAgree(db: Db, ls: Ledgers, id: string)
    requires Represents(db, ls)
    ensures id in db.revisions <==> RevisionUsed(ls, id)
    ensures id in db.items <==> ItemUsed(ls, id)
  {
    if id in db.revisions {
      var row := db.revisions[id];
      assert ls[row.vaultId].log[row.change.headSeq - 1].revisionId == id;
    }
    if id in db.items {
      LastOfIsIn(ls[db.items[id].vaultId].log, id);
    }
  }

  lemma EntryDiffers(ledger: Ledger, earlier: Change, ch: Change)
    requires WellFormedLog(ledger.genesis, ledger.log) && WellPlaced(ledger.genesis, ledger.log, ch)
    requires 1 <= earlier.headSeq <= |ledger.log| && ledger.log[earlier.headSeq - 1] == earlier
    ensures earlier.headSeq != ch.headSeq
    ensures earlier.itemId == ch.itemId ==> earlier.revisionSeq != ch.revisionSeq
  {
    if earlier.itemId == ch.itemId {
      RevisionsBelowLast(ledger.genesis, ledger.log, ch.itemId, earlier.headSeq - 1);
    }
  }

  /** Of the unique constraints, only a reused revision id can refuse a well placed entry. */
  lemma OnlyIdsCollide(db: Db, ls: Ledgers, vaultId: string, ch: Change)
    requires vaultId in ls && vaultId in db.vaults && VaultAgrees(db.vaults[vaultId], ls[vaultId])
    requires forall id :: id in db.revisions ==> RowLogged(ls, id, db.revisions[id])
    requires WellPlaced(ls[vaultId].genesis, ls[vaultId].log, ch)
    ensures RevisionIsUnique(db, RevisionRow(vaultId, ch)) <==> ch.revisionId !in db.revisions
  {
    forall id | id in db.revisions && db.revisions[id].vaultId == vaultId
      ensures db.revisions[id].change.headSeq != ch.headSeq
      ensures db.revisions[id].change.itemId == ch.itemId ==> db.revisions[id].change.revisionSeq != ch.revisionSeq
    {
      assert RowLogged(ls, id, db.revisions[id]);
      EntryDiffers(ls[vaultId], db.revisions[id].change, ch);
    }
  }

  lemma WellPlacedPassesChecks(genesis: string, log: seq<Change>, ch: Change)
    requires WellFormedLog(genesis, log) && WellPlaced(genesis, log, ch)
    ensures RevisionChecks(ch)
  {
    HeadOfWellFormed(genesis, log);
    LastOfIsIn(log, ch.itemId);
    if LastOf(log, ch.itemId).Some? {
      var k :| 0 <= k < |log| && log[k] == LastOf(log, ch.itemId).value;
      RevisionsBelowLast(genesis, log, ch.itemId, k);
    }
  }

  function Appended(ls: Ledgers, vaultId: string, ch: Change): Ledgers
    requires vaultId in ls
  {
    ls[vaultId := ls[vaultId].(log := ls[vaultId].log + [ch])]
  }

  lemma AppendKeepsVaults(db: Db, ls: Ledgers, vaultId: string, ch: Change, db': Db)
    requires VaultsAgree(db, ls) && vaultId in ls && WellPlaced(ls[vaultId].genesis, ls[vaultId].log, ch)
    requires db'.vaults == db.vaults[vaultId := db.vaults[vaultId].(headSeq := ch.headSeq, headHash := ch.headHash)]
    ensures VaultsAgree(db', Appended(ls, vaultId, ch))
  {
    var ls' := Appended(ls, vaultId, ch);
    WellFormedLogSnoc(ls[vaultId].genesis, ls[vaultId].log, ch);
    forall v | v in ls' ensures VaultAgrees(db'.vaults[v], ls'[v]) {
      assert VaultAgrees(db.vaults[v], ls[v]);
    }
  }

  lemma AppendKeepsRevisions(db: Db, ls: Ledgers, vaultId: string, ch: Change, db': Db)
    requires RevisionsAgree(db, ls) && vaultId in ls && ch.headSeq == |ls[vaultId].log| + 1
    requires ch.revisionId !in db.revisions
    requires db'.revisions == db.revisions[ch.revisionId := RevisionRow(vaultId, ch)]
    ensures RevisionsAgree(db', Appended(ls, vaultId, ch))
  {
    var ls' := Appended(ls, vaultId, ch);
    forall v, i | v in ls' && 0 <= i < |ls'[v].log| ensures EntryStored(db', v, ls'[v].log[i]) {
      if v != vaultId || i < |ls[vaultId].log| {
        assert ls'[v].log[i] == ls[v].log[i];
        assert EntryStored(db, v, ls[v].log[i]);
      }
    }
    forall id | id in db'.revisions ensures RowLogged(ls', id, db'.revisions[id]) {
      assert id != ch.revisionId ==> RowLogged(ls, id, db.revisions[id]);
    }
  }

  lemma AppendKeepsItems(db: Db, ls: Ledgers, vaultId: string, ch: Change, db': Db)
    requires ItemsAgree(db, ls) && vaultId in ls
    requires ch.itemId in db.items ==> db.items[ch.itemId].vaultId == vaultId
    requires db'.items == db.items[ch.itemId := ItemRow(vaultId, Some(ch.revisionId), ch.revisionSeq,
                                                        ch.operation == "delete")]
    ensures ItemsAgree(db', Appended(ls, vaultId, ch))
  {
    var ls' := Appended(ls, vaultId, ch);
    forall itemId | itemId in db'.items ensures ItemIndexed(ls', itemId, db'.items[itemId]) {
      LastOfSnoc(ls[vaultId].log, ch, itemId);
      assert itemId != ch.itemId ==> ItemIndexed(ls, itemId, db.items[itemId]);
    }
    forall v, i | v in ls' && 0 <= i < |ls'[v].log| ensures EntryIndexed(db', v, ls'[v].log[i]) {
      if v != vaultId || i < |ls[vaultId].log| {
        assert ls'[v].log[i] == ls[v].log[i];
        assert EntryIndexed(db, v, ls[v].log[i]);
      }
    }
  }

  /** What the shared tail leaves in each table. */
  lemma WriteRevisionTables(before: Db, db: Db, accountId: string, vaultId: string, ch: Change)
    requires vaultId in before.vaults && db.vaults == before.vaults && db.vaults[vaultId].accountId == accountId
    requires ch.itemId in db.items && db.items[ch.itemId].vaultId == vaultId && !db.items[ch.itemId].deleted
    requires RevisionChecks(ch)
    requires RevisionIsUnique(db, RevisionRow(vaultId, ch)) <==> ch.revisionId !in db.revisions
    ensures var out := WriteRevision(before, db, accountId, vaultId, ch);
            if ch.revisionId in db.revisions
            then out == Outcome(before, Conflict(HeadOfRow(before.vaults[vaultId])))
            else && out.response == Written(ch.itemId, ch.revisionId, ch.revisionSeq, ch.headSeq, ch.headHash)
                 && out.db.vaults == db.vaults[vaultId := db.vaults[vaultId].(headSeq := ch.headSeq,
                                                                               headHash := ch.headHash)]
                 && out.db.revisions == db.revisions[ch.revisionId := RevisionRow(vaultId, ch)]
                 && out.db.items == db.items[ch.itemId := ItemRow(vaultId, Some(ch.revisionId), ch.revisionSeq,
                                                                  ch.operation == "delete")]
  {}

  lemma Overwrite<K, V>(m: map<K, V>, k: K, a: V, b: V)
    ensures m[k := a][k := b] == m[k := b]
  {}

  /** The shared tail of both handlers, once their own checks have placed the entry. */
  lemma WriteRevisionRefines(before: Db, db: Db, ls: Ledgers, accountId: string, vaultId: string, ch: Change)
    requires Represents(before, ls) && vaultId in ls && ls[vaultId].accountId == accountId
    requires WellPlaced(ls[vaultId].genesis, ls[vaultId].log, ch)
    requires db.vaults == before.vaults && db.revisions == before.revisions
    requires ch.itemId in db.items && db.items[ch.itemId].vaultId == vaultId && !db.items[ch.itemId].deleted
    requires db.items == before.items
             || (ch.itemId !in before.items && db.items == before.items[ch.itemId := db.items[ch.itemId]])
    ensures var out := WriteRevision(before, db, accountId, vaultId, ch);
            if ch.revisionId in before.revisions
            then out == Outcome(before, Conflict(HeadOfRow(before.vaults[vaultId])))
            else Represents(out.db, Appended(ls, vaultId, ch))
                 && out.response == Written(ch.itemId, ch.revisionId, ch.revisionSeq, ch.headSeq, ch.headHash)
  {
    assert VaultAgrees(before.vaults[vaultId], ls[vaultId]);
    WellPlacedPassesChecks(ls[vaultId].genesis, ls[vaultId].log, ch);
    OnlyIdsCollide(db, ls, vaultId, ch);
    WriteRevisionTables(before, db, accountId, vaultId, ch);
    if ch.revisionId !in before.revisions {
      var out := WriteRevision(before, db, accountId, vaultId, ch);
      Overwrite(before.items, ch.itemId, db.items[ch.itemId], out.db.items[ch.itemId]);
      AppendKeepsVaults(before, ls, vaultId, ch, out.db);
      AppendKeepsRevisions(before, ls, vaultId, ch, out.db);
      AppendKeepsItems(before, ls, vaultId, ch, out.db);
    }
  }

  /** A write commits exactly when the ledgers accept it; then it appends one entry, else nothing changes. */
  ghost predicate StepRefinement(db: Db, ls: Ledgers, w: Write) {
    var out := Step(db, w);
    && Represents(out.db, StepLedgers(ls, w))
    && (out.response.Written? <==> Accepts(ls, w))
    && (!out.response.Written? ==> out.db == db)
    && (out.response.Written? && !w.NewVault? ==>
          var e := Entry(ls, w);
          out.response == Written(e.itemId, e.revisionId, e.revisionSeq, e.headSeq, e.headHash))
    && (out.response.Conflict? ==>
          w.vaultId in ls && out.response.current == HeadOf(ls[w.vaultId].genesis, ls[w.vaultId].log))
  }

  lemma Commits(db: Db, ls: Ledgers, w: Write)
    requires !w.NewVault? && w.vaultId in ls && Accepts(ls, w)
    requires var e, out := Entry(ls, w), Step(db, w);
             && Represents(out.db, Appended(ls, w.vaultId, e))
             && out.response == Written(e.itemId, e.revisionId, e.revisionSeq, e.headSeq, e.headHash)
    ensures StepRefinement(db, ls, w)
  {
    assert StepLedgers(ls, w) == Appended(ls, w.vaultId, Entry(ls, w));
  }

  lemma Refuses(db: Db, ls: Ledgers, w: Write)
    requires Represents(db, ls) && !w.NewVault? && !Accepts(ls, w)
    requires var out := Step(db, w);
             && out.db == db && !out.response.Written?
             && (out.response.Conflict? ==>
                   w.vaultId in db.vaults && out.response.current == HeadOfRow(db.vaults[w.vaultId]))
    ensures StepRefinement(db, ls, w)
  {
    assert w.vaultId in ls ==> VaultAgrees(db.vaults[w.vaultId], ls[w.vaultId]);
  }

  lemma Finishes(db: Db, db1: Db, ls: Ledgers, w: Write)
    requires Represents(db, ls) && !w.NewVault? && w.vaultId in ls && ls[w.vaultId].accountId == w.accountId
    requires var ch := Entry(ls, w);
             && WellPlaced(ls[w.vaultId].genesis, ls[w.vaultId].log, ch)
             && Step(db, w) == WriteRevision(db, db1, w.accountId, w.vaultId, ch)
             && (Accepts(ls, w) <==> ch.revisionId !in db.revisions)
             && db1.vaults == db.vaults && db1.revisions == db.revisions
             && ch.itemId in db1.items && db1.items[ch.itemId].vaultId == w.vaultId && !db1.items[ch.itemId].deleted
             && (db1.items == db.items
                 || (ch.itemId !in db.items && db1.items == db.items[ch.itemId := db1.items[ch.itemId]]))
    ensures StepRefinement(db, ls, w)
  {
    WriteRevisionRefines(db, db1, ls, w.accountId, w.vaultId, Entry(ls, w));
    if Accepts(ls, w) {
      Commits(db, ls, w);
    } else {
      Refuses(db, ls, w);
    }
  }

  /** The checks of the create handler before it inserts the revision row. */
  predicate CreatePasses(db: Db, accountId: string, vaultId: string, req: CreateItemRequest) {
    && req.baseHeadSeq >= 0 && Supported(req.envelope)
    && VaultOf(db, accountId, vaultId).Some?
    && HeadMatches(db.vaults[vaultId], req.baseHeadSeq, req.baseHeadHash)
    && req.itemId !in db.items
  }

  lemma CreatePassesIff(db: Db, ls: Ledgers, w: Write)
    requires Represents(db, ls) && w.WriteItem?
    ensures CreatePasses(db, w.accountId, w.vaultId, w.create) ==>
              w.vaultId in ls && WellPlaced(ls[w.vaultId].genesis, ls[w.vaultId].log, Entry(ls, w))
    ensures Accepts(ls, w) <==>
            CreatePasses(db, w.accountId, w.vaultId, w.create) && w.create.revisionId !in db.revisions
  {
    var v, req := w.vaultId, w.create;
    IdsAgree(db, ls, req.itemId);
    IdsAgree(db, ls, req.revisionId);
    if v in ls {
      assert VaultAgrees(db.vaults[v], ls[v]);
      HeadOfWellFormed(ls[v].genesis, ls[v].log);
      LastOfIsIn(ls[v].log, req.itemId);
    }
  }

  lemma CreateRuns(db: Db, w: Write)
    requires w.WriteItem?
    ensures var v, req, out := w.vaultId, w.create, Step(db, w);
            if CreatePasses(db, w.accountId, v, req)
            then out == WriteRevision(db, db.(items := db.items[req.itemId := ItemRow(v, None, 0, false)]),
                                      w.accountId, v, CreatedChange(req, db.vaults[v].headSeq + 1))
            else out.db == db && !out.response.Written?
                 && (out.response.Conflict? ==> v in db.vaults && out.response.current == HeadOfRow(db.vaults[v]))
  {}

  lemma CreateItemRefines(db: Db, ls: Ledgers, w: Write)
    requires Represents(db, ls) && w.WriteItem?
    ensures StepRefinement(db, ls, w)
  {
    var v, req := w.vaultId, w.create;
    CreateRuns(db, w);
    CreatePassesIff(db, ls, w);
    if CreatePasses(db, w.accountId, v, req) {
      assert VaultAgrees(db.vaults[v], ls[v]);
      HeadOfWellFormed(ls[v].genesis, ls[v].log);
      Finishes(db, db.(items := db.items[req.itemId := ItemRow(v, None, 0, false)]), ls, w);
    } else {
      Refuses(db, ls, w);
    }
  }

  /** The checks of the revision handler before it inserts the revision row. */
  predicate RevisePasses(db: Db, accountId: string, vaultId: string, itemId: string, req: CreateRevisionRequest) {
    && req.operation in {"update", "delete"} && req.baseRevisionSeq > 0 && req.baseHeadSeq >= 0
    && Supported(req.envelope)
    && VaultOf(db, accountId, vaultId).Some?
    && itemId in db.items && db.items[itemId].vaultId == vaultId
    && HeadMatches(db.vaults[vaultId], req.baseHeadSeq, req.baseHeadHash)
    && req.baseRevisionSeq == db.items[itemId].latestRevisionSeq && !db.items[itemId].deleted
  }

  /** The item index row tells the revision handler what the log says about the item. */
  lemma RevisionPlacedIff(row: VaultRow, ledger: Ledger, itemId: string, req: CreateRevisionRequest)
    requires VaultAgrees(row, ledger) && LastOf(ledger.log, itemId).Some?
    ensures var last := LastOf(ledger.log, itemId).value;
            WellPlaced(ledger.genesis, ledger.log,
                       RevisedChange(itemId, req, req.baseRevisionSeq + 1, |ledger.log| + 1))
            <==> && req.operation in {"update", "delete"} && req.baseRevisionSeq > 0 && req.baseHeadSeq >= 0
                 && HeadMatches(row, req.baseHeadSeq, req.baseHeadHash)
                 && req.baseRevisionSeq == last.revisionSeq && last.operation != "delete"
  {
    HeadOfWellFormed(ledger.genesis, ledger.log);
    var k := LastIndex(ledger.log, itemId);
    LastOfIsIn(ledger.log, itemId);
    RevisionsBelowLast(ledger.genesis, ledger.log, itemId, k);
  }

  lemma ItemRowIff(db: Db, ls: Ledgers, v: string, itemId: string)
    requires Represents(db, ls) && v in ls
    ensures itemId in db.items && db.items[itemId].vaultId == v <==> LastOf(ls[v].log, itemId).Some?
    ensures itemId in db.items && db.items[itemId].vaultId == v ==> ItemIndexed(ls, itemId, db.items[itemId])
  {
    LastOfIsIn(ls[v].log, itemId);
    assert itemId in db.items ==> ItemIndexed(ls, itemId, db.items[itemId]);
    if LastOf(ls[v].log, itemId).Some? {
      assert EntryIndexed(db, v, ls[v].log[LastIndex(ls[v].log, itemId)]);
    }
  }

  lemma RevisePassesIff(db: Db, ls: Ledgers, w: Write)
    requires Represents(db, ls) && w.WriteUpdate?
    ensures RevisePasses(db, w.accountId, w.vaultId, w.itemId, w.revise) ==>
              w.vaultId in ls && WellPlaced(ls[w.vaultId].genesis, ls[w.vaultId].log, Entry(ls, w))
    ensures Accepts(ls, w) <==>
            RevisePasses(db, w.accountId, w.vaultId, w.itemId, w.revise) && w.revise.revisionId !in db.revisions
  {
    var v, req := w.vaultId, w.revise;
    IdsAgree(db, ls, req.revisionId);
    if v in ls {
      assert VaultAgrees(db.vaults[v], ls[v]);
      ItemRowIff(db, ls, v, w.itemId);
      if LastOf(ls[v].log, w.itemId).Some? {
        RevisionPlacedIff(db.vaults[v], ls[v], w.itemId, req);
      }
    }
  }

  lemma ReviseRuns(db: Db, w: Write)
    requires w.WriteUpdate?
    ensures var v, req, out := w.vaultId, w.revise, Step(db, w);
            if RevisePasses(db, w.accountId, v, w.itemId, req)
            then out == WriteRevision(db, db, w.accountId, v,
                                      RevisedChange(w.itemId, req, req.baseRevisionSeq + 1, db.vaults[v].headSeq + 1))
            else out.db == db && !out.response.Written?
                 && (out.response.Conflict? ==> v in db.vaults && out.response.current == HeadOfRow(db.vaults[v]))
  {}

  lemma CreateRevisionRefines(db: Db, ls: Ledgers, w: Write)
    requires Represents(db, ls) && w.WriteUpdate?
    ensures StepRefinement(db, ls, w)
  {
    var v, req := w.vaultId, w.revise;
    ReviseRuns(db, w);
    RevisePassesIff(db, ls, w);
    if RevisePasses(db, w.accountId, v, w.itemId, req) {
      assert VaultAgrees(db.vaults[v], ls[v]);
      HeadOfWellFormed(ls[v].genesis, ls[v].log);
      Finishes(db, db, ls, w);
    } else {
      Refuses(db, ls, w);
    }
  }

  // ----- which answer a write gets -----

  /** What the handlers refuse before they look at any table. */
  predicate Malformed(w: Write)
    requires !w.NewVault?
  {
    match w
    case WriteItem(_, _, req) =>
      req.baseHeadSeq < 0 || req.envelope.cryptoVersion != "item-envelope-v1" || req.envelope.aead != "AES-256-GCM"
    case WriteUpdate(_, _, _, req) =>
      || (req.operation != "update" && req.operation != "delete") || req.baseRevisionSeq <= 0 || req.baseHeadSeq < 0
      || req.envelope.cryptoVersion != "item-envelope-v1" || req.envelope.aead != "AES-256-GCM"
  }

  /** The vault is the caller's and, for a revision, its log mentions the item. */
  predicate Found(ls: Ledgers, w: Write)
    requires !w.NewVault?
  {
    && w.vaultId in ls && ls[w.vaultId].accountId == w.accountId
    && (w.WriteUpdate? ==> exists i :: 0 <= i < |ls[w.vaultId].log| && ls[w.vaultId].log[i].itemId == w.itemId)
  }

  /** The one answer a write gets, told by the logs alone: a malformed one a bad request; one on a vault that is not the
      caller's, or on an item that the vault's log never mentions, not found; a committed one its entry; and any other
      the vault's current head as a conflict. */
  ghost function AnswerTo(ls: Ledgers, w: Write): WriteResponse
    requires !w.NewVault?
  {
    if Malformed(w) then BadRequest
    else if !Found(ls, w) then NotFound
    else if !Accepts(ls, w) then Conflict(HeadOf(ls[w.vaultId].genesis, ls[w.vaultId].log))
    else var e := Entry(ls, w); Written(e.itemId, e.revisionId, e.revisionSeq, e.headSeq, e.headHash)
  }

  lemma CreateRefusal(db: Db, w: Write)
    requires w.WriteItem? && !CreatePasses(db, w.accountId, w.vaultId, w.create)
    ensures Step(db, w).response ==
            if Malformed(w) then BadRequest
            else if VaultOf(db, w.accountId, w.vaultId).None? then NotFound
            else Conflict(HeadOfRow(db.vaults[w.vaultId]))
  {}

  lemma ReviseRefusal(db: Db, w: Write)
    requires w.WriteUpdate? && !RevisePasses(db, w.accountId, w.vaultId, w.itemId, w.revise)
    ensures Step(db, w).response ==
            if Malformed(w) then BadRequest
            else if VaultOf(db, w.accountId, w.vaultId).None? then NotFound
            else if w.itemId !in db.items || db.items[w.itemId].vaultId != w.vaultId then NotFound
            else Conflict(HeadOfRow(db.vaults[w.vaultId]))
  {}

  lemma PassingIsWellFormed(db: Db, w: Write)
    requires !w.NewVault?
    requires if w.WriteItem? then CreatePasses(db, w.accountId, w.vaultId, w.create)
             else RevisePasses(db, w.accountId, w.vaultId, w.itemId, w.revise)
    ensures !Malformed(w)
  {}

  lemma FoundIff(db: Db, ls: Ledgers, w: Write)
    requires Represents(db, ls) && !w.NewVault?
    ensures Found(ls, w) <==>
            && VaultOf(db, w.accountId, w.vaultId).Some?
            && (w.WriteUpdate? ==> w.itemId in db.items && db.items[w.itemId].vaultId == w.vaultId)
  {
    if w.vaultId in ls {
      assert VaultAgrees(db.vaults[w.vaultId], ls[w.vaultId]);
      if w.WriteUpdate? {
        ItemRowIff(db, ls, w.vaultId, w.itemId);
        LastOfIsIn(ls[w.vaultId].log, w.itemId);
      }
    }
  }

  lemma CreateConflicts(db: Db, ls: Ledgers, w: Write)
    requires Represents(db, ls) && w.WriteItem? && !Accepts(ls, w)
    requires CreatePasses(db, w.accountId, w.vaultId, w.create)
    ensures Step(db, w).response == Conflict(HeadOfRow(db.vaults[w.vaultId]))
  {
    var v, req := w.vaultId, w.create;
    CreateRuns(db, w);
    CreatePassesIff(db, ls, w);
    assert VaultAgrees(db.vaults[v], ls[v]);
    HeadOfWellFormed(ls[v].genesis, ls[v].log);
    WriteRevisionRefines(db, db.(items := db.items[req.itemId := ItemRow(v, None, 0, false)]), ls, w.accountId, v,
                         Entry(ls, w));
  }

  lemma ReviseConflicts(db: Db, ls: Ledgers, w: Write)
    requires Represents(db, ls) && w.WriteUpdate? && !Accepts(ls, w)
    requires RevisePasses(db, w.accountId, w.vaultId, w.itemId, w.revise)
    ensures Step(db, w).response == Conflict(HeadOfRow(db.vaults[w.vaultId]))
  {
    var v := w.vaultId;
    ReviseRuns(db, w);
    RevisePassesIff(db, ls, w);
    assert VaultAgrees(db.vaults[v], ls[v]);
    HeadOfWellFormed(ls[v].genesis, ls[v].log);
    WriteRevisionRefines(db, db, ls, w.accountId, v, Entry(ls, w));
  }

  lemma RefusedAnswer(db: Db, ls: Ledgers, w: Write)
    requires Represents(db, ls) && !w.NewVault? && !Accepts(ls, w)
    ensures Step(db, w).response == AnswerTo(ls, w)
  {
    FoundIff(db, ls, w);
    assert w.vaultId in ls ==> VaultAgrees(db.vaults[w.vaultId], ls[w.vaultId]);
    if w.WriteItem? {
      if CreatePasses(db, w.accountId, w.vaultId, w.create) {
        PassingIsWellFormed(db, w);
        CreateConflicts(db, ls, w);
      } else {
        CreateRefusal(db, w);
      }
    } else {
      if RevisePasses(db, w.accountId, w.vaultId, w.itemId, w.revise) {
        PassingIsWellFormed(db, w);
        ReviseConflicts(db, ls, w);
      } else {
        ReviseRefusal(db, w);
      }
    }
  }

  /** Every write of either kind is answered so; it commits only when well formed and found, and "unavailable" never
      occurs. */
  lemma WriteAnswer(db: Db, ls: Ledgers, w: Write)
    requires Represents(db, ls) && !w.NewVault?
    ensures Accepts(ls, w) ==> !Malformed(w) && Found(ls, w)
    ensures Step(db, w).response == AnswerTo(ls, w)
  {
    if Accepts(ls, w) {
      StepRefines(db, ls, w);
      FoundIff(db, ls, w);
      if w.WriteItem? {
        CreatePassesIff(db, ls, w);
      } else {
        RevisePassesIff(db, ls, w);
      }
      PassingIsWellFormed(db, w);
    } else {
      RefusedAnswer(db, ls, w);
    }
  }

  lemma NewVaultKeepsVaults(db: Db, ls: Ledgers, v: string, ledger: Ledger, db': Db)
    requires VaultsAgree(db, ls) && v !in ls && ledger.log == []
    requires db'.vaults == db.vaults[v := VaultRow(ledger.accountId, 0, ledger.genesis, ledger.genesis)]
    ensures VaultsAgree(db', ls[v := ledger])
  {
    forall u | u in ls ensures VaultAgrees(db'.vaults[u], ls[u]) {
      assert VaultAgrees(db.vaults[u], ls[u]);
    }
  }

  lemma NewVaultKeepsRevisions(db: Db, ls: Ledgers, v: string, ledger: Ledger, db': Db)
    requires RevisionsAgree(db, ls) && v !in ls && ledger.log == [] && db'.revisions == db.revisions
    ensures RevisionsAgree(db', ls[v := ledger])
  {
    forall u, i | u in ls && 0 <= i < |ls[u].log| ensures EntryStored(db', u, ls[u].log[i]) {
      assert EntryStored(db, u, ls[u].log[i]);
    }
    forall id | id in db.revisions ensures RowLogged(ls[v := ledger], id, db.revisions[id]) {
      assert RowLogged(ls, id, db.revisions[id]);
    }
  }

  lemma NewVaultKeepsItems(db: Db, ls: Ledgers, v: string, ledger: Ledger, db': Db)
    requires ItemsAgree(db, ls) && v !in ls && ledger.log == [] && db'.items == db.items
    ensures ItemsAgree(db', ls[v := ledger])
  {
    forall u, i | u in ls && 0 <= i < |ls[u].log| ensures EntryIndexed(db', u, ls[u].log[i]) {
      assert EntryIndexed(db, u, ls[u].log[i]);
    }
    forall id | id in db.items ensures ItemIndexed(ls[v := ledger], id, db.items[id]) {
      assert ItemIndexed(ls, id, db.items[id]);
    }
  }

  lemma NewVaultRefines(db: Db, ls: Ledgers, w: Write)
    requires Represents(db, ls) && w.NewVault?
    ensures StepRefinement(db, ls, w)
  {
    if w.vaultId !in ls {
      var ledger := Ledger(w.accountId, w.genesis, []);
      NewVaultKeepsVaults(db, ls, w.vaultId, ledger, Step(db, w).db);
      NewVaultKeepsRevisions(db, ls, w.vaultId, ledger, Step(db, w).db);
      NewVaultKeepsItems(db, ls, w.vaultId, ledger, Step(db, w).db);
    }
  }

  lemma StepRefines(db: Db, ls: Ledgers, w: Write)
    requires Represents(db, ls)
    ensures StepRefinement(db, ls, w)
  {
    match w
    case NewVault(_, _, _) => NewVaultRefines(db, ls, w);
    case WriteItem(_, _, _) => CreateItemRefines(db, ls, w);
    case WriteUpdate(_, _, _, _) => CreateRevisionRefines(db, ls, w);
  }

  lemma StepGrows(db: Db, ls: Ledgers, w: Write)
    requires Represents(db, ls)
    ensures Represents(Step(db, w).db, StepLedgers(ls, w))
    ensures LedgersGrow(ls, StepLedgers(ls, w))
  {
    StepRefines(db, ls, w);
    StepLedgersGrow(ls, w);
  }

  lemma StepLedgersGrow(ls: Ledgers, w: Write)
    ensures LedgersGrow(ls, StepLedgers(ls, w))
  {}

  lemma GrowTransitive(ls0: Ledgers, ls1: Ledgers, ls2: Ledgers)
    requires LedgersGrow(ls0, ls1) && LedgersGrow(ls1, ls2)
    ensures LedgersGrow(ls0, ls2)
  {
    forall v | v in ls0 ensures ls0[v].log <= ls2[v].log {
      assert ls0[v].log <= ls1[v].log <= ls2[v].log;
    }
  }

  /** Over every run of writes the tables are exactly the ledgers. */
  lemma {:induction false} RunRefines(db: Db, ls: Ledgers, writes: seq<Write>)
    requires Represents(db, ls)
    ensures Represents(Run(db, writes), RunLedgers(ls, writes))
    ensures LedgersGrow(ls, RunLedgers(ls, writes))
    decreases writes
  {
    if writes != [] {
      StepGrows(db, ls, writes[0]);
      RunRefines(Step(db, writes[0]).db, StepLedgers(ls, writes[0]), writes[1..]);
      GrowTransitive(ls, StepLedgers(ls, writes[0]), RunLedgers(StepLedgers(ls, writes[0]), writes[1..]));
    }
  }

  /** Vaults stay, keep their owner and genesis, and their logs only gain entries at the end. */
  ghost predicate LedgersGrow(ls: Ledgers, ls': Ledgers) {
    forall v :: v in ls ==>
                  && v in ls' && ls'[v].accountId == ls[v].accountId && ls'[v].genesis == ls[v].genesis
                  && ls[v].log <= ls'[v].log
  }

  /** One vault's part of the tables, read against its log. */
  ghost predicate VaultInvariant(db: Db, v: string, genesis: string, log: seq<Change>) {
    && v in db.vaults && HeadOfRow(db.vaults[v]) == Head(|log|, HeadOf(genesis, log).hash)
    && (forall i :: 0 <= i < |log| ==> ChainLink(genesis, log, i) && EntryStored(db, v, log[i]))
    && (forall id :: id in db.revisions && db.revisions[id].vaultId == v ==> db.revisions[id].change in log)
    && (forall id :: id in db.items && db.items[id].vaultId == v ==> IndexedBy(db.items[id], LastOf(log, id)))
  }

  predicate ChainLink(genesis: string, log: seq<Change>, i: nat)
    requires i < |log|
  {
    && log[i].headSeq == i + 1
    && log[i].previousHeadHash == log[i].baseHeadHash == (if i == 0 then genesis else log[i - 1].headHash)
  }

  predicate IndexedBy(row: ItemRow, last: Option<Change>) {
    && last.Some?
    && row.latestRevisionId == Some(last.value.revisionId)
    && row.latestRevisionSeq == last.value.revisionSeq
    && row.deleted == (last.value.operation == "delete")
  }

  lemma WellFormedChain(genesis: string, log: seq<Change>, i: nat)
    requires WellFormedLog(genesis, log) && i < |log|
    ensures ChainLink(genesis, log, i)
  {
    assert WellPlaced(genesis, log[..i], log[i]);
  }

  lemma RepresentsMeansInvariant(db: Db, ls: Ledgers, v: string)
    requires Represents(db, ls) && v in ls
    ensures VaultInvariant(db, v, ls[v].genesis, ls[v].log)
  {
    var log := ls[v].log;
    assert VaultAgrees(db.vaults[v], ls[v]);
    HeadOfWellFormed(ls[v].genesis, log);
    forall i | 0 <= i < |log| ensures ChainLink(ls[v].genesis, log, i) && EntryStored(db, v, log[i]) {
      WellFormedChain(ls[v].genesis, log, i);
      assert EntryStored(db, v, ls[v].log[i]);
    }
    forall id | id in db.revisions && db.revisions[id].vaultId == v ensures db.revisions[id].change in log {
      assert RowLogged(ls, id, db.revisions[id]);
    }
    forall id | id in db.items && db.items[id].vaultId == v ensures IndexedBy(db.items[id], LastOf(log, id)) {
      assert ItemIndexed(ls, id, db.items[id]);
    }
  }

  /** From empty tables, every run keeps each vault's chain, numbering, head row and item index. */
  lemma ServerInvariant(writes: seq<Write>, v: string)
    requires v in Run(Db(map[], map[], map[]), writes).vaults
    ensures var db := Run(Db(map[], map[], map[]), writes);
            exists genesis, log :: WellFormedLog(genesis, log) && VaultInvariant(db, v, genesis, log)
  {
    var db, ls := Run(Db(map[], map[], map[]), writes), RunLedgers(map[], writes);
    RunRefines(Db(map[], map[], map[]), map[], writes);
    RepresentsMeansInvariant(db, ls, v);
    assert WellFormedLog(ls[v].genesis, ls[v].log) by { assert VaultAgrees(db.vaults[v], ls[v]); }
  }

  /** In a well formed log an item's entries are numbered 1, 2, 3, ...: created first, deleted only last. */
  lemma {:induction false} ItemHistory(genesis: string, log: seq<Change>, itemId: string, i: nat)
    requires WellFormedLog(genesis, log) && i < |log| && log[i].itemId == itemId
    ensures log[i].revisionSeq == EntriesOf(log[..i], itemId) + 1
    ensures log[i].operation == "create" <==> log[i].revisionSeq == 1
    ensures log[i].operation == "delete" ==> forall j :: i < j < |log| ==> log[j].itemId != itemId
    decreases i
  {
    assert WellPlaced(genesis, log[..i], log[i]);
    LastOfIsIn(log[..i], itemId);
    EntriesOfLast(log[..i], itemId);
    if LastOf(log[..i], itemId).Some? {
      var k := LastIndex(log[..i], itemId);
      assert log[..i][k] == log[k] && log[..i][..k] == log[..k];
      ItemHistory(genesis, log, itemId, k);
    }
    if log[i].operation == "delete" {
      forall j | i < j < |log| ensures log[j].itemId != itemId {
        NothingAfterDelete(genesis, log, itemId, i, j);
      }
    }
  }

  function EntriesOf(log: seq<Change>, itemId: string): nat {
    if log == [] then 0
    else EntriesOf(log[..|log| - 1], itemId) + if log[|log| - 1].itemId == itemId then 1 else 0
  }

  function LastIndex(log: seq<Change>, itemId: string): (k: nat)
    requires LastOf(log, itemId).Some?
    ensures k < |log| && log[k] == LastOf(log, itemId).value
    ensures forall j :: k < j < |log| ==> log[j].itemId != itemId
  {
    if log[|log| - 1].itemId == itemId then |log| - 1 else LastIndex(log[..|log| - 1], itemId)
  }

  lemma {:induction false} EntriesOfLast(log: seq<Change>, itemId: string)
    ensures EntriesOf(log, itemId) == if LastOf(log, itemId).None? then 0
                                      else EntriesOf(log[..LastIndex(log, itemId)], itemId) + 1
  {
    if log != [] {
      EntriesOfLast(log[..|log| - 1], itemId);
      if log[|log| - 1].itemId != itemId && LastOf(log, itemId).Some? {
        var k := LastIndex(log, itemId);
        assert log[..|log| - 1][..k] == log[..k];
      }
    }
  }

  lemma {:induction false} NothingAfterDelete(genesis: string, log: seq<Change>, itemId: string, i: nat, j: nat)
    requires WellFormedLog(genesis, log) && i < j < |log|
    requires log[i].itemId == itemId && log[i].operation == "delete"
    ensures log[j].itemId != itemId
    decreases j
  {
    if log[j].itemId == itemId {
      assert WellPlaced(genesis, log[..j], log[j]);
      LastOfIsIn(log[..j], itemId);
      assert log[..j][i].itemId == itemId;
      var k := LastIndex(log[..j], itemId);
      assert log[..j][k] == log[k];
      if i < k {
        NothingAfterDelete(genesis, log, itemId, i, k);
      }
      assert false;
    }
  }

  /** Two writes built on one base head never both commit, whatever is written in between. */
  lemma OneCommitPerBase(db: Db, ls: Ledgers, w1: Write, between: seq<Write>, w2: Write)
    requires Represents(db, ls) && !w1.NewVault? && !w2.NewVault? && w1.vaultId == w2.vaultId
    requires Step(db, w1).response.Written?
    requires BaseSeq(w1) == BaseSeq(w2)
    ensures !Step(Run(Step(db, w1).db, between), w2).response.Written?
  {
    var v := w1.vaultId;
    StepRefines(db, ls, w1);
    var db1, ls1 := Step(db, w1).db, StepLedgers(ls, w1);
    RunRefines(db1, ls1, between);
    var db2, ls2 := Run(db1, between), RunLedgers(ls1, between);
    StepRefines(db2, ls2, w2);
    HeadOfWellFormed(ls[v].genesis, ls[v].log);
    HeadOfWellFormed(ls2[v].genesis, ls2[v].log);
    assert |ls[v].log| < |ls1[v].log| <= |ls2[v].log|;
  }

  function BaseSeq(w: Write): int
    requires !w.NewVault?
  {
    if w.WriteItem? then w.create.baseHeadSeq else w.revise.baseHeadSeq
  }
}
