/** The vault tables as mutable state, and the handlers that change them row by row inside a
    transaction that an early return rolls back. */
module VaultStore {
  import opened Results
  import opened Chain
  import opened VaultServer
  import opened VaultSync

  class VaultTables {
    var vaults: map<string, VaultRow>
    var items: map<string, ItemRow>
    var revisions: map<string, RevisionRow>
    ghost var ledgers: Ledgers

    function View(): Db
      reads this
    {
      Db(vaults, items, revisions)
    }

    ghost predicate Valid()
      reads this
    {
      Represents(View(), ledgers)
    }

    constructor ()
      ensures Valid() && View() == Db(map[], map[], map[]) && ledgers == map[]
    {
      vaults, items, revisions := map[], map[], map[];
      ledgers := map[];
    }

    method Rollback(saved: Db)
      modifies this
      ensures View() == saved && ledgers == old(ledgers)
    {
      vaults, items, revisions := saved.vaults, saved.items, saved.revisions;
    }

    method InsertRevision(row: RevisionRow) returns (error: Option<WriteError>)
      modifies this`revisions
      ensures match InsertRevisionRow(old(View()), row)
              case Ok(db) => error == None && View() == db
              case Err(e) => error == Some(e) && View() == old(View())
    {
      if !RevisionChecks(row.change) || row.change.itemId !in items || items[row.change.itemId].vaultId != row.vaultId {
        return Some(OtherDatabaseError);
      }
      if !RevisionIsUnique(View(), row) {
        return Some(UniqueViolation);
      }
      revisions := revisions[row.change.revisionId := row];
      return None;
    }

    /** Insert the revision row, then point the item and the vault head at it. */
    method AppendRevision(saved: Db, accountId: string, vaultId: string, ch: Change) returns (response: WriteResponse)
      requires vaultId in saved.vaults
      modifies this
      ensures Outcome(View(), response) == WriteRevision(saved, old(View()), accountId, vaultId, ch)
      ensures ledgers == old(ledgers)
    {
      var error := InsertRevision(RevisionRow(vaultId, ch));
      if error != None {
        Rollback(saved);
        return if error == Some(UniqueViolation) then Conflict(HeadOfRow(saved.vaults[vaultId])) else Unavailable;
      }
      if ch.itemId in items && items[ch.itemId].vaultId == vaultId {
        var deleted := items[ch.itemId].deleted;
        if ch.operation == "delete" {
          deleted := true;
        }
        items := items[ch.itemId := ItemRow(vaultId, Some(ch.revisionId), ch.revisionSeq, deleted)];
      }
      if VaultOf(View(), accountId, vaultId).Some? {
        vaults := vaults[vaultId := vaults[vaultId].(headSeq := ch.headSeq, headHash := ch.headHash)];
      }
      response := Written(ch.itemId, ch.revisionId, ch.revisionSeq, ch.headSeq, ch.headHash);
    }

    method CreateItem(accountId: string, vaultId: string, req: CreateItemRequest) returns (response: WriteResponse)
      requires Valid()
      modifies this
      ensures Valid()
      ensures Outcome(View(), response) == Step(old(View()), WriteItem(accountId, vaultId, req))
      ensures ledgers == StepLedgers(old(ledgers), WriteItem(accountId, vaultId, req))
      ensures response.Written? <==> Accepts(old(ledgers), WriteItem(accountId, vaultId, req))
      ensures response == AnswerTo(old(ledgers), WriteItem(accountId, vaultId, req))
      ensures !response.Written? ==> View() == old(View())
    {
      WriteAnswer(View(), ledgers, WriteItem(accountId, vaultId, req));
      StepRefines(View(), ledgers, WriteItem(accountId, vaultId, req));
      ledgers := StepLedgers(ledgers, WriteItem(accountId, vaultId, req));
      response := CreateItemTransaction(accountId, vaultId, req);
    }

    method CreateItemTransaction(accountId: string, vaultId: string, req: CreateItemRequest)
      returns (response: WriteResponse)
      modifies this
      ensures Outcome(View(), response) == VaultServer.CreateItem(old(View()), accountId, vaultId, req)
      ensures ledgers == old(ledgers)
    {
      if req.baseHeadSeq < 0 || !Supported(req.envelope) {
        return BadRequest;
      }
      var vault := VaultOf(View(), accountId, vaultId);
      if vault == None {
        return NotFound;
      }
      if !HeadMatches(vault.value, req.baseHeadSeq, req.baseHeadHash) {
        return Conflict(HeadOfRow(vault.value));
      }
      var saved := View();
      if req.itemId in items {
        return Conflict(HeadOfRow(vault.value));
      }
      items := items[req.itemId := ItemRow(vaultId, None, 0, false)];
      response := AppendRevision(saved, accountId, vaultId, CreatedChange(req, vault.value.headSeq + 1));
    }

    method CreateItemRevision(accountId: string, vaultId: string, itemId: string, req: CreateRevisionRequest)
      returns (response: WriteResponse)
      requires Valid()
      modifies this
      ensures Valid()
      ensures Outcome(View(), response) == Step(old(View()), WriteUpdate(accountId, vaultId, itemId, req))
      ensures ledgers == StepLedgers(old(ledgers), WriteUpdate(accountId, vaultId, itemId, req))
      ensures response.Written? <==> Accepts(old(ledgers), WriteUpdate(accountId, vaultId, itemId, req))
      ensures response == AnswerTo(old(ledgers), WriteUpdate(accountId, vaultId, itemId, req))
      ensures !response.Written? ==> View() == old(View())
    {
      WriteAnswer(View(), ledgers, WriteUpdate(accountId, vaultId, itemId, req));
      StepRefines(View(), ledgers, WriteUpdate(accountId, vaultId, itemId, req));
      ledgers := StepLedgers(ledgers, WriteUpdate(accountId, vaultId, itemId, req));
      response := CreateRevisionTransaction(accountId, vaultId, itemId, req);
    }

    method CreateRevisionTransaction(accountId: string, vaultId: string, itemId: string, req: CreateRevisionRequest)
      returns (response: WriteResponse)
      modifies this
      ensures Outcome(View(), response) == CreateRevision(old(View()), accountId, vaultId, itemId, req)
      ensures ledgers == old(ledgers)
    {
      if req.operation !in {"update", "delete"} || req.baseRevisionSeq <= 0 || req.baseHeadSeq < 0
         || !Supported(req.envelope)
      {
        return BadRequest;
      }
      var vault := VaultOf(View(), accountId, vaultId);
      if vault == None {
        return NotFound;
      }
      if itemId !in items || items[itemId].vaultId != vaultId {
        return NotFound;
      }
      var item := items[itemId];
      if !HeadMatches(vault.value, req.baseHeadSeq, req.baseHeadHash)
         || req.baseRevisionSeq != item.latestRevisionSeq || item.deleted
      {
        return Conflict(HeadOfRow(vault.value));
      }
      response := AppendRevision(View(), accountId, vaultId,
                                 RevisedChange(itemId, req, item.latestRevisionSeq + 1, vault.value.headSeq + 1));
    }

    method AddVault(accountId: string, vaultId: string, genesis: string) returns (response: WriteResponse)
      requires Valid()
      modifies this
      ensures Valid()
      ensures Outcome(View(), response) == Step(old(View()), NewVault(accountId, vaultId, genesis))
      ensures ledgers == StepLedgers(old(ledgers), NewVault(accountId, vaultId, genesis))
    {
      StepRefines(View(), ledgers, NewVault(accountId, vaultId, genesis));
      ledgers := StepLedgers(ledgers, NewVault(accountId, vaultId, genesis));
      if vaultId in vaults {
        return Unavailable;
      }
      vaults := vaults[vaultId := VaultRow(accountId, 0, genesis, genesis)];
      response := Written("", "", 0, 0, genesis);
    }

    /** Other requests committing, one after the other. */
    method OtherWriters(writes: seq<Write>)
      requires Valid()
      modifies this
      ensures Valid() && View() == Run(old(View()), writes) && ledgers == RunLedgers(old(ledgers), writes)
      decreases writes
    {
      if writes != [] {
        var w := writes[0];
        var response: WriteResponse;
        match w {
          case NewVault(accountId, vaultId, genesis) => response := AddVault(accountId, vaultId, genesis);
          case WriteItem(accountId, vaultId, req) => response := CreateItem(accountId, vaultId, req);
          case WriteUpdate(accountId, vaultId, itemId, req) =>
            response := CreateItemRevision(accountId, vaultId, itemId, req);
        }
        OtherWriters(writes[1..]);
      }
    }

    /** The cursor check: it reads the revision table only below the head. */
    method CursorMatches(vaultId: string, vault: VaultRow, cursor: Head) returns (r: bool)
      ensures r <==> SyncCursorMatches(View(), vaultId, vault, cursor)
    {
      if cursor.seqNo > vault.headSeq {
        return false;
      }
      if cursor.seqNo == vault.headSeq {
        return vault.headHash == cursor.hash;
      }
      if cursor.seqNo == 0 {
        return vault.genesisHeadHash == cursor.hash;
      }
      r := exists id :: id in revisions && revisions[id].vaultId == vaultId
                        && revisions[id].change.headSeq == cursor.seqNo
                        && revisions[id].change.headHash == cursor.hash;
    }

    /** The range query, row by row in head_seq order. */
    method SelectRows(vaultId: string, lo: int, hi: int, limit: nat, ghost log: seq<Change>) returns (rows: seq<Change>)
      requires LogStored(View(), vaultId, log) && 0 <= lo <= hi <= |log|
      ensures IsSelection(View(), vaultId, lo, hi, limit, rows)
    {
      rows := [];
      var n := lo;
      while n < hi && |rows| < limit
        invariant lo <= n <= hi && n - lo == |rows| <= limit
        invariant rows == log[lo..n]
      {
        n := n + 1;
        assert EntryStored(View(), vaultId, log[n - 1]);
        var id :| id in revisions && revisions[id].vaultId == vaultId && revisions[id].change.headSeq == n;
        assert IsEntry(log, revisions[id].change);
        rows := rows + [revisions[id].change];
      }
      SliceIsSelection(View(), vaultId, log, lo, hi, limit, n);
    }

    /** A sync request; other writers commit between its three reads. */
    method SyncVault(accountId: string, vaultId: string, cursor: Head, writes1: seq<Write>, writes2: seq<Write>)
      returns (answer: SyncAnswer)
      requires Valid()
      modifies this
      ensures Valid() && ledgers == RunLedgers(RunLedgers(old(ledgers), writes1), writes2)
      ensures answer == AtomicSync(old(ledgers), accountId, vaultId, cursor)
    {
      ghost var db0, ls0 := View(), ledgers;
      var vault := VaultOf(View(), accountId, vaultId);
      if vault.Some? {
        ReadsSeeTheLog(db0, ls0, writes1, writes2, vaultId);
      }
      OtherWriters(writes1);
      var matches := false;
      if vault.Some? && cursor.seqNo >= 0 {
        matches := CursorMatches(vaultId, vault.value, cursor);
      }
      ghost var db1 := View();
      OtherWriters(writes2);
      var rows := [];
      if matches {
        rows := SelectRows(vaultId, cursor.seqNo, vault.value.headSeq, MAX_SYNC_CHANGES_PER_RESPONSE + 1,
                           ledgers[vaultId].log);
        SyncLinearises(db0, ls0, writes1, writes2, rows, accountId, vaultId, cursor);
      }
      answer := Assemble(cursor, vault, matches, rows);
      if vault.Some? && !matches && cursor.seqNo >= 0 {
        CursorCheckIsSimple(vault.value, ls0[vaultId], db1, RunLedgers(ls0, writes1)[vaultId].log, vaultId, cursor);
      }
    }
  }

  /** The response body: truncate to one page, find the head it reaches, push the changes one by one. */
  method Assemble(cursor: Head, vault: Option<VaultRow>, matches: bool, rows: seq<Change>) returns (answer: SyncAnswer)
    ensures answer == if cursor.seqNo < 0 then SyncBadRequest
                      else if vault == None then SyncNotFound
                      else if matches then SyncPage(Respond(vault.value, cursor, rows))
                      else SyncConflict(HeadOfRow(vault.value))
  {
    if cursor.seqNo < 0 {
      return SyncBadRequest;
    }
    if vault == None {
      return SyncNotFound;
    }
    if !matches {
      return SyncConflict(HeadOfRow(vault.value));
    }
    var hasMore := |rows| > MAX_SYNC_CHANGES_PER_RESPONSE;
    var page := rows;
    if hasMore {
      page := page[..MAX_SYNC_CHANGES_PER_RESPONSE];
    }
    var to := HeadOfRow(vault.value);
    if page != [] {
      to := HeadAfter(page[|page| - 1]);
    }
    var changes := [];
    for i := 0 to |page|
      invariant changes == page[..i]
    {
      changes := changes + [page[i]];
    }
    answer := SyncPage(Page(cursor, to, hasMore, changes));
  }

  lemma ReadsSeeTheLog(db0: Db, ls0: Ledgers, writes1: seq<Write>, writes2: seq<Write>, v: string)
    requires Represents(db0, ls0) && v in ls0
    ensures var ls1 := RunLedgers(ls0, writes1);
            var db1, ls2 := Run(db0, writes1), RunLedgers(ls1, writes2);
            && VaultAgrees(db0.vaults[v], ls0[v]) && db0.vaults[v].headSeq == |ls0[v].log|
            && v in ls1 && v in ls2 && ls0[v].log <= ls1[v].log <= ls2[v].log
            && LogStored(db1, v, ls1[v].log) && LogStored(Run(db1, writes2), v, ls2[v].log)
  {
    RepresentsMeansStored(db0, ls0, v);
    HeadOfWellFormed(ls0[v].genesis, ls0[v].log);
    GrownLogStored(db0, ls0, writes1, v);
    RunRefines(db0, ls0, writes1);
    GrownLogStored(Run(db0, writes1), RunLedgers(ls0, writes1), writes2, v);
  }

  lemma SliceIsSelection(db: Db, v: string, log: seq<Change>, lo: nat, hi: nat, limit: nat, n: nat)
    requires LogStored(db, v, log) && lo <= n <= hi <= |log| && n - lo <= limit
    requires n == hi || n - lo == limit
    ensures IsSelection(db, v, lo, hi, limit, log[lo..n])
  {
    var rows := log[lo..n];
    forall i | 0 <= i < |rows|
      ensures rows[i].headSeq == lo + i + 1 && EntryStored(db, v, rows[i])
    {
      assert rows[i] == log[lo + i];
    }
    forall id | id in db.revisions && InRange(db.revisions[id], v, lo, hi)
      ensures || db.revisions[id].change in rows
              || (|rows| == limit && forall i :: 0 <= i < |rows| ==> rows[i].headSeq < db.revisions[id].change.headSeq)
    {
      var ch := db.revisions[id].change;
      assert IsEntry(log, ch);
      if ch.headSeq <= n {
        assert rows[ch.headSeq - 1 - lo] == ch;
      }
    }
  }
}
