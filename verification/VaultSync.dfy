/** Serving the log: the three reads of one sync request, other writers committing in between. */
module VaultSync {
  import opened Results
  import opened Chain
  import opened VaultServer

  const MAX_SYNC_CHANGES_PER_RESPONSE := 500

  datatype Page = Page(from: Head, to: Head, hasMore: bool, changes: seq<Change>)

  datatype SyncAnswer = SyncPage(page: Page) | SyncConflict(current: Head) | SyncNotFound | SyncBadRequest

  // ----- what one request should mean -----

  /** The next 500 entries after position k, or all that are left. */
  function PageOf(genesis: string, log: seq<Change>, k: nat): (p: Page)
    requires k <= |log|
  {
    var from := HeadOf(genesis, log[..k]);
    if |log| - k > MAX_SYNC_CHANGES_PER_RESPONSE then
      var m := k + MAX_SYNC_CHANGES_PER_RESPONSE;
      Page(from, HeadOf(genesis, log[..m]), true, log[k..m])
    else
      Page(from, HeadOf(genesis, log), false, log[k..])
  }

  /** The simple test: the hash is the log's hash at that sequence number. */
  predicate CursorOnLog(genesis: string, log: seq<Change>, cursor: Head) {
    0 <= cursor.seqNo <= |log| && HeadOf(genesis, log[..cursor.seqNo]).hash == cursor.hash
  }

  /** A sync computed in one instant. */
  function AtomicSync(ls: Ledgers, accountId: string, vaultId: string, cursor: Head): SyncAnswer {
    if cursor.seqNo < 0 then SyncBadRequest
    else if vaultId !in ls || ls[vaultId].accountId != accountId then SyncNotFound
    else
      var l := ls[vaultId];
      if CursorOnLog(l.genesis, l.log, cursor) then SyncPage(PageOf(l.genesis, l.log, cursor.seqNo))
      else SyncConflict(HeadOf(l.genesis, l.log))
  }

  /** The head was this one at some time. */
  ghost predicate WasHead(l: Ledger, head: Head) {
    exists k :: 0 <= k <= |l.log| && HeadOf(l.genesis, l.log[..k]) == head
  }

  lemma CursorIsPastHead(l: Ledger, cursor: Head)
    requires WellFormedLog(l.genesis, l.log)
    ensures CursorOnLog(l.genesis, l.log, cursor) <==> WasHead(l, cursor)
    ensures forall k :: 0 <= k <= |l.log| && HeadOf(l.genesis, l.log[..k]) == cursor ==> k == cursor.seqNo
  {
    forall k | 0 <= k <= |l.log| ensures HeadOf(l.genesis, l.log[..k]).seqNo == k {
      if k > 0 {
        WellFormedChain(l.genesis, l.log, k - 1);
      }
    }
  }

  /** What a client may rely on: a page exactly for the caller's own vault and a cursor that was its head at some time,
      holding up to 500 of the entries after that head in order and the head they lead to, with more to come exactly
      when entries are left; for any other cursor the current head. */
  lemma SyncServes(ls: Ledgers, accountId: string, v: string, cursor: Head)
    requires v in ls ==> WellFormedLog(ls[v].genesis, ls[v].log)
    ensures var answer, mine := AtomicSync(ls, accountId, v, cursor), v in ls && ls[v].accountId == accountId;
            && (answer == SyncBadRequest <==> cursor.seqNo < 0)
            && (answer == SyncNotFound <==> cursor.seqNo >= 0 && !mine)
            && (answer.SyncPage? <==> mine && WasHead(ls[v], cursor))
            && (answer.SyncConflict? ==> answer.current == HeadOf(ls[v].genesis, ls[v].log))
            && (answer.SyncPage? ==>
                  && 0 <= cursor.seqNo <= |ls[v].log| && answer.page.from == cursor
                  && var log, k := ls[v].log, cursor.seqNo;
                     var m := if k + 500 < |log| then k + 500 else |log|;
                     answer.page == Page(cursor, HeadOf(ls[v].genesis, log[..m]), m < |log|, log[k..m]))
  {
    if v in ls {
      var log := ls[v].log;
      CursorIsPastHead(ls[v], cursor);
      assert log[..|log|] == log;
      if 0 <= cursor.seqNo <= |log| {
        assert log[cursor.seqNo..|log|] == log[cursor.seqNo..];
      }
    }
  }

  // ----- what the handler does -----

  /** The three branches of the cursor check; the last one reads the revision table. */
  ghost predicate SyncCursorMatches(db: Db, vaultId: string, vault: VaultRow, cursor: Head) {
    if cursor.seqNo > vault.headSeq then false
    else if cursor.seqNo == vault.headSeq then vault.headHash == cursor.hash
    else if cursor.seqNo == 0 then vault.genesisHeadHash == cursor.hash
    else exists id :: id in db.revisions && db.revisions[id].vaultId == vaultId
                      && db.revisions[id].change.headSeq == cursor.seqNo
                      && db.revisions[id].change.headHash == cursor.hash
  }

  predicate InRange(row: RevisionRow, vaultId: string, lo: int, hi: int) {
    row.vaultId == vaultId && lo < row.change.headSeq <= hi
  }

  /** The meaning of the range query: ascending, only matching rows, at most `limit`, and none left out
      unless `limit` earlier ones were returned. */
  ghost predicate IsSelection(db: Db, vaultId: string, lo: int, hi: int, limit: nat, rows: seq<Change>) {
    && |rows| <= limit
    && (forall i, j :: 0 <= i < j < |rows| ==> rows[i].headSeq < rows[j].headSeq)
    && (forall i :: 0 <= i < |rows| ==>
                      rows[i].revisionId in db.revisions && db.revisions[rows[i].revisionId].change == rows[i]
                      && InRange(db.revisions[rows[i].revisionId], vaultId, lo, hi))
    && (forall id :: id in db.revisions && InRange(db.revisions[id], vaultId, lo, hi) ==>
                       || db.revisions[id].change in rows
                       || (|rows| == limit && forall i :: 0 <= i < |rows| ==>
                             rows[i].headSeq < db.revisions[id].change.headSeq))
  }

  /** Truncation to one page, and the head it reaches. */
  function Respond(vault: VaultRow, cursor: Head, rows: seq<Change>): Page {
    var hasMore := |rows| > MAX_SYNC_CHANGES_PER_RESPONSE;
    var page := if hasMore then rows[..MAX_SYNC_CHANGES_PER_RESPONSE] else rows;
    Page(cursor, if page != [] then HeadAfter(page[|page| - 1]) else HeadOfRow(vault), hasMore, page)
  }

  /** The handler's answer when its reads see the tables db0, db1 and the selected rows. */
  ghost function ThreeReads(db0: Db, db1: Db, rows: seq<Change>, accountId: string, vaultId: string, cursor: Head):
    SyncAnswer
  {
    if cursor.seqNo < 0 then SyncBadRequest
    else
      match VaultOf(db0, accountId, vaultId)
      case None => SyncNotFound
      case Some(vault) =>
        if SyncCursorMatches(db1, vaultId, vault, cursor) then SyncPage(Respond(vault, cursor, rows))
        else SyncConflict(HeadOfRow(vault))
  }

  // ----- they agree -----

  /** The revision table holds exactly this log for the vault. */
  ghost predicate LogStored(db: Db, v: string, log: seq<Change>) {
    && (forall i :: 0 <= i < |log| ==> EntryStored(db, v, log[i]) && log[i].headSeq == i + 1)
    && (forall id :: id in db.revisions && db.revisions[id].vaultId == v ==> IsEntry(log, db.revisions[id].change))
  }

  predicate IsEntry(log: seq<Change>, ch: Change) {
    1 <= ch.headSeq <= |log| && log[ch.headSeq - 1] == ch
  }

  lemma RepresentsMeansStored(db: Db, ls: Ledgers, v: string)
    requires Represents(db, ls) && v in ls
    ensures VaultAgrees(db.vaults[v], ls[v]) && LogStored(db, v, ls[v].log)
  {
    assert VaultAgrees(db.vaults[v], ls[v]);
    forall i | 0 <= i < |ls[v].log| ensures EntryStored(db, v, ls[v].log[i]) && ls[v].log[i].headSeq == i + 1 {
      WellFormedChain(ls[v].genesis, ls[v].log, i);
    }
    forall id | id in db.revisions && db.revisions[id].vaultId == v
      ensures IsEntry(ls[v].log, db.revisions[id].change)
    {
      assert RowLogged(ls, id, db.revisions[id]);
    }
  }

  /** A stored revision at place n of the log is the log's entry there. */
  lemma StoredAt(db: Db, v: string, log: seq<Change>, n: nat, hash: string)
    requires LogStored(db, v, log) && 0 < n <= |log|
    ensures (exists id :: id in db.revisions && db.revisions[id].vaultId == v
                          && db.revisions[id].change.headSeq == n && db.revisions[id].change.headHash == hash)
            <==> log[n - 1].headHash == hash
  {
    assert EntryStored(db, v, log[n - 1]);
    forall id | id in db.revisions && db.revisions[id].vaultId == v && db.revisions[id].change.headSeq == n
      ensures db.revisions[id].change == log[n - 1]
    {
      assert IsEntry(log, db.revisions[id].change);
    }
  }

  /** The three-branch cursor check is the simple test on the log as it was at the first read. */
  lemma CursorCheckIsSimple(row: VaultRow, ledger: Ledger, db1: Db, log1: seq<Change>, v: string, cursor: Head)
    requires VaultAgrees(row, ledger) && LogStored(db1, v, log1) && ledger.log <= log1 && cursor.seqNo >= 0
    ensures SyncCursorMatches(db1, v, row, cursor) <==> CursorOnLog(ledger.genesis, ledger.log, cursor)
  {
    var log, n := ledger.log, cursor.seqNo;
    HeadOfWellFormed(ledger.genesis, log);
    if n == |log| {
      assert log[..n] == log;
    } else if 0 < n < |log| {
      assert log[..n][n - 1] == log[n - 1] == log1[n - 1];
      StoredAt(db1, v, log1, n, cursor.hash);
    }
  }

  /** Returned rows are entries of the log, consecutive from lo + 1 on. */
  lemma {:induction false} SelectionIsDense(db: Db, v: string, log: seq<Change>, lo: nat, hi: nat, limit: nat,
                                            rows: seq<Change>, n: nat)
    requires LogStored(db, v, log) && lo <= hi <= |log|
    requires IsSelection(db, v, lo, hi, limit, rows) && n <= |rows|
    ensures lo + n <= hi && rows[..n] == log[lo..lo + n]
  {
    if n > 0 {
      SelectionIsDense(db, v, log, lo, hi, limit, rows, n - 1);
      RowFits(db, v, log, lo, hi, limit, rows, n);
      NextRowComes(db, v, log, lo, hi, limit, rows, n - 1);
      SlicesGrow(rows, log, lo, n);
    }
  }

  /** A row after n - 1 consecutive ones still lies in the range. */
  lemma RowFits(db: Db, v: string, log: seq<Change>, lo: nat, hi: nat, limit: nat, rows: seq<Change>, n: nat)
    requires LogStored(db, v, log) && lo + n - 1 <= hi <= |log| && 0 < n <= |rows|
    requires IsSelection(db, v, lo, hi, limit, rows) && rows[..n - 1] == log[lo..lo + n - 1]
    ensures lo + n <= hi
  {
    var got := rows[n - 1];
    assert IsEntry(log, got) && InRange(db.revisions[got.revisionId], v, lo, hi);
    if n > 1 {
      assert rows[..n - 1][n - 2] == rows[n - 2] && log[lo..lo + n - 1][n - 2] == log[lo + n - 2];
    }
  }

  lemma SlicesGrow(rows: seq<Change>, log: seq<Change>, lo: nat, n: nat)
    requires 0 < n <= |rows| && lo + n <= |log|
    requires rows[..n - 1] == log[lo..lo + n - 1] && rows[n - 1] == log[lo + n - 1]
    ensures rows[..n] == log[lo..lo + n]
  {
    assert rows[..n] == rows[..n - 1] + [rows[n - 1]];
    assert log[lo..lo + n] == log[lo..lo + n - 1] + [log[lo + n - 1]];
  }

  lemma RowNumbers(db: Db, v: string, log: seq<Change>, lo: nat, hi: nat, limit: nat, rows: seq<Change>, n: nat)
    requires LogStored(db, v, log) && lo + n < hi <= |log|
    requires IsSelection(db, v, lo, hi, limit, rows) && n <= |rows| && rows[..n] == log[lo..lo + n]
    ensures forall i :: 0 <= i < n ==> rows[i].headSeq == lo + i + 1
    ensures n < |rows| ==> rows[n].headSeq >= lo + n + 1
  {
    forall i | 0 <= i < n ensures rows[i].headSeq == lo + i + 1 {
      assert rows[i] == rows[..n][i] == log[lo + i];
    }
    if n < |rows| {
      assert InRange(db.revisions[rows[n].revisionId], v, lo, hi);
    }
  }

  /** After the first n rows the next matching entry cannot be skipped. */
  lemma NextRowComes(db: Db, v: string, log: seq<Change>, lo: nat, hi: nat, limit: nat, rows: seq<Change>, n: nat)
    requires LogStored(db, v, log) && lo + n < hi <= |log|
    requires IsSelection(db, v, lo, hi, limit, rows) && n <= |rows| && rows[..n] == log[lo..lo + n]
    ensures n < limit ==> n < |rows| && rows[n] == log[lo + n]
  {
    RowNumbers(db, v, log, lo, hi, limit, rows, n);
    var want := log[lo + n];
    assert EntryStored(db, v, want) && InRange(db.revisions[want.revisionId], v, lo, hi);
    if want in rows {
      var k :| 0 <= k < |rows| && rows[k] == want;
      assert k == n;
    }
  }

  /** The range query returns a slice of the log. */
  lemma SelectionIsSlice(db: Db, v: string, log: seq<Change>, lo: nat, hi: nat, limit: nat, rows: seq<Change>)
    requires LogStored(db, v, log) && lo <= hi <= |log|
    requires IsSelection(db, v, lo, hi, limit, rows)
    ensures rows == log[lo..if hi - lo <= limit then hi else lo + limit]
  {
    SelectionIsDense(db, v, log, lo, hi, limit, rows, |rows|);
    assert rows[..|rows|] == rows;
    if lo + |rows| < hi {
      NextRowComes(db, v, log, lo, hi, limit, rows, |rows|);
    }
  }

  lemma CursorIsHead(row: VaultRow, ledger: Ledger, cursor: Head)
    requires VaultAgrees(row, ledger) && CursorOnLog(ledger.genesis, ledger.log, cursor)
    ensures row.headSeq == |ledger.log|
    ensures HeadOf(ledger.genesis, ledger.log[..cursor.seqNo]) == cursor
  {
    HeadOfWellFormed(ledger.genesis, ledger.log);
    if cursor.seqNo > 0 {
      WellFormedChain(ledger.genesis, ledger.log, cursor.seqNo - 1);
    }
  }

  lemma RespondIsPage(row: VaultRow, ledger: Ledger, db2: Db, log2: seq<Change>, rows: seq<Change>, v: string,
                      cursor: Head)
    requires VaultAgrees(row, ledger) && LogStored(db2, v, log2) && ledger.log <= log2
    requires CursorOnLog(ledger.genesis, ledger.log, cursor)
    requires IsSelection(db2, v, cursor.seqNo, row.headSeq, MAX_SYNC_CHANGES_PER_RESPONSE + 1, rows)
    ensures Respond(row, cursor, rows) == PageOf(ledger.genesis, ledger.log, cursor.seqNo)
  {
    CursorIsHead(row, ledger, cursor);
    SelectionIsSlice(db2, v, log2, cursor.seqNo, |ledger.log|, MAX_SYNC_CHANGES_PER_RESPONSE + 1, rows);
    SliceIsPage(row, ledger, log2, rows, cursor);
  }

  lemma PrefixSlice(log: seq<Change>, log2: seq<Change>, k: nat, m: nat)
    requires log <= log2 && k <= m <= |log|
    ensures log2[k..m] == log[k..m]
    ensures k < m ==> log[k..m][m - k - 1] == log[m - 1] == log[..m][m - 1]
    ensures m == |log| ==> log[k..m] == log[k..]
  {
  }

  lemma TruncatedSlice(log: seq<Change>, k: nat, m: nat, to: nat)
    requires k <= m <= to <= |log|
    ensures log[k..to][..m - k] == log[k..m]
  {
  }

  lemma LastOfSlice(genesis: string, log: seq<Change>, k: nat)
    requires k <= |log|
    ensures log[k..] != [] ==> HeadOf(genesis, log) == HeadAfter(log[k..][|log[k..]| - 1])
  {
  }

  lemma LastPage(row: VaultRow, ledger: Ledger, log2: seq<Change>, cursor: Head)
    requires VaultAgrees(row, ledger) && ledger.log <= log2
    requires |ledger.log| - MAX_SYNC_CHANGES_PER_RESPONSE <= cursor.seqNo && 0 <= cursor.seqNo <= |ledger.log|
    requires HeadOf(ledger.genesis, ledger.log[..cursor.seqNo]) == cursor
    ensures Respond(row, cursor, log2[cursor.seqNo..|ledger.log|]) == PageOf(ledger.genesis, ledger.log, cursor.seqNo)
  {
    var log, k, n := ledger.log, cursor.seqNo, |ledger.log|;
    PrefixSlice(log, log2, k, n);
    LastRows(row, ledger, cursor, log[k..]);
  }

  lemma LastRows(row: VaultRow, ledger: Ledger, cursor: Head, rows: seq<Change>)
    requires HeadOfRow(row) == HeadOf(ledger.genesis, ledger.log) && 0 <= cursor.seqNo <= |ledger.log|
    requires rows == ledger.log[cursor.seqNo..] && |rows| <= MAX_SYNC_CHANGES_PER_RESPONSE
    ensures Respond(row, cursor, rows) == Page(cursor, HeadOf(ledger.genesis, ledger.log), false, rows)
  {
    LastOfSlice(ledger.genesis, ledger.log, cursor.seqNo);
  }

  lemma FullPage(row: VaultRow, ledger: Ledger, log2: seq<Change>, cursor: Head, to: nat)
    requires ledger.log <= log2 && to <= |ledger.log|
    requires 0 <= cursor.seqNo && to == cursor.seqNo + MAX_SYNC_CHANGES_PER_RESPONSE + 1
    requires HeadOf(ledger.genesis, ledger.log[..cursor.seqNo]) == cursor
    ensures Respond(row, cursor, log2[cursor.seqNo..to]) == PageOf(ledger.genesis, ledger.log, cursor.seqNo)
  {
    var k, m := cursor.seqNo, cursor.seqNo + MAX_SYNC_CHANGES_PER_RESPONSE;
    TruncatedSlice(log2, k, m, to);
    PrefixSlice(ledger.log, log2, k, m);
  }

  lemma SliceIsPage(row: VaultRow, ledger: Ledger, log2: seq<Change>, rows: seq<Change>, cursor: Head)
    requires VaultAgrees(row, ledger) && ledger.log <= log2
    requires 0 <= cursor.seqNo <= |ledger.log| && HeadOf(ledger.genesis, ledger.log[..cursor.seqNo]) == cursor
    requires var k, n, limit := cursor.seqNo, |ledger.log|, MAX_SYNC_CHANGES_PER_RESPONSE + 1;
             rows == log2[k..if n - k <= limit then n else k + limit]
    ensures Respond(row, cursor, rows) == PageOf(ledger.genesis, ledger.log, cursor.seqNo)
  {
    if |ledger.log| - cursor.seqNo <= MAX_SYNC_CHANGES_PER_RESPONSE {
      LastPage(row, ledger, log2, cursor);
    } else {
      FullPage(row, ledger, log2, cursor, cursor.seqNo + MAX_SYNC_CHANGES_PER_RESPONSE + 1);
    }
  }

  /** One response equals one computed atomically at the head read, whatever commits between the reads. */
  lemma SyncLinearises(db0: Db, ls0: Ledgers, writes1: seq<Write>, writes2: seq<Write>, rows: seq<Change>,
                       accountId: string, v: string, cursor: Head)
    requires Represents(db0, ls0)
    requires v in db0.vaults ==>
               IsSelection(Run(Run(db0, writes1), writes2), v, cursor.seqNo, db0.vaults[v].headSeq,
                           MAX_SYNC_CHANGES_PER_RESPONSE + 1, rows)
    ensures ThreeReads(db0, Run(db0, writes1), rows, accountId, v, cursor) == AtomicSync(ls0, accountId, v, cursor)
  {
    if v in ls0 {
      var db1, ls1 := Run(db0, writes1), RunLedgers(ls0, writes1);
      RepresentsMeansStored(db0, ls0, v);
      GrownLogStored(db0, ls0, writes1, v);
      GrownLogStored(db1, ls1, writes2, v) by { RunRefines(db0, ls0, writes1); }
      ThreeReadsAgree(db0, ls0, db1, ls1[v].log, Run(db1, writes2), RunLedgers(ls1, writes2)[v].log,
                      rows, accountId, v, cursor);
    } else {
      assert v !in db0.vaults;
    }
  }

  lemma GrownLogStored(db: Db, ls: Ledgers, writes: seq<Write>, v: string)
    requires Represents(db, ls) && v in ls
    ensures v in RunLedgers(ls, writes)
    ensures ls[v].log <= RunLedgers(ls, writes)[v].log
    ensures LogStored(Run(db, writes), v, RunLedgers(ls, writes)[v].log)
  {
    RunRefines(db, ls, writes);
    RepresentsMeansStored(Run(db, writes), RunLedgers(ls, writes), v);
  }

  lemma ThreeReadsAgree(db0: Db, ls0: Ledgers, db1: Db, log1: seq<Change>, db2: Db, log2: seq<Change>,
                        rows: seq<Change>, accountId: string, v: string, cursor: Head)
    requires v in ls0 && v in db0.vaults && VaultAgrees(db0.vaults[v], ls0[v])
    requires LogStored(db1, v, log1) && LogStored(db2, v, log2) && ls0[v].log <= log1 <= log2
    requires IsSelection(db2, v, cursor.seqNo, db0.vaults[v].headSeq, MAX_SYNC_CHANGES_PER_RESPONSE + 1, rows)
    ensures ThreeReads(db0, db1, rows, accountId, v, cursor) == AtomicSync(ls0, accountId, v, cursor)
  {
    if cursor.seqNo >= 0 {
      CursorCheckIsSimple(db0.vaults[v], ls0[v], db1, log1, v, cursor);
      if CursorOnLog(ls0[v].genesis, ls0[v].log, cursor) {
        RespondIsPage(db0.vaults[v], ls0[v], db2, log2, rows, v, cursor);
      }
    }
  }
}
