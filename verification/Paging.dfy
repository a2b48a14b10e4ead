/** Replaying an honest server's pages: no gap, no repeat, an exact number of requests, no error, and an
    item map that is the server's item index. */
module Paging {
  import opened Results
  import opened Payloads
  import opened Chain
  import opened Checkpoints
  import opened VaultServer
  import opened VaultSync
  import opened Replica

  /** A log whose every entry verifies, numbered 1, 2, 3, ... */
  ghost predicate HonestLog(c: Crypto, vaultId: string, genesis: string, log: seq<Change>) {
    Accepted(c, vaultId, genesis, log) && Numbered(log)
  }

  lemma HeadOfPrefix(c: Crypto, vaultId: string, genesis: string, log: seq<Change>, k: nat)
    requires HonestLog(c, vaultId, genesis, log) && k <= |log|
    ensures HeadOf(genesis, log[..k]).seqNo == k
  {}

  /** The replica has replayed the first k entries, and its checkpoint is proved or still ahead on the log. */
  ghost predicate InStep(c: Crypto, vaultId: string, genesis: string, r: Replica, log: seq<Change>, k: nat) {
    && k <= |log| && HonestLog(c, vaultId, genesis, log) && Holds(c, vaultId, genesis, r, log[..k])
    && (r.checkpoint.Some? && !r.verified ==>
          k < r.checkpoint.value.headSeq <= |log|
          && r.checkpoint.value == CheckpointOf(HeadOf(genesis, log[..r.checkpoint.value.headSeq])))
  }

  lemma Prefixes<T>(s: seq<T>, k: nat)
    requires k <= |s|
    ensures s[..|s|] == s && s[k..|s|] == s[k..]
    ensures k < |s| ==> s[..k + 1] == s[..k] + [s[k]]
  {}

  lemma SliceFirst<T>(s: seq<T>, k: nat, m: nat)
    requires k < m <= |s|
    ensures s[k..m][0] == s[k] && s[k..m][1..] == s[k + 1..m]
  {}

  /** On a log that the checkpoint lies on, moving the head never steps over the checkpoint. */
  lemma MarkOnLog(genesis: string, log: seq<Change>, r: Replica, k: nat)
    requires k <= |log| && r.head == HeadOf(genesis, log[..k]) && r.head.seqNo == k
    requires r.checkpoint.Some? && !r.verified ==>
               k <= r.checkpoint.value.headSeq <= |log|
               && r.checkpoint.value == CheckpointOf(HeadOf(genesis, log[..r.checkpoint.value.headSeq]))
    ensures MarkProgress(r).Ok?
    ensures var r1 := MarkProgress(r).value;
            r1.checkpoint == r.checkpoint && (r1.checkpoint.Some? && !r1.verified ==> k < r1.checkpoint.value.headSeq)
  {}

  lemma ApplyNext(c: Crypto, vaultId: string, genesis: string, r: Replica, log: seq<Change>, k: nat)
    requires InStep(c, vaultId, genesis, r, log, k) && k < |log|
    ensures Apply(c, vaultId, r, log[k]).Ok?
    ensures InStep(c, vaultId, genesis, Apply(c, vaultId, r, log[k]).value, log, k + 1)
    ensures Apply(c, vaultId, r, log[k]).value.checkpoint == r.checkpoint
  {
    VerifyIff(c, vaultId, r.head, log[k]);
    Prefixes(log, k);
    HeadOfPrefix(c, vaultId, genesis, log, k + 1);
    MarkOnLog(genesis, log, r.(head := HeadAfter(log[k]), items := ApplyItem(c, vaultId, r.items, log[k])), k + 1);
    ApplyKeeps(c, vaultId, genesis, r, log[..k], log[k]);
  }

  lemma {:induction false} ApplySlice(c: Crypto, vaultId: string, genesis: string, r: Replica, log: seq<Change>,
                                      k: nat, m: nat)
    requires InStep(c, vaultId, genesis, r, log, k) && k <= m <= |log|
    ensures ApplyAll(c, vaultId, r, log[k..m]).Ok?
    ensures InStep(c, vaultId, genesis, ApplyAll(c, vaultId, r, log[k..m]).value, log, m)
    ensures ApplyAll(c, vaultId, r, log[k..m]).value.checkpoint == r.checkpoint
    decreases m - k
  {
    if k < m {
      ApplyNext(c, vaultId, genesis, r, log, k);
      SliceFirst(log, k, m);
      ApplySlice(c, vaultId, genesis, Apply(c, vaultId, r, log[k]).value, log, k + 1, m);
    }
  }

  lemma GrownPrefix(log: seq<Change>, log': seq<Change>, k: int)
    requires log <= log' && 0 <= k <= |log|
    ensures log'[..k] == log[..k]
  {
  }

  lemma GrownLog(c: Crypto, vaultId: string, genesis: string, r: Replica, log: seq<Change>, log': seq<Change>, k: nat)
    requires InStep(c, vaultId, genesis, r, log, k) && log <= log' && HonestLog(c, vaultId, genesis, log')
    ensures InStep(c, vaultId, genesis, r, log', k)
  {
    GrownPrefix(log, log', k);
    if r.checkpoint.Some? && 0 <= r.checkpoint.value.headSeq <= |log| {
      GrownPrefix(log, log', r.checkpoint.value.headSeq);
    }
  }

  /** One honest page moves the replica to the page's end; on the last page nothing is refused. */
  lemma HonestPage(c: Crypto, vaultId: string, genesis: string, r: Replica, log: seq<Change>, k: nat)
    requires InStep(c, vaultId, genesis, r, log, k)
    ensures var p := PageOf(genesis, log, k);
            && p.from == r.head && ApplyAll(c, vaultId, r, p.changes).Ok?
            && var r1 := ApplyAll(c, vaultId, r, p.changes).value;
            && r1.checkpoint == r.checkpoint && p.to == r1.head
            && InStep(c, vaultId, genesis, r1, log, if p.hasMore then k + MAX_SYNC_CHANGES_PER_RESPONSE else |log|)
            && (!p.hasMore ==> Holds(c, vaultId, genesis, r1, log) && (r1.checkpoint.Some? ==> r1.verified))
  {
    var m := if |log| - k > MAX_SYNC_CHANGES_PER_RESPONSE then k + MAX_SYNC_CHANGES_PER_RESPONSE else |log|;
    ApplySlice(c, vaultId, genesis, r, log, k, m);
    Prefixes(log, k);
  }

  // ----- a fixed log -----

  /** The answers of a server whose log does not change, until one says there is no more. */
  function FixedPages(genesis: string, log: seq<Change>, k: nat): seq<Page>
    requires k <= |log|
    decreases |log| - k
  {
    var p := PageOf(genesis, log, k);
    [p] + if p.hasMore then FixedPages(genesis, log, k + MAX_SYNC_CHANGES_PER_RESPONSE) else []
  }

  function RequestsFor(entries: nat): nat {
    if entries == 0 then 1 else (entries + MAX_SYNC_CHANGES_PER_RESPONSE - 1) / MAX_SYNC_CHANGES_PER_RESPONSE
  }

  lemma FixedPagesFirst(genesis: string, log: seq<Change>, k: nat)
    requires k <= |log|
    ensures var pages, p := FixedPages(genesis, log, k), PageOf(genesis, log, k);
            && pages != [] && pages[0] == p
            && pages[1..] == if p.hasMore then FixedPages(genesis, log, k + MAX_SYNC_CHANGES_PER_RESPONSE) else []
  {}

  lemma SliceJoins<T>(s: seq<T>, k: nat, m: nat)
    requires k <= m <= |s|
    ensures s[k..m] + s[m..] == s[k..]
  {}

  /** The pages put end to end are exactly the entries after k, in max(1, ceil((n - k) / 500)) requests. */
  lemma {:induction false} PagesCoverLog(genesis: string, log: seq<Change>, k: nat)
    requires k <= |log|
    ensures Received(FixedPages(genesis, log, k)) == log[k..]
    ensures |FixedPages(genesis, log, k)| == RequestsFor(|log| - k)
    decreases |log| - k
  {
    FixedPagesFirst(genesis, log, k);
    ReceivedFirst([], FixedPages(genesis, log, k));
    if PageOf(genesis, log, k).hasMore {
      var m := k + MAX_SYNC_CHANGES_PER_RESPONSE;
      PagesCoverLog(genesis, log, m);
      SliceJoins(log, k, m);
    }
  }

  /** Against a fixed honest log the loop ends after exactly those requests, at the end of the log. */
  lemma {:induction false} FixedLogSync(c: Crypto, vaultId: string, genesis: string, r: Replica, log: seq<Change>,
                                        k: nat, rest: seq<Page>)
    requires InStep(c, vaultId, genesis, r, log, k)
    ensures var out := Replay(c, vaultId, r, FixedPages(genesis, log, k) + rest);
            && out.result.Ok? && out.requests == RequestsFor(|log| - k)
            && Holds(c, vaultId, genesis, out.result.value, log)
            && out.result.value.checkpoint == r.checkpoint
            && (r.checkpoint.Some? ==> out.result.value.verified)
    decreases |log| - k
  {
    var p := PageOf(genesis, log, k);
    HonestPage(c, vaultId, genesis, r, log, k);
    FixedPagesWithRest(genesis, log, k, rest);
    var r1 := ApplyAll(c, vaultId, r, p.changes).value;
    ReplayUnfolds(c, vaultId, r, FixedPages(genesis, log, k) + rest, r1);
    if p.hasMore {
      FixedLogSync(c, vaultId, genesis, r1, log, k + MAX_SYNC_CHANGES_PER_RESPONSE, rest);
    }
  }

  lemma RequestsStep(n: nat)
    ensures RequestsFor(n) ==
            if n > MAX_SYNC_CHANGES_PER_RESPONSE then RequestsFor(n - MAX_SYNC_CHANGES_PER_RESPONSE) + 1 else 1
  {}

  lemma HeadOfPages(pages: seq<Page>, rest: seq<Page>)
    requires pages != []
    ensures (pages + rest)[0] == pages[0] && (pages + rest)[1..] == pages[1..] + rest
  {}

  lemma FixedPagesWithRest(genesis: string, log: seq<Change>, k: nat, rest: seq<Page>)
    requires k <= |log|
    ensures var pages, p := FixedPages(genesis, log, k) + rest, PageOf(genesis, log, k);
            && pages != [] && pages[0] == p
            && pages[1..] ==
               (if p.hasMore then FixedPages(genesis, log, k + MAX_SYNC_CHANGES_PER_RESPONSE) else []) + rest
    ensures RequestsFor(|log| - k) ==
            if PageOf(genesis, log, k).hasMore then RequestsFor(|log| - (k + MAX_SYNC_CHANGES_PER_RESPONSE)) + 1 else 1
  {
    FixedPagesFirst(genesis, log, k);
    HeadOfPages(FixedPages(genesis, log, k), rest);
    RequestsStep(|log| - k);
  }

  lemma ReplayUnfolds(c: Crypto, vaultId: string, r: Replica, pages: seq<Page>, r1: Replica)
    requires pages != [] && pages[0].from == r.head && ApplyAll(c, vaultId, r, pages[0].changes) == Ok(r1)
    requires !pages[0].hasMore ==> pages[0].to == r1.head && (r1.checkpoint.Some? ==> r1.verified)
    ensures var rest := Replay(c, vaultId, r1, pages[1..]);
            Replay(c, vaultId, r, pages) ==
            if pages[0].hasMore then Replayed(rest.result, rest.requests + 1) else Replayed(Ok(r1), 1)
  {}

  // ----- the item map -----

  /** What the entry's envelope opens to under the associated data of its own vault, item, revision and base. */
  function Opened(c: Crypto, vaultId: string, e: Change): Option<string> {
    c.open(AadText(ChangePayload(e.operation, vaultId, e.itemId, e.revisionId, 0, 0, e.baseRevisionSeq, e.baseHeadSeq,
                                 "", "", "", e.envelope.keyId)),
           e.envelope)
  }

  lemma OpenedIsPlaintext(c: Crypto, vaultId: string, e: Change)
    ensures Plaintext(c, vaultId, e) == Opened(c, vaultId, e)
  {
    AadTextBinds(PayloadOf(vaultId, e, ""),
                 ChangePayload(e.operation, vaultId, e.itemId, e.revisionId, 0, 0, e.baseRevisionSeq, e.baseHeadSeq,
                               "", "", "", e.envelope.keyId));
  }

  /** The item map of a log holds each item's last entry with the text it opens to, unless that entry deleted it. */
  lemma {:induction false} FoldIsLastEntries(c: Crypto, vaultId: string, log: seq<Change>, itemId: string)
    ensures var last := LastOf(log, itemId);
            if last.Some? && last.value.operation != "delete"
            then itemId in Fold(c, vaultId, log)
                 && Fold(c, vaultId, log)[itemId].itemId == itemId
                 && Fold(c, vaultId, log)[itemId].revisionId == last.value.revisionId
                 && Fold(c, vaultId, log)[itemId].revisionSeq == last.value.revisionSeq
                 && Fold(c, vaultId, log)[itemId].headSeq == last.value.headSeq
            else itemId !in Fold(c, vaultId, log)
    ensures var last := LastOf(log, itemId);
            last.Some? && last.value.operation != "delete" && Opened(c, vaultId, last.value).Some? ==>
              Opened(c, vaultId, last.value) == Some(Fold(c, vaultId, log)[itemId].fields)
  {
    if log != [] {
      OpenedIsPlaintext(c, vaultId, log[|log| - 1]);
      FoldIsLastEntries(c, vaultId, log[..|log| - 1], itemId);
    }
  }

  /** The revision that an item's index row points at. */
  function LatestRow(db: Db, itemId: string): Option<RevisionRow> {
    if itemId in db.items && db.items[itemId].latestRevisionId.Some?
       && db.items[itemId].latestRevisionId.value in db.revisions
    then Some(db.revisions[db.items[itemId].latestRevisionId.value])
    else None
  }

  lemma LatestRowIsLast(db: Db, ls: Ledgers, v: string, itemId: string)
    requires Represents(db, ls) && v in ls && itemId in db.items && db.items[itemId].vaultId == v
    ensures LastOf(ls[v].log, itemId).Some?
    ensures LatestRow(db, itemId) == Some(RevisionRow(v, LastOf(ls[v].log, itemId).value))
  {
    ItemRowIff(db, ls, v, itemId);
    var k := LastIndex(ls[v].log, itemId);
    assert EntryStored(db, v, ls[v].log[k]);
  }

  /** A replica at the server's head holds exactly the live rows of the item table, at their latest revisions, each with
      the text that revision's stored envelope opens to. */
  lemma ItemsAreLiveRows(c: Crypto, vaultId: string, db: Db, ls: Ledgers, r: Replica, itemId: string)
    requires Represents(db, ls) && vaultId in ls && Holds(c, vaultId, ls[vaultId].genesis, r, ls[vaultId].log)
    ensures itemId in r.items <==>
            itemId in db.items && db.items[itemId].vaultId == vaultId && !db.items[itemId].deleted
    ensures itemId in r.items ==>
              && db.items[itemId].latestRevisionId == Some(r.items[itemId].revisionId)
              && db.items[itemId].latestRevisionSeq == r.items[itemId].revisionSeq
    ensures itemId in r.items ==>
              && LatestRow(db, itemId).Some?
              && Opened(c, vaultId, LatestRow(db, itemId).value.change) == Some(r.items[itemId].fields)
  {
    var log := ls[vaultId].log;
    ItemRowIff(db, ls, vaultId, itemId);
    FoldIsLastEntries(c, vaultId, log, itemId);
    if itemId in r.items {
      LatestRowIsLast(db, ls, vaultId, itemId);
      LastOpens(c, vaultId, ls[vaultId].genesis, log, itemId);
    }
  }

  /** In an accepted log every entry opens. */
  lemma LastOpens(c: Crypto, vaultId: string, genesis: string, log: seq<Change>, itemId: string)
    requires Accepted(c, vaultId, genesis, log) && LastOf(log, itemId).Some?
    ensures Opened(c, vaultId, LastOf(log, itemId).value).Some?
  {
    var k := LastIndex(log, itemId);
    assert Authentic(c, vaultId, log[k]);
    OpenedIsPlaintext(c, vaultId, log[k]);
  }

  /** What every tab shows of an item: the text of its last entry, or nothing once that entry deleted it. */
  lemma ItemShowsLastText(c: Crypto, vaultId: string, genesis: string, log: seq<Change>, r: Replica, itemId: string,
                          e: Change)
    requires Holds(c, vaultId, genesis, r, log) && LastOf(log, itemId) == Some(e)
    ensures e.operation == "delete" ==> itemId !in r.items
    ensures e.operation != "delete" ==>
              itemId in r.items && Opened(c, vaultId, e) == Some(r.items[itemId].fields)
              && r.items[itemId].revisionId == e.revisionId && r.items[itemId].revisionSeq == e.revisionSeq
  {
    FoldIsLastEntries(c, vaultId, log, itemId);
    LastOpens(c, vaultId, genesis, log, itemId);
  }
}
