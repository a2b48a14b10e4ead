/** The unlocked vault in one browser tab, as a value: what verifying a change, replaying a sync and
    unlocking compute, and what an accepted history guarantees whatever the server answered. */
module Replica {
  import opened Results
  import opened Payloads
  import opened Chain
  import opened Checkpoints
  import opened VaultSync

  datatype ClientError =
    | ChainBroken | UnsupportedEnvelope | EnvelopeHashMismatch | ChangeMacMismatch | HeadHashMismatch
    | DecryptFailed | RollbackOrFork | NotFromLocalHead | HeadMismatch | CheckpointNotReached
    | CheckpointRefused(why: PersistError) | InvalidServerHead | ServerBehindCheckpoint | ServerForkedCheckpoint
    | ServerRefused | ServerFailed

  /** `checkpoint` is what storage held when this vault was unlocked. */
  datatype Replica = Replica(head: Head, checkpoint: Option<Checkpoint>, verified: bool, items: Items)

  function CheckpointOf(head: Head): Checkpoint {
    Checkpoint(head.seqNo, head.hash)
  }

  // ----- one change -----

  /** The checks on one change, in the order they are made. */
  function Verify(c: Crypto, vaultId: string, head: Head, ch: Change): Option<ClientError> {
    if !Extends(head, ch) then Some(ChainBroken)
    else if !Supported(ch.envelope) then Some(UnsupportedEnvelope)
    else if ExpectedEnvelopeHash(c, ch.envelope) != ch.envelopeHash then Some(EnvelopeHashMismatch)
    else if ExpectedMac(c, vaultId, ch) != ch.changeMac then Some(ChangeMacMismatch)
    else if ExpectedHeadHash(c, vaultId, ch) != ch.headHash then Some(HeadHashMismatch)
    else if Plaintext(c, vaultId, ch).None? then Some(DecryptFailed)
    else None
  }

  /** Passing the stored checkpoint proves it; stepping over it is a rollback or a fork. */
  function MarkProgress(r: Replica): Result<Replica, ClientError> {
    if r.checkpoint.None? || r.verified || r.head.seqNo < r.checkpoint.value.headSeq then Ok(r)
    else if CheckpointOf(r.head) == r.checkpoint.value then Ok(r.(verified := true))
    else Err(RollbackOrFork)
  }

  function Apply(c: Crypto, vaultId: string, r: Replica, ch: Change): Result<Replica, ClientError> {
    match Verify(c, vaultId, r.head, ch)
    case Some(e) => Err(e)
    case None => MarkProgress(r.(head := HeadAfter(ch), items := ApplyItem(c, vaultId, r.items, ch)))
  }

  function ApplyAll(c: Crypto, vaultId: string, r: Replica, changes: seq<Change>): Result<Replica, ClientError>
    decreases changes
  {
    if changes == [] then Ok(r)
    else
      match Apply(c, vaultId, r, changes[0])
      case Err(e) => Err(e)
      case Ok(r1) => ApplyAll(c, vaultId, r1, changes[1..])
  }

  // ----- a sync -----

  datatype Replayed = Replayed(result: Result<Replica, ClientError>, requests: nat)

  /** Replaying pages until one says there is no more; `pages` are whatever the server answers. */
  function Replay(c: Crypto, vaultId: string, r: Replica, pages: seq<Page>): Replayed
    decreases pages
  {
    if pages == [] then Replayed(Err(ServerFailed), 0)
    else
      var p := pages[0];
      if p.from != r.head then Replayed(Err(NotFromLocalHead), 1)
      else
        match ApplyAll(c, vaultId, r, p.changes)
        case Err(e) => Replayed(Err(e), 1)
        case Ok(r1) =>
          if p.hasMore then
            var rest := Replay(c, vaultId, r1, pages[1..]);
            Replayed(rest.result, rest.requests + 1)
          else if p.to != r1.head then Replayed(Err(HeadMismatch), 1)
          else if r1.checkpoint.Some? && !r1.verified then Replayed(Err(CheckpointNotReached), 1)
          else Replayed(Ok(r1), 1)
  }

  datatype Synced = Synced(replica: Replica, store: Store, error: Option<ClientError>)

  function PersistHead(c: Crypto, before: Replica, after: Replica, store: Store, disk: Disk): Synced {
    var p := Persist(store, CheckpointOf(after.head), c.isHash, disk);
    match p.error
    case Some(e) => Synced(before, p.store, Some(CheckpointRefused(e)))
    case None => Synced(after, p.store, None)
  }

  /** A whole sync: on any failure the replica is the one from before. */
  function Sync(c: Crypto, vaultId: string, r: Replica, pages: seq<Page>, store: Store, disk: Disk): Synced {
    match Replay(c, vaultId, r, pages).result
    case Err(e) => Synced(r, store, Some(e))
    case Ok(r1) => PersistHead(c, r, r1, store, disk)
  }

  /** Applying the tab's own accepted write. */
  function ApplyOwn(c: Crypto, vaultId: string, r: Replica, ch: Change, store: Store, disk: Disk): Synced {
    match Apply(c, vaultId, r, ch)
    case Err(e) => Synced(r, store, Some(e))
    case Ok(r1) => PersistHead(c, r, r1, store, disk)
  }

  /** The replica an unlock starts from, before its first sync. */
  function StartUnlock(c: Crypto, serverHead: Head, genesis: string, stored: Loaded): Result<Replica, ClientError> {
    if !IsValidHeadSeq(serverHead.seqNo) || !c.isHash(serverHead.hash) then Err(InvalidServerHead)
    else if serverHead.seqNo > 0 && !c.isHash(genesis) then Err(InvalidServerHead)
    else if stored.Err? then Err(CheckpointRefused(LoadFailure(stored.error)))
    else if stored.value.Some? && stored.value.value.headSeq > serverHead.seqNo then Err(ServerBehindCheckpoint)
    else if stored.value.Some? && stored.value.value.headSeq == serverHead.seqNo
            && stored.value.value.headHash != serverHead.hash then Err(ServerForkedCheckpoint)
    else
      var start := Head(0, if genesis != "" then genesis else serverHead.hash);
      MarkProgress(Replica(start, stored.value, stored.value.None?, map[]))
  }

  // ----- building a change -----

  /** The change an honest client builds on its current head; the envelope is what encryption returned. */
  function Build(c: Crypto, vaultId: string, head: Head, operation: string, itemId: string, revisionId: string,
                 baseRevisionSeq: int, envelope: Envelope): Change
  {
    var envelopeHash := ExpectedEnvelopeHash(c, envelope);
    var payload := ChangePayload(operation, vaultId, itemId, revisionId, baseRevisionSeq + 1, head.seqNo + 1,
                                 baseRevisionSeq, head.seqNo, head.hash, head.hash, envelopeHash, envelope.keyId);
    var changeMac := c.hmac(ChangeText(payload));
    var newHeadHash := c.hmac(HeadText(HeadPayload(vaultId, head.seqNo + 1, head.hash, changeMac)));
    Change(itemId, revisionId, operation, baseRevisionSeq + 1, head.seqNo + 1, head.hash, newHeadHash,
           baseRevisionSeq, head.seqNo, head.hash, changeMac, envelopeHash, envelope)
  }

  /** A built change is authentic, extends the builder's head, has the honest shape and carries what was asked for. */
  lemma BuildIsAuthentic(c: Crypto, vaultId: string, head: Head, operation: string, itemId: string,
                         revisionId: string, baseRevisionSeq: int, envelope: Envelope)
    requires Supported(envelope)
    requires Plaintext(c, vaultId, Build(c, vaultId, head, operation, itemId, revisionId, baseRevisionSeq,
                                         envelope)).Some?
    ensures var ch := Build(c, vaultId, head, operation, itemId, revisionId, baseRevisionSeq, envelope);
            && Authentic(c, vaultId, ch) && Extends(head, ch)
            && HonestPayload(PayloadOf(vaultId, ch, ch.envelopeHash))
            && ch.operation == operation && ch.itemId == itemId && ch.revisionId == revisionId
            && ch.revisionSeq == baseRevisionSeq + 1 && ch.headSeq == head.seqNo + 1 && ch.envelope == envelope
  {}

  // ----- what is known about a replica -----

  /** The head before which the stored checkpoint counts as proved. */
  predicate OnLog(genesis: string, log: seq<Change>, cp: Checkpoint) {
    exists k :: 0 <= k <= |log| && CheckpointOf(HeadOf(genesis, log[..k])) == cp
  }

  /** The replica is exactly what the accepted log stands for, and a verified checkpoint lies on it. */
  ghost predicate Holds(c: Crypto, vaultId: string, genesis: string, r: Replica, log: seq<Change>) {
    && Accepted(c, vaultId, genesis, log)
    && r.head == HeadOf(genesis, log)
    && r.items == Fold(c, vaultId, log)
    && (r.checkpoint.Some? && r.verified ==> OnLog(genesis, log, r.checkpoint.value))
  }

  lemma OnLogGrows(genesis: string, log: seq<Change>, more: seq<Change>, cp: Checkpoint)
    requires OnLog(genesis, log, cp)
    ensures OnLog(genesis, log + more, cp)
  {
    var k :| 0 <= k <= |log| && CheckpointOf(HeadOf(genesis, log[..k])) == cp;
    assert (log + more)[..k] == log[..k];
  }

  lemma VerifyIff(c: Crypto, vaultId: string, head: Head, ch: Change)
    ensures Verify(c, vaultId, head, ch) == None <==> Authentic(c, vaultId, ch) && Extends(head, ch)
  {}

  lemma MarkKeeps(c: Crypto, vaultId: string, genesis: string, r: Replica, log: seq<Change>)
    requires Accepted(c, vaultId, genesis, log) && r.head == HeadOf(genesis, log) && r.items == Fold(c, vaultId, log)
    requires r.checkpoint.Some? && r.verified ==> OnLog(genesis, log, r.checkpoint.value)
    requires MarkProgress(r).Ok?
    ensures Holds(c, vaultId, genesis, MarkProgress(r).value, log)
    ensures MarkProgress(r).value.checkpoint == r.checkpoint
  {
    assert log[..|log|] == log;
  }

  lemma ApplyKeeps(c: Crypto, vaultId: string, genesis: string, r: Replica, log: seq<Change>, ch: Change)
    requires Holds(c, vaultId, genesis, r, log) && Apply(c, vaultId, r, ch).Ok?
    ensures Holds(c, vaultId, genesis, Apply(c, vaultId, r, ch).value, log + [ch])
    ensures Apply(c, vaultId, r, ch).value.checkpoint == r.checkpoint
  {
    VerifyIff(c, vaultId, r.head, ch);
    AcceptedSnoc(c, vaultId, genesis, log, ch);
    if r.checkpoint.Some? && r.verified {
      OnLogGrows(genesis, log, [ch], r.checkpoint.value);
    }
    MarkKeeps(c, vaultId, genesis, r.(head := HeadAfter(ch), items := ApplyItem(c, vaultId, r.items, ch)), log + [ch]);
  }

  lemma ApplyAllFirst(c: Crypto, vaultId: string, r: Replica, changes: seq<Change>)
    requires changes != [] && ApplyAll(c, vaultId, r, changes).Ok?
    ensures Apply(c, vaultId, r, changes[0]).Ok?
    ensures ApplyAll(c, vaultId, r, changes) == ApplyAll(c, vaultId, Apply(c, vaultId, r, changes[0]).value,
                                                         changes[1..])
  {}

  lemma FirstThenRest<T>(log: seq<T>, more: seq<T>)
    requires more != []
    ensures log + more == log + [more[0]] + more[1..]
  {}

  lemma {:induction false} ApplyAllKeeps(c: Crypto, vaultId: string, genesis: string, r: Replica, log: seq<Change>,
                                         changes: seq<Change>)
    requires Holds(c, vaultId, genesis, r, log) && ApplyAll(c, vaultId, r, changes).Ok?
    ensures Holds(c, vaultId, genesis, ApplyAll(c, vaultId, r, changes).value, log + changes)
    ensures ApplyAll(c, vaultId, r, changes).value.checkpoint == r.checkpoint
    decreases changes
  {
    if changes == [] {
      assert log + changes == log;
    } else {
      ApplyAllFirst(c, vaultId, r, changes);
      ApplyKeeps(c, vaultId, genesis, r, log, changes[0]);
      ApplyAllKeeps(c, vaultId, genesis, Apply(c, vaultId, r, changes[0]).value, log + [changes[0]], changes[1..]);
      FirstThenRest(log, changes);
    }
  }

  /** Everything the replayed pages contained, up to the page that said there is no more. */
  function Received(pages: seq<Page>): seq<Change>
    decreases pages
  {
    if pages == [] then [] else pages[0].changes + if pages[0].hasMore then Received(pages[1..]) else []
  }

  lemma ReplayFirst(c: Crypto, vaultId: string, r: Replica, pages: seq<Page>)
    requires Replay(c, vaultId, r, pages).result.Ok?
    ensures pages != [] && ApplyAll(c, vaultId, r, pages[0].changes).Ok?
    ensures var r1 := ApplyAll(c, vaultId, r, pages[0].changes).value;
            Replay(c, vaultId, r, pages).result ==
            if pages[0].hasMore then Replay(c, vaultId, r1, pages[1..]).result else Ok(r1)
    ensures !pages[0].hasMore && ApplyAll(c, vaultId, r, pages[0].changes).value.checkpoint.Some? ==>
              ApplyAll(c, vaultId, r, pages[0].changes).value.verified
  {}

  lemma ReceivedFirst(log: seq<Change>, pages: seq<Page>)
    requires pages != []
    ensures log + Received(pages) ==
            if pages[0].hasMore then log + pages[0].changes + Received(pages[1..]) else log + pages[0].changes
  {}

  /** A successful replay extends the log it started from; its checkpoint is on the result. */
  lemma {:induction false} ReplayKeeps(c: Crypto, vaultId: string, genesis: string, r: Replica, log: seq<Change>,
                                       pages: seq<Page>)
    requires Holds(c, vaultId, genesis, r, log) && Replay(c, vaultId, r, pages).result.Ok?
    ensures var r' := Replay(c, vaultId, r, pages).result.value;
            && Holds(c, vaultId, genesis, r', log + Received(pages))
            && r'.checkpoint == r.checkpoint && (r.checkpoint.Some? ==> r'.verified)
    decreases pages
  {
    ReplayFirst(c, vaultId, r, pages);
    ReceivedFirst(log, pages);
    ApplyAllKeeps(c, vaultId, genesis, r, log, pages[0].changes);
    if pages[0].hasMore {
      ReplayKeeps(c, vaultId, genesis, ApplyAll(c, vaultId, r, pages[0].changes).value, log + pages[0].changes,
                  pages[1..]);
    }
  }

  lemma StartUnlockHolds(c: Crypto, vaultId: string, serverHead: Head, genesis: string, stored: Loaded)
    requires StartUnlock(c, serverHead, genesis, stored).Ok?
    ensures var r := StartUnlock(c, serverHead, genesis, stored).value;
            Holds(c, vaultId, if genesis != "" then genesis else serverHead.hash, r, []) && r.checkpoint == stored.value
  {
    var start := if genesis != "" then genesis else serverHead.hash;
    MarkKeeps(c, vaultId, start, Replica(Head(0, start), stored.value, stored.value.None?, map[]), []);
  }

  // ----- rollback resistance -----

  /** Unlocking with a stored checkpoint: whatever the server answers, a sync that succeeds accepts a log
      that passes through the checkpoint, and its entries up to there are the very entries accepted
      when the checkpoint was saved. */
  lemma RollbackResistance(c: Crypto, issued: iset<string>, vaultId: string,
                           oldGenesis: string, oldLog: seq<Change>,
                           serverHead: Head, genesis: string, stored: Loaded, pages: seq<Page>, store: Store,
                           disk: Disk)
    requires Accepted(c, vaultId, oldGenesis, oldLog) && Unforged(c, issued, vaultId, oldLog)
    requires stored == Ok(Some(CheckpointOf(HeadOf(oldGenesis, oldLog))))
    requires StartUnlock(c, serverHead, genesis, stored).Ok?
    requires Sync(c, vaultId, StartUnlock(c, serverHead, genesis, stored).value, pages, store, disk).error == None
    requires Unforged(c, issued, vaultId, Received(pages)) && NoCollisions(c, vaultId, oldLog, Received(pages))
    ensures var r := Sync(c, vaultId, StartUnlock(c, serverHead, genesis, stored).value, pages, store, disk).replica;
            && Holds(c, vaultId, oldGenesis, r, Received(pages))
            && oldLog <= Received(pages)
            && r.head.seqNo == |Received(pages)|
  {
    var start := if genesis != "" then genesis else serverHead.hash;
    var r0, newLog := StartUnlock(c, serverHead, genesis, stored).value, Received(pages);
    StartUnlockHolds(c, vaultId, serverHead, genesis, stored);
    ReplayKeeps(c, vaultId, start, r0, [], pages);
    assert [] + newLog == newLog;
    var r := Replay(c, vaultId, r0, pages).result.value;
    PassesThroughOldLog(c, issued, vaultId, oldGenesis, oldLog, start, r, newLog);
  }

  lemma PassesThroughOldLog(c: Crypto, issued: iset<string>, vaultId: string, oldGenesis: string, oldLog: seq<Change>,
                            genesis: string, r: Replica, newLog: seq<Change>)
    requires Accepted(c, vaultId, oldGenesis, oldLog) && Unforged(c, issued, vaultId, oldLog)
    requires Holds(c, vaultId, genesis, r, newLog) && Unforged(c, issued, vaultId, newLog)
    requires r.checkpoint == Some(CheckpointOf(HeadOf(oldGenesis, oldLog))) && r.verified
    requires NoCollisions(c, vaultId, oldLog, newLog)
    ensures oldLog <= newLog && genesis == oldGenesis && r.head.seqNo == |newLog|
  {
    var k :| 0 <= k <= |newLog| && CheckpointOf(HeadOf(genesis, newLog[..k])) == r.checkpoint.value;
    PrefixIsOldLog(c, issued, vaultId, oldGenesis, oldLog, genesis, newLog, k);
    AcceptedNumbering(c, issued, vaultId, genesis, newLog);
  }

  lemma PrefixIsOldLog(c: Crypto, issued: iset<string>, vaultId: string, oldGenesis: string, oldLog: seq<Change>,
                       genesis: string, newLog: seq<Change>, k: nat)
    requires Accepted(c, vaultId, oldGenesis, oldLog) && Unforged(c, issued, vaultId, oldLog)
    requires Accepted(c, vaultId, genesis, newLog) && Unforged(c, issued, vaultId, newLog)
    requires NoCollisions(c, vaultId, oldLog, newLog) && k <= |newLog|
    requires HeadOf(genesis, newLog[..k]) == HeadOf(oldGenesis, oldLog)
    ensures newLog[..k] == oldLog && genesis == oldGenesis
  {
    AcceptedPrefix(c, vaultId, genesis, newLog, k);
    UnforgedPrefix(c, issued, vaultId, newLog, k);
    NoCollisionsShorter(c, vaultId, oldLog, newLog, |oldLog|, k);
    assert oldLog[..|oldLog|] == oldLog;
    SameHeadSameLog(c, issued, vaultId, oldGenesis, oldLog, genesis, newLog[..k]);
  }

  /** Two clients at one head hold the same items. */
  lemma SameHeadSameItems(c: Crypto, issued: iset<string>, vaultId: string, genesis1: string, r1: Replica,
                          log1: seq<Change>, genesis2: string, r2: Replica, log2: seq<Change>)
    requires Holds(c, vaultId, genesis1, r1, log1) && Holds(c, vaultId, genesis2, r2, log2)
    requires Unforged(c, issued, vaultId, log1) && Unforged(c, issued, vaultId, log2)
    requires NoCollisions(c, vaultId, log1, log2) && r1.head == r2.head
    ensures r1.items == r2.items
  {
    SameHeadSameLog(c, issued, vaultId, genesis1, log1, genesis2, log2);
  }

  /** A failed sync leaves the replica as it was; a successful one only appends to its log. */
  lemma SyncExtendsOrKeeps(c: Crypto, vaultId: string, genesis: string, r: Replica, log: seq<Change>,
                           pages: seq<Page>, store: Store, disk: Disk)
    requires Holds(c, vaultId, genesis, r, log)
    ensures var s := Sync(c, vaultId, r, pages, store, disk);
            if s.error.Some? then s.replica == r
            else Holds(c, vaultId, genesis, s.replica, log + Received(pages))
  {
    if Replay(c, vaultId, r, pages).result.Ok? {
      ReplayKeeps(c, vaultId, genesis, r, log, pages);
    }
  }
}
