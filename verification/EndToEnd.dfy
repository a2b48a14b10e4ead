/** An honest server, any number of honest writers, and one browser tab with its checkpoint store. */
module EndToEnd {
  import opened Results
  import opened Payloads
  import opened Chain
  import opened Checkpoints
  import opened VaultServer
  import opened VaultSync
  import opened Replica
  import opened Paging

  // ----- honest writes -----

  /** The change as its builder MACed it: numbered from the base the request itself names. */
  function AsBuilt(w: Write): Change
    requires !w.NewVault?
  {
    if w.WriteItem? then CreatedChange(w.create, w.create.baseHeadSeq + 1)
    else RevisedChange(w.itemId, w.revise, w.revise.baseRevisionSeq + 1, w.revise.baseHeadSeq + 1)
  }

  /** The write was built by a client that knows this vault's keys, on whatever head it then had. */
  predicate BuiltFor(c: Crypto, vaultId: string, w: Write) {
    !w.NewVault? && w.vaultId == vaultId ==> Authentic(c, vaultId, AsBuilt(w)) && c.isHash(AsBuilt(w).headHash)
  }

  predicate AllBuiltFor(c: Crypto, vaultId: string, writes: seq<Write>) {
    forall i :: 0 <= i < |writes| ==> BuiltFor(c, vaultId, writes[i])
  }

  /** What the browser sends for a built change. */
  function RequestFor(accountId: string, vaultId: string, ch: Change): Write {
    if ch.operation == "create" then
      WriteItem(accountId, vaultId,
                CreateItemRequest(ch.itemId, ch.revisionId, ch.baseHeadSeq, ch.baseHeadHash, ch.headHash,
                                  ch.changeMac, ch.envelopeHash, ch.envelope))
    else
      WriteUpdate(accountId, vaultId, ch.itemId,
                  CreateRevisionRequest(ch.revisionId, ch.operation, ch.baseRevisionSeq, ch.baseHeadSeq,
                                        ch.baseHeadHash, ch.headHash, ch.changeMac, ch.envelopeHash, ch.envelope))
  }

  /** The numbers the server recomputes are the numbers the client MACed. */
  lemma ServerRecomputesClientSeqs(ls: Ledgers, w: Write)
    requires !w.NewVault? && Accepts(ls, w)
    requires WellFormedLog(ls[w.vaultId].genesis, ls[w.vaultId].log)
    ensures Entry(ls, w) == AsBuilt(w)
  {
    HeadOfWellFormed(ls[w.vaultId].genesis, ls[w.vaultId].log);
  }

  lemma RequestForIsBuilt(accountId: string, vaultId: string, ch: Change)
    requires ch.headSeq == ch.baseHeadSeq + 1 && ch.revisionSeq == ch.baseRevisionSeq + 1
    requires ch.previousHeadHash == ch.baseHeadHash
    requires ch.operation == "create" ==> ch.baseRevisionSeq == 0
    ensures var w := RequestFor(accountId, vaultId, ch);
            AsBuilt(w) == ch && w.accountId == accountId && w.vaultId == vaultId
  {}

  /** The vault's ledger verifies from end to end, and its hashes are storable. */
  ghost predicate HonestLedger(c: Crypto, vaultId: string, l: Ledger) {
    && WellFormedLog(l.genesis, l.log) && HonestLog(c, vaultId, l.genesis, l.log)
    && c.isHash(l.genesis) && forall i :: 0 <= i < |l.log| ==> c.isHash(l.log[i].headHash)
  }

  lemma HonestLedgerSnoc(c: Crypto, vaultId: string, l: Ledger, ch: Change)
    requires HonestLedger(c, vaultId, l) && WellPlaced(l.genesis, l.log, ch)
    requires Authentic(c, vaultId, ch) && c.isHash(ch.headHash)
    ensures HonestLedger(c, vaultId, l.(log := l.log + [ch]))
  {
    WellFormedLogSnoc(l.genesis, l.log, ch);
    AcceptedSnoc(c, vaultId, l.genesis, l.log, ch);
    assert (l.log + [ch])[..|l.log|] == l.log;
    NumberedSnoc(l.log + [ch], |l.log|);
  }

  /** Every committed client-built change verifies for everyone: honest writes keep the ledger honest. */
  lemma HonestStep(c: Crypto, ls: Ledgers, v: string, w: Write)
    requires v in ls && HonestLedger(c, v, ls[v]) && BuiltFor(c, v, w)
    ensures var ls' := StepLedgers(ls, w);
            v in ls' && HonestLedger(c, v, ls'[v]) && ls[v].log <= ls'[v].log
            && ls'[v].genesis == ls[v].genesis && ls'[v].accountId == ls[v].accountId
  {
    if Accepts(ls, w) && w.vaultId == v {
      ServerRecomputesClientSeqs(ls, w);
      HonestLedgerSnoc(c, v, ls[v], AsBuilt(w));
    }
  }

  lemma {:induction false} HonestRun(c: Crypto, ls: Ledgers, v: string, writes: seq<Write>)
    requires v in ls && HonestLedger(c, v, ls[v]) && AllBuiltFor(c, v, writes)
    ensures var ls' := RunLedgers(ls, writes);
            v in ls' && HonestLedger(c, v, ls'[v]) && ls[v].log <= ls'[v].log
            && ls'[v].genesis == ls[v].genesis && ls'[v].accountId == ls[v].accountId
    decreases writes
  {
    if writes != [] {
      HonestStep(c, ls, v, writes[0]);
      HonestRun(c, StepLedgers(ls, writes[0]), v, writes[1..]);
    }
  }

  // ----- a sync conversation, writers in between -----

  datatype Talk = Talk(ls: Ledgers, result: Result<Replica, ClientError>)

  /** The sync loop against the live server: chunks[i] commits before request i is answered. */
  ghost function Converse(c: Crypto, accountId: string, v: string, r: Replica, ls: Ledgers,
                          chunks: seq<seq<Write>>): Talk
    decreases chunks
  {
    if chunks == [] then Talk(ls, Err(ServerFailed))
    else
      var ls1 := RunLedgers(ls, chunks[0]);
      match AtomicSync(ls1, accountId, v, r.head)
      case SyncPage(p) =>
        if p.from != r.head then Talk(ls1, Err(NotFromLocalHead))
        else
          (match ApplyAll(c, v, r, p.changes)
           case Err(e) => Talk(ls1, Err(e))
           case Ok(r1) =>
             if p.hasMore then Converse(c, accountId, v, r1, ls1, chunks[1..])
             else if p.to != r1.head then Talk(ls1, Err(HeadMismatch))
             else if r1.checkpoint.Some? && !r1.verified then Talk(ls1, Err(CheckpointNotReached))
             else Talk(ls1, Ok(r1)))
      case _ => Talk(ls1, Err(ServerRefused))
  }

  predicate ChunksBuiltFor(c: Crypto, v: string, chunks: seq<seq<Write>>) {
    forall i :: 0 <= i < |chunks| ==> AllBuiltFor(c, v, chunks[i])
  }

  /** A replica on the ledger's log, owned by the caller. */
  ghost predicate OnLedger(c: Crypto, accountId: string, v: string, ls: Ledgers, r: Replica) {
    && v in ls && ls[v].accountId == accountId && HonestLedger(c, v, ls[v])
    && 0 <= r.head.seqNo && InStep(c, v, ls[v].genesis, r, ls[v].log, r.head.seqNo)
  }

  lemma OnLedgerAnswer(c: Crypto, accountId: string, v: string, ls: Ledgers, r: Replica)
    requires OnLedger(c, accountId, v, ls, r)
    ensures AtomicSync(ls, accountId, v, r.head) == SyncPage(PageOf(ls[v].genesis, ls[v].log, r.head.seqNo))
  {}

  lemma OnLedgerAfter(c: Crypto, accountId: string, v: string, ls: Ledgers, r: Replica, writes: seq<Write>)
    requires OnLedger(c, accountId, v, ls, r) && AllBuiltFor(c, v, writes)
    ensures OnLedger(c, accountId, v, RunLedgers(ls, writes), r)
    ensures ls[v].log <= RunLedgers(ls, writes)[v].log && RunLedgers(ls, writes)[v].genesis == ls[v].genesis
  {
    HonestRun(c, ls, v, writes);
    GrownLog(c, v, ls[v].genesis, r, ls[v].log, RunLedgers(ls, writes)[v].log, r.head.seqNo);
  }

  lemma OnLedgerPage(c: Crypto, accountId: string, v: string, ls: Ledgers, r: Replica)
    requires OnLedger(c, accountId, v, ls, r)
    ensures var p := PageOf(ls[v].genesis, ls[v].log, r.head.seqNo);
            && p.from == r.head && ApplyAll(c, v, r, p.changes).Ok?
            && var r1 := ApplyAll(c, v, r, p.changes).value;
            && r1.checkpoint == r.checkpoint && p.to == r1.head && OnLedger(c, accountId, v, ls, r1)
            && (p.hasMore ==> r1.head.seqNo == r.head.seqNo + MAX_SYNC_CHANGES_PER_RESPONSE)
            && (!p.hasMore ==> Holds(c, v, ls[v].genesis, r1, ls[v].log) && (r1.checkpoint.Some? ==> r1.verified)
                               && r1.head.seqNo == |ls[v].log|)
  {
    var k := r.head.seqNo;
    HonestPage(c, v, ls[v].genesis, r, ls[v].log, k);
    var m := if |ls[v].log| - k > MAX_SYNC_CHANGES_PER_RESPONSE then k + MAX_SYNC_CHANGES_PER_RESPONSE else |ls[v].log|;
    HeadOfPrefix(c, v, ls[v].genesis, ls[v].log, m);
  }

  /** How a conversation with the honest server ends: at the server's head, unless the answers run out
      while more than 500 entries per answer are still to come. */
  ghost predicate EndsWell(c: Crypto, accountId: string, v: string, before: Ledger, r: Replica, answers: nat, t: Talk) {
    && v in t.ls && HonestLedger(c, v, t.ls[v]) && t.ls[v].accountId == accountId
    && before.log <= t.ls[v].log && t.ls[v].genesis == before.genesis
    && match t.result
       case Ok(r') =>
         && Holds(c, v, before.genesis, r', t.ls[v].log) && r'.head.seqNo == |t.ls[v].log|
         && r'.checkpoint == r.checkpoint && (r'.checkpoint.Some? ==> r'.verified)
       case Err(e) =>
         e == ServerFailed && |t.ls[v].log| >= r.head.seqNo + MAX_SYNC_CHANGES_PER_RESPONSE * answers
  }

  lemma ConverseFirst(c: Crypto, accountId: string, v: string, r: Replica, ls: Ledgers, chunks: seq<seq<Write>>,
                      ls1: Ledgers, p: Page, r1: Replica)
    requires chunks != [] && ls1 == RunLedgers(ls, chunks[0]) && AtomicSync(ls1, accountId, v, r.head) == SyncPage(p)
    requires p.from == r.head && ApplyAll(c, v, r, p.changes) == Ok(r1) && p.to == r1.head
    requires !p.hasMore ==> r1.checkpoint.Some? ==> r1.verified
    ensures Converse(c, accountId, v, r, ls, chunks) ==
            if p.hasMore then Converse(c, accountId, v, r1, ls1, chunks[1..]) else Talk(ls1, Ok(r1))
  {}

  lemma EndsWellFromLater(c: Crypto, accountId: string, v: string, before: Ledger, r: Replica, later: Ledger,
                          r1: Replica, answers: nat, t: Talk)
    requires before.log <= later.log && before.genesis == later.genesis && r1.checkpoint == r.checkpoint
    requires r1.head.seqNo == r.head.seqNo + MAX_SYNC_CHANGES_PER_RESPONSE
    requires EndsWell(c, accountId, v, later, r1, answers, t)
    ensures EndsWell(c, accountId, v, before, r, answers + 1, t)
  {}

  /** The first answer of a conversation. */
  lemma FirstAnswer(c: Crypto, accountId: string, v: string, r: Replica, ls: Ledgers, chunks: seq<seq<Write>>)
    returns (ls1: Ledgers, r1: Replica, hasMore: bool)
    requires OnLedger(c, accountId, v, ls, r) && ChunksBuiltFor(c, v, chunks) && chunks != []
    ensures v in ls1 && ls[v].log <= ls1[v].log && ls1[v].genesis == ls[v].genesis
    ensures OnLedger(c, accountId, v, ls1, r1) && r1.checkpoint == r.checkpoint
    ensures hasMore ==> && r1.head.seqNo == r.head.seqNo + MAX_SYNC_CHANGES_PER_RESPONSE
                        && Converse(c, accountId, v, r, ls, chunks) == Converse(c, accountId, v, r1, ls1, chunks[1..])
    ensures !hasMore ==> && Converse(c, accountId, v, r, ls, chunks) == Talk(ls1, Ok(r1))
                         && EndsWell(c, accountId, v, ls[v], r, |chunks|, Talk(ls1, Ok(r1)))
  {
    ls1 := RunLedgers(ls, chunks[0]);
    OnLedgerAfter(c, accountId, v, ls, r, chunks[0]);
    OnLedgerAnswer(c, accountId, v, ls1, r);
    OnLedgerPage(c, accountId, v, ls1, r);
    var p := PageOf(ls1[v].genesis, ls1[v].log, r.head.seqNo);
    hasMore := p.hasMore;
    r1 := ApplyAll(c, v, r, p.changes).value;
    ConverseFirst(c, accountId, v, r, ls, chunks, ls1, p, r1);
  }

  lemma NoAnswers(c: Crypto, accountId: string, v: string, r: Replica, ls: Ledgers)
    requires OnLedger(c, accountId, v, ls, r)
    ensures EndsWell(c, accountId, v, ls[v], r, 0, Converse(c, accountId, v, r, ls, []))
  {}

  lemma {:induction false} ConverseSucceeds(c: Crypto, accountId: string, v: string, r: Replica, ls: Ledgers,
                                            chunks: seq<seq<Write>>)
    requires OnLedger(c, accountId, v, ls, r) && ChunksBuiltFor(c, v, chunks)
    ensures EndsWell(c, accountId, v, ls[v], r, |chunks|, Converse(c, accountId, v, r, ls, chunks))
    decreases chunks
  {
    if chunks == [] {
      NoAnswers(c, accountId, v, r, ls);
    } else {
      var ls1, r1, hasMore := FirstAnswer(c, accountId, v, r, ls, chunks);
      if hasMore {
        ConverseSucceeds(c, accountId, v, r1, ls1, chunks[1..]);
        EndsWellFromLater(c, accountId, v, ls[v], r, ls1[v], r1, |chunks| - 1,
                          Converse(c, accountId, v, r1, ls1, chunks[1..]));
      }
    }
  }

  // ----- the checkpoint store on an honest log -----

  predicate RecordOnLog(l: Ledger, cp: Checkpoint) {
    0 <= cp.headSeq <= |l.log| && cp == CheckpointOf(HeadOf(l.genesis, l.log[..cp.headSeq]))
  }

  /** Everything stored lies on the log, no higher than `top`. */
  predicate StoreOnLog(store: Store, l: Ledger, top: int) {
    && !store.damaged && (store.pointer.Some? ==> store.pointer.value in store.records)
    && forall cp :: cp in store.records ==> RecordOnLog(l, cp) && cp.headSeq <= top
  }

  lemma StoreOnLogGrows(store: Store, l: Ledger, l': Ledger, top: int)
    requires StoreOnLog(store, l, top) && l.log <= l'.log && l'.genesis == l.genesis
    ensures StoreOnLog(store, l', top)
  {
    forall cp | cp in store.records ensures RecordOnLog(l', cp) {
      assert RecordOnLog(l, cp);
      assert l'.log[..cp.headSeq] == l.log[..cp.headSeq];
    }
  }

  /** Checkpoints on one log never conflict, and the highest one loads. */
  lemma LoadOnLog(store: Store, l: Ledger, top: int)
    requires StoreOnLog(store, l, top)
    ensures Load(store).Ok?
    ensures Load(store).value.Some? ==> Load(store).value.value in store.records
    ensures forall cp :: cp in store.records ==>
              Load(store).value.Some? && cp.headSeq <= Load(store).value.value.headSeq
  {
    LoadOfRecords(Browser(store, map[]));
    forall i, j | 0 <= i < |store.records| && 0 <= j < |store.records|
                  && store.records[i].headSeq == store.records[j].headSeq
      ensures store.records[i].headHash == store.records[j].headHash
    {
      assert store.records[i] in store.records && store.records[j] in store.records;
    }
  }

  /** Saving a head of the log at or above everything stored always succeeds and stays on the log. */
  lemma PersistOnLog(store: Store, l: Ledger, head: Checkpoint, isHash: string -> bool)
    requires StoreOnLog(store, l, head.headSeq) && RecordOnLog(l, head)
    requires IsValidHeadSeq(head.headSeq) && isHash(head.headHash)
    ensures Persist(store, head, isHash, WRITABLE).error == None
    ensures StoreOnLog(Persist(store, head, isHash, WRITABLE).store, l, head.headSeq)
  {
    SaveAllowed(store, l, head);
    var store1 := AddRecord(store, head);
    assert StoreOnLog(store1, l, head.headSeq);
    SaveAllowed(store1, l, head);
  }

  lemma SaveAllowed(store: Store, l: Ledger, head: Checkpoint)
    requires StoreOnLog(store, l, head.headSeq) && RecordOnLog(l, head)
    ensures LoadAndCheck(store, head) == None
  {
    LoadOnLog(store, l, head.headSeq);
    if Load(store).value.Some? {
      assert RecordOnLog(l, Load(store).value.value);
    }
  }

  // ----- the whole system -----

  datatype System = System(ls: Ledgers, store: Store, tab: Option<Replica>)

  datatype Action =
    | Others(writes: seq<Write>)
    | Unlock(chunks: seq<seq<Write>>)
    | Refresh(chunks: seq<seq<Write>>)
    | Save(operation: string, itemId: string, revisionId: string, baseRevisionSeq: int, envelope: Envelope,
           before: seq<Write>)
    | Lock

  datatype Report = Fine | WriteRefused | Failed(error: ClientError)

  datatype Stepped = Stepped(system: System, report: Report)

  /** The end of a sync conversation that started from replica r. */
  ghost function Finish(c: Crypto, s: System, r: Replica, t: Talk, keep: Option<Replica>): Stepped {
    match t.result
    case Err(e) => Stepped(System(t.ls, s.store, keep), Failed(e))
    case Ok(r1) =>
      var saved := PersistHead(c, r, r1, s.store, WRITABLE);
      if saved.error.Some? then Stepped(System(t.ls, saved.store, keep), Failed(saved.error.value))
      else Stepped(System(t.ls, saved.store, Some(r1)), Fine)
  }

  ghost function Next(c: Crypto, accountId: string, v: string, s: System, a: Action): Stepped
    requires v in s.ls
  {
    match a
    case Others(writes) => Stepped(s.(ls := RunLedgers(s.ls, writes)), Fine)
    case Lock => Stepped(s.(tab := None), Fine)
    case Unlock(chunks) =>
      (match StartUnlock(c, HeadOf(s.ls[v].genesis, s.ls[v].log), s.ls[v].genesis, Load(s.store))
       case Err(e) => Stepped(s.(tab := None), Failed(e))
       case Ok(r) => Finish(c, s, r, Converse(c, accountId, v, r, s.ls, chunks), None))
    case Refresh(chunks) =>
      if s.tab.None? then Stepped(s, Fine)
      else Finish(c, s, s.tab.value, Converse(c, accountId, v, s.tab.value, s.ls, chunks), s.tab)
    case Save(operation, itemId, revisionId, baseRevisionSeq, envelope, before) =>
      if s.tab.None? then Stepped(s, Fine)
      else
        var r := s.tab.value;
        var ch := Build(c, v, r.head, operation, itemId, revisionId, baseRevisionSeq, envelope);
        var w := RequestFor(accountId, v, ch);
        var ls1 := RunLedgers(s.ls, before);
        if !Accepts(ls1, w) then Stepped(s.(ls := ls1), WriteRefused)
        else
          var e := Entry(ls1, w);
          var ls2 := StepLedgers(ls1, w);
          if e.headHash != ch.headHash || e.headSeq != ch.headSeq then Stepped(s.(ls := ls2), Failed(HeadMismatch))
          else
            var saved := ApplyOwn(c, v, r, ch, s.store, WRITABLE);
            Stepped(System(ls2, saved.store, Some(saved.replica)),
                    if saved.error.Some? then Failed(saved.error.value) else Fine)
  }

  /** The tab's own saves are built as the page builds them, and every other writer is honest. */
  predicate HonestAction(c: Crypto, v: string, s: System, a: Action) {
    match a
    case Others(writes) => AllBuiltFor(c, v, writes)
    case Unlock(chunks) => ChunksBuiltFor(c, v, chunks)
    case Refresh(chunks) => ChunksBuiltFor(c, v, chunks)
    case Save(operation, itemId, revisionId, baseRevisionSeq, envelope, before) =>
      && AllBuiltFor(c, v, before)
      && (s.tab.Some? ==>
            var ch := Build(c, v, s.tab.value.head, operation, itemId, revisionId, baseRevisionSeq, envelope);
            && Supported(envelope) && Plaintext(c, v, ch).Some? && c.isHash(ch.headHash)
            && (operation == "create" ==> baseRevisionSeq == 0))
    case Lock => true
  }

  ghost predicate Consistent(c: Crypto, accountId: string, v: string, s: System) {
    && v in s.ls && s.ls[v].accountId == accountId && HonestLedger(c, v, s.ls[v])
    && StoreOnLog(s.store, s.ls[v], |s.ls[v].log|)
    && (s.tab.Some? ==>
          && OnLedger(c, accountId, v, s.ls, s.tab.value)
          && (s.tab.value.checkpoint.Some? ==> s.tab.value.verified)
          && StoreOnLog(s.store, s.ls[v], s.tab.value.head.seqNo))
  }

  lemma PersistHonestHead(c: Crypto, v: string, store: Store, l: Ledger, before: Replica, r: Replica)
    requires HonestLedger(c, v, l) && StoreOnLog(store, l, |l.log|) && Holds(c, v, l.genesis, r, l.log)
    requires r.head.seqNo == |l.log| <= MAX_SAFE_INTEGER
    ensures var p := PersistHead(c, before, r, store, WRITABLE);
            p.error == None && p.replica == r && StoreOnLog(p.store, l, |l.log|)
  {
    assert l.log[..|l.log|] == l.log;
    assert c.isHash(r.head.hash);
    PersistOnLog(store, l, CheckpointOf(r.head), c.isHash);
  }

  lemma AtTheEnd(c: Crypto, accountId: string, v: string, ls: Ledgers, r: Replica)
    requires v in ls && ls[v].accountId == accountId && HonestLedger(c, v, ls[v])
    requires Holds(c, v, ls[v].genesis, r, ls[v].log) && r.head.seqNo == |ls[v].log|
    requires r.checkpoint.Some? ==> r.verified
    ensures OnLedger(c, accountId, v, ls, r)
  {
    assert ls[v].log[..|ls[v].log|] == ls[v].log;
  }

  /** A step that raised nothing but a network failure, and left everything consistent. */
  ghost predicate SyncedFine(c: Crypto, accountId: string, v: string, f: Stepped) {
    && Consistent(c, accountId, v, f.system)
    && (f.report == Fine || f.report == Failed(ServerFailed))
    && (f.report == Fine ==>
          f.system.tab.Some?
          && Holds(c, v, f.system.ls[v].genesis, f.system.tab.value, f.system.ls[v].log))
  }

  lemma FinishedFine(c: Crypto, accountId: string, v: string, s: System, r: Replica, t: Talk, keep: Option<Replica>)
    requires v in t.ls && HonestLedger(c, v, t.ls[v]) && t.ls[v].accountId == accountId
    requires t.result.Ok? && Holds(c, v, t.ls[v].genesis, t.result.value, t.ls[v].log)
    requires t.result.value.head.seqNo == |t.ls[v].log| <= MAX_SAFE_INTEGER
    requires t.result.value.checkpoint.Some? ==> t.result.value.verified
    requires StoreOnLog(s.store, t.ls[v], |t.ls[v].log|)
    ensures SyncedFine(c, accountId, v, Finish(c, s, r, t, keep)) && Finish(c, s, r, t, keep).report == Fine
  {
    PersistHonestHead(c, v, s.store, t.ls[v], r, t.result.value);
    AtTheEnd(c, accountId, v, t.ls, t.result.value);
  }

  lemma StoreTop(store: Store, l: Ledger, top: int, top': int)
    requires StoreOnLog(store, l, top) && top <= top'
    ensures StoreOnLog(store, l, top')
  {}

  lemma FinishIsFine(c: Crypto, accountId: string, v: string, s: System, r: Replica, chunks: seq<seq<Write>>,
                     keep: Option<Replica>)
    requires OnLedger(c, accountId, v, s.ls, r) && ChunksBuiltFor(c, v, chunks)
    requires StoreOnLog(s.store, s.ls[v], |s.ls[v].log|)
    requires keep.Some? ==> && keep == Some(r) && (r.checkpoint.Some? ==> r.verified)
                            && StoreOnLog(s.store, s.ls[v], r.head.seqNo)
    requires var t := Converse(c, accountId, v, r, s.ls, chunks); v in t.ls ==> |t.ls[v].log| <= MAX_SAFE_INTEGER
    ensures SyncedFine(c, accountId, v, Finish(c, s, r, Converse(c, accountId, v, r, s.ls, chunks), keep))
  {
    var t := Converse(c, accountId, v, r, s.ls, chunks);
    ConverseSucceeds(c, accountId, v, r, s.ls, chunks);
    StoreOnLogGrows(s.store, s.ls[v], t.ls[v], |s.ls[v].log|);
    StoreTop(s.store, t.ls[v], |s.ls[v].log|, |t.ls[v].log|);
    if t.result.Ok? {
      FinishedFine(c, accountId, v, s, r, t, keep);
    } else if keep.Some? {
      StoreOnLogGrows(s.store, s.ls[v], t.ls[v], r.head.seqNo);
      GrownLog(c, v, s.ls[v].genesis, r, s.ls[v].log, t.ls[v].log, r.head.seqNo);
    }
  }

  // ----- each action -----

  /** On an honest server none of the unlock's first checks fails. */
  lemma StartUnlockPasses(c: Crypto, l: Ledger, head: Head, store: Store)
    requires head == HeadOf(l.genesis, l.log) && head.seqNo == |l.log| <= MAX_SAFE_INTEGER
    requires c.isHash(head.hash) && c.isHash(l.genesis) && l.genesis != ""
    requires Load(store).Ok? && (Load(store).value.Some? ==> RecordOnLog(l, Load(store).value.value))
    ensures var stored := Load(store).value;
            StartUnlock(c, head, l.genesis, Load(store))
            == MarkProgress(Replica(Head(0, l.genesis), stored, stored.None?, map[]))
  {
    assert l.log[..|l.log|] == l.log;
  }

  lemma StartsInStep(c: Crypto, v: string, l: Ledger, stored: Option<Checkpoint>)
    requires HonestLedger(c, v, l) && (stored.Some? ==> RecordOnLog(l, stored.value))
    ensures var r := MarkProgress(Replica(Head(0, l.genesis), stored, stored.None?, map[]));
            r.Ok? && InStep(c, v, l.genesis, r.value, l.log, 0) && r.value.head.seqNo == 0
  {
    var r := Replica(Head(0, l.genesis), stored, stored.None?, map[]);
    assert l.log[..0] == [];
    MarkOnLog(l.genesis, l.log, r, 0);
    MarkKeeps(c, v, l.genesis, r, []);
  }

  lemma StartUnlockOnLedger(c: Crypto, accountId: string, v: string, s: System)
    requires Consistent(c, accountId, v, s) && !c.isHash("") && |s.ls[v].log| <= MAX_SAFE_INTEGER
    ensures var u := StartUnlock(c, HeadOf(s.ls[v].genesis, s.ls[v].log), s.ls[v].genesis, Load(s.store));
            u.Ok? && OnLedger(c, accountId, v, s.ls, u.value) && u.value.head.seqNo == 0
  {
    var l := s.ls[v];
    LoadOnLog(s.store, l, |l.log|);
    HeadOfWellFormed(l.genesis, l.log);
    StartUnlockPasses(c, l, HeadOf(l.genesis, l.log), s.store);
    StartsInStep(c, v, l, Load(s.store).value);
  }

  lemma FinishLedgers(c: Crypto, s: System, r: Replica, t: Talk, keep: Option<Replica>)
    ensures Finish(c, s, r, t, keep).system.ls == t.ls
  {}

  lemma NextIsFinish(c: Crypto, accountId: string, v: string, s: System, a: Action)
    requires v in s.ls
    ensures a.Unlock? ==>
              var u := StartUnlock(c, HeadOf(s.ls[v].genesis, s.ls[v].log), s.ls[v].genesis, Load(s.store));
              u.Ok? ==> Next(c, accountId, v, s, a)
                        == Finish(c, s, u.value, Converse(c, accountId, v, u.value, s.ls, a.chunks), None)
    ensures a.Refresh? && s.tab.Some? ==>
              Next(c, accountId, v, s, a)
              == Finish(c, s, s.tab.value, Converse(c, accountId, v, s.tab.value, s.ls, a.chunks), s.tab)
  {}

  lemma UnlockIsFine(c: Crypto, accountId: string, v: string, s: System, a: Action)
    requires Consistent(c, accountId, v, s) && a.Unlock? && ChunksBuiltFor(c, v, a.chunks) && !c.isHash("")
    requires |s.ls[v].log| <= MAX_SAFE_INTEGER
    requires v in Next(c, accountId, v, s, a).system.ls ==>
               |Next(c, accountId, v, s, a).system.ls[v].log| <= MAX_SAFE_INTEGER
    ensures SyncedFine(c, accountId, v, Next(c, accountId, v, s, a))
  {
    StartUnlockOnLedger(c, accountId, v, s);
    NextIsFinish(c, accountId, v, s, a);
    var r := StartUnlock(c, HeadOf(s.ls[v].genesis, s.ls[v].log), s.ls[v].genesis, Load(s.store)).value;
    FinishLedgers(c, s, r, Converse(c, accountId, v, r, s.ls, a.chunks), None);
    FinishIsFine(c, accountId, v, s, r, a.chunks, None);
  }

  lemma RefreshIsFine(c: Crypto, accountId: string, v: string, s: System, a: Action)
    requires Consistent(c, accountId, v, s) && a.Refresh? && ChunksBuiltFor(c, v, a.chunks) && s.tab.Some?
    requires v in Next(c, accountId, v, s, a).system.ls ==>
               |Next(c, accountId, v, s, a).system.ls[v].log| <= MAX_SAFE_INTEGER
    ensures SyncedFine(c, accountId, v, Next(c, accountId, v, s, a))
  {
    NextIsFinish(c, accountId, v, s, a);
    FinishLedgers(c, s, s.tab.value, Converse(c, accountId, v, s.tab.value, s.ls, a.chunks), s.tab);
    FinishIsFine(c, accountId, v, s, s.tab.value, a.chunks, s.tab);
  }

  /** Other writers never disturb the tab or its checkpoints. */
  lemma OthersKeep(c: Crypto, accountId: string, v: string, s: System, writes: seq<Write>)
    requires Consistent(c, accountId, v, s) && AllBuiltFor(c, v, writes)
    ensures Consistent(c, accountId, v, s.(ls := RunLedgers(s.ls, writes)))
  {
    var ls' := RunLedgers(s.ls, writes);
    HonestRun(c, s.ls, v, writes);
    StoreOnLogGrows(s.store, s.ls[v], ls'[v], |s.ls[v].log|);
    StoreTop(s.store, ls'[v], |s.ls[v].log|, |ls'[v].log|);
    if s.tab.Some? {
      OnLedgerAfter(c, accountId, v, s.ls, s.tab.value, writes);
      StoreOnLogGrows(s.store, s.ls[v], ls'[v], s.tab.value.head.seqNo);
    }
  }

  /** An accepted save appends the very change the tab built, on the tab's own head. */
  lemma SaveAppendsBuilt(c: Crypto, accountId: string, v: string, ls: Ledgers, r: Replica, ch: Change)
    requires OnLedger(c, accountId, v, ls, r) && Authentic(c, v, ch) && Extends(r.head, ch)
    requires AsBuilt(RequestFor(accountId, v, ch)) == ch && Accepts(ls, RequestFor(accountId, v, ch))
    ensures Entry(ls, RequestFor(accountId, v, ch)) == ch && r.head == HeadOf(ls[v].genesis, ls[v].log)
    ensures StepLedgers(ls, RequestFor(accountId, v, ch)) == ls[v := ls[v].(log := ls[v].log + [ch])]
    ensures WellPlaced(ls[v].genesis, ls[v].log, ch)
  {
    ServerRecomputesClientSeqs(ls, RequestFor(accountId, v, ch));
  }

  lemma OwnChangeApplies(c: Crypto, accountId: string, v: string, ls: Ledgers, store: Store, r: Replica, ch: Change)
    requires OnLedger(c, accountId, v, ls, r) && (r.checkpoint.Some? ==> r.verified)
    requires r.head == HeadOf(ls[v].genesis, ls[v].log) && StoreOnLog(store, ls[v], r.head.seqNo)
    requires Authentic(c, v, ch) && c.isHash(ch.headHash) && WellPlaced(ls[v].genesis, ls[v].log, ch)
    requires |ls[v].log| + 1 <= MAX_SAFE_INTEGER
    ensures var saved := ApplyOwn(c, v, r, ch, store, WRITABLE);
            var l' := ls[v].(log := ls[v].log + [ch]);
            && saved.error == None && OnLedger(c, accountId, v, ls[v := l'], saved.replica)
            && (saved.replica.checkpoint.Some? ==> saved.replica.verified)
            && StoreOnLog(saved.store, l', |l'.log|) && saved.replica.head.seqNo == |l'.log|
  {
    var l, l' := ls[v], ls[v].(log := ls[v].log + [ch]);
    assert l.log[..|l.log|] == l.log;
    HeadOfWellFormed(l.genesis, l.log);
    HonestLedgerSnoc(c, v, l, ch);
    VerifyIff(c, v, r.head, ch);
    ApplyKeeps(c, v, l.genesis, r, l.log, ch);
    var r1 := Apply(c, v, r, ch).value;
    StoreOnLogGrows(store, l, l', r.head.seqNo);
    StoreTop(store, l', r.head.seqNo, |l'.log|);
    PersistHonestHead(c, v, store, l', r, r1);
    AtTheEnd(c, accountId, v, ls[v := l'], r1);
  }

  lemma SaveIsFine(c: Crypto, accountId: string, v: string, s: System, a: Action)
    requires Consistent(c, accountId, v, s) && a.Save? && HonestAction(c, v, s, a) && s.tab.Some?
    requires v in Next(c, accountId, v, s, a).system.ls ==>
               |Next(c, accountId, v, s, a).system.ls[v].log| <= MAX_SAFE_INTEGER
    ensures Consistent(c, accountId, v, Next(c, accountId, v, s, a).system)
    ensures Next(c, accountId, v, s, a).report in {Fine, WriteRefused}
  {
    var r := s.tab.value;
    var ch := Build(c, v, r.head, a.operation, a.itemId, a.revisionId, a.baseRevisionSeq, a.envelope);
    var ls1 := RunLedgers(s.ls, a.before);
    OthersKeep(c, accountId, v, s, a.before);
    BuildIsAuthentic(c, v, r.head, a.operation, a.itemId, a.revisionId, a.baseRevisionSeq, a.envelope);
    RequestForIsBuilt(accountId, v, ch);
    if Accepts(ls1, RequestFor(accountId, v, ch)) {
      SaveAppendsBuilt(c, accountId, v, ls1, r, ch);
      OwnChangeApplies(c, accountId, v, ls1, s.store, r, ch);
    }
  }

  /** What a tab saved: the change it built is the log's new last entry, the tab shows the text it encrypted, or the
      item gone after a delete, and so does every replica at a log in which no later entry is about that item. */
  lemma SavedTextIsShown(c: Crypto, accountId: string, v: string, s: System, a: Action, genesis: string,
                         log: seq<Change>, other: Replica)
    requires Consistent(c, accountId, v, s) && a.Save? && HonestAction(c, v, s, a) && s.tab.Some?
    requires v in Next(c, accountId, v, s, a).system.ls ==>
               |Next(c, accountId, v, s, a).system.ls[v].log| <= MAX_SAFE_INTEGER
    requires Next(c, accountId, v, s, a).report == Fine
    ensures var t := Next(c, accountId, v, s, a).system;
            var ch := Build(c, v, s.tab.value.head, a.operation, a.itemId, a.revisionId, a.baseRevisionSeq, a.envelope);
            && v in t.ls && LastOf(t.ls[v].log, a.itemId) == Some(ch) && t.tab.Some?
            && Shows(c, v, t.tab.value, ch)
            && (Holds(c, v, genesis, other, log) && LastOf(log, a.itemId) == Some(ch) ==> Shows(c, v, other, ch))
  {
    var r, ls1 := s.tab.value, RunLedgers(s.ls, a.before);
    var ch := Build(c, v, r.head, a.operation, a.itemId, a.revisionId, a.baseRevisionSeq, a.envelope);
    FineSave(c, accountId, v, s, a, r, ch, ls1);
    SaveIsBuilt(c, accountId, v, s, a, r, ch, ls1);
    LastOfSnoc(ls1[v].log, ch, a.itemId);
    AppliedShows(c, accountId, v, ls1, r, ch);
    if Holds(c, v, genesis, other, log) && LastOf(log, a.itemId) == Some(ch) {
      ItemShowsLastText(c, v, genesis, log, other, a.itemId, ch);
    }
  }

  /** A save that reports no failure was accepted, and its change applied. */
  lemma FineSave(c: Crypto, accountId: string, v: string, s: System, a: Action, r: Replica, ch: Change, ls1: Ledgers)
    requires v in s.ls && a.Save? && s.tab == Some(r) && ls1 == RunLedgers(s.ls, a.before)
    requires ch == Build(c, v, r.head, a.operation, a.itemId, a.revisionId, a.baseRevisionSeq, a.envelope)
    requires Next(c, accountId, v, s, a).report == Fine
    ensures Accepts(ls1, RequestFor(accountId, v, ch)) && Apply(c, v, r, ch).Ok?
    ensures Next(c, accountId, v, s, a).system.ls == StepLedgers(ls1, RequestFor(accountId, v, ch))
    ensures Next(c, accountId, v, s, a).system.tab == Some(Apply(c, v, r, ch).value)
  {}

  lemma SaveIsBuilt(c: Crypto, accountId: string, v: string, s: System, a: Action, r: Replica, ch: Change, ls1: Ledgers)
    requires Consistent(c, accountId, v, s) && a.Save? && HonestAction(c, v, s, a) && s.tab == Some(r)
    requires ch == Build(c, v, r.head, a.operation, a.itemId, a.revisionId, a.baseRevisionSeq, a.envelope)
    requires ls1 == RunLedgers(s.ls, a.before) && Accepts(ls1, RequestFor(accountId, v, ch))
    ensures OnLedger(c, accountId, v, ls1, r) && r.head.seqNo == |ls1[v].log|
    ensures StepLedgers(ls1, RequestFor(accountId, v, ch)) == ls1[v := ls1[v].(log := ls1[v].log + [ch])]
  {
    OthersKeep(c, accountId, v, s, a.before);
    BuildIsAuthentic(c, v, r.head, a.operation, a.itemId, a.revisionId, a.baseRevisionSeq, a.envelope);
    RequestForIsBuilt(accountId, v, ch);
    SaveAppendsBuilt(c, accountId, v, ls1, r, ch);
    HeadOfWellFormed(ls1[v].genesis, ls1[v].log);
  }

  lemma AppliedShows(c: Crypto, accountId: string, v: string, ls: Ledgers, r: Replica, ch: Change)
    requires OnLedger(c, accountId, v, ls, r) && r.head.seqNo == |ls[v].log| && Apply(c, v, r, ch).Ok?
    ensures Shows(c, v, Apply(c, v, r, ch).value, ch)
  {
    var l := ls[v];
    assert l.log[..|l.log|] == l.log;
    ApplyKeeps(c, v, l.genesis, r, l.log, ch);
    LastOfSnoc(l.log, ch, ch.itemId);
    ItemShowsLastText(c, v, l.genesis, l.log + [ch], Apply(c, v, r, ch).value, ch.itemId, ch);
  }

  /** The replica shows this revision of its item, with the text the envelope opens to, or the item gone. */
  predicate Shows(c: Crypto, v: string, r: Replica, ch: Change) {
    if ch.operation == "delete" then ch.itemId !in r.items
    else && ch.itemId in r.items && Opened(c, v, ch) == Some(r.items[ch.itemId].fields)
         && r.items[ch.itemId].revisionId == ch.revisionId && r.items[ch.itemId].revisionSeq == ch.revisionSeq
  }

  /** No honest action ever raises a rollback, fork, chain or checkpoint error in a single tab. */
  lemma StepIsFine(c: Crypto, accountId: string, v: string, s: System, a: Action)
    requires Consistent(c, accountId, v, s) && HonestAction(c, v, s, a) && !c.isHash("")
    requires |s.ls[v].log| <= MAX_SAFE_INTEGER
    requires v in Next(c, accountId, v, s, a).system.ls ==>
               |Next(c, accountId, v, s, a).system.ls[v].log| <= MAX_SAFE_INTEGER
    ensures Consistent(c, accountId, v, Next(c, accountId, v, s, a).system)
    ensures Next(c, accountId, v, s, a).report in {Fine, WriteRefused, Failed(ServerFailed)}
    ensures a.Unlock? && Next(c, accountId, v, s, a).report == Fine ==>
              var s' := Next(c, accountId, v, s, a).system;
              s'.tab.Some? && Holds(c, v, s'.ls[v].genesis, s'.tab.value, s'.ls[v].log)
  {
    match a
    case Others(writes) => OthersKeep(c, accountId, v, s, writes);
    case Unlock(_) => UnlockIsFine(c, accountId, v, s, a);
    case Refresh(_) => if s.tab.Some? { RefreshIsFine(c, accountId, v, s, a); }
    case Save(_, _, _, _, _, _) => if s.tab.Some? { SaveIsFine(c, accountId, v, s, a); }
    case Lock =>
  }

  // ----- whole runs -----

  lemma {:induction false} RunLedgersGrow(ls: Ledgers, writes: seq<Write>)
    ensures LedgersGrow(ls, RunLedgers(ls, writes))
    decreases writes
  {
    if writes != [] {
      StepLedgersGrow(ls, writes[0]);
      RunLedgersGrow(StepLedgers(ls, writes[0]), writes[1..]);
      GrowTransitive(ls, StepLedgers(ls, writes[0]), RunLedgers(ls, writes));
    }
  }

  lemma {:induction false} ConverseGrows(c: Crypto, accountId: string, v: string, r: Replica, ls: Ledgers,
                                         chunks: seq<seq<Write>>)
    ensures LedgersGrow(ls, Converse(c, accountId, v, r, ls, chunks).ls)
    decreases chunks
  {
    if chunks != [] {
      var ls1 := RunLedgers(ls, chunks[0]);
      RunLedgersGrow(ls, chunks[0]);
      var answer := AtomicSync(ls1, accountId, v, r.head);
      if answer.SyncPage? && ApplyAll(c, v, r, answer.page.changes).Ok? {
        var r1 := ApplyAll(c, v, r, answer.page.changes).value;
        ConverseGrows(c, accountId, v, r1, ls1, chunks[1..]);
        GrowTransitive(ls, ls1, Converse(c, accountId, v, r1, ls1, chunks[1..]).ls);
      }
    }
  }

  lemma NextGrows(c: Crypto, accountId: string, v: string, s: System, a: Action)
    requires v in s.ls
    ensures LedgersGrow(s.ls, Next(c, accountId, v, s, a).system.ls)
  {
    match a
    case Others(writes) => RunLedgersGrow(s.ls, writes);
    case Unlock(chunks) =>
      var u := StartUnlock(c, HeadOf(s.ls[v].genesis, s.ls[v].log), s.ls[v].genesis, Load(s.store));
      if u.Ok? { ConverseGrows(c, accountId, v, u.value, s.ls, chunks); }
    case Refresh(chunks) =>
      if s.tab.Some? { ConverseGrows(c, accountId, v, s.tab.value, s.ls, chunks); }
    case Save(_, _, _, _, _, _) => if s.tab.Some? { SaveGrows(c, accountId, v, s, a); }
    case Lock =>
  }

  lemma SaveGrows(c: Crypto, accountId: string, v: string, s: System, a: Action)
    requires v in s.ls && a.Save? && s.tab.Some?
    ensures LedgersGrow(s.ls, Next(c, accountId, v, s, a).system.ls)
  {
    var ch := Build(c, v, s.tab.value.head, a.operation, a.itemId, a.revisionId, a.baseRevisionSeq, a.envelope);
    var ls1 := RunLedgers(s.ls, a.before);
    RunLedgersGrow(s.ls, a.before);
    StepLedgersGrow(ls1, RequestFor(accountId, v, ch));
    GrowTransitive(s.ls, ls1, StepLedgers(ls1, RequestFor(accountId, v, ch)));
  }

  ghost function After(c: Crypto, accountId: string, v: string, s: System, actions: seq<Action>): System
    requires v in s.ls
    decreases actions
  {
    if actions == [] then s
    else
      NextGrows(c, accountId, v, s, actions[0]);
      After(c, accountId, v, Next(c, accountId, v, s, actions[0]).system, actions[1..])
  }

  /** Every action is honest at the moment it is taken. */
  ghost predicate HonestRunOf(c: Crypto, accountId: string, v: string, s: System, actions: seq<Action>)
    requires v in s.ls
    decreases actions
  {
    actions != [] ==>
      && HonestAction(c, v, s, actions[0])
      && (NextGrows(c, accountId, v, s, actions[0]);
          HonestRunOf(c, accountId, v, Next(c, accountId, v, s, actions[0]).system, actions[1..]))
  }

  /** No action of the run reported anything but success, a stale write, or a lost connection. */
  ghost predicate NeverAlarms(c: Crypto, accountId: string, v: string, s: System, actions: seq<Action>)
    requires v in s.ls
    decreases actions
  {
    actions != [] ==>
      && Next(c, accountId, v, s, actions[0]).report in {Fine, WriteRefused, Failed(ServerFailed)}
      && (NextGrows(c, accountId, v, s, actions[0]);
          NeverAlarms(c, accountId, v, Next(c, accountId, v, s, actions[0]).system, actions[1..]))
  }

  lemma {:induction false} AfterGrows(c: Crypto, accountId: string, v: string, s: System, actions: seq<Action>)
    requires v in s.ls
    ensures v in After(c, accountId, v, s, actions).ls
    ensures |s.ls[v].log| <= |After(c, accountId, v, s, actions).ls[v].log|
    decreases actions
  {
    if actions != [] {
      NextGrows(c, accountId, v, s, actions[0]);
      AfterGrows(c, accountId, v, Next(c, accountId, v, s, actions[0]).system, actions[1..]);
    }
  }

  /** Over whole runs of honest actions, as long as the log fits in a safe integer, one tab never sees a
      rollback or fork error, and tab, store and server stay consistent. */
  lemma {:induction false} SingleTabNeverAlarms(c: Crypto, accountId: string, v: string, s: System,
                                                actions: seq<Action>)
    requires Consistent(c, accountId, v, s) && !c.isHash("") && HonestRunOf(c, accountId, v, s, actions)
    requires v in After(c, accountId, v, s, actions).ls ==>
               |After(c, accountId, v, s, actions).ls[v].log| <= MAX_SAFE_INTEGER
    ensures NeverAlarms(c, accountId, v, s, actions)
    ensures Consistent(c, accountId, v, After(c, accountId, v, s, actions))
    decreases actions
  {
    AfterGrows(c, accountId, v, s, actions);
    if actions != [] {
      NextGrows(c, accountId, v, s, actions[0]);
      AfterGrows(c, accountId, v, Next(c, accountId, v, s, actions[0]).system, actions[1..]);
      StepIsFine(c, accountId, v, s, actions[0]);
      SingleTabNeverAlarms(c, accountId, v, Next(c, accountId, v, s, actions[0]).system, actions[1..]);
    }
  }

  /** A newly registered vault, an empty store and no tab: where every such run starts. */
  lemma FreshIsConsistent(c: Crypto, accountId: string, v: string, ls: Ledgers, genesis: string)
    requires v !in ls && c.isHash(genesis)
    ensures Consistent(c, accountId, v, System(ls[v := Ledger(accountId, genesis, [])], EMPTY, None))
  {}
}
