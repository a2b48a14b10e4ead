/** What a sync or an unlock comes to, for whatever the server answers: exactly when it succeeds, and which alarm is
    raised otherwise. */
module Outcomes {
  import opened Results
  import opened Payloads
  import opened Chain
  import opened Checkpoints
  import opened VaultSync
  import opened Replica
  import opened Paging

  // ----- one change -----

  /** None of the texts that two changes hash collide. */
  predicate NoClash(c: Crypto, vaultId: string, x: Change, y: Change) {
    && (c.sha(EnvelopeText(x.envelope)) == c.sha(EnvelopeText(y.envelope)) ==>
          EnvelopeText(x.envelope) == EnvelopeText(y.envelope))
    && (c.hmac(ChangeTextOf(c, vaultId, x)) == c.hmac(ChangeTextOf(c, vaultId, y)) ==>
          ChangeTextOf(c, vaultId, x) == ChangeTextOf(c, vaultId, y))
  }

  /** The same change under other identifiers, numbers or another operation. */
  predicate Relabelled(ch: Change, bad: Change) {
    bad == ch.(itemId := bad.itemId, revisionId := bad.revisionId, operation := bad.operation,
               revisionSeq := bad.revisionSeq, headSeq := bad.headSeq, baseRevisionSeq := bad.baseRevisionSeq)
  }

  /** Whatever a server changes in a true change is caught and named: a broken link, an envelope of another kind,
      another envelope under the same hash, anything the MAC covers, the MAC itself, or the head hash. */
  lemma TamperingIsNamed(c: Crypto, vaultId: string, head: Head, ch: Change, bad: Change)
    requires Authentic(c, vaultId, ch) && Extends(head, ch) && NoClash(c, vaultId, ch, bad)
    ensures Verify(c, vaultId, head, ch) == None
    ensures var e := Verify(c, vaultId, head, bad);
            && (!Extends(head, bad) ==> e == Some(ChainBroken))
            && (Extends(head, bad) ==>
                  && (bad.envelope.cryptoVersion != "item-envelope-v1" || bad.envelope.aead != "AES-256-GCM" ==>
                        e == Some(UnsupportedEnvelope))
                  && (bad == ch.(envelope := bad.envelope) && Supported(bad.envelope) && bad != ch ==>
                        e == Some(EnvelopeHashMismatch))
                  && (bad == ch.(envelopeHash := bad.envelopeHash) && bad != ch ==> e == Some(EnvelopeHashMismatch))
                  && (bad == ch.(changeMac := bad.changeMac) && bad != ch ==> e == Some(ChangeMacMismatch))
                  && (bad == ch.(headHash := bad.headHash) && bad != ch ==> e == Some(HeadHashMismatch))
                  && (bad != ch && Relabelled(ch, bad) ==> e == Some(ChangeMacMismatch)))
  {
    if EnvelopeText(ch.envelope) == EnvelopeText(bad.envelope) {
      EnvelopeTextInjective(ch.envelope, bad.envelope);
    }
    if ChangeTextOf(c, vaultId, ch) == ChangeTextOf(c, vaultId, bad) {
      ChangeTextInjective(PayloadOf(vaultId, ch, ExpectedEnvelopeHash(c, ch.envelope)),
                          PayloadOf(vaultId, bad, ExpectedEnvelopeHash(c, bad.envelope)));
    }
  }

  // ----- a sync -----

  function Reached(head: Head, changes: seq<Change>): Head {
    if changes == [] then head else HeadAfter(changes[|changes| - 1])
  }

  /** Each page starts at the head the pages before it lead to, and the last one names the head it leads to. */
  predicate Fits(head: Head, pages: seq<Page>)
    decreases pages
  {
    && pages != [] && pages[0].from == head
    && var reached := Reached(head, pages[0].changes);
       if pages[0].hasMore then Fits(reached, pages[1..]) else pages[0].to == reached
  }

  lemma ApplyReaches(c: Crypto, vaultId: string, r: Replica, ch: Change)
    requires Apply(c, vaultId, r, ch).Ok?
    ensures Apply(c, vaultId, r, ch).value.head == HeadAfter(ch)
  {}

  lemma ReachedFirst(head: Head, changes: seq<Change>)
    requires changes != []
    ensures Reached(head, changes) == Reached(HeadAfter(changes[0]), changes[1..])
  {}

  lemma {:induction false} ApplyAllReaches(c: Crypto, vaultId: string, r: Replica, changes: seq<Change>)
    requires ApplyAll(c, vaultId, r, changes).Ok?
    ensures ApplyAll(c, vaultId, r, changes).value.head == Reached(r.head, changes)
    decreases changes
  {
    if changes != [] {
      ApplyAllFirst(c, vaultId, r, changes);
      ApplyReaches(c, vaultId, r, changes[0]);
      ReachedFirst(r.head, changes);
      ApplyAllReaches(c, vaultId, Apply(c, vaultId, r, changes[0]).value, changes[1..]);
    }
  }

  lemma SucceededPage(c: Crypto, vaultId: string, r: Replica, pages: seq<Page>)
    requires Replay(c, vaultId, r, pages).result.Ok?
    ensures pages != [] && pages[0].from == r.head && ApplyAll(c, vaultId, r, pages[0].changes).Ok?
    ensures var r1 := ApplyAll(c, vaultId, r, pages[0].changes).value;
            if pages[0].hasMore then Replay(c, vaultId, r1, pages[1..]).result.Ok? else pages[0].to == r1.head
  {}

  lemma {:induction false} SuccessFits(c: Crypto, vaultId: string, r: Replica, pages: seq<Page>)
    requires Replay(c, vaultId, r, pages).result.Ok?
    ensures Fits(r.head, pages)
    decreases pages
  {
    SucceededPage(c, vaultId, r, pages);
    ApplyAllReaches(c, vaultId, r, pages[0].changes);
    if pages[0].hasMore {
      SuccessFits(c, vaultId, ApplyAll(c, vaultId, r, pages[0].changes).value, pages[1..]);
    }
  }

  /** The checkpoint is still to be met. */
  predicate Pending(r: Replica) {
    r.checkpoint.Some? && !r.verified
  }

  predicate MeetsAt(genesis: string, log: seq<Change>, cp: Checkpoint) {
    0 <= cp.headSeq <= |log| && CheckpointOf(HeadOf(genesis, log[..cp.headSeq])) == cp
  }

  lemma UnfoldFirst(c: Crypto, vaultId: string, r: Replica, pages: seq<Page>, r1: Replica)
    requires pages != [] && pages[0].from == r.head && ApplyAll(c, vaultId, r, pages[0].changes) == Ok(r1)
    requires !pages[0].hasMore ==> pages[0].to == r1.head
    ensures Replay(c, vaultId, r, pages).result ==
            if pages[0].hasMore then Replay(c, vaultId, r1, pages[1..]).result
            else if Pending(r1) then Err(CheckpointNotReached) else Ok(r1)
  {}

  /** A replica that is at place k of an accepted log, its checkpoint, if any, further up. */
  ghost predicate AtPlace(c: Crypto, vaultId: string, genesis: string, r: Replica, all: seq<Change>, k: nat) {
    && k <= |all| && HonestLog(c, vaultId, genesis, all) && Holds(c, vaultId, genesis, r, all[..k])
    && (Pending(r) ==> k < r.checkpoint.value.headSeq)
  }

  /** Up to the checkpoint's number, and past it on the checkpoint's own history, changes apply one after the other. */
  lemma AppliesNext(c: Crypto, vaultId: string, genesis: string, r: Replica, all: seq<Change>, k: nat)
    requires AtPlace(c, vaultId, genesis, r, all, k) && k < |all|
    ensures var a := Apply(c, vaultId, r, all[k]);
            if Pending(r) && r.checkpoint.value.headSeq == k + 1 && !MeetsAt(genesis, all, r.checkpoint.value)
            then a == Err(RollbackOrFork)
            else a.Ok? && AtPlace(c, vaultId, genesis, a.value, all, k + 1) && a.value.checkpoint == r.checkpoint
                 && (Pending(a.value) <==> Pending(r) && r.checkpoint.value.headSeq > k + 1)
  {
    VerifyIff(c, vaultId, r.head, all[k]);
    Prefixes(all, k);
    HeadOfPrefix(c, vaultId, genesis, all, k + 1);
    if Apply(c, vaultId, r, all[k]).Ok? {
      ApplyKeeps(c, vaultId, genesis, r, all[..k], all[k]);
    }
  }

  /** A change list ending at place m: it runs into the fork, or leaves the replica there. */
  ghost predicate Arrives(c: Crypto, vaultId: string, genesis: string, r: Replica, all: seq<Change>, m: nat,
                          a: Result<Replica, ClientError>)
  {
    m <= |all|
    && if Pending(r) && r.checkpoint.value.headSeq <= m && !MeetsAt(genesis, all, r.checkpoint.value)
       then a == Err(RollbackOrFork)
       else a.Ok? && AtPlace(c, vaultId, genesis, a.value, all, m) && a.value.checkpoint == r.checkpoint
            && (Pending(a.value) <==> Pending(r) && r.checkpoint.value.headSeq > m)
  }

  lemma {:induction false} AppliesSlice(c: Crypto, vaultId: string, genesis: string, r: Replica, all: seq<Change>,
                                        k: nat, m: nat, changes: seq<Change>)
    requires AtPlace(c, vaultId, genesis, r, all, k) && k <= m <= |all| && changes == all[k..m]
    ensures Arrives(c, vaultId, genesis, r, all, m, ApplyAll(c, vaultId, r, changes))
    decreases m - k
  {
    if k < m {
      SliceFirst(all, k, m);
      AppliesNext(c, vaultId, genesis, r, all, k);
      var a := Apply(c, vaultId, r, changes[0]);
      if a.Ok? {
        AppliesSlice(c, vaultId, genesis, a.value, all, k + 1, m, changes[1..]);
        ArrivesLater(c, vaultId, genesis, r, a.value, all, k + 1, m, ApplyAll(c, vaultId, a.value, changes[1..]));
        ApplyAllOk(c, vaultId, r, changes);
      } else {
        ApplyAllErr(c, vaultId, r, changes);
      }
    }
  }

  lemma ApplyAllOk(c: Crypto, vaultId: string, r: Replica, changes: seq<Change>)
    requires changes != [] && Apply(c, vaultId, r, changes[0]).Ok?
    ensures ApplyAll(c, vaultId, r, changes)
            == ApplyAll(c, vaultId, Apply(c, vaultId, r, changes[0]).value, changes[1..])
  {}

  lemma ApplyAllErr(c: Crypto, vaultId: string, r: Replica, changes: seq<Change>)
    requires changes != [] && Apply(c, vaultId, r, changes[0]).Err?
    ensures ApplyAll(c, vaultId, r, changes) == Err(Apply(c, vaultId, r, changes[0]).error)
  {}

  lemma ArrivesLater(c: Crypto, vaultId: string, genesis: string, r: Replica, r1: Replica, all: seq<Change>, k: nat,
                     m: nat, a: Result<Replica, ClientError>)
    requires k <= m && r1.checkpoint == r.checkpoint && (Pending(r1) <==> Pending(r) && r.checkpoint.value.headSeq > k)
    requires Pending(r) && r.checkpoint.value.headSeq <= k ==> MeetsAt(genesis, all, r.checkpoint.value)
    requires Arrives(c, vaultId, genesis, r1, all, m, a)
    ensures Arrives(c, vaultId, genesis, r, all, m, a)
  {}

  lemma FailsInFirst(c: Crypto, vaultId: string, r: Replica, pages: seq<Page>)
    requires pages != [] && pages[0].from == r.head && ApplyAll(c, vaultId, r, pages[0].changes).Err?
    ensures Replay(c, vaultId, r, pages).result == Err(ApplyAll(c, vaultId, r, pages[0].changes).error)
  {}

  lemma FitsFirst(head: Head, pages: seq<Page>)
    requires Fits(head, pages)
    ensures pages != [] && pages[0].from == head
    ensures var reached := Reached(head, pages[0].changes);
            if pages[0].hasMore then Fits(reached, pages[1..]) else pages[0].to == reached
  {}

  /** The last question of a sync. */
  function AskForCheckpoint(a: Result<Replica, ClientError>): Result<Replica, ClientError> {
    if a.Ok? && Pending(a.value) then Err(CheckpointNotReached) else a
  }

  lemma FittingPage(c: Crypto, vaultId: string, r: Replica, pages: seq<Page>, a: Result<Replica, ClientError>)
    requires Fits(r.head, pages) && a == ApplyAll(c, vaultId, r, pages[0].changes)
    ensures a.Err? || !pages[0].hasMore ==> Replay(c, vaultId, r, pages).result == AskForCheckpoint(a)
    ensures a.Ok? && pages[0].hasMore ==>
              Fits(a.value.head, pages[1..])
              && Replay(c, vaultId, r, pages).result == Replay(c, vaultId, a.value, pages[1..]).result
  {
    FitsFirst(r.head, pages);
    if a.Ok? {
      ApplyAllReaches(c, vaultId, r, pages[0].changes);
      UnfoldFirst(c, vaultId, r, pages, a.value);
    } else {
      FailsInFirst(c, vaultId, r, pages);
    }
  }

  lemma ReceivedParts(pages: seq<Page>)
    requires pages != []
    ensures Received(pages) == if pages[0].hasMore then pages[0].changes + Received(pages[1..]) else pages[0].changes
  {}

  lemma {:induction false} ApplyAllConcat(c: Crypto, vaultId: string, r: Replica, xs: seq<Change>, ys: seq<Change>)
    ensures ApplyAll(c, vaultId, r, xs + ys) ==
            if ApplyAll(c, vaultId, r, xs).Err? then ApplyAll(c, vaultId, r, xs)
            else ApplyAll(c, vaultId, ApplyAll(c, vaultId, r, xs).value, ys)
    decreases xs
  {
    if xs == [] {
      assert xs + ys == ys;
    } else {
      assert (xs + ys)[0] == xs[0] && (xs + ys)[1..] == xs[1..] + ys;
      if Apply(c, vaultId, r, xs[0]).Ok? {
        ApplyAllOk(c, vaultId, r, xs);
        ApplyAllOk(c, vaultId, r, xs + ys);
        ApplyAllConcat(c, vaultId, Apply(c, vaultId, r, xs[0]).value, xs[1..], ys);
      } else {
        ApplyAllErr(c, vaultId, r, xs);
        ApplyAllErr(c, vaultId, r, xs + ys);
      }
    }
  }

  /** Replaying pages that fit together is applying all they contain, and then asking for the checkpoint. */
  lemma {:induction false} FittingReplay(c: Crypto, vaultId: string, r: Replica, pages: seq<Page>)
    requires Fits(r.head, pages)
    ensures Replay(c, vaultId, r, pages).result == AskForCheckpoint(ApplyAll(c, vaultId, r, Received(pages)))
    decreases pages
  {
    var a := ApplyAll(c, vaultId, r, pages[0].changes);
    FittingPage(c, vaultId, r, pages, a);
    ReceivedParts(pages);
    if pages[0].hasMore {
      ApplyAllConcat(c, vaultId, r, pages[0].changes, Received(pages[1..]));
      if a.Ok? {
        FittingReplay(c, vaultId, a.value, pages[1..]);
      }
    }
  }

  /** A log that ends below the checkpoint's number does not reach it, one that passes that number with another hash
      is a rollback or fork, and any other is accepted whole. */
  ghost predicate EndsAs(c: Crypto, vaultId: string, genesis: string, r: Replica, all: seq<Change>,
                         out: Result<Replica, ClientError>)
  {
    if Pending(r) && r.checkpoint.value.headSeq > |all| then out == Err(CheckpointNotReached)
    else if Pending(r) && !MeetsAt(genesis, all, r.checkpoint.value) then out == Err(RollbackOrFork)
    else out.Ok? && Holds(c, vaultId, genesis, out.value, all) && !Pending(out.value)
  }

  lemma ArrivedAtEnd(c: Crypto, vaultId: string, genesis: string, r: Replica, all: seq<Change>,
                     a: Result<Replica, ClientError>)
    requires Arrives(c, vaultId, genesis, r, all, |all|, a)
    ensures EndsAs(c, vaultId, genesis, r, all, AskForCheckpoint(a))
  {
    assert all[..|all|] == all;
  }

  /** What replaying well fitting pages of a verifiable log comes to. */
  lemma ReplayOutcome(c: Crypto, vaultId: string, genesis: string, r: Replica, all: seq<Change>, k: nat,
                      pages: seq<Page>)
    requires AtPlace(c, vaultId, genesis, r, all, k) && Received(pages) == all[k..] && Fits(r.head, pages)
    ensures EndsAs(c, vaultId, genesis, r, all, Replay(c, vaultId, r, pages).result)
  {
    FittingReplay(c, vaultId, r, pages);
    AppliesRest(c, vaultId, genesis, r, all, k, Received(pages));
  }

  lemma AppliesRest(c: Crypto, vaultId: string, genesis: string, r: Replica, all: seq<Change>, k: nat,
                    rest: seq<Change>)
    requires AtPlace(c, vaultId, genesis, r, all, k) && rest == all[k..]
    ensures EndsAs(c, vaultId, genesis, r, all, AskForCheckpoint(ApplyAll(c, vaultId, r, rest)))
  {
    assert all[k..|all|] == rest;
    AppliesSlice(c, vaultId, genesis, r, all, k, |all|, rest);
    ArrivedAtEnd(c, vaultId, genesis, r, all, ApplyAll(c, vaultId, r, rest));
  }

  /** Exactly when a replay succeeds, for any answers with unforged MACs: the pages fit together from the replica's
      head, the log they continue verifies, and a checkpoint still to be met lies on it. */
  lemma ReplaySucceedsIff(c: Crypto, issued: iset<string>, vaultId: string, genesis: string, r: Replica,
                          log: seq<Change>, pages: seq<Page>)
    requires Holds(c, vaultId, genesis, r, log) && (Pending(r) ==> |log| < r.checkpoint.value.headSeq)
    requires Unforged(c, issued, vaultId, log + Received(pages))
    ensures Replay(c, vaultId, r, pages).result.Ok? <==>
            && Fits(r.head, pages) && Accepted(c, vaultId, genesis, log + Received(pages))
            && (Pending(r) ==> MeetsAt(genesis, log + Received(pages), r.checkpoint.value))
  {
    var all := log + Received(pages);
    if Replay(c, vaultId, r, pages).result.Ok? {
      SuccessFits(c, vaultId, r, pages);
      ReplayKeeps(c, vaultId, genesis, r, log, pages);
    }
    if Fits(r.head, pages) && Accepted(c, vaultId, genesis, all) {
      AcceptedNumbering(c, issued, vaultId, genesis, all);
      assert all[..|log|] == log && all[|log|..] == Received(pages);
      ReplayOutcome(c, vaultId, genesis, r, all, |log|, pages);
    }
  }

  // ----- an unlock -----

  /** The head the page starts from: the genesis the server names, or its own head when it names none. */
  function StartOf(serverHead: Head, genesis: string): string {
    if genesis != "" then genesis else serverHead.hash
  }

  predicate ServerHeadUsable(c: Crypto, serverHead: Head, genesis: string) {
    && 0 <= serverHead.seqNo <= 9007199254740991 && c.isHash(serverHead.hash)
    && (serverHead.seqNo > 0 ==> c.isHash(genesis))
  }

  /** A server head below the stored checkpoint is refused as behind it, one at its number with another hash as a fork
      of it, and nothing else is refused for the checkpoint before the first sync but a genesis that contradicts it.
      */
  lemma UnlockNamesTheDanger(c: Crypto, serverHead: Head, genesis: string, cp: Checkpoint)
    requires ServerHeadUsable(c, serverHead, genesis)
    ensures var u, start := StartUnlock(c, serverHead, genesis, Ok(Some(cp))), StartOf(serverHead, genesis);
            && (u == Err(ServerBehindCheckpoint) <==> serverHead.seqNo < cp.headSeq)
            && (u == Err(ServerForkedCheckpoint) <==> serverHead.seqNo == cp.headSeq && serverHead.hash != cp.headHash)
            && (u.Ok? <==> (serverHead.seqNo > cp.headSeq || CheckpointOf(serverHead) == cp)
                           && (cp.headSeq <= 0 ==> cp == Checkpoint(0, start)))
            && (u.Ok? ==> u.value == Replica(Head(0, start), Some(cp), cp.headSeq == 0, map[]))
  {
  }

  lemma UnlockFresh(c: Crypto, serverHead: Head, genesis: string)
    requires ServerHeadUsable(c, serverHead, genesis)
    ensures StartUnlock(c, serverHead, genesis, Ok(None))
            == Ok(Replica(Head(0, StartOf(serverHead, genesis)), None, true, map[]))
  {
  }

  /** What an unlock with a usable server head needs of the stored checkpoint and of the server's log. */
  predicate Agrees(start: string, serverHead: Head, log: seq<Change>, stored: Option<Checkpoint>) {
    stored.Some? ==>
      && (serverHead.seqNo > stored.value.headSeq || CheckpointOf(serverHead) == stored.value)
      && MeetsAt(start, log, stored.value)
  }

  lemma StartsIff(c: Crypto, vaultId: string, serverHead: Head, genesis: string, stored: Loaded, log: seq<Change>)
    requires ServerHeadUsable(c, serverHead, genesis) && stored.Ok?
    ensures var u, start := StartUnlock(c, serverHead, genesis, stored), StartOf(serverHead, genesis);
            && (Agrees(start, serverHead, log, stored.value) ==> u.Ok?)
            && (u.Ok? ==>
                  && Holds(c, vaultId, start, u.value, []) && u.value.head == Head(0, start)
                  && u.value.checkpoint == stored.value
                  && (Pending(u.value) ==> 0 < stored.value.value.headSeq)
                  && (Agrees(start, serverHead, log, stored.value) <==>
                        (Pending(u.value) ==> MeetsAt(start, log, stored.value.value))))
  {
    assert log[..0] == [];
    match stored.value
    case None => UnlockFresh(c, serverHead, genesis);
    case Some(cp) => UnlockNamesTheDanger(c, serverHead, genesis, cp);
    if StartUnlock(c, serverHead, genesis, stored).Ok? {
      StartUnlockHolds(c, vaultId, serverHead, genesis, stored);
    }
  }

  /** The head of a log that the highest stored checkpoint lies on may always be saved, storage and format permitting.
      */
  lemma SavesIff(c: Crypto, start: string, log: seq<Change>, store: Store, disk: Disk)
    requires OnRecord(Browser(store, map[])) && ProbeAndLoad(store, disk).Ok?
    requires HeadOf(start, log).seqNo == |log|
    requires Load(store).value.Some? ==> MeetsAt(start, log, Load(store).value.value)
    ensures Persist(store, CheckpointOf(HeadOf(start, log)), c.isHash, disk).error == None <==>
            |log| <= 9007199254740991 && c.isHash(HeadOf(start, log).hash) && disk.takesRecord && disk.takesPointer
  {
    var head := CheckpointOf(HeadOf(start, log));
    PersistAnswer(store, head, c.isHash, disk);
    LoadOfRecords(Browser(store, map[]));
    assert log[..|log|] == log;
    forall cp | cp in store.records ensures cp.headSeq <= head.headSeq && (cp.headSeq == head.headSeq ==> cp == head) {
      var top := Load(store).value.value;
      assert top in store.records;
      if cp.headSeq == top.headSeq {
        ConflictIsMembership(store.records, cp, top);
      }
    }
  }

  /** Exactly when an unlock goes through, for any answers with unforged MACs and any storage of the browser: the
      server's head is usable and neither behind nor beside the stored checkpoint, the pages fit together from the
      genesis, their log verifies and passes through the checkpoint, and its head can be stored. The checkpoint
      written next is then never refused as older or forked. */
  lemma UnlockSucceedsIff(c: Crypto, issued: iset<string>, vaultId: string, serverHead: Head, genesis: string,
                          store: Store, disk: Disk, pages: seq<Page>)
    requires OnRecord(Browser(store, map[])) && Unforged(c, issued, vaultId, Received(pages))
    ensures var stored, start, log := ProbeAndLoad(store, disk), StartOf(serverHead, genesis), Received(pages);
            var u := StartUnlock(c, serverHead, genesis, stored);
            (u.Ok? && Sync(c, vaultId, u.value, pages, store, disk).error == None) <==>
            && ServerHeadUsable(c, serverHead, genesis) && stored.Ok?
            && Agrees(start, serverHead, log, stored.value)
            && Fits(Head(0, start), pages) && Accepted(c, vaultId, start, log)
            && |log| <= 9007199254740991 && c.isHash(HeadOf(start, log).hash) && disk.takesRecord && disk.takesPointer
  {
    var stored, start, log := ProbeAndLoad(store, disk), StartOf(serverHead, genesis), Received(pages);
    var u := StartUnlock(c, serverHead, genesis, stored);
    if ServerHeadUsable(c, serverHead, genesis) && stored.Ok? {
      StartsIff(c, vaultId, serverHead, genesis, stored, log);
      if u.Ok? {
        assert [] + log == log;
        ReplaySucceedsIff(c, issued, vaultId, start, u.value, [], pages);
        if Replay(c, vaultId, u.value, pages).result.Ok? {
          ReplayKeeps(c, vaultId, start, u.value, [], pages);
          AcceptedNumbering(c, issued, vaultId, start, log);
          SavesIff(c, start, log, store, disk);
        }
      }
    }
  }
}
