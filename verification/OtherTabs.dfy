/** Checkpoints that other tabs saved after this tab unlocked: when the promise that an accepted log passes through
    every saved checkpoint is kept for them, and when it is not. */
module OtherTabs {
  import opened Results
  import opened Payloads
  import opened Chain
  import opened Checkpoints
  import opened VaultSync
  import opened Replica

  /** An unlocked vault at rest: its log is accepted, its own checkpoint proved, its head fit to be saved. */
  ghost predicate AtRest(c: Crypto, vaultId: string, genesis: string, r: Replica, log: seq<Change>) {
    && Holds(c, vaultId, genesis, r, log) && (r.checkpoint.Some? ==> r.verified)
    && IsValidHeadSeq(r.head.seqNo) && c.isHash(r.head.hash)
  }

  /** What the store loads as its highest checkpoint. */
  ghost predicate Stored(store: Store, other: Checkpoint) {
    OnRecord(Browser(store, map[])) && Load(store) == Ok(Some(other))
  }

  /** Whatever the server answers to the next sync, a log that it accepts passes through the checkpoint. */
  ghost predicate Kept(c: Crypto, vaultId: string, genesis: string, r: Replica, log: seq<Change>, store: Store,
                       other: Checkpoint)
  {
    forall pages, disk :: Sync(c, vaultId, r, pages, store, disk).error == None ==>
                            OnLog(genesis, log + Received(pages), other)
  }

  /** The same of a server that can only show changes whose texts holders of the key have MACed. */
  ghost predicate KeptAgainst(c: Crypto, issued: iset<string>, vaultId: string, genesis: string, r: Replica,
                              log: seq<Change>, store: Store, other: Checkpoint)
  {
    forall pages, disk ::
      Sync(c, vaultId, r, pages, store, disk).error == None && Unforged(c, issued, vaultId, log + Received(pages)) ==>
        OnLog(genesis, log + Received(pages), other)
  }

  // ----- one page can carry any accepted continuation -----

  lemma NextIsAccepted(c: Crypto, vaultId: string, genesis: string, r: Replica, log: seq<Change>, more: seq<Change>)
    requires Holds(c, vaultId, genesis, r, log) && (r.checkpoint.Some? ==> r.verified)
    requires Accepted(c, vaultId, genesis, log + more) && more != []
    ensures Apply(c, vaultId, r, more[0])
            == Ok(r.(head := HeadAfter(more[0]), items := ApplyItem(c, vaultId, r.items, more[0])))
  {
    var all := log + more;
    assert all[|log|] == more[0] && all[..|log|] == log;
    VerifyIff(c, vaultId, r.head, more[0]);
  }

  lemma {:induction false} ContinuationApplies(c: Crypto, vaultId: string, genesis: string, r: Replica,
                                               log: seq<Change>, more: seq<Change>)
    requires Holds(c, vaultId, genesis, r, log) && (r.checkpoint.Some? ==> r.verified)
    requires Accepted(c, vaultId, genesis, log + more)
    ensures var out := ApplyAll(c, vaultId, r, more);
            out.Ok? && out.value.head == HeadOf(genesis, log + more)
                && (out.value.checkpoint.Some? ==> out.value.verified)
    decreases more
  {
    if more == [] {
      assert log + more == log;
    } else {
      NextIsAccepted(c, vaultId, genesis, r, log, more);
      ApplyKeeps(c, vaultId, genesis, r, log, more[0]);
      FirstThenRest(log, more);
      ContinuationApplies(c, vaultId, genesis, Apply(c, vaultId, r, more[0]).value, log + [more[0]], more[1..]);
    }
  }

  lemma OnePageReplays(c: Crypto, vaultId: string, genesis: string, r: Replica, log: seq<Change>, more: seq<Change>)
    requires Holds(c, vaultId, genesis, r, log) && (r.checkpoint.Some? ==> r.verified)
    requires Accepted(c, vaultId, genesis, log + more)
    ensures var pages := [Page(r.head, HeadOf(genesis, log + more), false, more)];
            && Replay(c, vaultId, r, pages).result.Ok? && Received(pages) == more
            && Replay(c, vaultId, r, pages).result.value.head == HeadOf(genesis, log + more)
  {
    ContinuationApplies(c, vaultId, genesis, r, log, more);
  }

  // ----- what the write guard lets through -----

  /** The only test such a checkpoint meets: with nothing else wrong, a sync succeeds exactly when the checkpoint is
      lower than the new head, or is the new head. */
  lemma ComparedWithHeadOnly(c: Crypto, vaultId: string, r: Replica, pages: seq<Page>, store: Store, other: Checkpoint)
    requires Replay(c, vaultId, r, pages).result.Ok? && Stored(store, other)
    requires var head := Replay(c, vaultId, r, pages).result.value.head;
             IsValidHeadSeq(head.seqNo) && c.isHash(head.hash)
    ensures Sync(c, vaultId, r, pages, store, WRITABLE).error == None <==>
            var head := Replay(c, vaultId, r, pages).result.value.head;
            other.headSeq < head.seqNo || other == CheckpointOf(head)
  {
    var head := CheckpointOf(Replay(c, vaultId, r, pages).result.value.head);
    var b := Browser(store, map[]);
    LoadOfRecords(b);
    if other.headSeq < head.headSeq {
      HigherIsAllowed(b, head);
    } else if other == head {
      assert AddRecord(store, head) == store;
    }
  }

  lemma SuccessMeansAllowed(c: Crypto, vaultId: string, r: Replica, pages: seq<Page>, store: Store, disk: Disk,
                            other: Checkpoint)
    requires Stored(store, other) && Sync(c, vaultId, r, pages, store, disk).error == None
    ensures Replay(c, vaultId, r, pages).result.Ok?
    ensures var head := Replay(c, vaultId, r, pages).result.value.head;
            && IsValidHeadSeq(head.seqNo) && c.isHash(head.hash)
            && (other.headSeq < head.seqNo || other == CheckpointOf(head))
  {
  }

  // ----- exactly when the promise is kept -----

  /** A checkpoint below this tab's head: the promise is kept if and only if it is on this tab's log already, whether or
      not the server can forge. */
  lemma LowerIsKeptIff(c: Crypto, issued: iset<string>, vaultId: string, genesis: string, r: Replica, log: seq<Change>,
                       store: Store, other: Checkpoint)
    requires AtRest(c, vaultId, genesis, r, log) && Stored(store, other) && other.headSeq < r.head.seqNo
    ensures Kept(c, vaultId, genesis, r, log, store, other) <==> OnLog(genesis, log, other)
    ensures Unforged(c, issued, vaultId, log) ==>
              (KeptAgainst(c, issued, vaultId, genesis, r, log, store, other) <==> OnLog(genesis, log, other))
  {
    if OnLog(genesis, log, other) {
      OnLogIsKept(c, vaultId, genesis, r, log, store, other);
    } else {
      var pages := EmptyPageSucceeds(c, vaultId, genesis, r, log, store, other);
    }
  }

  /** Past a lower checkpoint, an empty last page is enough for a sync to succeed. */
  lemma EmptyPageSucceeds(c: Crypto, vaultId: string, genesis: string, r: Replica, log: seq<Change>, store: Store,
                          other: Checkpoint)
    returns (pages: seq<Page>)
    requires AtRest(c, vaultId, genesis, r, log) && Stored(store, other) && other.headSeq < r.head.seqNo
    ensures Sync(c, vaultId, r, pages, store, WRITABLE).error == None && log + Received(pages) == log
  {
    pages := [Page(r.head, HeadOf(genesis, log + []), false, [])];
    assert log + [] == log;
    OnePageReplays(c, vaultId, genesis, r, log, []);
    ComparedWithHeadOnly(c, vaultId, r, pages, store, other);
  }

  /** Once on this tab's log, on every later one. */
  lemma OnLogIsKept(c: Crypto, vaultId: string, genesis: string, r: Replica, log: seq<Change>, store: Store,
                    other: Checkpoint)
    requires OnLog(genesis, log, other)
    ensures Kept(c, vaultId, genesis, r, log, store, other)
  {
    forall pages, disk | Sync(c, vaultId, r, pages, store, disk).error == None
      ensures OnLog(genesis, log + Received(pages), other)
    {
      OnLogGrows(genesis, log, Received(pages), other);
    }
  }

  /** No other tab saved since this tab unlocked, or last saved itself: what the store holds is this tab's own
      checkpoint or head, and the promise is kept. */
  lemma OwnCheckpointIsKept(c: Crypto, vaultId: string, genesis: string, r: Replica, log: seq<Change>, store: Store,
                            other: Checkpoint)
    requires AtRest(c, vaultId, genesis, r, log) && Stored(store, other)
    requires r.checkpoint == Some(other) || other == CheckpointOf(r.head)
    ensures Kept(c, vaultId, genesis, r, log, store, other)
  {
    assert log[..|log|] == log;
    OnLogIsKept(c, vaultId, genesis, r, log, store, other);
  }

  // ----- at this tab's number or above -----

  /** An accepted continuation past the checkpoint's number, fit to be saved, with another hash at that number. */
  ghost predicate BuildsPast(c: Crypto, vaultId: string, genesis: string, log: seq<Change>, other: Checkpoint,
                             more: seq<Change>)
  {
    var all := log + more;
    && Accepted(c, vaultId, genesis, all) && 0 <= other.headSeq < |all| <= MAX_SAFE_INTEGER
    && c.isHash(HeadOf(genesis, all).hash)
    && HeadOf(genesis, all[..other.headSeq]).hash != other.headHash
  }

  /** Such a continuation made of changes that holders of the key have MACed. */
  ghost predicate ForkIssued(c: Crypto, issued: iset<string>, vaultId: string, genesis: string, log: seq<Change>,
                             other: Checkpoint, more: seq<Change>)
  {
    Unforged(c, issued, vaultId, log + more) && BuildsPast(c, vaultId, genesis, log, other, more)
  }

  /** With the numbering exact, only the entry at the checkpoint's number can be the checkpoint. */
  lemma OnLogAtItsNumber(c: Crypto, issued: iset<string>, vaultId: string, genesis: string, log: seq<Change>,
                         other: Checkpoint)
    requires Accepted(c, vaultId, genesis, log) && Unforged(c, issued, vaultId, log)
    ensures OnLog(genesis, log, other) <==>
            0 <= other.headSeq <= |log| && HeadOf(genesis, log[..other.headSeq]).hash == other.headHash
  {
    if k :| 0 <= k <= |log| && CheckpointOf(HeadOf(genesis, log[..k])) == other {
      PrefixNumber(c, issued, vaultId, genesis, log, k);
    }
    if 0 <= other.headSeq <= |log| {
      PrefixNumber(c, issued, vaultId, genesis, log, other.headSeq);
    }
  }

  lemma PrefixNumber(c: Crypto, issued: iset<string>, vaultId: string, genesis: string, log: seq<Change>, k: nat)
    requires Accepted(c, vaultId, genesis, log) && Unforged(c, issued, vaultId, log) && k <= |log|
    ensures HeadOf(genesis, log[..k]).seqNo == k
  {
    AcceptedPrefix(c, vaultId, genesis, log, k);
    UnforgedPrefix(c, issued, vaultId, log, k);
    AcceptedNumbering(c, issued, vaultId, genesis, log[..k]);
  }

  /** An accepted log past the checkpoint, or ending in it, that does not pass through it is a fork. */
  lemma NotOnLogIsFork(c: Crypto, issued: iset<string>, vaultId: string, genesis: string, log: seq<Change>,
                       other: Checkpoint, more: seq<Change>)
    requires Accepted(c, vaultId, genesis, log + more) && Unforged(c, issued, vaultId, log + more)
    requires |log| <= other.headSeq && !OnLog(genesis, log + more, other)
    requires var head := HeadOf(genesis, log + more);
             && IsValidHeadSeq(head.seqNo) && c.isHash(head.hash)
             && (other.headSeq < head.seqNo || other == CheckpointOf(head))
    ensures ForkIssued(c, issued, vaultId, genesis, log, other, more)
  {
    var all := log + more;
    AcceptedNumbering(c, issued, vaultId, genesis, all);
    OnLogAtItsNumber(c, issued, vaultId, genesis, all, other);
    assert all[..|all|] == all;
  }

  /** A sync that succeeds without passing through the checkpoint shows a fork that was issued. */
  lemma MissedMeansForkIssued(c: Crypto, issued: iset<string>, vaultId: string, genesis: string, r: Replica,
                              log: seq<Change>, store: Store, other: Checkpoint, pages: seq<Page>, disk: Disk)
    requires Holds(c, vaultId, genesis, r, log) && Stored(store, other) && |log| <= other.headSeq
    requires Sync(c, vaultId, r, pages, store, disk).error == None
    requires Unforged(c, issued, vaultId, log + Received(pages))
    requires !OnLog(genesis, log + Received(pages), other)
    ensures ForkIssued(c, issued, vaultId, genesis, log, other, Received(pages))
  {
    SuccessMeansAllowed(c, vaultId, r, pages, store, disk, other);
    ReplayKeeps(c, vaultId, genesis, r, log, pages);
    NotOnLogIsFork(c, issued, vaultId, genesis, log, other, Received(pages));
  }

  /** An issued fork fits on one page, and the sync that is shown it succeeds. */
  lemma ForkIssuedIsMissed(c: Crypto, issued: iset<string>, vaultId: string, genesis: string, r: Replica,
                           log: seq<Change>, store: Store, other: Checkpoint, more: seq<Change>)
    requires AtRest(c, vaultId, genesis, r, log) && Stored(store, other)
    requires ForkIssued(c, issued, vaultId, genesis, log, other, more)
    ensures !KeptAgainst(c, issued, vaultId, genesis, r, log, store, other)
  {
    var pages := [Page(r.head, HeadOf(genesis, log + more), false, more)];
    ShownForkSucceeds(c, issued, vaultId, genesis, r, log, store, other, more, pages);
    SuccessBreaksPromise(c, issued, vaultId, genesis, r, log, store, other, more, pages);
  }

  lemma SuccessBreaksPromise(c: Crypto, issued: iset<string>, vaultId: string, genesis: string, r: Replica,
                             log: seq<Change>, store: Store, other: Checkpoint, more: seq<Change>, pages: seq<Page>)
    requires ForkIssued(c, issued, vaultId, genesis, log, other, more) && Received(pages) == more
    requires Sync(c, vaultId, r, pages, store, WRITABLE).error == None
    ensures !KeptAgainst(c, issued, vaultId, genesis, r, log, store, other)
  {
    OnLogAtItsNumber(c, issued, vaultId, genesis, log + more, other);
  }

  lemma ShownForkSucceeds(c: Crypto, issued: iset<string>, vaultId: string, genesis: string, r: Replica,
                          log: seq<Change>, store: Store, other: Checkpoint, more: seq<Change>, pages: seq<Page>)
    requires AtRest(c, vaultId, genesis, r, log) && Stored(store, other)
    requires ForkIssued(c, issued, vaultId, genesis, log, other, more)
    requires pages == [Page(r.head, HeadOf(genesis, log + more), false, more)]
    ensures Sync(c, vaultId, r, pages, store, WRITABLE).error == None && Received(pages) == more
  {
    OnePageReplays(c, vaultId, genesis, r, log, more);
    AcceptedNumbering(c, issued, vaultId, genesis, log + more);
    ComparedWithHeadOnly(c, vaultId, r, pages, store, other);
  }

  /** A checkpoint at this tab's number or above: the promise is kept if and only if holders of the key have not MACed a
      continuation of this tab's log past the checkpoint on another way. */
  lemma AtOrAboveIsKeptIff(c: Crypto, issued: iset<string>, vaultId: string, genesis: string, r: Replica,
                           log: seq<Change>, store: Store, other: Checkpoint)
    requires AtRest(c, vaultId, genesis, r, log) && Stored(store, other) && |log| <= other.headSeq
    ensures KeptAgainst(c, issued, vaultId, genesis, r, log, store, other)
            <==> !exists more :: ForkIssued(c, issued, vaultId, genesis, log, other, more)
  {
    if more :| ForkIssued(c, issued, vaultId, genesis, log, other, more) {
      ForkIssuedIsMissed(c, issued, vaultId, genesis, r, log, store, other, more);
    } else {
      forall pages, disk | Sync(c, vaultId, r, pages, store, disk).error == None
                           && Unforged(c, issued, vaultId, log + Received(pages))
        ensures OnLog(genesis, log + Received(pages), other)
      {
        if !OnLog(genesis, log + Received(pages), other) {
          MissedMeansForkIssued(c, issued, vaultId, genesis, r, log, store, other, pages, disk);
        }
      }
    }
  }

  /** A change that may come next: authentic, on this tab's head, and MACed by a holder of the key. */
  ghost predicate IssuedNext(c: Crypto, issued: iset<string>, vaultId: string, head: Head, ch: Change) {
    Authentic(c, vaultId, ch) && Extends(head, ch) && ChangeTextOf(c, vaultId, ch) in issued
  }

  /** Another hash at this tab's own number: the promise is kept if and only if no single change has been MACed on this
      tab's head. */
  lemma SameNumberIsKeptIff(c: Crypto, issued: iset<string>, vaultId: string, genesis: string, r: Replica,
                            log: seq<Change>, store: Store, other: Checkpoint)
    requires AtRest(c, vaultId, genesis, r, log) && Stored(store, other) && Unforged(c, issued, vaultId, log)
    requires other.headSeq == r.head.seqNo < MAX_SAFE_INTEGER && other != CheckpointOf(r.head)
    requires forall t :: c.isHash(c.hmac(t))
    ensures KeptAgainst(c, issued, vaultId, genesis, r, log, store, other)
            <==> forall ch :: !IssuedNext(c, issued, vaultId, r.head, ch)
  {
    AcceptedNumbering(c, issued, vaultId, genesis, log);
    AtOrAboveIsKeptIff(c, issued, vaultId, genesis, r, log, store, other);
    if more :| ForkIssued(c, issued, vaultId, genesis, log, other, more) {
      FirstOfFork(c, issued, vaultId, genesis, log, more);
    }
    if ch :| IssuedNext(c, issued, vaultId, r.head, ch) {
      NextIsFork(c, issued, vaultId, genesis, log, other, ch);
    }
  }

  lemma FirstOfFork(c: Crypto, issued: iset<string>, vaultId: string, genesis: string, log: seq<Change>,
                    more: seq<Change>)
    requires Accepted(c, vaultId, genesis, log + more) && Unforged(c, issued, vaultId, log + more) && more != []
    ensures IssuedNext(c, issued, vaultId, HeadOf(genesis, log), more[0])
  {
    var all := log + more;
    assert all[|log|] == more[0] && all[..|log|] == log;
  }

  lemma NextIsFork(c: Crypto, issued: iset<string>, vaultId: string, genesis: string, log: seq<Change>,
                   other: Checkpoint, ch: Change)
    requires Accepted(c, vaultId, genesis, log) && Unforged(c, issued, vaultId, log)
    requires IssuedNext(c, issued, vaultId, HeadOf(genesis, log), ch) && c.isHash(ch.headHash)
    requires other.headSeq == |log| < MAX_SAFE_INTEGER && HeadOf(genesis, log).hash != other.headHash
    ensures ForkIssued(c, issued, vaultId, genesis, log, other, [ch])
  {
    AcceptedSnoc(c, vaultId, genesis, log, ch);
    assert (log + [ch])[..|log|] == log;
  }

  // ----- one line of history -----

  /** The texts of a log. */
  ghost function TextsOf(c: Crypto, vaultId: string, log: seq<Change>): iset<string> {
    iset i | 0 <= i < |log| :: ChangeTextOf(c, vaultId, log[i])
  }

  /** One text, one head: where two authentic changes have the same text, they lead to the same head. */
  lemma SameTextSameHead(c: Crypto, vaultId: string, x: Change, y: Change)
    requires Authentic(c, vaultId, x) && Authentic(c, vaultId, y)
    requires ChangeTextOf(c, vaultId, x) == ChangeTextOf(c, vaultId, y)
    ensures HeadAfter(x) == HeadAfter(y)
  {
    ChangeTextInjective(PayloadOf(vaultId, x, ExpectedEnvelopeHash(c, x.envelope)),
                        PayloadOf(vaultId, y, ExpectedEnvelopeHash(c, y.envelope)));
  }

  lemma EntryHead(c: Crypto, issued: iset<string>, vaultId: string, genesis: string, log: seq<Change>, k: nat)
    requires Accepted(c, vaultId, genesis, log) && Unforged(c, issued, vaultId, log) && k < |log|
    ensures HeadOf(genesis, log[..k + 1]) == HeadAfter(log[k]) && log[k].headSeq == k + 1
    ensures Authentic(c, vaultId, log[k]) && ChangeTextOf(c, vaultId, log[k]) in issued
  {
    PrefixNumber(c, issued, vaultId, genesis, log, k + 1);
    assert log[..k + 1][k] == log[k];
  }

  lemma TextIsOnLine(c: Crypto, vaultId: string, line: seq<Change>, ch: Change) returns (i: nat)
    requires ChangeTextOf(c, vaultId, ch) in TextsOf(c, vaultId, line)
    ensures i < |line| && ChangeTextOf(c, vaultId, ch) == ChangeTextOf(c, vaultId, line[i])
  {
    i :| i < |line| && ChangeTextOf(c, vaultId, ch) == ChangeTextOf(c, vaultId, line[i]);
  }

  lemma SameEntryHead(c: Crypto, vaultId: string, genesis: string, line: seq<Change>, all: seq<Change>, k: nat)
    requires Accepted(c, vaultId, genesis, line) && Unforged(c, TextsOf(c, vaultId, line), vaultId, line)
    requires Accepted(c, vaultId, genesis, all) && Unforged(c, TextsOf(c, vaultId, line), vaultId, all)
    requires k < |all|
    ensures k < |line| && HeadOf(genesis, all[..k + 1]) == HeadOf(genesis, line[..k + 1])
  {
    var issued := TextsOf(c, vaultId, line);
    EntryHead(c, issued, vaultId, genesis, all, k);
    var i := TextIsOnLine(c, vaultId, line, all[k]);
    EntryHead(c, issued, vaultId, genesis, line, i);
    SameTextSameHead(c, vaultId, all[k], line[i]);
  }

  /** As long as holders of the key have built one line of history only, every checkpoint on that line is kept, however
      far ahead of this tab another tab saved it. */
  lemma OneLineIsKept(c: Crypto, vaultId: string, genesis: string, r: Replica, log: seq<Change>, store: Store,
                      line: seq<Change>, other: Checkpoint)
    requires AtRest(c, vaultId, genesis, r, log) && Stored(store, other) && |log| <= other.headSeq
    requires Accepted(c, vaultId, genesis, line) && Unforged(c, TextsOf(c, vaultId, line), vaultId, line)
    requires OnLog(genesis, line, other)
    ensures KeptAgainst(c, TextsOf(c, vaultId, line), vaultId, genesis, r, log, store, other)
  {
    var issued := TextsOf(c, vaultId, line);
    AtOrAboveIsKeptIff(c, issued, vaultId, genesis, r, log, store, other);
    OnLogAtItsNumber(c, issued, vaultId, genesis, line, other);
    forall more ensures !ForkIssued(c, issued, vaultId, genesis, log, other, more) {
      if ForkIssued(c, issued, vaultId, genesis, log, other, more) {
        if other.headSeq > 0 {
          SameEntryHead(c, vaultId, genesis, line, log + more, other.headSeq - 1);
        }
      }
    }
  }

  // ----- a fork that goes unnoticed -----

  function FreshReplica(genesis: string): Replica {
    Replica(Head(0, genesis), None, true, map[])
  }

  /** Another tab saved head (1, x). This tab then accepts a log whose first head is (1, y) with y != x, because its
      second entry took the head past 1. */
  lemma ForkBelowHeadIsMissed(c: Crypto, vaultId: string, genesis: string, x: Change, y: Change, z: Change)
    requires Authentic(c, vaultId, y) && Authentic(c, vaultId, z)
    requires Extends(Head(0, genesis), y) && Extends(HeadAfter(y), z)
    requires x.headSeq == y.headSeq == 1 && z.headSeq == 2 && x.headHash != y.headHash && c.isHash(z.headHash)
    ensures var r, other := FreshReplica(genesis), CheckpointOf(HeadAfter(x));
            var pages := [Page(Head(0, genesis), HeadAfter(z), false, [y, z])];
            var s := Sync(c, vaultId, r, pages, Store(Some(other), [other], false), WRITABLE);
            && s.error == None && Holds(c, vaultId, genesis, s.replica, [y, z])
            && !OnLog(genesis, [y, z], other)
  {
    var r, other := FreshReplica(genesis), CheckpointOf(HeadAfter(x));
    var store := Store(Some(other), [other], false);
    var pages := [Page(Head(0, genesis), HeadAfter(z), false, [y, z])];
    TwoAreAccepted(c, vaultId, genesis, y, z);
    assert [] + [y, z] == [y, z];
    OnePageReplays(c, vaultId, genesis, r, [], [y, z]);
    OneRecord(other);
    ComparedWithHeadOnly(c, vaultId, r, pages, store, other);
    SyncExtendsOrKeeps(c, vaultId, genesis, r, [], pages, store, WRITABLE);
    ForkedPrefix(genesis, x, y, z);
  }

  lemma TwoAreAccepted(c: Crypto, vaultId: string, genesis: string, y: Change, z: Change)
    requires Authentic(c, vaultId, y) && Authentic(c, vaultId, z)
    requires Extends(Head(0, genesis), y) && Extends(HeadAfter(y), z)
    ensures Accepted(c, vaultId, genesis, [y, z]) && Holds(c, vaultId, genesis, FreshReplica(genesis), [])
  {
    assert [y, z][..0] == [] && [y, z][..1] == [y];
  }

  lemma OneRecord(cp: Checkpoint)
    ensures Stored(Store(Some(cp), [cp], false), cp)
  {
    FunctionalMeansNoConflict([cp], map[cp.headSeq := cp.headHash]);
    LoadOfRecords(Browser(Store(Some(cp), [cp], false), map[]));
  }

  lemma ForkedPrefix(genesis: string, x: Change, y: Change, z: Change)
    requires x.headSeq == y.headSeq == 1 && z.headSeq == 2 && x.headHash != y.headHash
    ensures !OnLog(genesis, [y, z], CheckpointOf(HeadAfter(x)))
  {
    assert [y, z][..0] == [] && [y, z][..1] == [y] && [y, z][..2] == [y, z];
  }

  /** A change as the page builds it for a new item. */
  function Created(c: Crypto, vaultId: string, head: Head, itemId: string, revisionId: string, e: Envelope): Change {
    Build(c, vaultId, head, "create", itemId, revisionId, 0, e)
  }

  /** The fork is real: two tabs create different items on the empty vault, the second creates one more, and the server
      shows the second tab's changes only. All three changes are as the page builds them. */
  lemma BuiltForkIsMissed(c: Crypto, vaultId: string, genesis: string, items: seq<string>, revisions: seq<string>,
                          envelopes: seq<Envelope>, x: Change, y: Change, z: Change)
    requires |items| == |revisions| == |envelopes| == 3 && items[0] != items[1]
    requires x == Created(c, vaultId, Head(0, genesis), items[0], revisions[0], envelopes[0])
    requires y == Created(c, vaultId, Head(0, genesis), items[1], revisions[1], envelopes[1])
    requires z == Created(c, vaultId, HeadAfter(y), items[2], revisions[2], envelopes[2])
    requires Opens(c, vaultId, x) && Opens(c, vaultId, y) && Opens(c, vaultId, z)
    requires NoCollisions(c, vaultId, [x], [y]) && c.isHash(z.headHash)
    ensures var other := CheckpointOf(HeadAfter(x));
            var pages := [Page(Head(0, genesis), HeadAfter(z), false, [y, z])];
            && Authentic(c, vaultId, x) && Extends(Head(0, genesis), x)
            && Sync(c, vaultId, FreshReplica(genesis), pages, Store(Some(other), [other], false),
                    WRITABLE).error == None
            && Unforged(c, TextsOf(c, vaultId, [x, y, z]), vaultId, [y, z])
            && !OnLog(genesis, [y, z], other)
            && !KeptAgainst(c, TextsOf(c, vaultId, [x, y, z]), vaultId, genesis, FreshReplica(genesis), [],
                            Store(Some(other), [other], false), other)
  {
    BuildIsAuthentic(c, vaultId, Head(0, genesis), "create", items[0], revisions[0], 0, envelopes[0]);
    BuildIsAuthentic(c, vaultId, Head(0, genesis), "create", items[1], revisions[1], 0, envelopes[1]);
    BuildIsAuthentic(c, vaultId, HeadAfter(y), "create", items[2], revisions[2], 0, envelopes[2]);
    HeadsApart(c, vaultId, x, y);
    ForkBelowHeadIsMissed(c, vaultId, genesis, x, y, z);
    ThreeAreIssued(c, vaultId, x, y, z);
    OnePage(Head(0, genesis), HeadAfter(z), y, z);
  }

  lemma OnePage(from: Head, to: Head, y: Change, z: Change)
    ensures [] + Received([Page(from, to, false, [y, z])]) == [y, z]
  {
  }

  /** Changes to different items lead to different heads. */
  lemma HeadsApart(c: Crypto, vaultId: string, x: Change, y: Change)
    requires Authentic(c, vaultId, x) && Authentic(c, vaultId, y) && x.itemId != y.itemId
    requires NoCollisions(c, vaultId, [x], [y])
    ensures x.headHash != y.headHash
  {
    if x.headHash == y.headHash {
      SameHeadHashSameChange(c, vaultId, [x], [y], 0, 0);
    }
  }

  /** The page could encrypt and can decrypt this change. */
  predicate Opens(c: Crypto, vaultId: string, ch: Change) {
    Supported(ch.envelope) && Plaintext(c, vaultId, ch).Some?
  }

  lemma ThreeAreIssued(c: Crypto, vaultId: string, x: Change, y: Change, z: Change)
    requires BuiltHonestly(c, vaultId, x) && BuiltHonestly(c, vaultId, y) && BuiltHonestly(c, vaultId, z)
    ensures Unforged(c, TextsOf(c, vaultId, [x, y, z]), vaultId, [y, z])
  {
    var three, issued := [x, y, z], TextsOf(c, vaultId, [x, y, z]);
    forall t | t in issued ensures exists p :: HonestPayload(p) && t == ChangeText(p) {
      var i :| 0 <= i < |three| && t == ChangeTextOf(c, vaultId, three[i]);
      HonestText(c, vaultId, three[i], t);
    }
    forall i | 0 <= i < |[y, z]| ensures ChangeTextOf(c, vaultId, [y, z][i]) in issued {
      assert [y, z][i] == three[i + 1];
    }
  }

  predicate BuiltHonestly(c: Crypto, vaultId: string, ch: Change) {
    HonestPayload(PayloadOf(vaultId, ch, ExpectedEnvelopeHash(c, ch.envelope)))
  }

  lemma HonestText(c: Crypto, vaultId: string, ch: Change, t: string)
    requires BuiltHonestly(c, vaultId, ch) && t == ChangeTextOf(c, vaultId, ch)
    ensures exists p :: HonestPayload(p) && t == ChangeText(p)
  {
    assert t == ChangeText(PayloadOf(vaultId, ch, ExpectedEnvelopeHash(c, ch.envelope)));
  }

  /** Hashes that are the hashed texts themselves, and ciphertexts that are plaintexts. */
  function TransparentCrypto(): Crypto {
    Crypto(t => t, t => t, (aad, e: Envelope) => Some(e.ciphertext), t => true)
  }

  /** One such run in full. */
  lemma TransparentForkIsMissed(e: Envelope)
    requires Supported(e)
    ensures var c := TransparentCrypto();
            var x := Created(c, "vault", Head(0, "genesis"), "a", "r1", e);
            var y := Created(c, "vault", Head(0, "genesis"), "b", "r2", e);
            var z := Created(c, "vault", HeadAfter(y), "c", "r3", e);
            var other := CheckpointOf(HeadAfter(x));
            var pages := [Page(Head(0, "genesis"), HeadAfter(z), false, [y, z])];
            && Sync(c, "vault", FreshReplica("genesis"), pages, Store(Some(other), [other], false),
                    WRITABLE).error == None
            && !OnLog("genesis", [y, z], other)
  {
    var c := TransparentCrypto();
    var x := Created(c, "vault", Head(0, "genesis"), "a", "r1", e);
    var y := Created(c, "vault", Head(0, "genesis"), "b", "r2", e);
    var z := Created(c, "vault", HeadAfter(y), "c", "r3", e);
    BuiltForkIsMissed(c, "vault", "genesis", ["a", "b", "c"], ["r1", "r2", "r3"], [e, e, e], x, y, z);
  }
}
