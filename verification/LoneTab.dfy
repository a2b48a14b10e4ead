/** One tab over whole runs, whatever the server answers: unlocks, refreshes, saves and locks in any order, with a
    storage that may refuse a write at any moment. */
module LoneTab {
  import opened Results
  import opened Chain
  import opened Checkpoints
  import opened VaultSync
  import opened Replica

  /** A log and the genesis hash it was accepted over. */
  datatype History = History(genesis: string, log: seq<Change>)

  /** `at` is the tab's own log; `best` is the last log this browser accepted and put on record. */
  datatype Lone = Lone(store: Store, tab: Option<Replica>, at: History, best: Option<History>)

  datatype Action =
    | Unlock(serverHead: Head, genesis: string, pages: seq<Page>, disk: Disk)
    | Refresh(pages: seq<Page>, disk: Disk)
    | Save(change: Change, disk: Disk)
    | Lock

  function HeadOn(h: History): Checkpoint {
    CheckpointOf(HeadOf(h.genesis, h.log))
  }

  /** What a sync or a save that ended as `out` leaves: a refused checkpoint locks the vault, other failures keep it. */
  function Ended(c: Crypto, s: Lone, done: Result<Replica, ClientError>, candidate: History, out: Synced, disk: Disk,
                 keep: Option<Replica>): Lone
  {
    Lone(out.store,
         if out.error == None then Some(out.replica) else if out.error.value.CheckpointRefused? then None else keep,
         if out.error == None then candidate else s.at,
         if done.Ok? && RecordsHead(s.store, CheckpointOf(done.value.head), c.isHash, disk) then Some(candidate)
         else s.best)
  }

  function SyncFrom(c: Crypto, v: string, s: Lone, r: Replica, start: History, pages: seq<Page>, disk: Disk,
                    keep: Option<Replica>): Lone
  {
    Ended(c, s, Replay(c, v, r, pages).result, History(start.genesis, start.log + Received(pages)),
          Sync(c, v, r, pages, s.store, disk), disk, keep)
  }

  function GenesisUsed(serverHead: Head, genesis: string): string {
    if genesis != "" then genesis else serverHead.hash
  }

  /** The one check at unlock that fails after the vault object is in place leaves it there. */
  function LeftBehind(s: Lone, start: string, stored: Loaded): Lone
    requires stored.Ok?
  {
    s.(tab := Some(Replica(Head(0, start), stored.value, false, map[])), at := History(start, []))
  }

  function Next(c: Crypto, v: string, s: Lone, a: Action): Lone {
    match a
    case Unlock(serverHead, genesis, pages, disk) =>
      var stored, start := ProbeAndLoad(s.store, disk), GenesisUsed(serverHead, genesis);
      (match StartUnlock(c, serverHead, genesis, stored)
       case Ok(r) => SyncFrom(c, v, s, r, History(start, []), pages, disk, None)
       case Err(e) => if e == RollbackOrFork && stored.Ok? then LeftBehind(s, start, stored) else s.(tab := None))
    case Refresh(pages, disk) =>
      if s.tab.None? then s else SyncFrom(c, v, s, s.tab.value, s.at, pages, disk, s.tab)
    case Save(change, disk) =>
      if s.tab.None? then s
      else Ended(c, s, Apply(c, v, s.tab.value, change), History(s.at.genesis, s.at.log + [change]),
                 ApplyOwn(c, v, s.tab.value, change, s.store, disk), disk, s.tab)
    case Lock => s.(tab := None)
  }

  function Run(c: Crypto, v: string, s: Lone, actions: seq<Action>): Lone
    decreases actions
  {
    if actions == [] then s else Run(c, v, Next(c, v, s, actions[0]), actions[1..])
  }

  const FRESH := Lone(EMPTY, None, History("", []), None)

  // ----- what is assumed of the answers -----

  /** The log an action would have the browser accept. */
  function Candidate(s: Lone, a: Action): History {
    match a
    case Unlock(serverHead, genesis, pages, _) => History(GenesisUsed(serverHead, genesis), Received(pages))
    case Refresh(pages, _) => History(s.at.genesis, s.at.log + Received(pages))
    case Save(change, _) => History(s.at.genesis, s.at.log + [change])
    case Lock => s.at
  }

  /** If the log is accepted at all, its MACs were made by the browser's builder and its texts do not collide with
      those of the log on record. Nothing is assumed of answers that are refused. */
  ghost predicate Trusted(c: Crypto, issued: iset<string>, v: string, s: Lone, h: History) {
    Accepted(c, v, h.genesis, h.log) ==>
      Unforged(c, issued, v, h.log) && (s.best.Some? ==> NoCollisions(c, v, s.best.value.log, h.log))
  }

  ghost predicate TrustedRun(c: Crypto, issued: iset<string>, v: string, s: Lone, actions: seq<Action>)
    decreases actions
  {
    actions != [] ==>
      && Trusted(c, issued, v, s, Candidate(s, actions[0]))
      && TrustedRun(c, issued, v, Next(c, v, s, actions[0]), actions[1..])
  }

  // ----- the invariant -----

  /** Every record is a head on the best log, and the best log's own head is what loads. */
  ghost predicate RecordsOn(c: Crypto, issued: iset<string>, v: string, store: Store, best: Option<History>) {
    && (store.pointer.Some? ==> store.pointer.value in store.records)
    && match best
       case None => store.records == []
       case Some(h) =>
         && Accepted(c, v, h.genesis, h.log) && Unforged(c, issued, v, h.log)
         && (forall cp :: cp in store.records ==> OnLog(h.genesis, h.log, cp))
         && (store.damaged || Load(store) == Ok(Some(HeadOn(h))))
  }

  /** The tab is at the best log, or still has that log's head to prove. */
  ghost predicate Bound(c: Crypto, v: string, r: Replica, at: History, best: Option<History>) {
    && Holds(c, v, at.genesis, r, at.log)
    && (best == Some(at) || r.checkpoint == if best.None? then None else Some(HeadOn(best.value)))
  }

  ghost predicate Coherent(c: Crypto, issued: iset<string>, v: string, s: Lone) {
    RecordsOn(c, issued, v, s.store, s.best) && (s.tab.Some? ==> Bound(c, v, s.tab.value, s.at, s.best))
  }

  predicate Continues(earlier: Option<History>, later: Option<History>) {
    earlier.Some? ==> later.Some? && later.value.genesis == earlier.value.genesis
                      && earlier.value.log <= later.value.log
  }

  lemma LoadIsBest(c: Crypto, issued: iset<string>, v: string, store: Store, best: Option<History>)
    requires RecordsOn(c, issued, v, store, best) && Load(store).Ok?
    ensures Load(store).value == if best.None? then None else Some(HeadOn(best.value))
  {
    LoadOfRecords(Browser(store, map[]));
  }

  // ----- recording a new head -----

  /** The pointer does not matter to a load as long as it is among the records. */
  lemma PointerDoesNotMatter(store: Store, p: Checkpoint, h: Checkpoint)
    requires OnRecord(Browser(store, map[])) && Load(store) == Ok(Some(h)) && p in store.records
    ensures Load(store.(pointer := Some(p))) == Ok(Some(h))
  {
    var b, b' := Browser(store, map[]), Browser(store.(pointer := Some(p)), map[]);
    LoadOfRecords(b);
    LoadOfRecords(b');
    var h' := Load(b'.store).value.value;
    ConflictIsMembership(store.records, h, h');
  }

  /** A head that the write guard lets through is what loads once its record is there. */
  lemma AllowedHeadLoads(store: Store, head: Checkpoint)
    requires OnRecord(Browser(store, map[])) && LoadAndCheck(store, head) == None
    ensures Load(AddRecord(store, head)) == Ok(Some(head))
  {
    var b := Browser(store, map[]);
    LoadOfRecords(b);
    if Load(store).value == None || Load(store).value.value.headSeq < head.headSeq {
      HigherIsAllowed(b, head);
    } else {
      assert Load(store).value.value == head;
      assert AddRecord(store, head) == store;
    }
  }

  lemma RecordedHeadLoads(store: Store, head: Checkpoint, isHash: string -> bool, disk: Disk)
    requires OnRecord(Browser(store, map[])) && RecordsHead(store, head, isHash, disk)
    ensures Load(AddRecord(store, head)) == Ok(Some(head))
    ensures Persist(store, head, isHash, disk).store in
              {AddRecord(store, head), AddRecord(store, head).(pointer := Some(head))}
  {
    AllowedHeadLoads(store, head);
  }

  lemma PointedOn(c: Crypto, issued: iset<string>, v: string, st: Store, h: History)
    requires RecordsOn(c, issued, v, st, Some(h)) && Load(st) == Ok(Some(HeadOn(h))) && HeadOn(h) in st.records
    ensures RecordsOn(c, issued, v, st.(pointer := Some(HeadOn(h))), Some(h))
  {
    PointerDoesNotMatter(st, HeadOn(h), HeadOn(h));
  }

  lemma HeadsAdded(store: Store, best: Option<History>, h: History)
    requires Continues(best, Some(h)) && (best.None? ==> store.records == [])
    requires best.Some? ==> forall d :: d in store.records ==> OnLog(best.value.genesis, best.value.log, d)
    ensures forall cp :: cp in AddRecord(store, HeadOn(h)).records ==> OnLog(h.genesis, h.log, cp)
  {
    forall cp | cp in AddRecord(store, HeadOn(h)).records ensures OnLog(h.genesis, h.log, cp) {
      RecordOnLonger(store, best, h, cp);
    }
  }

  lemma AddedOn(c: Crypto, issued: iset<string>, v: string, store: Store, best: Option<History>, h: History)
    requires RecordsOn(c, issued, v, store, best) && Continues(best, Some(h))
    requires Accepted(c, v, h.genesis, h.log) && Unforged(c, issued, v, h.log)
    requires Load(AddRecord(store, HeadOn(h))) == Ok(Some(HeadOn(h)))
    ensures RecordsOn(c, issued, v, AddRecord(store, HeadOn(h)), Some(h))
  {
    HeadsAdded(store, best, h);
    assert store.pointer.Some? ==> store.pointer.value in AddRecord(store, HeadOn(h)).records;
  }

  /** A newly recorded head on a log that extends the best one keeps every record on it. */
  lemma RecordedOn(c: Crypto, issued: iset<string>, v: string, store: Store, best: Option<History>, h: History,
                   disk: Disk)
    requires RecordsOn(c, issued, v, store, best) && Continues(best, Some(h))
    requires Accepted(c, v, h.genesis, h.log) && Unforged(c, issued, v, h.log)
    requires RecordsHead(store, HeadOn(h), c.isHash, disk)
    ensures RecordsOn(c, issued, v, Persist(store, HeadOn(h), c.isHash, disk).store, Some(h))
  {
    RecordedHeadLoads(store, HeadOn(h), c.isHash, disk);
    AddedOn(c, issued, v, store, best, h);
    PointedOn(c, issued, v, AddRecord(store, HeadOn(h)), h);
  }

  lemma RecordOnLonger(store: Store, best: Option<History>, h: History, cp: Checkpoint)
    requires cp in store.records || cp == HeadOn(h)
    requires Continues(best, Some(h)) && (best.None? ==> store.records == [])
    requires best.Some? ==> forall d :: d in store.records ==> OnLog(best.value.genesis, best.value.log, d)
    ensures OnLog(h.genesis, h.log, cp)
  {
    if cp == HeadOn(h) {
      assert h.log[..|h.log|] == h.log;
    } else {
      var earlier := best.value.log;
      OnLogGrows(h.genesis, earlier, h.log[|earlier|..], cp);
      assert earlier + h.log[|earlier|..] == h.log;
    }
  }

  // ----- accepting a log -----

  /** The tab's log grew from `start` to `h` and its head may be recorded: `h` extends the best log. */
  lemma AcceptedExtendsBest(c: Crypto, issued: iset<string>, v: string, s: Lone, r: Replica, start: History,
                            r1: Replica, h: History, disk: Disk)
    requires RecordsOn(c, issued, v, s.store, s.best) && Bound(c, v, r, start, s.best)
    requires Holds(c, v, h.genesis, r1, h.log) && h.genesis == start.genesis && start.log <= h.log
    requires r1.checkpoint == r.checkpoint && Trusted(c, issued, v, s, h)
    requires r1.checkpoint.Some? && s.best != Some(start) ==> r1.verified
    ensures Continues(s.best, Some(h))
  {
    if s.best.Some? && s.best != Some(start) {
      PassesThroughOldLog(c, issued, v, s.best.value.genesis, s.best.value.log, h.genesis, r1, h.log);
    }
  }

  /** Either the new head goes on record, and the tab is at it or locked; or nothing changes but the lock. */
  lemma EndedUnfolds(c: Crypto, s: Lone, r: Replica, r1: Replica, h: History, disk: Disk, keep: Option<Replica>)
    requires r1.head == HeadOf(h.genesis, h.log)
    ensures var t := Ended(c, s, Ok(r1), h, PersistHead(c, r, r1, s.store, disk), disk, keep);
            if RecordsHead(s.store, HeadOn(h), c.isHash, disk) then
              && t.store == Persist(s.store, HeadOn(h), c.isHash, disk).store && t.best == Some(h)
              && (t.tab.Some? ==> t.tab == Some(r1) && t.at == h)
            else t == s.(tab := None)
  {
  }

  /** The end of a sync or save that was accepted up to its checkpoint. */
  lemma EndedIsCoherent(c: Crypto, issued: iset<string>, v: string, s: Lone, r: Replica, start: History, r1: Replica,
                        h: History, disk: Disk, keep: Option<Replica>)
    requires RecordsOn(c, issued, v, s.store, s.best) && Bound(c, v, r, start, s.best)
    requires Holds(c, v, h.genesis, r1, h.log) && h.genesis == start.genesis && start.log <= h.log
    requires r1.checkpoint == r.checkpoint && Trusted(c, issued, v, s, h)
    requires RecordsHead(s.store, HeadOn(h), c.isHash, disk) && r1.checkpoint.Some? && s.best != Some(start) ==>
               r1.verified
    ensures var t := Ended(c, s, Ok(r1), h, PersistHead(c, r, r1, s.store, disk), disk, keep);
            Coherent(c, issued, v, t) && Continues(s.best, t.best)
  {
    EndedUnfolds(c, s, r, r1, h, disk, keep);
    if RecordsHead(s.store, HeadOn(h), c.isHash, disk) {
      AcceptedExtendsBest(c, issued, v, s, r, start, r1, h, disk);
      RecordedOn(c, issued, v, s.store, s.best, h, disk);
    }
  }

  lemma SyncUnfolds(c: Crypto, v: string, s: Lone, r: Replica, start: History, pages: seq<Page>, disk: Disk,
                    keep: Option<Replica>)
    ensures var done, h := Replay(c, v, r, pages).result, History(start.genesis, start.log + Received(pages));
            && (done.Ok? ==> SyncFrom(c, v, s, r, start, pages, disk, keep)
                             == Ended(c, s, done, h, PersistHead(c, r, done.value, s.store, disk), disk, keep))
            && (done.Err? ==> SyncFrom(c, v, s, r, start, pages, disk, keep).store == s.store
                              && SyncFrom(c, v, s, r, start, pages, disk, keep).best == s.best
                              && SyncFrom(c, v, s, r, start, pages, disk, keep).at == s.at
                              && SyncFrom(c, v, s, r, start, pages, disk, keep).tab in {None, keep})
  {
  }

  lemma SyncIsCoherent(c: Crypto, issued: iset<string>, v: string, s: Lone, r: Replica, start: History,
                       pages: seq<Page>, disk: Disk, keep: Option<Replica>)
    requires RecordsOn(c, issued, v, s.store, s.best) && Bound(c, v, r, start, s.best)
    requires keep.Some? ==> Bound(c, v, keep.value, s.at, s.best)
    requires Trusted(c, issued, v, s, History(start.genesis, start.log + Received(pages)))
    ensures var t := SyncFrom(c, v, s, r, start, pages, disk, keep);
            Coherent(c, issued, v, t) && Continues(s.best, t.best)
  {
    var done, h := Replay(c, v, r, pages).result, History(start.genesis, start.log + Received(pages));
    SyncUnfolds(c, v, s, r, start, pages, disk, keep);
    if done.Ok? {
      ReplayKeeps(c, v, start.genesis, r, start.log, pages);
      EndedIsCoherent(c, issued, v, s, r, start, done.value, h, disk, keep);
    }
  }

  /** A save that passes the write guard has reached the checkpoint it still had to prove. */
  lemma SavePastCheckpoint(c: Crypto, issued: iset<string>, v: string, s: Lone, ch: Change, disk: Disk)
    requires Coherent(c, issued, v, s) && s.tab.Some? && Apply(c, v, s.tab.value, ch).Ok?
    requires var r1 := Apply(c, v, s.tab.value, ch).value;
             RecordsHead(s.store, CheckpointOf(r1.head), c.isHash, disk) && r1.checkpoint.Some? && s.best != Some(s.at)
    ensures Apply(c, v, s.tab.value, ch).value.verified
  {
    LoadIsBest(c, issued, v, s.store, s.best);
  }

  lemma SaveIsCoherent(c: Crypto, issued: iset<string>, v: string, s: Lone, ch: Change, disk: Disk)
    requires Coherent(c, issued, v, s) && s.tab.Some?
    requires Trusted(c, issued, v, s, History(s.at.genesis, s.at.log + [ch]))
    ensures var t := Next(c, v, s, Save(ch, disk));
            Coherent(c, issued, v, t) && Continues(s.best, t.best)
  {
    var r, h := s.tab.value, History(s.at.genesis, s.at.log + [ch]);
    if Apply(c, v, r, ch).Ok? {
      var r1 := Apply(c, v, r, ch).value;
      ApplyKeeps(c, v, s.at.genesis, r, s.at.log, ch);
      if RecordsHead(s.store, HeadOn(h), c.isHash, disk) && r1.checkpoint.Some? && s.best != Some(s.at) {
        SavePastCheckpoint(c, issued, v, s, ch, disk);
      }
      EndedIsCoherent(c, issued, v, s, r, s.at, r1, h, disk, s.tab);
    }
  }

  /** An unlock that starts is bound to the best log by the checkpoint it loaded. */
  lemma UnlockIsBound(c: Crypto, issued: iset<string>, v: string, s: Lone, serverHead: Head, genesis: string,
                      disk: Disk)
    requires RecordsOn(c, issued, v, s.store, s.best)
    ensures var stored, start := ProbeAndLoad(s.store, disk), GenesisUsed(serverHead, genesis);
            && (stored.Ok? ==> Bound(c, v, Replica(Head(0, start), stored.value, false, map[]), History(start, []),
                                     s.best))
            && var u := StartUnlock(c, serverHead, genesis, stored);
               u.Ok? ==> Bound(c, v, u.value, History(start, []), s.best)
  {
    var stored := ProbeAndLoad(s.store, disk);
    if stored.Ok? {
      LoadIsBest(c, issued, v, s.store, s.best);
      if StartUnlock(c, serverHead, genesis, stored).Ok? {
        StartUnlockHolds(c, v, serverHead, genesis, stored);
      }
    }
  }

  lemma UnlockUnfolds(c: Crypto, v: string, s: Lone, a: Action)
    requires a.Unlock?
    ensures var stored, start := ProbeAndLoad(s.store, a.disk), GenesisUsed(a.serverHead, a.genesis);
            match StartUnlock(c, a.serverHead, a.genesis, stored)
            case Ok(r) => Next(c, v, s, a) == SyncFrom(c, v, s, r, History(start, []), a.pages, a.disk, None)
            case Err(_) => Next(c, v, s, a) == s.(tab := None)
                           || (stored.Ok? && Next(c, v, s, a) == LeftBehind(s, start, stored))
  {
  }

  lemma UnlockIsCoherent(c: Crypto, issued: iset<string>, v: string, s: Lone, a: Action)
    requires Coherent(c, issued, v, s) && a.Unlock? && Trusted(c, issued, v, s, Candidate(s, a))
    ensures var t := Next(c, v, s, a);
            Coherent(c, issued, v, t) && Continues(s.best, t.best)
  {
    var stored, start := ProbeAndLoad(s.store, a.disk), GenesisUsed(a.serverHead, a.genesis);
    UnlockIsBound(c, issued, v, s, a.serverHead, a.genesis, a.disk);
    UnlockUnfolds(c, v, s, a);
    var u := StartUnlock(c, a.serverHead, a.genesis, stored);
    if u.Ok? {
      assert [] + Received(a.pages) == Received(a.pages);
      SyncIsCoherent(c, issued, v, s, u.value, History(start, []), a.pages, a.disk, None);
    }
  }

  lemma NextIsCoherent(c: Crypto, issued: iset<string>, v: string, s: Lone, a: Action)
    requires Coherent(c, issued, v, s) && Trusted(c, issued, v, s, Candidate(s, a))
    ensures Coherent(c, issued, v, Next(c, v, s, a)) && Continues(s.best, Next(c, v, s, a).best)
  {
    match a
    case Unlock(_, _, _, _) => UnlockIsCoherent(c, issued, v, s, a);
    case Refresh(pages, disk) =>
      if s.tab.Some? {
        SyncIsCoherent(c, issued, v, s, s.tab.value, s.at, pages, disk, s.tab);
      }
    case Save(ch, disk) =>
      if s.tab.Some? {
        SaveIsCoherent(c, issued, v, s, ch, disk);
      }
    case Lock =>
  }

  // ----- whole runs -----

  lemma {:induction false} RunIsCoherent(c: Crypto, issued: iset<string>, v: string, s: Lone, actions: seq<Action>)
    requires Coherent(c, issued, v, s) && TrustedRun(c, issued, v, s, actions)
    ensures Coherent(c, issued, v, Run(c, v, s, actions)) && Continues(s.best, Run(c, v, s, actions).best)
    decreases actions
  {
    if actions != [] {
      NextIsCoherent(c, issued, v, s, actions[0]);
      RunIsCoherent(c, issued, v, Next(c, v, s, actions[0]), actions[1..]);
    }
  }

  lemma {:induction false} RunInTwo(c: Crypto, issued: iset<string>, v: string, s: Lone, first: seq<Action>,
                                    rest: seq<Action>)
    requires TrustedRun(c, issued, v, s, first + rest)
    ensures TrustedRun(c, issued, v, s, first) && TrustedRun(c, issued, v, Run(c, v, s, first), rest)
    ensures Run(c, v, s, first + rest) == Run(c, v, Run(c, v, s, first), rest)
    decreases first
  {
    if first == [] {
      assert first + rest == rest;
    } else {
      assert (first + rest)[1..] == first[1..] + rest;
      RunInTwo(c, issued, v, Next(c, v, s, first[0]), first[1..], rest);
    }
  }

  /** From an empty browser, in every run and at any two moments of it: the log accepted later extends the log accepted
      earlier over the same genesis, and every stored record is a head on it. */
  lemma LaterLogsExtendEarlier(c: Crypto, issued: iset<string>, v: string, first: seq<Action>, rest: seq<Action>)
    requires TrustedRun(c, issued, v, FRESH, first + rest)
    ensures var earlier, later := Run(c, v, FRESH, first), Run(c, v, FRESH, first + rest);
            && Continues(earlier.best, later.best)
            && forall cp :: cp in later.store.records ==>
                              later.best.Some? && OnLog(later.best.value.genesis, later.best.value.log, cp)
  {
    RunInTwo(c, issued, v, FRESH, first, rest);
    RunIsCoherent(c, issued, v, FRESH, first);
    RunIsCoherent(c, issued, v, Run(c, v, FRESH, first), rest);
  }

  /** What a vault that has synced shows is the best log, and a checkpoint still to prove is that log's head. */
  lemma TabShowsBestLog(c: Crypto, issued: iset<string>, v: string, actions: seq<Action>)
    requires TrustedRun(c, issued, v, FRESH, actions)
    ensures var s := Run(c, v, FRESH, actions);
            s.tab.Some? ==> && Holds(c, v, s.at.genesis, s.tab.value, s.at.log)
                            && (s.best == Some(s.at)
                                || s.tab.value.checkpoint == if s.best.None? then None else Some(HeadOn(s.best.value)))
  {
    RunIsCoherent(c, issued, v, FRESH, actions);
  }
}
