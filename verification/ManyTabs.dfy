/** Any number of tabs on one store, whatever the server answers: every tab's unlocks, syncs and saves interleave at the
    single accesses to the storage. */
module ManyTabs {
  import opened Results
  import opened Chain
  import opened Checkpoints
  import opened VaultSync
  import opened Replica
  import opened LoneTab

  /** Where a tab stands in a persist, with the vault and the log it will commit. */
  datatype Saving =
    | NotSaving
    | Checked(next: Replica, log: History)   // the first check passed
    | Written(next: Replica, log: History)   // the record is written
    | Sure(next: Replica, log: History)      // the second check passed

  /** `at` is the tab's log; `base` is the log behind the highest record when it unlocked. */
  datatype Tab = Tab(vault: Option<Replica>, at: History, base: Option<History>, saving: Saving)

  /** A log that was put on record, and the base of the tab that did it. */
  datatype Entry = Entry(log: History, base: Option<History>)

  datatype Many = Many(store: Store, tabs: map<nat, Tab>, taken: seq<Entry>)

  datatype Action =
    | Open(tab: nat, serverHead: Head, genesis: string, disk: Disk)   // unlock, up to the first sync
    | SyncPages(tab: nat, pages: seq<Page>, disk: Disk)               // replay, up to the first check
    | SaveChange(tab: nat, change: Change, disk: Disk)                // apply, up to the first check
    | WriteRecord(tab: nat)
    | Reload(tab: nat)                                                // load and second check
    | WritePointer(tab: nat)                                          // and commit
    | Throw(tab: nat)                                                 // the storage refuses the tab's next access
    | Close(tab: nat)

  const CLOSED := Tab(None, History("", []), None, NotSaving)

  const START := Many(EMPTY, map[], [])

  function TabOf(s: Many, tab: nat): Tab {
    if tab in s.tabs then s.tabs[tab] else CLOSED
  }

  function WithTab(s: Many, tab: nat, t: Tab): Many {
    s.(tabs := s.tabs[tab := t])
  }

  predicate IsTaken(taken: seq<Entry>, h: History) {
    exists n :: 0 <= n < |taken| && taken[n].log == h
  }

  /** The log on record behind a checkpoint. */
  ghost function Behind(taken: seq<Entry>, cp: Checkpoint): Option<History> {
    if exists h :: IsTaken(taken, h) && HeadOn(h) == cp then
      var h :| IsTaken(taken, h) && HeadOn(h) == cp;
      Some(h)
    else None
  }

  ghost function DoOpen(c: Crypto, s: Many, tab: nat, serverHead: Head, genesis: string, disk: Disk): Many {
    var stored, start := ProbeAndLoad(s.store, disk), History(GenesisUsed(serverHead, genesis), []);
    if stored.Err? then WithTab(s, tab, CLOSED)
    else
      var base := if stored.value.None? then None else Behind(s.taken, stored.value.value);
      match StartUnlock(c, serverHead, genesis, stored)
      case Ok(r) => WithTab(s, tab, Tab(Some(r), start, base, NotSaving))
      case Err(e) =>
        if e != RollbackOrFork then WithTab(s, tab, CLOSED)
        else
          WithTab(s, tab, Tab(Some(Replica(Head(0, start.genesis), stored.value, false, map[])), start, base,
                              NotSaving))
  }

  /** The start of a persist: its first check, which locks the vault when it fails. */
  function Begin(c: Crypto, s: Many, tab: nat, next: Replica, h: History, disk: Disk): Many {
    var t, head := TabOf(s, tab), CheckpointOf(next.head);
    if IsValidHeadSeq(head.headSeq) && c.isHash(head.headHash) && disk.available && LoadAndCheck(s.store, head) == None
    then WithTab(s, tab, t.(saving := Checked(next, h)))
    else WithTab(s, tab, CLOSED)
  }

  /** A tab that is idle with its vault open. */
  predicate Ready(t: Tab) {
    t.vault.Some? && t.saving.NotSaving?
  }

  ghost function Next(c: Crypto, v: string, s: Many, a: Action): Many {
    var t := TabOf(s, a.tab);
    match a
    case Open(tab, serverHead, genesis, disk) => DoOpen(c, s, tab, serverHead, genesis, disk)
    case SyncPages(tab, pages, disk) =>
      if !Ready(t) || Replay(c, v, t.vault.value, pages).result.Err? then s
      else Begin(c, s, tab, Replay(c, v, t.vault.value, pages).result.value,
                 History(t.at.genesis, t.at.log + Received(pages)), disk)
    case SaveChange(tab, change, disk) =>
      if !Ready(t) || Apply(c, v, t.vault.value, change).Err? then s
      else Begin(c, s, tab, Apply(c, v, t.vault.value, change).value, History(t.at.genesis, t.at.log + [change]), disk)
    case WriteRecord(tab) => if !t.saving.Checked? then s else DoWriteRecord(s, tab, t)
    case Reload(tab) =>
      if !t.saving.Written? then s
      else if LoadAndCheck(s.store, CheckpointOf(t.saving.next.head)) != None then WithTab(s, tab, CLOSED)
      else WithTab(s, tab, t.(saving := Sure(t.saving.next, t.saving.log)))
    case WritePointer(tab) => if !t.saving.Sure? then s else DoCommit(s, tab, t)
    case Throw(tab) => if t.saving.NotSaving? then s else WithTab(s, tab, CLOSED)
    case Close(tab) => WithTab(s, tab, CLOSED)
  }

  function DoWriteRecord(s: Many, tab: nat, t: Tab): Many
    requires t.saving.Checked?
  {
    Many(AddRecord(s.store, CheckpointOf(t.saving.next.head)),
         s.tabs[tab := t.(saving := Written(t.saving.next, t.saving.log))],
         s.taken + [Entry(t.saving.log, t.base)])
  }

  function DoCommit(s: Many, tab: nat, t: Tab): Many
    requires t.saving.Sure?
  {
    Many(s.store.(pointer := Some(CheckpointOf(t.saving.next.head))),
         s.tabs[tab := Tab(Some(t.saving.next), t.saving.log, t.base, NotSaving)],
         s.taken)
  }

  ghost function Run(c: Crypto, v: string, s: Many, actions: seq<Action>): Many
    decreases actions
  {
    if actions == [] then s else Run(c, v, Next(c, v, s, actions[0]), actions[1..])
  }

  // ----- what is assumed of the answers -----

  /** The log an action would have its tab accept. */
  function Candidate(s: Many, a: Action): History {
    var at := TabOf(s, a.tab).at;
    match a
    case SyncPages(_, pages, _) => History(at.genesis, at.log + Received(pages))
    case SaveChange(_, change, _) => History(at.genesis, at.log + [change])
    case _ => at
  }

  /** If the log is accepted at all, its MACs were made by holders of the key, and its texts do not collide with those
      of the logs on record. Nothing is assumed of answers that are refused. */
  ghost predicate Trusted(c: Crypto, issued: iset<string>, v: string, s: Many, a: Action) {
    a.SyncPages? || a.SaveChange? ==>
      var h := Candidate(s, a);
      Accepted(c, v, h.genesis, h.log) ==>
        && Unforged(c, issued, v, h.log)
        && forall g :: IsTaken(s.taken, g) ==> NoCollisions(c, v, g.log, h.log)
  }

  ghost predicate TrustedRun(c: Crypto, issued: iset<string>, v: string, s: Many, actions: seq<Action>)
    decreases actions
  {
    actions != [] ==>
      && Trusted(c, issued, v, s, actions[0])
      && TrustedRun(c, issued, v, Next(c, v, s, actions[0]), actions[1..])
  }

  // ----- the invariant -----

  ghost predicate Good(c: Crypto, issued: iset<string>, v: string, h: History) {
    Accepted(c, v, h.genesis, h.log) && Unforged(c, issued, v, h.log)
  }

  /** Every record is the head of a log on record. */
  ghost predicate RecordsTaken(s: Many) {
    && (s.store.pointer.Some? ==> s.store.pointer.value in s.store.records)
    && forall cp :: cp in s.store.records ==> exists h :: IsTaken(s.taken, h) && HeadOn(h) == cp
  }

  /** A log went on record only as an extension of its tab's base. */
  ghost predicate EntryGood(c: Crypto, issued: iset<string>, v: string, taken: seq<Entry>, n: nat)
    requires n < |taken|
  {
    && Good(c, issued, v, taken[n].log) && Continues(taken[n].base, Some(taken[n].log))
    && (taken[n].base.Some? ==> IsTaken(taken[..n], taken[n].base.value))
  }

  /** The vault is what its log stands for; it has its base's head to prove, or has proved it. */
  ghost predicate Tied(c: Crypto, v: string, s: Many, r: Replica, at: History, base: Option<History>) {
    && Holds(c, v, at.genesis, r, at.log)
    && r.checkpoint == (if base.None? then None else Some(HeadOn(base.value)))
    && (base.Some? ==> IsTaken(s.taken, base.value) && HeadOn(base.value) in s.store.records)
    && (base.Some? && r.verified ==> Continues(base, Some(at)))
  }

  ghost predicate SavingGood(c: Crypto, issued: iset<string>, v: string, s: Many, t: Tab) {
    !t.saving.NotSaving? ==>
      && Tied(c, v, s, t.saving.next, t.saving.log, t.base) && Good(c, issued, v, t.saving.log)
      && Continues(t.base, Some(t.saving.log))
      && (t.saving.Written? || t.saving.Sure? ==> HeadOn(t.saving.log) in s.store.records)
  }

  ghost predicate TabGood(c: Crypto, issued: iset<string>, v: string, s: Many, t: Tab) {
    && (t.vault.Some? ==> Tied(c, v, s, t.vault.value, t.at, t.base))
    && SavingGood(c, issued, v, s, t)
  }

  ghost predicate Sound(c: Crypto, issued: iset<string>, v: string, s: Many) {
    && RecordsTaken(s)
    && (forall n :: 0 <= n < |s.taken| ==> EntryGood(c, issued, v, s.taken, n))
    && (forall tab :: tab in s.tabs ==> TabGood(c, issued, v, s, s.tabs[tab]))
  }

  // ----- more records, more logs -----

  predicate Grown(s: Many, t: Many) {
    && s.taken <= t.taken
    && forall cp :: cp in s.store.records ==> cp in t.store.records
  }

  lemma TakenStays(taken: seq<Entry>, more: seq<Entry>, h: History)
    requires IsTaken(taken, h) && taken <= more
    ensures IsTaken(more, h)
  {
    var n :| 0 <= n < |taken| && taken[n].log == h;
    assert more[n].log == h;
  }

  lemma TiedStays(c: Crypto, v: string, s: Many, t: Many, r: Replica, at: History, base: Option<History>)
    requires Tied(c, v, s, r, at, base) && Grown(s, t)
    ensures Tied(c, v, t, r, at, base)
  {
    if base.Some? {
      TakenStays(s.taken, t.taken, base.value);
    }
  }

  lemma TabStays(c: Crypto, issued: iset<string>, v: string, s: Many, t: Many, tab: Tab)
    requires TabGood(c, issued, v, s, tab) && Grown(s, t)
    ensures TabGood(c, issued, v, t, tab)
  {
    if tab.vault.Some? {
      TiedStays(c, v, s, t, tab.vault.value, tab.at, tab.base);
    }
    if !tab.saving.NotSaving? {
      TiedStays(c, v, s, t, tab.saving.next, tab.saving.log, tab.base);
    }
  }

  /** One tab changed, and the others see a store and a list that only grew. */
  lemma TabsStay(c: Crypto, issued: iset<string>, v: string, s: Many, t: Many, tab: nat)
    requires forall i :: i in s.tabs ==> TabGood(c, issued, v, s, s.tabs[i])
    requires Grown(s, t) && tab in t.tabs && TabGood(c, issued, v, t, t.tabs[tab])
    requires forall i :: i in t.tabs && i != tab ==> i in s.tabs && t.tabs[i] == s.tabs[i]
    ensures forall i :: i in t.tabs ==> TabGood(c, issued, v, t, t.tabs[i])
  {
    forall i | i in t.tabs ensures TabGood(c, issued, v, t, t.tabs[i]) {
      if i != tab {
        TabStays(c, issued, v, s, t, s.tabs[i]);
      }
    }
  }

  lemma ClosedIsGood(c: Crypto, issued: iset<string>, v: string, s: Many)
    ensures TabGood(c, issued, v, s, CLOSED)
  {
  }

  /** Only this tab changed, and it is good. */
  lemma OneTabIsSound(c: Crypto, issued: iset<string>, v: string, s: Many, tab: nat, t: Tab)
    requires Sound(c, issued, v, s) && TabGood(c, issued, v, s, t)
    ensures Sound(c, issued, v, WithTab(s, tab, t))
  {
    var s' := WithTab(s, tab, t);
    TabStays(c, issued, v, s, s', t);
    TabsStay(c, issued, v, s, s', tab);
  }

  lemma TabOfIsGood(c: Crypto, issued: iset<string>, v: string, s: Many, tab: nat)
    requires Sound(c, issued, v, s)
    ensures TabGood(c, issued, v, s, TabOf(s, tab))
  {
  }

  // ----- unlocking -----

  lemma LoadedIsRecorded(s: Many)
    requires RecordsTaken(s) && Load(s.store).Ok? && Load(s.store).value.Some?
    ensures var cp := Load(s.store).value.value;
            && cp in s.store.records && Behind(s.taken, cp).Some?
            && IsTaken(s.taken, Behind(s.taken, cp).value) && HeadOn(Behind(s.taken, cp).value) == cp
  {
    LoadOfRecords(Browser(s.store, map[]));
  }

  lemma OpenIsTied(c: Crypto, v: string, s: Many, r: Replica, start: History, base: Option<History>)
    requires RecordsTaken(s) && Load(s.store).Ok? && Holds(c, v, start.genesis, r, start.log)
    requires base == (if Load(s.store).value.None? then None else Behind(s.taken, Load(s.store).value.value))
    requires r.checkpoint == Load(s.store).value
    requires base.Some? && r.verified ==> Continues(base, Some(start))
    ensures Tied(c, v, s, r, start, base)
  {
    if Load(s.store).value.Some? {
      LoadedIsRecorded(s);
    }
  }

  lemma TakenIsGood(c: Crypto, issued: iset<string>, v: string, s: Many, h: History)
    requires Sound(c, issued, v, s) && IsTaken(s.taken, h)
    ensures Good(c, issued, v, h)
  {
    var n :| 0 <= n < |s.taken| && s.taken[n].log == h;
    assert EntryGood(c, issued, v, s.taken, n);
  }

  /** A checkpoint that the genesis head alone proves is that of the empty log. */
  lemma ProvedAtGenesis(c: Crypto, issued: iset<string>, v: string, h: History, genesis: string)
    requires Good(c, issued, v, h) && HeadOn(h) == CheckpointOf(Head(0, genesis))
    ensures h == History(genesis, [])
  {
    AcceptedNumbering(c, issued, v, h.genesis, h.log);
  }

  lemma StartedIsTied(c: Crypto, issued: iset<string>, v: string, s: Many, r: Replica, genesis: string)
    requires Sound(c, issued, v, s) && Load(s.store).Ok? && Holds(c, v, genesis, r, [])
    requires r.checkpoint == Load(s.store).value && r.head == Head(0, genesis)
    requires r.verified && r.checkpoint.Some? ==> r.checkpoint.value == CheckpointOf(r.head)
    ensures var base := if Load(s.store).value.None? then None else Behind(s.taken, Load(s.store).value.value);
            Tied(c, v, s, r, History(genesis, []), base)
  {
    var stored := Load(s.store).value;
    var base := if stored.None? then None else Behind(s.taken, stored.value);
    if stored.Some? {
      LoadedIsRecorded(s);
      if r.verified {
        TakenIsGood(c, issued, v, s, base.value);
        ProvedAtGenesis(c, issued, v, base.value, genesis);
      }
    }
    OpenIsTied(c, v, s, r, History(genesis, []), base);
  }

  /** What an unlock starts from, whether or not the genesis head proves its checkpoint. */
  lemma StartUnlockShape(c: Crypto, v: string, serverHead: Head, genesis: string, stored: Loaded)
    requires stored.Ok?
    ensures var u, start := StartUnlock(c, serverHead, genesis, stored), GenesisUsed(serverHead, genesis);
            u.Ok? ==> && Holds(c, v, start, u.value, []) && u.value.head == Head(0, start)
                      && u.value.checkpoint == stored.value
                      && (u.value.verified && u.value.checkpoint.Some? ==>
                            u.value.checkpoint.value == CheckpointOf(u.value.head))
    ensures var start := GenesisUsed(serverHead, genesis);
            Holds(c, v, start, Replica(Head(0, start), stored.value, false, map[]), [])
  {
    if StartUnlock(c, serverHead, genesis, stored).Ok? {
      StartUnlockHolds(c, v, serverHead, genesis, stored);
    }
  }

  lemma OpenIsSound(c: Crypto, issued: iset<string>, v: string, s: Many, tab: nat, serverHead: Head, genesis: string,
                    disk: Disk)
    requires Sound(c, issued, v, s)
    ensures Sound(c, issued, v, DoOpen(c, s, tab, serverHead, genesis, disk))
  {
    var stored, start := ProbeAndLoad(s.store, disk), GenesisUsed(serverHead, genesis);
    if stored.Ok? {
      StartUnlockShape(c, v, serverHead, genesis, stored);
      StartedIsTied(c, issued, v, s, Replica(Head(0, start), stored.value, false, map[]), start);
      var u := StartUnlock(c, serverHead, genesis, stored);
      if u.Ok? {
        StartedIsTied(c, issued, v, s, u.value, start);
      }
    }
    OneTabIsSound(c, issued, v, s, tab, DoOpen(c, s, tab, serverHead, genesis, disk).tabs[tab]);
  }

  // ----- accepting a log -----

  lemma AcceptedExtendsTheBase(c: Crypto, issued: iset<string>, v: string, s: Many, r1: Replica, h: History,
                               base: Option<History>)
    requires Sound(c, issued, v, s) && Holds(c, v, h.genesis, r1, h.log) && Unforged(c, issued, v, h.log)
    requires forall g :: IsTaken(s.taken, g) ==> NoCollisions(c, v, g.log, h.log)
    requires base.Some? ==> IsTaken(s.taken, base.value) && r1.checkpoint == Some(HeadOn(base.value)) && r1.verified
    ensures Continues(base, Some(h))
  {
    if base.Some? {
      TakenIsGood(c, issued, v, s, base.value);
      PassesThroughOldLog(c, issued, v, base.value.genesis, base.value.log, h.genesis, r1, h.log);
    }
  }

  lemma CheckedTabIsGood(c: Crypto, issued: iset<string>, v: string, s: Many, t: Tab, r1: Replica, h: History)
    requires TabGood(c, issued, v, s, t) && Ready(t) && Continues(t.base, Some(h))
    requires Holds(c, v, h.genesis, r1, h.log) && Unforged(c, issued, v, h.log)
    requires r1.checkpoint == t.vault.value.checkpoint
    ensures TabGood(c, issued, v, s, t.(saving := Checked(r1, h)))
  {
  }

  lemma CheckedIsSound(c: Crypto, issued: iset<string>, v: string, s: Many, tab: nat, r1: Replica, h: History)
    requires Sound(c, issued, v, s) && Ready(TabOf(s, tab))
    requires Holds(c, v, h.genesis, r1, h.log) && r1.checkpoint == TabOf(s, tab).vault.value.checkpoint
    requires Unforged(c, issued, v, h.log) && forall g :: IsTaken(s.taken, g) ==> NoCollisions(c, v, g.log, h.log)
    requires LoadAndCheck(s.store, HeadOn(h)) == None && (r1.checkpoint.Some? ==> r1.verified)
    ensures Sound(c, issued, v, WithTab(s, tab, TabOf(s, tab).(saving := Checked(r1, h))))
  {
    var t := TabOf(s, tab);
    TabOfIsGood(c, issued, v, s, tab);
    AcceptedExtendsTheBase(c, issued, v, s, r1, h, t.base);
    CheckedTabIsGood(c, issued, v, s, t, r1, h);
    OneTabIsSound(c, issued, v, s, tab, t.(saving := Checked(r1, h)));
  }

  lemma BeginIsSound(c: Crypto, issued: iset<string>, v: string, s: Many, tab: nat, r1: Replica, h: History, disk: Disk)
    requires Sound(c, issued, v, s) && Ready(TabOf(s, tab))
    requires Holds(c, v, h.genesis, r1, h.log) && r1.checkpoint == TabOf(s, tab).vault.value.checkpoint
    requires Unforged(c, issued, v, h.log) && forall g :: IsTaken(s.taken, g) ==> NoCollisions(c, v, g.log, h.log)
    requires LoadAndCheck(s.store, HeadOn(h)) == None && r1.checkpoint.Some? ==> r1.verified
    ensures Sound(c, issued, v, Begin(c, s, tab, r1, h, disk))
  {
    if LoadAndCheck(s.store, HeadOn(h)) == None {
      CheckedIsSound(c, issued, v, s, tab, r1, h);
    }
    OneTabIsSound(c, issued, v, s, tab, CLOSED);
  }

  lemma SyncIsSound(c: Crypto, issued: iset<string>, v: string, s: Many, a: Action)
    requires Sound(c, issued, v, s) && a.SyncPages? && Trusted(c, issued, v, s, a)
    ensures Sound(c, issued, v, Next(c, v, s, a))
  {
    var t := TabOf(s, a.tab);
    TabOfIsGood(c, issued, v, s, a.tab);
    if Ready(t) && Replay(c, v, t.vault.value, a.pages).result.Ok? {
      ReplayKeeps(c, v, t.at.genesis, t.vault.value, t.at.log, a.pages);
      BeginIsSound(c, issued, v, s, a.tab, Replay(c, v, t.vault.value, a.pages).result.value, Candidate(s, a), a.disk);
    }
  }

  /** A save that the first check lets through has reached the checkpoint its vault still had to prove: the checkpoint's
      record is still there. */
  lemma SaveHasProved(c: Crypto, v: string, s: Many, r: Replica, at: History, base: Option<History>, ch: Change)
    requires RecordsTaken(s) && Tied(c, v, s, r, at, base) && Apply(c, v, r, ch).Ok?
    requires var r1 := Apply(c, v, r, ch).value;
             LoadAndCheck(s.store, CheckpointOf(r1.head)) == None && r1.checkpoint.Some?
    ensures Apply(c, v, r, ch).value.verified
  {
    LoadOfRecords(Browser(s.store, map[]));
  }

  lemma SavedIsSound(c: Crypto, issued: iset<string>, v: string, s: Many, tab: nat, ch: Change, disk: Disk)
    requires Sound(c, issued, v, s) && Ready(TabOf(s, tab)) && Apply(c, v, TabOf(s, tab).vault.value, ch).Ok?
    requires Tied(c, v, s, TabOf(s, tab).vault.value, TabOf(s, tab).at, TabOf(s, tab).base)
    requires Trusted(c, issued, v, s, SaveChange(tab, ch, disk))
    ensures var t := TabOf(s, tab);
            Sound(c, issued, v, Begin(c, s, tab, Apply(c, v, t.vault.value, ch).value,
                                      History(t.at.genesis, t.at.log + [ch]), disk))
  {
    var t := TabOf(s, tab);
    var r1 := Apply(c, v, t.vault.value, ch).value;
    ApplyKeeps(c, v, t.at.genesis, t.vault.value, t.at.log, ch);
    if LoadAndCheck(s.store, CheckpointOf(r1.head)) == None && r1.checkpoint.Some? {
      SaveHasProved(c, v, s, t.vault.value, t.at, t.base, ch);
    }
    BeginIsSound(c, issued, v, s, tab, r1, History(t.at.genesis, t.at.log + [ch]), disk);
  }

  lemma SaveIsSound(c: Crypto, issued: iset<string>, v: string, s: Many, a: Action)
    requires Sound(c, issued, v, s) && a.SaveChange? && Trusted(c, issued, v, s, a)
    ensures Sound(c, issued, v, Next(c, v, s, a))
  {
    var t := TabOf(s, a.tab);
    TabOfIsGood(c, issued, v, s, a.tab);
    if Ready(t) && Apply(c, v, t.vault.value, a.change).Ok? {
      SavedIsSound(c, issued, v, s, a.tab, a.change, a.disk);
    }
  }

  // ----- going on record -----

  lemma NewEntryIsGood(c: Crypto, issued: iset<string>, v: string, taken: seq<Entry>, e: Entry)
    requires forall n :: 0 <= n < |taken| ==> EntryGood(c, issued, v, taken, n)
    requires Good(c, issued, v, e.log) && Continues(e.base, Some(e.log))
    requires e.base.Some? ==> IsTaken(taken, e.base.value)
    ensures forall n :: 0 <= n < |taken + [e]| ==> EntryGood(c, issued, v, taken + [e], n)
  {
    var more := taken + [e];
    forall n | 0 <= n < |more| ensures EntryGood(c, issued, v, more, n) {
      assert more[..n] == taken[..n];
      if n < |taken| {
        assert EntryGood(c, issued, v, taken, n);
      } else {
        assert taken[..n] == taken;
      }
    }
  }

  lemma RecordsStayTaken(s: Many, t: Many, h: History)
    requires RecordsTaken(s) && Grown(s, t) && IsTaken(t.taken, h)
    requires t.store.pointer == s.store.pointer
    requires forall cp :: cp in t.store.records ==> cp in s.store.records || cp == HeadOn(h)
    ensures RecordsTaken(t)
  {
    forall cp | cp in t.store.records ensures exists g :: IsTaken(t.taken, g) && HeadOn(g) == cp {
      if cp in s.store.records {
        var g :| IsTaken(s.taken, g) && HeadOn(g) == cp;
        TakenStays(s.taken, t.taken, g);
      }
    }
  }

  lemma WriteRecordGrows(s: Many, tab: nat, t: Tab)
    requires t.saving.Checked?
    ensures Grown(s, DoWriteRecord(s, tab, t))
  {
  }

  lemma WritingTabIsGood(c: Crypto, issued: iset<string>, v: string, s: Many, tab: nat, t: Tab)
    requires TabGood(c, issued, v, s, t) && t.saving.Checked?
    ensures var s' := DoWriteRecord(s, tab, t);
            tab in s'.tabs && TabGood(c, issued, v, s', s'.tabs[tab])
  {
    WriteRecordGrows(s, tab, t);
    TabStays(c, issued, v, s, DoWriteRecord(s, tab, t), t);
    assert CheckpointOf(t.saving.next.head) == HeadOn(t.saving.log);
  }

  lemma WrittenIsTaken(c: Crypto, issued: iset<string>, v: string, s: Many, tab: nat, t: Tab)
    requires RecordsTaken(s) && SavingGood(c, issued, v, s, t) && t.saving.Checked?
    requires forall n :: 0 <= n < |s.taken| ==> EntryGood(c, issued, v, s.taken, n)
    ensures var s' := DoWriteRecord(s, tab, t);
            RecordsTaken(s') && forall n :: 0 <= n < |s'.taken| ==> EntryGood(c, issued, v, s'.taken, n)
  {
    var s', h := DoWriteRecord(s, tab, t), t.saving.log;
    assert CheckpointOf(t.saving.next.head) == HeadOn(h);
    assert s'.taken[|s.taken|].log == h;
    WriteRecordGrows(s, tab, t);
    NewEntryIsGood(c, issued, v, s.taken, Entry(h, t.base));
    RecordsStayTaken(s, s', h);
  }

  lemma WriteRecordIsSound(c: Crypto, issued: iset<string>, v: string, s: Many, tab: nat)
    requires Sound(c, issued, v, s) && TabOf(s, tab).saving.Checked?
    ensures Sound(c, issued, v, DoWriteRecord(s, tab, TabOf(s, tab)))
  {
    var t := TabOf(s, tab);
    TabOfIsGood(c, issued, v, s, tab);
    WritingTabIsGood(c, issued, v, s, tab, t);
    WrittenIsTaken(c, issued, v, s, tab, t);
    WriteRecordGrows(s, tab, t);
    TabsStay(c, issued, v, s, DoWriteRecord(s, tab, t), tab);
  }

  lemma CommitIsSound(c: Crypto, issued: iset<string>, v: string, s: Many, tab: nat)
    requires Sound(c, issued, v, s) && TabOf(s, tab).saving.Sure?
    ensures Sound(c, issued, v, DoCommit(s, tab, TabOf(s, tab)))
  {
    var t := TabOf(s, tab);
    var s' := DoCommit(s, tab, t);
    TabOfIsGood(c, issued, v, s, tab);
    assert CheckpointOf(t.saving.next.head) == HeadOn(t.saving.log);
    TabStays(c, issued, v, s, s', t);
    TabsStay(c, issued, v, s, s', tab);
  }

  lemma ReloadIsSound(c: Crypto, issued: iset<string>, v: string, s: Many, tab: nat)
    requires Sound(c, issued, v, s)
    ensures Sound(c, issued, v, Next(c, v, s, Action.Reload(tab)))
  {
    var t := TabOf(s, tab);
    if t.saving.Written? {
      if LoadAndCheck(s.store, CheckpointOf(t.saving.next.head)) == None {
        TabOfIsGood(c, issued, v, s, tab);
        OneTabIsSound(c, issued, v, s, tab, t.(saving := Sure(t.saving.next, t.saving.log)));
      } else {
        OneTabIsSound(c, issued, v, s, tab, CLOSED);
      }
    }
  }

  lemma NextIsSound(c: Crypto, issued: iset<string>, v: string, s: Many, a: Action)
    requires Sound(c, issued, v, s) && Trusted(c, issued, v, s, a)
    ensures Sound(c, issued, v, Next(c, v, s, a))
  {
    match a
    case Open(tab, serverHead, genesis, disk) => OpenIsSound(c, issued, v, s, tab, serverHead, genesis, disk);
    case SyncPages(_, _, _) => SyncIsSound(c, issued, v, s, a);
    case SaveChange(_, _, _) => SaveIsSound(c, issued, v, s, a);
    case WriteRecord(tab) =>
      if TabOf(s, tab).saving.Checked? {
        WriteRecordIsSound(c, issued, v, s, tab);
      }
    case Reload(tab) => ReloadIsSound(c, issued, v, s, tab);
    case WritePointer(tab) =>
      if TabOf(s, tab).saving.Sure? {
        CommitIsSound(c, issued, v, s, tab);
      }
    case Throw(tab) => OneTabIsSound(c, issued, v, s, tab, CLOSED);
    case Close(tab) => OneTabIsSound(c, issued, v, s, tab, CLOSED);
  }

  lemma {:induction false} RunIsSound(c: Crypto, issued: iset<string>, v: string, s: Many, actions: seq<Action>)
    requires Sound(c, issued, v, s) && TrustedRun(c, issued, v, s, actions)
    ensures Sound(c, issued, v, Run(c, v, s, actions))
    decreases actions
  {
    if actions != [] {
      NextIsSound(c, issued, v, s, actions[0]);
      RunIsSound(c, issued, v, Next(c, v, s, actions[0]), actions[1..]);
    }
  }

  // ----- main results -----

  /** In every interleaving of tabs against any server, each stored record is the head of a log that some tab verified
      and put on record. */
  lemma RecordsAreAcceptedHeads(c: Crypto, issued: iset<string>, v: string, actions: seq<Action>, cp: Checkpoint)
    requires TrustedRun(c, issued, v, START, actions) && cp in Run(c, v, START, actions).store.records
    ensures exists h :: && IsTaken(Run(c, v, START, actions).taken, h) && HeadOn(h) == cp
                        && Accepted(c, v, h.genesis, h.log) && Unforged(c, issued, v, h.log)
  {
    RunIsSound(c, issued, v, START, actions);
    var s := Run(c, v, START, actions);
    var h :| IsTaken(s.taken, h) && HeadOn(h) == cp;
    TakenIsGood(c, issued, v, s, h);
  }

  /** No step opens the tab again. */
  predicate NotReopened(actions: seq<Action>, tab: nat) {
    forall i :: 0 <= i < |actions| ==> !(actions[i].Open? && actions[i].tab == tab)
  }

  /** Until it is opened again a tab keeps its base, or is closed. */
  lemma {:induction false} BaseStays(c: Crypto, v: string, s: Many, actions: seq<Action>, tab: nat,
                                     base: Option<History>)
    requires NotReopened(actions, tab) && (TabOf(s, tab).base == base || TabOf(s, tab) == CLOSED)
    ensures TabOf(Run(c, v, s, actions), tab).base == base || TabOf(Run(c, v, s, actions), tab) == CLOSED
    ensures TabOf(s, tab) == CLOSED ==> TabOf(Run(c, v, s, actions), tab) == CLOSED
    decreases actions
  {
    if actions != [] {
      NextKeepsBase(c, v, s, actions[0], tab);
      BaseStays(c, v, Next(c, v, s, actions[0]), actions[1..], tab, base);
    }
  }

  lemma NextKeepsBase(c: Crypto, v: string, s: Many, a: Action, tab: nat)
    requires !(a.Open? && a.tab == tab)
    ensures TabOf(Next(c, v, s, a), tab).base == TabOf(s, tab).base || TabOf(Next(c, v, s, a), tab) == CLOSED
    ensures TabOf(s, tab) == CLOSED ==> TabOf(Next(c, v, s, a), tab) == CLOSED
  {
  }

  lemma {:induction false} RunInTwo(c: Crypto, issued: iset<string>, v: string, s: Many, first: seq<Action>,
                                    rest: seq<Action>)
    requires TrustedRun(c, issued, v, s, first + rest)
    ensures TrustedRun(c, issued, v, s, first) && TrustedRun(c, issued, v, Run(c, v, s, first), rest)
    ensures Run(c, v, s, first + rest) == Run(c, v, Run(c, v, s, first), rest)
    decreases first
  {
    if first == [] {
      assert first + rest == rest;
    } else {
      assert (first + rest)[1..] == first[1..] + rest;
      RunInTwo(c, issued, v, Next(c, v, s, first[0]), first[1..], rest);
    }
  }

  /** The highest record at an unlock is the head of a log on record, and that log is the tab's base. */
  lemma OpenTakesHighest(c: Crypto, issued: iset<string>, v: string, s: Many, a: Action, cp: Checkpoint)
    requires Sound(c, issued, v, s) && a.Open? && Load(s.store) == Ok(Some(cp))
    ensures var t := TabOf(Next(c, v, s, a), a.tab);
            t == CLOSED || (t.base.Some? && IsTaken(s.taken, t.base.value) && HeadOn(t.base.value) == cp)
  {
    LoadedIsRecorded(s);
  }

  /** A tab unlocks in any run, and all tabs go on in any way, until it is unlocked again: every log it has then begun
      to save, and the log of its vault once its checkpoint is proved, extend a log that was on record when it unlocked
      and whose head was the highest record then. */
  lemma UnlockBindsTheTab(c: Crypto, issued: iset<string>, v: string, before: seq<Action>, open: Action,
                          after: seq<Action>, cp: Checkpoint)
    requires TrustedRun(c, issued, v, START, before + ([open] + after)) && open.Open? && NotReopened(after, open.tab)
    requires Load(Run(c, v, START, before).store) == Ok(Some(cp))
    ensures var s, t := Run(c, v, START, before), TabOf(Run(c, v, START, before + ([open] + after)), open.tab);
            t == CLOSED
            || exists g :: && IsTaken(s.taken, g) && HeadOn(g) == cp
                           && (!t.saving.NotSaving? ==> Continues(Some(g), Some(t.saving.log)))
                           && (t.vault.Some? && t.vault.value.verified ==> Continues(Some(g), Some(t.at)))
  {
    var s := Run(c, v, START, before);
    RunInTwo(c, issued, v, START, before, [open] + after);
    RunIsSound(c, issued, v, START, before);
    OpenTakesHighest(c, issued, v, s, open, cp);
    var s1 := Next(c, v, s, open);
    assert ([open] + after)[1..] == after;
    NextIsSound(c, issued, v, s, open);
    RunIsSound(c, issued, v, s1, after);
    BaseStays(c, v, s1, after, open.tab, TabOf(s1, open.tab).base);
    TabOfIsGood(c, issued, v, Run(c, v, s1, after), open.tab);
    if TabOf(Run(c, v, s1, after), open.tab) != CLOSED {
      assert TabOf(s1, open.tab) != CLOSED;
      assert IsTaken(s.taken, TabOf(s1, open.tab).base.value);
    }
  }

  /** Every log that went on record extends the base of the tab that recorded it, and that base was on record before. */
  lemma RecordedLogsExtendTheirBase(c: Crypto, issued: iset<string>, v: string, actions: seq<Action>, n: nat)
    requires TrustedRun(c, issued, v, START, actions) && n < |Run(c, v, START, actions).taken|
    ensures var taken := Run(c, v, START, actions).taken;
            && Continues(taken[n].base, Some(taken[n].log))
            && (taken[n].base.Some? ==> IsTaken(taken[..n], taken[n].base.value))
  {
    RunIsSound(c, issued, v, START, actions);
    assert EntryGood(c, issued, v, Run(c, v, START, actions).taken, n);
  }
}
