/** The browser's rollback evidence: append-only checkpoint records and one convenience pointer per
    vault in `localStorage`, shared by every tab of the origin. */
module Checkpoints {
  import opened Results

  datatype Checkpoint = Checkpoint(headSeq: int, headHash: string)

  /** Contents of `localStorage` for one vault: the pointer, and the records in key order. Text that does not parse
      as a checkpoint of the vault only shows as damage. */
  datatype Store = Store(pointer: Option<Checkpoint>, records: seq<Checkpoint>, damaged: bool)

  const EMPTY := Store(None, [], false)

  /** What the browser's storage allows: the probe write, and the two writes of a persist. */
  datatype Disk = Disk(available: bool, takesRecord: bool, takesPointer: bool)

  const WRITABLE := Disk(true, true, true)

  datatype LoadError = ConflictingHeads | Unreadable | Unavailable

  datatype PersistError = InvalidHead | NoStorage | StoredConflict | StoredDamage | NewerStored | ForkStored | NotSaved

  type Loaded = Result<Option<Checkpoint>, LoadError>

  const MAX_SAFE_INTEGER := 9007199254740991

  predicate IsValidHeadSeq(n: int) {
    0 <= n <= MAX_SAFE_INTEGER
  }

  // ----- what loading means -----

  predicate Conflicting(cs: seq<Checkpoint>) {
    exists i, j :: 0 <= i < |cs| && 0 <= j < |cs|
                   && cs[i].headSeq == cs[j].headSeq && cs[i].headHash != cs[j].headHash
  }

  function Highest(cs: seq<Checkpoint>): (c: Checkpoint)
    requires cs != []
    ensures c in cs && forall d :: d in cs ==> d.headSeq <= c.headSeq
  {
    if |cs| == 1 then cs[0]
    else
      var h := Highest(cs[..|cs| - 1]);
      var last := cs[|cs| - 1];
      assert cs == cs[..|cs| - 1] + [last];
      if last.headSeq > h.headSeq then last else h
  }

  /** An error exactly when two checkpoints disagree about one sequence number; else the highest. */
  function Latest(cs: seq<Checkpoint>): Loaded {
    if Conflicting(cs) then Err(ConflictingHeads)
    else if cs == [] then Ok(None)
    else Ok(Some(Highest(cs)))
  }

  function AllOf(st: Store): seq<Checkpoint> {
    (if st.pointer.Some? then [st.pointer.value] else []) + st.records
  }

  /** One text that does not parse makes every load throw. */
  function Load(st: Store): Loaded {
    if st.damaged then Err(Unreadable) else Latest(AllOf(st))
  }

  /** The load at unlock, which first probes the storage. */
  function ProbeAndLoad(st: Store, disk: Disk): Loaded {
    if disk.available then Load(st) else Err(Unavailable)
  }

  lemma ConflictIsMembership(cs: seq<Checkpoint>, c: Checkpoint, d: Checkpoint)
    requires c in cs && d in cs && c.headSeq == d.headSeq
    ensures Conflicting(cs) || c == d
  {
    var i :| 0 <= i < |cs| && cs[i] == c;
    var j :| 0 <= j < |cs| && cs[j] == d;
  }

  lemma FunctionalMeansNoConflict(cs: seq<Checkpoint>, hashes: map<int, string>)
    requires forall i :: 0 <= i < |cs| ==> cs[i].headSeq in hashes && hashes[cs[i].headSeq] == cs[i].headHash
    ensures !Conflicting(cs)
  {}

  lemma HighestOfPrefix(cs: seq<Checkpoint>, n: nat)
    requires n < |cs|
    ensures Highest(cs[..n + 1]) ==
            if n == 0 || cs[n].headSeq > Highest(cs[..n]).headSeq then cs[n] else Highest(cs[..n])
  {
    assert cs[..n + 1][..n] == cs[..n];
  }

  /** `hashes` records the hash of each of the first n checkpoints, `seenAt` where it was read. */
  ghost predicate Tracks(cs: seq<Checkpoint>, n: nat, hashes: map<int, string>, seenAt: map<int, nat>)
    requires n <= |cs|
  {
    && (forall k :: k in hashes ==> k in seenAt && seenAt[k] < n && cs[seenAt[k]] == Checkpoint(k, hashes[k]))
    && (forall i :: 0 <= i < n ==> cs[i].headSeq in hashes && hashes[cs[i].headSeq] == cs[i].headHash)
  }

  lemma TrackNext(cs: seq<Checkpoint>, n: nat, hashes: map<int, string>, seenAt: map<int, nat>)
    requires n < |cs| && Tracks(cs, n, hashes, seenAt)
    requires cs[n].headSeq in hashes ==> hashes[cs[n].headSeq] == cs[n].headHash
    ensures Tracks(cs, n + 1, hashes[cs[n].headSeq := cs[n].headHash], seenAt[cs[n].headSeq := n])
  {}

  /** The loop that keeps the latest checkpoint and a map of the hash seen at each sequence. */
  method LatestVaultCheckpoint(cs: seq<Checkpoint>) returns (r: Loaded)
    requires forall i :: 0 <= i < |cs| ==> cs[i].headHash != ""
    ensures r == Latest(cs)
  {
    var latest: Option<Checkpoint> := None;
    var hashesBySeq: map<int, string> := map[];
    ghost var seenAt: map<int, nat> := map[];
    for n := 0 to |cs|
      invariant Tracks(cs, n, hashesBySeq, seenAt)
      invariant latest == if n == 0 then None else Some(Highest(cs[..n]))
    {
      var c := cs[n];
      if c.headSeq in hashesBySeq && hashesBySeq[c.headSeq] != "" && hashesBySeq[c.headSeq] != c.headHash {
        ConflictIsMembership(cs, cs[seenAt[c.headSeq]], c);
        return Err(ConflictingHeads);
      }
      TrackNext(cs, n, hashesBySeq, seenAt);
      hashesBySeq := hashesBySeq[c.headSeq := c.headHash];
      seenAt := seenAt[c.headSeq := n];
      HighestOfPrefix(cs, n);
      if latest == None || c.headSeq > latest.value.headSeq {
        latest := Some(c);
      }
    }
    assert cs[..|cs|] == cs;
    FunctionalMeansNoConflict(cs, hashesBySeq);
    return Ok(latest);
  }

  // ----- persisting -----

  /** The write guard; `None` when writing `head` is allowed. */
  function MonotonicWrite(existing: Option<Checkpoint>, head: Checkpoint): Option<PersistError> {
    if existing == None then None
    else if existing.value.headSeq > head.headSeq then Some(NewerStored)
    else if existing.value.headSeq == head.headSeq && existing.value.headHash != head.headHash then Some(ForkStored)
    else None
  }

  function LoadFailure(e: LoadError): PersistError {
    match e
    case ConflictingHeads => StoredConflict
    case Unreadable => StoredDamage
    case Unavailable => NoStorage
  }

  function LoadAndCheck(st: Store, head: Checkpoint): Option<PersistError> {
    match Load(st)
    case Err(e) => Some(LoadFailure(e))
    case Ok(existing) => MonotonicWrite(existing, head)
  }

  function AddRecord(st: Store, c: Checkpoint): Store {
    if c in st.records then st else st.(records := st.records + [c])
  }

  datatype Persisted = Persisted(store: Store, error: Option<PersistError>)

  /** Whether a persist gets as far as its record write, and the write is taken. */
  predicate RecordsHead(st: Store, head: Checkpoint, isHash: string -> bool, disk: Disk) {
    && IsValidHeadSeq(head.headSeq) && isHash(head.headHash) && disk.available
    && LoadAndCheck(st, head) == None && disk.takesRecord
  }

  /** A persist that no other tab interrupts. A refusal after the record is written leaves it written. */
  function Persist(st: Store, head: Checkpoint, isHash: string -> bool, disk: Disk): Persisted {
    if !IsValidHeadSeq(head.headSeq) || !isHash(head.headHash) then Persisted(st, Some(InvalidHead))
    else if !disk.available then Persisted(st, Some(NoStorage))
    else if LoadAndCheck(st, head) != None then Persisted(st, LoadAndCheck(st, head))
    else if !disk.takesRecord then Persisted(st, Some(NotSaved))
    else
      var st1 := AddRecord(st, head);
      if LoadAndCheck(st1, head) != None then Persisted(st1, LoadAndCheck(st1, head))
      else if !disk.takesPointer then Persisted(st1, Some(NotSaved))
      else Persisted(st1.(pointer := Some(head)), None)
  }

  class LocalStorage {
    var pointer: Option<Checkpoint>
    var records: seq<Checkpoint>
    var damaged: bool

    function View(): Store
      reads this
    {
      Store(pointer, records, damaged)
    }

    /** Stored records have been parsed: their hashes are 32-byte texts, so not empty. */
    predicate Valid()
      reads this
    {
      && (pointer.Some? ==> pointer.value.headHash != "")
      && forall i :: 0 <= i < |records| ==> records[i].headHash != ""
    }

    constructor ()
      ensures View() == EMPTY && Valid()
    {
      pointer, records, damaged := None, [], false;
    }

    method LoadVaultCheckpoint() returns (r: Loaded)
      requires Valid()
      ensures r == Load(View())
    {
      if damaged {
        return Err(Unreadable);
      }
      var checkpoints := [];
      if pointer.Some? {
        checkpoints := checkpoints + [pointer.value];
      }
      for index := 0 to |records|
        invariant checkpoints == (if pointer.Some? then [pointer.value] else []) + records[..index]
      {
        checkpoints := checkpoints + [records[index]];
      }
      assert records[..|records|] == records;
      r := LatestVaultCheckpoint(checkpoints);
    }

    /** The load and the write guard, as a persist does them before each of its writes. */
    method LoadAndGuard(head: Checkpoint) returns (error: Option<PersistError>)
      requires Valid()
      ensures error == LoadAndCheck(View(), head)
    {
      var existing := LoadVaultCheckpoint();
      match existing
      case Err(e) => return Some(LoadFailure(e));
      case Ok(latest) => return MonotonicWrite(latest, head);
    }

    method PersistVaultCheckpoint(head: Checkpoint, isHash: string -> bool, disk: Disk)
      returns (error: Option<PersistError>)
      requires Valid() && !isHash("")
      modifies this
      ensures Valid()
      ensures View() == Persist(old(View()), head, isHash, disk).store
      ensures error == Persist(old(View()), head, isHash, disk).error
    {
      if !IsValidHeadSeq(head.headSeq) || !isHash(head.headHash) {
        return Some(InvalidHead);
      }
      if !disk.available {
        return Some(NoStorage);
      }
      error := LoadAndGuard(head);
      if error != None {
        return;
      }
      if !disk.takesRecord {
        return Some(NotSaved);
      }
      if head !in records {
        records := records + [head];
      }
      error := LoadAndGuard(head);
      if error != None {
        return;
      }
      if !disk.takesPointer {
        return Some(NotSaved);
      }
      pointer := Some(head);
    }
  }

  // ----- many tabs -----

  /** Where a tab stands between the four storage accesses of one persist. */
  datatype Tab = Idle | Allowed(head: Checkpoint) | Recorded(head: Checkpoint) | Confirmed(head: Checkpoint)

  datatype Browser = Browser(store: Store, tabs: map<nat, Tab>)

  datatype Action =
    | Begin(tab: nat, head: Checkpoint)  // load and first check
    | WriteRecord(tab: nat)
    | Reload(tab: nat)                   // load and second check
    | WritePointer(tab: nat)
    | Throw(tab: nat)                    // the storage refuses what the tab was about to do

  function TabOf(b: Browser, tab: nat): Tab {
    if tab in b.tabs then b.tabs[tab] else Idle
  }

  function Next(b: Browser, a: Action): Browser {
    var t := TabOf(b, a.tab);
    match a
    case Begin(tab, head) =>
      if LoadAndCheck(b.store, head) == None then b.(tabs := b.tabs[tab := Allowed(head)])
      else b.(tabs := b.tabs[tab := Idle])
    case WriteRecord(tab) =>
      if t.Allowed? then Browser(AddRecord(b.store, t.head), b.tabs[tab := Recorded(t.head)]) else b
    case Reload(tab) =>
      if !t.Recorded? then b
      else if LoadAndCheck(b.store, t.head) == None then b.(tabs := b.tabs[tab := Confirmed(t.head)])
      else b.(tabs := b.tabs[tab := Idle])
    case WritePointer(tab) =>
      if t.Confirmed? then Browser(b.store.(pointer := Some(t.head)), b.tabs[tab := Idle]) else b
    case Throw(tab) => b.(tabs := b.tabs[tab := Idle])
  }

  function Run(b: Browser, actions: seq<Action>): Browser
    decreases actions
  {
    if actions == [] then b else Run(Next(b, actions[0]), actions[1..])
  }

  /** The pointer, and the head of a tab past its record write, are among the records. */
  predicate OnRecord(b: Browser) {
    && (b.store.pointer.Some? ==> b.store.pointer.value in b.store.records)
    && forall tab :: tab in b.tabs && (b.tabs[tab].Recorded? || b.tabs[tab].Confirmed?)
                     ==> b.tabs[tab].head in b.store.records
  }

  lemma NextKeepsRecords(b: Browser, a: Action)
    requires OnRecord(b)
    ensures OnRecord(Next(b, a))
    ensures forall c :: c in b.store.records ==> c in Next(b, a).store.records
    ensures Next(b, a).store.damaged == b.store.damaged
  {
    match a
    case Begin(_, _) =>
    case WriteRecord(_) =>
    case Reload(_) =>
    case WritePointer(_) =>
    case Throw(_) =>
  }

  lemma {:induction false} RunKeepsRecords(b: Browser, actions: seq<Action>)
    requires OnRecord(b)
    ensures OnRecord(Run(b, actions))
    ensures forall c :: c in b.store.records ==> c in Run(b, actions).store.records
    ensures Run(b, actions).store.damaged == b.store.damaged
    decreases actions
  {
    if actions != [] {
      var next := Next(b, actions[0]);
      NextKeepsRecords(b, actions[0]);
      RunKeepsRecords(next, actions[1..]);
      assert Run(b, actions) == Run(next, actions[1..]);
    }
  }

  /** With the pointer among the records, loading depends on the records alone. */
  lemma LoadOfRecords(b: Browser)
    requires OnRecord(b)
    ensures Load(b.store).Err? <==> b.store.damaged || Conflicting(b.store.records)
    ensures Load(b.store) == Ok(None) <==> !b.store.damaged && b.store.records == []
    ensures forall c :: Load(b.store) == Ok(Some(c)) ==>
                          c in b.store.records && forall d :: d in b.store.records ==> d.headSeq <= c.headSeq
  {
    var all, rs := AllOf(b.store), b.store.records;
    assert forall c :: c in all <==> c in rs;
    if Conflicting(all) {
      var i, j :| 0 <= i < |all| && 0 <= j < |all|
                  && all[i].headSeq == all[j].headSeq && all[i].headHash != all[j].headHash;
      assert all[i] in rs && all[j] in rs;
    }
    if Conflicting(rs) {
      var i, j :| 0 <= i < |rs| && 0 <= j < |rs|
                  && rs[i].headSeq == rs[j].headSeq && rs[i].headHash != rs[j].headHash;
      assert rs[i] in all && rs[j] in all;
    }
  }

  predicate InStore(st: Store, c: Checkpoint) {
    st.pointer == Some(c) || c in st.records
  }

  /** What a load says about the whole storage, the pointer on record or not: it fails when a text does not parse or two
      checkpoints disagree at one number, and otherwise finds a highest one, or that nothing is stored. */
  lemma LoadMeans(st: Store)
    ensures Load(st) == Err(Unreadable) <==> st.damaged
    ensures Load(st) == Err(ConflictingHeads) <==>
            !st.damaged && exists c, d :: InStore(st, c) && InStore(st, d) && c.headSeq == d.headSeq && c != d
    ensures Load(st) == Ok(None) <==> !st.damaged && forall c :: !InStore(st, c)
    ensures forall c :: Load(st) == Ok(Some(c)) ==>
                          InStore(st, c) && forall d :: InStore(st, d) ==> d.headSeq <= c.headSeq
  {
    var all := AllOf(st);
    AllInStore(st);
    DisagreementIff(all);
    if all != [] {
      assert all[0] in all;
    }
  }

  lemma AllInStore(st: Store)
    ensures forall c :: c in AllOf(st) <==> InStore(st, c)
  {}

  lemma DisagreementIff(cs: seq<Checkpoint>)
    ensures Conflicting(cs) <==> exists c, d :: c in cs && d in cs && c.headSeq == d.headSeq && c != d
  {
    if Conflicting(cs) {
      var i, j :| 0 <= i < |cs| && 0 <= j < |cs| && cs[i].headSeq == cs[j].headSeq && cs[i].headHash != cs[j].headHash;
      assert cs[i] in cs && cs[j] in cs;
    }
    if c, d :| c in cs && d in cs && c.headSeq == d.headSeq && c != d {
      ConflictIsMembership(cs, c, d);
    }
  }

  /** More records, the same damage: an error stays, and the highest never gets lower or another hash. */
  lemma MoreRecordsLoadNoLess(b: Browser, e: Browser)
    requires OnRecord(b) && OnRecord(e) && e.store.damaged == b.store.damaged
    requires forall c :: c in b.store.records ==> c in e.store.records
    ensures Load(b.store).Err? ==> Load(e.store).Err?
    ensures Load(b.store).Ok? && Load(b.store).value.Some? && Load(e.store).Ok? ==>
              var c := Load(b.store).value.value;
              Load(e.store).value.Some? && (c.headSeq < Load(e.store).value.value.headSeq
                  || Load(e.store).value.value == c)
  {
    LoadOfRecords(b);
    LoadOfRecords(e);
    if Conflicting(b.store.records) {
      ConflictStays(b.store.records, e.store.records);
    } else if b.store.records != [] && Load(e.store).Ok? {
      var c, c' := Load(b.store).value.value, Load(e.store).value.value;
      if c.headSeq == c'.headSeq {
        ConflictIsMembership(e.store.records, c, c');
      }
    }
  }

  lemma ConflictStays(cs: seq<Checkpoint>, ds: seq<Checkpoint>)
    requires Conflicting(cs) && forall c :: c in cs ==> c in ds
    ensures Conflicting(ds)
  {
    var i, j :| 0 <= i < |cs| && 0 <= j < |cs| && cs[i].headSeq == cs[j].headSeq && cs[i].headHash != cs[j].headHash;
    ConflictIsMembership(ds, cs[i], cs[j]);
  }

  /** Whatever the tabs do, a load never returns less than an earlier load did, and an error stays. */
  lemma LoadNeverDecreases(b: Browser, actions: seq<Action>)
    requires OnRecord(b)
    ensures var before, after := Load(b.store), Load(Run(b, actions).store);
            match before
            case Err(_) => after.Err?
            case Ok(None) => true
            case Ok(Some(c)) =>
              after.Err?
              || (after.value.Some?
                  && (c.headSeq < after.value.value.headSeq || c == after.value.value))
  {
    RunKeepsRecords(b, actions);
    MoreRecordsLoadNoLess(b, Run(b, actions));
  }

  /** Two hashes on record for one sequence number make every later load fail, so no tab can begin. */
  lemma ForkOnRecordIsPermanent(b: Browser, c: Checkpoint, d: Checkpoint, actions: seq<Action>)
    requires OnRecord(b) && c in b.store.records && d in b.store.records
    requires c.headSeq == d.headSeq && c.headHash != d.headHash
    ensures Load(Run(b, actions).store).Err?
    ensures forall tab, head :: TabOf(Next(Run(b, actions), Begin(tab, head)), tab) == Idle
  {
    var e := Run(b, actions);
    RunKeepsRecords(b, actions);
    LoadOfRecords(e);
    ConflictIsMembership(e.store.records, c, d);
  }

  /** The second check passes exactly when the tab's own head is the highest one stored. */
  lemma SecondCheckMeansHighest(b: Browser, tab: nat)
    requires OnRecord(b) && TabOf(b, tab).Recorded?
    ensures TabOf(Next(b, Reload(tab)), tab) == Confirmed(TabOf(b, tab).head)
            <==> Load(b.store) == Ok(Some(TabOf(b, tab).head))
  {
    LoadOfRecords(b);
    var head := TabOf(b, tab).head;
    assert head in b.store.records;
    if Load(b.store).Ok? {
      var c := Load(b.store).value.value;
      if c.headSeq == head.headSeq {
        ConflictIsMembership(b.store.records, c, head);
      }
    }
  }

  /** A completed persist is remembered by every later load, even under later pointer writes. */
  lemma CompletedPersistIsRemembered(b: Browser, tab: nat, actions: seq<Action>)
    requires OnRecord(b) && TabOf(b, tab).Confirmed?
    ensures var after := Load(Run(Next(b, WritePointer(tab)), actions).store);
            after.Err? || (after.value.Some? && TabOf(b, tab).head.headSeq <= after.value.value.headSeq)
  {
    var b1 := Next(b, WritePointer(tab));
    RunKeepsRecords(b1, actions);
    LoadOfRecords(Run(b1, actions));
    assert TabOf(b, tab).head in Run(b1, actions).store.records;
  }

  lemma {:induction false} RunConcat(b: Browser, xs: seq<Action>, ys: seq<Action>)
    ensures Run(b, xs + ys) == Run(Run(b, xs), ys)
    decreases xs
  {
    if xs == [] {
      assert xs + ys == ys;
    } else {
      assert (xs + ys)[1..] == xs[1..] + ys;
      RunConcat(Next(b, xs[0]), xs[1..], ys);
    }
  }

  lemma HigherAddsNoConflict(cs: seq<Checkpoint>, head: Checkpoint)
    requires !Conflicting(cs) && forall c :: c in cs ==> c.headSeq < head.headSeq
    ensures !Conflicting(cs + [head])
  {
    var ds := cs + [head];
    forall i, j | 0 <= i < |ds| && 0 <= j < |ds| && ds[i].headSeq == ds[j].headSeq ensures ds[i] == ds[j] {
      if i < |cs| && j < |cs| {
        ConflictIsMembership(cs, ds[i], ds[j]);
      }
    }
  }

  lemma RunThree(b: Browser, x: Action, y: Action, z: Action)
    ensures Run(b, [x, y, z]) == Next(Next(Next(b, x), y), z)
  {
    RunConcat(b, [x], [y, z]);
    RunConcat(Next(b, x), [y], [z]);
    assert [x, y, z] == [x] + [y, z] && [y, z] == [y] + [z];
    assert forall c, a :: Run(c, [a]) == Next(c, a);
  }

  /** Above everything stored: writing is allowed, and still is once the record is there. */
  lemma HigherIsAllowed(b: Browser, head: Checkpoint)
    requires OnRecord(b) && Load(b.store).Ok?
    requires forall c :: c in b.store.records ==> c.headSeq < head.headSeq
    ensures LoadAndCheck(b.store, head) == None
    ensures AddRecord(b.store, head) == b.store.(records := b.store.records + [head])
    ensures Load(AddRecord(b.store, head)) == Ok(Some(head))
  {
    LoadOfRecords(b);
    HigherAddsNoConflict(b.store.records, head);
    LoadOfRecords(Browser(AddRecord(b.store, head), map[]));
  }

  /** An undisturbed persist of a head above everything stored, up to its pointer write. */
  lemma UndisturbedPersist(b: Browser, tab: nat, head: Checkpoint)
    requires OnRecord(b) && Load(b.store).Ok?
    requires forall c :: c in b.store.records ==> c.headSeq < head.headSeq
    ensures Next(Next(Next(b, Begin(tab, head)), WriteRecord(tab)), Reload(tab))
            == Browser(AddRecord(b.store, head), b.tabs[tab := Confirmed(head)])
  {
    HigherIsAllowed(b, head);
    var b1 := Next(b, Begin(tab, head));
    var b2 := Next(b1, WriteRecord(tab));
    assert b2.tabs == b.tabs[tab := Recorded(head)];
    var b3 := Next(b2, Reload(tab));
    assert b3.tabs == b.tabs[tab := Confirmed(head)];
  }

  // ----- a persist that nobody interrupts -----

  /** The head's record does not change what may be written: adding it, the head is what loads. */
  lemma AllowedStaysAllowed(b: Browser, head: Checkpoint)
    requires OnRecord(b) && LoadAndCheck(b.store, head) == None
    ensures Load(AddRecord(b.store, head)) == Ok(Some(head)) && LoadAndCheck(AddRecord(b.store, head), head) == None
    ensures OnRecord(Browser(AddRecord(b.store, head), map[]))
  {
    if head in b.store.records {
      OnRecordMeansLoaded(b, head);
    } else {
      AllowedIsAbove(b, head);
      HigherIsAllowed(b, head);
    }
  }

  lemma OnRecordMeansLoaded(b: Browser, head: Checkpoint)
    requires OnRecord(b) && LoadAndCheck(b.store, head) == None && head in b.store.records
    ensures Load(b.store) == Ok(Some(head))
  {
    LoadOfRecords(b);
  }

  lemma AllowedIsAbove(b: Browser, head: Checkpoint)
    requires OnRecord(b) && LoadAndCheck(b.store, head) == None && head !in b.store.records
    ensures Load(b.store).Ok? && forall c :: c in b.store.records ==> c.headSeq < head.headSeq
  {
    LoadOfRecords(b);
  }

  /** The whole answer of an uninterrupted persist. Its second check never refuses: the head is saved exactly when it
      is valid, the storage takes both writes, and what loads is lower or that very head; it is then the pointer, on
      record, and what loads. Everything refused before the record write leaves the storage as it was. */
  lemma PersistAnswer(st: Store, head: Checkpoint, isHash: string -> bool, disk: Disk)
    requires OnRecord(Browser(st, map[]))
    ensures var p := Persist(st, head, isHash, disk);
            && p.error == (if !(0 <= head.headSeq <= 9007199254740991) || !isHash(head.headHash) then Some(InvalidHead)
                           else if !disk.available then Some(NoStorage)
                           else if st.damaged then Some(StoredDamage)
                           else if Conflicting(st.records) then Some(StoredConflict)
                           else if exists c :: c in st.records && c.headSeq > head.headSeq then Some(NewerStored)
                           else if exists c :: c in st.records && c.headSeq == head.headSeq && c != head
                           then Some(ForkStored)
                           else if !disk.takesRecord || !disk.takesPointer then Some(NotSaved)
                           else None)
            && (p.error == None ==>
                  p.store == AddRecord(st, head).(pointer := Some(head)) && Load(p.store) == Ok(Some(head)))
            && (p.error.Some? ==>
                  p.store == if p.error == Some(NotSaved) && disk.takesRecord then AddRecord(st, head) else st)
  {
    var b := Browser(st, map[]);
    if IsValidHeadSeq(head.headSeq) && isHash(head.headHash) && disk.available {
      CheckByRecords(b, head);
      if LoadAndCheck(st, head) == None {
        AllowedStaysAllowed(b, head);
        PointerKeepsLoad(AddRecord(st, head), head);
      }
    }
  }

  lemma PointerKeepsLoad(st: Store, head: Checkpoint)
    requires OnRecord(Browser(st, map[])) && Load(st) == Ok(Some(head))
    ensures Load(st.(pointer := Some(head))) == Ok(Some(head))
  {
    var b, b1 := Browser(st, map[]), Browser(st.(pointer := Some(head)), map[]);
    LoadOfRecords(b);
    LoadOfRecords(b1);
    var c := Load(b1.store).value.value;
    if c.headSeq == head.headSeq {
      ConflictIsMembership(st.records, c, head);
    }
  }

  /** The write guard, told by the records alone. */
  lemma CheckByRecords(b: Browser, head: Checkpoint)
    requires OnRecord(b)
    ensures LoadAndCheck(b.store, head) ==
            if b.store.damaged then Some(StoredDamage)
            else if Conflicting(b.store.records) then Some(StoredConflict)
            else if exists c :: c in b.store.records && c.headSeq > head.headSeq then Some(NewerStored)
            else if exists c :: c in b.store.records && c.headSeq == head.headSeq && c != head then Some(ForkStored)
            else None
  {
    LoadOfRecords(b);
    var rs := b.store.records;
    if Load(b.store).Ok? && Load(b.store).value.Some? {
      var top := Load(b.store).value.value;
      assert top in rs;
      if c :| c in rs && c.headSeq == head.headSeq && c != head {
        if top.headSeq == head.headSeq {
          ConflictIsMembership(rs, c, top);
        }
      }
    }
  }

  /** It is the four steps of the machine with nobody in between. */
  lemma PersistIsFourSteps(st: Store, tab: nat, head: Checkpoint, isHash: string -> bool)
    requires IsValidHeadSeq(head.headSeq) && isHash(head.headHash)
    ensures Run(Browser(st, map[]), [Begin(tab, head), WriteRecord(tab), Reload(tab), WritePointer(tab)]).store
            == Persist(st, head, isHash, WRITABLE).store
  {
    var b := Browser(st, map[]);
    var first := [Begin(tab, head), WriteRecord(tab), Reload(tab)];
    RunThree(b, Begin(tab, head), WriteRecord(tab), Reload(tab));
    RunConcat(b, first, [WritePointer(tab)]);
    assert [Begin(tab, head), WriteRecord(tab), Reload(tab), WritePointer(tab)] == first + [WritePointer(tab)];
    var b3 := Run(b, first);
    assert Run(b3, [WritePointer(tab)]) == Next(b3, WritePointer(tab)) by {
      assert forall e: Browser :: Run(e, []) == e;
    }
  }

  // ----- when the pointer goes back -----

  /** The head a step writes to the pointer. */
  function PointerWritten(b: Browser, a: Action): Option<Checkpoint> {
    if a.WritePointer? && TabOf(b, a.tab).Confirmed? then Some(TabOf(b, a.tab).head) else None
  }

  /** The head the steps write to the pointer last. */
  function LastPointer(b: Browser, actions: seq<Action>): Option<Checkpoint>
    decreases actions
  {
    if actions == [] then None
    else
      var later := LastPointer(Next(b, actions[0]), actions[1..]);
      if later.Some? then later else PointerWritten(b, actions[0])
  }

  lemma {:induction false} PointerIsLastWritten(b: Browser, actions: seq<Action>)
    ensures Run(b, actions).store.pointer ==
            if LastPointer(b, actions).Some? then LastPointer(b, actions) else b.store.pointer
    decreases actions
  {
    if actions != [] {
      PointerIsLastWritten(Next(b, actions[0]), actions[1..]);
    }
  }

  predicate OfOthers(actions: seq<Action>, tab: nat) {
    forall i :: 0 <= i < |actions| ==> actions[i].tab != tab
  }

  lemma {:induction false} OthersLeaveTheTab(b: Browser, actions: seq<Action>, tab: nat)
    requires OfOthers(actions, tab)
    ensures TabOf(Run(b, actions), tab) == TabOf(b, tab)
    decreases actions
  {
    if actions != [] {
      var next := Next(b, actions[0]);
      assert TabOf(next, tab) == TabOf(b, tab);
      OthersLeaveTheTab(next, actions[1..], tab);
    }
  }

  predicate Lowers(b: Browser, a: Action) {
    && b.store.pointer.Some? && Next(b, a).store.pointer.Some?
    && Next(b, a).store.pointer.value.headSeq < b.store.pointer.value.headSeq
  }

  /** At the second check the pointer is no higher than the head that passes it. */
  lemma ConfirmedIsAbovePointer(b: Browser, tab: nat)
    requires OnRecord(b) && TabOf(b, tab).Recorded? && TabOf(Next(b, Reload(tab)), tab).Confirmed?
    ensures TabOf(Next(b, Reload(tab)), tab) == Confirmed(TabOf(b, tab).head)
    ensures Next(b, Reload(tab)).store == b.store
    ensures b.store.pointer.Some? ==> b.store.pointer.value.headSeq <= TabOf(b, tab).head.headSeq
  {
    SecondCheckMeansHighest(b, tab);
    LoadOfRecords(b);
  }

  /** A tab passes its second check, other tabs take any steps, then it writes the pointer: that write lowers the
      pointer if and only if the last pointer those steps wrote is of a higher head. */
  lemma PointerGoesBackIff(b: Browser, tab: nat, others: seq<Action>)
    requires OnRecord(b) && TabOf(b, tab).Recorded? && TabOf(Next(b, Reload(tab)), tab).Confirmed?
    requires OfOthers(others, tab)
    ensures var checked := Next(b, Reload(tab));
            && PointerWritten(Run(checked, others), WritePointer(tab)) == Some(TabOf(b, tab).head)
            && (Lowers(Run(checked, others), WritePointer(tab))
                <==> LastPointer(checked, others).Some?
                     && TabOf(b, tab).head.headSeq < LastPointer(checked, others).value.headSeq)
  {
    var checked := Next(b, Reload(tab));
    ConfirmedIsAbovePointer(b, tab);
    OthersLeaveTheTab(checked, others, tab);
    PointerIsLastWritten(checked, others);
  }

  /** So a persist that no other tab's pointer write interrupts never lowers the pointer. */
  lemma UninterruptedPersistNeverLowers(b: Browser, tab: nat, others: seq<Action>)
    requires OnRecord(b) && TabOf(b, tab).Recorded? && TabOf(Next(b, Reload(tab)), tab).Confirmed?
    requires OfOthers(others, tab) && forall i :: 0 <= i < |others| ==> !others[i].WritePointer?
    ensures !Lowers(Run(Next(b, Reload(tab)), others), WritePointer(tab))
  {
    PointerGoesBackIff(b, tab, others);
    NoPointerWritten(Next(b, Reload(tab)), others);
  }

  lemma {:induction false} NoPointerWritten(b: Browser, actions: seq<Action>)
    requires forall i :: 0 <= i < |actions| ==> !actions[i].WritePointer?
    ensures LastPointer(b, actions) == None
    decreases actions
  {
    if actions != [] {
      NoPointerWritten(Next(b, actions[0]), actions[1..]);
    }
  }

  /** The pointer alone is no evidence: in a run from an empty store a slow tab moves it from 7 back to 5. */
  lemma PointerCanGoBack() returns (b: Browser, actions: seq<Action>)
    ensures b == Run(Browser(EMPTY, map[]), actions)
    ensures b.store.pointer == Some(Checkpoint(7, "b"))
    ensures Next(b, WritePointer(0)).store.pointer == Some(Checkpoint(5, "a"))
  {
    var five, seven := Checkpoint(5, "a"), Checkpoint(7, "b");
    var first := [Begin(0, five), WriteRecord(0), Reload(0)];
    var second := [Begin(1, seven), WriteRecord(1), Reload(1)];
    var b0 := Browser(EMPTY, map[]);
    LoadOfRecords(b0);
    RunThree(b0, Begin(0, five), WriteRecord(0), Reload(0));
    UndisturbedPersist(b0, 0, five);
    HigherIsAllowed(b0, five);
    var b1 := Run(b0, first);
    RunKeepsRecords(b0, first);
    RunThree(b1, Begin(1, seven), WriteRecord(1), Reload(1));
    UndisturbedPersist(b1, 1, seven);
    var b2 := Run(b1, second);
    b := Next(b2, WritePointer(1));
    assert b == Run(b2, [WritePointer(1)]) by { assert Run(b, []) == b; }
    actions := first + second + [WritePointer(1)];
    RunConcat(b0, first, second);
    RunConcat(b0, first + second, [WritePointer(1)]);
  }
}
