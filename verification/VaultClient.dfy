/** The browser's vault object: a change or a sync is replayed on a clone and committed only at the end. */
module VaultClient {
  import opened Results
  import opened Chain
  import opened Checkpoints
  import opened VaultSync
  import opened Replica

  /** A JavaScript Map of items. */
  class ItemTable {
    var entries: Items

    constructor (from: Items)
      ensures entries == from
    {
      entries := from;
    }

    method Set(itemId: string, item: Item)
      modifies this
      ensures entries == old(entries)[itemId := item]
    {
      entries := entries[itemId := item];
    }

    method Delete(itemId: string)
      modifies this
      ensures entries == old(entries) - {itemId}
    {
      entries := entries - {itemId};
    }
  }

  class Vault {
    const vaultId: string
    var headSeq: int
    var headHash: string
    var storedCheckpoint: Option<Checkpoint>
    var storedCheckpointVerified: bool
    var items: ItemTable

    constructor (vaultId: string, headSeq: int, headHash: string, storedCheckpoint: Option<Checkpoint>, verified: bool,
                 items: ItemTable)
      ensures this.vaultId == vaultId && this.items == items
      ensures View() == Replica(Head(headSeq, headHash), storedCheckpoint, verified, items.entries)
    {
      this.vaultId, this.headSeq, this.headHash := vaultId, headSeq, headHash;
      this.storedCheckpoint, this.storedCheckpointVerified := storedCheckpoint, verified;
      this.items := items;
    }

    function View(): Replica
      reads this, items
    {
      Replica(Head(headSeq, headHash), storedCheckpoint, storedCheckpointVerified, items.entries)
    }
  }

  /** A copy with its own Map: changing the copy cannot reach the original. */
  method CloneVaultForReplay(vault: Vault) returns (replay: Vault)
    ensures fresh(replay) && fresh(replay.items)
    ensures replay.View() == vault.View() && replay.vaultId == vault.vaultId
  {
    var items := new ItemTable(vault.items.entries);
    replay := new Vault(vault.vaultId, vault.headSeq, vault.headHash, vault.storedCheckpoint,
                        vault.storedCheckpointVerified, items);
  }

  /** The target takes over the replay's Map object; its old Map is left as it was. */
  method CommitVaultReplay(target: Vault, replay: Vault)
    requires target.storedCheckpoint == replay.storedCheckpoint
    modifies target
    ensures target.View() == replay.View() && target.items == replay.items
  {
    target.items := replay.items;
    target.headSeq := replay.headSeq;
    target.headHash := replay.headHash;
    target.storedCheckpointVerified := replay.storedCheckpointVerified;
  }

  method MarkCheckpointProgress(vault: Vault) returns (error: Option<ClientError>)
    modifies vault`storedCheckpointVerified
    ensures match MarkProgress(old(vault.View()))
            case Ok(r) => error == None && vault.View() == r
            case Err(e) => error == Some(e) && vault.View() == old(vault.View())
  {
    if vault.storedCheckpoint.None? || vault.storedCheckpointVerified {
      return None;
    }
    var checkpoint := vault.storedCheckpoint.value;
    if vault.headSeq < checkpoint.headSeq {
      return None;
    }
    if vault.headSeq == checkpoint.headSeq && vault.headHash == checkpoint.headHash {
      vault.storedCheckpointVerified := true;
      return None;
    }
    return Some(RollbackOrFork);
  }

  /** Checks on a change, one by one; nothing is modified. */
  method VerifyChange(c: Crypto, vaultId: string, head: Head, change: Change) returns (error: Option<ClientError>)
    ensures error == Verify(c, vaultId, head, change)
    ensures error == None <==> Authentic(c, vaultId, change) && Extends(head, change)
  {
    VerifyIff(c, vaultId, head, change);
    if change.baseHeadSeq != head.seqNo || change.baseHeadHash != head.hash || change.previousHeadHash != head.hash {
      return Some(ChainBroken);
    }
    if !Supported(change.envelope) {
      return Some(UnsupportedEnvelope);
    }
    var actualEnvelopeHash := ExpectedEnvelopeHash(c, change.envelope);
    if actualEnvelopeHash != change.envelopeHash {
      return Some(EnvelopeHashMismatch);
    }
    var expectedChangeMac := ExpectedMac(c, vaultId, change);
    if expectedChangeMac != change.changeMac {
      return Some(ChangeMacMismatch);
    }
    if ExpectedHeadHash(c, vaultId, change) != change.headHash {
      return Some(HeadHashMismatch);
    }
    return if Plaintext(c, vaultId, change).None? then Some(DecryptFailed) else None;
  }

  /** The change verified and applied to a clone; nothing that existed before is touched. */
  method ReplayChange(c: Crypto, change: Change, vault: Vault) returns (error: Option<ClientError>, replay: Vault)
    ensures match Apply(c, vault.vaultId, vault.View(), change)
            case Ok(r) => error == None && fresh(replay) && fresh(replay.items) && replay.View() == r
            case Err(e) => error == Some(e)
  {
    replay := vault;
    error := VerifyChange(c, vault.vaultId, Head(vault.headSeq, vault.headHash), change);
    if error != None {
      return;
    }
    var plaintext := Plaintext(c, vault.vaultId, change).value;
    replay := CloneVaultForReplay(vault);
    if change.operation == "delete" {
      replay.items.Delete(change.itemId);
    } else {
      replay.items.Set(change.itemId,
                       Item(change.itemId, change.revisionId, change.revisionSeq, change.headSeq, plaintext));
    }
    replay.headSeq := change.headSeq;
    replay.headHash := change.headHash;
    assert replay.View() == vault.View().(head := HeadAfter(change),
                                          items := ApplyItem(c, vault.vaultId, vault.View().items, change));
    error := MarkCheckpointProgress(replay);
  }

  /** One change: replayed on a clone, its head saved when asked to, and only then committed. */
  method VerifyAndApplyChange(c: Crypto, change: Change, persistCheckpoint: bool, vault: Vault, storage: LocalStorage,
                              disk: Disk)
    returns (error: Option<ClientError>)
    requires storage.Valid() && !c.isHash("")
    modifies vault, storage
    ensures storage.Valid()
    ensures unchanged(old(vault.items))
    ensures vault.items == old(vault.items) || fresh(vault.items)
    ensures persistCheckpoint ==>
              Synced(vault.View(), storage.View(), error)
              == ApplyOwn(c, vault.vaultId, old(vault.View()), change, old(storage.View()), disk)
    ensures !persistCheckpoint ==>
              && storage.View() == old(storage.View())
              && match Apply(c, vault.vaultId, old(vault.View()), change)
                 case Ok(r) => error == None && vault.View() == r
                 case Err(e) => error == Some(e) && vault.View() == old(vault.View())
  {
    var replay;
    error, replay := ReplayChange(c, change, vault);
    if error != None {
      return;
    }
    if persistCheckpoint {
      var refused := storage.PersistVaultCheckpoint(Checkpoint(replay.headSeq, replay.headHash), c.isHash, disk);
      if refused.Some? {
        return Some(CheckpointRefused(refused.value));
      }
    }
    CommitVaultReplay(vault, replay);
  }

  lemma ApplyAllStep(c: Crypto, vaultId: string, r: Replica, changes: seq<Change>, n: nat)
    requires n < |changes|
    ensures ApplyAll(c, vaultId, r, changes[n..]) ==
            match Apply(c, vaultId, r, changes[n])
            case Err(e) => Err(e)
            case Ok(r1) => ApplyAll(c, vaultId, r1, changes[n + 1..])
  {
    assert changes[n..][1..] == changes[n + 1..];
  }

  /** The inner loop of a sync: one page's changes onto the replay. */
  method ApplyPage(c: Crypto, changes: seq<Change>, replay: Vault, storage: LocalStorage)
    returns (error: Option<ClientError>)
    requires storage.Valid() && !c.isHash("")
    modifies replay, storage
    ensures storage.Valid() && storage.View() == old(storage.View())
    ensures unchanged(old(replay.items))
    ensures replay.items == old(replay.items) || fresh(replay.items)
    ensures match ApplyAll(c, replay.vaultId, old(replay.View()), changes)
            case Ok(r) => error == None && replay.View() == r
            case Err(e) => error == Some(e)
  {
    assert changes[0..] == changes;
    for n := 0 to |changes|
      invariant storage.Valid() && storage.View() == old(storage.View())
      invariant unchanged(old(replay.items))
      invariant replay.items == old(replay.items) || fresh(replay.items)
      invariant ApplyAll(c, replay.vaultId, old(replay.View()), changes)
                == ApplyAll(c, replay.vaultId, replay.View(), changes[n..])
    {
      ApplyAllStep(c, replay.vaultId, replay.View(), changes, n);
      error := VerifyAndApplyChange(c, changes[n], false, replay, storage, WRITABLE);
      if error != None {
        return;
      }
    }
    error := None;
  }

  /** What the rest of a replay computes from the page at position n on. */
  lemma ReplayStep(c: Crypto, vaultId: string, r: Replica, pages: seq<Page>, n: nat)
    requires n < |pages|
    ensures Replay(c, vaultId, r, pages[n..]).result ==
            if pages[n].from != r.head then Err(NotFromLocalHead)
            else match ApplyAll(c, vaultId, r, pages[n].changes)
                 case Err(e) => Err(e)
                 case Ok(r1) =>
                   if pages[n].hasMore then Replay(c, vaultId, r1, pages[n + 1..]).result
                   else if pages[n].to != r1.head then Err(HeadMismatch)
                   else if r1.checkpoint.Some? && !r1.verified then Err(CheckpointNotReached)
                   else Ok(r1)
  {
    assert pages[n..][1..] == pages[n + 1..];
  }

  /** The whole sync; `pages` are the server's answers in the order they come. On any failure the vault
      object, its head and its Map are exactly what they were. */
  method SyncVault(c: Crypto, vault: Vault, pages: seq<Page>, storage: LocalStorage, disk: Disk)
    returns (error: Option<ClientError>)
    requires storage.Valid() && !c.isHash("")
    modifies vault, storage
    ensures storage.Valid()
    ensures Synced(vault.View(), storage.View(), error)
            == Sync(c, vault.vaultId, old(vault.View()), pages, old(storage.View()), disk)
    ensures unchanged(old(vault.items))
    ensures error.Some? ==> vault.items == old(vault.items) && vault.View() == old(vault.View())
  {
    var replay := CloneVaultForReplay(vault);
    var n := 0;
    assert pages[0..] == pages;
    while true
      invariant n <= |pages| && storage.Valid() && storage.View() == old(storage.View())
      invariant fresh(replay) && fresh(replay.items) && replay.vaultId == vault.vaultId
      invariant unchanged(vault) && unchanged(old(vault.items))
      invariant replay.storedCheckpoint == vault.storedCheckpoint
      invariant Replay(c, vault.vaultId, old(vault.View()), pages).result
                == Replay(c, vault.vaultId, replay.View(), pages[n..]).result
      decreases |pages| - n
    {
      if n == |pages| {
        return Some(ServerFailed);
      }
      var response := pages[n];
      ReplayStep(c, vault.vaultId, replay.View(), pages, n);
      ghost var r0 := replay.View();
      if response.from.seqNo != replay.headSeq || response.from.hash != replay.headHash {
        return Some(NotFromLocalHead);
      }
      error := ApplyPage(c, response.changes, replay, storage);
      if error != None {
        return;
      }
      ApplyAllKeepsCheckpoint(c, vault.vaultId, r0, response.changes);
      n := n + 1;
      if !response.hasMore {
        if response.to.seqNo != replay.headSeq || response.to.hash != replay.headHash {
          return Some(HeadMismatch);
        }
        if replay.storedCheckpoint.Some? && !replay.storedCheckpointVerified {
          return Some(CheckpointNotReached);
        }
        break;
      }
    }
    var refused := storage.PersistVaultCheckpoint(Checkpoint(replay.headSeq, replay.headHash), c.isHash, disk);
    if refused.Some? {
      return Some(CheckpointRefused(refused.value));
    }
    CommitVaultReplay(vault, replay);
    error := None;
  }

  lemma {:induction false} ApplyAllKeepsCheckpoint(c: Crypto, vaultId: string, r: Replica, changes: seq<Change>)
    ensures ApplyAll(c, vaultId, r, changes).Ok? ==>
              ApplyAll(c, vaultId, r, changes).value.checkpoint == r.checkpoint
    decreases changes
  {
    if changes != [] && Apply(c, vaultId, r, changes[0]).Ok? {
      ApplyAllKeepsCheckpoint(c, vaultId, Apply(c, vaultId, r, changes[0]).value, changes[1..]);
    }
  }
}
