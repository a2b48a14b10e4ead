/** The hash-chained change log: what one link must satisfy, and what a head hash pins down.

    HMAC under the vault's integrity key, SHA-256 and AES-GCM decryption are function parameters.
    Nothing is assumed of them except, where a lemma says so, that no two of the texts hashed in the
    logs at hand collide. */
module Chain {
  import opened Results
  import opened Payloads

  datatype Crypto = Crypto(
    hmac: string -> string,                         // base64url HMAC under the vault's integrity key
    sha: string -> string,                          // base64url SHA-256
    open: (string, Envelope) -> Option<string>,     // AES-GCM opening under associated data
    isHash: string -> bool)                         // a text that decodes to 32 bytes

  datatype Head = Head(seqNo: int, hash: string)

  /** One entry of the log, as stored and as served by a sync. */
  datatype Change = Change(
    itemId: string,
    revisionId: string,
    operation: string,
    revisionSeq: int,
    headSeq: int,
    previousHeadHash: string,
    headHash: string,
    baseRevisionSeq: int,
    baseHeadSeq: int,
    baseHeadHash: string,
    changeMac: string,
    envelopeHash: string,
    envelope: Envelope)

  datatype Item = Item(itemId: string, revisionId: string, revisionSeq: int, headSeq: int, fields: string)

  type Items = map<string, Item>

  function PayloadOf(vaultId: string, ch: Change, envelopeHash: string): ChangePayload {
    ChangePayload(ch.operation, vaultId, ch.itemId, ch.revisionId, ch.revisionSeq, ch.headSeq,
                  ch.baseRevisionSeq, ch.baseHeadSeq, ch.baseHeadHash, ch.previousHeadHash,
                  envelopeHash, ch.envelope.keyId)
  }

  function ExpectedEnvelopeHash(c: Crypto, e: Envelope): string {
    c.sha(EnvelopeText(e))
  }

  function ExpectedMac(c: Crypto, vaultId: string, ch: Change): string {
    c.hmac(ChangeText(PayloadOf(vaultId, ch, ExpectedEnvelopeHash(c, ch.envelope))))
  }

  function ExpectedHeadHash(c: Crypto, vaultId: string, ch: Change): string {
    c.hmac(HeadText(HeadPayload(vaultId, ch.headSeq, ch.previousHeadHash, ExpectedMac(c, vaultId, ch))))
  }

  function Plaintext(c: Crypto, vaultId: string, ch: Change): Option<string> {
    c.open(AadText(PayloadOf(vaultId, ch, "")), ch.envelope)
  }

  predicate Supported(e: Envelope) {
    e.cryptoVersion == ITEM_ENVELOPE_CRYPTO_VERSION && e.aead == ITEM_ENVELOPE_AEAD
  }

  /** The change carries a true envelope hash, MAC and head hash, and its envelope opens. */
  predicate Authentic(c: Crypto, vaultId: string, ch: Change) {
    && Supported(ch.envelope)
    && ch.envelopeHash == ExpectedEnvelopeHash(c, ch.envelope)
    && ch.changeMac == ExpectedMac(c, vaultId, ch)
    && ch.headHash == ExpectedHeadHash(c, vaultId, ch)
    && Plaintext(c, vaultId, ch).Some?
  }

  predicate Extends(head: Head, ch: Change) {
    ch.baseHeadSeq == head.seqNo && ch.baseHeadHash == head.hash && ch.previousHeadHash == head.hash
  }

  function HeadAfter(ch: Change): Head {
    Head(ch.headSeq, ch.headHash)
  }

  function HeadOf(genesis: string, log: seq<Change>): Head {
    if log == [] then Head(0, genesis) else HeadAfter(log[|log| - 1])
  }

  /** Every entry is authentic and extends the head before it; the first extends the genesis head. */
  predicate Accepted(c: Crypto, vaultId: string, genesis: string, log: seq<Change>) {
    forall i :: 0 <= i < |log| ==> Authentic(c, vaultId, log[i]) && Extends(HeadOf(genesis, log[..i]), log[i])
  }

  function ApplyItem(c: Crypto, vaultId: string, items: Items, ch: Change): Items {
    if ch.operation == "delete" then items - {ch.itemId}
    else items[ch.itemId := Item(ch.itemId, ch.revisionId, ch.revisionSeq, ch.headSeq,
                                 var p := Plaintext(c, vaultId, ch); if p.Some? then p.value else "")]
  }

  /** The item map that a log stands for. */
  function Fold(c: Crypto, vaultId: string, log: seq<Change>): Items {
    if log == [] then map[] else ApplyItem(c, vaultId, Fold(c, vaultId, log[..|log| - 1]), log[|log| - 1])
  }

  // ----- what an honest client MACs -----

  function ChangeTextOf(c: Crypto, vaultId: string, ch: Change): string {
    ChangeText(PayloadOf(vaultId, ch, ExpectedEnvelopeHash(c, ch.envelope)))
  }

  /** The shape every payload MACed by an honest client has. */
  predicate HonestPayload(p: ChangePayload) {
    && p.headSeq == p.baseHeadSeq + 1
    && p.revisionSeq == p.baseRevisionSeq + 1
    && p.previousHeadHash == p.baseHeadHash
  }

  /** `issued` holds the texts that honest clients MACed for this vault. */
  ghost predicate HonestlyIssued(issued: iset<string>) {
    forall t :: t in issued ==> exists p :: HonestPayload(p) && t == ChangeText(p)
  }

  /** No change MAC in the log was forged: each one covers a text some honest client MACed. */
  ghost predicate Unforged(c: Crypto, issued: iset<string>, vaultId: string, log: seq<Change>) {
    && HonestlyIssued(issued)
    && forall i :: 0 <= i < |log| ==> ChangeTextOf(c, vaultId, log[i]) in issued
  }

  lemma UnforgedPrefix(c: Crypto, issued: iset<string>, vaultId: string, log: seq<Change>, k: nat)
    requires Unforged(c, issued, vaultId, log) && k <= |log|
    ensures Unforged(c, issued, vaultId, log[..k])
  {}

  lemma UnforgedIsHonest(c: Crypto, issued: iset<string>, vaultId: string, log: seq<Change>, i: nat)
    requires Unforged(c, issued, vaultId, log) && i < |log|
    ensures HonestPayload(PayloadOf(vaultId, log[i], ExpectedEnvelopeHash(c, log[i].envelope)))
  {
    var q := PayloadOf(vaultId, log[i], ExpectedEnvelopeHash(c, log[i].envelope));
    var p :| HonestPayload(p) && ChangeText(q) == ChangeText(p);
    ChangeTextInjective(q, p);
  }

  /** head_seq runs exactly 1, 2, 3, ... */
  predicate Numbered(log: seq<Change>) {
    forall i :: 0 <= i < |log| ==> log[i].headSeq == i + 1
  }

  lemma NumberedSnoc(log: seq<Change>, n: nat)
    requires |log| == n + 1 && Numbered(log[..n]) && log[n].headSeq == n + 1
    ensures Numbered(log)
  {
    assert forall i :: 0 <= i < n ==> log[i] == log[..n][i];
  }

  lemma Snoc<T>(s: seq<T>)
    requires s != []
    ensures s == s[..|s| - 1] + [s[|s| - 1]]
  {}

  lemma LastEntryNumbered(c: Crypto, issued: iset<string>, vaultId: string, genesis: string, log: seq<Change>, n: nat)
    requires Accepted(c, vaultId, genesis, log) && Unforged(c, issued, vaultId, log) && n < |log|
    ensures log[n].headSeq == HeadOf(genesis, log[..n]).seqNo + 1
  {
    UnforgedIsHonest(c, issued, vaultId, log, n);
    assert Extends(HeadOf(genesis, log[..n]), log[n]);
  }

  /** The browser never compares head_seq with base_head_seq + 1; unforged MACs make the numbering exact. */
  lemma {:induction false} AcceptedNumbering(c: Crypto, issued: iset<string>, vaultId: string, genesis: string,
                                             log: seq<Change>)
    requires Accepted(c, vaultId, genesis, log) && Unforged(c, issued, vaultId, log)
    ensures HeadOf(genesis, log).seqNo == |log| && Numbered(log)
  {
    if log != [] {
      var n := |log| - 1;
      AcceptedPrefix(c, vaultId, genesis, log, n);
      UnforgedPrefix(c, issued, vaultId, log, n);
      AcceptedNumbering(c, issued, vaultId, genesis, log[..n]);
      LastEntryNumbered(c, issued, vaultId, genesis, log, n);
      NumberedSnoc(log, n);
    }
  }

  lemma AcceptedPrefix(c: Crypto, vaultId: string, genesis: string, log: seq<Change>, k: nat)
    requires Accepted(c, vaultId, genesis, log) && k <= |log|
    ensures Accepted(c, vaultId, genesis, log[..k])
  {
    forall i | 0 <= i < k
      ensures Authentic(c, vaultId, log[..k][i]) && Extends(HeadOf(genesis, log[..k][..i]), log[..k][i])
    {
      assert log[..k][..i] == log[..i];
    }
  }

  lemma AcceptedSnoc(c: Crypto, vaultId: string, genesis: string, log: seq<Change>, ch: Change)
    requires Accepted(c, vaultId, genesis, log)
    requires Authentic(c, vaultId, ch) && Extends(HeadOf(genesis, log), ch)
    ensures Accepted(c, vaultId, genesis, log + [ch])
    ensures HeadOf(genesis, log + [ch]) == HeadAfter(ch)
    ensures Fold(c, vaultId, log + [ch]) == ApplyItem(c, vaultId, Fold(c, vaultId, log), ch)
  {
    var log' := log + [ch];
    assert log'[..|log|] == log;
    forall i | 0 <= i < |log'|
      ensures Authentic(c, vaultId, log'[i]) && Extends(HeadOf(genesis, log'[..i]), log'[i])
    {
      if i < |log| {
        assert log'[i] == log[i] && log'[..i] == log[..i];
      }
    }
  }

  // ----- collisions -----

  ghost predicate CollisionFree(h: string -> string, texts: iset<string>) {
    forall x, y :: x in texts && y in texts && h(x) == h(y) ==> x == y
  }

  function HeadTextOf(c: Crypto, vaultId: string, ch: Change): string {
    HeadText(HeadPayload(vaultId, ch.headSeq, ch.previousHeadHash, ExpectedMac(c, vaultId, ch)))
  }

  /** The texts that verifying a log hashes collide neither among themselves nor with another log's. */
  ghost predicate NoCollisions(c: Crypto, vaultId: string, log1: seq<Change>, log2: seq<Change>) {
    var logs := log1 + log2;
    && CollisionFree(c.hmac, iset i | 0 <= i < |logs| :: HeadTextOf(c, vaultId, logs[i]))
    && CollisionFree(c.hmac, iset i | 0 <= i < |logs| :: ChangeTextOf(c, vaultId, logs[i]))
    && CollisionFree(c.sha, iset i | 0 <= i < |logs| :: EnvelopeText(logs[i].envelope))
  }

  lemma NoCollisionsPair(c: Crypto, vaultId: string, log1: seq<Change>, log2: seq<Change>, i: nat, j: nat)
    requires NoCollisions(c, vaultId, log1, log2) && i < |log1| && j < |log2|
    ensures var x, y := log1[i], log2[j];
            && (c.hmac(HeadTextOf(c, vaultId, x)) == c.hmac(HeadTextOf(c, vaultId, y))
                ==> HeadTextOf(c, vaultId, x) == HeadTextOf(c, vaultId, y))
            && (c.hmac(ChangeTextOf(c, vaultId, x)) == c.hmac(ChangeTextOf(c, vaultId, y))
                ==> ChangeTextOf(c, vaultId, x) == ChangeTextOf(c, vaultId, y))
            && (c.sha(EnvelopeText(x.envelope)) == c.sha(EnvelopeText(y.envelope))
                ==> EnvelopeText(x.envelope) == EnvelopeText(y.envelope))
  {
    var logs := log1 + log2;
    assert logs[i] == log1[i] && logs[|log1| + j] == log2[j];
  }

  /** Authentic changes with one head hash are the same change. */
  lemma SameHeadHashSameChange(c: Crypto, vaultId: string, log1: seq<Change>, log2: seq<Change>, i: nat, j: nat)
    requires NoCollisions(c, vaultId, log1, log2) && i < |log1| && j < |log2|
    requires Authentic(c, vaultId, log1[i]) && Authentic(c, vaultId, log2[j])
    requires log1[i].headHash == log2[j].headHash
    ensures log1[i] == log2[j]
  {
    NoCollisionsPair(c, vaultId, log1, log2, i, j);
    var x, y := log1[i], log2[j];
    HeadTextInjective(HeadPayload(vaultId, x.headSeq, x.previousHeadHash, x.changeMac),
                      HeadPayload(vaultId, y.headSeq, y.previousHeadHash, y.changeMac));
    ChangeTextInjective(PayloadOf(vaultId, x, x.envelopeHash), PayloadOf(vaultId, y, y.envelopeHash));
    EnvelopeTextInjective(x.envelope, y.envelope);
  }

  lemma NoCollisionsShorter(c: Crypto, vaultId: string, log1: seq<Change>, log2: seq<Change>, m: nat, n: nat)
    requires NoCollisions(c, vaultId, log1, log2) && m <= |log1| && n <= |log2|
    ensures NoCollisions(c, vaultId, log1[..m], log2[..n])
  {
    var logs, short := log1 + log2, log1[..m] + log2[..n];
    forall i | 0 <= i < |short| ensures exists k :: 0 <= k < |logs| && logs[k] == short[i] {
      var k := if i < m then i else |log1| + (i - m);
      assert logs[k] == short[i];
    }
  }

  lemma HeadBeforeLast(c: Crypto, vaultId: string, genesis: string, log: seq<Change>)
    requires Accepted(c, vaultId, genesis, log) && log != []
    ensures var last := log[|log| - 1];
            HeadOf(genesis, log[..|log| - 1]) == Head(last.baseHeadSeq, last.baseHeadHash)
  {
    assert Extends(HeadOf(genesis, log[..|log| - 1]), log[|log| - 1]);
  }

  /** A head determines the whole history behind it, genesis included. */
  lemma {:induction false} SameHeadSameLog(c: Crypto, issued: iset<string>, vaultId: string,
                                           genesis1: string, log1: seq<Change>, genesis2: string, log2: seq<Change>)
    requires Accepted(c, vaultId, genesis1, log1) && Accepted(c, vaultId, genesis2, log2)
    requires Unforged(c, issued, vaultId, log1) && Unforged(c, issued, vaultId, log2)
    requires NoCollisions(c, vaultId, log1, log2)
    requires HeadOf(genesis1, log1) == HeadOf(genesis2, log2)
    ensures log1 == log2 && genesis1 == genesis2
    decreases |log1|
  {
    AcceptedNumbering(c, issued, vaultId, genesis1, log1);
    AcceptedNumbering(c, issued, vaultId, genesis2, log2);
    assert |log1| == |log2|;
    if log1 != [] {
      var n := |log1| - 1;
      SameHeadHashSameChange(c, vaultId, log1, log2, n, n);
      HeadBeforeLast(c, vaultId, genesis1, log1);
      HeadBeforeLast(c, vaultId, genesis2, log2);
      AcceptedPrefix(c, vaultId, genesis1, log1, n);
      AcceptedPrefix(c, vaultId, genesis2, log2, n);
      UnforgedPrefix(c, issued, vaultId, log1, n);
      UnforgedPrefix(c, issued, vaultId, log2, n);
      NoCollisionsShorter(c, vaultId, log1, log2, n, n);
      SameHeadSameLog(c, issued, vaultId, genesis1, log1[..n], genesis2, log2[..n]);
      Snoc(log1);
      Snoc(log2);
    }
  }
}
