/** The records that the browser hashes, MACs and binds into AES-GCM, and their canonical texts. */
module Payloads {
  import opened Decimals
  import opened CanonicalJson

  const ITEM_ENVELOPE_CRYPTO_VERSION := "item-envelope-v1"
  const ITEM_ENVELOPE_AEAD := "AES-256-GCM"

  datatype Envelope = Envelope(cryptoVersion: string, keyId: string, aead: string, nonce: string, ciphertext: string)

  datatype ChangePayload = ChangePayload(
    operation: string,
    vaultId: string,
    itemId: string,
    revisionId: string,
    revisionSeq: int,
    headSeq: int,
    baseRevisionSeq: int,
    baseHeadSeq: int,
    baseHeadHash: string,
    previousHeadHash: string,
    envelopeHash: string,
    keyId: string)

  datatype HeadPayload = HeadPayload(vaultId: string, headSeq: int, previousHeadHash: string, changeMac: string)

  function Num(i: int): Json {
    Number(Signed(i))
  }

  function ChangeFields(p: ChangePayload): seq<Field> {
    [ Field("version", String("password-vault/change-mac/v1")),
      Field("operation", String(p.operation)),
      Field("vault_id", String(p.vaultId)),
      Field("item_id", String(p.itemId)),
      Field("revision_id", String(p.revisionId)),
      Field("revision_seq", Num(p.revisionSeq)),
      Field("head_seq", Num(p.headSeq)),
      Field("base_revision_seq", Num(p.baseRevisionSeq)),
      Field("base_head_seq", Num(p.baseHeadSeq)),
      Field("base_head_hash", String(p.baseHeadHash)),
      Field("previous_head_hash", String(p.previousHeadHash)),
      Field("envelope_hash", String(p.envelopeHash)),
      Field("key_id", String(p.keyId)),
      Field("crypto_version", String(ITEM_ENVELOPE_CRYPTO_VERSION)) ]
  }

  function HeadFields(p: HeadPayload): seq<Field> {
    [ Field("version", String("password-vault/head-hash/v1")),
      Field("vault_id", String(p.vaultId)),
      Field("head_seq", Num(p.headSeq)),
      Field("previous_head_hash", String(p.previousHeadHash)),
      Field("change_mac", String(p.changeMac)) ]
  }

  function EnvelopeFields(e: Envelope): seq<Field> {
    [ Field("crypto_version", String(e.cryptoVersion)),
      Field("key_id", String(e.keyId)),
      Field("aead", String(e.aead)),
      Field("nonce", String(e.nonce)),
      Field("ciphertext", String(e.ciphertext)) ]
  }

  /** The associated data of one revision's ciphertext. */
  function AadFields(p: ChangePayload): seq<Field> {
    [ Field("record_type", String("vault-item-revision")),
      Field("crypto_version", String(ITEM_ENVELOPE_CRYPTO_VERSION)),
      Field("aead", String(ITEM_ENVELOPE_AEAD)),
      Field("vault_id", String(p.vaultId)),
      Field("item_id", String(p.itemId)),
      Field("revision_id", String(p.revisionId)),
      Field("operation", String(p.operation)),
      Field("base_revision_seq", Num(p.baseRevisionSeq)),
      Field("base_head_seq", Num(p.baseHeadSeq)),
      Field("key_id", String(p.keyId)) ]
  }

  function ChangeText(p: ChangePayload): string {
    StableJson(Object(ChangeFields(p)))
  }

  function HeadText(p: HeadPayload): string {
    StableJson(Object(HeadFields(p)))
  }

  function EnvelopeText(e: Envelope): string {
    StableJson(Object(EnvelopeFields(e)))
  }

  function AadText(p: ChangePayload): string {
    StableJson(Object(AadFields(p)))
  }

  lemma NumWellFormed(i: int)
    ensures WellFormed(Num(i))
  {}

  lemma ChangeWellFormed(p: ChangePayload)
    ensures WellFormed(Object(ChangeFields(p)))
    ensures forall i :: 0 <= i < 14 ==> Leaf(ChangeFields(p)[i].value)
  {
    NumWellFormed(p.revisionSeq);
    NumWellFormed(p.headSeq);
    NumWellFormed(p.baseRevisionSeq);
    NumWellFormed(p.baseHeadSeq);
  }

  lemma ChangeFieldsInjective(p: ChangePayload, q: ChangePayload, fs: seq<Field>, gs: seq<Field>)
    requires fs == ChangeFields(p) && gs == ChangeFields(q) && fs == gs
    ensures p == q
  {
    assert fs[5].value == Num(p.revisionSeq) && gs[5].value == Num(q.revisionSeq);
    SignedInjective(p.revisionSeq, q.revisionSeq);
    assert fs[6].value == Num(p.headSeq) && gs[6].value == Num(q.headSeq);
    SignedInjective(p.headSeq, q.headSeq);
    assert fs[7].value == Num(p.baseRevisionSeq) && gs[7].value == Num(q.baseRevisionSeq);
    SignedInjective(p.baseRevisionSeq, q.baseRevisionSeq);
    assert fs[8].value == Num(p.baseHeadSeq) && gs[8].value == Num(q.baseHeadSeq);
    SignedInjective(p.baseHeadSeq, q.baseHeadSeq);
    assert fs[1] == gs[1] && fs[2] == gs[2] && fs[3] == gs[3] && fs[4] == gs[4];
    assert fs[9] == gs[9] && fs[10] == gs[10] && fs[11] == gs[11] && fs[12] == gs[12];
  }

  /** One text, one payload: a change MAC fixes every field of the change. */
  lemma ChangeTextInjective(p: ChangePayload, q: ChangePayload)
    requires ChangeText(p) == ChangeText(q)
    ensures p == q
  {
    ChangeWellFormed(p);
    ChangeWellFormed(q);
    RecordInjective(ChangeFields(p), ChangeFields(q));
    ChangeFieldsInjective(p, q, ChangeFields(p), ChangeFields(q));
  }

  lemma HeadWellFormed(p: HeadPayload)
    ensures WellFormed(Object(HeadFields(p)))
    ensures forall i :: 0 <= i < 5 ==> Leaf(HeadFields(p)[i].value)
  {
    NumWellFormed(p.headSeq);
  }

  lemma HeadFieldsInjective(p: HeadPayload, q: HeadPayload, fs: seq<Field>, gs: seq<Field>)
    requires fs == HeadFields(p) && gs == HeadFields(q) && fs == gs
    ensures p == q
  {
    assert fs[1] == gs[1] && fs[2] == gs[2] && fs[3] == gs[3] && fs[4] == gs[4];
    SignedInjective(p.headSeq, q.headSeq);
  }

  /** No MACed change and no hashed head ever share a text, so under their one key neither can stand in for the other.
      */
  lemma TextsNeverMix(p: ChangePayload, q: HeadPayload)
    ensures ChangeText(p) != HeadText(q)
  {
    ChangeWellFormed(p);
    HeadWellFormed(q);
    StableJsonCanonical(Object(ChangeFields(p)), Object(HeadFields(q)));
    assert ChangeFields(p)[0].key == HeadFields(q)[0].key;
    assert !Same(ChangeFields(p)[0].value, HeadFields(q)[0].value);
  }

  lemma EnvelopeWellFormed(e: Envelope)
    ensures WellFormed(Object(EnvelopeFields(e)))
    ensures forall i :: 0 <= i < 5 ==> Leaf(EnvelopeFields(e)[i].value)
  {
  }

  lemma EnvelopeFieldsInjective(e: Envelope, f: Envelope, fs: seq<Field>, gs: seq<Field>)
    requires fs == EnvelopeFields(e) && gs == EnvelopeFields(f) && fs == gs
    ensures e == f
  {
    assert fs[0] == gs[0] && fs[1] == gs[1] && fs[2] == gs[2] && fs[3] == gs[3] && fs[4] == gs[4];
  }

  /** One text, one payload: a head hash fixes its predecessor and its change MAC. */
  lemma HeadTextInjective(p: HeadPayload, q: HeadPayload)
    requires HeadText(p) == HeadText(q)
    ensures p == q
  {
    HeadWellFormed(p);
    HeadWellFormed(q);
    RecordInjective(HeadFields(p), HeadFields(q));
    HeadFieldsInjective(p, q, HeadFields(p), HeadFields(q));
  }

  lemma AadWellFormed(p: ChangePayload)
    ensures WellFormed(Object(AadFields(p)))
    ensures forall i :: 0 <= i < 10 ==> Leaf(AadFields(p)[i].value)
  {
    NumWellFormed(p.baseRevisionSeq);
    NumWellFormed(p.baseHeadSeq);
  }

  /** The associated data of two revisions agree exactly when the revisions agree on everything they are bound to. */
  lemma AadTextBinds(p: ChangePayload, q: ChangePayload)
    ensures AadText(p) == AadText(q) <==>
            && p.vaultId == q.vaultId && p.itemId == q.itemId && p.revisionId == q.revisionId
            && p.operation == q.operation && p.baseRevisionSeq == q.baseRevisionSeq && p.baseHeadSeq == q.baseHeadSeq
            && p.keyId == q.keyId
  {
    if AadText(p) == AadText(q) {
      AadWellFormed(p);
      AadWellFormed(q);
      RecordInjective(AadFields(p), AadFields(q));
      var fs, gs := AadFields(p), AadFields(q);
      assert fs[3] == gs[3] && fs[4] == gs[4] && fs[5] == gs[5] && fs[6] == gs[6] && fs[9] == gs[9];
      assert fs[7].value == Num(p.baseRevisionSeq) && gs[7].value == Num(q.baseRevisionSeq);
      SignedInjective(p.baseRevisionSeq, q.baseRevisionSeq);
      assert fs[8].value == Num(p.baseHeadSeq) && gs[8].value == Num(q.baseHeadSeq);
      SignedInjective(p.baseHeadSeq, q.baseHeadSeq);
    }
  }

  /** One text, one envelope. */
  lemma EnvelopeTextInjective(e: Envelope, f: Envelope)
    requires EnvelopeText(e) == EnvelopeText(f)
    ensures e == f
  {
    EnvelopeWellFormed(e);
    EnvelopeWellFormed(f);
    RecordInjective(EnvelopeFields(e), EnvelopeFields(f));
    EnvelopeFieldsInjective(e, f, EnvelopeFields(e), EnvelopeFields(f));
  }
}
