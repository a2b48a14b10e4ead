/** A login proof signs one transcript and no other. */
module LoginProof {
  import opened Scram
  import opened Transcript

  /** The proof a client makes for one challenge, handle and pair of nonces verifies for a claimed
      transcript exactly when every one of the six fields is the same. `bytes` is the byte encoding of
      texts, which keeps these two apart, and neither SHA-256 nor HMAC collides on what is compared. */
  lemma ProofBindsTranscript(h: Hash, bytes: string -> Bytes, salted: Key, made: LoginAuthMessage,
                             claimed: LoginAuthMessage)
    requires bytes(Text(made)) == bytes(Text(claimed)) ==> Text(made) == Text(claimed)
    requires var stored, m, n := StoredKey(h, salted), bytes(Text(made)), bytes(Text(claimed));
             && NoShaCollision(h, Xor(ProofOf(h, salted, m), h.hmac(stored, n)), ClientKey(h, salted))
             && (h.hmac(stored, m) == h.hmac(stored, n) ==> m == n)
    ensures Verifies(h, StoredKey(h, salted), bytes(Text(claimed)), ProofOf(h, salted, bytes(Text(made))))
            <==> made == claimed
  {
    ProofIsForOneMessage(h, salted, bytes(Text(made)), bytes(Text(claimed)));
    if bytes(Text(made)) == bytes(Text(claimed)) {
      TranscriptUnambiguous(made, claimed);
    }
  }
}
