/** SCRAM-SHA-256 (section 3 of RFC 5802) over a hand-written PBKDF2 with one output block (section 5.2
    of RFC 8018). HMAC and SHA-256 are function parameters. */
module Scram {
  import opened Results

  type Bytes = seq<bv8>
  type Key = k: seq<bv8> | |k| == 32 witness seq(32, _ => 0)

  const MIN_ITERATIONS := 4096
  const MAX_ITERATIONS := 1_000_000
  const MIN_SALT_BYTES := 16

  datatype ScramError = IterationsTooLow | IterationsTooHigh | SaltTooShort | InvalidProofLength

  datatype Hash = Hash(hmac: (Bytes, Bytes) -> Key, sha: Bytes -> Key)

  datatype Verifier = Verifier(storedKey: Key, serverKey: Key)

  const CLIENT_KEY: Bytes := [67, 108, 105, 101, 110, 116, 32, 75, 101, 121]   // "Client Key"
  const SERVER_KEY: Bytes := [83, 101, 114, 118, 101, 114, 32, 75, 101, 121]   // "Server Key"

  // ----- exclusive or -----

  function Xor(a: Key, b: Key): Key {
    seq(32, i requires 0 <= i < 32 => a[i] ^ b[i])
  }

  lemma XorCancels(a: Key, b: Key)
    ensures Xor(Xor(a, b), b) == a
  {
    forall i | 0 <= i < 32 ensures Xor(Xor(a, b), b)[i] == a[i] {
      ByteCancels(a[i], b[i]);
    }
  }

  lemma ByteCancels(x: bv8, y: bv8)
    ensures (x ^ y) ^ y == x
  {}

  method XorKeys(left: Key, right: Key) returns (r: Key)
    ensures r == Xor(left, right)
  {
    var output := new bv8[32](_ => 0);
    for i := 0 to 32
      invariant forall k :: 0 <= k < i ==> output[k] == left[k] ^ right[k]
    {
      output[i] := left[i] ^ right[i];
    }
    r := output[..];
  }

  // ----- PBKDF2 -----

  /** The block number 1 in four big-endian bytes. */
  const BLOCK_ONE: Bytes := [0, 0, 0, 1]

  function U(h: Hash, password: Bytes, salt: Bytes, j: nat): Key
    requires j >= 1
  {
    if j == 1 then h.hmac(password, salt + BLOCK_ONE) else h.hmac(password, U(h, password, salt, j - 1))
  }

  /** U_1 xor U_2 xor ... xor U_c. */
  function F(h: Hash, password: Bytes, salt: Bytes, c: nat): Key
    requires c >= 1
  {
    if c == 1 then U(h, password, salt, 1) else Xor(F(h, password, salt, c - 1), U(h, password, salt, c))
  }

  /** The iterates of the pseudorandom function, the first one first. */
  function Iterates(h: Hash, password: Bytes, first: Key, n: nat): seq<Key>
    decreases n
  {
    if n == 0 then [] else [first] + Iterates(h, password, h.hmac(password, first), n - 1)
  }

  /** Their exclusive or, from the front. */
  function XorAll(keys: seq<Key>): Key {
    if keys == [] then seq(32, _ => 0) else Xor(keys[0], XorAll(keys[1..]))
  }

  lemma XorAssociates(a: Key, b: Key, c: Key)
    ensures Xor(Xor(a, b), c) == Xor(a, Xor(b, c))
  {}

  lemma XorZero(a: Key)
    ensures Xor(a, seq(32, _ => 0)) == a && Xor(seq(32, _ => 0), a) == a
  {}

  lemma {:induction false} XorAllSnoc(keys: seq<Key>, k: Key)
    ensures XorAll(keys + [k]) == Xor(XorAll(keys), k)
  {
    if keys == [] {
      assert keys + [k] == [k] && [k][1..] == [];
      XorZero(k);
    } else {
      assert (keys + [k])[1..] == keys[1..] + [k];
      XorAllSnoc(keys[1..], k);
      XorAssociates(keys[0], XorAll(keys[1..]), k);
    }
  }

  lemma {:induction false} IteratesSnoc(h: Hash, password: Bytes, salt: Bytes, j: nat, n: nat)
    requires j >= 1
    ensures Iterates(h, password, U(h, password, salt, j), n + 1)
            == Iterates(h, password, U(h, password, salt, j), n) + [U(h, password, salt, j + n)]
    decreases n
  {
    var first := U(h, password, salt, j);
    if n > 0 {
      assert h.hmac(password, first) == U(h, password, salt, j + 1);
      IteratesSnoc(h, password, salt, j + 1, n - 1);
    } else {
      assert Iterates(h, password, first, 1) == [first] + [];
    }
  }

  /** The block is the exclusive or of the first c iterates of the salt and the four bytes of block number one. */
  lemma {:induction false} BlockIsXorOfIterates(h: Hash, password: Bytes, salt: Bytes, c: nat)
    requires c >= 1
    ensures F(h, password, salt, c)
            == XorAll(Iterates(h, password, h.hmac(password, salt + [0, 0, 0, 1]), c))
  {
    var first := U(h, password, salt, 1);
    if c == 1 {
      IteratesSnoc(h, password, salt, 1, 0);
      assert Iterates(h, password, first, 1) == [] + [first];
      XorAllSnoc([], first);
      XorZero(first);
    } else {
      BlockIsXorOfIterates(h, password, salt, c - 1);
      IteratesSnoc(h, password, salt, 1, c - 1);
      XorAllSnoc(Iterates(h, password, first, c - 1), U(h, password, salt, c));
    }
  }

  function CheckParameters(salt: Bytes, iterations: nat): Option<ScramError> {
    if iterations < MIN_ITERATIONS then Some(IterationsTooLow)
    else if iterations > MAX_ITERATIONS then Some(IterationsTooHigh)
    else if |salt| < MIN_SALT_BYTES then Some(SaltTooShort)
    else None
  }

  /** The in-place loop computes the block of section 5.2 of RFC 8018, for every permitted count. */
  method SaltedPassword(h: Hash, secret: Bytes, salt: Bytes, iterations: nat) returns (r: Result<Key, ScramError>)
    ensures match CheckParameters(salt, iterations)
            case Some(e) => r == Err(e)
            case None => r == Ok(F(h, secret, salt, iterations))
  {
    if iterations < MIN_ITERATIONS {
      return Err(IterationsTooLow);
    }
    if iterations > MAX_ITERATIONS {
      return Err(IterationsTooHigh);
    }
    if |salt| < MIN_SALT_BYTES {
      return Err(SaltTooShort);
    }
    var u := h.hmac(secret, salt + BLOCK_ONE);
    var output := new bv8[32](i requires 0 <= i < 32 => u[i]);
    assert output[..] == u;
    for n := 1 to iterations
      invariant u == U(h, secret, salt, n) && output[..] == F(h, secret, salt, n)
    {
      u := h.hmac(secret, u);
      ghost var before := F(h, secret, salt, n);
      assert forall k :: 0 <= k < 32 ==> output[k] == output[..][k];
      for i := 0 to 32
        invariant forall k :: 0 <= k < i ==> output[k] == before[k] ^ u[k]
        invariant forall k :: i <= k < 32 ==> output[k] == before[k]
      {
        output[i] := output[i] ^ u[i];
      }
      assert output[..] == Xor(before, u);
    }
    return Ok(output[..]);
  }

  // ----- verifier, proof, verification -----

  function ClientKey(h: Hash, salted: Key): Key {
    h.hmac(salted, CLIENT_KEY)
  }

  function StoredKey(h: Hash, salted: Key): Key {
    h.sha(ClientKey(h, salted))
  }

  method DeriveVerifier(h: Hash, secret: Bytes, salt: Bytes, iterations: nat) returns (r: Result<Verifier, ScramError>)
    ensures match CheckParameters(salt, iterations)
            case Some(e) => r == Err(e)
            case None =>
              var salted := F(h, secret, salt, iterations);
              r == Ok(Verifier(StoredKey(h, salted), h.hmac(salted, SERVER_KEY)))
  {
    var salted := SaltedPassword(h, secret, salt, iterations);
    if salted.Err? {
      return Err(salted.error);
    }
    var clientKey := h.hmac(salted.value, CLIENT_KEY);
    return Ok(Verifier(h.sha(clientKey), h.hmac(salted.value, SERVER_KEY)));
  }

  function ProofOf(h: Hash, salted: Key, message: Bytes): Key {
    Xor(ClientKey(h, salted), h.hmac(StoredKey(h, salted), message))
  }

  method ClientProof(h: Hash, secret: Bytes, salt: Bytes, iterations: nat, message: Bytes)
    returns (r: Result<Key, ScramError>)
    ensures match CheckParameters(salt, iterations)
            case Some(e) => r == Err(e)
            case None => r == Ok(ProofOf(h, F(h, secret, salt, iterations), message))
  {
    var salted := SaltedPassword(h, secret, salt, iterations);
    if salted.Err? {
      return Err(salted.error);
    }
    var clientKey := h.hmac(salted.value, CLIENT_KEY);
    var storedKey := h.sha(clientKey);
    var clientSignature := h.hmac(storedKey, message);
    var proof := XorKeys(clientKey, clientSignature);
    return Ok(proof);
  }

  /** The test that verification performs on a 32-byte proof. */
  predicate Verifies(h: Hash, storedKey: Key, message: Bytes, proof: Key) {
    h.sha(Xor(proof, h.hmac(storedKey, message))) == storedKey
  }

  method VerifyClientProof(h: Hash, storedKey: Key, message: Bytes, proof: Bytes) returns (r: Result<bool, ScramError>)
    ensures |proof| != 32 ==> r == Err(InvalidProofLength)
    ensures |proof| == 32 ==> r == Ok(Verifies(h, storedKey, message, proof))
  {
    if |proof| != 32 {
      return Err(InvalidProofLength);
    }
    var clientSignature := h.hmac(storedKey, message);
    var clientKey := XorKeys(proof, clientSignature);
    return Ok(h.sha(clientKey) == storedKey);
  }

  /** Every honest proof verifies against the verifier of the same secret. */
  lemma HonestProofVerifies(h: Hash, salted: Key, message: Bytes)
    ensures Verifies(h, StoredKey(h, salted), message, ProofOf(h, salted, message))
  {
    XorCancels(ClientKey(h, salted), h.hmac(StoredKey(h, salted), message));
  }

  /** SHA-256 does not collide on the two keys that one verification compares. */
  predicate NoShaCollision(h: Hash, x: Key, y: Key) {
    h.sha(x) == h.sha(y) ==> x == y
  }

  /** The proof that verifies for a message is exactly the honest one. */
  lemma OnlyHonestProofVerifies(h: Hash, salted: Key, message: Bytes, proof: Key)
    requires NoShaCollision(h, Xor(proof, h.hmac(StoredKey(h, salted), message)), ClientKey(h, salted))
    ensures Verifies(h, StoredKey(h, salted), message, proof) <==> proof == ProofOf(h, salted, message)
  {
    HonestProofVerifies(h, salted, message);
    XorCancels(proof, h.hmac(StoredKey(h, salted), message));
  }

  lemma XorSameLeft(a: Key, b: Key, c: Key)
    requires Xor(a, b) == Xor(a, c)
    ensures b == c
  {
    XorCommutes(a, b);
    XorCommutes(a, c);
    XorCancels(b, a);
    XorCancels(c, a);
  }

  lemma XorCommutes(a: Key, b: Key)
    ensures Xor(a, b) == Xor(b, a)
  {}

  /** A proof made for one message verifies for another exactly when their signatures agree; without
      HMAC collisions on the two messages, exactly when they are the same message. */
  lemma ProofIsForOneMessage(h: Hash, salted: Key, made: Bytes, claimed: Bytes)
    requires NoShaCollision(h, Xor(ProofOf(h, salted, made), h.hmac(StoredKey(h, salted), claimed)),
                            ClientKey(h, salted))
    ensures Verifies(h, StoredKey(h, salted), claimed, ProofOf(h, salted, made))
            <==> h.hmac(StoredKey(h, salted), made) == h.hmac(StoredKey(h, salted), claimed)
    ensures (h.hmac(StoredKey(h, salted), made) == h.hmac(StoredKey(h, salted), claimed) ==> made == claimed) ==>
              (Verifies(h, StoredKey(h, salted), claimed, ProofOf(h, salted, made)) <==> made == claimed)
  {
    OnlyHonestProofVerifies(h, salted, claimed, ProofOf(h, salted, made));
    if ProofOf(h, salted, made) == ProofOf(h, salted, claimed) {
      XorSameLeft(ClientKey(h, salted), h.hmac(StoredKey(h, salted), made), h.hmac(StoredKey(h, salted), claimed));
    }
  }
}
