/** The state machine with its real checks put in: SCRAM over the login transcript, and TOTP. */
module LoginRuns {
  import opened Results
  import opened Scram
  import opened Transcript
  import opened LoginProof
  import opened Totp
  import opened AuthModel
  import opened AuthAccess
  import opened AuthChallenges

  const PROFILE := Profile(Sha1, TOTP_DIGITS, TOTP_PERIOD)

  /** The primitives the server computes with; `key` decodes stored keys and proofs, `bytes` encodes texts. */
  datatype Primitives = Primitives(hash: Hash, hmac: Hmac, bytes: string -> Bytes, key: string -> Key,
                                   seedBytes: string -> seq<Byte>, recoveryHash: (Id, string, string) -> string)

  function RealChecks(p: Primitives): Checks
    requires DigestLengths(p.hmac)
  {
    Checks((stored, m, proof) => Verifies(p.hash, p.key(stored), p.bytes(Text(m)), p.key(proof)),
           (seed: string, step: nat) => CodeAt(p.hmac, p.seedBytes(seed), PROFILE, step),
           p.recoveryHash)
  }

  // ----- one login -----

  /** Neither SHA-256 nor HMAC collides on what the check of one message against a proof made for another compares. */
  predicate NoCollision(p: Primitives, salted: Key, made: LoginAuthMessage, claimed: LoginAuthMessage) {
    var stored, m, n := StoredKey(p.hash, salted), p.bytes(Text(made)), p.bytes(Text(claimed));
    && (m == n ==> Text(made) == Text(claimed))
    && NoShaCollision(p.hash, Xor(ProofOf(p.hash, salted, m), p.hash.hmac(stored, n)), ClientKey(p.hash, salted))
    && (p.hash.hmac(stored, m) == p.hash.hmac(stored, n) ==> m == n)
  }

  function HonestProof(p: Primitives, salted: Key, m: LoginAuthMessage): Key {
    ProofOf(p.hash, salted, p.bytes(Text(m)))
  }

  /** The password behind the account of a login challenge. */
  predicate HasPassword(p: Primitives, s: Auth, challenge: Id, salted: Key) {
    && challenge in s.challenges && s.challenges[challenge].accountId.Some?
    && s.challenges[challenge].accountId.value in s.accounts
    && p.key(s.accounts[s.challenges[challenge].accountId.value].storedKey) == StoredKey(p.hash, salted)
  }

  /** The challenge is open, asked with its own nonces, for an account that still has its handle. */
  predicate AsksRight(s: Auth, a: Action) {
    && a.LoginFinish? && Available(s, a.challenge, LoginChallenge, a.now)
    && var ch := s.challenges[a.challenge];
       && ch.clientNonce == a.clientNonce && ch.serverNonce == a.serverNonce
       && ch.accountId.Some? && ch.accountId.value in s.accounts && s.accounts[ch.accountId.value].handle == ch.handle
  }

  ghost predicate Admits(k: Checks, s: Auth, a: Action) {
    a.LoginFinish? && |Next(k, s, a).history| > |s.history|
  }

  /** A proof made with the account's password for any message at all logs in if and only if the challenge is open and
      asked right, and the message is the transcript of this very challenge. */
  lemma ProofLogsInIff(p: Primitives, s: Auth, a: Action, salted: Key, made: LoginAuthMessage)
    requires DigestLengths(p.hmac) && a.LoginFinish? && a.newId !in s.used && TokenFree(s, a.token) && a.now <= s.clock
    requires HasPassword(p, s, a.challenge, salted) && p.key(a.proof) == HonestProof(p, salted, made)
    requires NoCollision(p, salted, made, TranscriptOf(a.challenge, s.challenges[a.challenge], a.clientFinal))
    ensures Admits(RealChecks(p), s, a) <==>
            AsksRight(s, a) && made == TranscriptOf(a.challenge, s.challenges[a.challenge], a.clientFinal)
  {
    LoginAcceptedIff(RealChecks(p), s, a.challenge, a.clientNonce, a.serverNonce, a.clientFinal, a.proof, a.newId,
                     a.token, a.now);
    ProofBindsTranscript(p.hash, p.bytes, salted, made,
                         TranscriptOf(a.challenge, s.challenges[a.challenge], a.clientFinal));
  }

  lemma AdmittedMeansVerified(p: Primitives, s: Auth, a: Action)
    requires DigestLengths(p.hmac) && Admits(RealChecks(p), s, a)
    ensures AsksRight(s, a) && a.newId !in s.used
    ensures var ch := s.challenges[a.challenge];
            Verifies(p.hash, p.key(s.accounts[ch.accountId.value].storedKey),
                     p.bytes(Text(TranscriptOf(a.challenge, ch, a.clientFinal))), p.key(a.proof))
  {
  }

  // ----- whole runs -----

  lemma AdmittedCloses(k: Checks, s: Auth, a: Action)
    requires Admits(k, s, a) && a.challenge in s.used
    ensures Closed(Next(k, s, a), a.challenge)
  {
    assert Next(k, s, a) == DoAdmitProof(s, a.challenge, s.challenges[a.challenge], a.newId, a.token, a.now);
  }

  ghost function Before(k: Checks, clock: nat, actions: seq<Action>, n: nat): Auth
    requires n <= |actions|
  {
    Run(k, Start(clock), actions[..n])
  }

  lemma StepOfRun(k: Checks, clock: nat, actions: seq<Action>, n: nat)
    requires n < |actions|
    ensures Before(k, clock, actions, n + 1) == Next(k, Before(k, clock, actions, n), actions[n])
  {
    assert actions[..n + 1][..n] == actions[..n];
  }

  /** The finish got its answer: wrong, or right. */
  ghost predicate Decides(k: Checks, s: Auth, a: Action) {
    FailsAt(k, s, a) || Admits(k, s, a)
  }

  /** A login challenge is answered once: after one finish that failed or logged in, no later step of the run that acts
      on it changes anything. */
  lemma OneFinishPerChallenge(k: Checks, clock: nat, actions: seq<Action>, i: nat, j: nat)
    requires i < j < |actions| && Decides(k, Before(k, clock, actions, i), actions[i])
    requires ActsOn(actions[j], actions[i].challenge)
    ensures Before(k, clock, actions, j + 1) == Before(k, clock, actions, j)
  {
    var s, c := Before(k, clock, actions, i), actions[i].challenge;
    RowsAreUsed(k, s, c);
    if FailsAt(k, s, actions[i]) {
      FailingCloses(k, s, actions[i]);
    } else {
      AdmittedCloses(k, s, actions[i]);
    }
    StepOfRun(k, clock, actions, i);
    assert actions[..j] == actions[..i + 1] + actions[i + 1..j];
    RunConcat(k, Start(clock), actions[..i + 1], actions[i + 1..j]);
    ClosedIsFinal(k, Before(k, clock, actions, i + 1), actions[i + 1..j], c, actions[j]);
    StepOfRun(k, clock, actions, j);
  }

  /** So in no run do two different steps log in on one challenge, and none does after a wrong guess on it. */
  lemma ChallengesAdmitOnce(k: Checks, clock: nat, actions: seq<Action>, i: nat, j: nat)
    requires i < j < |actions|
    requires Decides(k, Before(k, clock, actions, i), actions[i]) && Admits(k, Before(k, clock, actions, j), actions[j])
    ensures actions[i].challenge != actions[j].challenge
  {
    if actions[j].challenge == actions[i].challenge {
      OneFinishPerChallenge(k, clock, actions, i, j);
      StepOfRun(k, clock, actions, j);
    }
  }

  /** What a step of the run proves. */
  ghost function Proved(k: Checks, clock: nat, actions: seq<Action>, n: nat): LoginAuthMessage
    requires n < |actions| && Admits(k, Before(k, clock, actions, n), actions[n])
  {
    TranscriptOf(actions[n].challenge, Before(k, clock, actions, n).challenges[actions[n].challenge],
                 actions[n].clientFinal)
  }

  /** SHA-256 does not collide on the two keys the check of step n compares. */
  ghost predicate StepCollides(p: Primitives, salted: Key, m: LoginAuthMessage, proof: string) {
    !NoShaCollision(p.hash, Xor(p.key(proof), p.hash.hmac(StoredKey(p.hash, salted), p.bytes(Text(m)))),
                    ClientKey(p.hash, salted))
  }

  /** Every proof accepted in a run is the honest one for the challenge it was accepted on. */
  lemma AcceptedProofIsForItsChallenge(p: Primitives, clock: nat, actions: seq<Action>, n: nat, salted: Key)
    requires DigestLengths(p.hmac) && n < |actions|
    requires Admits(RealChecks(p), Before(RealChecks(p), clock, actions, n), actions[n])
    requires HasPassword(p, Before(RealChecks(p), clock, actions, n), actions[n].challenge, salted)
    requires !StepCollides(p, salted, Proved(RealChecks(p), clock, actions, n), actions[n].proof)
    ensures p.key(actions[n].proof) == HonestProof(p, salted, Proved(RealChecks(p), clock, actions, n))
    ensures Proved(RealChecks(p), clock, actions, n).challengeId == actions[n].challenge
  {
    AdmittedMeansVerified(p, Before(RealChecks(p), clock, actions, n), actions[n]);
    OnlyHonestProofVerifies(p.hash, salted, p.bytes(Text(Proved(RealChecks(p), clock, actions, n))),
                            p.key(actions[n].proof));
  }

  /** A proof that logged in once in a run never logs in again, on any challenge of any account with that password. */
  lemma ProofsAreNeverReplayed(p: Primitives, clock: nat, actions: seq<Action>, i: nat, j: nat, salted: Key)
    requires DigestLengths(p.hmac) && i < j < |actions|
    requires Admits(RealChecks(p), Before(RealChecks(p), clock, actions, i), actions[i])
    requires Admits(RealChecks(p), Before(RealChecks(p), clock, actions, j), actions[j])
    requires HasPassword(p, Before(RealChecks(p), clock, actions, i), actions[i].challenge, salted)
    requires HasPassword(p, Before(RealChecks(p), clock, actions, j), actions[j].challenge, salted)
    requires var m, n := Proved(RealChecks(p), clock, actions, i), Proved(RealChecks(p), clock, actions, j);
             NoCollision(p, salted, m, n) && !StepCollides(p, salted, m, actions[i].proof)
    ensures p.key(actions[i].proof) != p.key(actions[j].proof)
  {
    var m, n := Proved(RealChecks(p), clock, actions, i), Proved(RealChecks(p), clock, actions, j);
    AcceptedProofIsForItsChallenge(p, clock, actions, i, salted);
    AdmittedMeansVerified(p, Before(RealChecks(p), clock, actions, j), actions[j]);
    if p.key(actions[i].proof) == p.key(actions[j].proof) {
      ProofBindsTranscript(p.hash, p.bytes, salted, m, n);
      ChallengesAdmitOnce(RealChecks(p), clock, actions, i, j);
    }
  }

  // ----- one-time codes -----

  lemma SameVerdict(f: nat -> string, g: nat -> string, current: nat, last: Option<nat>, code: string, r: Option<nat>)
    requires forall step: nat :: f(step) == g(step)
    requires IsVerdict(f, current, last, code, r)
    ensures IsVerdict(g, current, last, code, r)
  {
    forall step: nat ensures Acceptable(f, current, last, code, step) == Acceptable(g, current, last, code, step) {
    }
  }

  /** The judgement of the handlers is the answer of the verification routine, an error counting as a wrong code. */
  method JudgeByTotp(p: Primitives, seed: string, now: nat, code: string, last: Option<nat>) returns (step: Option<nat>)
    requires DigestLengths(p.hmac) && now <= U64_MAX && |p.seedBytes(seed)| >= MIN_SEED_BYTES
    ensures step == Judge(RealChecks(p), seed, now, code, last)
  {
    var answer := Verify(p.hmac, p.seedBytes(seed), now, code, PROFILE, last);
    match answer
    case Err(_) => step := None;
    case Ok(verdict) =>
      step := verdict;
      ghost var k := RealChecks(p);
      ghost var codes, codeAt := Codes(p.hmac, p.seedBytes(seed), PROFILE), (s: nat) => k.codeAt(seed, s);
      ghost var judged := AcceptStep(codeAt, now / TOTP_PERIOD, last, code);
      SameVerdict(codes, codeAt, now / TOTP_PERIOD, last, code, verdict);
      VerdictUnique(codeAt, now / TOTP_PERIOD, last, code, verdict, judged);
      assert judged == Judge(k, seed, now, code, last);
  }
}
