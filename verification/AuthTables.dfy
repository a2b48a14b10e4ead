/** The handlers as they run: statement by statement on the tables, inside a transaction that a failing statement rolls
    back. Each leaves exactly what its step of the model says. */
module AuthTables {
  import opened Results
  import opened AuthModel
  import opened Transcript

  datatype Reply =
    | Refused
    | Unavailable
    | MfaRequired(challenge: Id)
    | SessionCreated(session: Id, state: SessionState)
    | Confirmed
    | Pending(factor: Id)

  /** totp_factors_account_id_uq */
  ghost predicate OneFactorEach(factors: map<Id, Factor>) {
    forall f, g :: f in factors && g in factors && factors[f].accountId == factors[g].accountId ==> f == g
  }

  /** sessions_session_token_hash_uq */
  ghost predicate OneSessionEach(sessions: map<Id, Session>) {
    forall i, j :: i in sessions && j in sessions && sessions[i].token == sessions[j].token ==> i == j
  }

  // ----- what the unique constraints make certain -----

  lemma ActiveFactorIs(s: Auth, accountId: Id, f: Id)
    requires OneFactorEach(s.factors) && IsActiveFactor(s, f, accountId)
    ensures ActiveFactor(s, accountId) == Some(f)
  {
  }

  lemma NoActiveFactor(s: Auth, accountId: Id)
    requires forall f :: f in s.factors ==> !IsActiveFactor(s, f, accountId)
    ensures ActiveFactor(s, accountId) == None
  {
  }

  /** A token reaches at most one row, so a load is determined. */
  lemma LoadIs(s: Auth, token: string, now: nat, id: Id)
    requires OneSessionEach(s.sessions) && IsLive(s, id, token)
    ensures DoLoad(s, token, now) == DoLoadRow(s, id, now)
  {
    forall j | IsLive(s, j, token) ensures j == id {
      assert s.sessions[j].token == s.sessions[id].token;
    }
  }

  /** The row the matching loop ends with: the last of the rows whose hash matches. */
  function LastMatch(c: Checks, codes: map<Id, Code>, accountId: Id, code: string, rows: seq<Id>): Option<Id>
  {
    if rows == [] then None
    else
      var id := rows[|rows| - 1];
      if id in codes && codes[id].hash == c.recoveryHash(accountId, codes[id].salt, code) then Some(id)
      else LastMatch(c, codes, accountId, code, rows[..|rows| - 1])
  }

  predicate IsUnusedOf(codes: map<Id, Code>, accountId: Id, id: Id) {
    id in codes && codes[id].accountId == accountId && !codes[id].used
  }

  /** Whatever order the rows came in, the loop's answer is a matching unused row of the account, or there is none. */
  lemma {:induction false} LastMatchMayMatch(c: Checks, s: Auth, accountId: Id, code: string, rows: seq<Id>)
    requires forall i :: 0 <= i < |rows| ==> IsUnusedOf(s.codes, accountId, rows[i])
    ensures var pick := LastMatch(c, s.codes, accountId, code, rows);
            && (pick.Some? ==> MatchesCode(c, s, pick.value, accountId, code))
            && (pick.None? ==> forall i :: 0 <= i < |rows| ==> !MatchesCode(c, s, rows[i], accountId, code))
  {
    if rows != [] {
      LastMatchMayMatch(c, s, accountId, code, rows[..|rows| - 1]);
    }
  }

  class AuthTables {
    var accounts: map<Id, Account>
    var challenges: map<Id, Challenge>
    var factors: map<Id, Factor>
    var codes: map<Id, Code>
    var sessions: map<Id, Session>
    var vaults: set<Id>
    ghost var requests: set<Current>
    ghost var revoking: set<Id>
    ghost var used: set<Id>
    ghost var clock: nat
    ghost var history: seq<Event>

    ghost function View(): Auth
      reads this
    {
      Auth(accounts, challenges, factors, codes, sessions, requests, revoking, used, clock, history)
    }

    ghost predicate Valid()
      reads this
    {
      OneFactorEach(factors) && OneSessionEach(sessions)
    }

    constructor (now: nat)
      ensures Valid() && View() == Start(now)
    {
      accounts, challenges, factors, codes, sessions, vaults := map[], map[], map[], map[], map[], {};
      requests, revoking, used, clock, history := {}, {}, {}, now, [];
    }

    // ----- statements -----

    /** SELECT ... FOR UPDATE of a challenge that may still be acted on. */
    method SelectChallenge(id: Id, kind: ChallengeKind, now: nat) returns (row: Option<Challenge>)
      ensures row.Some? <==> Available(View(), id, kind, now)
      ensures row.Some? ==> row.value == challenges[id]
    {
      if id in challenges && challenges[id].kind == kind && !challenges[id].consumed
          && challenges[id].expiresAt >= now {
        row := Some(challenges[id]);
      } else {
        row := None;
      }
    }

    method SelectActiveFactor(accountId: Id) returns (f: Option<Id>)
      requires Valid()
      ensures f == ActiveFactor(View(), accountId)
      ensures f.Some? ==> IsActiveFactor(View(), f.value, accountId)
      ensures f.None? ==> forall id :: id in factors ==> !IsActiveFactor(View(), id, accountId)
    {
      if id :| id in factors && factors[id].accountId == accountId && factors[id].verified {
        ActiveFactorIs(View(), accountId, id);
        f := Some(id);
      } else {
        NoActiveFactor(View(), accountId);
        f := None;
      }
    }

    method ConsumeChallenge(id: Id)
      modifies `challenges
      ensures challenges == if id in old(challenges) then old(challenges)[id := Consume(old(challenges[id]))]
                            else old(challenges)
    {
      if id in challenges {
        challenges := challenges[id := challenges[id].(consumed := true)];
      }
    }

    /** One more attempt; the fifth consumes the challenge. */
    method IncrementChallengeAttempts(id: Id)
      requires id in challenges
      modifies `challenges
      ensures challenges == old(challenges)[id := IncrementAttempts(old(challenges[id]))]
    {
      var attempts := challenges[id].attempts + 1;
      challenges := challenges[id := challenges[id].(attempts := attempts)];
      if attempts >= MFA_CHALLENGE_MAX_ATTEMPTS {
        challenges := challenges[id := challenges[id].(consumed := true)];
      }
    }

    /** INSERT of a session; refused when the token is taken. */
    method CreateSession(id: Id, accountId: Id, token: string, state: SessionState, now: nat) returns (ok: bool)
      requires Valid() && id !in sessions
      modifies `sessions
      ensures Valid()
      ensures ok == old(TokenFree(View(), token))
      ensures sessions == if ok then old(sessions)[id := NewSession(accountId, token, state, now)] else old(sessions)
    {
      ok := !exists i :: i in sessions && sessions[i].token == token;
      if ok {
        sessions := sessions[id := Session(accountId, token, state, now + SESSION_IDLE_TTL, now + SESSION_ABSOLUTE_TTL,
                                           false)];
      }
    }

    method SelectUnusedCodes(accountId: Id) returns (rows: seq<Id>)
      ensures forall id :: id in rows <==> IsUnusedOf(codes, accountId, id)
    {
      rows := [];
      var todo := codes.Keys;
      while todo != {}
        invariant todo <= codes.Keys
        invariant forall id :: id in rows <==> id in codes && id !in todo && IsUnusedOf(codes, accountId, id)
        decreases |todo|
      {
        var id :| id in todo;
        todo := todo - {id};
        if codes[id].accountId == accountId && !codes[id].used {
          rows := rows + [id];
        }
      }
    }

    /** The loop looks at every row, whether or not one has matched already. */
    method FindMatchingRecoveryCode(c: Checks, accountId: Id, code: string) returns (matchedId: Option<Id>)
      ensures MayMatch(c, View(), accountId, Some(code), matchedId)
    {
      var rows := SelectUnusedCodes(accountId);
      matchedId := None;
      var i := 0;
      while i < |rows|
        invariant 0 <= i <= |rows|
        invariant forall j :: 0 <= j < |rows| ==> IsUnusedOf(codes, accountId, rows[j])
        invariant matchedId == LastMatch(c, codes, accountId, code, rows[..i])
      {
        var row := codes[rows[i]];
        var candidate := c.recoveryHash(accountId, row.salt, code);
        if row.hash == candidate {
          matchedId := Some(rows[i]);
        }
        assert rows[..i + 1][..i] == rows[..i];
        i := i + 1;
      }
      assert rows[..i] == rows;
      LastMatchMayMatch(c, View(), accountId, code, rows);
      if matchedId.None? {
        forall id ensures !MatchesCode(c, View(), id, accountId, code) {
          if IsUnusedOf(codes, accountId, id) {
            assert id in rows;
          }
        }
      }
    }

    /** UPDATE ... WHERE used_at IS NULL; succeeds when it changed one row. */
    method ConsumeRecoveryCode(accountId: Id, id: Id) returns (ok: bool)
      modifies `codes
      ensures ok == IsUnusedOf(old(codes), accountId, id)
      ensures codes == if ok then old(codes)[id := old(codes[id]).(used := true)] else old(codes)
    {
      ok := id in codes && codes[id].accountId == accountId && !codes[id].used;
      if ok {
        codes := codes[id := codes[id].(used := true)];
      }
    }

    // ----- handlers -----

    method RegisterFinish(challenge: Id, account: Id, session: Id, token: string, storedKey: string, vault: Id,
                          now: nat)
      returns (reply: Reply)
      requires Valid() && account !in used && session !in used && account != session && session !in sessions
      modifies this
      ensures Valid()
      ensures View() == if vault in old(vaults) then old(View())
                        else DoRegisterFinish(old(View()), challenge, account, session, token, storedKey, now)
      ensures reply in {Refused, SessionCreated(session, EnrollmentRequired)}
      ensures reply == Refused ==> View() == old(View()) && vaults == old(vaults)
      ensures reply != Refused ==> session in sessions && vaults == old(vaults) + {vault}
    {
      var row := SelectChallenge(challenge, RegisterChallenge, now);
      if row.None? {
        return Refused;
      }
      var handle := row.value.handle;
      if exists id :: id in accounts && accounts[id].handle == handle {
        return Refused;
      }
      reply := Register(challenge, handle, account, session, token, storedKey, vault, now);
    }

    /** The account's rows and its first session, then the challenge consumed; or nothing at all. */
    method Register(challenge: Id, handle: string, account: Id, session: Id, token: string, storedKey: string,
                    vault: Id, now: nat)
      returns (reply: Reply)
      requires Valid() && session !in sessions && challenge in challenges
      modifies this
      ensures Valid()
      ensures reply in {Refused, SessionCreated(session, EnrollmentRequired)}
      ensures reply == Refused <==> vault in old(vaults) || !old(TokenFree(View(), token))
      ensures reply == Refused ==> View() == old(View()) && vaults == old(vaults)
      ensures reply != Refused ==>
                && vaults == old(vaults) + {vault}
                && View() == DoRegister(old(View()), challenge, handle, account, session, token, storedKey, now)
    {
      var inserted := InsertRegistration(handle, account, session, token, storedKey, vault, now);
      if !inserted {
        return Refused;
      }
      ConsumeChallenge(challenge);
      used := used + {account, session};
      history := history + [Registered(account, session), SessionIssued(session, now)];
      return SessionCreated(session, EnrollmentRequired);
    }

    /** INSERT of the account, of its first vault and of the session; a taken vault or token rolls all of them back. */
    method InsertRegistration(handle: string, account: Id, session: Id, token: string, storedKey: string, vault: Id,
                              now: nat)
      returns (ok: bool)
      requires Valid() && session !in sessions
      modifies `accounts, `vaults, `sessions
      ensures Valid()
      ensures ok <==> vault !in old(vaults) && old(TokenFree(View(), token))
      ensures !ok ==> accounts == old(accounts) && vaults == old(vaults) && sessions == old(sessions)
      ensures ok ==> && accounts == old(accounts)[account := Account(handle, storedKey)]
                     && vaults == old(vaults) + {vault}
                     && sessions == old(sessions)[session := NewSession(account, token, EnrollmentRequired, now)]
    {
      var accountsBefore, vaultsBefore := accounts, vaults;
      accounts := accounts[account := Account(handle, storedKey)];
      if vault in vaults {
        accounts := accountsBefore;
        return false;
      }
      vaults := vaults + {vault};
      ok := CreateSession(session, account, token, EnrollmentRequired, now);
      if !ok {
        accounts, vaults := accountsBefore, vaultsBefore;
      }
    }

    /** Whether the proof is good for the account behind the challenge. */
    method CheckProof(c: Checks, challenge: Id, clientFinal: string, proof: string) returns (ok: bool)
      requires challenge in challenges
      ensures ok == ProofGood(c, View(), challenge, clientFinal, proof)
    {
      var row := challenges[challenge];
      ok := false;
      if row.accountId.Some? && row.accountId.value in accounts {
        var account := accounts[row.accountId.value];
        if account.handle == row.handle {
          ok := c.verifyProof(account.storedKey, TranscriptOf(challenge, row, clientFinal), proof);
        }
      }
    }

    method LoginFinish(c: Checks, challenge: Id, clientNonce: string, serverNonce: string, clientFinal: string,
                       proof: string, newId: Id, token: string, now: nat) returns (reply: Reply)
      requires Valid() && newId !in used && newId !in sessions
      modifies this
      ensures Valid()
      ensures View() == DoLoginFinish(c, old(View()), challenge, clientNonce, serverNonce, clientFinal, proof, newId,
                                      token, now)
      ensures reply.MfaRequired? || reply.SessionCreated? <==> |history| > old(|history|)
      ensures reply.MfaRequired? ==> reply == MfaRequired(newId) && Available(View(), newId, PreMfaChallenge, now)
      ensures reply.SessionCreated? ==> reply == SessionCreated(newId, EnrollmentRequired) && newId in sessions
    {
      var row := SelectChallenge(challenge, LoginChallenge, now);
      if row.None? {
        return Refused;
      }
      if row.value.clientNonce != clientNonce || row.value.serverNonce != serverNonce {
        ConsumeChallenge(challenge);
        return Refused;
      }
      var proofOk := CheckProof(c, challenge, clientFinal, proof);
      if !proofOk {
        ConsumeChallenge(challenge);
        return Refused;
      }
      reply := AdmitProof(challenge, row.value, newId, token, now);
    }

    /** The proof was good: a pre-MFA challenge if the account has a verified factor, otherwise a session to enrol
        with. */
    method AdmitProof(challenge: Id, row: Challenge, newId: Id, token: string, now: nat) returns (reply: Reply)
      requires Valid() && newId !in sessions && row.accountId.Some?
      requires challenge in challenges && challenges[challenge] == row
      modifies `challenges, `sessions, `used, `history
      ensures Valid()
      ensures View() == DoAdmitProof(old(View()), challenge, row, newId, token, now)
      ensures reply.MfaRequired? || reply.SessionCreated? <==> |history| > old(|history|)
      ensures reply.MfaRequired? ==> reply == MfaRequired(newId) && Available(View(), newId, PreMfaChallenge, now)
      ensures reply.SessionCreated? ==> reply == SessionCreated(newId, EnrollmentRequired) && newId in sessions
    {
      ghost var s := View();
      var account := row.accountId.value;
      var challengesBefore := challenges;
      ConsumeChallenge(challenge);
      var active := SelectActiveFactor(account);
      if active.Some? {
        ActiveFactorIs(s, account, active.value);
        challenges := challenges[newId := Challenge(PreMfaChallenge, Some(account), row.handle, "", "", 0,
                                                    now + LOGIN_CHALLENGE_TTL, false)];
        used := used + {newId};
        history := history + [ProofAccepted(challenge, account, Challenged(newId))];
        return MfaRequired(newId);
      }
      NoActiveFactor(s, account);
      var ok := CreateSession(newId, account, token, EnrollmentRequired, now);
      if !ok {
        challenges := challengesBefore;
        return Unavailable;
      }
      used := used + {newId};
      history := history + [ProofAccepted(challenge, account, Seated(newId)), SessionIssued(newId, now)];
      return SessionCreated(newId, EnrollmentRequired);
    }

    method TotpVerify(c: Checks, challenge: Id, code: string, session: Id, token: string, now: nat)
      returns (reply: Reply)
      requires Valid() && session !in used && session !in sessions
      modifies this
      ensures Valid()
      ensures View() == DoTotpVerify(c, old(View()), challenge, code, session, token, now)
      ensures reply == SessionCreated(session, MfaVerified) <==> session in sessions
    {
      var row := SelectChallenge(challenge, PreMfaChallenge, now);
      if row.None? || row.value.accountId.None? || row.value.attempts >= MFA_CHALLENGE_MAX_ATTEMPTS {
        return Refused;
      }
      var account := row.value.accountId.value;
      var f := SelectActiveFactor(account);
      if f.None? {
        return Refused;
      }
      var factor := factors[f.value];
      var step := Judge(c, factor.seed, now, code, factor.lastStep);
      if step.None? {
        IncrementChallengeAttempts(challenge);
        history := history + [Judged(challenge)];
        return Refused;
      }
      reply := AcceptCode(challenge, f.value, account, step.value, session, token, now);
    }

    /** The code was right: a verified session, unless its token is taken. */
    method AcceptCode(challenge: Id, f: Id, account: Id, step: nat, session: Id, token: string, now: nat)
      returns (reply: Reply)
      requires Valid() && session !in sessions && f in factors && challenge in challenges
      modifies `sessions, `factors, `challenges, `used, `history
      ensures Valid()
      ensures View() == if old(TokenFree(View(), token))
                        then DoAcceptCode(old(View()), challenge, f, account, step, session, token, now)
                            else old(View())
      ensures reply == if old(TokenFree(View(), token)) then SessionCreated(session, MfaVerified) else Unavailable
    {
      var ok := CreateSession(session, account, token, MfaVerified, now);
      if !ok {
        return Unavailable;
      }
      BurnStep(challenge, f, step);
      used := used + {session};
      history := history + LoginEvents(challenge, f, account, step, session, now);
      return SessionCreated(session, MfaVerified);
    }

    /** UPDATE of the factor's last accepted step, then of the challenge. */
    method BurnStep(challenge: Id, f: Id, step: nat)
      requires f in factors && challenge in challenges
      modifies `factors, `challenges
      ensures factors == old(factors)[f := old(factors[f]).(lastStep := Some(step))]
      ensures challenges == old(challenges)[challenge := Consume(old(challenges[challenge]))]
      ensures old(OneFactorEach(factors)) ==> OneFactorEach(factors)
    {
      factors := factors[f := factors[f].(lastStep := Some(step))];
      ConsumeChallenge(challenge);
    }

    method RecoveryCodeVerify(c: Checks, challenge: Id, recoveryCode: Option<string>, session: Id, token: string,
                              now: nat)
      returns (reply: Reply, ghost pick: Option<Id>)
      requires Valid() && session !in used && session !in sessions
      modifies this
      ensures Valid()
      ensures !old(MayTry(View(), challenge, now)) ==> View() == old(View())
      ensures old(MayTry(View(), challenge, now)) ==>
                && MayMatch(c, old(View()), old(challenges)[challenge].accountId.value, recoveryCode, pick)
                && View() == DoRecoveryVerify(old(View()), challenge, pick, session, token, now)
      ensures reply == SessionCreated(session, RecoverySession) <==> session in sessions
    {
      pick := None;
      var row := SelectChallenge(challenge, PreMfaChallenge, now);
      if row.None? || row.value.accountId.None? || row.value.attempts >= MFA_CHALLENGE_MAX_ATTEMPTS {
        return Refused, None;
      }
      var account := row.value.accountId.value;
      var matched: Option<Id> := None;
      if recoveryCode.Some? {
        matched := FindMatchingRecoveryCode(c, account, recoveryCode.value);
      }
      pick := matched;
      if matched.None? {
        IncrementChallengeAttempts(challenge);
        history := history + [Judged(challenge)];
        return Refused, pick;
      }
      var codesBefore := codes;
      var consumed := ConsumeRecoveryCode(account, matched.value);
      assert consumed;
      var ok := CreateSession(session, account, token, RecoverySession, now);
      if !ok {
        codes := codesBefore;
        return Unavailable, pick;
      }
      ConsumeChallenge(challenge);
      used := used + {session};
      history := history + [Judged(challenge), RecoveryUsed(challenge, account, session), SessionIssued(session, now)];
      return SessionCreated(session, RecoverySession), pick;
    }

    /** The session behind a token, for the request; one that has expired is revoked and not returned. */
    method LoadCurrentSession(token: string, now: nat) returns (current: Option<Current>)
      requires Valid()
      modifies this
      ensures Valid()
      ensures current.Some? ==> View() == DoLoad(old(View()), token, now) && current.value in requests
      ensures forall id :: IsLive(old(View()), id, token) ==>
                             var row := old(sessions)[id];
                             current == if row.idle <= now || row.absolute <= now then None
                                        else Some(Current(id, row.accountId, row.state, row.absolute, now))
      ensures (forall id :: !IsLive(old(View()), id, token)) ==> current == None && View() == old(View())
      ensures current.None? ==> forall id :: !IsLive(View(), id, token)
      ensures current.None? && View() != old(View()) ==>
                exists id :: View() == DoRevoke(DoLoad(old(View()), token, now), id)
    {
      if id :| id in sessions && sessions[id].token == token && !sessions[id].revoked {
        ghost var s := View();
        assert IsLive(s, id, token);
        LoadIs(s, token, now, id);
        var row := sessions[id];
        if row.idle <= now || row.absolute <= now {
          revoking := revoking + {id};
          RevokeSession(id);
          assert View() == DoRevoke(DoLoad(s, token, now), id);
          return None;
        }
        requests := requests + {Current(id, row.accountId, row.state, row.absolute, now)};
        history := history + [SessionReturned(id, now)];
        return Some(Current(id, row.accountId, row.state, row.absolute, now));
      }
      assert forall id :: !IsLive(View(), id, token);
      return None;
    }

    method RevokeSession(id: Id)
      requires id in revoking
      modifies `sessions
      ensures View() == DoRevoke(old(View()), id)
      ensures old(Valid()) ==> Valid()
    {
      if id in sessions {
        sessions := sessions[id := sessions[id].(revoked := true)];
      }
    }

    method RefreshSessionActivity(r: Current)
      requires Valid()
      modifies `sessions, `history
      ensures Valid()
      ensures View() == DoRefresh(old(View()), r)
    {
      var idle := MinTime(r.now + SESSION_IDLE_TTL, r.absolute);
      if r.sessionId in sessions {
        sessions := sessions[r.sessionId := sessions[r.sessionId].(idle := idle)];
        history := history + [Active(r.sessionId, r.now)];
      }
    }

    /** Any factor of the account, even a verified one, gives way to a new pending one. */
    method TotpEnrollStart(r: Current, factor: Id, seed: string) returns (reply: Reply)
      requires Valid() && factor !in used
      modifies `factors, `used
      ensures Valid()
      ensures View() == DoEnrollStart(old(View()), r, factor, seed)
      ensures reply == if r.state == MfaVerified then Refused else Pending(factor)
    {
      if r.state == MfaVerified {
        return Refused;
      }
      factors := map id | id in factors && factors[id].accountId != r.accountId :: factors[id];
      factors := factors[factor := Factor(r.accountId, seed, None, false)];
      used := used + {factor};
      return Pending(factor);
    }

    /** DELETE of the account's codes, then one INSERT after the other. */
    method ReplaceRecoveryCodes(accountId: Id, newCodes: seq<NewCode>)
      modifies `codes
      ensures codes == InsertCodes(DropCodes(old(codes), accountId), accountId, newCodes)
    {
      codes := map id | id in codes && codes[id].accountId != accountId :: codes[id];
      ghost var kept := codes;
      var i := 0;
      while i < |newCodes|
        invariant 0 <= i <= |newCodes|
        invariant codes == InsertCodes(kept, accountId, newCodes[..i])
      {
        codes := codes[newCodes[i].id := Code(accountId, newCodes[i].salt, newCodes[i].hash, false)];
        assert newCodes[..i + 1][..i] == newCodes[..i];
        i := i + 1;
      }
      assert newCodes[..i] == newCodes;
    }

    method TotpEnrollConfirm(c: Checks, r: Current, factor: Id, code: string, token: string, newCodes: seq<NewCode>)
      returns (reply: Reply)
      requires Valid() && FreshCodes(View(), newCodes)
      modifies this
      ensures Valid()
      ensures View() == DoEnrollConfirm(c, old(View()), r, factor, code, token, newCodes)
      ensures reply == Confirmed <==> && factor in factors && factors[factor].verified
                                      && !(factor in old(factors) && old(factors)[factor].verified)
      ensures reply != Confirmed ==> sessions == old(sessions) && codes == old(codes)
    {
      if r.state == MfaVerified || factor !in factors || factors[factor].accountId != r.accountId
         || factors[factor].verified
      {
        return Refused;
      }
      var row := factors[factor];
      var step := Judge(c, row.seed, r.now, code, row.lastStep);
      if step.None? {
        factors := factors - {factor};
        history := history + [PendingJudged(factor)];
        return Refused;
      }
      if exists i :: i in sessions && sessions[i].token == token {
        return Unavailable;
      }
      Enroll(r, factor, step.value, token, newCodes);
      return Confirmed;
    }

    /** The code was right: new recovery codes, the factor verified, the session lifted. */
    method Enroll(r: Current, factor: Id, step: nat, token: string, newCodes: seq<NewCode>)
      requires Valid() && factor in factors && TokenFree(View(), token)
      modifies `codes, `factors, `used, `history, `sessions
      ensures Valid()
      ensures View() == DoEnroll(old(View()), r, factor, step, token, newCodes)
    {
      ReplaceRecoveryCodes(r.accountId, newCodes);
      factors := factors[factor := factors[factor].(lastStep := Some(step), verified := true)];
      used := used + CodeIds(newCodes);
      history := history + ConfirmEvents(r, factor, step, false);
      if r.sessionId in sessions {
        UpgradeSession(r, token);
      }
    }

    /** UPDATE of the request's session: a new token, verified, its idle timer set again. */
    method UpgradeSession(r: Current, token: string)
      requires Valid() && r.sessionId in sessions && TokenFree(View(), token)
      modifies `sessions, `history
      ensures Valid()
      ensures sessions == old(sessions)[r.sessionId := Upgrade(old(sessions[r.sessionId]), r, token)]
      ensures history == old(history) + [Active(r.sessionId, r.now)]
    {
      var idle := MinTime(r.now + SESSION_IDLE_TTL, r.absolute);
      sessions := sessions[r.sessionId := sessions[r.sessionId].(token := token, state := MfaVerified, idle := idle)];
      history := history + [Active(r.sessionId, r.now)];
    }

    method Logout(r: Current)
      requires Valid()
      modifies `sessions
      ensures Valid()
      ensures View() == old(View()).(sessions := old(sessions) - {r.sessionId})
    {
      sessions := sessions - {r.sessionId};
    }
  }
}
