/** The other direction: what the right proof, code or confirmation does give, through the token just issued and no
    older one, and that a wrong one costs something. */
module AuthAccess {
  import opened Results
  import opened Transcript
  import opened AuthModel
  import opened AuthChallenges
  import opened AuthIsolation
  import AuthTimers

  /** A live row's token reaches that row when no other row holds it. */
  lemma TokenReaches(s: Auth, id: Id, token: string)
    requires IsLive(s, id, token)
    requires forall i :: i in s.sessions && i != id ==> s.sessions[i].token != token
    ensures LiveSession(s, token) == Some(id)
  {
  }

  lemma LoadThenOpen(k: Checks, s: Auth, id: Id, token: string, now: nat)
    requires LiveSession(s, token) == Some(id) && s.sessions[id].state == MfaVerified
    requires now <= s.clock && now < s.sessions[id].idle && now < s.sessions[id].absolute
    ensures var r := Current(id, s.sessions[id].accountId, MfaVerified, s.sessions[id].absolute, now);
            var loaded := Next(k, s, LoadSession(token, now));
            Next(k, loaded, OpenVault(r)).history
            == s.history + [SessionReturned(id, now), VaultOpened(s.sessions[id].accountId, id, now)]
  {
    var r := Current(id, s.sessions[id].accountId, MfaVerified, s.sessions[id].absolute, now);
    var loaded := Next(k, s, LoadSession(token, now));
    assert r in loaded.requests;
    assert s.history + [SessionReturned(id, now)] + [VaultOpened(s.sessions[id].accountId, id, now)]
        == s.history + [SessionReturned(id, now), VaultOpened(s.sessions[id].accountId, id, now)];
  }

  /** What a request learns from a load. */
  function Loaded(s: Auth, id: Id, now: nat): Current
    requires id in s.sessions
  {
    Current(id, s.sessions[id].accountId, s.sessions[id].state, s.sessions[id].absolute, now)
  }

  /** A load hands out the live session behind its token exactly while both deadlines are ahead; otherwise it hands out
      nothing and the session is about to be revoked. */
  lemma LoadReturnsIff(k: Checks, s: Auth, id: Id, token: string, now: nat)
    requires LiveSession(s, token) == Some(id) && now <= s.clock
    ensures var t := Next(k, s, LoadSession(token, now));
            var timely := now < s.sessions[id].idle && now < s.sessions[id].absolute;
            && (timely ==> t == s.(requests := s.requests + {Loaded(s, id, now)},
                                   history := s.history + [SessionReturned(id, now)]))
            && (!timely ==> t == s.(revoking := s.revoking + {id}))
  {
  }

  /** Activity keeps a session alive: after a refresh a load is handed the session exactly within half an hour of the
      refreshing request and before the absolute deadline. */
  lemma ActivityKeepsAlive(k: Checks, s: Auth, r: Current, later: nat)
    requires r in s.requests && r.sessionId in s.sessions && !s.sessions[r.sessionId].revoked
    requires s.sessions[r.sessionId].absolute == r.absolute && later <= s.clock
    requires forall i :: i in s.sessions && i != r.sessionId ==> s.sessions[i].token != s.sessions[r.sessionId].token
    ensures var t := Next(k, s, Refresh(r));
            var loaded := Next(k, t, LoadSession(s.sessions[r.sessionId].token, later));
            if later < r.now + 1800 && later < r.absolute
            then loaded.history == t.history + [SessionReturned(r.sessionId, later)]
                 && Loaded(s, r.sessionId, later) in loaded.requests
            else loaded.history == t.history && loaded.requests == s.requests
  {
    var t, token := Next(k, s, Refresh(r)), s.sessions[r.sessionId].token;
    assert t.sessions[r.sessionId].token == token && !t.sessions[r.sessionId].revoked;
    TokenReaches(t, r.sessionId, token);
    LoadReturnsIff(k, t, r.sessionId, token, later);
  }

  lemma RequestKnowsDeadline(k: Checks, s: Auth, r: Current)
    requires Reachable(k, s) && r in s.requests && r.sessionId in s.sessions
    ensures s.sessions[r.sessionId].absolute == r.absolute && r.sessionId in s.used
  {
    var clock: nat, actions :| s == Run(k, Start(clock), actions);
    AuthTimers.RunKeeps(k, clock, actions, r.sessionId);
    assert AuthTimers.IssuedAt(s.history, r.sessionId, r.absolute - SESSION_ABSOLUTE_TTL);
  }

  /** Over runs: once a request has set a live session's idle timer, then whatever others do, as long as no further
      request under it changes it and no load comes at or after the new deadline, a load in time is handed it. */
  lemma ActiveSessionsStay(k: Checks, s: Auth, r: Current, others: seq<Action>, later: nat)
    requires Reachable(k, s) && r in s.requests && r.sessionId in s.sessions && r.sessionId !in s.revoking
    requires !s.sessions[r.sessionId].revoked && later < r.now + 1800 && later < r.absolute
    requires forall n :: 0 <= n < |others| ==> !SentUnder(others[n], r.sessionId)
    requires forall n :: 0 <= n < |others| && others[n].LoadSession? ==>
                           others[n].now < r.now + 1800 && others[n].now < r.absolute
    requires later <= Run(k, Next(k, s, Refresh(r)), others).clock
    ensures var t := Run(k, Next(k, s, Refresh(r)), others);
            Next(k, t, LoadSession(s.sessions[r.sessionId].token, later)).history
            == t.history + [SessionReturned(r.sessionId, later)]
  {
    RequestKnowsDeadline(k, s, r);
    ReachableTokens(k, s);
    NextKeepsTokens(k, s, Refresh(r));
    RefreshedRow(k, s, r);
    LoadsLater(k, Next(k, s, Refresh(r)), others, r.sessionId, later);
  }

  lemma RefreshedRow(k: Checks, s: Auth, r: Current)
    requires r in s.requests && r.sessionId in s.sessions
    ensures var t := Next(k, s, Refresh(r));
            && t == s.(sessions := t.sessions, history := t.history) && r.sessionId in t.sessions
            && t.sessions[r.sessionId] == s.sessions[r.sessionId].(idle := MinTime(r.now + 1800, r.absolute))
  {
  }

  /** A session that nobody disturbs is handed out until its deadlines. */
  lemma LoadsLater(k: Checks, s: Auth, others: seq<Action>, i: Id, later: nat)
    requires OneTokenEach(s) && i in s.used && i in s.sessions && i !in s.revoking && !s.sessions[i].revoked
    requires later < s.sessions[i].idle && later < s.sessions[i].absolute && later <= Run(k, s, others).clock
    requires forall n :: 0 <= n < |others| ==> !SentUnder(others[n], i)
    requires forall n :: 0 <= n < |others| && others[n].LoadSession? ==>
                           others[n].now < s.sessions[i].idle && others[n].now < s.sessions[i].absolute
    ensures var t := Run(k, s, others);
            Next(k, t, LoadSession(s.sessions[i].token, later)).history == t.history + [SessionReturned(i, later)]
  {
    SessionsAreTheirOwn(k, s, others, i);
    RunKeepsTokens(k, s, others);
    TokenReaches(Run(k, s, others), i, s.sessions[i].token);
    LoadReturnsIff(k, Run(k, s, others), i, s.sessions[i].token, later);
  }

  /** Confirming an enrolment with the right code opens the vault through the new token while the timers run, and the
      token the session had before no longer reaches any session. */
  lemma EnrolmentOpensVault(k: Checks, s: Auth, r: Current, factor: Id, code: string, token: string,
                            codes: seq<NewCode>, now: nat)
    requires r in s.requests && r.state != MfaVerified && r.sessionId in s.sessions
    requires !s.sessions[r.sessionId].revoked && s.sessions[r.sessionId].accountId == r.accountId
    requires s.sessions[r.sessionId].absolute == r.absolute
    requires forall i :: i in s.sessions && i != r.sessionId ==> s.sessions[i].token != s.sessions[r.sessionId].token
    requires factor in s.factors && s.factors[factor].accountId == r.accountId && !s.factors[factor].verified
    requires Judge(k, s.factors[factor].seed, r.now, code, s.factors[factor].lastStep).Some?
    requires FreshCodes(s, codes) && TokenFree(s, token)
    requires now <= s.clock && now < r.now + SESSION_IDLE_TTL && now < r.absolute
    ensures var confirmed := Next(k, s, EnrollConfirm(r, factor, code, token, codes));
            var r' := Current(r.sessionId, r.accountId, MfaVerified, r.absolute, now);
            && VaultOpened(r.accountId, r.sessionId, now)
               in Next(k, Next(k, confirmed, LoadSession(token, now)), OpenVault(r')).history
            && LiveSession(confirmed, s.sessions[r.sessionId].token) == None
  {
    var step := Judge(k, s.factors[factor].seed, r.now, code, s.factors[factor].lastStep).value;
    var t := DoEnroll(s, r, factor, step, token, codes);
    assert Next(k, s, EnrollConfirm(r, factor, code, token, codes)) == t;
    assert t.sessions[r.sessionId] == Upgrade(s.sessions[r.sessionId], r, token);
    TokenReaches(t, r.sessionId, token);
    LoadThenOpen(k, t, r.sessionId, token, now);
  }

  /** A request that may enrol starts: its account's only factor is now the new pending one, holding the very seed the
      user was given, and everybody else's are as they were. */
  lemma StartReplacesFactors(k: Checks, s: Auth, r: Current, factor: Id, seed: string)
    requires r in s.requests && r.state != MfaVerified && factor !in s.used
    ensures var t := Next(k, s, EnrollStart(r, factor, seed));
            && factor in t.factors && t.factors[factor] == Factor(r.accountId, seed, None, false)
            && (forall f :: f in t.factors && t.factors[f].accountId == r.accountId ==> f == factor)
            && (forall f :: f in s.factors && s.factors[f].accountId != r.accountId && f != factor ==>
                              f in t.factors && t.factors[f] == s.factors[f])
            && t == s.(factors := t.factors, used := s.used + {factor})
  {
  }

  /** From the start of an enrolment to the vault: a code right for the seed given at the start confirms it, and the new
      token then opens the vault. */
  lemma EnrolmentFromStart(k: Checks, s: Auth, start: Current, r: Current, factor: Id, seed: string, code: string,
                           token: string, codes: seq<NewCode>, now: nat)
    requires start in s.requests && start.state != MfaVerified && start.accountId == r.accountId && factor !in s.used
    requires r in s.requests && r.state != MfaVerified && r.sessionId in s.sessions
    requires !s.sessions[r.sessionId].revoked && s.sessions[r.sessionId].accountId == r.accountId
    requires s.sessions[r.sessionId].absolute == r.absolute
    requires forall i :: i in s.sessions && i != r.sessionId ==> s.sessions[i].token != s.sessions[r.sessionId].token
    requires Judge(k, seed, r.now, code, None).Some?
    requires FreshCodes(s.(used := s.used + {factor}), codes) && TokenFree(s, token)
    requires now <= s.clock && now < r.now + 1800 && now < r.absolute
    ensures var started := Next(k, s, EnrollStart(start, factor, seed));
            var confirmed := Next(k, started, EnrollConfirm(r, factor, code, token, codes));
            var r' := Current(r.sessionId, r.accountId, MfaVerified, r.absolute, now);
            && ActiveFactor(confirmed, r.accountId) == Some(factor)
            && confirmed.factors[factor] == Factor(r.accountId, seed, Judge(k, seed, r.now, code, None), true)
            && VaultOpened(r.accountId, r.sessionId, now)
               in Next(k, Next(k, confirmed, LoadSession(token, now)), OpenVault(r')).history
  {
    var started := Next(k, s, EnrollStart(start, factor, seed));
    StartReplacesFactors(k, s, start, factor, seed);
    assert FreshCodes(started, codes) && TokenFree(started, token);
    EnrolmentOpensVault(k, started, r, factor, code, token, codes, now);
    var confirmed := Next(k, started, EnrollConfirm(r, factor, code, token, codes));
    ConfirmActivates(k, started, r, factor, code, token, codes);
  }

  lemma ConfirmActivates(k: Checks, s: Auth, r: Current, factor: Id, code: string, token: string, codes: seq<NewCode>)
    requires r in s.requests && r.state != MfaVerified && FreshCodes(s, codes) && TokenFree(s, token)
    requires factor in s.factors && s.factors[factor].accountId == r.accountId && !s.factors[factor].verified
    requires Judge(k, s.factors[factor].seed, r.now, code, s.factors[factor].lastStep).Some?
    requires forall f :: f in s.factors && s.factors[f].accountId == r.accountId ==> f == factor
    ensures var t := Next(k, s, EnrollConfirm(r, factor, code, token, codes));
            var row := s.factors[factor];
            && t.factors == s.factors[factor := row.(lastStep := Judge(k, row.seed, r.now, code, row.lastStep),
                                                     verified := true)]
            && ActiveFactor(t, r.accountId) == Some(factor)
  {
    var step := Judge(k, s.factors[factor].seed, r.now, code, s.factors[factor].lastStep).value;
    var t := DoEnroll(s, r, factor, step, token, codes);
    assert Next(k, s, EnrollConfirm(r, factor, code, token, codes)) == t;
    assert IsActiveFactor(t, factor, r.accountId);
  }

  /** So does a login whose one-time code is right. */
  lemma LoginOpensVault(k: Checks, s: Auth, challenge: Id, f: Id, code: string, session: Id, token: string, now: nat,
                        later: nat)
    requires MayTry(s, challenge, now) && ActiveFactor(s, s.challenges[challenge].accountId.value) == Some(f)
    requires Judge(k, s.factors[f].seed, now, code, s.factors[f].lastStep).Some?
    requires session !in s.used && session !in s.sessions && TokenFree(s, token)
    requires now <= s.clock && later <= s.clock && later < now + SESSION_IDLE_TTL
    ensures var account := s.challenges[challenge].accountId.value;
            var verified := Next(k, s, TotpVerify(challenge, code, session, token, now));
            var r := Current(session, account, MfaVerified, now + SESSION_ABSOLUTE_TTL, later);
            VaultOpened(account, session, later)
            in Next(k, Next(k, verified, LoadSession(token, later)), OpenVault(r)).history
  {
    var account := s.challenges[challenge].accountId.value;
    var step := Judge(k, s.factors[f].seed, now, code, s.factors[f].lastStep).value;
    var t := DoAcceptCode(s, challenge, f, account, step, session, token, now);
    assert Next(k, s, TotpVerify(challenge, code, session, token, now)) == t;
    assert t.sessions[session] == NewSession(account, token, MfaVerified, now);
    TokenReaches(t, session, token);
    LoadThenOpen(k, t, session, token, later);
  }

  /** A code tried on a challenge that may be tried gives a session if and only if it is right; a wrong one is counted
      against the challenge, and at the fifth closes it. */
  lemma CodeAcceptedIff(k: Checks, s: Auth, challenge: Id, f: Id, code: string, session: Id, token: string, now: nat)
    requires MayTry(s, challenge, now) && ActiveFactor(s, s.challenges[challenge].accountId.value) == Some(f)
    requires session !in s.used && session !in s.sessions && TokenFree(s, token) && now <= s.clock
    ensures var t := Next(k, s, TotpVerify(challenge, code, session, token, now));
            && (session in t.sessions <==> Judge(k, s.factors[f].seed, now, code, s.factors[f].lastStep).Some?)
            && (session in t.sessions ==>
                  && t.sessions == s.sessions[session := NewSession(s.challenges[challenge].accountId.value, token,
                                                                    MfaVerified, now)]
                  && challenge in t.challenges && t.challenges[challenge].consumed)
            && (session !in t.sessions ==> t.sessions == s.sessions && Costs(s, t, challenge))
  {
  }

  /** The step's own conditions fail: the challenge may not be tried, there is no factor to try, the handle is taken,
      the session may not do this, or the factor is another's or already verified. */
  ghost predicate OutOfPlace(s: Auth, a: Action) {
    match a
    case RegisterFinish(c, _, _, _, _, now) =>
      !Available(s, c, RegisterChallenge, now)
      || exists x :: x in s.accounts && s.accounts[x].handle == s.challenges[c].handle
    case LoginFinish(c, _, _, _, _, _, _, now) => !Available(s, c, LoginChallenge, now)
    case TotpVerify(c, _, _, _, now) =>
      !MayTry(s, c, now) || forall f :: !IsActiveFactor(s, f, s.challenges[c].accountId.value)
    case RecoveryVerify(c, _, _, _, _, now) => !MayTry(s, c, now)
    case LoadSession(token, _) => forall i :: !IsLive(s, i, token)
    case EnrollStart(r, _, _) => r.state == MfaVerified
    case EnrollConfirm(r, f, _, _, _) =>
      r.state == MfaVerified || f !in s.factors || s.factors[f].accountId != r.accountId || s.factors[f].verified
    case OpenVault(r) => r.state != MfaVerified
    case _ => false
  }

  /** Such a step changes nothing at all: no row, no attempt, no history. */
  lemma OutOfPlaceChangesNothing(k: Checks, s: Auth, a: Action)
    requires OutOfPlace(s, a)
    ensures Next(k, s, a) == s
  {
    match a
    case RegisterFinish(_, _, _, _, _, _) =>
    case LoginFinish(_, _, _, _, _, _, _, _) =>
    case TotpVerify(_, _, _, _, _) =>
    case RecoveryVerify(_, _, _, _, _, _) =>
    case LoadSession(_, _) =>
    case EnrollStart(_, _, _) =>
    case EnrollConfirm(_, _, _, _, _) =>
    case OpenVault(_) =>
  }

  /** A counted try: nothing changed but the challenge, one attempt nearer its end. */
  predicate Costs(s: Auth, t: Auth, challenge: Id) {
    && challenge in s.challenges && challenge in t.challenges
    && t.challenges[challenge].attempts == s.challenges[challenge].attempts + 1
    && t.challenges[challenge].consumed == (s.challenges[challenge].consumed || t.challenges[challenge].attempts >= 5)
    && t == s.(challenges := t.challenges, history := s.history + [Judged(challenge)])
  }

  /** A recovery code likewise: right if and only if it hashes to an unused code of the account. */
  lemma RecoveryAcceptedIff(k: Checks, s: Auth, challenge: Id, code: Option<string>, pick: Option<Id>, session: Id,
                            token: string, now: nat)
    requires MayTry(s, challenge, now) && now <= s.clock
    requires MayMatch(k, s, s.challenges[challenge].accountId.value, code, pick)
    requires session !in s.used && session !in s.sessions && TokenFree(s, token)
    ensures var t, account := Next(k, s, RecoveryVerify(challenge, code, pick, session, token, now)),
                              s.challenges[challenge].accountId.value;
            && (session in t.sessions <==> code.Some? && exists id :: MatchesCode(k, s, id, account, code.value))
            && (session in t.sessions ==>
                  && t.sessions == s.sessions[session := NewSession(account, token, RecoverySession, now)]
                  && pick.Some? && pick.value in s.codes && !s.codes[pick.value].used
                  && t.codes == s.codes[pick.value := s.codes[pick.value].(used := true)]
                  && challenge in t.challenges && t.challenges[challenge].consumed)
            && (session !in t.sessions ==> Costs(s, t, challenge))
  {
    if pick.Some? {
      assert MatchesCode(k, s, pick.value, s.challenges[challenge].accountId.value, code.value);
    }
  }

  /** A right recovery code gives its account back: the token reaches a recovery session, which may start an enrolment
      and does not open the vault. */
  lemma RecoveryLeadsToEnrolment(k: Checks, s: Auth, challenge: Id, code: string, id: Id, pick: Option<Id>,
                                 session: Id, token: string, now: nat, later: nat, factor: Id, seed: string)
    requires MayTry(s, challenge, now) && now <= s.clock
    requires MatchesCode(k, s, id, s.challenges[challenge].accountId.value, code)
    requires MayMatch(k, s, s.challenges[challenge].accountId.value, Some(code), pick)
    requires session !in s.used && session !in s.sessions && TokenFree(s, token)
    requires later <= s.clock && later < now + 1800 && factor !in s.used && factor != session
    ensures var account := s.challenges[challenge].accountId.value;
            var t := Next(k, s, RecoveryVerify(challenge, Some(code), pick, session, token, now));
            var r := Current(session, account, RecoverySession, now + 43200, later);
            var loaded := Next(k, t, LoadSession(token, later));
            && LiveSession(t, token) == Some(session) && r in loaded.requests
            && Next(k, loaded, OpenVault(r)) == loaded
            && factor in Next(k, loaded, EnrollStart(r, factor, seed)).factors
  {
    var account := s.challenges[challenge].accountId.value;
    var t := Next(k, s, RecoveryVerify(challenge, Some(code), pick, session, token, now));
    RecoveryAcceptedIff(k, s, challenge, Some(code), pick, session, token, now);
    assert t.sessions[session] == NewSession(account, token, RecoverySession, now);
    assert t.used == s.used + {session} && t.clock == s.clock;
    RecoverySessionEnrols(k, t, account, session, token, now, later, factor, seed);
  }

  lemma RecoverySessionEnrols(k: Checks, t: Auth, account: Id, session: Id, token: string, now: nat, later: nat,
                              factor: Id, seed: string)
    requires session in t.sessions && t.sessions[session] == NewSession(account, token, RecoverySession, now)
    requires forall i :: i in t.sessions && i != session ==> t.sessions[i].token != token
    requires later <= t.clock && later < now + 1800 && factor !in t.used
    ensures var r := Current(session, account, RecoverySession, now + 43200, later);
            var loaded := Next(k, t, LoadSession(token, later));
            && LiveSession(t, token) == Some(session) && r in loaded.requests
            && Next(k, loaded, OpenVault(r)) == loaded
            && factor in Next(k, loaded, EnrollStart(r, factor, seed)).factors
  {
    TokenReaches(t, session, token);
    LoadReturnsIff(k, t, session, token, later);
    var r := Current(session, account, RecoverySession, now + 43200, later);
    StartReplacesFactors(k, Next(k, t, LoadSession(token, later)), r, factor, seed);
  }

  /** A finished login is accepted exactly when the challenge is still open, both nonces are the ones it was issued
      with, and the stored key of its account verifies the transcript of that very challenge. */
  lemma LoginAcceptedIff(k: Checks, s: Auth, challenge: Id, clientNonce: string, serverNonce: string,
                         clientFinal: string, proof: string, newId: Id, token: string, now: nat)
    requires newId !in s.used && TokenFree(s, token) && now <= s.clock
    ensures var t := Next(k, s, LoginFinish(challenge, clientNonce, serverNonce, clientFinal, proof, newId, token,
                                            now));
            |t.history| > |s.history| <==>
            && Available(s, challenge, LoginChallenge, now)
            && s.challenges[challenge].clientNonce == clientNonce && s.challenges[challenge].serverNonce == serverNonce
            && ProofGood(k, s, challenge, clientFinal, proof)
  {
  }

  // ----- from the start of a registration or login to its end, anything else going on in between -----

  predicate LeavesAlone(actions: seq<Action>, c: Id) {
    forall n :: 0 <= n < |actions| ==> !ActsOn(actions[n], c)
  }

  lemma WaitingChallenge(k: Checks, s: Auth, start: Action, id: Id, actions: seq<Action>, ch: Challenge)
    requires id !in s.used && Next(k, s, start).used == s.used + {id} && LeavesAlone(actions, id)
    requires id in Next(k, s, start).challenges && Next(k, s, start).challenges[id] == ch
    requires Run(k, Next(k, s, start), actions).clock <= ch.expiresAt
    ensures var t := Run(k, Next(k, s, start), actions); id in t.used && id in t.challenges && t.challenges[id] == ch
  {
    ChallengesWait(k, Next(k, s, start), actions, id);
    RunWears(k, Next(k, s, start), actions, id);
  }

  /** Within ten minutes of its start a registration of a free handle succeeds: the account has the handle and the key,
      the token reaches its first session, and the challenge is spent. */
  lemma RegistrationSucceeds(k: Checks, s: Auth, id: Id, handle: string, asked: nat, actions: seq<Action>,
                             finish: Action)
    requires Reachable(k, s) && id !in s.used && asked <= s.clock && LeavesAlone(actions, id)
    requires finish.RegisterFinish? && finish.challenge == id
    requires var t := Run(k, Next(k, s, RegisterStart(id, handle, asked)), actions);
             && t.clock <= asked + 600 && finish.now <= t.clock
             && (forall a :: a in t.accounts ==> t.accounts[a].handle != handle)
             && finish.account !in t.used && finish.session !in t.used && finish.account != finish.session
             && TokenFree(t, finish.token)
    ensures var t := Run(k, Next(k, s, RegisterStart(id, handle, asked)), actions);
            var u := Next(k, t, finish);
            && u.accounts == t.accounts[finish.account := Account(handle, finish.storedKey)]
            && finish.session in u.sessions && LiveSession(u, finish.token) == Some(finish.session)
            && u.sessions[finish.session]
               == Session(finish.account, finish.token, EnrollmentRequired, finish.now + 1800, finish.now + 43200,
                          false)
            && Closed(u, id)
  {
    var start := RegisterStart(id, handle, asked);
    WaitingChallenge(k, s, start, id, actions,
                     Challenge(RegisterChallenge, None, handle, "", "", 0, asked + 600, false));
    var t := Run(k, Next(k, s, start), actions);
    var u := DoRegister(t, id, handle, finish.account, finish.session, finish.token, finish.storedKey, finish.now);
    assert Next(k, t, finish) == u;
    TokenReaches(u, finish.session, finish.token);
  }

  lemma HandleFinds(s: Auth, account: Id)
    requires AccountsKnown(s) && account in s.accounts
    ensures AccountOf(s, s.accounts[account].handle) == Some(account)
  {
  }

  /** Within five minutes of its start a login proved with the account's key succeeds: with a verified factor it earns a
      challenge on which that factor's codes may be tried for five minutes, without one a session to enrol with. */
  lemma PasswordLogsIn(k: Checks, s: Auth, account: Id, start: Action, actions: seq<Action>, finish: Action)
    requires Reachable(k, s) && account in s.accounts && start.LoginStart? && start.handle == s.accounts[account].handle
    requires start.id !in s.used && start.now <= s.clock && LeavesAlone(actions, start.id)
    requires finish.LoginFinish? && finish.challenge == start.id
    requires finish.clientNonce == start.clientNonce && finish.serverNonce == start.serverNonce
    requires k.verifyProof(s.accounts[account].storedKey,
                           LoginAuthMessage(start.id, "derived-auth-v1", start.handle, start.clientNonce,
                                            start.serverNonce, finish.clientFinal), finish.proof)
    requires var t := Run(k, Next(k, s, start), actions);
             && t.clock <= start.now + 300 && finish.now <= t.clock
             && finish.newId !in t.used && TokenFree(t, finish.token)
    ensures var t := Run(k, Next(k, s, start), actions);
            var u, f := Next(k, t, finish), ActiveFactor(t, account);
            && Closed(u, start.id) && u.factors == t.factors
            && if f.Some?
               then && MayTry(u, finish.newId, finish.now) && u.sessions == t.sessions
                    && u.challenges[finish.newId].accountId == Some(account)
                    && u.challenges[finish.newId].expiresAt == finish.now + 300
               else && finish.newId in u.sessions && LiveSession(u, finish.token) == Some(finish.newId)
                    && u.sessions[finish.newId]
                       == Session(account, finish.token, EnrollmentRequired, finish.now + 1800, finish.now + 43200,
                                  false)
  {
    ReachableAccounts(k, s);
    HandleFinds(s, account);
    var ch := Challenge(LoginChallenge, Some(account), start.handle, start.clientNonce, start.serverNonce, 0,
                        start.now + 300, false);
    WaitingChallenge(k, s, start, start.id, actions, ch);
    var t := Run(k, Next(k, s, start), actions);
    NextKeepsAccounts(k, s, start);
    RunKeepsAccounts(k, Next(k, s, start), actions);
    var u := DoAdmitProof(t, start.id, ch, finish.newId, finish.token, finish.now);
    assert Next(k, t, finish) == u;
    if ActiveFactor(t, account).None? {
      TokenReaches(u, finish.newId, finish.token);
    }
  }

  /** A finish that comes later than that is refused, whatever it carries. */
  lemma LateFinishesAreRefused(k: Checks, s: Auth, start: Action, actions: seq<Action>, finish: Action)
    requires start.LoginStart? || start.RegisterStart?
    requires start.id !in s.used && start.now <= s.clock && ActsOn(finish, start.id)
    requires finish.now > start.now + (if start.LoginStart? then 300 else 600)
    ensures var t := Run(k, Next(k, s, start), actions); Next(k, t, finish) == t
  {
    ExpiredIsFinal(k, Next(k, s, start), actions, start.id, finish);
  }
}
