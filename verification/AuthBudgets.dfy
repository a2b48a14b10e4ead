/** A pre-MFA challenge pays for at most five judged codes and one session, whichever second factor is tried; a
    login challenge for at most one accepted proof. */
module AuthBudgets {
  import opened Results
  import opened AuthModel
  import opened AuthHistory

  function JudgedOn(c: Id): Event -> bool {
    (e: Event) => e == Judged(c)
  }

  /** Events that turned the challenge into a session. */
  function SpentOn(c: Id): Event -> bool {
    (e: Event) => || (e.RecoveryUsed? && e.challenge == c)
                  || (e.TotpAccepted? && e.means.AtLogin? && e.means.challenge == c)
  }

  function ProvedOn(c: Id): Event -> bool {
    (e: Event) => e.ProofAccepted? && e.login == c
  }

  function Judgements(s: Auth, c: Id): nat { Count(s.history, JudgedOn(c)) }

  function Sessions(s: Auth, c: Id): nat { Count(s.history, SpentOn(c)) }

  function Proofs(s: Auth, c: Id): nat { Count(s.history, ProvedOn(c)) }

  predicate Open(s: Auth, c: Id, kind: ChallengeKind) {
    c in s.challenges && s.challenges[c].kind == kind && !s.challenges[c].consumed
  }

  predicate Budget(s: Auth, c: Id) {
    && Judgements(s, c) <= MFA_CHALLENGE_MAX_ATTEMPTS && Sessions(s, c) <= 1 && Proofs(s, c) <= 1
    && (c !in s.used ==> c !in s.challenges && Judgements(s, c) == Sessions(s, c) == Proofs(s, c) == 0)
    && (Open(s, c, PreMfaChallenge) ==>
          Sessions(s, c) == 0 && Judgements(s, c) == s.challenges[c].attempts < MFA_CHALLENGE_MAX_ATTEMPTS)
    && (Open(s, c, LoginChallenge) ==> Proofs(s, c) == 0)
  }

  /** Nothing about the challenge has happened, though it may be gone. */
  predicate Untouched(s: Auth, t: Auth, c: Id) {
    && s.used <= t.used
    && Judgements(t, c) == Judgements(s, c) && Sessions(t, c) == Sessions(s, c) && Proofs(t, c) == Proofs(s, c)
    && (c in t.challenges ==> c in s.challenges && t.challenges[c] == s.challenges[c])
  }

  lemma UntouchedKeeps(s: Auth, t: Auth, c: Id)
    requires Budget(s, c) && Untouched(s, t, c)
    ensures Budget(t, c)
  {
  }

  predicate Silent(e: Event, c: Id) {
    !JudgedOn(c)(e) && !SpentOn(c)(e) && !ProvedOn(c)(e)
  }

  lemma NothingCounted(s: Auth, t: Auth, es: seq<Event>, c: Id)
    requires t.history == s.history + es
    requires forall i :: 0 <= i < |es| ==> Silent(es[i], c)
    ensures Judgements(t, c) == Judgements(s, c) && Sessions(t, c) == Sessions(s, c) && Proofs(t, c) == Proofs(s, c)
  {
    CountMiss(s.history, es, JudgedOn(c));
    CountMiss(s.history, es, SpentOn(c));
    CountMiss(s.history, es, ProvedOn(c));
  }

  /** A new row under a fresh identifier. */
  lemma FreshRow(s: Auth, t: Auth, c: Id)
    requires Budget(s, c) && c !in s.used
    requires Judgements(t, c) == Sessions(t, c) == Proofs(t, c) == 0
    requires c in t.used && c in t.challenges && t.challenges[c].attempts == 0
    ensures Budget(t, c)
  {
  }

  lemma RegisterStartKeeps(s: Auth, id: Id, handle: string, now: nat, c: Id)
    requires Budget(s, c)
    ensures Budget(DoRegisterStart(s, id, handle, now), c)
  {
    var t := DoRegisterStart(s, id, handle, now);
    if c == id && t != s {
      FreshRow(s, t, c);
    } else {
      UntouchedKeeps(s, t, c);
    }
  }

  lemma LoginStartKeeps(s: Auth, id: Id, handle: string, cn: string, sn: string, now: nat, c: Id)
    requires Budget(s, c)
    ensures Budget(DoLoginStart(s, id, handle, cn, sn, now), c)
  {
    var t := DoLoginStart(s, id, handle, cn, sn, now);
    if c == id && id !in s.used {
      FreshRow(s, t, c);
    } else {
      UntouchedKeeps(s, t, c);
    }
  }

  lemma RegisterFinishKeeps(s: Auth, challenge: Id, account: Id, session: Id, token: string, key: string, now: nat,
                            c: Id)
    requires Budget(s, c)
    ensures Budget(DoRegisterFinish(s, challenge, account, session, token, key, now), c)
  {
    var t := DoRegisterFinish(s, challenge, account, session, token, key, now);
    if t != s {
      NothingCounted(s, t, [Registered(account, session), SessionIssued(session, now)], c);
    }
  }

  /** The login challenge is consumed and the proof counted; a fresh identifier may name a pre-MFA challenge. */
  lemma ProofKeeps(s: Auth, t: Auth, challenge: Id, newId: Id, es: seq<Event>, c: Id)
    requires Budget(s, c) && Open(s, challenge, LoginChallenge) && newId !in s.used && t.used == s.used + {newId}
    requires t.history == s.history + es && 1 <= |es| <= 2
    requires es[0].ProofAccepted? && es[0].login == challenge
    requires |es| == 2 ==> es[1].SessionIssued?
    requires c == challenge ==> challenge in t.challenges && t.challenges[challenge] == Consume(s.challenges[challenge])
    requires c != challenge && c != newId ==> (c in t.challenges <==> c in s.challenges)
                                              && (c in t.challenges ==> t.challenges[c] == s.challenges[c])
    requires c == newId && newId in t.challenges ==>
               t.challenges[newId].attempts == 0 && t.challenges[newId].kind == PreMfaChallenge
    ensures Budget(t, c)
  {
    forall i | 0 <= i < |es|
      ensures !JudgedOn(c)(es[i]) && !SpentOn(c)(es[i]) && (ProvedOn(c)(es[i]) <==> i == 0 && c == challenge)
    {
      assert es[i].ProofAccepted? || es[i].SessionIssued?;
    }
    if c == challenge {
      CountMiss(s.history, es, JudgedOn(c));
      CountMiss(s.history, es, SpentOn(c));
      CountHit(s.history, es, 0, ProvedOn(c));
    } else {
      NothingCounted(s, t, es, c);
    }
  }

  lemma LoginRefusedKeeps(s: Auth, challenge: Id, c: Id)
    requires Budget(s, c) && challenge in s.challenges
    ensures Budget(s.(challenges := s.challenges[challenge := Consume(s.challenges[challenge])]), c)
  {
  }

  lemma AdmitProofKeeps(s: Auth, challenge: Id, ch: Challenge, newId: Id, token: string, now: nat, c: Id)
    requires Budget(s, c) && Open(s, challenge, LoginChallenge) && ch == s.challenges[challenge] && ch.accountId.Some?
    requires newId !in s.used
    ensures Budget(DoAdmitProof(s, challenge, ch, newId, token, now), c)
  {
    var t, account := DoAdmitProof(s, challenge, ch, newId, token, now), ch.accountId.value;
    if ActiveFactor(s, account).Some? {
      ProofKeeps(s, t, challenge, newId, [ProofAccepted(challenge, account, Challenged(newId))], c);
    } else if t != s {
      ProofKeeps(s, t, challenge, newId,
                 [ProofAccepted(challenge, account, Seated(newId)), SessionIssued(newId, now)], c);
    }
  }

  lemma LoginFinishKeeps(k: Checks, s: Auth, challenge: Id, cn: string, sn: string, final: string, proof: string,
                         newId: Id, token: string, now: nat, c: Id)
    requires Budget(s, c)
    ensures Budget(DoLoginFinish(k, s, challenge, cn, sn, final, proof, newId, token, now), c)
  {
    if Available(s, challenge, LoginChallenge, now) {
      LoginRefusedKeeps(s, challenge, c);
      if ProofGood(k, s, challenge, final, proof) && newId !in s.used {
        AdmitProofKeeps(s, challenge, s.challenges[challenge], newId, token, now, c);
      }
    }
  }

  lemma WrongCodeKeeps(s: Auth, challenge: Id, now: nat, c: Id)
    requires Budget(s, c) && MayTry(s, challenge, now)
    ensures Budget(WrongCode(s, challenge), c)
  {
    var t, es := WrongCode(s, challenge), [Judged(challenge)];
    if c == challenge {
      CountHit(s.history, es, 0, JudgedOn(c));
      CountMiss(s.history, es, SpentOn(c));
      CountMiss(s.history, es, ProvedOn(c));
    } else {
      NothingCounted(s, t, es, c);
    }
  }

  /** A code was accepted: the challenge is consumed, judged once more and spent. */
  lemma SpendingKeeps(s: Auth, t: Auth, challenge: Id, spent: Event, issued: Event, now: nat, c: Id)
    requires Budget(s, c) && MayTry(s, challenge, now)
    requires t.history == s.history + [Judged(challenge), spent, issued]
    requires SpentOn(challenge)(spent) && issued.SessionIssued?
    requires t.challenges == s.challenges[challenge := Consume(s.challenges[challenge])] && s.used <= t.used
    ensures Budget(t, c)
  {
    var es := [Judged(challenge), spent, issued];
    if c == challenge {
      CountHit(s.history, es, 0, JudgedOn(c));
      CountHit(s.history, es, 1, SpentOn(c));
      CountMiss(s.history, es, ProvedOn(c));
    } else {
      NothingCounted(s, t, es, c);
    }
  }

  lemma TotpVerifyKeeps(k: Checks, s: Auth, challenge: Id, code: string, session: Id, token: string, now: nat, c: Id)
    requires Budget(s, c)
    ensures Budget(DoTotpVerify(k, s, challenge, code, session, token, now), c)
  {
    var t := DoTotpVerify(k, s, challenge, code, session, token, now);
    if t != s {
      var account := s.challenges[challenge].accountId.value;
      var f := ActiveFactor(s, account).value;
      match Judge(k, s.factors[f].seed, now, code, s.factors[f].lastStep)
      case None => WrongCodeKeeps(s, challenge, now, c);
      case Some(step) =>
        SpendingKeeps(s, t, challenge, TotpAccepted(f, account, step, now, AtLogin(challenge, session)),
                      SessionIssued(session, now), now, c);
    }
  }

  lemma RecoveryVerifyKeeps(s: Auth, challenge: Id, pick: Option<Id>, session: Id, token: string, now: nat, c: Id)
    requires Budget(s, c) && MayTry(s, challenge, now)
    ensures Budget(DoRecoveryVerify(s, challenge, pick, session, token, now), c)
  {
    var t := DoRecoveryVerify(s, challenge, pick, session, token, now);
    if pick.None? {
      WrongCodeKeeps(s, challenge, now, c);
    } else if t != s {
      SpendingKeeps(s, t, challenge, RecoveryUsed(challenge, s.challenges[challenge].accountId.value, session),
                    SessionIssued(session, now), now, c);
    }
  }

  lemma EnrollKeeps(s: Auth, r: Current, factor: Id, step: nat, token: string, codes: seq<NewCode>, c: Id)
    requires Budget(s, c) && factor in s.factors
    ensures Budget(DoEnroll(s, r, factor, step, token, codes), c)
  {
    var t := DoEnroll(s, r, factor, step, token, codes);
    UntouchedByEvents(s, t, ConfirmEvents(r, factor, step, r.sessionId in s.sessions), c);
  }

  lemma UntouchedByEvents(s: Auth, t: Auth, es: seq<Event>, c: Id)
    requires Budget(s, c) && t.history == s.history + es && s.used <= t.used && t.challenges == s.challenges
    requires forall i :: 0 <= i < |es| ==> Silent(es[i], c)
    ensures Budget(t, c)
  {
    NothingCounted(s, t, es, c);
  }

  lemma EnrollConfirmKeeps(k: Checks, s: Auth, r: Current, factor: Id, code: string, token: string,
                           codes: seq<NewCode>, c: Id)
    requires Budget(s, c)
    ensures Budget(DoEnrollConfirm(k, s, r, factor, code, token, codes), c)
  {
    var t := DoEnrollConfirm(k, s, r, factor, code, token, codes);
    if t != s {
      match Judge(k, s.factors[factor].seed, r.now, code, s.factors[factor].lastStep)
      case None => UntouchedByEvents(s, t, [PendingJudged(factor)], c);
      case Some(step) => EnrollKeeps(s, r, factor, step, token, codes, c);
    }
  }

  lemma LoadKeeps(s: Auth, id: Id, now: nat, c: Id)
    requires Budget(s, c) && id in s.sessions
    ensures Budget(DoLoadRow(s, id, now), c)
  {
    var t := DoLoadRow(s, id, now);
    if t.history != s.history {
      UntouchedByEvents(s, t, [SessionReturned(id, now)], c);
    }
  }

  lemma RefreshKeeps(s: Auth, r: Current, c: Id)
    requires Budget(s, c)
    ensures Budget(DoRefresh(s, r), c)
  {
    if r.sessionId in s.sessions {
      UntouchedByEvents(s, DoRefresh(s, r), [Active(r.sessionId, r.now)], c);
    }
  }

  lemma OpenVaultKeeps(s: Auth, r: Current, c: Id)
    requires Budget(s, c)
    ensures Budget(DoOpenVault(s, r), c)
  {
    if r.state == MfaVerified {
      UntouchedByEvents(s, DoOpenVault(s, r), [VaultOpened(r.accountId, r.sessionId, r.now)], c);
    }
  }

  lemma ElsewhereKeeps(k: Checks, s: Auth, a: Action, c: Id)
    requires Budget(s, c) && Elsewhere(a)
    ensures Budget(Next(k, s, a), c)
  {
    ElsewhereFrame(k, s, a);
    UntouchedKeeps(s, Next(k, s, a), c);
  }

  lemma NextKeeps(k: Checks, s: Auth, a: Action, c: Id)
    requires Budget(s, c)
    ensures Budget(Next(k, s, a), c)
  {
    if Elsewhere(a) {
      ElsewhereKeeps(k, s, a, c);
    } else {
      match a
      case RegisterStart(id, handle, now) => RegisterStartKeeps(s, id, handle, now, c);
      case RegisterFinish(ch, account, session, token, key, now) =>
        RegisterFinishKeeps(s, ch, account, session, token, key, now, c);
      case LoginStart(id, handle, cn, sn, now) => LoginStartKeeps(s, id, handle, cn, sn, now, c);
      case LoginFinish(ch, cn, sn, final, proof, newId, token, now) =>
        LoginFinishKeeps(k, s, ch, cn, sn, final, proof, newId, token, now, c);
      case TotpVerify(ch, code, session, token, now) => TotpVerifyKeeps(k, s, ch, code, session, token, now, c);
      case RecoveryVerify(ch, code, pick, session, token, now) =>
        if MayTry(s, ch, now) {
          RecoveryVerifyKeeps(s, ch, pick, session, token, now, c);
        }
      case LoadSession(token, now) =>
        if LiveSession(s, token).Some? {
          LoadKeeps(s, LiveSession(s, token).value, now, c);
        }
      case Refresh(r) => RefreshKeeps(s, r, c);
      case EnrollConfirm(r, factor, code, token, codes) => EnrollConfirmKeeps(k, s, r, factor, code, token, codes, c);
      case OpenVault(r) => OpenVaultKeeps(s, r, c);
    }
  }

  lemma {:induction false} RunKeeps(k: Checks, clock: nat, actions: seq<Action>, c: Id)
    ensures Budget(Run(k, Start(clock), actions), c)
    decreases |actions|
  {
    if actions != [] {
      var n := |actions| - 1;
      RunKeeps(k, clock, actions[..n], c);
      NextKeeps(k, Run(k, Start(clock), actions[..n]), actions[n], c);
    }
  }

  /** Over a whole run, a challenge pays for at most five judged codes, one session and one accepted proof. */
  lemma ChallengeBudgets(k: Checks, s: Auth, c: Id)
    requires Reachable(k, s)
    ensures Count(s.history, JudgedOn(c)) <= 5
    ensures Count(s.history, SpentOn(c)) <= 1
    ensures Count(s.history, ProvedOn(c)) <= 1
  {
    var clock: nat, actions :| s == Run(k, Start(clock), actions);
    RunKeeps(k, clock, actions, c);
  }

  /** The handlers' attempts_exhausted branches cannot be reached: a challenge that is still available has attempts
      left, and its counter is the number of codes judged on it so far. */
  lemma AttemptsNeverExhausted(k: Checks, s: Auth, c: Id, now: nat)
    requires Reachable(k, s) && Available(s, c, PreMfaChallenge, now)
    ensures s.challenges[c].attempts == Count(s.history, JudgedOn(c)) < MFA_CHALLENGE_MAX_ATTEMPTS
  {
    var clock: nat, actions :| s == Run(k, Start(clock), actions);
    RunKeeps(k, clock, actions, c);
  }
}
