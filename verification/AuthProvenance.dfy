/** Where access to a vault comes from: every event of a run is justified by events before it. */
module AuthProvenance {
  import opened Results
  import opened AuthModel

  /** A login proof of the account was answered with this pre-MFA challenge. */
  ghost predicate ChallengedFor(h: seq<Event>, a: Id, c: Id) {
    exists login: Id :: ProofAccepted(login, a, Challenged(c)) in h
  }

  /** The session was given to the account without its second factor. */
  ghost predicate Rooted(h: seq<Event>, a: Id, i: Id) {
    || Registered(a, i) in h
    || (exists login: Id :: ProofAccepted(login, a, Seated(i)) in h)
    || (exists c: Id :: RecoveryUsed(c, a, i) in h)
  }

  predicate CodeFor(e: Event, a: Id, i: Id) {
    && e.TotpAccepted? && e.account == a
    && (match e.means case AtLogin(_, session) => session == i case AtEnrollment(session) => session == i)
  }

  /** A one-time code of the account was accepted for this session. */
  predicate CodeAccepted(h: seq<Event>, a: Id, i: Id) {
    exists n :: 0 <= n < |h| && CodeFor(h[n], a, i)
  }

  /** What a session's state stands for. */
  ghost predicate Earned(h: seq<Event>, a: Id, i: Id, state: SessionState) {
    if state == MfaVerified then CodeAccepted(h, a, i) else Rooted(h, a, i)
  }

  ghost predicate Justified(past: seq<Event>, e: Event) {
    match e
    case TotpAccepted(_, a, _, _, AtLogin(c, _)) => ChallengedFor(past, a, c)
    case TotpAccepted(_, a, _, _, AtEnrollment(i)) => Rooted(past, a, i)
    case RecoveryUsed(c, a, _) => ChallengedFor(past, a, c)
    case VaultOpened(a, i, now) => CodeAccepted(past, a, i) && SessionReturned(i, now) in past
    case _ => true
  }

  ghost predicate AllJustified(h: seq<Event>) {
    forall n :: 0 <= n < |h| ==> Justified(h[..n], h[n])
  }

  ghost predicate RequestEarned(s: Auth, r: Current) {
    && r.sessionId in s.used
    && Earned(s.history, r.accountId, r.sessionId, r.state)
    && SessionReturned(r.sessionId, r.now) in s.history
    && (r.sessionId in s.sessions ==> s.sessions[r.sessionId].accountId == r.accountId)
  }

  ghost predicate SessionEarned(s: Auth, i: Id) {
    i in s.sessions ==> i in s.used && Earned(s.history, s.sessions[i].accountId, i, s.sessions[i].state)
  }

  ghost predicate ChallengeEarned(s: Auth, c: Id) {
    c in s.challenges && s.challenges[c].kind == PreMfaChallenge && s.challenges[c].accountId.Some? ==>
      ChallengedFor(s.history, s.challenges[c].accountId.value, c)
  }

  ghost predicate Provenance(s: Auth) {
    && (forall i :: i in s.sessions ==> SessionEarned(s, i))
    && (forall r :: r in s.requests ==> RequestEarned(s, r))
    && (forall c :: c in s.challenges ==> ChallengeEarned(s, c))
    && AllJustified(s.history)
  }

  // ----- a longer history -----

  lemma EarnedStays(h: seq<Event>, es: seq<Event>, a: Id, i: Id, state: SessionState)
    requires Earned(h, a, i, state)
    ensures Earned(h + es, a, i, state)
  {
    if state == MfaVerified {
      var n :| 0 <= n < |h| && CodeFor(h[n], a, i);
      assert (h + es)[n] == h[n];
    } else {
      RootedStays(h, es, a, i);
    }
  }

  lemma RootedStays(h: seq<Event>, es: seq<Event>, a: Id, i: Id)
    requires Rooted(h, a, i)
    ensures Rooted(h + es, a, i)
  {
    if Registered(a, i) in h {
    } else if login: Id :| ProofAccepted(login, a, Seated(i)) in h {
      assert ProofAccepted(login, a, Seated(i)) in h + es;
    } else {
      var c: Id :| RecoveryUsed(c, a, i) in h;
      assert RecoveryUsed(c, a, i) in h + es;
    }
  }

  lemma ChallengedStays(h: seq<Event>, es: seq<Event>, a: Id, c: Id)
    requires ChallengedFor(h, a, c)
    ensures ChallengedFor(h + es, a, c)
  {
    var login: Id :| ProofAccepted(login, a, Challenged(c)) in h;
    assert ProofAccepted(login, a, Challenged(c)) in h + es;
  }

  lemma JustifiedStays(past: seq<Event>, more: seq<Event>, e: Event)
    requires Justified(past, e)
    ensures Justified(past + more, e)
  {
    match e
    case TotpAccepted(_, a, _, _, AtLogin(c, _)) => ChallengedStays(past, more, a, c);
    case TotpAccepted(_, a, _, _, AtEnrollment(i)) => RootedStays(past, more, a, i);
    case RecoveryUsed(c, a, _) => ChallengedStays(past, more, a, c);
    case VaultOpened(a, i, _) => EarnedStays(past, more, a, i, MfaVerified);
    case _ =>
  }

  lemma JustifiedSnoc(h: seq<Event>, e: Event)
    requires AllJustified(h) && Justified(h, e)
    ensures AllJustified(h + [e])
  {
    forall n | 0 <= n < |h + [e]| ensures Justified((h + [e])[..n], (h + [e])[n]) {
      assert (h + [e])[..n] == h[..n];
      if n == |h| {
        assert h[..n] == h;
      }
    }
  }

  /** The new events are each justified by the history before the step. */
  lemma {:induction false} JustifiedAppend(h: seq<Event>, es: seq<Event>)
    requires AllJustified(h)
    requires forall k :: 0 <= k < |es| ==> Justified(h, es[k])
    ensures AllJustified(h + es)
  {
    if es == [] {
      assert h + es == h;
    } else {
      var n := |es| - 1;
      JustifiedAppend(h, es[..n]);
      JustifiedStays(h, es[..n], es[n]);
      JustifiedSnoc(h + es[..n], es[n]);
      assert (h + es[..n]) + [es[n]] == h + es;
    }
  }

  lemma SessionStays(s: Auth, t: Auth, es: seq<Event>, i: Id)
    requires i in s.sessions && SessionEarned(s, i) && s.used <= t.used && t.history == s.history + es
    requires i in t.sessions ==> t.sessions[i].accountId == s.sessions[i].accountId
                                 && t.sessions[i].state == s.sessions[i].state
    ensures SessionEarned(t, i)
  {
    EarnedStays(s.history, es, s.sessions[i].accountId, i, s.sessions[i].state);
  }

  lemma RequestStays(s: Auth, t: Auth, es: seq<Event>, r: Current)
    requires RequestEarned(s, r) && s.used <= t.used && t.history == s.history + es
    requires r.sessionId in t.sessions ==>
               r.sessionId in s.sessions && t.sessions[r.sessionId].accountId == s.sessions[r.sessionId].accountId
    ensures RequestEarned(t, r)
  {
    EarnedStays(s.history, es, r.accountId, r.sessionId, r.state);
  }

  lemma ChallengeStays(s: Auth, t: Auth, es: seq<Event>, c: Id)
    requires ChallengeEarned(s, c) && c in s.challenges && t.history == s.history + es
    requires c in t.challenges ==> t.challenges[c].kind == s.challenges[c].kind
                                   && t.challenges[c].accountId == s.challenges[c].accountId
    ensures ChallengeEarned(t, c)
  {
    if s.challenges[c].kind == PreMfaChallenge && s.challenges[c].accountId.Some? {
      ChallengedStays(s.history, es, s.challenges[c].accountId.value, c);
    }
  }

  predicate HeldAsBefore(s: Auth, t: Auth, i: Id) {
    i in t.sessions ==> i in s.sessions && t.sessions[i].accountId == s.sessions[i].accountId
                        && t.sessions[i].state == s.sessions[i].state
  }

  predicate AskedAsBefore(s: Auth, t: Auth, c: Id) {
    c in t.challenges ==> c in s.challenges && t.challenges[c].kind == s.challenges[c].kind
                          && t.challenges[c].accountId == s.challenges[c].accountId
  }

  predicate SessionsKept(s: Auth, t: Auth, but: set<Id>) {
    forall i :: i in t.sessions && i !in but ==> HeldAsBefore(s, t, i)
  }

  predicate ChallengesKept(s: Auth, t: Auth, but: set<Id>) {
    forall c :: c in t.challenges && c !in but ==> AskedAsBefore(s, t, c)
  }

  lemma SessionsStay(s: Auth, t: Auth, es: seq<Event>, but: set<Id>)
    requires Provenance(s) && s.used <= t.used && t.history == s.history + es && SessionsKept(s, t, but)
    requires forall i :: i in but ==> SessionEarned(t, i)
    ensures forall i :: i in t.sessions ==> SessionEarned(t, i)
  {
    forall i | i in t.sessions ensures SessionEarned(t, i) {
      if i !in but {
        assert HeldAsBefore(s, t, i);
        SessionStays(s, t, es, i);
      }
    }
  }

  lemma ChallengesStay(s: Auth, t: Auth, es: seq<Event>, but: set<Id>)
    requires Provenance(s) && t.history == s.history + es && ChallengesKept(s, t, but)
    requires forall c :: c in but ==> ChallengeEarned(t, c)
    ensures forall c :: c in t.challenges ==> ChallengeEarned(t, c)
  {
    forall c | c in t.challenges ensures ChallengeEarned(t, c) {
      if c !in but {
        assert AskedAsBefore(s, t, c);
        ChallengeStays(s, t, es, c);
      }
    }
  }

  /** No session changes hands: a request's session, while its row exists, keeps its account. */
  lemma RequestsStay(s: Auth, t: Auth, es: seq<Event>, but: set<Id>)
    requires Provenance(s) && s.used <= t.used && t.history == s.history + es && t.requests == s.requests
    requires SessionsKept(s, t, but)
    requires forall i :: i in but ==> i !in s.used || (i in s.sessions && i in t.sessions
                                                       && t.sessions[i].accountId == s.sessions[i].accountId)
    ensures forall r :: r in t.requests ==> RequestEarned(t, r)
  {
    forall r | r in t.requests ensures RequestEarned(t, r) {
      assert RequestEarned(s, r);
      if r.sessionId in t.sessions && r.sessionId !in but {
        assert HeldAsBefore(s, t, r.sessionId);
      }
      RequestStays(s, t, es, r);
    }
  }

  /** A step that gives nothing away. */
  lemma QuietKeeps(s: Auth, t: Auth, es: seq<Event>)
    requires Provenance(s) && s.used <= t.used && t.history == s.history + es && t.requests == s.requests
    requires SessionsKept(s, t, {}) && ChallengesKept(s, t, {})
    requires forall k :: 0 <= k < |es| ==> Justified(s.history, es[k])
    ensures Provenance(t)
  {
    SessionsStay(s, t, es, {});
    RequestsStay(s, t, es, {});
    ChallengesStay(s, t, es, {});
    JustifiedAppend(s.history, es);
  }

  /** A step that creates one session. */
  lemma SeatingKeeps(s: Auth, t: Auth, es: seq<Event>, i: Id)
    requires Provenance(s) && s.used <= t.used && t.history == s.history + es && t.requests == s.requests
    requires i !in s.used && SessionEarned(t, i)
    requires SessionsKept(s, t, {i}) && ChallengesKept(s, t, {})
    requires forall k :: 0 <= k < |es| ==> Justified(s.history, es[k])
    ensures Provenance(t)
  {
    SessionsStay(s, t, es, {i});
    RequestsStay(s, t, es, {i});
    ChallengesStay(s, t, es, {});
    JustifiedAppend(s.history, es);
  }

  // ----- the steps -----

  lemma RegisterStartKeeps(s: Auth, id: Id, handle: string, now: nat)
    requires Provenance(s)
    ensures Provenance(DoRegisterStart(s, id, handle, now))
  {
    var t := DoRegisterStart(s, id, handle, now);
    if t != s {
      ChallengesStay(s, t, [], {id});
      SessionsStay(s, t, [], {});
      RequestsStay(s, t, [], {});
    }
  }

  lemma LoginStartKeeps(s: Auth, id: Id, handle: string, cn: string, sn: string, now: nat)
    requires Provenance(s)
    ensures Provenance(DoLoginStart(s, id, handle, cn, sn, now))
  {
    if id !in s.used {
      var t := DoLoginStart(s, id, handle, cn, sn, now);
      ChallengesStay(s, t, [], {id});
      SessionsStay(s, t, [], {});
      RequestsStay(s, t, [], {});
    }
  }

  lemma RegisterFinishKeeps(s: Auth, challenge: Id, account: Id, session: Id, token: string, key: string, now: nat)
    requires Provenance(s)
    ensures Provenance(DoRegisterFinish(s, challenge, account, session, token, key, now))
  {
    var t := DoRegisterFinish(s, challenge, account, session, token, key, now);
    if t != s {
      var es := [Registered(account, session), SessionIssued(session, now)];
      assert es[0] in t.history;
      SeatingKeeps(s, t, es, session);
    }
  }

  lemma ProofChallengesKeeps(s: Auth, t: Auth, login: Id, a: Id, c: Id)
    requires Provenance(s) && s.used <= t.used && t.requests == s.requests
    requires t.history == s.history + [ProofAccepted(login, a, Challenged(c))]
    requires c in t.challenges && t.challenges[c].accountId == Some(a)
    requires SessionsKept(s, t, {}) && ChallengesKept(s, t, {c})
    ensures Provenance(t)
  {
    var es := [ProofAccepted(login, a, Challenged(c))];
    assert es[0] in t.history;
    SessionsStay(s, t, es, {});
    RequestsStay(s, t, es, {});
    ChallengesStay(s, t, es, {c});
    JustifiedAppend(s.history, es);
  }

  lemma ProofSeatsKeeps(s: Auth, t: Auth, login: Id, a: Id, i: Id, now: nat)
    requires Provenance(s) && s.used <= t.used && t.requests == s.requests && i !in s.used && i in t.used
    requires t.history == s.history + [ProofAccepted(login, a, Seated(i)), SessionIssued(i, now)]
    requires i in t.sessions && t.sessions[i].accountId == a && t.sessions[i].state == EnrollmentRequired
    requires SessionsKept(s, t, {i}) && ChallengesKept(s, t, {})
    ensures Provenance(t)
  {
    var es := [ProofAccepted(login, a, Seated(i)), SessionIssued(i, now)];
    assert es[0] in t.history;
    SeatingKeeps(s, t, es, i);
  }

  lemma AdmitProofKeeps(s: Auth, challenge: Id, ch: Challenge, newId: Id, token: string, now: nat)
    requires Provenance(s) && challenge in s.challenges && ch == s.challenges[challenge] && ch.accountId.Some?
    requires ch.kind == LoginChallenge && newId !in s.used
    ensures Provenance(DoAdmitProof(s, challenge, ch, newId, token, now))
  {
    var t, account := DoAdmitProof(s, challenge, ch, newId, token, now), ch.accountId.value;
    if ActiveFactor(s, account).Some? {
      ProofChallengesKeeps(s, t, challenge, account, newId);
    } else if t != s {
      ProofSeatsKeeps(s, t, challenge, account, newId, now);
    }
  }

  lemma LoginRefusedKeeps(s: Auth, challenge: Id)
    requires Provenance(s) && challenge in s.challenges
    ensures Provenance(s.(challenges := s.challenges[challenge := Consume(s.challenges[challenge])]))
  {
    QuietKeeps(s, s.(challenges := s.challenges[challenge := Consume(s.challenges[challenge])]), []);
  }

  lemma LoginFinishKeeps(k: Checks, s: Auth, challenge: Id, cn: string, sn: string, final: string, proof: string,
                         newId: Id, token: string, now: nat)
    requires Provenance(s)
    ensures Provenance(DoLoginFinish(k, s, challenge, cn, sn, final, proof, newId, token, now))
  {
    if Available(s, challenge, LoginChallenge, now) {
      LoginRefusedKeeps(s, challenge);
      if ProofGood(k, s, challenge, final, proof) && newId !in s.used {
        AdmitProofKeeps(s, challenge, s.challenges[challenge], newId, token, now);
      }
    }
  }

  lemma AcceptCodeKeeps(s: Auth, challenge: Id, f: Id, a: Id, step: nat, session: Id, token: string, now: nat)
    requires Provenance(s) && session !in s.used && f in s.factors
    requires challenge in s.challenges && s.challenges[challenge].kind == PreMfaChallenge
    requires s.challenges[challenge].accountId == Some(a)
    ensures Provenance(DoAcceptCode(s, challenge, f, a, step, session, token, now))
  {
    var t, es := DoAcceptCode(s, challenge, f, a, step, session, token, now),
                 LoginEvents(challenge, f, a, step, session, now);
    assert ChallengeEarned(s, challenge);
    assert CodeFor(t.history[|s.history| + 1], a, session);
    SeatingKeeps(s, t, es, session);
  }

  lemma TotpVerifyKeeps(k: Checks, s: Auth, challenge: Id, code: string, session: Id, token: string, now: nat)
    requires Provenance(s)
    ensures Provenance(DoTotpVerify(k, s, challenge, code, session, token, now))
  {
    var t := DoTotpVerify(k, s, challenge, code, session, token, now);
    if t != s {
      var account := s.challenges[challenge].accountId.value;
      var f := ActiveFactor(s, account).value;
      match Judge(k, s.factors[f].seed, now, code, s.factors[f].lastStep)
      case None => QuietKeeps(s, t, [Judged(challenge)]);
      case Some(step) => AcceptCodeKeeps(s, challenge, f, account, step, session, token, now);
    }
  }

  lemma RecoveryVerifyKeeps(s: Auth, challenge: Id, pick: Option<Id>, session: Id, token: string, now: nat)
    requires Provenance(s) && MayTry(s, challenge, now)
    ensures Provenance(DoRecoveryVerify(s, challenge, pick, session, token, now))
  {
    var t := DoRecoveryVerify(s, challenge, pick, session, token, now);
    if pick.None? {
      QuietKeeps(s, t, [Judged(challenge)]);
    } else if t != s {
      var account := s.challenges[challenge].accountId.value;
      var es := [Judged(challenge), RecoveryUsed(challenge, account, session), SessionIssued(session, now)];
      assert ChallengeEarned(s, challenge);
      assert es[1] in t.history;
      SeatingKeeps(s, t, es, session);
    }
  }

  lemma LoadedRequest(s: Auth, t: Auth, i: Id, now: nat, r: Current)
    requires i in s.sessions && SessionEarned(s, i) && t.used == s.used && t.sessions == s.sessions
    requires t.history == s.history + [SessionReturned(i, now)]
    requires r == Current(i, s.sessions[i].accountId, s.sessions[i].state, s.sessions[i].absolute, now)
    ensures RequestEarned(t, r)
  {
    EarnedStays(s.history, [SessionReturned(i, now)], r.accountId, i, r.state);
    assert t.history[|s.history|] == SessionReturned(i, now);
  }

  lemma LoadedKeeps(s: Auth, t: Auth, i: Id, now: nat)
    requires Provenance(s) && i in s.sessions
    requires t == s.(requests := s.requests + {Current(i, s.sessions[i].accountId, s.sessions[i].state,
                                                       s.sessions[i].absolute, now)},
                     history := s.history + [SessionReturned(i, now)])
    ensures Provenance(t)
  {
    var es := [SessionReturned(i, now)];
    assert SessionEarned(s, i);
    SessionsStay(s, t, es, {});
    ChallengesStay(s, t, es, {});
    JustifiedAppend(s.history, es);
    forall r | r in t.requests ensures RequestEarned(t, r) {
      if r in s.requests {
        RequestStays(s, t, es, r);
      } else {
        LoadedRequest(s, t, i, now, r);
      }
    }
  }

  lemma LoadKeeps(s: Auth, id: Id, now: nat)
    requires Provenance(s) && id in s.sessions
    ensures Provenance(DoLoadRow(s, id, now))
  {
    var t := DoLoadRow(s, id, now);
    if t.history == s.history {
      QuietKeeps(s, t, []);
    } else {
      LoadedKeeps(s, t, id, now);
    }
  }

  lemma ConfirmJustified(s: Auth, r: Current, g: Id, step: nat, seated: bool)
    requires RequestEarned(s, r) && r.state != MfaVerified && AllJustified(s.history)
    ensures AllJustified(s.history + ConfirmEvents(r, g, step, seated))
  {
    JustifiedAppend(s.history, ConfirmEvents(r, g, step, seated));
  }

  /** A confirmed enrolment lifts the request's session, if its row is still there. */
  lemma ConfirmedKeeps(s: Auth, t: Auth, r: Current, g: Id, step: nat)
    requires Provenance(s) && r in s.requests && r.state != MfaVerified && s.used <= t.used && t.requests == s.requests
    requires t.history == s.history + ConfirmEvents(r, g, step, true)
    requires r.sessionId in s.sessions && r.sessionId in t.sessions
    requires t.sessions[r.sessionId].accountId == s.sessions[r.sessionId].accountId
    requires t.sessions[r.sessionId].state == MfaVerified
    requires SessionsKept(s, t, {r.sessionId}) && ChallengesKept(s, t, {})
    ensures Provenance(t)
  {
    var es := ConfirmEvents(r, g, step, true);
    assert RequestEarned(s, r) && SessionEarned(s, r.sessionId);
    assert CodeFor(t.history[|s.history| + 1], r.accountId, r.sessionId);
    SessionsStay(s, t, es, {r.sessionId});
    RequestsStay(s, t, es, {r.sessionId});
    ChallengesStay(s, t, es, {});
    ConfirmJustified(s, r, g, step, true);
  }

  lemma EnrollKeeps(s: Auth, r: Current, g: Id, step: nat, token: string, codes: seq<NewCode>)
    requires Provenance(s) && r in s.requests && r.state != MfaVerified && g in s.factors
    ensures Provenance(DoEnroll(s, r, g, step, token, codes))
  {
    var t := DoEnroll(s, r, g, step, token, codes);
    if r.sessionId in s.sessions {
      ConfirmedKeeps(s, t, r, g, step);
    } else {
      assert RequestEarned(s, r);
      QuietKeeps(s, t, ConfirmEvents(r, g, step, false));
    }
  }

  lemma EnrollConfirmKeeps(k: Checks, s: Auth, r: Current, g: Id, code: string, token: string, codes: seq<NewCode>)
    requires Provenance(s) && r in s.requests
    ensures Provenance(DoEnrollConfirm(k, s, r, g, code, token, codes))
  {
    var t := DoEnrollConfirm(k, s, r, g, code, token, codes);
    if t != s {
      match Judge(k, s.factors[g].seed, r.now, code, s.factors[g].lastStep)
      case None => QuietKeeps(s, t, [PendingJudged(g)]);
      case Some(step) => EnrollKeeps(s, r, g, step, token, codes);
    }
  }

  lemma RefreshKeeps(s: Auth, r: Current)
    requires Provenance(s)
    ensures Provenance(DoRefresh(s, r))
  {
    if r.sessionId in s.sessions {
      QuietKeeps(s, DoRefresh(s, r), [Active(r.sessionId, r.now)]);
    }
  }

  lemma OpenVaultKeeps(s: Auth, r: Current)
    requires Provenance(s) && r in s.requests
    ensures Provenance(DoOpenVault(s, r))
  {
    if r.state == MfaVerified {
      assert RequestEarned(s, r);
      QuietKeeps(s, DoOpenVault(s, r), [VaultOpened(r.accountId, r.sessionId, r.now)]);
    }
  }

  lemma ElsewhereKeeps(k: Checks, s: Auth, a: Action)
    requires Provenance(s) && Elsewhere(a)
    ensures Provenance(Next(k, s, a))
  {
    ElsewhereFrame(k, s, a);
    var t := Next(k, s, a);
    forall i | i in t.sessions ensures HeldAsBefore(s, t, i) {
      assert SameSession(s, t, i);
    }
    forall c | c in t.challenges ensures AskedAsBefore(s, t, c) {
      assert SameChallenge(s, t, c);
    }
    QuietKeeps(s, t, []);
  }

  lemma NextKeeps(k: Checks, s: Auth, a: Action)
    requires Provenance(s)
    ensures Provenance(Next(k, s, a))
  {
    if Elsewhere(a) {
      ElsewhereKeeps(k, s, a);
    } else {
      match a
      case RegisterStart(id, handle, now) => RegisterStartKeeps(s, id, handle, now);
      case RegisterFinish(ch, account, session, token, key, now) =>
        RegisterFinishKeeps(s, ch, account, session, token, key, now);
      case LoginStart(id, handle, cn, sn, now) => LoginStartKeeps(s, id, handle, cn, sn, now);
      case LoginFinish(ch, cn, sn, final, proof, newId, token, now) =>
        LoginFinishKeeps(k, s, ch, cn, sn, final, proof, newId, token, now);
      case TotpVerify(ch, code, session, token, now) => TotpVerifyKeeps(k, s, ch, code, session, token, now);
      case RecoveryVerify(ch, code, pick, session, token, now) =>
        if MayTry(s, ch, now) {
          RecoveryVerifyKeeps(s, ch, pick, session, token, now);
        }
      case LoadSession(token, now) =>
        if LiveSession(s, token).Some? {
          LoadKeeps(s, LiveSession(s, token).value, now);
        }
      case Refresh(r) => RefreshKeeps(s, r);
      case EnrollConfirm(r, factor, code, token, codes) =>
        if r in s.requests {
          EnrollConfirmKeeps(k, s, r, factor, code, token, codes);
        }
      case OpenVault(r) =>
        if r in s.requests {
          OpenVaultKeeps(s, r);
        }
    }
  }

  lemma {:induction false} RunKeeps(k: Checks, clock: nat, actions: seq<Action>)
    ensures Provenance(Run(k, Start(clock), actions))
    decreases |actions|
  {
    if actions != [] {
      var n := |actions| - 1;
      RunKeeps(k, clock, actions[..n]);
      NextKeeps(k, Run(k, Start(clock), actions[..n]), actions[n]);
    }
  }

  // ----- main results -----

  /** The account was registered, or proved its password, at this point. */
  predicate Authenticates(e: Event, a: Id) {
    (e.Registered? || e.ProofAccepted?) && e.account == a
  }

  ghost predicate Earlier(h: seq<Event>, before: nat, a: Id) {
    exists m: nat :: m < before && m < |h| && Authenticates(h[m], a)
  }

  lemma ChallengedEarlier(h: seq<Event>, n: nat, a: Id, c: Id)
    requires n <= |h| && ChallengedFor(h[..n], a, c)
    ensures Earlier(h, n, a)
  {
    var login: Id :| ProofAccepted(login, a, Challenged(c)) in h[..n];
    var m: nat :| m < n && h[m] == ProofAccepted(login, a, Challenged(c));
    assert Authenticates(h[m], a);
  }

  lemma RootedEarlier(h: seq<Event>, n: nat, a: Id, i: Id)
    requires n <= |h| && AllJustified(h) && Rooted(h[..n], a, i)
    ensures Earlier(h, n, a)
  {
    if Registered(a, i) in h[..n] {
      var m: nat :| m < n && h[m] == Registered(a, i);
      assert Authenticates(h[m], a);
    } else if login: Id :| ProofAccepted(login, a, Seated(i)) in h[..n] {
      var m: nat :| m < n && h[m] == ProofAccepted(login, a, Seated(i));
      assert Authenticates(h[m], a);
    } else {
      var c: Id :| RecoveryUsed(c, a, i) in h[..n];
      var m: nat :| m < n && h[m] == RecoveryUsed(c, a, i);
      assert Justified(h[..m], h[m]);
      ChallengedEarlier(h, m, a, c);
    }
  }

  /** An accepted one-time code was preceded by the account's registration or an accepted proof of its password. */
  lemma CodeEarlier(h: seq<Event>, n: nat, a: Id, i: Id)
    requires n < |h| && AllJustified(h) && CodeFor(h[n], a, i)
    ensures Earlier(h, n, a)
  {
    assert Justified(h[..n], h[n]);
    match h[n].means
    case AtLogin(c, _) => ChallengedEarlier(h, n, a, c);
    case AtEnrollment(session) => RootedEarlier(h, n, a, session);
  }

  /** Both factors, in order: registration or password proof at m, one-time code for this session at j. */
  ghost predicate TwoFactors(h: seq<Event>, before: nat, a: Id, i: Id) {
    exists j: nat :: j < before && j < |h| && CodeFor(h[j], a, i) && Earlier(h, j, a)
  }

  lemma AcceptedMeansTwoFactors(h: seq<Event>, n: nat, a: Id, i: Id)
    requires n <= |h| && AllJustified(h) && CodeAccepted(h[..n], a, i)
    ensures TwoFactors(h, n, a, i)
  {
    var j: nat :| j < n && CodeFor(h[..n][j], a, i);
    assert h[..n][j] == h[j];
    CodeEarlier(h, j, a, i);
  }

  /** Every fully verified session traces back to a one-time code accepted for the same account and session, and before
      that to the account's registration or an accepted client proof. */
  lemma VerifiedSessionsAreEarned(k: Checks, s: Auth, i: Id)
    requires Reachable(k, s) && i in s.sessions && s.sessions[i].state == MfaVerified
    ensures TwoFactors(s.history, |s.history|, s.sessions[i].accountId, i)
  {
    var clock: nat, actions :| s == Run(k, Start(clock), actions);
    RunKeeps(k, clock, actions);
    assert SessionEarned(s, i);
    assert s.history[..|s.history|] == s.history;
    AcceptedMeansTwoFactors(s.history, |s.history|, s.sessions[i].accountId, i);
  }

  /** Vault code runs for an account only under a session for which both factors were shown before, and which had been
      handed to the request at the request's own time. */
  lemma VaultAccessIsEarned(k: Checks, s: Auth, n: nat)
    requires Reachable(k, s) && n < |s.history| && s.history[n].VaultOpened?
    ensures TwoFactors(s.history, n, s.history[n].account, s.history[n].session)
    ensures SessionReturned(s.history[n].session, s.history[n].now) in s.history[..n]
  {
    var clock: nat, actions :| s == Run(k, Start(clock), actions);
    RunKeeps(k, clock, actions);
    assert Justified(s.history[..n], s.history[n]);
    AcceptedMeansTwoFactors(s.history, n, s.history[n].account, s.history[n].session);
  }
}
