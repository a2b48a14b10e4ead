/** Session timers under any interleaving of loads, refreshes, confirmations and logouts: a request's later statements
    may run long after the load that let it in. */
module AuthTimers {
  import opened Results
  import opened AuthModel
  import opened AuthHistory

  predicate IssuedAt(h: seq<Event>, i: Id, u: nat) {
    SessionIssued(i, u) in h
  }

  predicate ActiveAt(h: seq<Event>, i: Id, v: nat) {
    SessionIssued(i, v) in h || Active(i, v) in h
  }

  predicate AbsoluteSet(h: seq<Event>, i: Id, absolute: nat) {
    absolute >= SESSION_ABSOLUTE_TTL && IssuedAt(h, i, absolute - SESSION_ABSOLUTE_TTL)
  }

  /** Some recorded activity accounts for a session being alive until `idle`. */
  ghost predicate IdleEarned(h: seq<Event>, i: Id, idle: nat) {
    exists v: nat :: ActiveAt(h, i, v) && idle <= v + SESSION_IDLE_TTL
  }

  ghost predicate RowTimed(h: seq<Event>, i: Id, row: Session) {
    row.idle <= row.absolute && AbsoluteSet(h, i, row.absolute) && IdleEarned(h, i, row.idle)
  }

  /** Returned within twelve hours of its creation, and within half an hour of some activity. */
  ghost predicate ReturnTimely(past: seq<Event>, i: Id, t: nat) {
    && (exists u: nat :: IssuedAt(past, i, u) && t < u + SESSION_ABSOLUTE_TTL)
    && (exists v: nat :: ActiveAt(past, i, v) && t < v + SESSION_IDLE_TTL)
  }

  ghost predicate ReturnsTimely(h: seq<Event>, i: Id) {
    forall n, t: nat :: 0 <= n < |h| && h[n] == SessionReturned(i, t) ==> ReturnTimely(h[..n], i, t)
  }

  ghost predicate IssuedOnce(h: seq<Event>, i: Id) {
    forall u: nat, v: nat :: IssuedAt(h, i, u) && IssuedAt(h, i, v) ==> u == v
  }

  predicate RequestsTimed(s: Auth, i: Id) {
    forall r :: r in s.requests && r.sessionId == i ==> AbsoluteSet(s.history, i, r.absolute)
  }

  ghost predicate Unborn(s: Auth, i: Id) {
    && i !in s.sessions
    && (forall r :: r in s.requests ==> r.sessionId != i)
    && (forall u: nat :: !IssuedAt(s.history, i, u))
  }

  ghost predicate Timed(s: Auth, i: Id) {
    && (i in s.sessions ==> RowTimed(s.history, i, s.sessions[i]))
    && RequestsTimed(s, i)
    && ReturnsTimely(s.history, i)
    && IssuedOnce(s.history, i)
    && (i !in s.used ==> Unborn(s, i))
  }

  // ----- a longer history -----

  lemma RowStays(h: seq<Event>, es: seq<Event>, i: Id, row: Session)
    requires RowTimed(h, i, row)
    ensures RowTimed(h + es, i, row)
  {
    var v: nat :| ActiveAt(h, i, v) && row.idle <= v + SESSION_IDLE_TTL;
    assert ActiveAt(h + es, i, v);
  }

  lemma ReturnsStay(h: seq<Event>, es: seq<Event>, i: Id)
    requires ReturnsTimely(h, i)
    requires forall k :: 0 <= k < |es| && es[k].SessionReturned? ==> es[k].session != i
    ensures ReturnsTimely(h + es, i)
  {
    forall n, t: nat | 0 <= n < |h + es| && (h + es)[n] == SessionReturned(i, t)
      ensures ReturnTimely((h + es)[..n], i, t)
    {
      assert n < |h|;
      assert (h + es)[..n] == h[..n];
    }
  }

  predicate NotIssued(es: seq<Event>, i: Id) {
    forall k :: 0 <= k < |es| && es[k].SessionIssued? ==> es[k].session != i
  }

  lemma NoNewIssue(h: seq<Event>, es: seq<Event>, i: Id, u: nat)
    requires NotIssued(es, i)
    ensures IssuedAt(h + es, i, u) <==> IssuedAt(h, i, u)
  {
  }

  lemma IssuesStay(s: Auth, t: Auth, es: seq<Event>, i: Id)
    requires NotIssued(es, i) && t.history == s.history + es
    ensures IssuedOnce(s.history, i) ==> IssuedOnce(t.history, i)
    ensures Unborn(s, i) && i !in t.sessions && (forall r :: r in t.requests ==> r.sessionId != i) ==> Unborn(t, i)
  {
    forall u: nat ensures IssuedAt(t.history, i, u) <==> IssuedAt(s.history, i, u) {
      NoNewIssue(s.history, es, i, u);
    }
  }

  lemma RequestsStay(s: Auth, t: Auth, es: seq<Event>, i: Id)
    requires RequestsTimed(s, i) && t.history == s.history + es && t.requests == s.requests
    ensures RequestsTimed(t, i)
  {
  }

  /** The session's timers are as they were; the row may have been revoked or dropped. */
  lemma UntouchedKeeps(s: Auth, t: Auth, es: seq<Event>, i: Id)
    requires Timed(s, i) && s.used <= t.used && t.requests == s.requests && t.history == s.history + es
    requires i in t.sessions ==> i in s.sessions && t.sessions[i].idle == s.sessions[i].idle
                                 && t.sessions[i].absolute == s.sessions[i].absolute
    requires NotIssued(es, i) && forall k :: 0 <= k < |es| ==> !es[k].SessionReturned?
    ensures Timed(t, i)
  {
    if i in t.sessions {
      RowStays(s.history, es, i, s.sessions[i]);
    }
    ReturnsStay(s.history, es, i);
    IssuesStay(s, t, es, i);
    RequestsStay(s, t, es, i);
  }

  /** A new session: its timers start together. */
  lemma IssueKeeps(s: Auth, t: Auth, es: seq<Event>, account: Id, id: Id, token: string, state: SessionState, now: nat,
                   i: Id)
    requires Timed(s, i) && id !in s.used && id in t.used && s.used <= t.used && t.requests == s.requests
    requires t.sessions == s.sessions[id := NewSession(account, token, state, now)]
    requires es != [] && es[|es| - 1] == SessionIssued(id, now) && t.history == s.history + es
    requires NotIssued(es[..|es| - 1], i) && forall k :: 0 <= k < |es| ==> !es[k].SessionReturned?
    ensures Timed(t, i)
  {
    if i == id {
      var first := es[..|es| - 1];
      var h := s.history + first;
      assert t.history == h + [SessionIssued(id, now)];
      forall u: nat ensures IssuedAt(t.history, i, u) <==> u == now {
        NoNewIssue(s.history, first, i, u);
      }
      ReturnsStay(s.history, es, i);
      assert ActiveAt(t.history, i, now);
    } else {
      UntouchedKeeps(s, t, es, i);
    }
  }

  // ----- the steps -----

  lemma RegisterFinishKeeps(s: Auth, challenge: Id, account: Id, session: Id, token: string, key: string, now: nat,
                            i: Id)
    requires Timed(s, i)
    ensures Timed(DoRegisterFinish(s, challenge, account, session, token, key, now), i)
  {
    var t := DoRegisterFinish(s, challenge, account, session, token, key, now);
    if t != s {
      IssueKeeps(s, t, [Registered(account, session), SessionIssued(session, now)], account, session, token,
                 EnrollmentRequired, now, i);
    }
  }

  lemma AdmitProofKeeps(s: Auth, challenge: Id, ch: Challenge, newId: Id, token: string, now: nat, i: Id)
    requires Timed(s, i) && ch.accountId.Some? && newId !in s.used
    ensures Timed(DoAdmitProof(s, challenge, ch, newId, token, now), i)
  {
    var t, account := DoAdmitProof(s, challenge, ch, newId, token, now), ch.accountId.value;
    if ActiveFactor(s, account).Some? {
      UntouchedKeeps(s, t, [ProofAccepted(challenge, account, Challenged(newId))], i);
    } else if t != s {
      IssueKeeps(s, t, [ProofAccepted(challenge, account, Seated(newId)), SessionIssued(newId, now)], account, newId,
                 token, EnrollmentRequired, now, i);
    }
  }

  lemma LoginFinishKeeps(k: Checks, s: Auth, challenge: Id, cn: string, sn: string, final: string, proof: string,
                         newId: Id, token: string, now: nat, i: Id)
    requires Timed(s, i)
    ensures Timed(DoLoginFinish(k, s, challenge, cn, sn, final, proof, newId, token, now), i)
  {
    var t := DoLoginFinish(k, s, challenge, cn, sn, final, proof, newId, token, now);
    if t.history == s.history {
      UntouchedKeeps(s, t, [], i);
    } else {
      AdmitProofKeeps(s, challenge, s.challenges[challenge], newId, token, now, i);
    }
  }

  lemma TotpVerifyKeeps(k: Checks, s: Auth, challenge: Id, code: string, session: Id, token: string, now: nat, i: Id)
    requires Timed(s, i)
    ensures Timed(DoTotpVerify(k, s, challenge, code, session, token, now), i)
  {
    var t := DoTotpVerify(k, s, challenge, code, session, token, now);
    if t != s {
      var account := s.challenges[challenge].accountId.value;
      var f := ActiveFactor(s, account).value;
      match Judge(k, s.factors[f].seed, now, code, s.factors[f].lastStep)
      case None => UntouchedKeeps(s, t, [Judged(challenge)], i);
      case Some(step) =>
        IssueKeeps(s, t, LoginEvents(challenge, f, account, step, session, now), account, session, token, MfaVerified,
                   now, i);
    }
  }

  lemma RecoveryVerifyKeeps(s: Auth, challenge: Id, pick: Option<Id>, session: Id, token: string, now: nat, i: Id)
    requires Timed(s, i) && MayTry(s, challenge, now)
    ensures Timed(DoRecoveryVerify(s, challenge, pick, session, token, now), i)
  {
    var t := DoRecoveryVerify(s, challenge, pick, session, token, now);
    if pick.None? {
      UntouchedKeeps(s, t, [Judged(challenge)], i);
    } else if t != s {
      var account := s.challenges[challenge].accountId.value;
      IssueKeeps(s, t, [Judged(challenge), RecoveryUsed(challenge, account, session), SessionIssued(session, now)],
                 account, session, token, RecoverySession, now, i);
    }
  }

  lemma LoadedRow(s: Auth, t: Auth, i: Id, row: Session, now: nat)
    requires Timed(s, i) && i in s.sessions && row == s.sessions[i] && now < row.idle && now < row.absolute
    requires t == s.(requests := s.requests + {Current(i, row.accountId, row.state, row.absolute, now)},
                     history := s.history + [SessionReturned(i, now)])
    ensures Timed(t, i)
  {
    var h, es := s.history, [SessionReturned(i, now)];
    RowStays(h, es, i, row);
    IssuesStay(s, t, es, i);
    var v: nat :| ActiveAt(h, i, v) && row.idle <= v + SESSION_IDLE_TTL;
    assert IssuedAt(h, i, row.absolute - SESSION_ABSOLUTE_TTL);
    assert ReturnTimely(h, i, now);
    forall n, t: nat | 0 <= n < |h + es| && (h + es)[n] == SessionReturned(i, t)
      ensures ReturnTimely((h + es)[..n], i, t)
    {
      assert (h + es)[..n] == h[..n];
    }
  }

  lemma LoadedAnother(s: Auth, t: Auth, i: Id, r: Current)
    requires Timed(s, i) && r.sessionId != i
    requires t == s.(requests := s.requests + {r}, history := s.history + [SessionReturned(r.sessionId, r.now)])
    ensures Timed(t, i)
  {
    var es := [SessionReturned(r.sessionId, r.now)];
    if i in s.sessions {
      RowStays(s.history, es, i, s.sessions[i]);
    }
    ReturnsStay(s.history, es, i);
    IssuesStay(s, t, es, i);
  }

  lemma LoadKeeps(s: Auth, id: Id, now: nat, i: Id)
    requires Timed(s, i) && id in s.sessions
    ensures Timed(DoLoadRow(s, id, now), i)
  {
    var t, row := DoLoadRow(s, id, now), s.sessions[id];
    if row.idle <= now || row.absolute <= now {
      UntouchedKeeps(s, t, [], i);
    } else if id == i {
      LoadedRow(s, t, i, row, now);
    } else {
      LoadedAnother(s, t, i, Current(id, row.accountId, row.state, row.absolute, now));
    }
  }

  /** The idle timer of a session was set for a request, never beyond the absolute one. */
  lemma ActivityKeeps(s: Auth, t: Auth, r: Current, es: seq<Event>, i: Id)
    requires Timed(s, i) && s.used <= t.used && t.requests == s.requests && t.history == s.history + es
    requires r in s.requests && r.sessionId in s.sessions && Active(r.sessionId, r.now) in es
    requires t.sessions.Keys == s.sessions.Keys
    requires i in s.sessions && i != r.sessionId ==> t.sessions[i] == s.sessions[i]
    requires t.sessions[r.sessionId].idle == MinTime(r.now + SESSION_IDLE_TTL, r.absolute)
    requires t.sessions[r.sessionId].absolute == s.sessions[r.sessionId].absolute
    requires NotIssued(es, i) && forall k :: 0 <= k < |es| ==> !es[k].SessionReturned?
    ensures Timed(t, i)
  {
    if i == r.sessionId {
      RowStays(s.history, es, i, s.sessions[i]);
      assert ActiveAt(t.history, i, r.now);
      assert IssuedAt(s.history, i, r.absolute - SESSION_ABSOLUTE_TTL);
      assert r.absolute == t.sessions[i].absolute;
      ReturnsStay(s.history, es, i);
      IssuesStay(s, t, es, i);
      RequestsStay(s, t, es, i);
    } else {
      UntouchedKeeps(s, t, es, i);
    }
  }

  lemma RefreshKeeps(s: Auth, r: Current, i: Id)
    requires Timed(s, i) && r in s.requests
    ensures Timed(DoRefresh(s, r), i)
  {
    if r.sessionId in s.sessions {
      ActivityKeeps(s, DoRefresh(s, r), r, [Active(r.sessionId, r.now)], i);
    }
  }

  lemma EnrollKeeps(s: Auth, r: Current, g: Id, step: nat, token: string, codes: seq<NewCode>, i: Id)
    requires Timed(s, i) && r in s.requests && g in s.factors
    ensures Timed(DoEnroll(s, r, g, step, token, codes), i)
  {
    var t, es := DoEnroll(s, r, g, step, token, codes), ConfirmEvents(r, g, step, r.sessionId in s.sessions);
    if r.sessionId in s.sessions {
      assert es[3] == Active(r.sessionId, r.now);
      ActivityKeeps(s, t, r, es, i);
    } else {
      UntouchedKeeps(s, t, es, i);
    }
  }

  lemma EnrollConfirmKeeps(k: Checks, s: Auth, r: Current, g: Id, code: string, token: string, codes: seq<NewCode>,
                           i: Id)
    requires Timed(s, i) && r in s.requests
    ensures Timed(DoEnrollConfirm(k, s, r, g, code, token, codes), i)
  {
    var t := DoEnrollConfirm(k, s, r, g, code, token, codes);
    if t != s {
      match Judge(k, s.factors[g].seed, r.now, code, s.factors[g].lastStep)
      case None => UntouchedKeeps(s, t, [PendingJudged(g)], i);
      case Some(step) => EnrollKeeps(s, r, g, step, token, codes, i);
    }
  }

  lemma OpenVaultKeeps(s: Auth, r: Current, i: Id)
    requires Timed(s, i)
    ensures Timed(DoOpenVault(s, r), i)
  {
    if r.state == MfaVerified {
      UntouchedKeeps(s, DoOpenVault(s, r), [VaultOpened(r.accountId, r.sessionId, r.now)], i);
    }
  }

  lemma ElsewhereKeeps(k: Checks, s: Auth, a: Action, i: Id)
    requires Timed(s, i) && Elsewhere(a)
    ensures Timed(Next(k, s, a), i)
  {
    ElsewhereFrame(k, s, a);
    var t := Next(k, s, a);
    assert i in t.sessions ==> SameSession(s, t, i);
    UntouchedKeeps(s, t, [], i);
  }

  lemma StartKeeps(k: Checks, s: Auth, a: Action, i: Id)
    requires Timed(s, i) && (a.RegisterStart? || a.LoginStart?)
    ensures Timed(Next(k, s, a), i)
  {
    UntouchedKeeps(s, Next(k, s, a), [], i);
  }

  lemma NextKeeps(k: Checks, s: Auth, a: Action, i: Id)
    requires Timed(s, i)
    ensures Timed(Next(k, s, a), i)
  {
    if Elsewhere(a) {
      ElsewhereKeeps(k, s, a, i);
    } else if a.RegisterStart? || a.LoginStart? {
      StartKeeps(k, s, a, i);
    } else {
      match a
      case RegisterFinish(ch, account, session, token, key, now) =>
        RegisterFinishKeeps(s, ch, account, session, token, key, now, i);
      case LoginFinish(ch, cn, sn, final, proof, newId, token, now) =>
        LoginFinishKeeps(k, s, ch, cn, sn, final, proof, newId, token, now, i);
      case TotpVerify(ch, code, session, token, now) => TotpVerifyKeeps(k, s, ch, code, session, token, now, i);
      case RecoveryVerify(ch, code, pick, session, token, now) =>
        if MayTry(s, ch, now) {
          RecoveryVerifyKeeps(s, ch, pick, session, token, now, i);
        }
      case LoadSession(token, now) =>
        if LiveSession(s, token).Some? {
          LoadKeeps(s, LiveSession(s, token).value, now, i);
        }
      case Refresh(r) =>
        if r in s.requests {
          RefreshKeeps(s, r, i);
        }
      case EnrollConfirm(r, factor, code, token, codes) =>
        if r in s.requests {
          EnrollConfirmKeeps(k, s, r, factor, code, token, codes, i);
        }
      case OpenVault(r) => OpenVaultKeeps(s, r, i);
    }
  }

  lemma {:induction false} RunKeeps(k: Checks, clock: nat, actions: seq<Action>, i: Id)
    ensures Timed(Run(k, Start(clock), actions), i)
    decreases |actions|
  {
    if actions != [] {
      var n := |actions| - 1;
      RunKeeps(k, clock, actions[..n], i);
      NextKeeps(k, Run(k, Start(clock), actions[..n]), actions[n], i);
    }
  }

  // ----- main results -----

  /** The absolute deadline is the session's creation plus twelve hours for as long as the row exists, and the idle
      deadline never passes it. */
  lemma DeadlinesHold(k: Checks, s: Auth, i: Id, u: nat)
    requires Reachable(k, s) && i in s.sessions && SessionIssued(i, u) in s.history
    ensures s.sessions[i].idle <= s.sessions[i].absolute == u + 43200
  {
    var clock: nat, actions :| s == Run(k, Start(clock), actions);
    RunKeeps(k, clock, actions, i);
    assert IssuedAt(s.history, i, u) && IssuedAt(s.history, i, s.sessions[i].absolute - SESSION_ABSOLUTE_TTL);
  }

  /** A session that was handed to a request had been created less than twelve hours before and active less than half an
      hour before. */
  lemma ReturnedInTime(k: Checks, s: Auth, n: nat)
    requires Reachable(k, s) && n < |s.history| && s.history[n].SessionReturned?
    ensures exists u: nat :: SessionIssued(s.history[n].session, u) in s.history[..n] && s.history[n].now < u + 43200
    ensures exists v: nat :: s.history[n].now < v + 1800
                             && (SessionIssued(s.history[n].session, v) in s.history[..n]
                                 || Active(s.history[n].session, v) in s.history[..n])
  {
    var clock: nat, actions :| s == Run(k, Start(clock), actions);
    var i, t := s.history[n].session, s.history[n].now;
    RunKeeps(k, clock, actions, i);
    assert ReturnTimely(s.history[..n], i, t);
    var u: nat :| IssuedAt(s.history[..n], i, u) && t < u + SESSION_ABSOLUTE_TTL;
    var v: nat :| ActiveAt(s.history[..n], i, v) && t < v + SESSION_IDLE_TTL;
  }

  // ----- revoked and deleted sessions stay so -----

  predicate Dead(s: Auth, i: Id) {
    i in s.used && (i in s.sessions ==> s.sessions[i].revoked)
  }

  function ReturnOf(i: Id): Event -> bool {
    (e: Event) => e.SessionReturned? && e.session == i
  }

  lemma LoadStaysDead(s: Auth, token: string, now: nat, i: Id)
    requires Dead(s, i)
    ensures Dead(DoLoad(s, token, now), i)
    ensures Count(DoLoad(s, token, now).history, ReturnOf(i)) == Count(s.history, ReturnOf(i))
  {
    var t := DoLoad(s, token, now);
    if t.history != s.history {
      CountMiss(s.history, [SessionReturned(LiveSession(s, token).value, now)], ReturnOf(i));
    }
  }

  /** A history that only grew, and by nothing that hands out a session. */
  ghost predicate GrewSilently(s: Auth, t: Auth) {
    && s.history <= t.history
    && forall n :: |s.history| <= n < |t.history| ==> !t.history[n].SessionReturned?
  }

  lemma SilentCount(s: Auth, t: Auth, i: Id)
    requires GrewSilently(s, t)
    ensures Count(t.history, ReturnOf(i)) == Count(s.history, ReturnOf(i))
  {
    CountMiss(s.history, t.history[|s.history|..], ReturnOf(i));
    assert s.history + t.history[|s.history|..] == t.history;
  }

  lemma ConfirmStaysDead(k: Checks, s: Auth, r: Current, g: Id, code: string, token: string, codes: seq<NewCode>, i: Id)
    requires Dead(s, i)
    ensures Dead(DoEnrollConfirm(k, s, r, g, code, token, codes), i)
    ensures GrewSilently(s, DoEnrollConfirm(k, s, r, g, code, token, codes))
  {
  }

  lemma FactorStaysDead(k: Checks, s: Auth, challenge: Id, code: string, session: Id, token: string, now: nat, i: Id)
    requires Dead(s, i)
    ensures Dead(DoTotpVerify(k, s, challenge, code, session, token, now), i)
    ensures GrewSilently(s, DoTotpVerify(k, s, challenge, code, session, token, now))
  {
  }

  lemma LoginStaysDead(k: Checks, s: Auth, challenge: Id, cn: string, sn: string, final: string, proof: string,
                       newId: Id, token: string, now: nat, i: Id)
    requires Dead(s, i)
    ensures Dead(DoLoginFinish(k, s, challenge, cn, sn, final, proof, newId, token, now), i)
    ensures GrewSilently(s, DoLoginFinish(k, s, challenge, cn, sn, final, proof, newId, token, now))
  {
  }

  lemma OthersStayDead(k: Checks, s: Auth, a: Action, i: Id)
    requires Dead(s, i) && !Weighty(a) && !a.LoadSession?
    ensures Dead(Next(k, s, a), i) && GrewSilently(s, Next(k, s, a))
  {
  }

  lemma RegisterStaysDead(s: Auth, challenge: Id, account: Id, session: Id, token: string, key: string, now: nat, i: Id)
    requires Dead(s, i)
    ensures Dead(DoRegisterFinish(s, challenge, account, session, token, key, now), i)
    ensures GrewSilently(s, DoRegisterFinish(s, challenge, account, session, token, key, now))
  {
  }

  lemma RecoveryStaysDead(s: Auth, challenge: Id, pick: Option<Id>, session: Id, token: string, now: nat, i: Id)
    requires Dead(s, i) && MayTry(s, challenge, now)
    ensures Dead(DoRecoveryVerify(s, challenge, pick, session, token, now), i)
    ensures GrewSilently(s, DoRecoveryVerify(s, challenge, pick, session, token, now))
  {
  }

  lemma NextStaysDead(k: Checks, s: Auth, a: Action, i: Id)
    requires Dead(s, i)
    ensures Dead(Next(k, s, a), i)
    ensures Count(Next(k, s, a).history, ReturnOf(i)) == Count(s.history, ReturnOf(i))
  {
    if a.LoadSession? {
      LoadStaysDead(s, a.token, a.now, i);
    } else {
      match a {
        case LoginFinish(ch, cn, sn, final, proof, newId, token, now) =>
          LoginStaysDead(k, s, ch, cn, sn, final, proof, newId, token, now, i);
        case TotpVerify(ch, code, session, token, now) => FactorStaysDead(k, s, ch, code, session, token, now, i);
        case EnrollConfirm(r, g, code, token, codes) => ConfirmStaysDead(k, s, r, g, code, token, codes, i);
        case RegisterFinish(ch, account, session, token, key, now) =>
          RegisterStaysDead(s, ch, account, session, token, key, now, i);
        case RecoveryVerify(ch, _, pick, session, token, now) =>
          if MayTry(s, ch, now) {
            RecoveryStaysDead(s, ch, pick, session, token, now, i);
          }
        case _ => OthersStayDead(k, s, a, i);
      }
      SilentCount(s, Next(k, s, a), i);
    }
  }

  /** Once a session is revoked, or its row deleted by a logout, no later step brings it back: it stays revoked or
      absent, and no request is ever handed it again. */
  lemma {:induction false} RevocationIsPermanent(k: Checks, s: Auth, actions: seq<Action>, i: Id)
    requires Dead(s, i)
    ensures Dead(Run(k, s, actions), i)
    ensures Count(Run(k, s, actions).history, ReturnOf(i)) == Count(s.history, ReturnOf(i))
    decreases |actions|
  {
    if actions != [] {
      var n := |actions| - 1;
      RevocationIsPermanent(k, s, actions[..n], i);
      NextStaysDead(k, Run(k, s, actions[..n]), actions[n], i);
    }
  }

  lemma UsedIfKnown(k: Checks, s: Auth, i: Id)
    requires Reachable(k, s)
    ensures i in s.sessions || (exists r :: r in s.requests && r.sessionId == i) ==> i in s.used
  {
    var clock: nat, actions :| s == Run(k, Start(clock), actions);
    RunKeeps(k, clock, actions, i);
  }

  /** After a logout no request is handed the session again, whatever others still do with it. */
  lemma LogoutIsFinal(k: Checks, s: Auth, r: Current, actions: seq<Action>)
    requires Reachable(k, s) && r in s.requests
    ensures var out := Next(k, s, Logout(r));
            && r.sessionId !in out.sessions
            && Count(Run(k, out, actions).history, ReturnOf(r.sessionId)) == Count(s.history, ReturnOf(r.sessionId))
  {
    UsedIfKnown(k, s, r.sessionId);
    RevocationIsPermanent(k, Next(k, s, Logout(r)), actions, r.sessionId);
  }

  /** So too once a load found the session expired and then revoked it, even if others refreshed it in between. */
  lemma ExpiryIsFinal(k: Checks, s: Auth, token: string, now: nat, i: Id, between: seq<Action>, actions: seq<Action>)
    requires Reachable(k, s) && LiveSession(s, token) == Some(i) && now <= s.clock
    requires s.sessions[i].idle <= now || s.sessions[i].absolute <= now
    ensures var found := Next(k, s, LoadSession(token, now));
            var revoked := Next(k, Run(k, found, between), Revoke(i));
            && found.history == s.history && Dead(revoked, i)
            && Count(Run(k, revoked, actions).history, ReturnOf(i)) == Count(revoked.history, ReturnOf(i))
  {
    UsedIfKnown(k, s, i);
    var found := Next(k, s, LoadSession(token, now));
    var later := Run(k, found, between);
    UsedGrows(k, found, between);
    RevocationIsPermanent(k, Next(k, later, Revoke(i)), actions, i);
  }

  predicate Grown(s: Auth, t: Auth) {
    s.used <= t.used && s.revoking <= t.revoking
  }

  lemma LoginGrows(k: Checks, s: Auth, challenge: Id, cn: string, sn: string, final: string, proof: string, newId: Id,
                   token: string, now: nat)
    ensures Grown(s, DoLoginFinish(k, s, challenge, cn, sn, final, proof, newId, token, now))
  {
  }

  lemma CodeGrows(k: Checks, s: Auth, challenge: Id, code: string, session: Id, token: string, now: nat)
    ensures Grown(s, DoTotpVerify(k, s, challenge, code, session, token, now))
  {
  }

  lemma ConfirmGrows(k: Checks, s: Auth, r: Current, g: Id, code: string, token: string, codes: seq<NewCode>)
    ensures Grown(s, DoEnrollConfirm(k, s, r, g, code, token, codes))
  {
  }

  lemma NextUsedGrows(k: Checks, s: Auth, a: Action)
    ensures Grown(s, Next(k, s, a))
  {
    match a
    case Tick(_) =>
    case RegisterStart(_, _, _) =>
    case RegisterFinish(_, _, _, _, _, _) =>
    case LoginStart(_, _, _, _, _) =>
    case LoginFinish(ch, cn, sn, final, proof, newId, token, now) =>
      LoginGrows(k, s, ch, cn, sn, final, proof, newId, token, now);
    case TotpVerify(ch, code, session, token, now) => CodeGrows(k, s, ch, code, session, token, now);
    case RecoveryVerify(_, _, _, _, _, _) =>
    case LoadSession(_, _) =>
    case Revoke(_) =>
    case Refresh(_) =>
    case EnrollStart(_, _, _) =>
    case EnrollConfirm(r, g, code, token, codes) => ConfirmGrows(k, s, r, g, code, token, codes);
    case Logout(_) =>
    case OpenVault(_) =>
    case Cleanup =>
  }

  lemma {:induction false} UsedGrows(k: Checks, s: Auth, actions: seq<Action>)
    ensures s.used <= Run(k, s, actions).used && s.revoking <= Run(k, s, actions).revoking
    decreases |actions|
  {
    if actions != [] {
      var n := |actions| - 1;
      UsedGrows(k, s, actions[..n]);
      NextUsedGrows(k, Run(k, s, actions[..n]), actions[n]);
    }
  }
}
