/** Recovery codes are conserved: what an enrolment issued is either still unused or has paid for one session. */
module AuthRecovery {
  import opened Results
  import opened AuthModel
  import opened AuthHistory

  function IssuedTo(a: Id): Event -> bool {
    (e: Event) => e == CodesIssued(a)
  }

  function UsedBy(a: Id): Event -> bool {
    (e: Event) => e.RecoveryUsed? && e.account == a
  }

  /** Recovery sessions of the account since its codes were last issued. */
  function Since(h: seq<Event>, a: Id): nat {
    if h == [] then 0
    else if IssuedTo(a)(h[|h| - 1]) then 0
    else Since(h[..|h| - 1], a) + (if UsedBy(a)(h[|h| - 1]) then 1 else 0)
  }

  function Issues(s: Auth, a: Id): nat { Count(s.history, IssuedTo(a)) }

  function Total(s: Auth, a: Id): nat { Count(s.history, UsedBy(a)) }

  predicate IsUnused(codes: map<Id, Code>, a: Id, id: Id) {
    id in codes && codes[id].accountId == a && !codes[id].used
  }

  function Unused(codes: map<Id, Code>, a: Id): set<Id> {
    set id | id in codes && IsUnused(codes, a, id)
  }

  predicate Conserved(s: Auth, a: Id) {
    && s.codes.Keys <= s.used
    && (Issues(s, a) == 0 ==> Unused(s.codes, a) == {} && Total(s, a) == 0)
    && (Issues(s, a) > 0 ==>
          && |Unused(s.codes, a)| + Since(s.history, a) == RECOVERY_CODE_COUNT
          && Total(s, a) + RECOVERY_CODE_COUNT <= RECOVERY_CODE_COUNT * Issues(s, a) + Since(s.history, a))
  }

  // ----- appending to the history -----

  lemma SinceSnoc(h: seq<Event>, e: Event, a: Id)
    ensures Since(h + [e], a) == if IssuedTo(a)(e) then 0 else Since(h, a) + (if UsedBy(a)(e) then 1 else 0)
  {
    assert (h + [e])[..|h|] == h;
  }

  predicate Silent(e: Event, a: Id) {
    !IssuedTo(a)(e) && !UsedBy(a)(e)
  }

  lemma {:induction false} SinceMiss(h: seq<Event>, es: seq<Event>, a: Id)
    requires forall i :: 0 <= i < |es| ==> Silent(es[i], a)
    ensures Since(h + es, a) == Since(h, a)
  {
    if es == [] {
      assert h + es == h;
    } else {
      var n := |es| - 1;
      SinceMiss(h, es[..n], a);
      SinceSnoc(h + es[..n], es[n], a);
      assert (h + es[..n]) + [es[n]] == h + es;
    }
  }

  lemma SinceHit(h: seq<Event>, before: seq<Event>, e: Event, after: seq<Event>, a: Id)
    requires forall i :: 0 <= i < |before| ==> Silent(before[i], a)
    requires forall i :: 0 <= i < |after| ==> Silent(after[i], a)
    requires !Silent(e, a)
    ensures Since(h + before + [e] + after, a) == if IssuedTo(a)(e) then 0 else Since(h, a) + 1
  {
    SinceMiss(h, before, a);
    SinceSnoc(h + before, e, a);
    SinceMiss(h + before + [e], after, a);
  }

  lemma UntouchedKeeps(s: Auth, t: Auth, es: seq<Event>, a: Id)
    requires Conserved(s, a) && s.used <= t.used && t.history == s.history + es && t.codes.Keys <= t.used
    requires forall i :: 0 <= i < |es| ==> Silent(es[i], a)
    requires Unused(t.codes, a) == Unused(s.codes, a)
    ensures Conserved(t, a)
  {
    CountMiss(s.history, es, IssuedTo(a));
    CountMiss(s.history, es, UsedBy(a));
    SinceMiss(s.history, es, a);
  }

  // ----- the rows -----

  lemma UsingOne(codes: map<Id, Code>, a: Id, id: Id)
    requires IsUnused(codes, a, id)
    ensures Unused(codes[id := codes[id].(used := true)], a) == Unused(codes, a) - {id}
    ensures |Unused(codes[id := codes[id].(used := true)], a)| == |Unused(codes, a)| - 1
  {
    var after := codes[id := codes[id].(used := true)];
    assert Unused(after, a) == Unused(codes, a) - {id};
    assert id in Unused(codes, a);
  }

  lemma UsingAnothers(codes: map<Id, Code>, a: Id, b: Id, id: Id)
    requires a != b && IsUnused(codes, b, id)
    ensures Unused(codes[id := codes[id].(used := true)], a) == Unused(codes, a)
  {
  }

  lemma {:induction false} InsertedRows(codes: map<Id, Code>, a: Id, newCodes: seq<NewCode>)
    requires forall i :: 0 <= i < |newCodes| ==> newCodes[i].id !in codes
    ensures InsertCodes(codes, a, newCodes).Keys == codes.Keys + CodeIds(newCodes)
    ensures forall id :: id in codes ==> InsertCodes(codes, a, newCodes)[id] == codes[id]
    ensures forall id :: id in CodeIds(newCodes) ==> IsUnused(InsertCodes(codes, a, newCodes), a, id)
  {
    if newCodes == [] {
      assert CodeIds(newCodes) == {};
    } else {
      var n := |newCodes| - 1;
      InsertedRows(codes, a, newCodes[..n]);
      CodeIdsSnoc(newCodes);
    }
  }

  lemma CodeIdsSnoc(newCodes: seq<NewCode>)
    requires newCodes != []
    ensures CodeIds(newCodes) == CodeIds(newCodes[..|newCodes| - 1]) + {newCodes[|newCodes| - 1].id}
  {
    var n := |newCodes| - 1;
    forall id | id in CodeIds(newCodes) ensures id in CodeIds(newCodes[..n]) + {newCodes[n].id} {
      var i :| 0 <= i < |newCodes| && newCodes[i].id == id;
      if i < n {
        assert newCodes[..n][i].id == id;
      }
    }
    forall id | id in CodeIds(newCodes[..n]) ensures id in CodeIds(newCodes) {
      var i :| 0 <= i < n && newCodes[..n][i].id == id;
      assert newCodes[i].id == id;
    }
  }

  lemma {:induction false} DistinctIds(newCodes: seq<NewCode>)
    requires forall i, j :: 0 <= i < j < |newCodes| ==> newCodes[i].id != newCodes[j].id
    ensures |CodeIds(newCodes)| == |newCodes|
  {
    if newCodes == [] {
      assert CodeIds(newCodes) == {};
    } else {
      var n := |newCodes| - 1;
      DistinctIds(newCodes[..n]);
      CodeIdsSnoc(newCodes);
      assert newCodes[n].id !in CodeIds(newCodes[..n]);
    }
  }

  lemma ReplacedCodes(s: Auth, a: Id, b: Id, newCodes: seq<NewCode>)
    requires FreshCodes(s, newCodes) && s.codes.Keys <= s.used
    ensures var after := InsertCodes(DropCodes(s.codes, b), b, newCodes);
            && after.Keys <= s.used + CodeIds(newCodes)
            && (a == b ==> Unused(after, a) == CodeIds(newCodes))
            && (a != b ==> Unused(after, a) == Unused(s.codes, a))
  {
    var dropped := DropCodes(s.codes, b);
    assert dropped.Keys <= s.codes.Keys;
    InsertedRows(dropped, b, newCodes);
    var after := InsertCodes(dropped, b, newCodes);
    forall id | id in after.Keys ensures IsUnused(after, a, id) <==>
      (if a == b then id in CodeIds(newCodes) else IsUnused(s.codes, a, id))
    {
      if id in CodeIds(newCodes) {
        assert IsUnused(after, b, id) && id !in s.codes;
      } else {
        assert id in dropped && after[id] == dropped[id] == s.codes[id];
      }
    }
  }

  lemma {:induction false} InsertedAt(codes: map<Id, Code>, a: Id, newCodes: seq<NewCode>, i: nat)
    requires i < |newCodes| && forall m, n :: 0 <= m < n < |newCodes| ==> newCodes[m].id != newCodes[n].id
    ensures newCodes[i].id in InsertCodes(codes, a, newCodes)
    ensures InsertCodes(codes, a, newCodes)[newCodes[i].id] == Code(a, newCodes[i].salt, newCodes[i].hash, false)
  {
    var n := |newCodes| - 1;
    if i < n {
      InsertedAt(codes, a, newCodes[..n], i);
    }
  }

  /** After a confirmed enrolment every code that was issued matches, and so can be used, once. */
  lemma IssuedCodesWork(k: Checks, s: Auth, r: Current, factor: Id, code: string, token: string, codes: seq<NewCode>,
                        i: nat, issued: string)
    requires r in s.requests && r.state != MfaVerified && FreshCodes(s, codes) && TokenFree(s, token)
    requires factor in s.factors && s.factors[factor].accountId == r.accountId && !s.factors[factor].verified
    requires Judge(k, s.factors[factor].seed, r.now, code, s.factors[factor].lastStep).Some?
    requires i < |codes| && codes[i].hash == k.recoveryHash(r.accountId, codes[i].salt, issued)
    ensures MatchesCode(k, Next(k, s, EnrollConfirm(r, factor, code, token, codes)), codes[i].id, r.accountId, issued)
  {
    InsertedAt(DropCodes(s.codes, r.accountId), r.accountId, codes, i);
  }

  // ----- the steps -----

  lemma RecoveryUsedKeeps(s: Auth, t: Auth, challenge: Id, b: Id, id: Id, session: Id, now: nat, a: Id)
    requires Conserved(s, a) && IsUnused(s.codes, b, id) && s.used <= t.used
    requires t.codes == s.codes[id := s.codes[id].(used := true)]
    requires t.history == s.history + [Judged(challenge), RecoveryUsed(challenge, b, session),
                                       SessionIssued(session, now)]
    ensures Conserved(t, a)
  {
    var es := [Judged(challenge), RecoveryUsed(challenge, b, session), SessionIssued(session, now)];
    if a == b {
      UsingOne(s.codes, a, id);
      CountMiss(s.history, es, IssuedTo(a));
      CountHit(s.history, es, 1, UsedBy(a));
      SinceHit(s.history, es[..1], es[1], es[2..], a);
      assert s.history + es[..1] + [es[1]] + es[2..] == t.history;
    } else {
      UsingAnothers(s.codes, a, b, id);
      UntouchedKeeps(s, t, es, a);
    }
  }

  lemma RecoveryVerifyKeeps(k: Checks, s: Auth, challenge: Id, code: Option<string>, pick: Option<Id>, session: Id,
                            token: string, now: nat, a: Id)
    requires Conserved(s, a) && MayTry(s, challenge, now)
    requires MayMatch(k, s, s.challenges[challenge].accountId.value, code, pick)
    ensures Conserved(DoRecoveryVerify(s, challenge, pick, session, token, now), a)
  {
    var t := DoRecoveryVerify(s, challenge, pick, session, token, now);
    if pick.None? {
      UntouchedKeeps(s, t, [Judged(challenge)], a);
    } else if t != s {
      RecoveryUsedKeeps(s, t, challenge, s.challenges[challenge].accountId.value, pick.value, session, now, a);
    }
  }

  lemma ConfirmCounts(h: seq<Event>, r: Current, g: Id, step: nat, seated: bool)
    ensures var h' := h + ConfirmEvents(r, g, step, seated);
            && Count(h', IssuedTo(r.accountId)) == Count(h, IssuedTo(r.accountId)) + 1
            && Count(h', UsedBy(r.accountId)) == Count(h, UsedBy(r.accountId))
            && Since(h', r.accountId) == 0
  {
    var a, es := r.accountId, ConfirmEvents(r, g, step, seated);
    CountHit(h, es, 2, IssuedTo(a));
    CountMiss(h, es, UsedBy(a));
    SinceHit(h, es[..2], es[2], es[3..], a);
    assert h + es[..2] + [es[2]] + es[3..] == h + es;
  }

  lemma IssuingKeeps(s: Auth, t: Auth, a: Id)
    requires Conserved(s, a) && t.codes.Keys <= t.used && |Unused(t.codes, a)| == RECOVERY_CODE_COUNT
    requires Issues(t, a) == Issues(s, a) + 1 && Total(t, a) == Total(s, a) && Since(t.history, a) == 0
    ensures Conserved(t, a)
  {
  }

  lemma EnrollKeeps(s: Auth, r: Current, g: Id, step: nat, token: string, newCodes: seq<NewCode>, a: Id)
    requires Conserved(s, a) && FreshCodes(s, newCodes) && g in s.factors
    ensures Conserved(DoEnroll(s, r, g, step, token, newCodes), a)
  {
    var t, seated := DoEnroll(s, r, g, step, token, newCodes), r.sessionId in s.sessions;
    ReplacedCodes(s, a, r.accountId, newCodes);
    if a == r.accountId {
      ConfirmCounts(s.history, r, g, step, seated);
      DistinctIds(newCodes);
      IssuingKeeps(s, t, a);
    } else {
      UntouchedKeeps(s, t, ConfirmEvents(r, g, step, seated), a);
    }
  }

  lemma EnrollConfirmKeeps(k: Checks, s: Auth, r: Current, g: Id, code: string, token: string, codes: seq<NewCode>,
                           a: Id)
    requires Conserved(s, a)
    ensures Conserved(DoEnrollConfirm(k, s, r, g, code, token, codes), a)
  {
    var t := DoEnrollConfirm(k, s, r, g, code, token, codes);
    if t != s {
      match Judge(k, s.factors[g].seed, r.now, code, s.factors[g].lastStep)
      case None => UntouchedKeeps(s, t, [PendingJudged(g)], a);
      case Some(step) => EnrollKeeps(s, r, g, step, token, codes, a);
    }
  }

  lemma RegisterFinishKeeps(s: Auth, challenge: Id, account: Id, session: Id, token: string, key: string, now: nat,
                            a: Id)
    requires Conserved(s, a)
    ensures Conserved(DoRegisterFinish(s, challenge, account, session, token, key, now), a)
  {
    var t := DoRegisterFinish(s, challenge, account, session, token, key, now);
    if t != s {
      UntouchedKeeps(s, t, [Registered(account, session), SessionIssued(session, now)], a);
    }
  }

  lemma AdmitProofKeeps(s: Auth, challenge: Id, ch: Challenge, newId: Id, token: string, now: nat, a: Id)
    requires Conserved(s, a) && ch.accountId.Some?
    ensures Conserved(DoAdmitProof(s, challenge, ch, newId, token, now), a)
  {
    var t, account := DoAdmitProof(s, challenge, ch, newId, token, now), ch.accountId.value;
    if ActiveFactor(s, account).Some? {
      UntouchedKeeps(s, t, [ProofAccepted(challenge, account, Challenged(newId))], a);
    } else if t != s {
      UntouchedKeeps(s, t, [ProofAccepted(challenge, account, Seated(newId)), SessionIssued(newId, now)], a);
    }
  }

  lemma LoginFinishKeeps(k: Checks, s: Auth, challenge: Id, cn: string, sn: string, final: string, proof: string,
                         newId: Id, token: string, now: nat, a: Id)
    requires Conserved(s, a)
    ensures Conserved(DoLoginFinish(k, s, challenge, cn, sn, final, proof, newId, token, now), a)
  {
    if Available(s, challenge, LoginChallenge, now) && ProofGood(k, s, challenge, final, proof) {
      AdmitProofKeeps(s, challenge, s.challenges[challenge], newId, token, now, a);
    }
  }

  lemma TotpVerifyKeeps(k: Checks, s: Auth, challenge: Id, code: string, session: Id, token: string, now: nat, a: Id)
    requires Conserved(s, a)
    ensures Conserved(DoTotpVerify(k, s, challenge, code, session, token, now), a)
  {
    var t := DoTotpVerify(k, s, challenge, code, session, token, now);
    if t != s {
      var account := s.challenges[challenge].accountId.value;
      var g := ActiveFactor(s, account).value;
      match Judge(k, s.factors[g].seed, now, code, s.factors[g].lastStep)
      case None => UntouchedKeeps(s, t, [Judged(challenge)], a);
      case Some(step) => UntouchedKeeps(s, t, LoginEvents(challenge, g, account, step, session, now), a);
    }
  }

  lemma LoadKeeps(s: Auth, id: Id, now: nat, a: Id)
    requires Conserved(s, a) && id in s.sessions
    ensures Conserved(DoLoadRow(s, id, now), a)
  {
    var t := DoLoadRow(s, id, now);
    if t.history != s.history {
      UntouchedKeeps(s, t, [SessionReturned(id, now)], a);
    }
  }

  lemma RefreshKeeps(s: Auth, r: Current, a: Id)
    requires Conserved(s, a)
    ensures Conserved(DoRefresh(s, r), a)
  {
    if r.sessionId in s.sessions {
      UntouchedKeeps(s, DoRefresh(s, r), [Active(r.sessionId, r.now)], a);
    }
  }

  lemma OpenVaultKeeps(s: Auth, r: Current, a: Id)
    requires Conserved(s, a)
    ensures Conserved(DoOpenVault(s, r), a)
  {
    if r.state == MfaVerified {
      UntouchedKeeps(s, DoOpenVault(s, r), [VaultOpened(r.accountId, r.sessionId, r.now)], a);
    }
  }

  /** Steps that touch neither recovery codes nor the history. */
  predicate Away(act: Action) {
    Elsewhere(act) || act.RegisterStart? || act.LoginStart?
  }

  lemma AwayKeeps(k: Checks, s: Auth, act: Action, a: Id)
    requires Conserved(s, a) && Away(act)
    ensures Conserved(Next(k, s, act), a)
  {
    if Elsewhere(act) {
      ElsewhereFrame(k, s, act);
    }
    UntouchedKeeps(s, Next(k, s, act), [], a);
  }

  lemma NextKeeps(k: Checks, s: Auth, act: Action, a: Id)
    requires Conserved(s, a)
    ensures Conserved(Next(k, s, act), a)
  {
    if Away(act) {
      AwayKeeps(k, s, act, a);
    } else {
      match act
      case RegisterFinish(ch, account, session, token, key, now) =>
        RegisterFinishKeeps(s, ch, account, session, token, key, now, a);
      case LoginFinish(ch, cn, sn, final, proof, newId, token, now) =>
        LoginFinishKeeps(k, s, ch, cn, sn, final, proof, newId, token, now, a);
      case TotpVerify(ch, code, session, token, now) => TotpVerifyKeeps(k, s, ch, code, session, token, now, a);
      case RecoveryVerify(ch, code, pick, session, token, now) =>
        if MayTry(s, ch, now) && MayMatch(k, s, s.challenges[ch].accountId.value, code, pick) {
          RecoveryVerifyKeeps(k, s, ch, code, pick, session, token, now, a);
        }
      case LoadSession(token, now) =>
        if LiveSession(s, token).Some? {
          LoadKeeps(s, LiveSession(s, token).value, now, a);
        }
      case Refresh(r) => RefreshKeeps(s, r, a);
      case EnrollConfirm(r, factor, code, token, codes) => EnrollConfirmKeeps(k, s, r, factor, code, token, codes, a);
      case OpenVault(r) => OpenVaultKeeps(s, r, a);
    }
  }

  lemma {:induction false} RunKeeps(k: Checks, clock: nat, actions: seq<Action>, a: Id)
    ensures Conserved(Run(k, Start(clock), actions), a)
    decreases |actions|
  {
    if actions != [] {
      var n := |actions| - 1;
      RunKeeps(k, clock, actions[..n], a);
      NextKeeps(k, Run(k, Start(clock), actions[..n]), actions[n], a);
    }
  }

  /** Once an account has confirmed an enrolment, its unused codes and the recovery sessions issued since the last
      confirmation always make ten; before that it has neither. */
  lemma CodesAreConserved(k: Checks, s: Auth, a: Id)
    requires Reachable(k, s)
    ensures Count(s.history, IssuedTo(a)) > 0 ==> |Unused(s.codes, a)| + Since(s.history, a) == 10
    ensures Count(s.history, IssuedTo(a)) == 0 ==> Unused(s.codes, a) == {} && Count(s.history, UsedBy(a)) == 0
  {
    var clock: nat, actions :| s == Run(k, Start(clock), actions);
    RunKeeps(k, clock, actions, a);
  }

  /** An account never gets more recovery sessions than ten for each confirmed enrolment. */
  lemma RecoverySessionsAreBounded(k: Checks, s: Auth, a: Id)
    requires Reachable(k, s)
    ensures Count(s.history, UsedBy(a)) <= 10 * Count(s.history, IssuedTo(a))
  {
    var clock: nat, actions :| s == Run(k, Start(clock), actions);
    RunKeeps(k, clock, actions, a);
  }
}
