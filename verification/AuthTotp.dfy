/** One-time codes over whole runs: what a factor accepts only ever moves forward in time. */
module AuthTotp {
  import opened Results
  import opened Totp
  import opened AuthModel
  import opened AuthHistory

  datatype Use = Use(step: nat, now: nat)

  predicate Accepts(e: Event, f: Id) {
    e.TotpAccepted? && e.factor == f
  }

  /** The steps accepted for a factor, at its confirmation and at logins, in order. */
  function Uses(h: seq<Event>, f: Id): seq<Use> {
    if h == [] then []
    else
      var e, before := h[|h| - 1], Uses(h[..|h| - 1], f);
      if Accepts(e, f) then before + [Use(e.step, e.now)] else before
  }

  function PendingOn(f: Id): Event -> bool {
    (e: Event) => e == PendingJudged(f)
  }

  predicate Increasing(uses: seq<Use>) {
    forall i, j :: 0 <= i < j < |uses| ==> uses[i].step < uses[j].step
  }

  /** The step is the one of the moment, or a neighbour. */
  predicate Timely(u: Use) {
    u.now / TOTP_PERIOD - 1 <= u.step <= u.now / TOTP_PERIOD + 1
  }

  function LastStep(uses: seq<Use>): Option<nat> {
    if uses == [] then None else Some(uses[|uses| - 1].step)
  }

  predicate FactorRow(row: Factor, uses: seq<Use>, pending: nat) {
    && row.lastStep == LastStep(uses)
    && (row.verified <==> uses != [])
    && (!row.verified ==> pending == 0)
  }

  function Pendings(s: Auth, f: Id): nat { Count(s.history, PendingOn(f)) }

  predicate Disciplined(uses: seq<Use>) {
    Increasing(uses) && forall i :: 0 <= i < |uses| ==> Timely(uses[i])
  }

  predicate Burning(s: Auth, f: Id) {
    && Disciplined(Uses(s.history, f))
    && Pendings(s, f) <= 1
    && (f !in s.used ==> f !in s.factors && Uses(s.history, f) == [] && Pendings(s, f) == 0)
    && (f in s.factors ==> FactorRow(s.factors[f], Uses(s.history, f), Pendings(s, f)))
  }

  // ----- appending to the history -----

  lemma UsesSnoc(h: seq<Event>, e: Event, f: Id)
    ensures Uses(h + [e], f) == if Accepts(e, f) then Uses(h, f) + [Use(e.step, e.now)] else Uses(h, f)
  {
    assert (h + [e])[..|h|] == h;
  }

  lemma {:induction false} UsesMiss(h: seq<Event>, es: seq<Event>, f: Id)
    requires forall i :: 0 <= i < |es| ==> !Accepts(es[i], f)
    ensures Uses(h + es, f) == Uses(h, f)
  {
    if es == [] {
      assert h + es == h;
    } else {
      var n := |es| - 1;
      UsesMiss(h, es[..n], f);
      UsesSnoc(h + es[..n], es[n], f);
      assert (h + es[..n]) + [es[n]] == h + es;
    }
  }

  lemma UsesHit(h: seq<Event>, es: seq<Event>, k: nat, f: Id)
    requires k < |es| && Accepts(es[k], f)
    requires forall i :: 0 <= i < |es| && i != k ==> !Accepts(es[i], f)
    ensures Uses(h + es, f) == Uses(h, f) + [Use(es[k].step, es[k].now)]
  {
    var before, after := es[..k], es[k + 1..];
    UsesMiss(h, before, f);
    UsesSnoc(h + before, es[k], f);
    UsesMiss(h + before + [es[k]], after, f);
    assert h + before + [es[k]] + after == h + es;
  }

  predicate Silent(e: Event, f: Id) {
    !Accepts(e, f) && !PendingOn(f)(e)
  }

  lemma NothingUsed(s: Auth, t: Auth, es: seq<Event>, f: Id)
    requires t.history == s.history + es
    requires forall i :: 0 <= i < |es| ==> Silent(es[i], f)
    ensures Uses(t.history, f) == Uses(s.history, f) && Pendings(t, f) == Pendings(s, f)
  {
    UsesMiss(s.history, es, f);
    CountMiss(s.history, es, PendingOn(f));
  }

  /** The row, if it is still there, is what it was. */
  lemma UntouchedKeeps(s: Auth, t: Auth, es: seq<Event>, f: Id)
    requires Burning(s, f) && s.used <= t.used && t.history == s.history + es
    requires forall i :: 0 <= i < |es| ==> Silent(es[i], f)
    requires f in t.factors ==> f in s.factors && t.factors[f] == s.factors[f]
    ensures Burning(t, f)
  {
    NothingUsed(s, t, es, f);
  }

  // ----- judging a code -----

  /** An accepted step is in the window around the clock and above every step accepted before. */
  lemma JudgeIsTimely(k: Checks, seed: string, now: nat, code: string, last: Option<nat>)
    requires Judge(k, seed, now, code, last).Some?
    ensures |code| == 6 && now / 30 - 1 <= Judge(k, seed, now, code, last).value <= now / 30 + 1
    ensures k.codeAt(seed, Judge(k, seed, now, code, last).value) == code
    ensures last.Some? ==> last.value < Judge(k, seed, now, code, last).value
  {
    var codeAt := (step: nat) => k.codeAt(seed, step);
    var r := AcceptStep(codeAt, now / TOTP_PERIOD, last, code);
    assert r == Judge(k, seed, now, code, last);
    assert Acceptable(codeAt, now / TOTP_PERIOD, last, code, r.value);
  }

  lemma DisciplinedSnoc(uses: seq<Use>, u: Use)
    requires Disciplined(uses) && Timely(u) && (uses != [] ==> uses[|uses| - 1].step < u.step)
    ensures Disciplined(uses + [u])
  {
    forall i, j | 0 <= i < j < |uses + [u]| ensures (uses + [u])[i].step < (uses + [u])[j].step {
      if j == |uses| && i < |uses| - 1 {
        assert uses[i].step < uses[|uses| - 1].step;
      }
    }
  }

  /** The code of factor f was accepted and the step written to its row. */
  lemma AcceptingKeeps(s: Auth, t: Auth, es: seq<Event>, k: nat, f: Id)
    requires Burning(s, f) && f in s.factors && f in t.factors && s.used <= t.used && t.history == s.history + es
    requires k < |es| && Accepts(es[k], f) && (forall i :: 0 <= i < |es| && i != k ==> !Accepts(es[i], f))
    requires Timely(Use(es[k].step, es[k].now))
    requires s.factors[f].lastStep.Some? ==> s.factors[f].lastStep.value < es[k].step
    requires t.factors[f].lastStep == Some(es[k].step) && t.factors[f].verified
    requires Pendings(t, f) <= 1
    ensures Burning(t, f)
  {
    UsesHit(s.history, es, k, f);
    assert f in s.used;
    DisciplinedSnoc(Uses(s.history, f), Use(es[k].step, es[k].now));
  }

  // ----- the steps -----

  lemma AdmitProofKeeps(s: Auth, challenge: Id, ch: Challenge, newId: Id, token: string, now: nat, f: Id)
    requires Burning(s, f) && ch.accountId.Some?
    ensures Burning(DoAdmitProof(s, challenge, ch, newId, token, now), f)
  {
    var t, account := DoAdmitProof(s, challenge, ch, newId, token, now), ch.accountId.value;
    if ActiveFactor(s, account).Some? {
      UntouchedKeeps(s, t, [ProofAccepted(challenge, account, Challenged(newId))], f);
    } else if t != s {
      UntouchedKeeps(s, t, [ProofAccepted(challenge, account, Seated(newId)), SessionIssued(newId, now)], f);
    }
  }

  lemma LoginFinishKeeps(k: Checks, s: Auth, challenge: Id, cn: string, sn: string, final: string, proof: string,
                         newId: Id, token: string, now: nat, f: Id)
    requires Burning(s, f)
    ensures Burning(DoLoginFinish(k, s, challenge, cn, sn, final, proof, newId, token, now), f)
  {
    if Available(s, challenge, LoginChallenge, now) && ProofGood(k, s, challenge, final, proof) {
      AdmitProofKeeps(s, challenge, s.challenges[challenge], newId, token, now, f);
    }
  }

  lemma RegisterFinishKeeps(s: Auth, challenge: Id, account: Id, session: Id, token: string, key: string, now: nat,
                            f: Id)
    requires Burning(s, f)
    ensures Burning(DoRegisterFinish(s, challenge, account, session, token, key, now), f)
  {
    var t := DoRegisterFinish(s, challenge, account, session, token, key, now);
    if t != s {
      UntouchedKeeps(s, t, [Registered(account, session), SessionIssued(session, now)], f);
    }
  }

  lemma AcceptCodeKeeps(s: Auth, challenge: Id, g: Id, account: Id, step: nat, session: Id, token: string, now: nat,
                        f: Id)
    requires Burning(s, f) && challenge in s.challenges && g in s.factors && s.factors[g].verified
    requires Timely(Use(step, now)) && (s.factors[g].lastStep.Some? ==> s.factors[g].lastStep.value < step)
    ensures Burning(DoAcceptCode(s, challenge, g, account, step, session, token, now), f)
  {
    var t, es := DoAcceptCode(s, challenge, g, account, step, session, token, now),
                 LoginEvents(challenge, g, account, step, session, now);
    if f == g {
      CountMiss(s.history, es, PendingOn(f));
      AcceptingKeeps(s, t, es, 1, f);
    } else {
      UntouchedKeeps(s, t, es, f);
    }
  }

  lemma TotpVerifyKeeps(k: Checks, s: Auth, challenge: Id, code: string, session: Id, token: string, now: nat, f: Id)
    requires Burning(s, f)
    ensures Burning(DoTotpVerify(k, s, challenge, code, session, token, now), f)
  {
    var t := DoTotpVerify(k, s, challenge, code, session, token, now);
    if t != s {
      var account := s.challenges[challenge].accountId.value;
      var g := ActiveFactor(s, account).value;
      match Judge(k, s.factors[g].seed, now, code, s.factors[g].lastStep)
      case None => UntouchedKeeps(s, t, [Judged(challenge)], f);
      case Some(step) =>
        JudgeIsTimely(k, s.factors[g].seed, now, code, s.factors[g].lastStep);
        AcceptCodeKeeps(s, challenge, g, account, step, session, token, now, f);
    }
  }

  lemma RecoveryVerifyKeeps(s: Auth, challenge: Id, pick: Option<Id>, session: Id, token: string, now: nat, f: Id)
    requires Burning(s, f) && MayTry(s, challenge, now)
    ensures Burning(DoRecoveryVerify(s, challenge, pick, session, token, now), f)
  {
    var t := DoRecoveryVerify(s, challenge, pick, session, token, now);
    if t != s {
      var es := if pick.None? then [Judged(challenge)]
                else [Judged(challenge), RecoveryUsed(challenge, s.challenges[challenge].accountId.value, session),
                      SessionIssued(session, now)];
      assert t.history == s.history + es;
      UntouchedKeeps(s, t, es, f);
    }
  }

  lemma EnrollStartKeeps(s: Auth, r: Current, factor: Id, seed: string, f: Id)
    requires Burning(s, f)
    ensures Burning(DoEnrollStart(s, r, factor, seed), f)
  {
    var t := DoEnrollStart(s, r, factor, seed);
    if f != factor {
      UntouchedKeeps(s, t, [], f);
    }
  }

  lemma ConfirmRefusedKeeps(s: Auth, g: Id, f: Id)
    requires Burning(s, f) && g in s.factors && !s.factors[g].verified
    ensures Burning(s.(factors := s.factors - {g}, history := s.history + [PendingJudged(g)]), f)
  {
    var t := s.(factors := s.factors - {g}, history := s.history + [PendingJudged(g)]);
    if f == g {
      UsesMiss(s.history, [PendingJudged(g)], f);
      CountHit(s.history, [PendingJudged(g)], 0, PendingOn(f));
    } else {
      UntouchedKeeps(s, t, [PendingJudged(g)], f);
    }
  }

  lemma EnrollKeeps(s: Auth, r: Current, g: Id, step: nat, token: string, codes: seq<NewCode>, f: Id)
    requires Burning(s, f) && g in s.factors && !s.factors[g].verified
    requires Timely(Use(step, r.now)) && (s.factors[g].lastStep.Some? ==> s.factors[g].lastStep.value < step)
    ensures Burning(DoEnroll(s, r, g, step, token, codes), f)
  {
    var t, es := DoEnroll(s, r, g, step, token, codes), ConfirmEvents(r, g, step, r.sessionId in s.sessions);
    if f == g {
      CountHit(s.history, es, 0, PendingOn(f));
      AcceptingKeeps(s, t, es, 1, f);
    } else {
      UntouchedKeeps(s, t, es, f);
    }
  }

  lemma EnrollConfirmKeeps(k: Checks, s: Auth, r: Current, g: Id, code: string, token: string, codes: seq<NewCode>,
                           f: Id)
    requires Burning(s, f)
    ensures Burning(DoEnrollConfirm(k, s, r, g, code, token, codes), f)
  {
    if DoEnrollConfirm(k, s, r, g, code, token, codes) != s {
      match Judge(k, s.factors[g].seed, r.now, code, s.factors[g].lastStep)
      case None => ConfirmRefusedKeeps(s, g, f);
      case Some(step) =>
        JudgeIsTimely(k, s.factors[g].seed, r.now, code, s.factors[g].lastStep);
        EnrollKeeps(s, r, g, step, token, codes, f);
    }
  }

  lemma LoadKeeps(s: Auth, id: Id, now: nat, f: Id)
    requires Burning(s, f) && id in s.sessions
    ensures Burning(DoLoadRow(s, id, now), f)
  {
    var t := DoLoadRow(s, id, now);
    if t.history != s.history {
      UntouchedKeeps(s, t, [SessionReturned(id, now)], f);
    }
  }

  lemma RefreshKeeps(s: Auth, r: Current, f: Id)
    requires Burning(s, f)
    ensures Burning(DoRefresh(s, r), f)
  {
    if r.sessionId in s.sessions {
      UntouchedKeeps(s, DoRefresh(s, r), [Active(r.sessionId, r.now)], f);
    }
  }

  lemma OpenVaultKeeps(s: Auth, r: Current, f: Id)
    requires Burning(s, f)
    ensures Burning(DoOpenVault(s, r), f)
  {
    if r.state == MfaVerified {
      UntouchedKeeps(s, DoOpenVault(s, r), [VaultOpened(r.accountId, r.sessionId, r.now)], f);
    }
  }

  /** Steps that touch neither factors nor the history. */
  predicate Away(a: Action) {
    a.Tick? || a.RegisterStart? || a.LoginStart? || a.Revoke? || a.Logout? || a.Cleanup?
  }

  lemma AwayKeeps(k: Checks, s: Auth, a: Action, f: Id)
    requires Burning(s, f) && Away(a)
    ensures Burning(Next(k, s, a), f)
  {
    UntouchedKeeps(s, Next(k, s, a), [], f);
  }

  lemma NextKeeps(k: Checks, s: Auth, a: Action, f: Id)
    requires Burning(s, f)
    ensures Burning(Next(k, s, a), f)
  {
    if Away(a) {
      AwayKeeps(k, s, a, f);
    } else {
      match a
      case RegisterFinish(ch, account, session, token, key, now) =>
        RegisterFinishKeeps(s, ch, account, session, token, key, now, f);
      case LoginFinish(ch, cn, sn, final, proof, newId, token, now) =>
        LoginFinishKeeps(k, s, ch, cn, sn, final, proof, newId, token, now, f);
      case TotpVerify(ch, code, session, token, now) => TotpVerifyKeeps(k, s, ch, code, session, token, now, f);
      case RecoveryVerify(ch, code, pick, session, token, now) =>
        if MayTry(s, ch, now) {
          RecoveryVerifyKeeps(s, ch, pick, session, token, now, f);
        }
      case LoadSession(token, now) =>
        if LiveSession(s, token).Some? {
          LoadKeeps(s, LiveSession(s, token).value, now, f);
        }
      case Refresh(r) => RefreshKeeps(s, r, f);
      case EnrollStart(r, factor, seed) => EnrollStartKeeps(s, r, factor, seed, f);
      case EnrollConfirm(r, factor, code, token, codes) => EnrollConfirmKeeps(k, s, r, factor, code, token, codes, f);
      case OpenVault(r) => OpenVaultKeeps(s, r, f);
    }
  }

  lemma {:induction false} RunKeeps(k: Checks, clock: nat, actions: seq<Action>, f: Id)
    ensures Burning(Run(k, Start(clock), actions), f)
    decreases |actions|
  {
    if actions != [] {
      var n := |actions| - 1;
      RunKeeps(k, clock, actions[..n], f);
      NextKeeps(k, Run(k, Start(clock), actions[..n]), actions[n], f);
    }
  }

  /** The steps a factor accepts strictly increase over the whole run, its row remembers the last, and it is judged by
      at most one confirmation code. */
  lemma StepsOnlyIncrease(k: Checks, s: Auth, f: Id)
    requires Reachable(k, s)
    ensures Increasing(Uses(s.history, f))
    ensures f in s.factors ==> s.factors[f].lastStep == LastStep(Uses(s.history, f))
    ensures f in s.factors ==> (s.factors[f].verified <==> Uses(s.history, f) != [])
    ensures Count(s.history, PendingOn(f)) <= 1
  {
    var clock: nat, actions :| s == Run(k, Start(clock), actions);
    RunKeeps(k, clock, actions, f);
  }

  // ----- a pending factor has one try -----

  /** The factor's row was dropped. */
  predicate Gone(s: Auth, f: Id) {
    f in s.used && f !in s.factors
  }

  lemma CodeStaysGone(k: Checks, s: Auth, challenge: Id, code: string, session: Id, token: string, now: nat, f: Id)
    requires Gone(s, f)
    ensures Gone(DoTotpVerify(k, s, challenge, code, session, token, now), f)
  {
  }

  lemma ConfirmStaysGone(k: Checks, s: Auth, r: Current, g: Id, code: string, token: string, codes: seq<NewCode>, f: Id)
    requires Gone(s, f)
    ensures Gone(DoEnrollConfirm(k, s, r, g, code, token, codes), f)
  {
  }

  lemma FinishStaysGone(k: Checks, s: Auth, challenge: Id, cn: string, sn: string, final: string, proof: string,
                        newId: Id, token: string, now: nat, f: Id)
    requires Gone(s, f)
    ensures Gone(DoLoginFinish(k, s, challenge, cn, sn, final, proof, newId, token, now), f)
  {
  }

  lemma NextStaysGone(k: Checks, s: Auth, a: Action, f: Id)
    requires Gone(s, f)
    ensures Gone(Next(k, s, a), f)
  {
    match a
    case LoginFinish(ch, cn, sn, final, proof, newId, token, now) =>
      FinishStaysGone(k, s, ch, cn, sn, final, proof, newId, token, now, f);
    case TotpVerify(ch, code, session, token, now) => CodeStaysGone(k, s, ch, code, session, token, now, f);
    case EnrollConfirm(r, g, code, token, codes) => ConfirmStaysGone(k, s, r, g, code, token, codes, f);
    case _ =>
  }

  lemma {:induction false} RunStaysGone(k: Checks, s: Auth, actions: seq<Action>, f: Id)
    requires Gone(s, f)
    ensures Gone(Run(k, s, actions), f)
    decreases |actions|
  {
    if actions != [] {
      var n := |actions| - 1;
      RunStaysGone(k, s, actions[..n], f);
      NextStaysGone(k, Run(k, s, actions[..n]), actions[n], f);
    }
  }

  /** One wrong confirmation code ends an enrolment: the pending factor is gone, and no later confirmation of it, right
      or wrong, does anything in any run. */
  lemma OneTryPerPendingFactor(k: Checks, s: Auth, wrong: Action, actions: seq<Action>, again: Action)
    requires Reachable(k, s) && wrong.EnrollConfirm? && wrong.request in s.requests
    requires var f := wrong.factor;
             && wrong.request.state != MfaVerified && f in s.factors && !s.factors[f].verified
             && s.factors[f].accountId == wrong.request.accountId
             && Judge(k, s.factors[f].seed, wrong.request.now, wrong.code, s.factors[f].lastStep).None?
    requires again.EnrollConfirm? && again.factor == wrong.factor
    ensures var later := Run(k, Next(k, s, wrong), actions);
            wrong.factor !in later.factors && Next(k, later, again) == later
  {
    var clock: nat, before :| s == Run(k, Start(clock), before);
    RunKeeps(k, clock, before, wrong.factor);
    RunStaysGone(k, Next(k, s, wrong), actions, wrong.factor);
  }

  // ----- the bound -----

  function UsedWithin(f: Id, from: nat, to: nat): Event -> bool {
    (e: Event) => Accepts(e, f) && from <= e.now <= to
  }

  function Within(from: nat, to: nat): Use -> bool {
    (u: Use) => from <= u.now <= to
  }

  lemma {:induction false} SameCount(h: seq<Event>, f: Id, from: nat, to: nat)
    ensures Count(h, UsedWithin(f, from, to)) == Count(Uses(h, f), Within(from, to))
  {
    if h != [] {
      var before, e := h[..|h| - 1], h[|h| - 1];
      SameCount(before, f, from, to);
      if Accepts(e, f) {
        CountSnoc(Uses(before, f), Use(e.step, e.now), Within(from, to));
      }
    }
  }

  /** Strictly increasing steps between two bounds are no more than the steps there are. */
  lemma {:induction false} Pigeonhole(uses: seq<Use>, from: nat, to: nat, low: int, high: int)
    requires Increasing(uses)
    requires forall i :: 0 <= i < |uses| && Within(from, to)(uses[i]) ==> low <= uses[i].step <= high
    ensures Count(uses, Within(from, to)) <= if low <= high then high - low + 1 else 0
  {
    if uses != [] {
      var before, last := uses[..|uses| - 1], uses[|uses| - 1];
      if Within(from, to)(last) {
        Pigeonhole(before, from, to, low, last.step - 1);
      } else {
        Pigeonhole(before, from, to, low, high);
      }
    }
  }

  lemma TimelyWithin(u: Use, from: nat, to: nat)
    requires Timely(u) && from <= u.now <= to
    ensures from / TOTP_PERIOD - 1 <= u.step <= to / TOTP_PERIOD + 1
  {
  }

  /** Between two moments a factor accepts at most three codes more than the time steps between them. */
  lemma CodesAreBounded(k: Checks, s: Auth, f: Id, from: nat, to: nat)
    requires Reachable(k, s) && from <= to
    ensures Count(s.history, UsedWithin(f, from, to)) <= to / 30 - from / 30 + 3
  {
    var clock: nat, actions :| s == Run(k, Start(clock), actions);
    RunKeeps(k, clock, actions, f);
    var uses := Uses(s.history, f);
    forall i | 0 <= i < |uses| && Within(from, to)(uses[i])
      ensures from / TOTP_PERIOD - 1 <= uses[i].step <= to / TOTP_PERIOD + 1
    {
      TimelyWithin(uses[i], from, to);
    }
    SameCount(s.history, f, from, to);
    Pigeonhole(uses, from, to, from / TOTP_PERIOD - 1, to / TOTP_PERIOD + 1);
  }
}
