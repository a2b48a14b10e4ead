/** A challenge only wears out: its row is never rewritten, only consumed, and what has closed it stays. */
module AuthChallenges {
  import opened Results
  import opened AuthModel
  import opened AuthHistory
  import opened AuthBudgets

  /** The same challenge later on: nothing but its counter and its mark of use may have moved, and only forward. */
  predicate Worn(was: Challenge, now: Challenge) {
    && now.(attempts := was.attempts, consumed := was.consumed) == was
    && was.attempts <= now.attempts && (was.consumed ==> now.consumed)
  }

  /** The row is gone, or is the same challenge worn. */
  predicate Wears(s: Auth, t: Auth, c: Id) {
    c in s.used ==> c in t.used && (c in t.challenges ==> c in s.challenges && Worn(s.challenges[c], t.challenges[c]))
  }

  lemma AdmitWears(s: Auth, challenge: Id, ch: Challenge, newId: Id, token: string, now: nat, c: Id)
    requires challenge in s.challenges && ch == s.challenges[challenge] && ch.accountId.Some? && newId !in s.used
    ensures Wears(s, DoAdmitProof(s, challenge, ch, newId, token, now), c)
  {
  }

  lemma FinishWears(k: Checks, s: Auth, challenge: Id, cn: string, sn: string, final: string, proof: string, newId: Id,
                    token: string, now: nat, c: Id)
    ensures Wears(s, DoLoginFinish(k, s, challenge, cn, sn, final, proof, newId, token, now), c)
  {
    if Available(s, challenge, LoginChallenge, now) && ProofGood(k, s, challenge, final, proof) && newId !in s.used {
      AdmitWears(s, challenge, s.challenges[challenge], newId, token, now, c);
    }
  }

  lemma VerifyWears(k: Checks, s: Auth, challenge: Id, code: string, session: Id, token: string, now: nat, c: Id)
    ensures Wears(s, DoTotpVerify(k, s, challenge, code, session, token, now), c)
  {
  }

  lemma RecoveryWears(s: Auth, challenge: Id, pick: Option<Id>, session: Id, token: string, now: nat, c: Id)
    requires MayTry(s, challenge, now)
    ensures Wears(s, DoRecoveryVerify(s, challenge, pick, session, token, now), c)
  {
  }

  lemma ConfirmWears(k: Checks, s: Auth, r: Current, g: Id, code: string, token: string, codes: seq<NewCode>, c: Id)
    ensures Wears(s, DoEnrollConfirm(k, s, r, g, code, token, codes), c)
  {
  }

  lemma LightWears(k: Checks, s: Auth, a: Action, c: Id)
    requires !Elsewhere(a) && !Weighty(a)
    ensures Wears(s, Next(k, s, a), c)
  {
    match a
    case RegisterStart(_, _, _) =>
    case LoginStart(_, _, _, _, _) =>
    case LoadSession(_, _) =>
    case Refresh(_) =>
    case OpenVault(_) =>
  }

  lemma NextWears(k: Checks, s: Auth, a: Action, c: Id)
    ensures Wears(s, Next(k, s, a), c)
  {
    if Elsewhere(a) {
      ElsewhereFrame(k, s, a);
      assert c in Next(k, s, a).challenges ==> SameChallenge(s, Next(k, s, a), c);
    } else if !Weighty(a) {
      LightWears(k, s, a, c);
    } else {
      match a
      case RegisterFinish(_, _, _, _, _, _) =>
      case LoginFinish(ch, cn, sn, final, proof, newId, token, now) =>
        FinishWears(k, s, ch, cn, sn, final, proof, newId, token, now, c);
      case TotpVerify(ch, code, session, token, now) => VerifyWears(k, s, ch, code, session, token, now, c);
      case RecoveryVerify(ch, _, pick, session, token, now) =>
        if MayTry(s, ch, now) {
          RecoveryWears(s, ch, pick, session, token, now, c);
        }
      case EnrollConfirm(r, g, code, token, codes) => ConfirmWears(k, s, r, g, code, token, codes, c);
    }
  }

  /** Whatever happens, a challenge that is still there is the one that was issued. */
  lemma {:induction false} RunWears(k: Checks, s: Auth, actions: seq<Action>, c: Id)
    ensures Wears(s, Run(k, s, actions), c)
    decreases |actions|
  {
    if actions != [] {
      var n := |actions| - 1;
      RunWears(k, s, actions[..n], c);
      NextWears(k, Run(k, s, actions[..n]), actions[n], c);
    }
  }

  // ----- closed for good -----

  /** No request can act on the challenge any more. */
  predicate Closed(s: Auth, c: Id) {
    c in s.used && (c in s.challenges ==> s.challenges[c].consumed)
  }

  /** The request acts on this challenge, or would. */
  predicate ActsOn(a: Action, c: Id) {
    (a.RegisterFinish? || a.LoginFinish? || a.TotpVerify? || a.RecoveryVerify?) && a.challenge == c
  }

  /** A consumed challenge stays so, and every request on it afterwards, whichever handler it goes to, changes
      nothing. */
  lemma ClosedIsFinal(k: Checks, s: Auth, actions: seq<Action>, c: Id, a: Action)
    requires Closed(s, c) && ActsOn(a, c)
    ensures Closed(Run(k, s, actions), c)
    ensures Next(k, Run(k, s, actions), a) == Run(k, s, actions)
  {
    RunWears(k, s, actions, c);
  }

  /** Nor does one that comes after the challenge has expired. */
  lemma ExpiredIsFinal(k: Checks, s: Auth, actions: seq<Action>, c: Id, a: Action)
    requires c in s.used && c in s.challenges && ActsOn(a, c) && a.now > s.challenges[c].expiresAt
    ensures Next(k, Run(k, s, actions), a) == Run(k, s, actions)
  {
    RunWears(k, s, actions, c);
  }

  lemma RowsAreUsed(k: Checks, s: Auth, c: Id)
    requires Reachable(k, s) && c in s.challenges
    ensures c in s.used
  {
    var clock: nat, actions :| s == Run(k, Start(clock), actions);
    RunKeeps(k, clock, actions, c);
  }

  // ----- what closes a challenge -----

  /** A finish that reaches its open challenge with other nonces, or with a proof that does not verify. */
  predicate FailsAt(k: Checks, s: Auth, a: Action) {
    && a.LoginFinish? && a.now <= s.clock && Available(s, a.challenge, LoginChallenge, a.now)
    && (s.challenges[a.challenge].clientNonce != a.clientNonce || s.challenges[a.challenge].serverNonce != a.serverNonce
        || !ProofGood(k, s, a.challenge, a.clientFinal, a.proof))
  }

  lemma FailingCloses(k: Checks, s: Auth, a: Action)
    requires FailsAt(k, s, a) && a.challenge in s.used
    ensures Closed(Next(k, s, a), a.challenge) && Next(k, s, a).history == s.history
  {
  }

  /** One wrong guess at the password closes the challenge: after it no finish on the challenge, right or wrong, and no
      other request on it, has any effect in any run. */
  lemma OneGuessPerChallenge(k: Checks, s: Auth, guess: Action, actions: seq<Action>, a: Action)
    requires Reachable(k, s) && FailsAt(k, s, guess) && ActsOn(a, guess.challenge)
    ensures var later := Run(k, Next(k, s, guess), actions);
            Closed(later, guess.challenge) && Next(k, later, a) == later
  {
    RowsAreUsed(k, s, guess.challenge);
    FailingCloses(k, s, guess);
    ClosedIsFinal(k, Next(k, s, guess), actions, guess.challenge, a);
  }

  // ----- wrong codes -----

  /** A TOTP or recovery code is tried on an open pre-MFA challenge and is wrong. */
  ghost predicate GuessesWrong(k: Checks, s: Auth, a: Action) {
    && (a.TotpVerify? || a.RecoveryVerify?) && a.now <= s.clock && MayTry(s, a.challenge, a.now)
    && var account := s.challenges[a.challenge].accountId.value;
       match a
       case TotpVerify(_, code, _, _, now) =>
         var f := ActiveFactor(s, account);
         f.Some? && Judge(k, s.factors[f.value].seed, now, code, s.factors[f.value].lastStep).None?
       case RecoveryVerify(_, code, pick, _, _, _) => pick.None? && MayMatch(k, s, account, code, pick)
       case _ => false
  }

  /** How many steps of the run guess wrong on this challenge. */
  ghost function WrongGuesses(k: Checks, clock: nat, actions: seq<Action>, c: Id): nat
    decreases |actions|
  {
    if actions == [] then 0
    else
      var init, last := actions[..|actions| - 1], actions[|actions| - 1];
      WrongGuesses(k, clock, init, c)
      + if GuessesWrong(k, Run(k, Start(clock), init), last) && last.challenge == c then 1 else 0
  }

  lemma HistoryGrows(k: Checks, s: Auth, a: Action)
    ensures s.history <= Next(k, s, a).history
  {
    if Elsewhere(a) {
      ElsewhereFrame(k, s, a);
    } else if !Weighty(a) {
      LightGrows(k, s, a);
    } else {
      match a
      case RegisterFinish(_, _, _, _, _, _) =>
      case LoginFinish(_, _, _, _, _, _, _, _) =>
      case TotpVerify(_, _, _, _, _) =>
      case RecoveryVerify(_, _, _, _, _, _) =>
      case EnrollConfirm(_, _, _, _, _) =>
    }
  }

  lemma LightGrows(k: Checks, s: Auth, a: Action)
    requires !Elsewhere(a) && !Weighty(a)
    ensures s.history <= Next(k, s, a).history
  {
    match a
    case RegisterStart(_, _, _) =>
    case LoginStart(_, _, _, _, _) =>
    case LoadSession(_, _) =>
    case Refresh(_) =>
    case OpenVault(_) =>
  }

  lemma {:induction false} CountGrows(h: seq<Event>, more: seq<Event>, q: Event -> bool)
    ensures Count(h, q) <= Count(h + more, q)
  {
    if more == [] {
      assert h + more == h;
    } else {
      var n := |more| - 1;
      CountGrows(h, more[..n], q);
      CountSnoc(h + more[..n], more[n], q);
      assert (h + more[..n]) + [more[n]] == h + more;
    }
  }

  lemma GuessIsCounted(k: Checks, s: Auth, a: Action)
    requires GuessesWrong(k, s, a)
    ensures Judgements(Next(k, s, a), a.challenge) == Judgements(s, a.challenge) + 1
  {
    assert Next(k, s, a) == WrongCode(s, a.challenge);
    CountSnoc(s.history, Judged(a.challenge), JudgedOn(a.challenge));
  }

  lemma {:induction false} GuessesAreCounted(k: Checks, clock: nat, actions: seq<Action>, c: Id)
    ensures WrongGuesses(k, clock, actions, c) <= Judgements(Run(k, Start(clock), actions), c)
    decreases |actions|
  {
    if actions != [] {
      var init, last := actions[..|actions| - 1], actions[|actions| - 1];
      GuessesAreCounted(k, clock, init, c);
      StepCounts(k, Run(k, Start(clock), init), last, c);
    }
  }

  lemma StepCounts(k: Checks, s: Auth, a: Action, c: Id)
    ensures Judgements(Next(k, s, a), c) >=
            Judgements(s, c) + if GuessesWrong(k, s, a) && a.challenge == c then 1 else 0
  {
    if GuessesWrong(k, s, a) && a.challenge == c {
      GuessIsCounted(k, s, a);
    } else {
      HistoryGrows(k, s, a);
      var t := Next(k, s, a);
      CountGrows(s.history, t.history[|s.history|..], JudgedOn(c));
      assert s.history + t.history[|s.history|..] == t.history;
    }
  }

  /** In no run can more than five wrong codes, TOTP and recovery together, be tried on one challenge. */
  lemma AtMostFiveWrongCodes(k: Checks, clock: nat, actions: seq<Action>, c: Id)
    ensures WrongGuesses(k, clock, actions, c) <= 5
  {
    GuessesAreCounted(k, clock, actions, c);
    RunKeeps(k, clock, actions, c);
  }
}
