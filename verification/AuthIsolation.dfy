/** What a step leaves alone: other accounts, sessions it was not sent with, challenges it does not act on. */
module AuthIsolation {
  import opened Results
  import opened AuthModel
  import opened AuthChallenges
  import AuthProvenance
  import AuthRecovery
  import AuthTotp

  // ----- accounts -----

  predicate AccountsKnown(s: Auth) {
    && s.accounts.Keys <= s.used
    && forall a, b :: a in s.accounts && b in s.accounts && s.accounts[a].handle == s.accounts[b].handle ==> a == b
  }

  /** An account, once there, is never changed. */
  predicate AccountsStay(s: Auth, t: Auth) {
    forall a :: a in s.accounts ==> a in t.accounts && t.accounts[a] == s.accounts[a]
  }

  lemma FinishKeepsAccounts(k: Checks, s: Auth, challenge: Id, cn: string, sn: string, final: string, proof: string,
                            newId: Id, token: string, now: nat)
    ensures var t := DoLoginFinish(k, s, challenge, cn, sn, final, proof, newId, token, now);
            t.accounts == s.accounts && s.used <= t.used
  {
  }

  lemma CodeKeepsAccounts(k: Checks, s: Auth, challenge: Id, code: string, session: Id, token: string, now: nat)
    ensures var t := DoTotpVerify(k, s, challenge, code, session, token, now);
            t.accounts == s.accounts && s.used <= t.used
  {
  }

  lemma ConfirmKeepsAccounts(k: Checks, s: Auth, r: Current, g: Id, code: string, token: string, codes: seq<NewCode>)
    ensures var t := DoEnrollConfirm(k, s, r, g, code, token, codes);
            t.accounts == s.accounts && s.used <= t.used
  {
  }

  /** The steps that finish nothing touch no account or code, and forget nothing. */
  lemma LightFrame(k: Checks, s: Auth, a: Action)
    requires !Weighty(a)
    ensures var t := Next(k, s, a); t.accounts == s.accounts && t.codes == s.codes && s.used <= t.used
                                    && s.clock <= t.clock
  {
    match a
    case Tick(_) =>
    case RegisterStart(_, _, _) =>
    case LoginStart(_, _, _, _, _) =>
    case LoadSession(_, _) =>
    case Revoke(_) =>
    case Refresh(_) =>
    case EnrollStart(_, _, _) =>
    case Logout(_) =>
    case OpenVault(_) =>
    case Cleanup =>
  }

  lemma RegisterKeepsAccounts(s: Auth, challenge: Id, account: Id, session: Id, token: string, key: string, now: nat)
    requires AccountsKnown(s)
    ensures var t := DoRegisterFinish(s, challenge, account, session, token, key, now);
            AccountsKnown(t) && AccountsStay(s, t)
  {
  }

  lemma NextKeepsAccounts(k: Checks, s: Auth, a: Action)
    requires AccountsKnown(s)
    ensures AccountsKnown(Next(k, s, a)) && AccountsStay(s, Next(k, s, a))
  {
    match a
    case RegisterFinish(ch, account, session, token, key, now) =>
      RegisterKeepsAccounts(s, ch, account, session, token, key, now);
    case LoginFinish(ch, cn, sn, final, proof, newId, token, now) =>
      FinishKeepsAccounts(k, s, ch, cn, sn, final, proof, newId, token, now);
    case TotpVerify(ch, code, session, token, now) => CodeKeepsAccounts(k, s, ch, code, session, token, now);
    case EnrollConfirm(r, g, code, token, codes) => ConfirmKeepsAccounts(k, s, r, g, code, token, codes);
    case RecoveryVerify(_, _, _, _, _, _) =>
    case _ => LightFrame(k, s, a);
  }

  lemma {:induction false} RunKeepsAccounts(k: Checks, s: Auth, actions: seq<Action>)
    requires AccountsKnown(s)
    ensures AccountsKnown(Run(k, s, actions)) && AccountsStay(s, Run(k, s, actions))
    decreases |actions|
  {
    if actions != [] {
      var n := |actions| - 1;
      RunKeepsAccounts(k, s, actions[..n]);
      NextKeepsAccounts(k, Run(k, s, actions[..n]), actions[n]);
    }
  }

  lemma ReachableAccounts(k: Checks, s: Auth)
    requires Reachable(k, s)
    ensures AccountsKnown(s)
  {
    var clock: nat, actions :| s == Run(k, Start(clock), actions);
    RunKeepsAccounts(k, Start(clock), actions);
  }

  /** No two accounts ever share a handle, and a registered account keeps its handle and its stored key. */
  lemma AccountsAreForGood(k: Checks, s: Auth, actions: seq<Action>, a: Id, b: Id)
    requires Reachable(k, s) && a in s.accounts
    ensures var t := Run(k, s, actions);
            && a in t.accounts && t.accounts[a] == s.accounts[a]
            && (b in t.accounts && t.accounts[b].handle == t.accounts[a].handle ==> a == b)
  {
    ReachableAccounts(k, s);
    RunKeepsAccounts(k, s, actions);
  }

  // ----- challenges -----

  predicate SameRow(s: Auth, t: Auth, c: Id) {
    c in t.challenges && c in s.challenges && t.challenges[c] == s.challenges[c]
  }

  lemma FinishLeaves(k: Checks, s: Auth, challenge: Id, cn: string, sn: string, final: string, proof: string,
                     newId: Id, token: string, now: nat, c: Id)
    requires c in s.used && c in s.challenges && c != challenge
    ensures SameRow(s, DoLoginFinish(k, s, challenge, cn, sn, final, proof, newId, token, now), c)
  {
  }

  lemma CodeLeaves(k: Checks, s: Auth, challenge: Id, code: string, session: Id, token: string, now: nat, c: Id)
    requires c in s.challenges && c != challenge
    ensures SameRow(s, DoTotpVerify(k, s, challenge, code, session, token, now), c)
  {
  }

  lemma ConfirmLeaves(k: Checks, s: Auth, r: Current, g: Id, code: string, token: string, codes: seq<NewCode>, c: Id)
    requires c in s.challenges
    ensures SameRow(s, DoEnrollConfirm(k, s, r, g, code, token, codes), c)
  {
  }

  lemma NextLeavesChallenge(k: Checks, s: Auth, a: Action, c: Id)
    requires c in s.used && c in s.challenges && !ActsOn(a, c) && s.clock <= s.challenges[c].expiresAt
    ensures SameRow(s, Next(k, s, a), c)
  {
    match a
    case LoginFinish(ch, cn, sn, final, proof, newId, token, now) =>
      FinishLeaves(k, s, ch, cn, sn, final, proof, newId, token, now, c);
    case TotpVerify(ch, code, session, token, now) => CodeLeaves(k, s, ch, code, session, token, now, c);
    case EnrollConfirm(r, g, code, token, codes) => ConfirmLeaves(k, s, r, g, code, token, codes, c);
    case RegisterFinish(_, _, _, _, _, _) =>
    case RecoveryVerify(_, _, _, _, _, _) =>
    case _ => LightLeaves(k, s, a, c);
  }

  lemma LightLeaves(k: Checks, s: Auth, a: Action, c: Id)
    requires !Weighty(a) && c in s.used && c in s.challenges && s.clock <= s.challenges[c].expiresAt
    ensures SameRow(s, Next(k, s, a), c)
  {
    match a
    case Tick(_) =>
    case RegisterStart(_, _, _) =>
    case LoginStart(_, _, _, _, _) =>
    case LoadSession(_, _) =>
    case Revoke(_) =>
    case Refresh(_) =>
    case EnrollStart(_, _, _) =>
    case Logout(_) =>
    case OpenVault(_) =>
    case Cleanup =>
  }

  lemma ClockGrows(k: Checks, s: Auth, a: Action)
    ensures s.clock <= Next(k, s, a).clock
  {
    match a
    case LoginFinish(_, _, _, _, _, _, _, _) =>
    case TotpVerify(_, _, _, _, _) =>
    case EnrollConfirm(_, _, _, _, _) =>
    case RegisterFinish(_, _, _, _, _, _) =>
    case RecoveryVerify(_, _, _, _, _, _) =>
    case _ => LightFrame(k, s, a);
  }

  /** A challenge stays as issued until it expires, as long as no request acts on it; a clean-up takes only expired
      ones. */
  lemma {:induction false} ChallengesWait(k: Checks, s: Auth, actions: seq<Action>, c: Id)
    requires c in s.used && c in s.challenges && forall n :: 0 <= n < |actions| ==> !ActsOn(actions[n], c)
    requires Run(k, s, actions).clock <= s.challenges[c].expiresAt
    ensures SameRow(s, Run(k, s, actions), c) && s.clock <= Run(k, s, actions).clock
    decreases |actions|
  {
    if actions != [] {
      var n := |actions| - 1;
      ClockGrows(k, Run(k, s, actions[..n]), actions[n]);
      ChallengesWait(k, s, actions[..n], c);
      RunWears(k, s, actions[..n], c);
      NextLeavesChallenge(k, Run(k, s, actions[..n]), actions[n], c);
    }
  }

  // ----- sessions -----

  /** The step was sent under this session. */
  predicate SentUnder(a: Action, i: Id) {
    match a
    case Refresh(r) => r.sessionId == i
    case EnrollConfirm(r, _, _, _, _) => r.sessionId == i
    case Logout(r) => r.sessionId == i
    case _ => false
  }

  /** The session's row is untouched and nobody is about to revoke it. */
  predicate Undisturbed(s: Auth, t: Auth, i: Id) {
    && i in s.sessions && i in t.sessions && t.sessions[i] == s.sessions[i]
    && s.used <= t.used && i !in t.revoking
  }

  lemma FinishLeavesSession(k: Checks, s: Auth, challenge: Id, cn: string, sn: string, final: string, proof: string,
                            newId: Id, token: string, now: nat, i: Id)
    requires i in s.used && Undisturbed(s, s, i)
    ensures Undisturbed(s, DoLoginFinish(k, s, challenge, cn, sn, final, proof, newId, token, now), i)
  {
  }

  lemma CodeLeavesSession(k: Checks, s: Auth, challenge: Id, code: string, session: Id, token: string, now: nat, i: Id)
    requires i in s.used && Undisturbed(s, s, i)
    ensures Undisturbed(s, DoTotpVerify(k, s, challenge, code, session, token, now), i)
  {
  }

  lemma ConfirmLeavesSession(k: Checks, s: Auth, r: Current, g: Id, code: string, token: string, codes: seq<NewCode>,
                             i: Id)
    requires Undisturbed(s, s, i) && r.sessionId != i
    ensures Undisturbed(s, DoEnrollConfirm(k, s, r, g, code, token, codes), i)
  {
  }

  lemma LoadLeavesSession(s: Auth, token: string, now: nat, i: Id)
    requires Undisturbed(s, s, i) && now < s.sessions[i].idle && now < s.sessions[i].absolute
    ensures Undisturbed(s, DoLoad(s, token, now), i)
  {
  }

  lemma NextLeavesSession(k: Checks, s: Auth, a: Action, i: Id)
    requires i in s.used && Undisturbed(s, s, i) && !SentUnder(a, i)
    requires a.LoadSession? ==> a.now < s.sessions[i].idle && a.now < s.sessions[i].absolute
    ensures Undisturbed(s, Next(k, s, a), i)
  {
    match a
    case LoginFinish(ch, cn, sn, final, proof, newId, token, now) =>
      FinishLeavesSession(k, s, ch, cn, sn, final, proof, newId, token, now, i);
    case TotpVerify(ch, code, session, token, now) => CodeLeavesSession(k, s, ch, code, session, token, now, i);
    case EnrollConfirm(r, g, code, token, codes) => ConfirmLeavesSession(k, s, r, g, code, token, codes, i);
    case LoadSession(token, now) => LoadLeavesSession(s, token, now, i);
    case RegisterFinish(_, _, _, _, _, _) =>
    case RecoveryVerify(_, _, _, _, _, _) =>
    case _ =>
  }

  /** A session keeps its token, state and deadlines, unrevoked, through anything but requests sent under it and loads
      at or after its deadlines; logging out of another session of the same account, say, does not touch it. */
  lemma {:induction false} SessionsAreTheirOwn(k: Checks, s: Auth, actions: seq<Action>, i: Id)
    requires i in s.used && i in s.sessions && i !in s.revoking
    requires forall n :: 0 <= n < |actions| ==> !SentUnder(actions[n], i)
    requires forall n :: 0 <= n < |actions| && actions[n].LoadSession? ==>
                           actions[n].now < s.sessions[i].idle && actions[n].now < s.sessions[i].absolute
    ensures Undisturbed(s, Run(k, s, actions), i)
    decreases |actions|
  {
    if actions != [] {
      var n := |actions| - 1;
      SessionsAreTheirOwn(k, s, actions[..n], i);
      NextLeavesSession(k, Run(k, s, actions[..n]), actions[n], i);
    }
  }

  // ----- tokens -----

  /** No two sessions ever hold one token. */
  predicate OneTokenEach(s: Auth) {
    forall i, j :: i in s.sessions && j in s.sessions && s.sessions[i].token == s.sessions[j].token ==> i == j
  }

  lemma FinishKeepsTokens(k: Checks, s: Auth, challenge: Id, cn: string, sn: string, final: string, proof: string,
                          newId: Id, token: string, now: nat)
    requires OneTokenEach(s)
    ensures OneTokenEach(DoLoginFinish(k, s, challenge, cn, sn, final, proof, newId, token, now))
  {
  }

  lemma CodeKeepsTokens(k: Checks, s: Auth, challenge: Id, code: string, session: Id, token: string, now: nat)
    requires OneTokenEach(s)
    ensures OneTokenEach(DoTotpVerify(k, s, challenge, code, session, token, now))
  {
  }

  lemma ConfirmKeepsTokens(k: Checks, s: Auth, r: Current, g: Id, code: string, token: string, codes: seq<NewCode>)
    requires OneTokenEach(s)
    ensures OneTokenEach(DoEnrollConfirm(k, s, r, g, code, token, codes))
  {
  }

  lemma RegisterKeepsTokens(k: Checks, s: Auth, a: Action)
    requires OneTokenEach(s) && a.RegisterFinish?
    ensures OneTokenEach(Next(k, s, a))
  {
  }

  lemma NextKeepsTokens(k: Checks, s: Auth, a: Action)
    requires OneTokenEach(s)
    ensures OneTokenEach(Next(k, s, a))
  {
    match a
    case LoginFinish(ch, cn, sn, final, proof, newId, token, now) =>
      FinishKeepsTokens(k, s, ch, cn, sn, final, proof, newId, token, now);
    case TotpVerify(ch, code, session, token, now) => CodeKeepsTokens(k, s, ch, code, session, token, now);
    case EnrollConfirm(r, g, code, token, codes) => ConfirmKeepsTokens(k, s, r, g, code, token, codes);
    case RegisterFinish(_, _, _, _, _, _) => RegisterKeepsTokens(k, s, a);
    case RecoveryVerify(_, _, _, _, _, _) =>
    case _ => LightKeepsTokens(k, s, a);
  }

  predicate SameToken(s: Auth, t: Auth, i: Id) {
    i in t.sessions ==> i in s.sessions && t.sessions[i].token == s.sessions[i].token
  }

  lemma LightToken(k: Checks, s: Auth, a: Action, i: Id)
    requires !Weighty(a)
    ensures SameToken(s, Next(k, s, a), i)
  {
    match a
    case Tick(_) =>
    case RegisterStart(_, _, _) =>
    case LoginStart(_, _, _, _, _) =>
    case LoadSession(_, _) =>
    case Revoke(_) =>
    case Refresh(_) =>
    case EnrollStart(_, _, _) =>
    case Logout(_) =>
    case OpenVault(_) =>
    case Cleanup =>
  }

  lemma LightKeepsTokens(k: Checks, s: Auth, a: Action)
    requires !Weighty(a) && OneTokenEach(s)
    ensures OneTokenEach(Next(k, s, a))
  {
    var t := Next(k, s, a);
    forall i, j | i in t.sessions && j in t.sessions && t.sessions[i].token == t.sessions[j].token ensures i == j {
      LightToken(k, s, a, i);
      LightToken(k, s, a, j);
    }
  }

  lemma {:induction false} RunKeepsTokens(k: Checks, s: Auth, actions: seq<Action>)
    requires OneTokenEach(s)
    ensures OneTokenEach(Run(k, s, actions))
    decreases |actions|
  {
    if actions != [] {
      var n := |actions| - 1;
      RunKeepsTokens(k, s, actions[..n]);
      NextKeepsTokens(k, Run(k, s, actions[..n]), actions[n]);
    }
  }

  lemma ReachableTokens(k: Checks, s: Auth)
    requires Reachable(k, s)
    ensures OneTokenEach(s)
  {
    var clock: nat, actions :| s == Run(k, Start(clock), actions);
    RunKeepsTokens(k, Start(clock), actions);
  }

  // ----- one account's rows -----

  /** The account's sessions, factors and codes are the same rows, and so is its own row. */
  ghost predicate SameFor(s: Auth, t: Auth, b: Id) {
    && (b in t.accounts <==> b in s.accounts) && (b in s.accounts ==> t.accounts[b] == s.accounts[b])
    && (forall i :: SameSeat(s, t, b, i)) && (forall f :: SameFactor(s, t, b, f)) && (forall c :: SameCode(s, t, b, c))
  }

  predicate SameSeat(s: Auth, t: Auth, b: Id, i: Id) {
    && (i in t.sessions && t.sessions[i].accountId == b <==> i in s.sessions && s.sessions[i].accountId == b)
    && (i in s.sessions && s.sessions[i].accountId == b ==> t.sessions[i] == s.sessions[i])
  }

  predicate SameFactor(s: Auth, t: Auth, b: Id, f: Id) {
    && (f in t.factors && t.factors[f].accountId == b <==> f in s.factors && s.factors[f].accountId == b)
    && (f in s.factors && s.factors[f].accountId == b ==> t.factors[f] == s.factors[f])
  }

  predicate SameCode(s: Auth, t: Auth, b: Id, c: Id) {
    && (c in t.codes && t.codes[c].accountId == b <==> c in s.codes && s.codes[c].accountId == b)
    && (c in s.codes && s.codes[c].accountId == b ==> t.codes[c] == s.codes[c])
  }

  /** The step is one of the account's: it registers it, answers a challenge of its, is sent under a session of its, or
      revokes one. */
  predicate Concerns(s: Auth, a: Action, b: Id) {
    match a
    case RegisterFinish(_, account, _, _, _, _) => account == b
    case LoginFinish(c, _, _, _, _, _, _, _) => c in s.challenges && s.challenges[c].accountId == Some(b)
    case TotpVerify(c, _, _, _, _) => c in s.challenges && s.challenges[c].accountId == Some(b)
    case RecoveryVerify(c, _, _, _, _, _) => c in s.challenges && s.challenges[c].accountId == Some(b)
    case Revoke(i) => i in s.sessions && s.sessions[i].accountId == b
    case Refresh(r) => r.accountId == b
    case EnrollStart(r, _, _) => r.accountId == b
    case EnrollConfirm(r, _, _, _, _) => r.accountId == b
    case Logout(r) => r.accountId == b
    case _ => false
  }

  /** Rows stand under used identifiers, and a request carries the account of its session. */
  ghost predicate Kept(s: Auth) {
    && s.accounts.Keys <= s.used && s.sessions.Keys <= s.used && s.factors.Keys <= s.used && s.codes.Keys <= s.used
    && forall r :: r in s.requests && r.sessionId in s.sessions ==> s.sessions[r.sessionId].accountId == r.accountId
  }

  lemma ReachableKept(k: Checks, s: Auth)
    requires Reachable(k, s)
    ensures Kept(s)
  {
    var clock: nat, actions :| s == Run(k, Start(clock), actions);
    RunKeepsAccounts(k, Start(clock), actions);
    AuthProvenance.RunKeeps(k, clock, actions);
    AuthRecovery.RunKeeps(k, clock, actions, "");
    forall f | f in s.factors ensures f in s.used {
      AuthTotp.RunKeeps(k, clock, actions, f);
    }
    assert forall i :: i in s.sessions ==> AuthProvenance.SessionEarned(s, i);
    assert forall r :: r in s.requests ==> AuthProvenance.RequestEarned(s, r);
  }

  lemma FinishLeavesOthers(k: Checks, s: Auth, challenge: Id, cn: string, sn: string, final: string, proof: string,
                           newId: Id, token: string, now: nat, b: Id)
    requires Kept(s) && (challenge in s.challenges ==> s.challenges[challenge].accountId != Some(b))
    ensures SameFor(s, DoLoginFinish(k, s, challenge, cn, sn, final, proof, newId, token, now), b)
  {
  }

  lemma CodeLeavesOthers(k: Checks, s: Auth, challenge: Id, code: string, session: Id, token: string, now: nat, b: Id)
    requires Kept(s) && (challenge in s.challenges ==> s.challenges[challenge].accountId != Some(b))
    ensures SameFor(s, DoTotpVerify(k, s, challenge, code, session, token, now), b)
  {
  }

  lemma RecoveryLeavesOthers(k: Checks, s: Auth, challenge: Id, code: Option<string>, pick: Option<Id>, session: Id,
                             token: string, now: nat, b: Id)
    requires Kept(s) && MayTry(s, challenge, now) && s.challenges[challenge].accountId != Some(b)
    requires MayMatch(k, s, s.challenges[challenge].accountId.value, code, pick)
    ensures SameFor(s, DoRecoveryVerify(s, challenge, pick, session, token, now), b)
  {
  }

  lemma EnrollLeavesOthers(s: Auth, r: Current, g: Id, step: nat, token: string, codes: seq<NewCode>, b: Id)
    requires Kept(s) && r in s.requests && g in s.factors && s.factors[g].accountId == r.accountId && r.accountId != b
    requires FreshCodes(s, codes)
    ensures SameFor(s, DoEnroll(s, r, g, step, token, codes), b)
  {
    var t := DoEnroll(s, r, g, step, token, codes);
    AuthRecovery.InsertedRows(DropCodes(s.codes, r.accountId), r.accountId, codes);
    forall c ensures SameCode(s, t, b, c) {
      if c in CodeIds(codes) {
        assert AuthRecovery.IsUnused(t.codes, r.accountId, c);
      }
    }
  }

  lemma ConfirmLeavesOthers(k: Checks, s: Auth, r: Current, g: Id, code: string, token: string, codes: seq<NewCode>,
                            b: Id)
    requires Kept(s) && r in s.requests && r.accountId != b
    ensures SameFor(s, DoEnrollConfirm(k, s, r, g, code, token, codes), b)
  {
    if g in s.factors && s.factors[g].accountId == r.accountId && FreshCodes(s, codes) {
      match Judge(k, s.factors[g].seed, r.now, code, s.factors[g].lastStep)
      case None =>
      case Some(step) => EnrollLeavesOthers(s, r, g, step, token, codes, b);
    }
  }

  lemma StartLeavesOthers(s: Auth, r: Current, factor: Id, seed: string, b: Id)
    requires Kept(s) && r.accountId != b
    ensures SameFor(s, DoEnrollStart(s, r, factor, seed), b)
  {
  }

  lemma RegisterLeavesOthers(s: Auth, challenge: Id, account: Id, session: Id, token: string, key: string, now: nat,
                             b: Id)
    requires Kept(s) && account != b
    ensures SameFor(s, DoRegisterFinish(s, challenge, account, session, token, key, now), b)
  {
  }

  /** Only one session row changed, and it is not the account's. */
  lemma OneSeatChanged(s: Auth, t: Auth, i: Id, b: Id)
    requires t.accounts == s.accounts && t.factors == s.factors && t.codes == s.codes
    requires i in s.sessions ==> s.sessions[i].accountId != b
    requires i in t.sessions ==> t.sessions[i].accountId != b
    requires forall j :: j in s.sessions && j != i ==> j in t.sessions && t.sessions[j] == s.sessions[j]
    requires forall j :: j in t.sessions && j != i ==> j in s.sessions
    ensures SameFor(s, t, b)
  {
  }

  lemma SameTables(s: Auth, t: Auth, b: Id)
    requires t.accounts == s.accounts && t.sessions == s.sessions && t.factors == s.factors && t.codes == s.codes
    ensures SameFor(s, t, b)
  {
  }

  lemma LoadLeavesOthers(s: Auth, token: string, now: nat, b: Id)
    ensures SameFor(s, DoLoad(s, token, now), b)
  {
  }

  /** Steps on one session row, and those on no row at all. */
  lemma OneRowLeavesOthers(k: Checks, s: Auth, a: Action, b: Id)
    requires Kept(s) && !Concerns(s, a, b) && (a.Revoke? || a.Refresh? || a.Logout?)
    ensures SameFor(s, Next(k, s, a), b)
  {
    if a.Revoke? {
      OneSeatChanged(s, Next(k, s, a), a.expired, b);
    } else if a.request in s.requests {
      SeatLeavesOthers(k, s, a, b);
    }
  }

  lemma SeatLeavesOthers(k: Checks, s: Auth, a: Action, b: Id)
    requires Kept(s) && (a.Refresh? || a.Logout?) && a.request in s.requests && a.request.accountId != b
    ensures SameFor(s, Next(k, s, a), b)
  {
    OneSeatChanged(s, Next(k, s, a), a.request.sessionId, b);
  }

  lemma NoRowLeavesOthers(k: Checks, s: Auth, a: Action, b: Id)
    requires a.Tick? || a.RegisterStart? || a.LoginStart? || a.OpenVault? || a.Cleanup?
    ensures SameFor(s, Next(k, s, a), b)
  {
    NoRowChanged(k, s, a);
    SameTables(s, Next(k, s, a), b);
  }

  lemma NoRowChanged(k: Checks, s: Auth, a: Action)
    requires a.Tick? || a.RegisterStart? || a.LoginStart? || a.OpenVault? || a.Cleanup?
    ensures var t := Next(k, s, a);
            t.accounts == s.accounts && t.sessions == s.sessions && t.factors == s.factors && t.codes == s.codes
  {
    match a
    case Tick(_) =>
    case RegisterStart(_, _, _) =>
    case LoginStart(_, _, _, _, _) =>
    case OpenVault(_) =>
    case Cleanup =>
  }

  lemma NextLeavesOthers(k: Checks, s: Auth, a: Action, b: Id)
    requires Kept(s) && !Concerns(s, a, b)
    ensures SameFor(s, Next(k, s, a), b)
  {
    match a
    case LoginFinish(ch, cn, sn, final, proof, newId, token, now) =>
      FinishLeavesOthers(k, s, ch, cn, sn, final, proof, newId, token, now, b);
    case TotpVerify(ch, code, session, token, now) => CodeLeavesOthers(k, s, ch, code, session, token, now, b);
    case RecoveryVerify(ch, code, pick, session, token, now) =>
      if MayTry(s, ch, now) && MayMatch(k, s, s.challenges[ch].accountId.value, code, pick) {
        RecoveryLeavesOthers(k, s, ch, code, pick, session, token, now, b);
      }
    case EnrollStart(r, factor, seed) => StartLeavesOthers(s, r, factor, seed, b);
    case EnrollConfirm(r, g, code, token, codes) =>
      if r in s.requests {
        ConfirmLeavesOthers(k, s, r, g, code, token, codes, b);
      }
    case RegisterFinish(ch, account, session, token, key, now) =>
      RegisterLeavesOthers(s, ch, account, session, token, key, now, b);
    case LoadSession(token, now) => LoadLeavesOthers(s, token, now, b);
    case _ =>
      if a.Revoke? || a.Refresh? || a.Logout? {
        OneRowLeavesOthers(k, s, a, b);
      } else {
        NoRowLeavesOthers(k, s, a, b);
      }
  }

  lemma SameForTransitive(s: Auth, t: Auth, u: Auth, b: Id)
    requires SameFor(s, t, b) && SameFor(t, u, b)
    ensures SameFor(s, u, b)
  {
    forall i ensures SameSeat(s, u, b, i) {
      assert SameSeat(s, t, b, i) && SameSeat(t, u, b, i);
    }
    forall f ensures SameFactor(s, u, b, f) {
      assert SameFactor(s, t, b, f) && SameFactor(t, u, b, f);
    }
    forall c ensures SameCode(s, u, b, c) {
      assert SameCode(s, t, b, c) && SameCode(t, u, b, c);
    }
  }

  /** An account's own row, sessions, factors and recovery codes are changed by no request of anybody else's. */
  lemma {:induction false} AccountsAreIsolated(k: Checks, s: Auth, actions: seq<Action>, b: Id)
    requires Reachable(k, s)
    requires forall n :: 0 <= n < |actions| ==> !Concerns(Run(k, s, actions[..n]), actions[n], b)
    ensures SameFor(s, Run(k, s, actions), b)
    decreases |actions|
  {
    if actions != [] {
      var n := |actions| - 1;
      assert forall m :: 0 <= m < n ==> actions[..n][..m] == actions[..m];
      AccountsAreIsolated(k, s, actions[..n], b);
      StaysReachable(k, s, actions[..n]);
      ReachableKept(k, Run(k, s, actions[..n]));
      NextLeavesOthers(k, Run(k, s, actions[..n]), actions[n], b);
      SameForTransitive(s, Run(k, s, actions[..n]), Run(k, s, actions), b);
    }
  }
}
