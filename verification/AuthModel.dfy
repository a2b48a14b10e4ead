/** The authentication tables as values, each handler's transaction as a step on them, and the history of
    what was accepted.

    A request reads the clock once, at its start, and its statements run later: every step carries that
    reading as `now`, never later than the clock. A `Current` is what `load_current_session` returned to a
    request; the request's later statements use it even when other requests have changed the row since. A load
    that finds the session expired revokes it by a statement of its own. Identifiers drawn are never drawn
    again. */
module AuthModel {
  import opened Results
  import opened Totp
  import opened Transcript

  type Id = string

  const MFA_CHALLENGE_MAX_ATTEMPTS := 5
  const REGISTER_CHALLENGE_TTL := 600
  const LOGIN_CHALLENGE_TTL := 300
  const SESSION_IDLE_TTL := 1800
  const SESSION_ABSOLUTE_TTL := 43200
  const RECOVERY_CODE_COUNT := 10
  const TOTP_PERIOD := 30
  const TOTP_DIGITS := 6

  datatype Account = Account(handle: string, storedKey: string)

  datatype ChallengeKind = RegisterChallenge | LoginChallenge | PreMfaChallenge

  datatype Challenge = Challenge(kind: ChallengeKind, accountId: Option<Id>, handle: string, clientNonce: string,
                                 serverNonce: string, attempts: nat, expiresAt: nat, consumed: bool)

  datatype Factor = Factor(accountId: Id, seed: string, lastStep: Option<nat>, verified: bool)

  datatype Code = Code(accountId: Id, salt: string, hash: string, used: bool)

  datatype SessionState = EnrollmentRequired | RecoverySession | MfaVerified

  datatype Session = Session(accountId: Id, token: string, state: SessionState, idle: nat, absolute: nat, revoked: bool)

  datatype Current = Current(sessionId: Id, accountId: Id, state: SessionState, absolute: nat, now: nat)

  datatype Grant = Seated(session: Id) | Challenged(preMfa: Id)

  datatype Means = AtLogin(challenge: Id, session: Id) | AtEnrollment(enrolledSession: Id)

  datatype Event =
    | Registered(account: Id, session: Id)
    | ProofAccepted(login: Id, account: Id, grant: Grant)
    | Judged(challenge: Id)                                       // a TOTP or recovery code was judged
    | PendingJudged(factor: Id)                                   // a confirmation code was judged
    | TotpAccepted(factor: Id, account: Id, step: nat, now: nat, means: Means)
    | RecoveryUsed(challenge: Id, account: Id, session: Id)
    | CodesIssued(account: Id)                                    // an enrolment was confirmed
    | SessionIssued(session: Id, now: nat)
    | Active(session: Id, now: nat)                               // the session's idle timer was set again
    | SessionReturned(session: Id, now: nat)
    | VaultOpened(account: Id, session: Id, now: nat)

  datatype Auth = Auth(
    accounts: map<Id, Account>,
    challenges: map<Id, Challenge>,
    factors: map<Id, Factor>,
    codes: map<Id, Code>,
    sessions: map<Id, Session>,
    requests: set<Current>,
    revoking: set<Id>,         // sessions some request found expired and is about to revoke
    used: set<Id>,             // every identifier ever drawn
    clock: nat,
    history: seq<Event>)

  /** What the handlers compute with keys and hashes. */
  datatype Checks = Checks(
    verifyProof: (string, LoginAuthMessage, string) -> bool,    // stored key, transcript, proof
    codeAt: (string, nat) -> string,                            // seed, time step
    recoveryHash: (Id, string, string) -> string)               // account, salt, code

  datatype NewCode = NewCode(id: Id, salt: string, hash: string)

  datatype Action =
    | Tick(seconds: nat)
    | RegisterStart(id: Id, handle: string, now: nat)
    | RegisterFinish(challenge: Id, account: Id, session: Id, token: string, storedKey: string, now: nat)
    | LoginStart(id: Id, handle: string, clientNonce: string, serverNonce: string, now: nat)
    | LoginFinish(challenge: Id, clientNonce: string, serverNonce: string, clientFinal: string, proof: string,
                  newId: Id, token: string, now: nat)
    | TotpVerify(challenge: Id, code: string, session: Id, token: string, now: nat)
    | RecoveryVerify(challenge: Id, recoveryCode: Option<string>, pick: Option<Id>, session: Id, token: string,
                     now: nat)
    | LoadSession(token: string, now: nat)
    | Revoke(expired: Id)
    | Refresh(request: Current)
    | EnrollStart(request: Current, factor: Id, seed: string)
    | EnrollConfirm(request: Current, factor: Id, code: string, token: string, newCodes: seq<NewCode>)
    | Logout(request: Current)
    | OpenVault(request: Current)
    | Cleanup

  // ----- pieces -----

  function MinTime(a: nat, b: nat): nat {
    if a <= b then a else b
  }

  predicate TokenFree(s: Auth, token: string) {
    forall id :: id in s.sessions ==> s.sessions[id].token != token
  }

  /** A row that its handler may still act on. */
  predicate Available(s: Auth, id: Id, kind: ChallengeKind, now: nat) {
    && id in s.challenges && s.challenges[id].kind == kind && !s.challenges[id].consumed
    && s.challenges[id].expiresAt >= now
  }

  function Consume(ch: Challenge): Challenge {
    ch.(consumed := true)
  }

  function IncrementAttempts(ch: Challenge): Challenge {
    ch.(attempts := ch.attempts + 1, consumed := ch.consumed || ch.attempts + 1 >= MFA_CHALLENGE_MAX_ATTEMPTS)
  }

  function NewSession(accountId: Id, token: string, state: SessionState, now: nat): Session {
    Session(accountId, token, state, now + SESSION_IDLE_TTL, now + SESSION_ABSOLUTE_TTL, false)
  }

  /** The verdict on a six-digit code at a time: the least acceptable step of the window. */
  function Judge(c: Checks, seed: string, now: nat, code: string, last: Option<nat>): Option<nat> {
    if now > U64_MAX || !ValidCode(code, TOTP_DIGITS) then None
    else Window(c, seed, now / TOTP_PERIOD, code, last)
  }

  function Window(c: Checks, seed: string, current: nat, code: string, last: Option<nat>): Option<nat>
    requires current <= U64_MAX
  {
    AcceptStep((step: nat) => c.codeAt(seed, step), current, last, code)
  }

  predicate IsActiveFactor(s: Auth, id: Id, accountId: Id) {
    id in s.factors && s.factors[id].accountId == accountId && s.factors[id].verified
  }

  /** The account's verified factor; the table's unique constraint allows at most one. */
  ghost function ActiveFactor(s: Auth, accountId: Id): Option<Id> {
    if exists id :: IsActiveFactor(s, id, accountId) then
      var id :| IsActiveFactor(s, id, accountId);
      Some(id)
    else None
  }

  predicate MatchesCode(c: Checks, s: Auth, id: Id, accountId: Id, code: string) {
    && id in s.codes && s.codes[id].accountId == accountId && !s.codes[id].used
    && s.codes[id].hash == c.recoveryHash(accountId, s.codes[id].salt, code)
  }

  /** What the matching loop may return: a matching unused row of the account, or none if there is none. */
  ghost predicate MayMatch(c: Checks, s: Auth, accountId: Id, code: Option<string>, pick: Option<Id>) {
    match pick
    case Some(id) => code.Some? && MatchesCode(c, s, id, accountId, code.value)
    case None => code.None? || forall id :: !MatchesCode(c, s, id, accountId, code.value)
  }

  predicate FreshCodes(s: Auth, newCodes: seq<NewCode>) {
    && |newCodes| == RECOVERY_CODE_COUNT
    && (forall i :: 0 <= i < |newCodes| ==> newCodes[i].id !in s.used)
    && (forall i, j :: 0 <= i < j < |newCodes| ==>
                         newCodes[i].id != newCodes[j].id && newCodes[i].hash != newCodes[j].hash)
  }

  function CodeIds(newCodes: seq<NewCode>): set<Id> {
    set i | 0 <= i < |newCodes| :: newCodes[i].id
  }

  /** The rows the enrolment inserts, one after the other. */
  function InsertCodes(codes: map<Id, Code>, accountId: Id, newCodes: seq<NewCode>): map<Id, Code> {
    if newCodes == [] then codes
    else
      var last := newCodes[|newCodes| - 1];
      InsertCodes(codes, accountId, newCodes[..|newCodes| - 1])[last.id := Code(accountId, last.salt, last.hash, false)]
  }

  function DropCodes(codes: map<Id, Code>, accountId: Id): map<Id, Code> {
    map id | id in codes && codes[id].accountId != accountId :: codes[id]
  }

  function DropFactors(factors: map<Id, Factor>, accountId: Id): map<Id, Factor> {
    map id | id in factors && factors[id].accountId != accountId :: factors[id]
  }

  // ----- the handlers, one transaction each -----

  function DoRegisterStart(s: Auth, id: Id, handle: string, now: nat): Auth {
    if id in s.used then s
    else s.(challenges := s.challenges[id := Challenge(RegisterChallenge, None, handle, "", "", 0,
                                                       now + REGISTER_CHALLENGE_TTL, false)],
            used := s.used + {id})
  }

  function DoRegister(s: Auth, challenge: Id, handle: string, account: Id, session: Id, token: string,
                      storedKey: string, now: nat): Auth
    requires challenge in s.challenges
  {
    s.(accounts := s.accounts[account := Account(handle, storedKey)],
       sessions := s.sessions[session := NewSession(account, token, EnrollmentRequired, now)],
       challenges := s.challenges[challenge := Consume(s.challenges[challenge])],
       used := s.used + {account, session},
       history := s.history + [Registered(account, session), SessionIssued(session, now)])
  }

  function DoRegisterFinish(s: Auth, challenge: Id, account: Id, session: Id, token: string, storedKey: string,
                            now: nat): Auth
  {
    if !Available(s, challenge, RegisterChallenge, now) || account in s.used || session in s.used
       || account == session || !TokenFree(s, token)
       || (exists id :: id in s.accounts && s.accounts[id].handle == s.challenges[challenge].handle)
    then s
    else DoRegister(s, challenge, s.challenges[challenge].handle, account, session, token, storedKey, now)
  }

  /** The account behind a handle, if there is one; otherwise the challenge is synthetic. */
  ghost function AccountOf(s: Auth, handle: string): Option<Id> {
    if exists id :: id in s.accounts && s.accounts[id].handle == handle then
      var id :| id in s.accounts && s.accounts[id].handle == handle;
      Some(id)
    else None
  }

  ghost function DoLoginStart(s: Auth, id: Id, handle: string, clientNonce: string, serverNonce: string,
                              now: nat): Auth
  {
    if id in s.used then s
    else s.(challenges := s.challenges[id := Challenge(LoginChallenge, AccountOf(s, handle), handle, clientNonce,
                                                       serverNonce, 0, now + LOGIN_CHALLENGE_TTL, false)],
            used := s.used + {id})
  }

  /** The transcript a finish on this challenge has to prove. */
  function TranscriptOf(challenge: Id, ch: Challenge, clientFinal: string): LoginAuthMessage {
    LoginAuthMessage(challenge, "derived-auth-v1", ch.handle, ch.clientNonce, ch.serverNonce, clientFinal)
  }

  /** The proof is good: a known account, the same handle, and its stored key verifies the transcript. */
  predicate ProofGood(c: Checks, s: Auth, challenge: Id, clientFinal: string, proof: string)
    requires challenge in s.challenges
  {
    var ch := s.challenges[challenge];
    && ch.accountId.Some? && ch.accountId.value in s.accounts
    && s.accounts[ch.accountId.value].handle == ch.handle
    && c.verifyProof(s.accounts[ch.accountId.value].storedKey, TranscriptOf(challenge, ch, clientFinal), proof)
  }

  /** A good proof consumes the challenge and earns a pre-MFA challenge, or a session that still has to enrol. */
  ghost function DoAdmitProof(s: Auth, challenge: Id, ch: Challenge, newId: Id, token: string, now: nat): Auth
    requires ch.accountId.Some?
  {
    var account := ch.accountId.value;
    var consumed := s.challenges[challenge := Consume(ch)];
    if ActiveFactor(s, account).Some? then
      s.(challenges := consumed[newId := Challenge(PreMfaChallenge, Some(account), ch.handle, "", "", 0,
                                                   now + LOGIN_CHALLENGE_TTL, false)],
         used := s.used + {newId},
         history := s.history + [ProofAccepted(challenge, account, Challenged(newId))])
    else if !TokenFree(s, token) then s
    else
      s.(challenges := consumed,
         sessions := s.sessions[newId := NewSession(account, token, EnrollmentRequired, now)],
         used := s.used + {newId},
         history := s.history + [ProofAccepted(challenge, account, Seated(newId)), SessionIssued(newId, now)])
  }

  ghost function DoLoginFinish(c: Checks, s: Auth, challenge: Id, clientNonce: string, serverNonce: string,
                               clientFinal: string, proof: string, newId: Id, token: string, now: nat): Auth
  {
    if !Available(s, challenge, LoginChallenge, now) then s
    else
      var ch := s.challenges[challenge];
      var consumed := s.challenges[challenge := Consume(ch)];
      if ch.clientNonce != clientNonce || ch.serverNonce != serverNonce
          || !ProofGood(c, s, challenge, clientFinal, proof)
      then s.(challenges := consumed)
      else if newId in s.used then s
      else DoAdmitProof(s, challenge, ch, newId, token, now)
  }

  /** Both second-factor handlers begin alike: the row is there, unspent, with attempts left. */
  predicate MayTry(s: Auth, challenge: Id, now: nat) {
    && Available(s, challenge, PreMfaChallenge, now) && s.challenges[challenge].accountId.Some?
    && s.challenges[challenge].attempts < MFA_CHALLENGE_MAX_ATTEMPTS
  }

  function WrongCode(s: Auth, challenge: Id): Auth
    requires challenge in s.challenges
  {
    s.(challenges := s.challenges[challenge := IncrementAttempts(s.challenges[challenge])],
       history := s.history + [Judged(challenge)])
  }

  function LoginEvents(challenge: Id, f: Id, account: Id, step: nat, session: Id, now: nat): seq<Event> {
    [Judged(challenge), TotpAccepted(f, account, step, now, AtLogin(challenge, session)), SessionIssued(session, now)]
  }

  /** The code was right: a verified session, the step burnt, the challenge consumed. */
  function DoAcceptCode(s: Auth, challenge: Id, f: Id, account: Id, step: nat, session: Id, token: string,
                        now: nat): Auth
    requires challenge in s.challenges && f in s.factors
  {
    s.(sessions := s.sessions[session := NewSession(account, token, MfaVerified, now)],
       factors := s.factors[f := s.factors[f].(lastStep := Some(step))],
       challenges := s.challenges[challenge := Consume(s.challenges[challenge])],
       used := s.used + {session},
       history := s.history + LoginEvents(challenge, f, account, step, session, now))
  }

  ghost function DoTotpVerify(c: Checks, s: Auth, challenge: Id, code: string, session: Id, token: string,
                              now: nat): Auth
  {
    if !MayTry(s, challenge, now) then s
    else
      var account := s.challenges[challenge].accountId.value;
      match ActiveFactor(s, account)
      case None => s
      case Some(f) =>
        var factor := s.factors[f];
        match Judge(c, factor.seed, now, code, factor.lastStep)
        case None => WrongCode(s, challenge)
        case Some(step) =>
          if session in s.used || !TokenFree(s, token) then s
          else DoAcceptCode(s, challenge, f, account, step, session, token, now)
  }

  function DoRecoveryVerify(s: Auth, challenge: Id, pick: Option<Id>, session: Id, token: string, now: nat): Auth
    requires MayTry(s, challenge, now)
  {
    match pick
    case None => WrongCode(s, challenge)
    case Some(id) =>
      if session in s.used || !TokenFree(s, token) || id !in s.codes then s
      else
        var account := s.challenges[challenge].accountId.value;
        s.(codes := s.codes[id := s.codes[id].(used := true)],
           sessions := s.sessions[session := NewSession(account, token, RecoverySession, now)],
           challenges := s.challenges[challenge := Consume(s.challenges[challenge])],
           used := s.used + {session},
           history := s.history + [Judged(challenge), RecoveryUsed(challenge, account, session),
                                   SessionIssued(session, now)])
  }

  predicate IsLive(s: Auth, id: Id, token: string) {
    id in s.sessions && s.sessions[id].token == token && !s.sessions[id].revoked
  }

  /** The unrevoked session behind a token; tokens are unique among the rows. */
  ghost function LiveSession(s: Auth, token: string): (found: Option<Id>)
    ensures found.Some? ==> IsLive(s, found.value, token)
  {
    if exists id :: IsLive(s, id, token) then
      var id :| IsLive(s, id, token);
      Some(id)
    else None
  }

  /** A row found expired is to be revoked; any other is handed to the request. */
  function DoLoadRow(s: Auth, id: Id, now: nat): Auth
    requires id in s.sessions
  {
    var row := s.sessions[id];
    if row.idle <= now || row.absolute <= now then s.(revoking := s.revoking + {id})
    else s.(requests := s.requests + {Current(id, row.accountId, row.state, row.absolute, now)},
            history := s.history + [SessionReturned(id, now)])
  }

  ghost function DoLoad(s: Auth, token: string, now: nat): Auth {
    match LiveSession(s, token)
    case None => s
    case Some(id) => DoLoadRow(s, id, now)
  }

  function DoRevoke(s: Auth, id: Id): Auth {
    if id !in s.revoking || id !in s.sessions then s
    else s.(sessions := s.sessions[id := s.sessions[id].(revoked := true)])
  }

  function DoRefresh(s: Auth, r: Current): Auth {
    if r.sessionId !in s.sessions then s
    else
      var idle := MinTime(r.now + SESSION_IDLE_TTL, r.absolute);
      s.(sessions := s.sessions[r.sessionId := s.sessions[r.sessionId].(idle := idle)],
         history := s.history + [Active(r.sessionId, r.now)])
  }

  function DoEnrollStart(s: Auth, r: Current, factor: Id, seed: string): Auth {
    if r.state == MfaVerified || factor in s.used then s
    else s.(factors := DropFactors(s.factors, r.accountId)[factor := Factor(r.accountId, seed, None, false)],
            used := s.used + {factor})
  }

  function ConfirmEvents(r: Current, factor: Id, step: nat, seated: bool): seq<Event> {
    [PendingJudged(factor), TotpAccepted(factor, r.accountId, step, r.now, AtEnrollment(r.sessionId)),
     CodesIssued(r.accountId)]
    + if seated then [Active(r.sessionId, r.now)] else []
  }

  /** A confirmed session gets a new token and its idle timer set again. */
  function Upgrade(session: Session, r: Current, token: string): Session {
    session.(token := token, state := MfaVerified, idle := MinTime(r.now + SESSION_IDLE_TTL, r.absolute))
  }

  /** The code was right: new recovery codes, the factor verified, the request's session lifted if its row exists. */
  function DoEnroll(s: Auth, r: Current, factor: Id, step: nat, token: string, newCodes: seq<NewCode>): Auth
    requires factor in s.factors
  {
    s.(codes := InsertCodes(DropCodes(s.codes, r.accountId), r.accountId, newCodes),
       factors := s.factors[factor := s.factors[factor].(lastStep := Some(step), verified := true)],
       used := s.used + CodeIds(newCodes),
       sessions := if r.sessionId in s.sessions
                   then s.sessions[r.sessionId := Upgrade(s.sessions[r.sessionId], r, token)] else s.sessions,
       history := s.history + ConfirmEvents(r, factor, step, r.sessionId in s.sessions))
  }

  function DoEnrollConfirm(c: Checks, s: Auth, r: Current, factor: Id, code: string, token: string,
                           newCodes: seq<NewCode>): Auth
  {
    if r.state == MfaVerified || factor !in s.factors || s.factors[factor].accountId != r.accountId
       || s.factors[factor].verified
    then s
    else
      var row := s.factors[factor];
      match Judge(c, row.seed, r.now, code, row.lastStep)
      case None => s.(factors := s.factors - {factor}, history := s.history + [PendingJudged(factor)])
      case Some(step) =>
        if !FreshCodes(s, newCodes) || !TokenFree(s, token) then s
        else DoEnroll(s, r, factor, step, token, newCodes)
  }

  /** The vault handlers' gate: only a request whose session was loaded as verified gets through. */
  function DoOpenVault(s: Auth, r: Current): Auth {
    if r.state != MfaVerified then s
    else s.(history := s.history + [VaultOpened(r.accountId, r.sessionId, r.now)])
  }

  function DoCleanup(s: Auth): Auth {
    s.(challenges := map id | id in s.challenges && s.challenges[id].expiresAt >= s.clock :: s.challenges[id])
  }

  /** One step; an action that is not possible here leaves everything as it is. */
  ghost function Next(c: Checks, s: Auth, a: Action): Auth {
    match a
    case Tick(seconds) => s.(clock := s.clock + seconds)
    case RegisterStart(id, handle, now) => if now > s.clock then s else DoRegisterStart(s, id, handle, now)
    case RegisterFinish(ch, account, session, token, storedKey, now) =>
      if now > s.clock then s else DoRegisterFinish(s, ch, account, session, token, storedKey, now)
    case LoginStart(id, handle, clientNonce, serverNonce, now) =>
      if now > s.clock then s else DoLoginStart(s, id, handle, clientNonce, serverNonce, now)
    case LoginFinish(ch, clientNonce, serverNonce, clientFinal, proof, newId, token, now) =>
      if now > s.clock then s
      else DoLoginFinish(c, s, ch, clientNonce, serverNonce, clientFinal, proof, newId, token, now)
    case TotpVerify(ch, code, session, token, now) =>
      if now > s.clock then s else DoTotpVerify(c, s, ch, code, session, token, now)
    case RecoveryVerify(ch, code, pick, session, token, now) =>
      if now > s.clock || !MayTry(s, ch, now) || !MayMatch(c, s, s.challenges[ch].accountId.value, code, pick) then s
      else DoRecoveryVerify(s, ch, pick, session, token, now)
    case LoadSession(token, now) => if now > s.clock then s else DoLoad(s, token, now)
    case Revoke(id) => DoRevoke(s, id)
    case Refresh(r) => if r in s.requests then DoRefresh(s, r) else s
    case EnrollStart(r, factor, seed) => if r in s.requests then DoEnrollStart(s, r, factor, seed) else s
    case EnrollConfirm(r, factor, code, token, newCodes) =>
      if r in s.requests then DoEnrollConfirm(c, s, r, factor, code, token, newCodes) else s
    case Logout(r) => if r in s.requests then s.(sessions := s.sessions - {r.sessionId}) else s
    case OpenVault(r) => if r in s.requests then DoOpenVault(s, r) else s
    case Cleanup => DoCleanup(s)
  }

  function Start(clock: nat): Auth {
    Auth(map[], map[], map[], map[], map[], {}, {}, {}, clock, [])
  }

  ghost function Run(c: Checks, s: Auth, actions: seq<Action>): Auth
    decreases |actions|
  {
    if actions == [] then s else Next(c, Run(c, s, actions[..|actions| - 1]), actions[|actions| - 1])
  }

  /** The state of some run of the server from empty tables. */
  ghost predicate Reachable(c: Checks, s: Auth) {
    exists clock, actions :: s == Run(c, Start(clock), actions)
  }

  lemma {:induction false} RunConcat(k: Checks, s: Auth, xs: seq<Action>, ys: seq<Action>)
    ensures Run(k, s, xs + ys) == Run(k, Run(k, s, xs), ys)
    decreases |ys|
  {
    if ys == [] {
      assert xs + ys == xs;
    } else {
      var n := |ys| - 1;
      assert (xs + ys)[..|xs| + n] == xs + ys[..n];
      RunConcat(k, s, xs, ys[..n]);
    }
  }

  lemma StaysReachable(k: Checks, s: Auth, actions: seq<Action>)
    requires Reachable(k, s)
    ensures Reachable(k, Run(k, s, actions))
  {
    var clock: nat, before :| s == Run(k, Start(clock), before);
    RunConcat(k, Start(clock), before, actions);
  }

  // ----- steps that are quiet about sessions and the history -----

  predicate Elsewhere(a: Action) {
    a.Tick? || a.Revoke? || a.EnrollStart? || a.Logout? || a.Cleanup?
  }

  /** The finishing steps: they may create an account or a session. */
  predicate Weighty(a: Action) {
    a.RegisterFinish? || a.LoginFinish? || a.TotpVerify? || a.RecoveryVerify? || a.EnrollConfirm?
  }

  predicate SameSession(s: Auth, t: Auth, i: Id) {
    i in t.sessions ==> i in s.sessions && t.sessions[i].(revoked := true) == s.sessions[i].(revoked := true)
  }

  predicate SameChallenge(s: Auth, t: Auth, c: Id) {
    c in t.challenges ==> c in s.challenges && t.challenges[c] == s.challenges[c]
  }

  /** Rows only go, or are revoked. */
  lemma ElsewhereFrame(k: Checks, s: Auth, a: Action)
    requires Elsewhere(a)
    ensures var t := Next(k, s, a);
            && t.history == s.history && t.requests == s.requests && t.codes == s.codes && s.used <= t.used
            && (forall i :: i in t.sessions ==> SameSession(s, t, i))
            && (forall c :: c in t.challenges ==> SameChallenge(s, t, c))
  {
    match a
    case Tick(_) =>
    case Revoke(_) =>
    case EnrollStart(_, _, _) =>
    case Logout(_) =>
    case Cleanup =>
  }
}
