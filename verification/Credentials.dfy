/**
 Accounts and what proves who one is: sessions, API tokens, one-time tokens for password resets and
 email addresses, two-factor secrets. Hashes are taken to be injective, so a stored hash is modelled by
 what it is the hash of; tokens and ids drawn at random are taken to be fresh.
 */
module Credentials {
  import opened Text

  type Id = string

  datatype Role = PlainUser | Moderator | Admin

  datatype Status = Active | Suspended | Deleted

  datatype User = User(
    username: string, email: Option<string>, emailVerifiedAt: Option<nat>, role: Role, status: Status,
    twoFactorEnabled: bool)

  /** A session or an API token. */
  datatype Credential = Credential(
    userId: Id, token: string, expiresAt: Option<nat>, revokedAt: Option<nat>, lastUsedAt: Option<nat>)

  datatype ResetToken = ResetToken(userId: Id, secret: string, expiresAt: nat, usedAt: Option<nat>)

  datatype VerificationToken = VerificationToken(
    userId: Id, email: string, secret: string, expiresAt: nat, usedAt: Option<nat>)

  datatype Totp = Totp(secret: string, confirmedAt: Option<nat>)

  /** The tables, and the clock as the last call read it. */
  datatype State = State(
    clock: nat, users: map<Id, User>, passwords: map<Id, string>, totps: map<Id, Totp>,
    sessions: map<Id, Credential>, apiTokens: map<Id, Credential>,
    resets: map<Id, ResetToken>, verifications: map<Id, VerificationToken>)

  datatype Reply = Done | SignedIn(token: string) | Issued(token: string) | Identified(userId: Id)
    | Unauthorized | Conflict | NotFound | Forbidden | BadRequest

  datatype Outcome = Outcome(state: State, reply: Reply)

  /**
   Checking a code against a secret at a time, and reading the session id out of a signed token that has
   not expired.
   */
  datatype Env = Env(verifyTotp: (string, string, nat) -> bool, sessionOf: (string, nat) -> Option<Id>)

  const EMPTY := State(0, map[], map[], map[], map[], map[], map[], map[])

  const RESET_TTL := 3_600_000
  const VERIFICATION_TTL := 86_400_000
  const DAY := 86_400_000

  /** A call begins: it reads the clock. */
  function Tick(s: State, now: nat): State {
    s.(clock := now)
  }

  // ---------- signing in ----------

  predicate Identifies(u: User, identifier: string) {
    Lower(u.username) == Lower(identifier) || (u.email.Some? && Lower(u.email.value) == Lower(identifier))
  }

  predicate Candidate(s: State, u: Id, identifier: string, withPassword: bool) {
    u in s.users && s.users[u].status.Active? && Identifies(s.users[u], Trim(identifier))
    && (withPassword ==> u in s.passwords)
  }

  /** The row the database returns is one that matches; none only when there is none. */
  ghost predicate RowReturned(s: State, row: Option<Id>, identifier: string, withPassword: bool) {
    if row.Some? then Candidate(s, row.value, identifier, withPassword)
    else forall u :: !Candidate(s, u, identifier, withPassword)
  }

  function SignIn(s: State, userId: Id, session: Id, token: string, ttl: nat): (r: Outcome)
    ensures r.state == s.(sessions := r.state.sessions)
  {
    Outcome(s.(sessions := s.sessions[session := Credential(userId, token, Some(s.clock + ttl), None, Some(s.clock))]),
            SignedIn(token))
  }

  predicate TwoFactorPassed(s: State, userId: Id, code: string, env: Env)
    requires userId in s.users
  {
    s.users[userId].twoFactorEnabled ==>
      userId in s.totps && s.totps[userId].confirmedAt.Some? && env.verifyTotp(code, s.totps[userId].secret, s.clock)
  }

  function Login(
    s: State, row: Option<Id>, password: string, code: string, session: Id, token: string, ttl: nat, env: Env
  ): (r: Outcome)
    requires row.Some? ==> row.value in s.users
    ensures r.state == s.(sessions := r.state.sessions)
  {
    if row.None? || row.value !in s.passwords || s.passwords[row.value] != password then Outcome(s, Unauthorized)
    else if !TwoFactorPassed(s, row.value, code, env) then Outcome(s, Unauthorized)
    else SignIn(s, row.value, session, token, ttl)
  }

  predicate NameTaken(users: map<Id, User>, username: string, email: string) {
    exists u :: u in users && (Lower(users[u].username) == Lower(username) || users[u].email == Some(email))
  }

  function WithUser(s: State, userId: Id, username: string, email: string, password: string): State {
    s.(users := s.users[userId := User(username, Some(email), None, PlainUser, Active, false)],
       passwords := s.passwords[userId := password])
  }

  function RegisterAs(
    s: State, username: string, email: string, password: string, userId: Id, verification: Id, secret: string,
    session: Id, token: string, ttl: nat
  ): (r: Outcome)
    ensures r.state == s.(
      users := r.state.users, passwords := r.state.passwords, sessions := r.state.sessions,
      verifications := r.state.verifications)
  {
    if NameTaken(s.users, username, email) then Outcome(s, Conflict)
    else
      SignIn(IssueVerification(WithUser(s, userId, username, email, password), userId, email, verification, secret),
             userId, session, token, ttl)
  }

  function Register(
    s: State, username: string, email: string, password: string, userId: Id, verification: Id, secret: string,
    session: Id, token: string, ttl: nat
  ): Outcome {
    RegisterAs(s, Trim(username), Lower(Trim(email)), password, userId, verification, secret, session, token, ttl)
  }

  // ---------- password resets ----------

  function Superseded(t: ResetToken, userId: Id, now: nat): ResetToken {
    if t.userId == userId && t.usedAt.None? && t.expiresAt > now then t.(usedAt := Some(now)) else t
  }

  function SupersedeAll(resets: map<Id, ResetToken>, userId: Id, now: nat): (r: map<Id, ResetToken>)
    ensures r.Keys == resets.Keys
  {
    map id | id in resets :: Superseded(resets[id], userId, now)
  }

  function RequestPasswordReset(s: State, row: Option<Id>, id: Id, secret: string): (r: Outcome)
    requires row.Some? ==> row.value in s.users
    ensures r.state == s.(resets := r.state.resets)
  {
    if row.None? || s.users[row.value].email.None? then Outcome(s, Done)
    else
      var token := ResetToken(row.value, secret, s.clock + RESET_TTL, None);
      Outcome(s.(resets := SupersedeAll(s.resets, row.value, s.clock)[id := token]), Done)
  }

  function Revoked(c: Credential, userId: Id, now: nat): Credential {
    if c.userId == userId && c.revokedAt.None? then c.(revokedAt := Some(now)) else c
  }

  function RevokeAll(credentials: map<Id, Credential>, userId: Id, now: nat): (r: map<Id, Credential>)
    ensures r.Keys == credentials.Keys
  {
    map id | id in credentials :: Revoked(credentials[id], userId, now)
  }

  /** Every session and API token of the user is revoked. */
  function Clear(s: State, userId: Id): (r: State)
    ensures r == s.(sessions := r.sessions, apiTokens := r.apiTokens)
  {
    s.(sessions := RevokeAll(s.sessions, userId, s.clock), apiTokens := RevokeAll(s.apiTokens, userId, s.clock))
  }

  predicate IsReset(resets: map<Id, ResetToken>, secret: string, id: Id) {
    id in resets && resets[id].secret == secret
  }

  ghost predicate ResetSecretsUnique(resets: map<Id, ResetToken>) {
    forall secret, a, b :: IsReset(resets, secret, a) && IsReset(resets, secret, b) ==> a == b
  }

  function FindReset(resets: map<Id, ResetToken>, secret: string): (r: Option<Id>)
    requires ResetSecretsUnique(resets)
    ensures r.Some? ==> IsReset(resets, secret, r.value)
    ensures r.None? ==> forall id :: !IsReset(resets, secret, id)
  {
    if exists id :: id in resets && IsReset(resets, secret, id) then
      var id :| id in resets && IsReset(resets, secret, id);
      Some(id)
    else None
  }

  predicate ResetLive(t: ResetToken, now: nat) {
    t.usedAt.None? && t.expiresAt > now
  }

  function RedeemReset(s: State, secret: string, newPassword: string): (r: Outcome)
    requires ResetSecretsUnique(s.resets)
    ensures r.state == s.(
      passwords := r.state.passwords, resets := r.state.resets, sessions := r.state.sessions,
      apiTokens := r.state.apiTokens)
  {
    var id := FindReset(s.resets, secret);
    if id.None? || !ResetLive(s.resets[id.value], s.clock) then Outcome(s, Unauthorized)
    else
      var t := s.resets[id.value];
      Outcome(Clear(s.(passwords := s.passwords[t.userId := newPassword],
                       resets := s.resets[id.value := t.(usedAt := Some(s.clock))]), t.userId), Done)
  }

  function ConfirmPasswordReset(s: State, token: string, newPassword: string): Outcome
    requires ResetSecretsUnique(s.resets)
  {
    RedeemReset(s, Trim(token), newPassword)
  }

  // ---------- email addresses ----------

  predicate VerificationLive(t: VerificationToken, now: nat) {
    t.usedAt.None? && t.expiresAt > now
  }

  predicate IsPending(verifications: map<Id, VerificationToken>, id: Id, userId: Id, email: string, now: nat) {
    id in verifications && verifications[id].userId == userId && verifications[id].email == email
    && VerificationLive(verifications[id], now)
  }

  predicate AnyPending(verifications: map<Id, VerificationToken>, userId: Id, email: string, now: nat) {
    exists id :: id in verifications && IsPending(verifications, id, userId, email, now)
  }

  function IssueVerification(s: State, userId: Id, email: string, id: Id, secret: string): (r: State)
    ensures r == s.(verifications := r.verifications)
  {
    if AnyPending(s.verifications, userId, email, s.clock) then s
    else
      var token := VerificationToken(userId, email, secret, s.clock + VERIFICATION_TTL, None);
      s.(verifications := s.verifications[id := token])
  }

  function RequestEmailVerification(s: State, userId: Id, id: Id, secret: string): (r: Outcome)
    ensures r.state == s.(verifications := r.state.verifications)
  {
    if userId !in s.users || s.users[userId].email.None? || s.users[userId].emailVerifiedAt.Some? then Outcome(s, Done)
    else Outcome(IssueVerification(s, userId, s.users[userId].email.value, id, secret), Done)
  }

  predicate IsVerification(verifications: map<Id, VerificationToken>, secret: string, id: Id) {
    id in verifications && verifications[id].secret == secret
  }

  ghost predicate VerificationSecretsUnique(verifications: map<Id, VerificationToken>) {
    forall secret, a, b :: IsVerification(verifications, secret, a) && IsVerification(verifications, secret, b) ==>
      a == b
  }

  function FindVerification(verifications: map<Id, VerificationToken>, secret: string): (r: Option<Id>)
    requires VerificationSecretsUnique(verifications)
    ensures r.Some? ==> IsVerification(verifications, secret, r.value)
    ensures r.None? ==> forall id :: !IsVerification(verifications, secret, id)
  {
    if exists id :: id in verifications && IsVerification(verifications, secret, id) then
      var id :| id in verifications && IsVerification(verifications, secret, id);
      Some(id)
    else None
  }

  /** The token must be live and the address still the user's. */
  predicate Confirmable(s: State, t: VerificationToken) {
    VerificationLive(t, s.clock) && t.userId in s.users && s.users[t.userId].email == Some(t.email)
  }

  function RedeemVerification(s: State, secret: string): (r: Outcome)
    requires VerificationSecretsUnique(s.verifications)
    ensures r.state == s.(users := r.state.users, verifications := r.state.verifications)
  {
    var id := FindVerification(s.verifications, secret);
    if id.None? || !Confirmable(s, s.verifications[id.value]) then Outcome(s, Unauthorized)
    else
      var t := s.verifications[id.value];
      Outcome(s.(users := s.users[t.userId := s.users[t.userId].(emailVerifiedAt := Some(s.clock))],
                 verifications := s.verifications[id.value := t.(usedAt := Some(s.clock))]), Done)
  }

  function ConfirmEmailVerification(s: State, token: string): Outcome
    requires VerificationSecretsUnique(s.verifications)
  {
    RedeemVerification(s, Trim(token))
  }

  /** `None` leaves the address out of the update; blank text removes it. */
  function NextEmail(email: Option<string>): Option<Option<string>> {
    if email.None? then None
    else if Trim(email.value) == [] then Some(None)
    else Some(Some(Lower(Trim(email.value))))
  }

  predicate EmailTaken(users: map<Id, User>, email: Option<string>, userId: Id) {
    email.Some? && exists u :: u in users && u != userId && users[u].email == email
  }

  /** A different address is not verified; the same one stays as it was. */
  function ChangeEmail(s: State, userId: Id, next: Option<Option<string>>): (r: Outcome)
    ensures r.state == s.(users := r.state.users)
  {
    if userId !in s.users then Outcome(s, NotFound)
    else if next.None? || s.users[userId].email == next.value then Outcome(s, Done)
    else if EmailTaken(s.users, next.value, userId) then Outcome(s, Conflict)
    else Outcome(s.(users := s.users[userId := s.users[userId].(email := next.value, emailVerifiedAt := None)]), Done)
  }

  function UpdateViewerProfile(s: State, userId: Id, email: Option<string>): (r: Outcome)
    ensures r.state == s.(users := r.state.users)
  {
    ChangeEmail(s, userId, NextEmail(email))
  }

  // ---------- two factors ----------

  function SetupTwoFactor(s: State, userId: Id, secret: string): (r: Outcome)
    ensures r.state == s.(totps := r.state.totps)
  {
    if userId !in s.users then Outcome(s, NotFound)
    else Outcome(s.(totps := s.totps[userId := Totp(secret, None)]), Issued(secret))
  }

  predicate CodePassed(s: State, userId: Id, code: string, env: Env) {
    userId in s.users && userId in s.totps && env.verifyTotp(code, s.totps[userId].secret, s.clock)
  }

  function EnableTwoFactor(s: State, userId: Id, code: string, env: Env): (r: Outcome)
    ensures r.state == s.(totps := r.state.totps, users := r.state.users)
  {
    if !CodePassed(s, userId, code, env) then Outcome(s, Unauthorized)
    else Outcome(s.(totps := s.totps[userId := s.totps[userId].(confirmedAt := Some(s.clock))],
                    users := s.users[userId := s.users[userId].(twoFactorEnabled := true)]), Done)
  }

  function DisableTwoFactor(s: State, userId: Id, code: string, env: Env): (r: Outcome)
    ensures r.state == s.(totps := r.state.totps, users := r.state.users)
  {
    if !CodePassed(s, userId, code, env) then Outcome(s, Unauthorized)
    else Outcome(s.(totps := s.totps - {userId},
                    users := s.users[userId := s.users[userId].(twoFactorEnabled := false)]), Done)
  }

  // ---------- API tokens and sessions ----------

  predicate DaysAllowed(days: Option<int>) {
    days.Some? ==> 0 < days.value <= 3660
  }

  function AddViewerToken(s: State, userId: Id, days: Option<int>, id: Id, token: string): (r: Outcome)
    requires DaysAllowed(days)
    ensures r.state == s.(apiTokens := r.state.apiTokens)
  {
    if userId !in s.users then Outcome(s, NotFound)
    else
      var expiresAt := if days.Some? then Some(s.clock + days.value * DAY) else None;
      Outcome(s.(apiTokens := s.apiTokens[id := Credential(userId, token, expiresAt, None, None)]), Issued(token))
  }

  function CreateViewerToken(s: State, userId: Id, name: string, days: Option<int>, id: Id, token: string): Outcome {
    if Trim(name) == [] || !DaysAllowed(days) then Outcome(s, BadRequest)
    else AddViewerToken(s, userId, days, id, token)
  }

  predicate Owned(credentials: map<Id, Credential>, id: Id, userId: Id) {
    id in credentials && credentials[id].userId == userId
  }

  /** Revoking again only moves the time. */
  function RevokeViewerToken(s: State, id: Id, userId: Id): (r: Outcome)
    ensures r.state == s.(apiTokens := r.state.apiTokens)
  {
    if !Owned(s.apiTokens, id, userId) then Outcome(s, NotFound)
    else Outcome(s.(apiTokens := s.apiTokens[id := s.apiTokens[id].(revokedAt := Some(s.clock))]), Done)
  }

  function RevokeViewerSession(s: State, id: Id, userId: Id): (r: Outcome)
    ensures r.state == s.(sessions := r.state.sessions)
  {
    if !Owned(s.sessions, id, userId) then Outcome(s, Unauthorized)
    else Outcome(s.(sessions := s.sessions[id := s.sessions[id].(revokedAt := Some(s.clock))]), Done)
  }

  function RoleFrom(text: string): Option<Role> {
    var name := Upper(Trim(text));
    if name == "USER" then Some(PlainUser)
    else if name == "MODERATOR" then Some(Moderator)
    else if name == "ADMIN" then Some(Admin)
    else None
  }

  function StatusFrom(text: string): Option<Status> {
    var name := Upper(Trim(text));
    if name == "ACTIVE" then Some(Active)
    else if name == "SUSPENDED" then Some(Suspended)
    else if name == "DELETED" then Some(Deleted)
    else None
  }

  function RoleOf(role: Option<string>): Option<Role> {
    if role.None? then None else RoleFrom(role.value)
  }

  function StatusOf(status: Option<string>): Option<Status> {
    if status.None? then None else StatusFrom(status.value)
  }

  predicate Supported(role: Option<string>, status: Option<string>) {
    (role.Some? ==> RoleOf(role).Some?) && (status.Some? ==> StatusOf(status).Some?)
  }

  /** An account made other than active loses its sessions and API tokens; administrators cannot restrict themselves. */
  function UpdateUserAccount(
      s: State, userId: Id, role: Option<Role>, status: Option<Status>, actorId: Id): (r: Outcome)
    ensures r.state == s.(users := r.state.users, sessions := r.state.sessions, apiTokens := r.state.apiTokens)
  {
    var restricts := status.Some? && !status.value.Active?;
    if userId == actorId && ((role.Some? && !role.value.Admin?) || restricts) then Outcome(s, Forbidden)
    else if userId !in s.users then Outcome(s, NotFound)
    else
      var user := s.users[userId].(role := if role.Some? then role.value else s.users[userId].role,
                                   status := if status.Some? then status.value else s.users[userId].status);
      var s1 := s.(users := s.users[userId := user]);
      Outcome(if restricts then Clear(s1, userId) else s1, Done)
  }

  // ---------- who a bearer token is ----------

  predicate HasToken(credentials: map<Id, Credential>, id: Id, token: string) {
    id in credentials && credentials[id].token == token
  }

  ghost predicate TokensUnique(credentials: map<Id, Credential>) {
    forall token, a, b :: HasToken(credentials, a, token) && HasToken(credentials, b, token) ==> a == b
  }

  /** Not revoked, not expired, and of an active account. */
  predicate Usable(s: State, c: Credential) {
    c.revokedAt.None? && (c.expiresAt.Some? ==> c.expiresAt.value > s.clock)
    && c.userId in s.users && s.users[c.userId].status.Active?
  }

  predicate UsableAt(s: State, credentials: map<Id, Credential>, id: Id, token: string) {
    HasToken(credentials, id, token) && Usable(s, credentials[id])
  }

  function FindApiToken(s: State, token: string): (r: Option<Id>)
    requires TokensUnique(s.apiTokens)
    ensures r.Some? ==> UsableAt(s, s.apiTokens, r.value, token)
    ensures r.None? ==> forall id :: !UsableAt(s, s.apiTokens, id, token)
  {
    if exists id :: id in s.apiTokens && UsableAt(s, s.apiTokens, id, token) then
      var id :| id in s.apiTokens && UsableAt(s, s.apiTokens, id, token);
      Some(id)
    else None
  }

  /** First as the token of a session, then as an API token. */
  function VerifyBearerToken(s: State, token: string, env: Env): (r: Outcome)
    requires TokensUnique(s.apiTokens)
    ensures r.state == s.(sessions := r.state.sessions, apiTokens := r.state.apiTokens)
  {
    var session := env.sessionOf(token, s.clock);
    if session.Some? && UsableAt(s, s.sessions, session.value, token) then
      var c := s.sessions[session.value];
      Outcome(s.(sessions := s.sessions[session.value := c.(lastUsedAt := Some(s.clock))]), Identified(c.userId))
    else
      var id := FindApiToken(s, token);
      if id.None? then Outcome(s, Unauthorized)
      else
        var c := s.apiTokens[id.value];
        Outcome(s.(apiTokens := s.apiTokens[id.value := c.(lastUsedAt := Some(s.clock))]), Identified(c.userId))
  }
}
