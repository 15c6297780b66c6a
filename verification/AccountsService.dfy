/** The account services on their tables, each method proved to perform its call of `Credentials`. */
module AccountsService {
  import opened Text
  import opened Credentials
  import Runs = CredentialRuns

  class Accounts {
    ghost var clock: nat
    var users: map<Id, User>
    var passwords: map<Id, string>
    var totps: map<Id, Totp>
    var sessions: map<Id, Credential>
    var apiTokens: map<Id, Credential>
    var resets: map<Id, ResetToken>
    var verifications: map<Id, VerificationToken>
    const env: Env

    ghost function View(): State
      reads this
    {
      State(clock, users, passwords, totps, sessions, apiTokens, resets, verifications)
    }

    constructor (env: Env)
      ensures View() == EMPTY && Runs.Inv(View()) && this.env == env
    {
      this.env := env;
      clock, users, passwords, totps := 0, map[], map[], map[];
      sessions, apiTokens, resets, verifications := map[], map[], map[], map[];
      new;
      assert Runs.Run([], env) == EMPTY;
    }

    /** A call begins by reading the clock. */
    ghost method Begin(now: nat)
      requires Runs.Inv(View()) && now >= clock
      modifies this`clock
      ensures View() == Tick(old(View()), now) && Runs.Inv(View())
    {
      Runs.TickKeeps(View(), now);
      clock := now;
    }

    // ---------- signing in ----------

    method CreateAuthPayload(userId: Id, session: Id, token: string, ttl: nat, now: nat) returns (reply: Reply)
      requires clock == now
      modifies this`sessions
      ensures Outcome(View(), reply) == SignIn(old(View()), userId, session, token, ttl)
    {
      sessions := sessions[session := Credential(userId, token, Some(now + ttl), None, Some(now))];
      reply := SignedIn(token);
    }

    method LogIn(
      identifier: string, row: Option<Id>, password: string, code: string, session: Id, token: string, ttl: nat,
      now: nat
    ) returns (reply: Reply)
      requires Runs.Inv(View()) && now >= clock && session !in sessions
      requires RowReturned(View(), row, identifier, false)
      modifies this
      ensures Outcome(View(), reply) == Login(Tick(old(View()), now), row, password, code, session, token, ttl, env)
      ensures Runs.Inv(View())
    {
      Begin(now);
      Runs.LoginKeeps(View(), row, password, code, session, token, ttl, env);
      if row.None? || row.value !in passwords {
        return Unauthorized;
      }
      var userId := row.value;
      if passwords[userId] != password {
        return Unauthorized;
      }
      if users[userId].twoFactorEnabled {
        if userId !in totps || totps[userId].confirmedAt.None? || !env.verifyTotp(code, totps[userId].secret, now) {
          return Unauthorized;
        }
      }
      reply := CreateAuthPayload(userId, session, token, ttl, now);
    }

    method RegisterUser(
      username: string, email: string, password: string, userId: Id, verification: Id, secret: string,
      session: Id, token: string, ttl: nat, now: nat
    ) returns (reply: Reply)
      requires Runs.Inv(View()) && now >= clock && userId !in users && session !in sessions
      requires verification !in verifications && forall a :: !IsVerification(verifications, secret, a)
      modifies this
      ensures Outcome(View(), reply)
           == Register(Tick(old(View()), now), username, email, password, userId, verification, secret, session, token,
               ttl)
      ensures Runs.Inv(View())
    {
      Begin(now);
      reply := CreateUser(Trim(username), Lower(Trim(email)), password, userId, verification, secret, session, token,
          ttl, now);
    }

    method CreateUser(
      name: string, address: string, password: string, userId: Id, verification: Id, secret: string,
      session: Id, token: string, ttl: nat, now: nat
    ) returns (reply: Reply)
      requires Runs.Inv(View()) && clock == now && userId !in users && session !in sessions
      requires verification !in verifications && forall a :: !IsVerification(verifications, secret, a)
      modifies this`users, this`passwords, this`verifications, this`sessions
      ensures Outcome(View(), reply)
           == RegisterAs(old(View()), name, address, password, userId, verification, secret, session, token, ttl)
      ensures Runs.Inv(View())
    {
      Runs.RegisterKeeps(View(), name, address, password, userId, verification, secret, session, token, ttl);
      if NameTaken(users, name, address) {
        return Conflict;
      }
      users := users[userId := User(name, Some(address), None, PlainUser, Active, false)];
      passwords := passwords[userId := password];
      IssueEmailVerification(userId, address, verification, secret, now);
      reply := CreateAuthPayload(userId, session, token, ttl, now);
    }

    // ---------- one-time tokens ----------

    method RequestReset(identifier: string, row: Option<Id>, id: Id, secret: string, now: nat) returns (reply: Reply)
      requires Runs.Inv(View()) && now >= clock && RowReturned(View(), row, identifier, true)
      requires id !in resets && forall a :: !IsReset(resets, secret, a)
      modifies this
      ensures Outcome(View(), reply) == RequestPasswordReset(Tick(old(View()), now), row, id, secret)
      ensures Runs.Inv(View())
    {
      Begin(now);
      reply := IssueReset(row, id, secret, now);
    }

    method IssueReset(row: Option<Id>, id: Id, secret: string, now: nat) returns (reply: Reply)
      requires Runs.Inv(View()) && clock == now && (row.Some? ==> row.value in users)
      requires id !in resets && forall a :: !IsReset(resets, secret, a)
      modifies this`resets
      ensures Outcome(View(), reply) == RequestPasswordReset(old(View()), row, id, secret)
      ensures Runs.Inv(View())
    {
      Runs.RequestResetKeeps(View(), row, id, secret);
      if row.Some? && users[row.value].email.Some? {
        resets := SupersedeAll(resets, row.value, now);
        resets := resets[id := ResetToken(row.value, secret, now + RESET_TTL, None)];
      }
      reply := Done;
    }

    method RevokeEverything(userId: Id, now: nat)
      requires clock == now
      modifies this`sessions, this`apiTokens
      ensures View() == Clear(old(View()), userId)
    {
      sessions := RevokeAll(sessions, userId, now);
      apiTokens := RevokeAll(apiTokens, userId, now);
    }

    method ConfirmReset(token: string, newPassword: string, now: nat) returns (reply: Reply)
      requires Runs.Inv(View()) && now >= clock
      modifies this
      ensures Outcome(View(), reply) == ConfirmPasswordReset(Tick(old(View()), now), token, newPassword)
      ensures Runs.Inv(View())
    {
      Begin(now);
      Runs.ConfirmResetKeeps(View(), Trim(token), newPassword);
      var id := FindReset(resets, Trim(token));
      if id.None? {
        return Unauthorized;
      }
      var t := resets[id.value];
      if t.usedAt.Some? {
        return Unauthorized;
      }
      if t.expiresAt <= now {
        return Unauthorized;
      }
      passwords := passwords[t.userId := newPassword];
      resets := resets[id.value := t.(usedAt := Some(now))];
      RevokeEverything(t.userId, now);
      reply := Done;
    }

    method IssueEmailVerification(userId: Id, email: string, id: Id, secret: string, now: nat)
      requires clock == now
      modifies this`verifications
      ensures View() == IssueVerification(old(View()), userId, email, id, secret)
    {
      if !AnyPending(verifications, userId, email, now) {
        verifications := verifications[id := VerificationToken(userId, email, secret, now + VERIFICATION_TTL, None)];
      }
    }

    method RequestVerification(userId: Id, id: Id, secret: string, now: nat) returns (reply: Reply)
      requires Runs.Inv(View()) && now >= clock
      requires id !in verifications && forall a :: !IsVerification(verifications, secret, a)
      modifies this
      ensures Outcome(View(), reply) == RequestEmailVerification(Tick(old(View()), now), userId, id, secret)
      ensures Runs.Inv(View())
    {
      Begin(now);
      Runs.RequestVerificationKeeps(View(), userId, id, secret);
      if userId in users && users[userId].email.Some? && users[userId].emailVerifiedAt.None? {
        IssueEmailVerification(userId, users[userId].email.value, id, secret, now);
      }
      reply := Done;
    }

    method ConfirmVerification(token: string, now: nat) returns (reply: Reply)
      requires Runs.Inv(View()) && now >= clock
      modifies this
      ensures Outcome(View(), reply) == ConfirmEmailVerification(Tick(old(View()), now), token)
      ensures Runs.Inv(View())
    {
      Begin(now);
      Runs.ConfirmVerificationKeeps(View(), Trim(token));
      var id := FindVerification(verifications, Trim(token));
      if id.None? {
        return Unauthorized;
      }
      var t := verifications[id.value];
      if t.usedAt.Some? {
        return Unauthorized;
      }
      if t.expiresAt <= now || t.userId !in users || users[t.userId].email != Some(t.email) {
        return Unauthorized;
      }
      users := users[t.userId := users[t.userId].(emailVerifiedAt := Some(now))];
      verifications := verifications[id.value := t.(usedAt := Some(now))];
      reply := Done;
    }

    method UpdateProfile(userId: Id, email: Option<string>, now: nat) returns (reply: Reply)
      requires Runs.Inv(View()) && now >= clock
      modifies this
      ensures Outcome(View(), reply) == UpdateViewerProfile(Tick(old(View()), now), userId, email)
      ensures Runs.Inv(View())
    {
      Begin(now);
      reply := SetEmail(userId, NextEmail(email), now);
    }

    method SetEmail(userId: Id, next: Option<Option<string>>, now: nat) returns (reply: Reply)
      requires Runs.Inv(View()) && clock == now
      modifies this`users
      ensures Outcome(View(), reply) == ChangeEmail(old(View()), userId, next)
      ensures Runs.Inv(View())
    {
      Runs.ProfileKeeps(View(), userId, next);
      if userId !in users {
        return NotFound;
      }
      if next.Some? && users[userId].email != next.value {
        if EmailTaken(users, next.value, userId) {
          return Conflict;
        }
        users := users[userId := users[userId].(email := next.value, emailVerifiedAt := None)];
      }
      reply := Done;
    }

    // ---------- two factors ----------

    method SetUpTwoFactor(userId: Id, secret: string, now: nat) returns (reply: Reply)
      requires Runs.Inv(View()) && now >= clock
      modifies this
      ensures Outcome(View(), reply) == SetupTwoFactor(Tick(old(View()), now), userId, secret)
      ensures Runs.Inv(View())
    {
      Begin(now);
      Runs.SetupKeeps(View(), userId, secret);
      if userId !in users {
        return NotFound;
      }
      totps := totps[userId := Totp(secret, None)];
      reply := Issued(secret);
    }

    method TurnTwoFactorOn(userId: Id, code: string, now: nat) returns (reply: Reply)
      requires Runs.Inv(View()) && now >= clock
      modifies this
      ensures Outcome(View(), reply) == EnableTwoFactor(Tick(old(View()), now), userId, code, env)
      ensures Runs.Inv(View())
    {
      Begin(now);
      Runs.EnableKeeps(View(), userId, code, env);
      if userId !in totps || !env.verifyTotp(code, totps[userId].secret, now) {
        return Unauthorized;
      }
      totps := totps[userId := totps[userId].(confirmedAt := Some(now))];
      users := users[userId := users[userId].(twoFactorEnabled := true)];
      reply := Done;
    }

    method TurnTwoFactorOff(userId: Id, code: string, now: nat) returns (reply: Reply)
      requires Runs.Inv(View()) && now >= clock
      modifies this
      ensures Outcome(View(), reply) == DisableTwoFactor(Tick(old(View()), now), userId, code, env)
      ensures Runs.Inv(View())
    {
      Begin(now);
      Runs.DisableKeeps(View(), userId, code, env);
      if userId !in totps || !env.verifyTotp(code, totps[userId].secret, now) {
        return Unauthorized;
      }
      totps := totps - {userId};
      users := users[userId := users[userId].(twoFactorEnabled := false)];
      reply := Done;
    }

    // ---------- credentials ----------

    method CreateApiToken(
      userId: Id, name: string, days: Option<int>, id: Id, token: string, now: nat
    ) returns (reply: Reply)
      requires Runs.Inv(View()) && now >= clock && id !in apiTokens
      requires forall a :: !HasToken(apiTokens, a, token)
      modifies this
      ensures Outcome(View(), reply) == CreateViewerToken(Tick(old(View()), now), userId, name, days, id, token)
      ensures Runs.Inv(View())
    {
      Begin(now);
      if Trim(name) == [] {
        return BadRequest;
      }
      if days.Some? && (days.value <= 0 || days.value > 3660) {
        return BadRequest;
      }
      reply := InsertApiToken(userId, days, id, token, now);
    }

    method InsertApiToken(userId: Id, days: Option<int>, id: Id, token: string, now: nat) returns (reply: Reply)
      requires Runs.Inv(View()) && clock == now && DaysAllowed(days)
      requires id !in apiTokens && forall a :: !HasToken(apiTokens, a, token)
      modifies this`apiTokens
      ensures Outcome(View(), reply) == AddViewerToken(old(View()), userId, days, id, token)
      ensures Runs.Inv(View())
    {
      Runs.AddTokenKeeps(View(), userId, days, id, token);
      if userId !in users {
        return NotFound;
      }
      var expiresAt := if days.Some? then Some(now + days.value * DAY) else None;
      apiTokens := apiTokens[id := Credential(userId, token, expiresAt, None, None)];
      reply := Issued(token);
    }

    method RevokeApiToken(id: Id, userId: Id, now: nat) returns (reply: Reply)
      requires Runs.Inv(View()) && now >= clock
      modifies this
      ensures Outcome(View(), reply) == RevokeViewerToken(Tick(old(View()), now), id, userId)
      ensures Runs.Inv(View())
    {
      Begin(now);
      Runs.RevokeKeeps(View(), id, userId);
      if id !in apiTokens || apiTokens[id].userId != userId {
        return NotFound;
      }
      apiTokens := apiTokens[id := apiTokens[id].(revokedAt := Some(now))];
      reply := Done;
    }

    method RevokeSession(id: Id, userId: Id, now: nat) returns (reply: Reply)
      requires Runs.Inv(View()) && now >= clock
      modifies this
      ensures Outcome(View(), reply) == RevokeViewerSession(Tick(old(View()), now), id, userId)
      ensures Runs.Inv(View())
    {
      Begin(now);
      Runs.RevokeKeeps(View(), id, userId);
      if id !in sessions || sessions[id].userId != userId {
        return Unauthorized;
      }
      sessions := sessions[id := sessions[id].(revokedAt := Some(now))];
      reply := Done;
    }

    method UpdateAccount(
      userId: Id, role: Option<Role>, status: Option<Status>, actorId: Id, now: nat
    ) returns (reply: Reply)
      requires Runs.Inv(View()) && now >= clock
      modifies this
      ensures Outcome(View(), reply) == UpdateUserAccount(Tick(old(View()), now), userId, role, status, actorId)
      ensures Runs.Inv(View())
    {
      Begin(now);
      reply := WriteAccount(userId, role, status, actorId, now);
    }

    method WriteAccount(
      userId: Id, role: Option<Role>, status: Option<Status>, actorId: Id, now: nat
    ) returns (reply: Reply)
      requires Runs.Inv(View()) && clock == now
      modifies this`users, this`sessions, this`apiTokens
      ensures Outcome(View(), reply) == UpdateUserAccount(old(View()), userId, role, status, actorId)
      ensures Runs.Inv(View())
    {
      Runs.AccountKeeps(View(), userId, role, status, actorId);
      var shouldRevoke := status.Some? && status.value != Active;
      if userId == actorId && ((role.Some? && role.value != Admin) || shouldRevoke) {
        return Forbidden;
      }
      if userId !in users {
        return NotFound;
      }
      ChangeRoleAndStatus(userId, role, status);
      if shouldRevoke {
        RevokeEverything(userId, now);
      }
      reply := Done;
    }

    method ChangeRoleAndStatus(userId: Id, role: Option<Role>, status: Option<Status>)
      requires userId in users
      modifies this`users
      ensures users == old(users)[userId := old(users)[userId].(
        role := if role.Some? then role.value else old(users)[userId].role,
        status := if status.Some? then status.value else old(users)[userId].status)]
    {
      var user := users[userId];
      if role.Some? {
        user := user.(role := role.value);
      }
      if status.Some? {
        user := user.(status := status.value);
      }
      users := users[userId := user];
    }

    /** Roles and statuses arrive as text, and an unknown one is refused before anything is read. */
    method UpdateAccountFromText(
      userId: Id, role: Option<string>, status: Option<string>, actorId: Id, now: nat
    ) returns (reply: Reply)
      requires Runs.Inv(View()) && now >= clock
      modifies this
      ensures Runs.Inv(View())
      ensures !Supported(role, status) ==> View() == Tick(old(View()), now) && reply == Forbidden
      ensures Supported(role, status) ==>
        Outcome(View(), reply)
            == UpdateUserAccount(Tick(old(View()), now), userId, RoleOf(role), StatusOf(status), actorId)
    {
      if !Supported(role, status) {
        Begin(now);
        return Forbidden;
      }
      reply := UpdateAccount(userId, RoleOf(role), StatusOf(status), actorId, now);
    }

    method VerifyBearer(token: string, now: nat) returns (reply: Reply)
      requires Runs.Inv(View()) && now >= clock
      modifies this
      ensures Outcome(View(), reply) == VerifyBearerToken(Tick(old(View()), now), token, env)
      ensures Runs.Inv(View())
    {
      Begin(now);
      Runs.VerifyKeeps(View(), token, env);
      var user := VerifySessionToken(token, now);
      if user.Some? {
        return Identified(user.value);
      }
      user := VerifyApiToken(token, now);
      reply := if user.Some? then Identified(user.value) else Unauthorized;
    }

    /** Any reason to refuse a session token leaves it to be tried as an API token. */
    method VerifySessionToken(token: string, now: nat) returns (user: Option<Id>)
      requires clock == now
      modifies this`sessions
      ensures var id := env.sessionOf(token, now);
        if id.Some? && UsableAt(old(View()), old(sessions), id.value, token) then
          user == Some(old(sessions)[id.value].userId)
          && sessions == old(sessions)[id.value := old(sessions)[id.value].(lastUsedAt := Some(now))]
        else user == None && sessions == old(sessions)
    {
      var id := env.sessionOf(token, now);
      if id.Some? && id.value in sessions {
        var c := sessions[id.value];
        if c.token == token && c.revokedAt.None? && (c.expiresAt.Some? ==> c.expiresAt.value > now)
           && c.userId in users && users[c.userId].status.Active? {
          sessions := sessions[id.value := c.(lastUsedAt := Some(now))];
          return Some(c.userId);
        }
      }
      return None;
    }

    method VerifyApiToken(token: string, now: nat) returns (user: Option<Id>)
      requires clock == now && TokensUnique(apiTokens)
      modifies this`apiTokens
      ensures var id := FindApiToken(old(View()), token);
        if id.Some? then
          user == Some(old(apiTokens)[id.value].userId)
          && apiTokens == old(apiTokens)[id.value := old(apiTokens)[id.value].(lastUsedAt := Some(now))]
        else user == None && apiTokens == old(apiTokens)
    {
      if id :| id in apiTokens && HasToken(apiTokens, id, token) {
        var c := apiTokens[id];
        if c.revokedAt.None? && (c.expiresAt.Some? ==> c.expiresAt.value > now)
           && c.userId in users && users[c.userId].status.Active? {
          assert UsableAt(View(), apiTokens, id, token);
          apiTokens := apiTokens[id := c.(lastUsedAt := Some(now))];
          return Some(c.userId);
        }
      }
      return None;
    }
  }
}
