/** What every run of the account operations keeps, and what follows about credentials and one-time tokens. */
module CredentialRuns {
  import opened Text
  import opened Credentials

  // ---------- what every state keeps ----------

  predicate LiveResetOf(resets: map<Id, ResetToken>, id: Id, userId: Id, now: nat) {
    id in resets && resets[id].userId == userId && ResetLive(resets[id], now)
  }

  ghost predicate OneLiveReset(resets: map<Id, ResetToken>, now: nat) {
    forall u, a, b :: LiveResetOf(resets, a, u, now) && LiveResetOf(resets, b, u, now) ==> a == b
  }

  ghost predicate OneLiveVerification(verifications: map<Id, VerificationToken>, now: nat) {
    forall u, e, a, b :: IsPending(verifications, a, u, e, now) && IsPending(verifications, b, u, e, now) ==> a == b
  }

  /** A redeemed token of the user, for this address, redeemed at this time. */
  predicate Confirms(verifications: map<Id, VerificationToken>, v: Id, userId: Id, email: Option<string>, at: nat) {
    v in verifications && verifications[v].userId == userId && Some(verifications[v].email) == email
    && verifications[v].usedAt == Some(at)
  }

  ghost predicate AddressConfirmed(verifications: map<Id, VerificationToken>, userId: Id, user: User) {
    user.emailVerifiedAt.Some? ==>
      exists v :: Confirms(verifications, v, userId, user.email, user.emailVerifiedAt.value)
  }

  ghost predicate AddressesConfirmed(users: map<Id, User>, verifications: map<Id, VerificationToken>) {
    forall u {:trigger AddressConfirmed(verifications, u, users[u])} :: u in users ==>
      AddressConfirmed(verifications, u, users[u])
  }

  predicate HasEmail(users: map<Id, User>, u: Id, email: string) {
    u in users && users[u].email == Some(email)
  }

  ghost predicate EmailsUnique(users: map<Id, User>) {
    forall e, u, v :: HasEmail(users, u, e) && HasEmail(users, v, e) ==> u == v
  }

  /** Two factors are enabled only with a secret, and a confirmed secret means they are enabled. */
  predicate FactorsFit(user: User, u: Id, totps: map<Id, Totp>) {
    (user.twoFactorEnabled ==> u in totps) && (u in totps && totps[u].confirmedAt.Some? ==> user.twoFactorEnabled)
  }

  ghost predicate AllFactorsFit(users: map<Id, User>, totps: map<Id, Totp>) {
    forall u {:trigger FactorsFit(users[u], u, totps)} :: u in users ==> FactorsFit(users[u], u, totps)
  }

  ghost predicate TokensInv(s: State) {
    OneLiveReset(s.resets, s.clock) && ResetSecretsUnique(s.resets)
    && OneLiveVerification(s.verifications, s.clock) && VerificationSecretsUnique(s.verifications)
  }

  ghost predicate UsersInv(s: State) {
    AddressesConfirmed(s.users, s.verifications) && EmailsUnique(s.users) && AllFactorsFit(s.users, s.totps)
    && s.totps.Keys <= s.users.Keys
  }

  ghost predicate Inv(s: State) {
    TokensUnique(s.apiTokens) && TokensInv(s) && UsersInv(s)
  }

  // ---------- a call begins ----------

  lemma TickKeeps(s: State, now: nat)
    requires Inv(s) && now >= s.clock
    ensures Inv(Tick(s, now))
  {
    LaterReset(s.resets, s.clock, now);
    LaterVerification(s.verifications, s.clock, now);
  }

  /** As time goes by tokens only die. */
  lemma LaterReset(resets: map<Id, ResetToken>, now: nat, later: nat)
    requires OneLiveReset(resets, now) && now <= later
    ensures OneLiveReset(resets, later)
  {
    forall u, a, b | LiveResetOf(resets, a, u, later) && LiveResetOf(resets, b, u, later) ensures a == b {
      assert LiveResetOf(resets, a, u, now) && LiveResetOf(resets, b, u, now);
    }
  }

  lemma LaterVerification(verifications: map<Id, VerificationToken>, now: nat, later: nat)
    requires OneLiveVerification(verifications, now) && now <= later
    ensures OneLiveVerification(verifications, later)
  {
    forall u, e, a, b | IsPending(verifications, a, u, e, later) && IsPending(verifications, b, u, e, later)
      ensures a == b {
      assert IsPending(verifications, a, u, e, now) && IsPending(verifications, b, u, e, now);
    }
  }

  // ---------- credentials ----------

  lemma ClearUnique(credentials: map<Id, Credential>, userId: Id, now: nat)
    requires TokensUnique(credentials)
    ensures TokensUnique(RevokeAll(credentials, userId, now))
  {
    var after := RevokeAll(credentials, userId, now);
    forall token, a, b | HasToken(after, a, token) && HasToken(after, b, token) ensures a == b {
      assert HasToken(credentials, a, token) && HasToken(credentials, b, token);
    }
  }

  lemma TokenKept(credentials: map<Id, Credential>, id: Id, d: Credential)
    requires TokensUnique(credentials) && id in credentials && d.token == credentials[id].token
    ensures TokensUnique(credentials[id := d])
  {
    var after := credentials[id := d];
    forall token, a, b | HasToken(after, a, token) && HasToken(after, b, token) ensures a == b {
      assert HasToken(credentials, a, token) && HasToken(credentials, b, token);
    }
  }

  lemma ClearKeeps(s: State, userId: Id)
    requires Inv(s)
    ensures Inv(Clear(s, userId))
  {
    ClearUnique(s.apiTokens, userId, s.clock);
  }

  /** A credential changed in nothing but its times, and not un-revoked. */
  predicate OnlyTimes(c: Credential, d: Credential) {
    d == c.(revokedAt := d.revokedAt, lastUsedAt := d.lastUsedAt) && (c.revokedAt.Some? ==> d.revokedAt.Some?)
  }

  // ---------- one-time tokens ----------

  lemma NewReset(resets: map<Id, ResetToken>, id: Id, t: ResetToken, now: nat)
    requires OneLiveReset(resets, now) && ResetSecretsUnique(resets)
    requires id !in resets && forall a :: !IsReset(resets, t.secret, a)
    ensures var after := SupersedeAll(resets, t.userId, now)[id := t];
      OneLiveReset(after, now) && ResetSecretsUnique(after)
  {
    var after := SupersedeAll(resets, t.userId, now)[id := t];
    forall u, a, b | LiveResetOf(after, a, u, now) && LiveResetOf(after, b, u, now) ensures a == b {
      assert a != id ==> LiveResetOf(resets, a, u, now) && u != t.userId;
      assert b != id ==> LiveResetOf(resets, b, u, now) && u != t.userId;
    }
    forall secret, a, b | IsReset(after, secret, a) && IsReset(after, secret, b) ensures a == b {
      assert a != id ==> IsReset(resets, secret, a);
      assert b != id ==> IsReset(resets, secret, b);
    }
  }

  lemma UsedReset(resets: map<Id, ResetToken>, id: Id, now: nat)
    requires OneLiveReset(resets, now) && ResetSecretsUnique(resets) && id in resets
    ensures var after := resets[id := resets[id].(usedAt := Some(now))];
      OneLiveReset(after, now) && ResetSecretsUnique(after)
  {
    var after := resets[id := resets[id].(usedAt := Some(now))];
    forall u, a, b | LiveResetOf(after, a, u, now) && LiveResetOf(after, b, u, now) ensures a == b {
      assert LiveResetOf(resets, a, u, now) && LiveResetOf(resets, b, u, now);
    }
    forall secret, a, b | IsReset(after, secret, a) && IsReset(after, secret, b) ensures a == b {
      assert IsReset(resets, secret, a) && IsReset(resets, secret, b);
    }
  }

  lemma NewVerification(verifications: map<Id, VerificationToken>, id: Id, t: VerificationToken, now: nat)
    requires OneLiveVerification(verifications, now) && VerificationSecretsUnique(verifications)
    requires !AnyPending(verifications, t.userId, t.email, now)
    requires id !in verifications && forall a :: !IsVerification(verifications, t.secret, a)
    ensures OneLiveVerification(verifications[id := t], now) && VerificationSecretsUnique(verifications[id := t])
  {
    var after := verifications[id := t];
    forall u, e, a, b | IsPending(after, a, u, e, now) && IsPending(after, b, u, e, now) ensures a == b {
      assert a != id ==> IsPending(verifications, a, u, e, now);
      assert b != id ==> IsPending(verifications, b, u, e, now);
    }
    forall secret, a, b | IsVerification(after, secret, a) && IsVerification(after, secret, b) ensures a == b {
      assert a != id ==> IsVerification(verifications, secret, a);
      assert b != id ==> IsVerification(verifications, secret, b);
    }
  }

  lemma UsedVerification(verifications: map<Id, VerificationToken>, id: Id, now: nat)
    requires OneLiveVerification(verifications, now) && VerificationSecretsUnique(verifications) && id in verifications
    ensures var after := verifications[id := verifications[id].(usedAt := Some(now))];
      OneLiveVerification(after, now) && VerificationSecretsUnique(after)
  {
    var after := verifications[id := verifications[id].(usedAt := Some(now))];
    forall u, e, a, b | IsPending(after, a, u, e, now) && IsPending(after, b, u, e, now) ensures a == b {
      assert IsPending(verifications, a, u, e, now) && IsPending(verifications, b, u, e, now);
    }
    forall secret, a, b | IsVerification(after, secret, a) && IsVerification(after, secret, b) ensures a == b {
      assert IsVerification(verifications, secret, a) && IsVerification(verifications, secret, b);
    }
  }

  // ---------- users ----------

  /** Redeemed tokens stay as they are. */
  ghost predicate RedeemedStay(before: map<Id, VerificationToken>, after: map<Id, VerificationToken>) {
    forall v :: v in before && before[v].usedAt.Some? ==> v in after && after[v] == before[v]
  }

  lemma StillConfirmed(before: map<Id, VerificationToken>, after: map<Id, VerificationToken>, u: Id, user: User)
    requires AddressConfirmed(before, u, user) && RedeemedStay(before, after)
    ensures AddressConfirmed(after, u, user)
  {
    if user.emailVerifiedAt.Some? {
      var v :| Confirms(before, v, u, user.email, user.emailVerifiedAt.value);
      assert Confirms(after, v, u, user.email, user.emailVerifiedAt.value);
    }
  }

  lemma MoreVerifications(users: map<Id, User>, before: map<Id, VerificationToken>, after: map<Id, VerificationToken>)
    requires AddressesConfirmed(users, before) && RedeemedStay(before, after)
    ensures AddressesConfirmed(users, after)
  {
    forall u | u in users ensures AddressConfirmed(after, u, users[u]) {
      StillConfirmed(before, after, u, users[u]);
    }
  }

  lemma PutUser(users: map<Id, User>, verifications: map<Id, VerificationToken>, u: Id, user: User)
    requires AddressesConfirmed(users, verifications) && AddressConfirmed(verifications, u, user)
    ensures AddressesConfirmed(users[u := user], verifications)
  {
    var after := users[u := user];
    forall a | a in after ensures AddressConfirmed(verifications, a, after[a]) {
      assert a != u ==> AddressConfirmed(verifications, a, users[a]);
    }
  }

  lemma PutEmail(users: map<Id, User>, u: Id, user: User)
    requires EmailsUnique(users) && forall v, e :: v != u && HasEmail(users, v, e) ==> user.email != Some(e)
    ensures EmailsUnique(users[u := user])
  {
    var after := users[u := user];
    forall e, a, b | HasEmail(after, a, e) && HasEmail(after, b, e) ensures a == b {
      assert a != u ==> HasEmail(users, a, e);
      assert b != u ==> HasEmail(users, b, e);
    }
  }

  lemma SameEmail(users: map<Id, User>, u: Id, user: User)
    requires EmailsUnique(users) && u in users && users[u].email == user.email
    ensures EmailsUnique(users[u := user])
  {
    forall v, e | v != u && HasEmail(users, v, e) ensures user.email != Some(e) {
      assert user.email == Some(e) ==> HasEmail(users, u, e);
    }
    PutEmail(users, u, user);
  }

  lemma PutFactors(users: map<Id, User>, totps: map<Id, Totp>, after: map<Id, Totp>, u: Id, user: User)
    requires AllFactorsFit(users, totps) && FactorsFit(user, u, after)
    requires forall a :: a != u ==> (a in after <==> a in totps) && (a in totps ==> after[a] == totps[a])
    ensures AllFactorsFit(users[u := user], after)
  {
    var users' := users[u := user];
    forall a | a in users' ensures FactorsFit(users'[a], a, after) {
      assert a != u ==> FactorsFit(users[a], a, totps);
    }
  }

  // ---------- what every call keeps ----------

  lemma IssueKeeps(s: State, userId: Id, email: string, id: Id, secret: string)
    requires Inv(s) && id !in s.verifications && forall a :: !IsVerification(s.verifications, secret, a)
    ensures Inv(IssueVerification(s, userId, email, id, secret))
  {
    var s' := IssueVerification(s, userId, email, id, secret);
    if !AnyPending(s.verifications, userId, email, s.clock) {
      NewVerification(s.verifications, id, s'.verifications[id], s.clock);
    }
    MoreVerifications(s.users, s.verifications, s'.verifications);
  }

  lemma NewUserKeeps(s: State, userId: Id, username: string, email: string, password: string)
    requires Inv(s) && userId !in s.users && !NameTaken(s.users, username, email)
    ensures Inv(WithUser(s, userId, username, email, password))
  {
    var user := User(username, Some(email), None, PlainUser, Active, false);
    PutUser(s.users, s.verifications, userId, user);
    forall v, e | v != userId && HasEmail(s.users, v, e) ensures user.email != Some(e) {
      assert s.users[v].email == Some(e);
    }
    PutEmail(s.users, userId, user);
    PutFactors(s.users, s.totps, s.totps, userId, user);
  }

  lemma RegisterKeeps(
    s: State, username: string, email: string, password: string, userId: Id, verification: Id, secret: string,
    session: Id, token: string, ttl: nat)
    requires Inv(s) && userId !in s.users
    requires verification !in s.verifications && forall a :: !IsVerification(s.verifications, secret, a)
    ensures Inv(RegisterAs(s, username, email, password, userId, verification, secret, session, token, ttl).state)
  {
    if !NameTaken(s.users, username, email) {
      NewUserKeeps(s, userId, username, email, password);
      IssueKeeps(WithUser(s, userId, username, email, password), userId, email, verification, secret);
    }
  }

  lemma RequestResetKeeps(s: State, row: Option<Id>, id: Id, secret: string)
    requires Inv(s) && (row.Some? ==> row.value in s.users)
    requires id !in s.resets && forall a :: !IsReset(s.resets, secret, a)
    ensures Inv(RequestPasswordReset(s, row, id, secret).state)
  {
    if row.Some? {
      NewReset(s.resets, id, ResetToken(row.value, secret, s.clock + RESET_TTL, None), s.clock);
    }
  }

  lemma ConfirmResetKeeps(s: State, secret: string, newPassword: string)
    requires Inv(s)
    ensures Inv(RedeemReset(s, secret, newPassword).state)
  {
    var id := FindReset(s.resets, secret);
    if id.Some? {
      UsedReset(s.resets, id.value, s.clock);
      var t := s.resets[id.value];
      ClearKeeps(s.(passwords := s.passwords[t.userId := newPassword],
                    resets := s.resets[id.value := t.(usedAt := Some(s.clock))]), t.userId);
    }
  }

  lemma RequestVerificationKeeps(s: State, userId: Id, id: Id, secret: string)
    requires Inv(s) && id !in s.verifications && forall a :: !IsVerification(s.verifications, secret, a)
    ensures Inv(RequestEmailVerification(s, userId, id, secret).state)
  {
    if userId in s.users && s.users[userId].email.Some? {
      IssueKeeps(s, userId, s.users[userId].email.value, id, secret);
    }
  }

  lemma ConfirmVerificationKeeps(s: State, secret: string)
    requires Inv(s)
    ensures Inv(RedeemVerification(s, secret).state)
  {
    var id := FindVerification(s.verifications, secret);
    if id.Some? && Confirmable(s, s.verifications[id.value]) {
      var u := s.verifications[id.value].userId;
      RedeemKeeps(s, id.value, u, s.users[u].(emailVerifiedAt := Some(s.clock)));
    }
  }

  lemma RedeemKeeps(s: State, id: Id, u: Id, user: User)
    requires Inv(s) && id in s.verifications && Confirmable(s, s.verifications[id]) && u == s.verifications[id].userId
    requires user == s.users[u].(emailVerifiedAt := Some(s.clock))
    ensures Inv(s.(users := s.users[u := user],
                   verifications := s.verifications[id := s.verifications[id].(usedAt := Some(s.clock))]))
  {
    var after := s.verifications[id := s.verifications[id].(usedAt := Some(s.clock))];
    UsedVerification(s.verifications, id, s.clock);
    MoreVerifications(s.users, s.verifications, after);
    assert Confirms(after, id, u, user.email, s.clock);
    PutUser(s.users, after, u, user);
    SameEmail(s.users, u, user);
    assert FactorsFit(s.users[u], u, s.totps);
    PutFactors(s.users, s.totps, s.totps, u, user);
  }

  lemma ProfileKeeps(s: State, userId: Id, next: Option<Option<string>>)
    requires Inv(s)
    ensures Inv(ChangeEmail(s, userId, next).state)
  {
    if userId in s.users && next.Some? && s.users[userId].email != next.value
        && !EmailTaken(s.users, next.value, userId) {
      var user := s.users[userId].(email := next.value, emailVerifiedAt := None);
      PutUser(s.users, s.verifications, userId, user);
      forall v, e | v != userId && HasEmail(s.users, v, e) ensures user.email != Some(e) {
        assert s.users[v].email == Some(e);
      }
      PutEmail(s.users, userId, user);
      assert FactorsFit(s.users[userId], userId, s.totps);
      PutFactors(s.users, s.totps, s.totps, userId, user);
    }
  }

  /** A user row changed in neither address nor confirmation. */
  lemma UserKeeps(s: State, s': State, u: Id, user: User)
    requires Inv(s) && u in s.users
    requires user.email == s.users[u].email && user.emailVerifiedAt == s.users[u].emailVerifiedAt
    requires s' == s.(users := s.users[u := user], totps := s'.totps) && s'.totps.Keys <= s.totps.Keys
    requires FactorsFit(user, u, s'.totps)
    requires forall a :: a != u ==> (a in s'.totps <==> a in s.totps) && (a in s.totps ==> s'.totps[a] == s.totps[a])
    ensures Inv(s')
  {
    assert AddressConfirmed(s.verifications, u, s.users[u]);
    PutUser(s.users, s.verifications, u, user);
    SameEmail(s.users, u, user);
    PutFactors(s.users, s.totps, s'.totps, u, user);
  }

  lemma SetupKeeps(s: State, userId: Id, secret: string)
    requires Inv(s)
    ensures Inv(SetupTwoFactor(s, userId, secret).state)
  {
    if userId in s.users {
      assert FactorsFit(s.users[userId], userId, s.totps);
      PutFactors(s.users, s.totps, s.totps[userId := Totp(secret, None)], userId, s.users[userId]);
      assert s.users[userId := s.users[userId]] == s.users;
    }
  }

  lemma EnableKeeps(s: State, userId: Id, code: string, env: Env)
    requires Inv(s)
    ensures Inv(EnableTwoFactor(s, userId, code, env).state)
  {
    if CodePassed(s, userId, code, env) {
      UserKeeps(s, EnableTwoFactor(s, userId, code, env).state, userId, s.users[userId].(twoFactorEnabled := true));
    }
  }

  lemma DisableKeeps(s: State, userId: Id, code: string, env: Env)
    requires Inv(s)
    ensures Inv(DisableTwoFactor(s, userId, code, env).state)
  {
    if CodePassed(s, userId, code, env) {
      UserKeeps(s, DisableTwoFactor(s, userId, code, env).state, userId, s.users[userId].(twoFactorEnabled := false));
    }
  }

  lemma AccountKeeps(s: State, userId: Id, role: Option<Role>, status: Option<Status>, actorId: Id)
    requires Inv(s)
    ensures Inv(UpdateUserAccount(s, userId, role, status, actorId).state)
  {
    if userId in s.users {
      var user := s.users[userId].(role := if role.Some? then role.value else s.users[userId].role,
                                   status := if status.Some? then status.value else s.users[userId].status);
      var s1 := s.(users := s.users[userId := user]);
      assert FactorsFit(s.users[userId], userId, s.totps);
      UserKeeps(s, s1, userId, user);
      ClearKeeps(s1, userId);
    }
  }

  lemma LoginKeeps(
    s: State, row: Option<Id>, password: string, code: string, session: Id, token: string, ttl: nat, env: Env)
    requires Inv(s) && (row.Some? ==> row.value in s.users)
    ensures Inv(Login(s, row, password, code, session, token, ttl, env).state)
  {
  }

  lemma AddTokenKeeps(s: State, userId: Id, days: Option<int>, id: Id, token: string)
    requires Inv(s) && DaysAllowed(days) && id !in s.apiTokens && forall a :: !HasToken(s.apiTokens, a, token)
    ensures Inv(AddViewerToken(s, userId, days, id, token).state)
  {
    var t := AddViewerToken(s, userId, days, id, token).state;
    forall secret, a, b | HasToken(t.apiTokens, a, secret) && HasToken(t.apiTokens, b, secret) ensures a == b {
      assert a != id ==> HasToken(s.apiTokens, a, secret);
      assert b != id ==> HasToken(s.apiTokens, b, secret);
    }
  }

  lemma RevokeKeeps(s: State, id: Id, userId: Id)
    requires Inv(s)
    ensures Inv(RevokeViewerToken(s, id, userId).state)
    ensures Inv(RevokeViewerSession(s, id, userId).state)
  {
    if Owned(s.apiTokens, id, userId) {
      TokenKept(s.apiTokens, id, s.apiTokens[id].(revokedAt := Some(s.clock)));
    }
  }

  lemma VerifyKeeps(s: State, token: string, env: Env)
    requires Inv(s)
    ensures Inv(VerifyBearerToken(s, token, env).state)
  {
    var id := FindApiToken(s, token);
    if id.Some? {
      TokenKept(s.apiTokens, id.value, s.apiTokens[id.value].(lastUsedAt := Some(s.clock)));
    }
  }

  // ---------- runs ----------

  datatype Op =
    | DoRegister(username: string, email: string, password: string, userId: Id, verification: Id, secret: string,
                 session: Id, token: string, ttl: nat)
    | DoLogin(identifier: string, row: Option<Id>, password: string, code: string, session: Id, token: string, ttl: nat)
    | DoRequestReset(identifier: string, row: Option<Id>, id: Id, secret: string)
    | DoConfirmReset(token: string, password: string)
    | DoRequestVerification(userId: Id, id: Id, secret: string)
    | DoConfirmVerification(token: string)
    | DoUpdateProfile(userId: Id, newEmail: Option<string>)
    | DoSetup(userId: Id, secret: string)
    | DoEnable(userId: Id, code: string)
    | DoDisable(userId: Id, code: string)
    | DoCreateToken(userId: Id, name: string, days: Option<int>, id: Id, token: string)
    | DoRevokeToken(id: Id, userId: Id)
    | DoRevokeSession(session: Id, userId: Id)
    | DoUpdateAccount(userId: Id, role: Option<Role>, status: Option<Status>, actorId: Id)
    | DoVerify(token: string)

  /** Ids and secrets drawn at random are new, and the database returns a matching row if there is one. */
  ghost predicate Enabled(s: State, op: Op) {
    match op
    case DoRegister(_, _, _, userId, verification, secret, session, _, _) =>
      userId !in s.users && verification !in s.verifications && session !in s.sessions
      && forall a :: !IsVerification(s.verifications, secret, a)
    case DoLogin(identifier, row, _, _, session, _, _) =>
      session !in s.sessions && RowReturned(s, row, identifier, false)
    case DoRequestReset(identifier, row, id, secret) =>
      id !in s.resets && RowReturned(s, row, identifier, true) && forall a :: !IsReset(s.resets, secret, a)
    case DoRequestVerification(_, id, secret) =>
      id !in s.verifications && forall a :: !IsVerification(s.verifications, secret, a)
    case DoCreateToken(_, _, _, id, token) =>
      id !in s.apiTokens && forall a :: !HasToken(s.apiTokens, a, token)
    case _ => true
  }

  ghost function Call(s: State, op: Op, env: Env): Outcome
    requires Inv(s) && Enabled(s, op)
  {
    match op
    case DoRegister(username, email, password, userId, verification, secret, session, token, ttl) =>
      Register(s, username, email, password, userId, verification, secret, session, token, ttl)
    case DoLogin(_, row, password, code, session, token, ttl) => Login(s, row, password, code, session, token, ttl, env)
    case DoRequestReset(_, row, id, secret) => RequestPasswordReset(s, row, id, secret)
    case DoConfirmReset(token, password) => ConfirmPasswordReset(s, token, password)
    case DoRequestVerification(userId, id, secret) => RequestEmailVerification(s, userId, id, secret)
    case DoConfirmVerification(token) => ConfirmEmailVerification(s, token)
    case DoUpdateProfile(userId, newEmail) => UpdateViewerProfile(s, userId, newEmail)
    case DoSetup(userId, secret) => SetupTwoFactor(s, userId, secret)
    case DoEnable(userId, code) => EnableTwoFactor(s, userId, code, env)
    case DoDisable(userId, code) => DisableTwoFactor(s, userId, code, env)
    case DoCreateToken(userId, name, days, id, token) => CreateViewerToken(s, userId, name, days, id, token)
    case DoRevokeToken(id, userId) => RevokeViewerToken(s, id, userId)
    case DoRevokeSession(session, userId) => RevokeViewerSession(s, session, userId)
    case DoUpdateAccount(userId, role, status, actorId) => UpdateUserAccount(s, userId, role, status, actorId)
    case DoVerify(token) => VerifyBearerToken(s, token, env)
  }

  lemma CallKeeps(s: State, op: Op, env: Env)
    requires Inv(s) && Enabled(s, op)
    ensures Inv(Call(s, op, env).state)
  {
    match op
    case DoRegister(username, email, password, userId, verification, secret, session, token, ttl) =>
      RegisterKeeps(s, Trim(username), Lower(Trim(email)), password, userId, verification, secret, session, token, ttl);
    case DoLogin(_, row, password, code, session, token, ttl) =>
      LoginKeeps(s, row, password, code, session, token, ttl, env);
    case DoRequestReset(_, row, id, secret) => RequestResetKeeps(s, row, id, secret);
    case DoConfirmReset(token, password) => ConfirmResetKeeps(s, Trim(token), password);
    case DoRequestVerification(userId, id, secret) => RequestVerificationKeeps(s, userId, id, secret);
    case DoConfirmVerification(token) => ConfirmVerificationKeeps(s, Trim(token));
    case DoUpdateProfile(userId, newEmail) => ProfileKeeps(s, userId, NextEmail(newEmail));
    case DoSetup(userId, secret) => SetupKeeps(s, userId, secret);
    case DoEnable(userId, code) => EnableKeeps(s, userId, code, env);
    case DoDisable(userId, code) => DisableKeeps(s, userId, code, env);
    case DoCreateToken(userId, name, days, id, token) =>
      if DaysAllowed(days) {
        AddTokenKeeps(s, userId, days, id, token);
      }
    case DoRevokeToken(id, userId) => RevokeKeeps(s, id, userId);
    case DoRevokeSession(session, userId) => RevokeKeeps(s, session, userId);
    case DoUpdateAccount(userId, role, status, actorId) => AccountKeeps(s, userId, role, status, actorId);
    case DoVerify(token) => VerifyKeeps(s, token, env);
  }

  /** A call and the clock it reads. */
  datatype Event = Event(op: Op, now: nat)

  ghost predicate Happens(s: State, e: Event) {
    e.now >= s.clock && Enabled(Tick(s, e.now), e.op)
  }

  /** The state as the call of the event sees it, the clock read. */
  ghost function AtCall(s: State, e: Event): (t: State)
    requires Inv(s) && Happens(s, e)
    ensures Inv(t) && t == Tick(s, e.now)
  {
    TickKeeps(s, e.now);
    Tick(s, e.now)
  }

  /** The state after a run with a clock that never goes back; what cannot happen does not. */
  ghost function Run(events: seq<Event>, env: Env): (s: State)
    ensures Inv(s)
  {
    if events == [] then EMPTY
    else
      var s, e := Run(events[..|events| - 1], env), events[|events| - 1];
      if Happens(s, e) then
        CallKeeps(AtCall(s, e), e.op, env);
        Call(AtCall(s, e), e.op, env).state
      else s
  }

  lemma RunOne(events: seq<Event>, i: nat, env: Env)
    requires i < |events|
    ensures Happens(Run(events[..i], env), events[i]) ==>
      Run(events[..i + 1], env) == Call(AtCall(Run(events[..i], env), events[i]), events[i].op, env).state
    ensures !Happens(Run(events[..i], env), events[i]) ==> Run(events[..i + 1], env) == Run(events[..i], env)
  {
    assert events[..i + 1][..i] == events[..i];
  }

  // ---------- credentials over a run ----------

  /** The credential is not lost, not handed to another user, and not un-revoked. */
  predicate Lasts(before: map<Id, Credential>, after: map<Id, Credential>, id: Id) {
    id in before ==> id in after && OnlyTimes(before[id], after[id])
  }

  ghost predicate Persist(before: map<Id, Credential>, after: map<Id, Credential>) {
    forall id :: Lasts(before, after, id)
  }

  ghost predicate CredentialsPersist(s: State, t: State) {
    Persist(s.sessions, t.sessions) && Persist(s.apiTokens, t.apiTokens)
  }

  lemma PutPersists(credentials: map<Id, Credential>, id: Id, d: Credential)
    requires id in credentials ==> OnlyTimes(credentials[id], d)
    ensures Persist(credentials, credentials[id := d])
  {
  }

  predicate RevokedFor(credentials: map<Id, Credential>, u: Id, id: Id) {
    id in credentials && credentials[id].userId == u ==> credentials[id].revokedAt.Some?
  }

  ghost predicate AllRevoked(credentials: map<Id, Credential>, u: Id) {
    forall id :: RevokedFor(credentials, u, id)
  }

  lemma RevokeAllPersists(credentials: map<Id, Credential>, u: Id, now: nat)
    ensures Persist(credentials, RevokeAll(credentials, u, now)) && AllRevoked(RevokeAll(credentials, u, now), u)
  {
  }

  lemma ClearPersists(s: State, u: Id)
    ensures CredentialsPersist(s, Clear(s, u)) && AllRevoked(Clear(s, u).sessions, u)
      && AllRevoked(Clear(s, u).apiTokens, u)
  {
    RevokeAllPersists(s.sessions, u, s.clock);
    RevokeAllPersists(s.apiTokens, u, s.clock);
  }

  lemma ConfirmResetPersists(s: State, secret: string, password: string)
    requires ResetSecretsUnique(s.resets)
    ensures var o, id := RedeemReset(s, secret, password), FindReset(s.resets, secret);
      CredentialsPersist(s, o.state)
      && (o.reply.Done? ==> id.Some? && AllRevoked(o.state.sessions, s.resets[id.value].userId)
                            && AllRevoked(o.state.apiTokens, s.resets[id.value].userId))
  {
    var id := FindReset(s.resets, secret);
    if id.Some? {
      ClearPersists(s, s.resets[id.value].userId);
    }
  }

  lemma SamePersists(s: State, t: State)
    requires t.sessions == s.sessions && t.apiTokens == s.apiTokens
    ensures CredentialsPersist(s, t)
  {
  }

  lemma PutSession(s: State, t: State, id: Id, d: Credential)
    requires t.sessions == s.sessions[id := d] && t.apiTokens == s.apiTokens
      && (id in s.sessions ==> OnlyTimes(s.sessions[id], d))
    ensures CredentialsPersist(s, t)
  {
    PutPersists(s.sessions, id, d);
  }

  lemma PutApiToken(s: State, t: State, id: Id, d: Credential)
    requires t.apiTokens == s.apiTokens[id := d] && t.sessions == s.sessions
      && (id in s.apiTokens ==> OnlyTimes(s.apiTokens[id], d))
    ensures CredentialsPersist(s, t)
  {
    PutPersists(s.apiTokens, id, d);
  }

  lemma AccountPersists(s: State, u: Id, role: Option<Role>, status: Option<Status>, actorId: Id)
    ensures CredentialsPersist(s, UpdateUserAccount(s, u, role, status, actorId).state)
    ensures UpdateUserAccount(s, u, role, status, actorId).reply.Done? && status.Some? && !status.value.Active? ==>
      AllRevoked(UpdateUserAccount(s, u, role, status, actorId).state.sessions, u)
      && AllRevoked(UpdateUserAccount(s, u, role, status, actorId).state.apiTokens, u)
  {
    var o := UpdateUserAccount(s, u, role, status, actorId);
    if o.reply.Done? && status.Some? && !status.value.Active? {
      ClearPersists(s, u);
      assert o.state.sessions == Clear(s, u).sessions && o.state.apiTokens == Clear(s, u).apiTokens;
    } else {
      SamePersists(s, o.state);
    }
  }

  lemma VerifyPersists(s: State, token: string, env: Env)
    requires TokensUnique(s.apiTokens)
    ensures CredentialsPersist(s, VerifyBearerToken(s, token, env).state)
  {
    var t, session := VerifyBearerToken(s, token, env).state, env.sessionOf(token, s.clock);
    if session.Some? && UsableAt(s, s.sessions, session.value, token) {
      PutSession(s, t, session.value, t.sessions[session.value]);
    } else if FindApiToken(s, token).Some? {
      PutApiToken(s, t, FindApiToken(s, token).value, t.apiTokens[FindApiToken(s, token).value]);
    } else {
      SamePersists(s, t);
    }
  }

  lemma RevokePersists(s: State, id: Id, u: Id)
    ensures CredentialsPersist(s, RevokeViewerToken(s, id, u).state)
    ensures CredentialsPersist(s, RevokeViewerSession(s, id, u).state)
  {
    if Owned(s.apiTokens, id, u) {
      PutApiToken(s, RevokeViewerToken(s, id, u).state, id, s.apiTokens[id].(revokedAt := Some(s.clock)));
    } else {
      SamePersists(s, s);
    }
    if Owned(s.sessions, id, u) {
      PutSession(s, RevokeViewerSession(s, id, u).state, id, s.sessions[id].(revokedAt := Some(s.clock)));
    } else {
      SamePersists(s, s);
    }
  }

  /** Signing in adds a session; creating an API token adds one; nothing else is touched. */
  predicate OnlyAdds(s: State, t: State) {
    || (t.sessions == s.sessions && t.apiTokens == s.apiTokens)
    || (t.apiTokens == s.apiTokens && t.sessions.Keys > s.sessions.Keys
        && forall id :: id in s.sessions ==> t.sessions[id] == s.sessions[id])
    || (t.sessions == s.sessions && t.apiTokens.Keys > s.apiTokens.Keys
        && forall id :: id in s.apiTokens ==> t.apiTokens[id] == s.apiTokens[id])
  }

  lemma AddsPersist(s: State, t: State)
    requires OnlyAdds(s, t)
    ensures CredentialsPersist(s, t)
  {
  }

  lemma LoginAdds(
    s: State, row: Option<Id>, password: string, code: string, session: Id, token: string, ttl: nat, env: Env)
    requires (row.Some? ==> row.value in s.users) && session !in s.sessions
    ensures OnlyAdds(s, Login(s, row, password, code, session, token, ttl, env).state)
  {
    var t := Login(s, row, password, code, session, token, ttl, env).state;
    assert t != s ==> session in t.sessions;
  }

  lemma RegisterAdds(
    s: State, username: string, email: string, password: string, userId: Id, verification: Id, secret: string,
    session: Id, token: string, ttl: nat)
    requires session !in s.sessions
    ensures OnlyAdds(s,
      RegisterAs(s, username, email, password, userId, verification, secret, session, token, ttl).state)
  {
    var o := RegisterAs(s, username, email, password, userId, verification, secret, session, token, ttl);
    assert o.reply.SignedIn? ==> session in o.state.sessions;
  }

  lemma AddTokenAdds(s: State, userId: Id, days: Option<int>, id: Id, token: string)
    requires id !in s.apiTokens && DaysAllowed(days)
    ensures OnlyAdds(s, AddViewerToken(s, userId, days, id, token).state)
  {
    var t := AddViewerToken(s, userId, days, id, token).state;
    assert t != s ==> id in t.apiTokens;
  }

  lemma CallPersists(s: State, op: Op, env: Env)
    requires Inv(s) && Enabled(s, op)
    ensures CredentialsPersist(s, Call(s, op, env).state)
  {
    match op
    case DoConfirmReset(token, password) => ConfirmResetPersists(s, Trim(token), password);
    case DoUpdateAccount(userId, role, status, actorId) => AccountPersists(s, userId, role, status, actorId);
    case DoVerify(token) => VerifyPersists(s, token, env);
    case DoRevokeToken(id, userId) => RevokePersists(s, id, userId);
    case DoRevokeSession(session, userId) => RevokePersists(s, session, userId);
    case DoRegister(username, email, password, userId, verification, secret, session, token, ttl) =>
      RegisterAdds(s, Trim(username), Lower(Trim(email)), password, userId, verification, secret, session, token, ttl);
      AddsPersist(s, Call(s, op, env).state);
    case DoLogin(_, row, password, code, session, token, ttl) =>
      LoginAdds(s, row, password, code, session, token, ttl, env);
      AddsPersist(s, Call(s, op, env).state);
    case DoCreateToken(userId, name, days, id, token) =>
      if DaysAllowed(days) {
        AddTokenAdds(s, userId, days, id, token);
      }
      AddsPersist(s, Call(s, op, env).state);
    case _ =>
      CallLeavesCredentials(s, op, env);
      SamePersists(s, Call(s, op, env).state);
  }

  lemma CallLeavesCredentials(s: State, op: Op, env: Env)
    requires Inv(s) && Enabled(s, op)
    requires !op.DoConfirmReset? && !op.DoUpdateAccount? && !op.DoVerify? && !op.DoRevokeToken? && !op.DoRevokeSession?
    requires !op.DoRegister? && !op.DoLogin? && !op.DoCreateToken?
    ensures Call(s, op, env).state.sessions == s.sessions && Call(s, op, env).state.apiTokens == s.apiTokens
  {
  }

  lemma PersistTwice(a: State, b: State, c: State)
    requires CredentialsPersist(a, b) && CredentialsPersist(b, c)
    ensures CredentialsPersist(a, c)
  {
    forall id ensures Lasts(a.sessions, c.sessions, id) && Lasts(a.apiTokens, c.apiTokens, id) {
      assert Lasts(a.sessions, b.sessions, id) && Lasts(b.sessions, c.sessions, id);
      assert Lasts(a.apiTokens, b.apiTokens, id) && Lasts(b.apiTokens, c.apiTokens, id);
    }
  }

  lemma {:induction false} RunPersists(events: seq<Event>, i: nat, env: Env)
    requires i <= |events|
    ensures CredentialsPersist(Run(events[..i], env), Run(events, env))
    decreases |events|
  {
    if i == |events| {
      assert events[..i] == events;
    } else {
      var n := |events| - 1;
      var s, e := Run(events[..n], env), events[n];
      RunPersists(events[..n], i, env);
      assert events[..n][..i] == events[..i] && events[..n + 1] == events;
      RunOne(events, n, env);
      if Happens(s, e) {
        CallPersists(AtCall(s, e), e.op, env);
        PersistTwice(Run(events[..i], env), s, Run(events, env));
      }
    }
  }

  /** The call confirms a password reset of the user. */
  ghost predicate ResetsPassword(s: State, op: Op, u: Id)
    requires Inv(s)
  {
    op.DoConfirmReset? && RedeemReset(s, Trim(op.token), op.password).reply.Done?
    && FindReset(s.resets, Trim(op.token)).Some? && s.resets[FindReset(s.resets, Trim(op.token)).value].userId == u
  }

  /** The call makes the account of the user other than active. */
  predicate Restricts(s: State, op: Op, u: Id) {
    op.DoUpdateAccount? && op.userId == u && op.status.Some? && !op.status.value.Active?
    && UpdateUserAccount(s, op.userId, op.role, op.status, op.actorId).reply.Done?
  }

  ghost predicate Clears(events: seq<Event>, i: nat, u: Id, env: Env)
    requires i < |events|
  {
    var s, e := Run(events[..i], env), events[i];
    Happens(s, e) && (ResetsPassword(AtCall(s, e), e.op, u) || Restricts(AtCall(s, e), e.op, u))
  }

  lemma ClearsAll(events: seq<Event>, i: nat, u: Id, env: Env)
    requires i < |events| && Clears(events, i, u, env)
    ensures AllRevoked(Run(events[..i + 1], env).sessions, u) && AllRevoked(Run(events[..i + 1], env).apiTokens, u)
  {
    RunOne(events, i, env);
    var t, op := AtCall(Run(events[..i], env), events[i]), events[i].op;
    if op.DoConfirmReset? {
      ConfirmResetPersists(t, Trim(op.token), op.password);
    } else {
      AccountPersists(t, op.userId, op.role, op.status, op.actorId);
    }
  }

  /** The bearer token is accepted at a time, as this user and by this credential. */
  ghost predicate AcceptedAs(s: State, token: string, env: Env, u: Id, bySession: bool, id: Id)
    requires TokensUnique(s.apiTokens)
  {
    var credentials := if bySession then s.sessions else s.apiTokens;
    VerifyBearerToken(s, token, env).reply == Identified(u) && id in credentials && credentials[id].userId == u
    && UsableAt(s, credentials, id, token)
  }

  /** Whoever is accepted has a credential, unexpired and not revoked, and an active account. */
  lemma AcceptedHasCredential(s: State, token: string, env: Env, u: Id)
    requires Inv(s) && VerifyBearerToken(s, token, env).reply == Identified(u)
    ensures u in s.users && s.users[u].status.Active?
    ensures exists bySession, id :: AcceptedAs(s, token, env, u, bySession, id)
  {
    var session := env.sessionOf(token, s.clock);
    if session.Some? && UsableAt(s, s.sessions, session.value, token) {
      assert AcceptedAs(s, token, env, u, true, session.value);
    } else {
      assert AcceptedAs(s, token, env, u, false, FindApiToken(s, token).value);
    }
  }

  /**
   A bearer token accepted at the end of a run was issued after every confirmed password reset of its user
   and after every time the account was made other than active: its credential did not exist right after
   any of these calls. Making the account active again revives none.
   */
  lemma AcceptedIssuedLater(
      events: seq<Event>, now: nat, token: string, env: Env, u: Id, bySession: bool, id: Id, i: nat)
    requires now >= Run(events, env).clock && AcceptedAs(Tick(Run(events, env), now), token, env, u, bySession, id)
    requires i < |events| && Clears(events, i, u, env)
    ensures id !in (if bySession then Run(events[..i + 1], env).sessions else Run(events[..i + 1], env).apiTokens)
  {
    ClearsAll(events, i, u, env);
    RunPersists(events, i + 1, env);
    var s, t := Run(events[..i + 1], env), Run(events, env);
    assert Lasts(s.sessions, t.sessions, id) && Lasts(s.apiTokens, t.apiTokens, id);
    assert RevokedFor(s.sessions, u, id) && RevokedFor(s.apiTokens, u, id);
  }

  /** A credential once revoked never identifies anyone again, whatever happens later. */
  lemma RevokedNeverAccepted(
    events: seq<Event>, i: nat, now: nat, token: string, env: Env, u: Id, bySession: bool, id: Id)
    requires i <= |events| && now >= Run(events, env).clock
    requires var before := Run(events[..i], env);
      var credentials := if bySession then before.sessions else before.apiTokens;
      id in credentials && credentials[id].revokedAt.Some?
    ensures !AcceptedAs(Tick(Run(events, env), now), token, env, u, bySession, id)
  {
    RunPersists(events, i, env);
    var s, t := Run(events[..i], env), Run(events, env);
    assert Lasts(s.sessions, t.sessions, id) && Lasts(s.apiTokens, t.apiTokens, id);
  }

  // ---------- one-time tokens over a run ----------

  predicate ResetLasts(s: State, t: State, id: Id) {
    id in s.resets ==> id in t.resets && t.resets[id] == s.resets[id].(usedAt := t.resets[id].usedAt)
                       && (s.resets[id].usedAt.Some? ==> t.resets[id].usedAt.Some?)
  }

  predicate VerificationLasts(s: State, t: State, id: Id) {
    id in s.verifications ==>
      id in t.verifications && t.verifications[id] == s.verifications[id].(usedAt := t.verifications[id].usedAt)
      && (s.verifications[id].usedAt.Some? ==> t.verifications[id].usedAt.Some?)
  }

  lemma RequestResetLasts(s: State, row: Option<Id>, newId: Id, secret: string, id: Id)
    requires (row.Some? ==> row.value in s.users) && newId !in s.resets
    ensures ResetLasts(s, RequestPasswordReset(s, row, newId, secret).state, id)
  {
  }

  lemma ConfirmResetLasts(s: State, secret: string, password: string, id: Id)
    requires ResetSecretsUnique(s.resets)
    ensures ResetLasts(s, RedeemReset(s, secret, password).state, id)
  {
  }

  lemma IssueLasts(s: State, u: Id, email: string, newId: Id, secret: string, id: Id)
    requires newId !in s.verifications
    ensures VerificationLasts(s, IssueVerification(s, u, email, newId, secret), id)
  {
  }

  lemma RegisterLasts(
    s: State, username: string, email: string, password: string, u: Id, newId: Id, secret: string,
    session: Id, token: string, ttl: nat, id: Id)
    requires newId !in s.verifications
    ensures VerificationLasts(
      s, RegisterAs(s, username, email, password, u, newId, secret, session, token, ttl).state, id)
  {
    IssueLasts(WithUser(s, u, username, email, password), u, email, newId, secret, id);
  }

  lemma ConfirmVerificationLasts(s: State, secret: string, id: Id)
    requires VerificationSecretsUnique(s.verifications)
    ensures VerificationLasts(s, RedeemVerification(s, secret).state, id)
  {
  }

  lemma CallLasts(s: State, op: Op, env: Env, id: Id)
    requires Inv(s) && Enabled(s, op)
    ensures ResetLasts(s, Call(s, op, env).state, id) && VerificationLasts(s, Call(s, op, env).state, id)
    ensures Call(s, op, env).state.clock == s.clock
  {
    match op
    case DoRegister(username, email, password, userId, verification, secret, session, token, ttl) =>
      RegisterLasts(s, Trim(username), Lower(Trim(email)), password, userId, verification, secret, session, token, ttl,
          id);
    case DoRequestReset(_, row, newId, secret) => RequestResetLasts(s, row, newId, secret, id);
    case DoConfirmReset(token, password) => ConfirmResetLasts(s, Trim(token), password, id);
    case DoRequestVerification(userId, newId, secret) =>
      if userId in s.users && s.users[userId].email.Some? {
        IssueLasts(s, userId, s.users[userId].email.value, newId, secret, id);
      }
    case DoConfirmVerification(token) => ConfirmVerificationLasts(s, Trim(token), id);
    case _ => CallFrames(s, op, env);
  }

  lemma CallFrames(s: State, op: Op, env: Env)
    requires Inv(s) && Enabled(s, op)
    requires !op.DoRegister? && !op.DoRequestReset? && !op.DoConfirmReset? && !op.DoRequestVerification?
      && !op.DoConfirmVerification?
    ensures Call(s, op, env).state.resets == s.resets && Call(s, op, env).state.verifications == s.verifications
    ensures Call(s, op, env).state.clock == s.clock
  {
  }

  lemma {:induction false} RunLasts(events: seq<Event>, i: nat, env: Env, id: Id)
    requires i <= |events|
    ensures var s, t := Run(events[..i], env), Run(events, env);
      ResetLasts(s, t, id) && VerificationLasts(s, t, id) && s.clock <= t.clock
    decreases |events|
  {
    if i == |events| {
      assert events[..i] == events;
    } else {
      var n := |events| - 1;
      var s, e := Run(events[..n], env), events[n];
      RunLasts(events[..n], i, env, id);
      assert events[..n][..i] == events[..i] && events[..n + 1] == events;
      RunOne(events, n, env);
      if Happens(s, e) {
        CallLasts(AtCall(s, e), e.op, env, id);
      }
    }
  }

  /** The call redeems this reset token. */
  ghost predicate Redeems(s: State, op: Op, id: Id)
    requires Inv(s)
  {
    op.DoConfirmReset? && RedeemReset(s, Trim(op.token), op.password).reply.Done?
    && FindReset(s.resets, Trim(op.token)) == Some(id)
  }

  ghost predicate RedeemsReset(events: seq<Event>, i: nat, id: Id, env: Env)
    requires i < |events|
  {
    var s, e := Run(events[..i], env), events[i];
    Happens(s, e) && Redeems(AtCall(s, e), e.op, id)
  }

  /** The token can never be redeemed again: it is used or its time is over. */
  predicate ResetDead(s: State, id: Id) {
    id in s.resets && !ResetLive(s.resets[id], s.clock)
  }

  lemma RedeemsLive(s: State, op: Op, id: Id, env: Env)
    requires Inv(s) && Enabled(s, op) && Redeems(s, op, id)
    ensures id in s.resets && ResetLive(s.resets[id], s.clock) && ResetDead(Call(s, op, env).state, id)
  {
  }

  lemma DeadNotRedeemed(events: seq<Event>, i: nat, j: nat, id: Id, env: Env)
    requires i <= j < |events| && ResetDead(Run(events[..i], env), id)
    ensures !RedeemsReset(events, j, id, env)
  {
    RunLasts(events[..j], i, env, id);
    assert events[..j][..i] == events[..i];
    if RedeemsReset(events, j, id, env) {
      RedeemsLive(AtCall(Run(events[..j], env), events[j]), events[j].op, id, env);
    }
  }

  /** No reset token is redeemed twice. */
  lemma ResetRedeemedOnce(events: seq<Event>, i: nat, j: nat, id: Id, env: Env)
    requires i < j < |events| && RedeemsReset(events, i, id, env)
    ensures !RedeemsReset(events, j, id, env)
  {
    RedeemsLive(AtCall(Run(events[..i], env), events[i]), events[i].op, id, env);
    RunOne(events, i, env);
    DeadNotRedeemed(events, i + 1, j, id, env);
  }

  /** The event issues a new reset token to the user. */
  ghost predicate IssuesReset(events: seq<Event>, i: nat, u: Id, env: Env)
    requires i < |events|
  {
    var s, e := Run(events[..i], env), events[i];
    Happens(s, e) && e.op.DoRequestReset? && e.op.row == Some(u) && u in s.users && s.users[u].email.Some?
  }

  /** A reset token is never redeemed after a later one was issued to its user. */
  lemma SupersededNotRedeemed(events: seq<Event>, i: nat, j: nat, u: Id, id: Id, env: Env)
    requires i < j < |events| && IssuesReset(events, i, u, env)
    requires id in Run(events[..i], env).resets && Run(events[..i], env).resets[id].userId == u
    ensures !RedeemsReset(events, j, id, env)
  {
    SupersedingKills(AtCall(Run(events[..i], env), events[i]), events[i].op, u, id, env);
    RunOne(events, i, env);
    DeadNotRedeemed(events, i + 1, j, id, env);
  }

  lemma SupersedingKills(s: State, op: Op, u: Id, id: Id, env: Env)
    requires Inv(s) && Enabled(s, op) && op.DoRequestReset? && op.row == Some(u) && s.users[u].email.Some?
    requires id in s.resets && s.resets[id].userId == u
    ensures ResetDead(Call(s, op, env).state, id)
  {
  }

  // ---------- verified addresses ----------

  /** The call redeems this verification token. */
  ghost predicate Verifies(s: State, op: Op, id: Id)
    requires Inv(s)
  {
    op.DoConfirmVerification? && RedeemVerification(s, Trim(op.token)).reply.Done?
    && FindVerification(s.verifications, Trim(op.token)) == Some(id)
  }

  ghost predicate VerifiesAt(s: State, e: Event, id: Id)
    requires Inv(s)
  {
    Happens(s, e) && Verifies(AtCall(s, e), e.op, id)
  }

  ghost predicate RedeemsVerification(events: seq<Event>, i: nat, id: Id, env: Env)
    requires i < |events|
  {
    VerifiesAt(Run(events[..i], env), events[i], id)
  }

  predicate VerificationUsed(s: State, id: Id) {
    id in s.verifications && s.verifications[id].usedAt.Some?
  }

  lemma VerifiesUnused(s: State, op: Op, id: Id, env: Env)
    requires Inv(s) && Enabled(s, op) && Verifies(s, op, id)
    ensures !VerificationUsed(s, id) && VerificationUsed(Call(s, op, env).state, id)
  {
  }

  /** No verification token is redeemed twice. */
  lemma VerificationRedeemedOnce(events: seq<Event>, i: nat, j: nat, id: Id, env: Env)
    requires i < j < |events| && RedeemsVerification(events, i, id, env)
    ensures !RedeemsVerification(events, j, id, env)
  {
    VerifiesUnused(AtCall(Run(events[..i], env), events[i]), events[i].op, id, env);
    RunOne(events, i, env);
    RunLasts(events[..j], i + 1, env, id);
    assert events[..j][..i + 1] == events[..i + 1];
    if RedeemsVerification(events, j, id, env) {
      VerifiesUnused(AtCall(Run(events[..j], env), events[j]), events[j].op, id, env);
    }
  }

  lemma OnlyConfirmingUses(s: State, secret: string, id: Id)
    requires VerificationSecretsUnique(s.verifications)
    requires id in s.verifications && s.verifications[id].usedAt.None?
    requires RedeemVerification(s, secret).state.verifications[id].usedAt.Some?
    ensures RedeemVerification(s, secret).reply.Done? && FindVerification(s.verifications, secret) == Some(id)
  {
  }

  lemma IssuedUnused(s: State, u: Id, email: string, newId: Id, secret: string, id: Id)
    ensures var after := IssueVerification(s, u, email, newId, secret).verifications;
      id in after ==> (id in s.verifications && after[id] == s.verifications[id]) || after[id].usedAt.None?
  {
  }

  /** Nothing but redeeming a verification token makes it used. */
  lemma OnlyRedeemingUses(s: State, op: Op, env: Env, id: Id)
    requires Inv(s) && Enabled(s, op) && VerificationUsed(Call(s, op, env).state, id) && !VerificationUsed(s, id)
    ensures Verifies(s, op, id)
  {
    match op
    case DoRegister(username, email, password, userId, verification, secret, session, token, ttl) =>
      var s1 := WithUser(s, userId, Trim(username), Lower(Trim(email)), password);
      IssuedUnused(s1, userId, Lower(Trim(email)), verification, secret, id);
    case DoRequestVerification(userId, newId, secret) =>
      if userId in s.users && s.users[userId].email.Some? {
        IssuedUnused(s, userId, s.users[userId].email.value, newId, secret, id);
      }
    case DoConfirmVerification(token) => OnlyConfirmingUses(s, Trim(token), id);
    case DoRequestReset(_, _, _, _) =>
    case DoConfirmReset(_, _) =>
    case _ => CallFrames(s, op, env);
  }

  lemma RedeemedBefore(events: seq<Event>, n: nat, i: nat, id: Id, env: Env)
    requires i < n <= |events| && RedeemsVerification(events[..n], i, id, env)
    ensures RedeemsVerification(events, i, id, env)
  {
    assert events[..n][..i] == events[..i];
    assert VerifiesAt(Run(events[..i], env), events[i], id)
        == VerifiesAt(Run(events[..n][..i], env), events[..n][i], id);
  }

  lemma LastRedeems(events: seq<Event>, n: nat, id: Id, env: Env)
    requires n < |events| && VerificationUsed(Run(events[..n + 1], env), id)
      && !VerificationUsed(Run(events[..n], env), id)
    ensures RedeemsVerification(events, n, id, env)
  {
    RunOne(events, n, env);
    OnlyRedeemingUses(AtCall(Run(events[..n], env), events[n]), events[n].op, env, id);
  }

  /** A used verification token was redeemed by some event of the run. */
  lemma {:induction false} UsedWasRedeemed(events: seq<Event>, env: Env, id: Id) returns (i: nat)
    requires VerificationUsed(Run(events, env), id)
    ensures i < |events| && RedeemsVerification(events, i, id, env)
    decreases |events|
  {
    var n := |events| - 1;
    assert events[..n + 1] == events;
    if VerificationUsed(Run(events[..n], env), id) {
      i := UsedWasRedeemed(events[..n], env, id);
      RedeemedBefore(events, n, i, id, env);
    } else {
      LastRedeems(events, n, id, env);
      i := n;
    }
  }

  /** The event redeemed a token of the user, for the address and at the time the user's row gives at the end. */
  ghost predicate RedeemsFor(events: seq<Event>, i: nat, v: Id, u: Id, env: Env)
    requires i < |events| && u in Run(events, env).users && Run(events, env).users[u].emailVerifiedAt.Some?
  {
    var s := Run(events, env);
    RedeemsVerification(events, i, v, env)
    && Confirms(s.verifications, v, u, s.users[u].email, s.users[u].emailVerifiedAt.value)
  }

  /**
   In every reachable state a verified user redeemed, at some event, a token issued to that user for
   exactly the current address, at the time the row gives for the verification.
   */
  lemma VerifiedByRedeeming(events: seq<Event>, env: Env, u: Id)
    requires u in Run(events, env).users && Run(events, env).users[u].emailVerifiedAt.Some?
    ensures exists v, i :: 0 <= i < |events| && RedeemsFor(events, i, v, u, env)
  {
    var s := Run(events, env);
    assert AddressConfirmed(s.verifications, u, s.users[u]);
    var v :| Confirms(s.verifications, v, u, s.users[u].email, s.users[u].emailVerifiedAt.value);
    var i := UsedWasRedeemed(events, env, v);
    assert RedeemsFor(events, i, v, u, env);
  }

  // ---------- two factors ----------

  /** Two factors are enabled, and the secret was replaced without being confirmed. */
  predicate Stuck(s: State, u: Id) {
    u in s.users && s.users[u].twoFactorEnabled && u in s.totps && s.totps[u].confirmedAt.None?
  }

  /** With two factors enabled no login at all gets through exactly when the user is stuck, if some code is right. */
  lemma LoginBlocked(s: State, u: Id, password: string, session: Id, token: string, ttl: nat, env: Env)
    requires Inv(s) && u in s.users && s.users[u].twoFactorEnabled && u in s.passwords && s.passwords[u] == password
    requires exists code :: u in s.totps && env.verifyTotp(code, s.totps[u].secret, s.clock)
    ensures (forall code :: Login(s, Some(u), password, code, session, token, ttl, env).reply == Unauthorized)
      <==> Stuck(s, u)
  {
    assert FactorsFit(s.users[u], u, s.totps);
    var code :| u in s.totps && env.verifyTotp(code, s.totps[u].secret, s.clock);
    assert !Stuck(s, u) ==> Login(s, Some(u), password, code, session, token, ttl, env).reply == SignedIn(token);
  }

  /** The call confirms the secret of the user or turns two factors off, with a right code. */
  predicate SettlesFactors(s: State, op: Op, u: Id, env: Env) {
    (op.DoEnable? || op.DoDisable?) && op.userId == u && CodePassed(s, u, op.code, env)
  }

  /** The call replaces the secret of a user who has two factors enabled. */
  predicate ReplacesSecret(s: State, op: Op, u: Id) {
    op.DoSetup? && op.userId == u && u in s.users && s.users[u].twoFactorEnabled
  }

  /** What a call may do to a user row, as far as the two factors go: nothing. */
  predicate FactorsKept(s: State, t: State, u: Id) {
    u in s.users ==> u in t.users && t.users[u].twoFactorEnabled == s.users[u].twoFactorEnabled
                     && (u in s.totps <==> u in t.totps) && (u in s.totps ==> t.totps[u] == s.totps[u])
  }

  lemma RegisterFactors(
    s: State, username: string, email: string, password: string, v: Id, newId: Id, secret: string,
    session: Id, token: string, ttl: nat, u: Id)
    requires v !in s.users
    ensures FactorsKept(s, RegisterAs(s, username, email, password, v, newId, secret, session, token, ttl).state, u)
  {
  }

  lemma ConfirmVerificationFactors(s: State, secret: string, u: Id)
    requires VerificationSecretsUnique(s.verifications)
    ensures FactorsKept(s, RedeemVerification(s, secret).state, u)
  {
  }

  lemma ProfileFactors(s: State, v: Id, next: Option<Option<string>>, u: Id)
    ensures FactorsKept(s, ChangeEmail(s, v, next).state, u)
  {
  }

  lemma AccountFactors(s: State, v: Id, role: Option<Role>, status: Option<Status>, actorId: Id, u: Id)
    ensures FactorsKept(s, UpdateUserAccount(s, v, role, status, actorId).state, u)
  {
  }

  lemma OtherCallsFactors(s: State, op: Op, env: Env)
    requires Inv(s) && Enabled(s, op) && !op.DoSetup? && !op.DoEnable? && !op.DoDisable?
    requires !op.DoRegister? && !op.DoConfirmVerification? && !op.DoUpdateProfile? && !op.DoUpdateAccount?
    ensures Call(s, op, env).state.users == s.users && Call(s, op, env).state.totps == s.totps
  {
  }

  lemma SetupStuck(s: State, v: Id, secret: string, u: Id)
    ensures Stuck(SetupTwoFactor(s, v, secret).state, u) <==>
      Stuck(s, u) || (v == u && u in s.users && s.users[u].twoFactorEnabled)
  {
  }

  lemma CodeCallsStuck(s: State, v: Id, code: string, env: Env, u: Id)
    ensures Stuck(EnableTwoFactor(s, v, code, env).state, u) <==>
      Stuck(s, u) && !(v == u && CodePassed(s, u, code, env))
    ensures Stuck(DisableTwoFactor(s, v, code, env).state, u) <==>
      Stuck(s, u) && !(v == u && CodePassed(s, u, code, env))
  {
  }

  lemma RegisterStuck(
    s: State, username: string, email: string, password: string, v: Id, newId: Id, secret: string,
    session: Id, token: string, ttl: nat, u: Id)
    requires v !in s.users
    ensures Stuck(RegisterAs(s, username, email, password, v, newId, secret, session, token, ttl).state, u)
       <==> Stuck(s, u)
  {
    RegisterFactors(s, username, email, password, v, newId, secret, session, token, ttl, u);
  }

  lemma UserCallsStuck(s: State, op: Op, env: Env, u: Id)
    requires Inv(s) && Enabled(s, op) && (op.DoConfirmVerification? || op.DoUpdateProfile? || op.DoUpdateAccount?)
    ensures Stuck(Call(s, op, env).state, u) <==> Stuck(s, u)
  {
    match op
    case DoConfirmVerification(token) => ConfirmVerificationFactors(s, Trim(token), u);
    case DoUpdateProfile(userId, newEmail) => ProfileFactors(s, userId, NextEmail(newEmail), u);
    case DoUpdateAccount(userId, role, status, actorId) => AccountFactors(s, userId, role, status, actorId, u);
  }

  /** What a call does to it: nothing but replacing the secret brings it about, nothing but a right code ends it. */
  lemma CallStuck(s: State, op: Op, env: Env, u: Id)
    requires Inv(s) && Enabled(s, op)
    ensures Stuck(Call(s, op, env).state, u) <==>
      ReplacesSecret(s, op, u) || (Stuck(s, u) && !SettlesFactors(s, op, u, env))
  {
    match op
    case DoRegister(username, email, password, userId, verification, secret, session, token, ttl) =>
      RegisterStuck(s, Trim(username), Lower(Trim(email)), password, userId, verification, secret, session, token, ttl,
          u);
    case DoConfirmVerification(_) => UserCallsStuck(s, op, env, u);
    case DoUpdateProfile(_, _) => UserCallsStuck(s, op, env, u);
    case DoUpdateAccount(_, _, _, _) => UserCallsStuck(s, op, env, u);
    case DoSetup(userId, secret) => SetupStuck(s, userId, secret, u);
    case DoEnable(userId, code) => CodeCallsStuck(s, userId, code, env, u);
    case DoDisable(userId, code) => CodeCallsStuck(s, userId, code, env, u);
    case _ => OtherCallsFactors(s, op, env);
  }

  /** The event begins setting up two factors for a user who already has them enabled. */
  ghost predicate SetsUpAgain(events: seq<Event>, i: nat, u: Id, env: Env)
    requires i < |events|
  {
    var s, e := Run(events[..i], env), events[i];
    Happens(s, e) && ReplacesSecret(AtCall(s, e), e.op, u)
  }

  /** The event confirms the secret or turns two factors off; an attempt with a wrong code does not. */
  ghost predicate SettledAt(events: seq<Event>, j: nat, u: Id, env: Env)
    requires j < |events|
  {
    var s, e := Run(events[..j], env), events[j];
    Happens(s, e) && SettlesFactors(AtCall(s, e), e.op, u, env)
  }

  /** Two factors were set up again, and not settled since. */
  ghost predicate Unsettled(events: seq<Event>, i: nat, u: Id, env: Env)
    requires i < |events|
  {
    SetsUpAgain(events, i, u, env) && forall j :: i < j < |events| ==> !SettledAt(events, j, u, env)
  }

  lemma StuckOne(events: seq<Event>, u: Id, env: Env)
    requires events != []
    ensures var n := |events| - 1;
      Stuck(Run(events, env), u) <==>
        SetsUpAgain(events, n, u, env) || (Stuck(Run(events[..n], env), u) && !SettledAt(events, n, u, env))
  {
    var n := |events| - 1;
    RunOne(events, n, env);
    assert events[..n + 1] == events;
    if Happens(Run(events[..n], env), events[n]) {
      CallStuck(AtCall(Run(events[..n], env), events[n]), events[n].op, env, u);
    }
  }

  lemma UnsettledBefore(events: seq<Event>, n: nat, i: nat, u: Id, env: Env)
    requires i < n == |events| - 1
    ensures Unsettled(events, i, u, env) <==> Unsettled(events[..n], i, u, env) && !SettledAt(events, n, u, env)
  {
    var before := events[..n];
    forall j | 0 <= j < n
      ensures SettledAt(events, j, u, env) == SettledAt(before, j, u, env)
      ensures SetsUpAgain(events, j, u, env) == SetsUpAgain(before, j, u, env) {
      assert before[..j] == events[..j];
    }
  }

  ghost predicate EverUnsettled(events: seq<Event>, u: Id, env: Env) {
    exists i :: 0 <= i < |events| && Unsettled(events, i, u, env)
  }

  lemma LastUnsettled(events: seq<Event>, u: Id, env: Env)
    requires events != []
    ensures var n := |events| - 1;
      EverUnsettled(events, u, env) <==>
        SetsUpAgain(events, n, u, env) || (EverUnsettled(events[..n], u, env) && !SettledAt(events, n, u, env))
  {
    var n := |events| - 1;
    if EverUnsettled(events, u, env) {
      var i :| 0 <= i < |events| && Unsettled(events, i, u, env);
      if i < n {
        UnsettledBefore(events, n, i, u, env);
      }
    }
    if SetsUpAgain(events, n, u, env) {
      assert Unsettled(events, n, u, env);
    } else if EverUnsettled(events[..n], u, env) && !SettledAt(events, n, u, env) {
      var i :| 0 <= i < n && Unsettled(events[..n], i, u, env);
      UnsettledBefore(events, n, i, u, env);
    }
  }

  /**
   Over every run, a user is stuck exactly when two factors were set up again while enabled, and no call of
   the user with a right code has confirmed the secret or turned two factors off since.
   */
  lemma {:induction false} StuckExactly(events: seq<Event>, u: Id, env: Env)
    ensures Stuck(Run(events, env), u) <==> exists i :: 0 <= i < |events| && Unsettled(events, i, u, env)
  {
    if events != [] {
      StuckOne(events, u, env);
      StuckExactly(events[..|events| - 1], u, env);
      LastUnsettled(events, u, env);
      assert EverUnsettled(events, u, env) <==> exists i :: 0 <= i < |events| && Unsettled(events, i, u, env);
    }
  }

  /**
   A user with two factors who begins setting them up again is locked out: until that user confirms the
   new secret or turns two factors off with a right code, every login is refused, whatever the password and
   the code.
   */
  lemma SetupLocksOut(
    events: seq<Event>, i: nat, u: Id, env: Env, now: nat, password: string, code: string, session: Id, token: string,
    ttl: nat)
    requires i < |events| && Unsettled(events, i, u, env)
    ensures u in Run(events, env).users
    ensures Login(Tick(Run(events, env), now), Some(u), password, code, session, token, ttl, env).reply == Unauthorized
  {
    StuckExactly(events, u, env);
  }

  /** So, with the right password and some right code, every login is refused exactly after such a run. */
  lemma LockedOutExactly(
    events: seq<Event>, u: Id, env: Env, now: nat, password: string, session: Id, token: string, ttl: nat)
    requires now >= Run(events, env).clock
    requires var s := Tick(Run(events, env), now);
      u in s.users && s.users[u].twoFactorEnabled && HasPassword(s, u, password) && u in s.totps
      && exists code :: env.verifyTotp(code, s.totps[u].secret, s.clock)
    ensures
      (forall code ::
         Login(Tick(Run(events, env), now), Some(u), password, code, session, token, ttl, env).reply == Unauthorized)
      <==> exists i :: 0 <= i < |events| && Unsettled(events, i, u, env)
  {
    TickKeeps(Run(events, env), now);
    LoginBlocked(Tick(Run(events, env), now), u, password, session, token, ttl, env);
    StuckExactly(events, u, env);
  }

  // ---------- passwords ----------

  predicate HasPassword(s: State, u: Id, password: string) {
    u in s.users && u in s.passwords && s.passwords[u] == password
  }

  lemma RegisterPasswords(
    s: State, username: string, email: string, password: string, v: Id, newId: Id, secret: string,
    session: Id, token: string, ttl: nat, u: Id, before: string)
    requires v !in s.users && HasPassword(s, u, before)
    ensures HasPassword(
      RegisterAs(s, username, email, password, v, newId, secret, session, token, ttl).state, u, before)
  {
  }

  lemma ConfirmResetPasswords(s: State, secret: string, password: string, u: Id, before: string)
    requires ResetSecretsUnique(s.resets) && HasPassword(s, u, before)
    ensures var id := FindReset(s.resets, secret);
      !RedeemReset(s, secret, password).reply.Done? || id.None? || s.resets[id.value].userId != u ==>
        HasPassword(RedeemReset(s, secret, password).state, u, before)
  {
  }

  lemma ResetSetsPassword(s: State, op: Op, u: Id, env: Env)
    requires Inv(s) && Enabled(s, op) && ResetsPassword(s, op, u) && u in s.users
    ensures HasPassword(Call(s, op, env).state, u, op.password)
  {
  }

  lemma FactorCallsPasswords(s: State, v: Id, text: string, env: Env, u: Id, before: string)
    requires HasPassword(s, u, before)
    ensures HasPassword(SetupTwoFactor(s, v, text).state, u, before)
    ensures HasPassword(EnableTwoFactor(s, v, text, env).state, u, before)
    ensures HasPassword(DisableTwoFactor(s, v, text, env).state, u, before)
  {
  }

  lemma CallPasswords(s: State, op: Op, env: Env, u: Id, password: string)
    requires Inv(s) && Enabled(s, op) && HasPassword(s, u, password) && !ResetsPassword(s, op, u)
    ensures HasPassword(Call(s, op, env).state, u, password)
  {
    match op
    case DoRegister(username, email, chosen, userId, verification, secret, session, token, ttl) =>
      RegisterPasswords(s, Trim(username), Lower(Trim(email)), chosen, userId, verification, secret, session, token,
          ttl, u, password);
    case DoConfirmReset(token, chosen) => ConfirmResetPasswords(s, Trim(token), chosen, u, password);
    case DoConfirmVerification(token) => ConfirmVerificationFactors(s, Trim(token), u);
    case DoUpdateProfile(userId, newEmail) => ProfileFactors(s, userId, NextEmail(newEmail), u);
    case DoUpdateAccount(userId, role, status, actorId) => AccountFactors(s, userId, role, status, actorId, u);
    case DoSetup(userId, secret) => FactorCallsPasswords(s, userId, secret, env, u, password);
    case DoEnable(userId, code) => FactorCallsPasswords(s, userId, code, env, u, password);
    case DoDisable(userId, code) => FactorCallsPasswords(s, userId, code, env, u, password);
    case _ => OtherCallsFactors(s, op, env);
  }

  lemma {:induction false} PasswordStays(events: seq<Event>, i: nat, u: Id, password: string, env: Env)
    requires i <= |events| && HasPassword(Run(events[..i], env), u, password)
    requires forall j :: i <= j < |events| ==> !ResetsAt(Run(events[..j], env), events[j], u)
    ensures HasPassword(Run(events, env), u, password)
    decreases |events|
  {
    if i == |events| {
      assert events[..i] == events;
    } else {
      var n := |events| - 1;
      assert events[..n][..i] == events[..i] && events[..n + 1] == events;
      forall j | i <= j < n ensures !ResetsAt(Run(events[..n][..j], env), events[..n][j], u) {
        assert events[..n][..j] == events[..j];
      }
      PasswordStays(events[..n], i, u, password, env);
      RunOne(events, n, env);
      if Happens(Run(events[..n], env), events[n]) {
        assert !ResetsAt(Run(events[..n], env), events[n], u);
        CallPasswords(AtCall(Run(events[..n], env), events[n]), events[n].op, env, u, password);
      }
    }
  }

  ghost predicate ResetsAt(s: State, e: Event, u: Id)
    requires Inv(s)
  {
    Happens(s, e) && ResetsPassword(AtCall(s, e), e.op, u)
  }

  /**
   After a confirmed reset only the new password signs in, until the next confirmed reset of the same
   user; no other call, by anyone, touches it.
   */
  lemma OnlyNewPassword(
    events: seq<Event>, i: nat, u: Id, env: Env, now: nat, password: string, code: string, session: Id, token: string,
    ttl: nat)
    requires i < |events| && ResetsAt(Run(events[..i], env), events[i], u) && u in Run(events[..i], env).users
    requires forall j :: i < j < |events| ==> !ResetsAt(Run(events[..j], env), events[j], u)
    requires password != events[i].op.password
    ensures u in Run(events, env).users
    ensures Login(Tick(Run(events, env), now), Some(u), password, code, session, token, ttl, env).reply == Unauthorized
  {
    RunOne(events, i, env);
    ResetSetsPassword(AtCall(Run(events[..i], env), events[i]), events[i].op, u, env);
    PasswordStays(events, i + 1, u, events[i].op.password, env);
  }
}
