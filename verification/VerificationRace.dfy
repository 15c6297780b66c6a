/**
 Confirmations of email addresses when calls are not one at a time: a confirmation reads the token and the
 address of its user, and only then writes. It does not look at the address again, so it may have changed.
 */
module VerificationRace {
  import opened Text
  import opened Credentials

  type Caller = nat

  /** The tables, and the confirmations between their reading a token and their writing, with the row they hold. */
  datatype Race = Race(tables: State, held: map<Caller, Id>)

  datatype Step =
    | Register(
        username: string, email: string, password: string, userId: Id, id: Id, secret: string, session: Id,
        token: string, ttl: nat, now: nat)
    | Request(userId: Id, id: Id, secret: string, now: nat)
    | Change(userId: Id, newEmail: Option<Option<string>>, now: nat)
    | Read(caller: Caller, secret: string, now: nat)
    | Finish(caller: Caller, now: nat)

  const START := Race(EMPTY, map[])

  predicate Fresh(s: State, id: Id, secret: string) {
    id !in s.verifications && forall a :: a in s.verifications ==> s.verifications[a].secret != secret
  }

  /** The clock does not go back, ids and secrets are fresh, and a caller confirms one token at a time. */
  predicate Happens(r: Race, step: Step) {
    step.now >= r.tables.clock
    && (step.Register? ==> step.userId !in r.tables.users && Fresh(r.tables, step.id, step.secret))
    && (step.Request? ==> Fresh(r.tables, step.id, step.secret))
    && (step.Read? ==> step.caller !in r.held)
  }

  function Reading(r: Race, caller: Caller, secret: string): Race
    requires VerificationSecretsUnique(r.tables.verifications)
  {
    var id := FindVerification(r.tables.verifications, secret);
    if id.None? || !Confirmable(r.tables, r.tables.verifications[id.value]) then r
    else r.(held := r.held[caller := id.value])
  }

  function Written(s: State, id: Id): State
    requires id in s.verifications && s.verifications[id].userId in s.users
  {
    var t := s.verifications[id];
    s.(users := s.users[t.userId := s.users[t.userId].(emailVerifiedAt := Some(s.clock))],
       verifications := s.verifications[id := t.(usedAt := Some(s.clock))])
  }

  function Finishing(r: Race, caller: Caller): Race
    requires Placed(r)
  {
    if caller !in r.held then r else Race(Written(r.tables, r.held[caller]), r.held - {caller})
  }

  /** Held rows are there, and so are the users of tokens. */
  predicate Placed(r: Race) {
    (forall caller :: caller in r.held ==> r.held[caller] in r.tables.verifications)
    && forall id :: id in r.tables.verifications ==> r.tables.verifications[id].userId in r.tables.users
  }

  ghost predicate Inv(r: Race) {
    VerificationSecretsUnique(r.tables.verifications) && Placed(r)
  }

  function At(r: Race, now: nat): Race {
    r.(tables := Tick(r.tables, now))
  }

  function Next(r: Race, step: Step): Race
    requires VerificationSecretsUnique(r.tables.verifications) && Placed(r)
  {
    if !Happens(r, step) then r
    else
      var b := At(r, step.now);
      match step
      case Register(username, email, password, userId, id, secret, session, token, ttl, _) =>
        b.(tables := RegisterAs(b.tables, username, email, password, userId, id, secret, session, token, ttl).state)
      case Request(userId, id, secret, _) => b.(tables := RequestEmailVerification(b.tables, userId, id, secret).state)
      case Change(userId, newEmail, _) => b.(tables := ChangeEmail(b.tables, userId, newEmail).state)
      case Read(caller, secret, _) => Reading(b, caller, secret)
      case Finish(caller, _) => Finishing(b, caller)
  }

  lemma IssueKeeps(s: State, userId: Id, email: string, id: Id, secret: string)
    requires VerificationSecretsUnique(s.verifications) && Fresh(s, id, secret)
    ensures VerificationSecretsUnique(IssueVerification(s, userId, email, id, secret).verifications)
  {
    var t := IssueVerification(s, userId, email, id, secret);
    forall c, a, b | IsVerification(t.verifications, c, a) && IsVerification(t.verifications, c, b) ensures a == b {
      assert a in s.verifications ==> IsVerification(s.verifications, c, a);
      assert b in s.verifications ==> IsVerification(s.verifications, c, b);
    }
  }

  lemma WrittenKeeps(s: State, id: Id)
    requires VerificationSecretsUnique(s.verifications) && id in s.verifications
    requires s.verifications[id].userId in s.users
    ensures VerificationSecretsUnique(Written(s, id).verifications)
  {
    var t := Written(s, id);
    forall c, a, b | IsVerification(t.verifications, c, a) && IsVerification(t.verifications, c, b) ensures a == b {
      assert IsVerification(s.verifications, c, a) && IsVerification(s.verifications, c, b);
    }
  }

  lemma NextKeeps(r: Race, step: Step)
    requires Inv(r)
    ensures Inv(Next(r, step))
  {
    if Happens(r, step) {
      var s := Tick(r.tables, step.now);
      match step
      case Register(username, email, password, userId, id, secret, session, token, ttl, _) =>
        IssueKeeps(WithUser(s, userId, username, email, password), userId, email, id, secret);
      case Request(userId, id, secret, _) =>
        if userId in s.users && s.users[userId].email.Some? {
          IssueKeeps(s, userId, s.users[userId].email.value, id, secret);
        }
      case Change(_, _, _) =>
      case Read(_, _, _) =>
      case Finish(caller, _) =>
        if caller in r.held {
          WrittenKeeps(s, r.held[caller]);
        }
    }
  }

  function After(steps: seq<Step>): (r: Race)
    ensures Inv(r)
  {
    if steps == [] then START
    else
      NextKeeps(After(steps[..|steps| - 1]), steps[|steps| - 1]);
      Next(After(steps[..|steps| - 1]), steps[|steps| - 1])
  }

  lemma AfterOne(steps: seq<Step>, i: nat)
    requires i < |steps|
    ensures After(steps[..i + 1]) == Next(After(steps[..i]), steps[i])
  {
    assert steps[..i + 1][..i] == steps[..i];
  }

  // ---------- what goes wrong ----------

  predicate IssuedFor(s: State, u: Id, id: Id) {
    id in s.verifications && u in s.users && s.verifications[id].userId == u
    && Some(s.verifications[id].email) == s.users[u].email
  }

  /** No token was ever issued to the user for the address the user has. */
  ghost predicate Unissued(s: State, u: Id) {
    u in s.users && forall id :: !IssuedFor(s, u, id)
  }

  /** Verified for an address no token was issued for. */
  ghost predicate Wrong(s: State, u: Id) {
    Unissued(s, u) && s.users[u].emailVerifiedAt.Some?
  }

  predicate HoldsFor(r: Race, caller: Caller, u: Id) {
    caller in r.held && r.held[caller] in r.tables.verifications
    && r.tables.verifications[r.held[caller]].userId == u
  }

  ghost predicate HeldFor(r: Race, u: Id) {
    exists caller :: HoldsFor(r, caller, u)
  }

  /** The step gives the user an address no token was issued for, while a confirmation holds one of the user's. */
  ghost predicate Crosses(r: Race, step: Step, u: Id)
    requires Inv(r)
  {
    HeldFor(r, u) && !Unissued(r.tables, u) && Unissued(Next(r, step).tables, u)
  }

  ghost predicate CrossesAt(steps: seq<Step>, i: nat, u: Id)
    requires i < |steps|
  {
    Crosses(After(steps[..i]), steps[i], u)
  }

  ghost predicate Crossed(steps: seq<Step>, u: Id) {
    exists i :: 0 <= i < |steps| && CrossesAt(steps, i, u)
  }

  /** Were this confirmation finished now, the user would be verified wrongly. */
  ghost predicate FinishedWrong(r: Race, caller: Caller, u: Id)
    requires Inv(r)
  {
    Wrong(Next(r, Finish(caller, r.tables.clock)).tables, u)
  }

  // ---------- exactly when ----------

  /** Whatever is written, tokens stay issued to whom and for what they were. */
  lemma FinishFor(r: Race, caller: Caller, u: Id)
    requires Inv(r) && HoldsFor(r, caller, u) && Unissued(r.tables, u)
    ensures FinishedWrong(r, caller, u)
  {
    var t := Next(r, Finish(caller, r.tables.clock)).tables;
    forall id ensures !IssuedFor(t, u, id) {
      assert !IssuedFor(r.tables, u, id);
    }
  }

  /** No token goes, nor is it handed on, and the user keeps the address. */
  predicate TokensStay(s: State, t: State, u: Id) {
    (forall id :: id in s.verifications ==>
       id in t.verifications && t.verifications[id].userId == s.verifications[id].userId
       && t.verifications[id].email == s.verifications[id].email)
    && (u in t.users ==> u in s.users && t.users[u].email == s.users[u].email)
  }

  lemma UnissuedBack(s: State, t: State, u: Id)
    requires TokensStay(s, t, u)
    ensures Unissued(t, u) ==> Unissued(s, u)
  {
    if Unissued(t, u) {
      forall id ensures !IssuedFor(s, u, id) {
        assert !IssuedFor(t, u, id);
      }
    }
  }

  /** What a step may do to a user: nothing new is held or wrong unless it was before, or the step crosses. */
  ghost predicate Accounted(r: Race, t: Race, u: Id) {
    && (HeldFor(t, u) && Unissued(t.tables, u) ==> HeldFor(r, u))
    && (Wrong(t.tables, u) ==> Wrong(r.tables, u) || (HeldFor(r, u) && Unissued(r.tables, u)))
  }

  lemma IssueFirst(s: State, u: Id, email: string, id: Id, secret: string)
    requires u in s.users && s.users[u].email == Some(email)
    requires forall v :: v in s.verifications ==> s.verifications[v].userId != u
    ensures IssuedFor(IssueVerification(s, u, email, id, secret), u, id)
  {
  }

  lemma IssueStays(s: State, v: Id, email: string, id: Id, secret: string, u: Id)
    requires id !in s.verifications
    ensures TokensStay(s, IssueVerification(s, v, email, id, secret), u)
  {
  }

  /** A fresh user has no tokens, so one is issued. */
  lemma RegisterTokens(s: State, step: Step, u: Id)
    requires step.Register? && step.userId !in s.users && Fresh(s, step.id, step.secret)
    requires forall id :: id in s.verifications ==> s.verifications[id].userId in s.users
    ensures var t := RegisterAs(s, step.username, step.email, step.password, step.userId, step.id, step.secret,
                                step.session, step.token, step.ttl).state;
      if u == step.userId then u in t.users ==> IssuedFor(t, u, step.id) else TokensStay(s, t, u)
  {
    var w := WithUser(s, step.userId, step.username, step.email, step.password);
    if u == step.userId {
      IssueFirst(w, u, step.email, step.id, step.secret);
    } else {
      IssueStays(w, step.userId, step.email, step.id, step.secret, u);
      assert TokensStay(s, IssueVerification(w, step.userId, step.email, step.id, step.secret), u);
    }
  }

  lemma RegisterWrong(s: State, step: Step, u: Id)
    requires step.Register? && step.userId !in s.users && u != step.userId
    ensures var t := RegisterAs(s, step.username, step.email, step.password, step.userId, step.id, step.secret,
                                step.session, step.token, step.ttl).state;
      u in t.users ==> u in s.users && t.users[u] == s.users[u]
  {
  }

  lemma RegisterHeld(r: Race, step: Step, u: Id)
    requires Inv(r) && step.Register? && Happens(r, step)
    ensures HeldFor(Next(r, step), u) ==> HeldFor(r, u)
  {
    forall caller | HoldsFor(Next(r, step), caller, u) ensures HoldsFor(r, caller, u) {
    }
  }

  lemma RegisterAccounted(r: Race, step: Step, u: Id)
    requires Inv(r) && step.Register? && Happens(r, step)
    ensures Accounted(r, Next(r, step), u)
  {
    RegisterHeld(r, step, u);
    RegisterTokens(Tick(r.tables, step.now), step, u);
    if u != step.userId {
      RegisterWrong(Tick(r.tables, step.now), step, u);
      UnissuedBack(r.tables, Next(r, step).tables, u);
    }
  }

  lemma RequestAccounted(r: Race, step: Step, u: Id)
    requires Inv(r) && step.Request? && Happens(r, step)
    ensures Accounted(r, Next(r, step), u)
  {
    UnissuedBack(r.tables, Next(r, step).tables, u);
    forall caller | HoldsFor(Next(r, step), caller, u) ensures HoldsFor(r, caller, u) {
    }
  }

  lemma ChangeAccounted(r: Race, step: Step, u: Id)
    requires Inv(r) && step.Change? && Happens(r, step)
    ensures Accounted(r, Next(r, step), u)
  {
    var t := Next(r, step);
    forall caller | HoldsFor(t, caller, u) ensures HoldsFor(r, caller, u) {
    }
    if Wrong(t.tables, u) {
      UnissuedBack(r.tables, t.tables, u);
    }
  }

  lemma ReadAccounted(r: Race, step: Step, u: Id)
    requires Inv(r) && step.Read? && Happens(r, step)
    ensures Accounted(r, Next(r, step), u)
  {
    var t := Next(r, step);
    UnissuedBack(r.tables, t.tables, u);
    forall caller | HoldsFor(t, caller, u) && Unissued(t.tables, u) ensures HoldsFor(r, caller, u) {
      assert !IssuedFor(t.tables, u, t.held[caller]);
    }
  }

  lemma FinishTokens(r: Race, step: Step, u: Id)
    requires Inv(r) && step.Finish?
    ensures TokensStay(r.tables, Next(r, step).tables, u)
  {
  }

  lemma FinishHeld(r: Race, step: Step, u: Id)
    requires Inv(r) && step.Finish? && Happens(r, step)
    ensures HeldFor(Next(r, step), u) ==> HeldFor(r, u)
  {
    forall caller | HoldsFor(Next(r, step), caller, u) ensures HoldsFor(r, caller, u) {
    }
  }

  lemma FinishVerifies(r: Race, step: Step, u: Id)
    requires Inv(r) && step.Finish? && u in r.tables.users
    ensures u in Next(r, step).tables.users
    ensures Next(r, step).tables.users[u].emailVerifiedAt == r.tables.users[u].emailVerifiedAt
      || HoldsFor(r, step.caller, u)
  {
  }

  lemma FinishAccounted(r: Race, step: Step, u: Id)
    requires Inv(r) && step.Finish? && Happens(r, step)
    ensures Accounted(r, Next(r, step), u)
  {
    FinishTokens(r, step, u);
    UnissuedBack(r.tables, Next(r, step).tables, u);
    FinishHeld(r, step, u);
    if u in r.tables.users {
      FinishVerifies(r, step, u);
    }
  }

  lemma RequestTokens(r: Race, step: Step, u: Id)
    requires Inv(r) && step.Request?
    ensures TokensStay(r.tables, Next(r, step).tables, u)
  {
  }

  lemma ReadTokens(r: Race, step: Step, u: Id)
    requires Inv(r) && step.Read?
    ensures TokensStay(r.tables, Next(r, step).tables, u)
  {
  }

  lemma OtherChangeTokens(r: Race, step: Step, u: Id)
    requires Inv(r) && step.Change? && step.userId != u
    ensures TokensStay(r.tables, Next(r, step).tables, u)
  {
  }

  lemma StepAccounted(r: Race, step: Step, u: Id)
    requires Inv(r)
    ensures Accounted(r, Next(r, step), u)
  {
    if Happens(r, step) {
      match step
      case Register(_, _, _, _, _, _, _, _, _, _) => RegisterAccounted(r, step, u);
      case Request(_, _, _, _) => RequestAccounted(r, step, u);
      case Change(_, _, _) => ChangeAccounted(r, step, u);
      case Read(_, _, _) => ReadAccounted(r, step, u);
      case Finish(_, _) => FinishAccounted(r, step, u);
    }
  }

  /** Something is wrong, or would be once a confirmation is finished. */
  ghost predicate Threatened(r: Race, u: Id) {
    Wrong(r.tables, u) || (HeldFor(r, u) && Unissued(r.tables, u))
  }

  /** A user whose address was never issued a token for, yet is held, was known before; so was the address. */
  lemma StepThreatens(r: Race, step: Step, u: Id)
    requires Inv(r) && Threatened(Next(r, step), u)
    ensures Threatened(r, u) || Crosses(r, step, u)
  {
    StepAccounted(r, step, u);
  }

  lemma CrossesBefore(steps: seq<Step>, n: nat, i: nat, u: Id)
    requires i < n <= |steps|
    ensures CrossesAt(steps[..n], i, u) == CrossesAt(steps, i, u)
  {
    assert steps[..n][..i] == steps[..i];
  }

  lemma CrossedBefore(steps: seq<Step>, n: nat, u: Id)
    requires n <= |steps| && Crossed(steps[..n], u)
    ensures Crossed(steps, u)
  {
    var i :| 0 <= i < n && CrossesAt(steps[..n], i, u);
    CrossesBefore(steps, n, i, u);
  }

  lemma {:induction false} ThreatenedCrossed(steps: seq<Step>, u: Id)
    requires Threatened(After(steps), u)
    ensures Crossed(steps, u)
  {
    if steps != [] {
      var n := |steps| - 1;
      StepThreatens(After(steps[..n]), steps[n], u);
      if CrossesAt(steps, n, u) {
        assert Crossed(steps, u);
      } else {
        ThreatenedCrossed(steps[..n], u);
        CrossedBefore(steps, n, u);
      }
    }
  }

  lemma FinishedThreatens(r: Race, caller: Caller, u: Id)
    requires Inv(r) && FinishedWrong(r, caller, u)
    ensures Threatened(r, u)
  {
    StepAccounted(r, Finish(caller, r.tables.clock), u);
  }

  ghost predicate CanGoWrong(steps: seq<Step>, n: nat, u: Id)
    requires n <= |steps|
  {
    exists caller :: FinishedWrong(After(steps[..n]), caller, u)
  }

  lemma CrossedGoesWrong(steps: seq<Step>, i: nat, u: Id)
    requires i < |steps| && CrossesAt(steps, i, u)
    ensures CanGoWrong(steps, i + 1, u)
  {
    var r := After(steps[..i]);
    AfterOne(steps, i);
    var caller :| HoldsFor(r, caller, u);
    HeldThroughChange(r, steps[i], caller, u);
    FinishFor(After(steps[..i + 1]), caller, u);
  }

  /** A step that crosses leaves what is held. */
  lemma HeldThroughChange(r: Race, step: Step, caller: Caller, u: Id)
    requires Inv(r) && HoldsFor(r, caller, u) && Crosses(r, step, u)
    ensures HoldsFor(Next(r, step), caller, u)
  {
    if step.Finish? {
      FinishIssued(r, step, u);
    }
  }

  lemma FinishIssued(r: Race, step: Step, u: Id)
    requires Inv(r) && step.Finish? && Unissued(Next(r, step).tables, u)
    ensures Unissued(r.tables, u)
  {
    FinishTokens(r, step, u);
    UnissuedBack(r.tables, Next(r, step).tables, u);
  }

  /**
   At some moment a user is, or by finishing a confirmation would be, verified for an address no token was
   issued to the user for, if and only if the address was changed to such a one while a confirmation held a
   token of the user.
   */
  lemma WrongExactly(steps: seq<Step>, u: Id)
    ensures (exists n :: 0 <= n <= |steps| && CanGoWrong(steps, n, u)) <==> Crossed(steps, u)
  {
    if Crossed(steps, u) {
      var i :| 0 <= i < |steps| && CrossesAt(steps, i, u);
      CrossedGoesWrong(steps, i, u);
    }
    if exists n :: 0 <= n <= |steps| && CanGoWrong(steps, n, u) {
      var n :| 0 <= n <= |steps| && CanGoWrong(steps, n, u);
      var caller :| FinishedWrong(After(steps[..n]), caller, u);
      FinishedThreatens(After(steps[..n]), caller, u);
      ThreatenedCrossed(steps[..n], u);
      CrossedBefore(steps, n, u);
    }
  }

  /** So without such a change every verified user was issued a token for the address. */
  lemma VerifiedWasIssued(steps: seq<Step>, u: Id)
    requires !Crossed(steps, u) && u in After(steps).tables.users
    requires After(steps).tables.users[u].emailVerifiedAt.Some?
    ensures exists id :: IssuedFor(After(steps).tables, u, id)
  {
    if Wrong(After(steps).tables, u) {
      ThreatenedCrossed(steps, u);
    }
  }

  // ---------- which steps cross ----------

  predicate Differs(s: State, u: Id, email: Option<string>) {
    u in s.users && s.users[u].email != email && !EmailTaken(s.users, email, u)
    && forall id :: id in s.verifications && s.verifications[id].userId == u ==>
         Some(s.verifications[id].email) != email
  }

  lemma ChangeCrosses(r: Race, step: Step, u: Id)
    requires Inv(r) && Happens(r, step) && step.Change? && step.userId == u && !Unissued(r.tables, u)
    ensures Unissued(Next(r, step).tables, u) <==> step.newEmail.Some? && Differs(r.tables, u, step.newEmail.value)
  {
    var s, t := r.tables, Next(r, step).tables;
    if u in s.users && step.newEmail.Some? && Differs(s, u, step.newEmail.value) {
      assert forall id :: !IssuedFor(t, u, id);
    } else if u in s.users {
      var id :| IssuedFor(s, u, id);
      if t.users[u].email == s.users[u].email {
        assert IssuedFor(t, u, id);
      } else {
        var other :| other in s.verifications && s.verifications[other].userId == u
          && Some(s.verifications[other].email) == step.newEmail.value;
        assert IssuedFor(t, u, other);
      }
    }
  }

  lemma RegisterDoesNot(r: Race, step: Step, u: Id)
    requires Inv(r) && step.Register? && Happens(r, step)
    ensures !Crosses(r, step, u)
  {
    RegisterTokens(Tick(r.tables, step.now), step, u);
    if u != step.userId {
      UnissuedBack(r.tables, Next(r, step).tables, u);
    }
  }

  lemma OnlyChangeCrosses(r: Race, step: Step, u: Id)
    requires Inv(r) && Crosses(r, step, u)
    ensures Happens(r, step) && step.Change? && step.userId == u
  {
    match step
    case Register(_, _, _, _, _, _, _, _, _, _) =>
      if Happens(r, step) {
        RegisterDoesNot(r, step, u);
      }
    case Request(_, _, _, _) =>
      RequestTokens(r, step, u);
      UnissuedBack(r.tables, Next(r, step).tables, u);
    case Change(userId, _, _) =>
      if userId != u {
        OtherChangeTokens(r, step, u);
        UnissuedBack(r.tables, Next(r, step).tables, u);
      }
    case Read(_, _, _) =>
      ReadTokens(r, step, u);
      UnissuedBack(r.tables, Next(r, step).tables, u);
    case Finish(_, _) => FinishIssued(r, step, u);
  }

  /** Exactly a change of the user's address, to one no token of the user is for, while one of them is held. */
  lemma CrossesExactly(r: Race, step: Step, u: Id)
    requires Inv(r)
    ensures Crosses(r, step, u) <==>
      HeldFor(r, u) && !Unissued(r.tables, u)
      && Happens(r, step) && step.Change? && step.userId == u
      && step.newEmail.Some? && Differs(r.tables, u, step.newEmail.value)
  {
    if Crosses(r, step, u) {
      OnlyChangeCrosses(r, step, u);
    }
    if Happens(r, step) && step.Change? && step.userId == u && !Unissued(r.tables, u) {
      ChangeCrosses(r, step, u);
    }
  }

  // ---------- such a run ----------

  lemma AfterMore(steps: seq<Step>, step: Step)
    ensures After(steps + [step]) == Next(After(steps), step)
  {
    assert (steps + [step])[..|steps|] == steps;
  }

  /** A user registers, a confirmation reads the token, the address changes, and the confirmation is finished. */
  function Crossing(register: Step, email: string): seq<Step>
    requires register.Register?
  {
    [register] + [Read(0, register.secret, register.now)]
    + [Change(register.userId, Some(Some(email)), register.now)] + [Finish(0, register.now)]
  }

  predicate Registered(r: Race, register: Step)
    requires register.Register?
  {
    var s, u := r.tables, register.userId;
    s.clock == register.now && u in s.users && s.users[u].email == Some(register.email) && s.users.Keys == {u}
    && s.verifications == map[register.id :=
         VerificationToken(u, register.email, register.secret, s.clock + VERIFICATION_TTL, None)]
  }

  lemma RegisteredFirst(register: Step)
    requires register.Register?
    ensures Registered(After([register]), register) && After([register]).held == map[]
  {
    AfterMore([], register);
    assert [] + [register] == [register];
  }

  lemma ReadNext(register: Step)
    requires register.Register?
    ensures var r := After([register] + [Read(0, register.secret, register.now)]);
      Registered(r, register) && r.held == map[0 := register.id]
  {
    RegisteredFirst(register);
    AfterMore([register], Read(0, register.secret, register.now));
    assert IsVerification(After([register]).tables.verifications, register.secret, register.id);
  }

  lemma CrossingWrong(register: Step, email: string)
    requires register.Register? && email != register.email
    ensures var s := After(Crossing(register, email)).tables;
      Wrong(s, register.userId) && s.users[register.userId].email == Some(email)
  {
    var steps := [register] + [Read(0, register.secret, register.now)];
    ReadNext(register);
    var change := Change(register.userId, Some(Some(email)), register.now);
    AfterMore(steps, change);
    AfterMore(steps + [change], Finish(0, register.now));
  }
}
