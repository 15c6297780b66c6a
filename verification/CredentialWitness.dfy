/** A short run of calls after which a user with two factors cannot sign in any more. */
module CredentialWitness {
  import opened Text
  import opened Credentials
  import opened CredentialRuns

  /** A user registers, sets up two factors, enables them with a right code, and sets them up again. */
  function SettingUpAgain(register: Op, first: string, code: string, second: string, now: nat): seq<Event>
    requires register.DoRegister?
  {
    var u := register.userId;
    [Event(register, now)] + [Event(DoSetup(u, first), now)] + [Event(DoEnable(u, code), now)]
    + [Event(DoSetup(u, second), now)]
  }

  lemma RunMore(events: seq<Event>, e: Event, env: Env)
    requires Happens(Run(events, env), e)
    ensures Run(events + [e], env) == Call(AtCall(Run(events, env), e), e.op, env).state
  {
    assert (events + [e])[..|events|] == events;
  }

  lemma AfterRegister(register: Op, now: nat, env: Env)
    requires register.DoRegister?
    ensures var u, s := register.userId, Run([Event(register, now)], env);
      s.clock == now && u in s.users && !s.users[u].twoFactorEnabled && HasPassword(s, u, register.password)
  {
    var e := Event(register, now);
    assert [e][..0] == [];
    assert Run([], env) == EMPTY;
    assert Happens(EMPTY, e);
  }

  lemma AfterSetup(events: seq<Event>, u: Id, first: string, now: nat, env: Env)
    requires Run(events, env).clock == now && u in Run(events, env).users
    ensures var s, t := Run(events, env), Run(events + [Event(DoSetup(u, first), now)], env);
      t == s.(totps := s.totps[u := Totp(first, None)])
  {
    RunMore(events, Event(DoSetup(u, first), now), env);
  }

  lemma AfterEnable(events: seq<Event>, u: Id, code: string, now: nat, env: Env)
    requires var s := Run(events, env);
      s.clock == now && u in s.users && u in s.totps && env.verifyTotp(code, s.totps[u].secret, now)
    ensures var s, t := Run(events, env), Run(events + [Event(DoEnable(u, code), now)], env);
      t == s.(totps := s.totps[u := s.totps[u].(confirmedAt := Some(now))],
              users := s.users[u := s.users[u].(twoFactorEnabled := true)])
  {
    RunMore(events, Event(DoEnable(u, code), now), env);
  }

  /** Such a run exists for every user and every code the verifier accepts. */
  lemma SettingUpAgainHappens(register: Op, first: string, code: string, second: string, now: nat, env: Env)
    requires register.DoRegister? && env.verifyTotp(code, first, now)
    ensures SetsUpAgain(SettingUpAgain(register, first, code, second, now), 3, register.userId, env)
    ensures var s := Run(SettingUpAgain(register, first, code, second, now)[..3], env);
      HasPassword(s, register.userId, register.password) && s.clock == now
      && TwoFactorPassed(s, register.userId, code, env)
  {
    var u, e := register.userId, [Event(register, now)];
    AfterRegister(register, now, env);
    AfterSetup(e, u, first, now, env);
    AfterEnable(e + [Event(DoSetup(u, first), now)], u, code, now, env);
    assert SettingUpAgain(register, first, code, second, now)[..3]
        == e + [Event(DoSetup(u, first), now)] + [Event(DoEnable(u, code), now)];
  }

  /** The last call alone locks the user out: just before it the password and the code sign in. */
  lemma LocksOut(
    register: Op, first: string, code: string, second: string, now: nat, env: Env, session: Id, token: string,
    ttl: nat)
    requires register.DoRegister? && env.verifyTotp(code, first, now)
    ensures var events, u, password := SettingUpAgain(register, first, code, second, now), register.userId,
                                       register.password;
      var before, after := Run(events[..3], env), Run(events, env);
      u in before.users && u in after.users
      && Login(before, Some(u), password, code, session, token, ttl, env).reply == SignedIn(token)
      && forall later: nat, any: string ::
           Login(Tick(after, later), Some(u), password, any, session, token, ttl, env).reply == Unauthorized
  {
    var events := SettingUpAgain(register, first, code, second, now);
    SettingUpAgainHappens(register, first, code, second, now, env);
    forall later: nat, any: string
      ensures register.userId in Run(events, env).users
      ensures
        Login(Tick(Run(events, env), later), Some(register.userId), register.password, any, session, token, ttl, env)
          .reply
        == Unauthorized {
      SetupLocksOut(events, 3, register.userId, env, later, register.password, any, session, token, ttl);
    }
  }
}
