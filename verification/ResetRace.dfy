/**
 Password resets when calls are not one at a time: a confirmation reads the token, then hashes the new
 password, and only then writes. It does not look at the token again, so other calls may come between.
 */
module ResetRace {
  import opened Text
  import opened Credentials

  type Caller = nat

  /** The tables, and the confirmations between their reading a token and their writing, with the row they hold. */
  datatype State = Tables(
    clock: nat, resets: map<Id, ResetToken>, passwords: map<Id, string>, held: map<Caller, Id>)

  datatype Step =
    | Request(userId: Id, id: Id, secret: string, now: nat)
    | Read(caller: Caller, secret: string, now: nat)
    | Finish(caller: Caller, password: string, now: nat)

  const EMPTY := Tables(0, map[], map[], map[])

  /** The clock does not go back, new ids and secrets are fresh, and a caller confirms one token at a time. */
  ghost predicate Happens(s: State, step: Step) {
    step.now >= s.clock
    && (step.Request? ==> step.id !in s.resets && forall a :: !IsReset(s.resets, step.secret, a))
    && (step.Read? ==> step.caller !in s.held)
  }

  function Requested(resets: map<Id, ResetToken>, userId: Id, id: Id, secret: string, now: nat): map<Id, ResetToken> {
    SupersedeAll(resets, userId, now)[id := ResetToken(userId, secret, now + RESET_TTL, None)]
  }

  function Reading(s: State, caller: Caller, secret: string, now: nat): State
    requires ResetSecretsUnique(s.resets)
  {
    var id := FindReset(s.resets, secret);
    if id.None? || !ResetLive(s.resets[id.value], now) then s.(clock := now)
    else s.(clock := now, held := s.held[caller := id.value])
  }

  function Finishing(s: State, caller: Caller, password: string, now: nat): State {
    if caller !in s.held || s.held[caller] !in s.resets then s.(clock := now)
    else
      var id := s.held[caller];
      Tables(now, s.resets[id := s.resets[id].(usedAt := Some(now))],
             s.passwords[s.resets[id].userId := password], s.held - {caller})
  }

  ghost function Next(s: State, step: Step): State
    requires ResetSecretsUnique(s.resets)
  {
    if !Happens(s, step) then s
    else
      match step
      case Request(userId, id, secret, now) =>
        s.(clock := now, resets := Requested(s.resets, userId, id, secret, now))
      case Read(caller, secret, now) => Reading(s, caller, secret, now)
      case Finish(caller, password, now) => Finishing(s, caller, password, now)
  }

  predicate HeldExist(s: State) {
    forall caller :: caller in s.held ==> s.held[caller] in s.resets
  }

  ghost predicate Inv(s: State) {
    ResetSecretsUnique(s.resets) && HeldExist(s)
  }

  lemma NextKeeps(s: State, step: Step)
    requires Inv(s)
    ensures Inv(Next(s, step))
  {
    var t := Next(s, step);
    forall secret, a, b | IsReset(t.resets, secret, a) && IsReset(t.resets, secret, b) ensures a == b {
      assert a in s.resets ==> IsReset(s.resets, secret, a);
      assert b in s.resets ==> IsReset(s.resets, secret, b);
    }
  }

  ghost function After(steps: seq<Step>): (s: State)
    ensures Inv(s)
  {
    if steps == [] then EMPTY
    else
      NextKeeps(After(steps[..|steps| - 1]), steps[|steps| - 1]);
      Next(After(steps[..|steps| - 1]), steps[|steps| - 1])
  }

  predicate Holds(s: State, caller: Caller, id: Id) {
    caller in s.held && s.held[caller] == id
  }

  ghost predicate Held(s: State, id: Id) {
    exists caller :: Holds(s, caller, id)
  }

  /** Used, superseded or expired. */
  predicate Dead(s: State, id: Id) {
    id in s.resets && !ResetLive(s.resets[id], s.clock)
  }

  /** The step sets a password by the token. */
  ghost predicate Redeems(s: State, step: Step, id: Id) {
    Happens(s, step) && step.Finish? && Holds(s, step.caller, id)
  }

  ghost predicate RedeemsAt(steps: seq<Step>, i: nat, id: Id)
    requires i < |steps|
  {
    Redeems(After(steps[..i]), steps[i], id)
  }

  lemma AfterOne(steps: seq<Step>, i: nat)
    requires i < |steps|
    ensures After(steps[..i + 1]) == Next(After(steps[..i]), steps[i])
  {
    assert steps[..i + 1][..i] == steps[..i];
  }

  lemma DeadStays(s: State, step: Step, id: Id)
    requires Inv(s) && Dead(s, id) && !Held(s, id)
    ensures Dead(Next(s, step), id) && !Held(Next(s, step), id)
  {
    var t := Next(s, step);
    forall caller ensures !Holds(t, caller, id) {
      assert !Holds(s, caller, id);
    }
  }

  lemma {:induction false} UnheldStays(steps: seq<Step>, n: nat, m: nat, id: Id)
    requires n <= m <= |steps| && Dead(After(steps[..n]), id) && !Held(After(steps[..n]), id)
    ensures Dead(After(steps[..m]), id) && !Held(After(steps[..m]), id)
    decreases m
  {
    if n < m {
      UnheldStays(steps, n, m - 1, id);
      AfterOne(steps, m - 1);
      DeadStays(After(steps[..m - 1]), steps[m - 1], id);
    }
  }

  ghost predicate RedeemsLater(steps: seq<Step>, rest: seq<Step>, id: Id) {
    exists i :: |steps| <= i < |steps + rest| && RedeemsAt(steps + rest, i, id)
  }

  /** Some way for calls to go on sets a password by the token. */
  ghost predicate CanRedeem(steps: seq<Step>, id: Id) {
    exists rest :: RedeemsLater(steps, rest, id)
  }

  lemma HeldCanRedeem(steps: seq<Step>, caller: Caller, id: Id)
    requires Holds(After(steps), caller, id)
    ensures CanRedeem(steps, id)
  {
    var rest := [Finish(caller, [], After(steps).clock)];
    assert (steps + rest)[..|steps|] == steps;
    assert RedeemsAt(steps + rest, |steps|, id);
    assert RedeemsLater(steps, rest, id);
  }

  lemma UnheldCannotRedeem(steps: seq<Step>, rest: seq<Step>, id: Id)
    requires Dead(After(steps), id) && !Held(After(steps), id)
    ensures !RedeemsLater(steps, rest, id)
  {
    assert (steps + rest)[..|steps|] == steps;
    forall i | |steps| <= i < |steps + rest| ensures !RedeemsAt(steps + rest, i, id) {
      UnheldStays(steps + rest, |steps|, i, id);
    }
  }

  /** A used, superseded or expired token sets a password again exactly when a confirmation already holds it. */
  lemma DeadRedeemedExactly(steps: seq<Step>, id: Id)
    requires Dead(After(steps), id)
    ensures CanRedeem(steps, id) <==> Held(After(steps), id)
  {
    if Held(After(steps), id) {
      var caller :| Holds(After(steps), caller, id);
      HeldCanRedeem(steps, caller, id);
    } else {
      forall rest ensures !RedeemsLater(steps, rest, id) {
        UnheldCannotRedeem(steps, rest, id);
      }
    }
  }

  ghost predicate HeldByOther(s: State, caller: Caller, id: Id) {
    exists other :: other != caller && Holds(s, other, id)
  }

  lemma RedeemingEnds(s: State, step: Step, id: Id)
    requires Inv(s) && Redeems(s, step, id)
    ensures Dead(Next(s, step), id) && (Held(Next(s, step), id) <==> HeldByOther(s, step.caller, id))
  {
    var t := Next(s, step);
    assert forall other :: Holds(t, other, id) <==> other != step.caller && Holds(s, other, id);
  }

  /** A token that set a password can set one again exactly when a second confirmation had read it before. */
  lemma RedeemedAgainExactly(steps: seq<Step>, step: Step, id: Id)
    requires Redeems(After(steps), step, id)
    ensures CanRedeem(steps + [step], id) <==> HeldByOther(After(steps), step.caller, id)
  {
    assert (steps + [step])[..|steps|] == steps && (steps + [step])[..|steps| + 1] == steps + [step];
    AfterOne(steps + [step], |steps|);
    RedeemingEnds(After(steps), step, id);
    DeadRedeemedExactly(steps + [step], id);
  }

  /** So a token never held by two confirmations at once is redeemed once at most. */
  lemma UnsharedRedeemedOnce(steps: seq<Step>, i: nat, j: nat, id: Id)
    requires i < j < |steps| && RedeemsAt(steps, i, id) && !HeldByOther(After(steps[..i]), steps[i].caller, id)
    ensures !RedeemsAt(steps, j, id)
  {
    RedeemingEnds(After(steps[..i]), steps[i], id);
    AfterOne(steps, i);
    UnheldStays(steps, i + 1, j, id);
  }

  /** A user who asks for another reset supersedes the token, but not for a confirmation that already holds it. */
  lemma SupersededRedeemedExactly(steps: seq<Step>, step: Step, id: Id)
    requires Happens(After(steps), step) && step.Request?
    requires id in After(steps).resets && After(steps).resets[id].userId == step.userId
    ensures CanRedeem(steps + [step], id) <==> Held(After(steps), id)
  {
    assert (steps + [step])[..|steps|] == steps && (steps + [step])[..|steps| + 1] == steps + [step];
    AfterOne(steps + [step], |steps|);
    assert forall caller :: Holds(After(steps + [step]), caller, id) <==> Holds(After(steps), caller, id);
    DeadRedeemedExactly(steps + [step], id);
  }

  // ---------- such a run ----------

  /** A reset is requested, two confirmations read its token, and both succeed: the second password stands. */
  function TwoConfirmations(u: Id, id: Id, secret: string, first: string, second: string): seq<Step> {
    [Request(u, id, secret, 0)] + [Read(0, secret, 1)] + [Read(1, secret, 1)] + [Finish(0, first, 2)]
    + [Finish(1, second, 2)]
  }

  lemma AfterMore(steps: seq<Step>, step: Step)
    ensures After(steps + [step]) == Next(After(steps), step)
  {
    assert (steps + [step])[..|steps|] == steps;
  }

  /** A live token in the tables, held by these callers. */
  predicate Ready(s: State, u: Id, id: Id, secret: string, held: map<Caller, Id>) {
    IsReset(s.resets, secret, id) && s.resets[id].userId == u && ResetLive(s.resets[id], 1) && s.clock <= 1
    && s.passwords == map[] && s.held == held
  }

  lemma ReadTwice(u: Id, id: Id, secret: string) returns (steps: seq<Step>)
    ensures steps == [Request(u, id, secret, 0)] + [Read(0, secret, 1)] + [Read(1, secret, 1)]
    ensures Ready(After(steps), u, id, secret, map[0 := id, 1 := id])
  {
    steps := [Request(u, id, secret, 0)];
    assert [] + steps == steps;
    AfterMore([], steps[0]);
    assert Ready(After(steps), u, id, secret, map[]);
    AfterMore(steps, Read(0, secret, 1));
    steps := steps + [Read(0, secret, 1)];
    assert Ready(After(steps), u, id, secret, map[0 := id]);
    AfterMore(steps, Read(1, secret, 1));
    steps := steps + [Read(1, secret, 1)];
  }

  lemma BothSucceed(u: Id, id: Id, secret: string, first: string, second: string)
    ensures var steps := TwoConfirmations(u, id, secret, first, second);
      RedeemsAt(steps, 3, id) && RedeemsAt(steps, 4, id)
      && After(steps).passwords == map[u := second]
  {
    var steps := ReadTwice(u, id, secret);
    var all := TwoConfirmations(u, id, secret, first, second);
    AfterMore(steps, Finish(0, first, 2));
    AfterMore(steps + [Finish(0, first, 2)], Finish(1, second, 2));
    assert all[..3] == steps && all[..4] == steps + [Finish(0, first, 2)];
  }
}
