/** Friend rows: requests, acceptance, removal and blocking, one row at most for two users. */
module Friendship {
  import opened Text

  type Id = string

  datatype FriendState = Pending | Accepted | Blocked

  datatype Row = Row(requester: Id, addressee: Id, state: FriendState, acceptedAt: Option<nat>)

  datatype User = User(username: string, active: bool)

  datatype State = State(users: map<Id, User>, friends: map<Id, Row>)

  datatype Direction = Outgoing | Incoming | Mutual

  /** A friend row as one of its two users sees it; `user` is the other one. */
  datatype Contract = Contract(
    id: Id, state: FriendState, acceptedAt: Option<nat>, direction: Direction, user: Id)

  datatype Reply = Shown(friendship: Contract) | Removed | NotFound | BadRequest

  datatype Outcome = Outcome(state: State, reply: Reply)

  function RowToContract(id: Id, row: Row, viewerId: Id): Contract {
    var viewerIsRequester := row.requester == viewerId;
    Contract(
      id, row.state, row.acceptedAt,
      if row.state.Blocked? then (if viewerIsRequester then Outgoing else Incoming)
      else if row.state.Accepted? then Mutual
      else if viewerIsRequester then Outgoing else Incoming,
      if viewerIsRequester then row.addressee else row.requester)
  }

  // ---------- lookups ----------

  predicate Joins(row: Row, a: Id, b: Id) {
    (row.addressee == b && row.requester == a) || (row.addressee == a && row.requester == b)
  }

  ghost predicate NamesUnique(users: map<Id, User>) {
    forall u, v :: u in users && v in users && Lower(users[u].username) == Lower(users[v].username) ==> u == v
  }

  /** At most one row for two users, whichever of them asked. */
  ghost predicate OnePerPair(friends: map<Id, Row>) {
    forall f, g :: f in friends && g in friends && Joins(friends[g], friends[f].requester, friends[f].addressee) ==>
      f == g
  }

  predicate Named(users: map<Id, User>, username: string, u: Id) {
    u in users && users[u].active && Lower(users[u].username) == Lower(username)
  }

  function FindTarget(users: map<Id, User>, username: string): (r: Option<Id>)
    requires NamesUnique(users)
    ensures r.Some? ==> Named(users, username, r.value)
    ensures r.None? ==> forall u :: !Named(users, username, u)
  {
    if exists u :: u in users && Named(users, username, u) then
      var u :| u in users && Named(users, username, u);
      Some(u)
    else None
  }

  function Between(friends: map<Id, Row>, a: Id, b: Id): (r: Option<Id>)
    requires OnePerPair(friends)
    ensures r.Some? ==> r.value in friends && Joins(friends[r.value], a, b)
    ensures r.None? ==> forall f :: f in friends ==> !Joins(friends[f], a, b)
  {
    if exists f :: f in friends && Joins(friends[f], a, b) then
      var f :| f in friends && Joins(friends[f], a, b);
      Some(f)
    else None
  }

  // ---------- what every state keeps ----------

  ghost predicate RowsSound(friends: map<Id, Row>) {
    forall f :: f in friends ==>
      friends[f].requester != friends[f].addressee
      && (friends[f].state.Accepted? <==> friends[f].acceptedAt.Some?)
  }

  ghost predicate Inv(s: State) {
    NamesUnique(s.users) && OnePerPair(s.friends) && RowsSound(s.friends)
  }

  // ---------- the actions ----------

  function AcceptRequest(s: State, viewerId: Id, username: string, now: nat): Outcome
    requires Inv(s)
  {
    var target := FindTarget(s.users, username);
    if target.None? then Outcome(s, NotFound)
    else
      var existing := Between(s.friends, viewerId, target.value);
      if existing.None? || s.friends[existing.value].addressee != viewerId || !s.friends[existing.value].state.Pending?
      then Outcome(s, NotFound)
      else
        var row := s.friends[existing.value].(acceptedAt := Some(now), state := Accepted);
        Outcome(s.(friends := s.friends[existing.value := row]), Shown(RowToContract(existing.value, row, viewerId)))
  }

  function SendRequest(s: State, viewerId: Id, username: string, newId: Id, now: nat): Outcome
    requires Inv(s)
  {
    var target := FindTarget(s.users, username);
    if target.None? then Outcome(s, NotFound)
    else if target.value == viewerId then Outcome(s, BadRequest)
    else
      var existing := Between(s.friends, viewerId, target.value);
      if existing.Some? then
        var row := s.friends[existing.value];
        if row.state.Pending? && row.requester == target.value then AcceptRequest(s, viewerId, username, now)
        else Outcome(s, Shown(RowToContract(existing.value, row, viewerId)))
      else
        var row := Row(viewerId, target.value, Pending, None);
        Outcome(s.(friends := s.friends[newId := row]), Shown(RowToContract(newId, row, viewerId)))
  }

  function RemoveFriend(s: State, viewerId: Id, username: string): Outcome
    requires Inv(s)
  {
    var target := FindTarget(s.users, username);
    if target.None? then Outcome(s, NotFound)
    else
      var existing := Between(s.friends, viewerId, target.value);
      if existing.None? then Outcome(s, Removed)
      else Outcome(s.(friends := s.friends - {existing.value}), Removed)
  }

  function BlockUser(s: State, viewerId: Id, username: string, newId: Id): Outcome
    requires Inv(s)
  {
    var target := FindTarget(s.users, username);
    if target.None? then Outcome(s, NotFound)
    else if target.value == viewerId then Outcome(s, BadRequest)
    else
      var existing := Between(s.friends, viewerId, target.value);
      var id := if existing.Some? then existing.value else newId;
      var row := Row(viewerId, target.value, Blocked, None);
      Outcome(s.(friends := s.friends[id := row]), Shown(RowToContract(id, row, viewerId)))
  }

  // ---------- the service ----------

  class FriendshipService {
    var users: map<Id, User>
    var friends: map<Id, Row>

    ghost function View(): State
      reads this
    {
      State(users, friends)
    }

    /** The first active user of that name, whatever its case. */
    method FindFriendTarget(username: string) returns (target: Option<Id>)
      requires NamesUnique(users)
      ensures target == FindTarget(users, username)
    {
      if exists u :: u in users && users[u].active && Lower(users[u].username) == Lower(username) {
        var u :| u in users && users[u].active && Lower(users[u].username) == Lower(username);
        assert Named(users, username, u);
        target := Some(u);
      } else {
        assert forall u :: !Named(users, username, u);
        target := None;
      }
    }

    method FindFriendshipBetween(a: Id, b: Id) returns (existing: Option<Id>)
      requires OnePerPair(friends)
      ensures existing == Between(friends, a, b)
    {
      if exists f :: f in friends && Joins(friends[f], a, b) {
        var f :| f in friends && Joins(friends[f], a, b);
        existing := Some(f);
      } else {
        existing := None;
      }
    }

    method AcceptFriendRequest(viewerId: Id, username: string, now: nat) returns (reply: Reply)
      requires Inv(View())
      modifies this`friends
      ensures Outcome(View(), reply) == AcceptRequest(old(View()), viewerId, username, now)
      ensures Inv(View())
    {
      var target := FindFriendTarget(username);
      if target.None? {
        return NotFound;
      }
      if !exists f :: f in friends && friends[f].addressee == viewerId && friends[f].requester == target.value
                      && friends[f].state.Pending? {
        return NotFound;
      }
      var id :| id in friends && friends[id].addressee == viewerId && friends[id].requester == target.value
                && friends[id].state.Pending?;
      assert Between(friends, viewerId, target.value) == Some(id);
      var row := friends[id].(acceptedAt := Some(now), state := Accepted);
      friends := friends[id := row];
      return Shown(RowToContract(id, row, viewerId));
    }

    method SendFriendRequest(viewerId: Id, username: string, newId: Id, now: nat) returns (reply: Reply)
      requires Inv(View()) && newId !in friends
      modifies this`friends
      ensures Outcome(View(), reply) == SendRequest(old(View()), viewerId, username, newId, now)
      ensures Inv(View())
    {
      var target := FindFriendTarget(username);
      if target.None? {
        return NotFound;
      }
      if target.value == viewerId {
        return BadRequest;
      }
      var existing := FindFriendshipBetween(viewerId, target.value);
      if existing.Some? {
        var row := friends[existing.value];
        if row.state.Pending? && row.requester == target.value {
          reply := AcceptFriendRequest(viewerId, username, now);
          return;
        }
        return Shown(RowToContract(existing.value, row, viewerId));
      }
      var row := Row(viewerId, target.value, Pending, None);
      friends := friends[newId := row];
      return Shown(RowToContract(newId, row, viewerId));
    }

    method Remove(viewerId: Id, username: string) returns (reply: Reply)
      requires Inv(View())
      modifies this`friends
      ensures Outcome(View(), reply) == RemoveFriend(old(View()), viewerId, username)
      ensures Inv(View())
    {
      var target := FindFriendTarget(username);
      if target.None? {
        return NotFound;
      }
      var existing := FindFriendshipBetween(viewerId, target.value);
      if existing.Some? {
        friends := friends - {existing.value};
      }
      return Removed;
    }

    method Block(viewerId: Id, username: string, newId: Id) returns (reply: Reply)
      requires Inv(View()) && newId !in friends
      modifies this`friends
      ensures Outcome(View(), reply) == BlockUser(old(View()), viewerId, username, newId)
      ensures Inv(View())
    {
      var target := FindFriendTarget(username);
      if target.None? {
        return NotFound;
      }
      if target.value == viewerId {
        return BadRequest;
      }
      var existing := FindFriendshipBetween(viewerId, target.value);
      if existing.Some? {
        var row := friends[existing.value].(
          acceptedAt := None, addressee := target.value, requester := viewerId, state := Blocked);
        friends := friends[existing.value := row];
        return Shown(RowToContract(existing.value, row, viewerId));
      }
      var row := Row(viewerId, target.value, Blocked, None);
      friends := friends[newId := row];
      return Shown(RowToContract(newId, row, viewerId));
    }
  }

  // ---------- runs ----------

  datatype Op =
    | Register(id: Id, username: string)
    | SetActive(id: Id, active: bool)
    | Send(viewerId: Id, username: string, newId: Id, now: nat)
    | Accept(viewerId: Id, username: string, now: nat)
    | Remove(viewerId: Id, username: string)
    | Block(viewerId: Id, username: string, newId: Id)

  ghost predicate Enabled(s: State, op: Op) {
    match op
    case Register(id, username) =>
      id !in s.users && forall u :: u in s.users ==> Lower(s.users[u].username) != Lower(username)
    case SetActive(id, _) => id in s.users
    case Send(_, _, newId, _) => newId !in s.friends
    case Block(_, _, newId) => newId !in s.friends
    case _ => true
  }

  ghost function Step(s: State, op: Op): State
    requires Inv(s)
  {
    match op
    case Register(id, username) => s.(users := s.users[id := User(username, true)])
    case SetActive(id, active) =>
      if id in s.users then s.(users := s.users[id := s.users[id].(active := active)]) else s
    case Send(viewerId, username, newId, now) => SendRequest(s, viewerId, username, newId, now).state
    case Accept(viewerId, username, now) => AcceptRequest(s, viewerId, username, now).state
    case Remove(viewerId, username) => RemoveFriend(s, viewerId, username).state
    case Block(viewerId, username, newId) => BlockUser(s, viewerId, username, newId).state
  }

  lemma SendKeeps(s: State, viewerId: Id, username: string, newId: Id, now: nat)
    requires Inv(s) && newId !in s.friends
    ensures Inv(SendRequest(s, viewerId, username, newId, now).state)
  {
  }

  lemma BlockKeeps(s: State, viewerId: Id, username: string, newId: Id)
    requires Inv(s) && newId !in s.friends
    ensures Inv(BlockUser(s, viewerId, username, newId).state)
  {
  }

  lemma AnswerKeeps(s: State, viewerId: Id, username: string, now: nat)
    requires Inv(s)
    ensures Inv(AcceptRequest(s, viewerId, username, now).state)
    ensures Inv(RemoveFriend(s, viewerId, username).state)
  {
  }

  lemma StepKeeps(s: State, op: Op)
    requires Inv(s) && Enabled(s, op)
    ensures Inv(Step(s, op))
  {
    match op
    case Send(viewerId, username, newId, now) => SendKeeps(s, viewerId, username, newId, now);
    case Accept(viewerId, username, now) => AnswerKeeps(s, viewerId, username, now);
    case Remove(viewerId, username) => AnswerKeeps(s, viewerId, username, 0);
    case Block(viewerId, username, newId) => BlockKeeps(s, viewerId, username, newId);
    case _ =>
  }

  /** The state after a run from no users and no rows; an operation that is not enabled cannot happen. */
  ghost function Run(ops: seq<Op>): (s: State)
    ensures Inv(s)
  {
    if ops == [] then State(map[], map[])
    else
      var s, op := Run(ops[..|ops| - 1]), ops[|ops| - 1];
      if Enabled(s, op) then
        StepKeeps(s, op);
        Step(s, op)
      else s
  }

  // ---------- what follows ----------

  function Opposite(d: Direction): Direction {
    match d
    case Outgoing => Incoming
    case Incoming => Outgoing
    case Mutual => Mutual
  }

  /** In every reachable state the two users of a row see each other, from opposite directions. */
  lemma DualViews(ops: seq<Op>, f: Id)
    requires f in Run(ops).friends
    ensures var row := Run(ops).friends[f];
      var mine, theirs := RowToContract(f, row, row.requester), RowToContract(f, row, row.addressee);
      && mine.user == row.addressee && theirs.user == row.requester && mine.user != theirs.user
      && theirs.direction == Opposite(mine.direction) && mine.state == theirs.state
      && (mine.direction.Mutual? <==> row.acceptedAt.Some?)
  {
    assert Inv(Run(ops));
  }

  lemma PairIs(s: State, a: Id, b: Id, f: Id)
    requires Inv(s) && f in s.friends && Joins(s.friends[f], a, b)
    ensures Between(s.friends, a, b) == Some(f)
  {
    var g := Between(s.friends, a, b);
    assert Joins(s.friends[g.value], s.friends[f].requester, s.friends[f].addressee);
  }

  /** Requests that cross end accepted: the second finds the first, and the nested acceptance succeeds. */
  lemma CrossingRequests(s: State, a: Id, b: Id, newA: Id, newB: Id, nowA: nat, nowB: nat)
    requires Inv(s) && a in s.users && b in s.users && a != b && s.users[a].active && s.users[b].active
    requires Between(s.friends, a, b).None? && newA !in s.friends
    ensures var first := SendRequest(s, a, s.users[b].username, newA, nowA);
      Inv(first.state) &&
      var second := SendRequest(first.state, b, s.users[a].username, newB, nowB);
      && first.reply.Shown? && first.reply.friendship.direction == Outgoing
      && second.reply == Shown(Contract(newA, Accepted, Some(nowB), Mutual, a))
      && second.state.friends == s.friends[newA := Row(a, b, Accepted, Some(nowB))]
  {
    FoundByName(s.users, a);
    FoundByName(s.users, b);
    var first := SendRequest(s, a, s.users[b].username, newA, nowA);
    StepKeeps(s, Send(a, s.users[b].username, newA, nowA));
    assert first.state.friends == s.friends[newA := Row(a, b, Pending, None)];
    PairIs(first.state, b, a, newA);
  }

  lemma FoundByName(users: map<Id, User>, u: Id)
    requires NamesUnique(users) && u in users && users[u].active
    ensures FindTarget(users, users[u].username) == Some(u)
  {
    assert Named(users, users[u].username, u);
  }

  /** The two users an operation is about, if it finds them. */
  ghost predicate RemovesPair(s: State, op: Op, a: Id, b: Id)
    requires Inv(s)
  {
    op.Remove? && FindTarget(s.users, op.username).Some?
    && ((op.viewerId == a && FindTarget(s.users, op.username).value == b)
        || (op.viewerId == b && FindTarget(s.users, op.username).value == a))
  }

  lemma RemovedRow(s: State, viewerId: Id, username: string, f: Id)
    requires Inv(s) && f in s.friends
    ensures f !in RemoveFriend(s, viewerId, username).state.friends <==>
      FindTarget(s.users, username).Some? && Joins(s.friends[f], viewerId, FindTarget(s.users, username).value)
    ensures f in RemoveFriend(s, viewerId, username).state.friends ==>
      RemoveFriend(s, viewerId, username).state.friends[f] == s.friends[f]
  {
    var target := FindTarget(s.users, username);
    if target.Some? && Joins(s.friends[f], viewerId, target.value) {
      PairIs(s, viewerId, target.value, f);
    }
  }

  lemma BlockedStays(s: State, op: Op, f: Id)
    requires Inv(s) && Enabled(s, op) && f in s.friends && s.friends[f].state.Blocked? && !op.Remove?
    ensures f in Step(s, op).friends && Step(s, op).friends[f].state.Blocked?
    ensures Joins(Step(s, op).friends[f], s.friends[f].requester, s.friends[f].addressee)
  {
  }

  /** A block ends exactly when one of the two removes the other; nothing else lifts it. */
  lemma BlockEndsByRemoval(s: State, op: Op, f: Id)
    requires Inv(s) && Enabled(s, op) && f in s.friends && s.friends[f].state.Blocked?
    ensures RemovesPair(s, op, s.friends[f].requester, s.friends[f].addressee) <==> f !in Step(s, op).friends
    ensures f in Step(s, op).friends ==>
      Step(s, op).friends[f].state.Blocked?
      && Joins(Step(s, op).friends[f], s.friends[f].requester, s.friends[f].addressee)
  {
    if op.Remove? {
      RemovedRow(s, op.viewerId, op.username, f);
    } else {
      BlockedStays(s, op, f);
    }
  }

  /** Friendship begins only with the consent of the user who was asked: by accepting, or by asking back. */
  lemma AcceptedByAddressee(s: State, op: Op, f: Id)
    requires Inv(s) && Enabled(s, op)
    requires f in Step(s, op).friends && Step(s, op).friends[f].state.Accepted?
    ensures (f in s.friends && s.friends[f] == Step(s, op).friends[f])
      || (f in s.friends && s.friends[f].state.Pending? && (op.Accept? || op.Send?)
          && op.viewerId == s.friends[f].addressee
          && FindTarget(s.users, op.username) == Some(s.friends[f].requester)
          && Step(s, op).friends[f] == s.friends[f].(state := Accepted, acceptedAt := Some(op.now)))
  {
  }
}
