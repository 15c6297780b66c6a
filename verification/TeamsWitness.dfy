/** A short run of membership calls after which a manager's calls are refused although they take effect. */
module TeamsWitness {
  import opened Text
  import opened Teams

  /** Three users with their names, a team, its organization, and identifiers for three membership rows. */
  datatype Cast = Cast(
    owner: Id, manager: Id, guest: Id, ownerName: string, managerName: string, guestName: string,
    team: Id, organization: Id, first: Id, second: Id, third: Id)

  /** Users and identifiers are told apart. */
  predicate Apart(c: Cast) {
    && c.owner != c.manager && c.owner != c.guest && c.manager != c.guest
    && {c.first} !! {c.team, c.organization} && {c.second} !! {c.team, c.organization, c.first}
    && {c.third} !! {c.team, c.organization, c.first, c.second}
    && c.organization != [] && c.managerName != [] && c.guestName != []
  }

  predicate NamesApart(c: Cast) {
    Lower(c.ownerName) != Lower(c.managerName) && Lower(c.ownerName) != Lower(c.guestName)
    && Lower(c.managerName) != Lower(c.guestName)
  }

  predicate Trimmed(c: Cast) {
    Trim(c.organization) == c.organization && Trim(c.managerName) == c.managerName && Trim(c.guestName) == c.guestName
  }

  predicate Fits(c: Cast) {
    Apart(c) && NamesApart(c) && Trimmed(c)
  }

  const MANAGE_MEMBERS := Some(["MANAGE_MEMBERS"])

  function Organization(c: Cast): Target {
    Target(OrganizationTeam, c.organization, c.ownerName, c.organization, None, c.owner)
  }

  function Users(c: Cast): map<Id, string> {
    map[c.owner := c.ownerName][c.manager := c.managerName][c.guest := c.guestName]
  }

  function Registrations(c: Cast): seq<Op> {
    [Register(c.owner, c.ownerName)] + [Register(c.manager, c.managerName)] + [Register(c.guest, c.guestName)]
  }

  function Invite(c: Cast): Op {
    AddOrganizationMember(c.organization, c.managerName, c.owner, MANAGE_MEMBERS, [], c.second)
  }

  /** The first user founds the organization and invites the second to manage its members, who accepts. */
  function Hiring(c: Cast): seq<Op> {
    Registrations(c) + [Create(c.team, Organization(c), c.first, 0)] + [Invite(c)] + [Accept(c.second, c.manager, 1)]
  }

  function AddGuest(c: Cast): Op {
    AddOrganizationMember(c.organization, c.guestName, c.manager, None, [], c.third)
  }

  lemma RunMore(ops: seq<Op>, op: Op)
    requires Enabled(Run(ops), op)
    ensures Run(ops + [op]) == Step(Run(ops), op)
  {
    assert (ops + [op])[..|ops|] == ops;
  }

  // ---------- up to the founding ----------

  ghost predicate OnlyUsers(s: State, users: map<Id, string>) {
    s == State(users, map[], map[], [], {})
  }

  lemma RegisterMore(ops: seq<Op>, users: map<Id, string>, id: Id, name: string)
    requires OnlyUsers(Run(ops), users) && id !in users
    requires forall u :: u in users ==> Lower(users[u]) != Lower(name)
    ensures OnlyUsers(Run(ops + [Register(id, name)]), users[id := name])
  {
    RunMore(ops, Register(id, name));
  }

  lemma OwnerRegistered(c: Cast)
    ensures OnlyUsers(Run([Register(c.owner, c.ownerName)]), map[c.owner := c.ownerName])
  {
    var none: map<Id, string> := map[];
    assert Run([]) == EMPTY;
    RegisterMore([], none, c.owner, c.ownerName);
    assert [] + [Register(c.owner, c.ownerName)] == [Register(c.owner, c.ownerName)];
    assert none[c.owner := c.ownerName] == map[c.owner := c.ownerName];
  }

  lemma AllRegistered(c: Cast)
    requires Apart(c) && NamesApart(c)
    ensures OnlyUsers(Run(Registrations(c)), Users(c))
  {
    var one := [Register(c.owner, c.ownerName)];
    OwnerRegistered(c);
    RegisterMore(one, map[c.owner := c.ownerName], c.manager, c.managerName);
    RegisterMore(one + [Register(c.manager, c.managerName)], map[c.owner := c.ownerName][c.manager := c.managerName],
                 c.guest, c.guestName);
  }

  predicate Grounds(s: State, c: Cast) {
    s.users == Users(c) && s.teams == map[c.team := Organization(c)]
  }

  /** The team has its owner only. */
  predicate IsFounded(s: State, c: Cast) {
    Grounds(s, c) && s.members.Keys == {(c.team, c.owner)} && s.used == {c.team, c.organization, c.first}
  }

  lemma FoundStep(s: State, c: Cast)
    requires Apart(c) && OnlyUsers(s, Users(c))
    ensures IsFounded(CreateTeam(s, c.team, Organization(c), c.first, 0), c)
  {
  }

  lemma TeamFounded(c: Cast)
    requires Apart(c) && NamesApart(c)
    ensures IsFounded(Run(Registrations(c) + [Create(c.team, Organization(c), c.first, 0)]), c)
  {
    AllRegistered(c);
    FoundStep(Run(Registrations(c)), c);
    RunMore(Registrations(c), Create(c.team, Organization(c), c.first, 0));
  }

  // ---------- the invitation ----------

  lemma Finds(s: State, u: Id)
    requires NamesUnique(s.users) && u in s.users
    ensures FindUser(s, s.users[u]) == Some(u)
  {
    assert UserNamed(s, s.users[u], u);
  }

  lemma FindsTeam(s: State, t: Id)
    requires TargetsUnique(s.teams) && t in s.teams && s.teams[t].kind.OrganizationTeam?
    ensures FindOrganizationTeam(s, s.teams[t].id) == Some(t)
  {
    assert OrganizationWithId(s, s.teams[t].id, t);
  }

  lemma ManagerPermission()
    ensures ManageMembers in Permissions(OrganizationTeam, MANAGE_MEMBERS)
  {
    var names := ["MANAGE_MEMBERS"];
    assert names[..0] == [] && names[1..] == [];
    assert Unique([]) == [] && Unique(names) == names;
    assert PermissionFrom(names[0]) == Some(ManageMembers) by {
      assert |PermissionName(ManageMembers)| == 14;
    }
  }

  /** The manager's invitation is pending, to be found by its id. */
  predicate IsInvited(s: State, c: Cast) {
    Grounds(s, c) && (c.team, c.manager) in s.members && s.members[(c.team, c.manager)].id == c.second
    && s.members[(c.team, c.manager)].acceptedAt.None?
    && ManageMembers in s.members[(c.team, c.manager)].permissions
    && (c.team, c.guest) !in s.members && s.used == {c.team, c.organization, c.first, c.second}
  }

  lemma RowInvites(s: State, c: Cast, m: Member)
    requires Inv(s) && Apart(c) && IsFounded(s, c)
    requires m.id == c.second && m.acceptedAt.None? && ManageMembers in m.permissions
    ensures IsInvited(WriteMember(s, (c.team, c.manager), c.owner, "ADD", m), c)
  {
  }

  lemma Invited(s: State, c: Cast, role: string)
    requires Inv(s) && Apart(c) && IsFounded(s, c)
    ensures IsInvited(PutMember(s, c.team, c.manager, c.owner, MANAGE_MEMBERS, role, c.second), c)
  {
    ManagerPermission();
    var permissions := Permissions(OrganizationTeam, MANAGE_MEMBERS);
    RowInvites(s, c, MemberRow(s, (c.team, c.manager), permissions, Role(role), c.second));
  }

  lemma OwnerPuts(
    s: State, team: Id, username: string, user: Id, names: Option<seq<string>>, role: string, newId: Id)
    requires Inv(s) && team in s.teams && s.teams[team].kind.OrganizationTeam? && s.teams[team].id != []
    requires user in s.users && s.users[user] == username && username != [] && user != s.teams[team].owner
    ensures AddToOrganization(s, s.teams[team].id, username, s.teams[team].owner, names, role, newId).state
         == PutMember(s, team, user, s.teams[team].owner, names, role, newId)
  {
    FindsTeam(s, team);
    Finds(s, user);
  }

  lemma OwnerInvites(s: State, c: Cast)
    requires Inv(s) && Apart(c) && IsFounded(s, c)
    ensures AddToOrganization(s, c.organization, c.managerName, c.owner, MANAGE_MEMBERS, [], c.second).state
         == PutMember(s, c.team, c.manager, c.owner, MANAGE_MEMBERS, [], c.second)
  {
    OwnerPuts(s, c.team, c.managerName, c.manager, MANAGE_MEMBERS, [], c.second);
  }

  lemma InviteStep(ops: seq<Op>, c: Cast)
    requires Apart(c) && Trimmed(c) && IsFounded(Run(ops), c)
    ensures IsInvited(Run(ops + [Invite(c)]), c)
  {
    OwnerInvites(Run(ops), c);
    Invited(Run(ops), c, []);
    RunMore(ops, Invite(c));
  }

  /** The manager may manage members, and the guest is none. */
  predicate IsHired(s: State, c: Cast) {
    Grounds(s, c) && CanManageMembers(s, c.team, c.manager) && (c.team, c.guest) !in s.members && c.third !in s.used
  }

  lemma Accepted(s: State, c: Cast)
    requires Inv(s) && Apart(c) && IsInvited(s, c)
    ensures IsHired(AcceptInvitation(s, c.second, c.manager, 1).state, c)
  {
    assert Invitation(s, c.second, (c.team, c.manager));
    assert FindInvitation(s, c.second, c.manager) == Some((c.team, c.manager));
  }

  lemma ManagerHired(c: Cast)
    requires Fits(c)
    ensures IsHired(Run(Hiring(c)), c)
  {
    var founded := Registrations(c) + [Create(c.team, Organization(c), c.first, 0)];
    TeamFounded(c);
    InviteStep(founded, c);
    Accepted(Run(founded + [Invite(c)]), c);
    RunMore(founded + [Invite(c)], Accept(c.second, c.manager, 1));
  }

  // ---------- the calls of the manager ----------

  lemma GuestNamed(s: State, c: Cast)
    requires Inv(s) && Apart(c) && Grounds(s, c) && CanManageMembers(s, c.team, c.manager)
    ensures ManagesOther(s, c.team, c.guestName, c.manager) && FindUser(s, c.guestName) == Some(c.guest)
    ensures CalledTeam(s, c.organization, c.guestName) == Some(c.team)
  {
    FindsTeam(s, c.team);
    Finds(s, c.guest);
  }

  lemma GuestWritten(s: State, c: Cast)
    requires Inv(s) && Apart(c) && IsHired(s, c)
    ensures var o := AddToOrganization(s, c.organization, c.guestName, c.manager, None, [], c.third);
      o.reply == NotFound && (c.team, c.guest) !in s.members && MemberWritten(s, o.state, c.team, c.guest)
  {
    GuestNamed(s, c);
    AddedYetNotFound(s, c.team, c.guestName, c.manager, None, [], c.third);
  }

  /** After the hiring, the manager's call adds the guest, logs it, and answers NotFound. */
  lemma AddingReachesNotFound(c: Cast)
    requires Fits(c)
    ensures var s := Run(Hiring(c));
      var o := AddOrganizationTeamMember(s, c.organization, c.guestName, c.manager, None, [], c.third);
      o.reply == NotFound && (c.team, c.guest) !in s.members && MemberWritten(s, o.state, c.team, c.guest)
  {
    ManagerHired(c);
    GuestWritten(Run(Hiring(c)), c);
  }

  lemma GuestAdded(s: State, c: Cast)
    requires Inv(s) && Apart(c) && IsHired(s, c)
    ensures var t := AddToOrganization(s, c.organization, c.guestName, c.manager, None, [], c.third).state;
      Grounds(t, c) && CanManageMembers(t, c.team, c.manager) && (c.team, c.guest) in t.members
  {
    GuestNamed(s, c);
  }

  predicate IsGuested(s: State, c: Cast) {
    Grounds(s, c) && CanManageMembers(s, c.team, c.manager) && (c.team, c.guest) in s.members
  }

  lemma GuestAddedRun(c: Cast)
    requires Fits(c)
    ensures IsGuested(Run(Hiring(c) + [AddGuest(c)]), c)
  {
    ManagerHired(c);
    GuestAdded(Run(Hiring(c)), c);
    RunMore(Hiring(c), AddGuest(c));
  }

  lemma GuestRemoved(s: State, c: Cast)
    requires Inv(s) && Apart(c) && IsGuested(s, c)
    ensures var o := RemoveFromOrganization(s, c.organization, c.guestName, c.manager);
      o.reply == NotFound && MemberDropped(s, o.state, c.team, c.guest)
  {
    GuestNamed(s, c);
    RemovedYetNotFound(s, c.team, c.guestName, c.manager);
  }

  /** After that, the manager's call removes the guest again, logs it, and answers NotFound. */
  lemma RemovingReachesNotFound(c: Cast)
    requires Fits(c)
    ensures var s := Run(Hiring(c) + [AddGuest(c)]);
      var o := RemoveOrganizationTeamMember(s, c.organization, c.guestName, c.manager);
      o.reply == NotFound && MemberDropped(s, o.state, c.team, c.guest)
  {
    GuestAddedRun(c);
    GuestRemoved(Run(Hiring(c) + [AddGuest(c)]), c);
  }

  function Letters(n: nat): (s: string)
    ensures |s| == n && forall i :: 0 <= i < n ==> s[i] == 'a'
  {
    seq(n, _ => 'a')
  }

  lemma LettersTrimmed(n: nat)
    ensures Trim(Letters(n)) == Letters(n)
  {
    TrimFixed(Letters(n));
  }

  lemma LengthTells(a: string, b: string)
    requires |a| != |b|
    ensures Lower(a) != Lower(b)
  {
  }

  function SomeCast(k: nat): (c: Cast)
    ensures Apart(c)
  {
    Cast("o", "m", "g", Letters(k), Letters(k + 1), Letters(k + 2), "t", Letters(k + 3), "1", "2", "3")
  }

  /** There are such casts. */
  lemma SomeFit(k: nat)
    ensures Fits(SomeCast(k))
  {
    NamesFit(SomeCast(k), k);
  }

  lemma NamesFit(c: Cast, k: nat)
    requires c.ownerName == Letters(k) && c.managerName == Letters(k + 1) && c.guestName == Letters(k + 2)
    requires c.organization == Letters(k + 3)
    ensures NamesApart(c) && Trimmed(c)
  {
    LettersTrimmed(k + 1);
    LettersTrimmed(k + 2);
    LettersTrimmed(k + 3);
    LengthTells(c.ownerName, c.managerName);
    LengthTells(c.ownerName, c.guestName);
    LengthTells(c.managerName, c.guestName);
  }
}
