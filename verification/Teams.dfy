/**
 Team membership of projects and organizations, with the audit log it leaves. Every call is one step
 on the tables; the class at the end performs the steps on its fields, in the order the services do.
 */
module Teams {
  import opened Text
  import Audit

  type Id = string

  datatype Permission = ManageDetails | ManageVersions | ManageMembers | ManageSettings | ViewAnalytics

  datatype Kind = ProjectTeam | OrganizationTeam

  datatype Member = Member(
    id: Id, role: string, permissions: seq<Permission>, isOwner: bool, acceptedAt: Option<nat>)

  /** The project or organization a team belongs to; `owner` is who created it. */
  datatype Target = Target(kind: Kind, id: Id, name: string, slug: string, projectKind: Option<string>, owner: Id)

  /** A team and a user: at most one membership row for each. */
  type Key = (Id, Id)

  datatype Change = Change(
    action: string, actorId: Id, resource: Audit.AuditResource, userId: Id,
    before: Option<Audit.TeamMember>, after: Option<Audit.TeamMember>)

  /** `used` holds every identifier handed out so far. */
  datatype State = State(
    users: map<Id, string>, teams: map<Id, Target>, members: map<Key, Member>, log: seq<Change>, used: set<Id>)

  datatype Reply = Done | BadRequest | Forbidden | NotFound

  datatype Outcome = Outcome(state: State, reply: Reply)

  // ---------- permissions ----------

  function PermissionName(p: Permission): string {
    match p
    case ManageDetails => "MANAGE_DETAILS"
    case ManageVersions => "MANAGE_VERSIONS"
    case ManageMembers => "MANAGE_MEMBERS"
    case ManageSettings => "MANAGE_SETTINGS"
    case ViewAnalytics => "VIEW_ANALYTICS"
  }

  function PermissionFrom(name: string): Option<Permission> {
    if name == PermissionName(ManageDetails) then Some(ManageDetails)
    else if name == PermissionName(ManageVersions) then Some(ManageVersions)
    else if name == PermissionName(ManageMembers) then Some(ManageMembers)
    else if name == PermissionName(ManageSettings) then Some(ManageSettings)
    else if name == PermissionName(ViewAnalytics) then Some(ViewAnalytics)
    else None
  }

  /** Organizations have no versions to manage. */
  predicate Allowed(kind: Kind, p: Permission) {
    kind.ProjectTeam? || p != ManageVersions
  }

  /** First occurrences, in order. */
  function Unique(names: seq<string>): (r: seq<string>)
    ensures forall n :: n in r <==> n in names
    ensures forall i, j :: 0 <= i < j < |r| ==> r[i] != r[j]
  {
    if names == [] then []
    else
      var earlier, last := Unique(names[..|names| - 1]), names[|names| - 1];
      if last in names[..|names| - 1] then earlier else earlier + [last]
  }

  /** The known permissions allowed for the kind of team; anything else is left out without a word. */
  function Granted(kind: Kind, names: seq<string>): (r: seq<Permission>)
    ensures forall p :: p in r ==> Allowed(kind, p) && PermissionName(p) in names
  {
    if names == [] then []
    else
      var p := PermissionFrom(names[0]);
      (if p.Some? && Allowed(kind, p.value) then [p.value] else []) + Granted(kind, names[1..])
  }

  function Permissions(kind: Kind, names: Option<seq<string>>): seq<Permission> {
    if names.None? then [] else Granted(kind, Unique(names.value))
  }

  function OwnerPermissions(kind: Kind): seq<Permission> {
    if kind.ProjectTeam? then [ManageDetails, ManageMembers, ManageSettings, ManageVersions, ViewAnalytics]
    else [ManageDetails, ManageMembers, ManageSettings, ViewAnalytics]
  }

  ghost predicate Distinct(permissions: seq<Permission>) {
    forall i, j :: 0 <= i < j < |permissions| ==> permissions[i] != permissions[j]
  }

  lemma {:induction false} GrantedDistinct(kind: Kind, names: seq<string>)
    requires forall i, j :: 0 <= i < j < |names| ==> names[i] != names[j]
    ensures Distinct(Granted(kind, names))
  {
    if names != [] {
      var rest := Granted(kind, names[1..]);
      assert names == [names[0]] + names[1..];
      GrantedDistinct(kind, names[1..]);
      var p := PermissionFrom(names[0]);
      if p.Some? {
        NameOf(names[0]);
        assert p.value !in rest;
      }
    }
  }

  lemma NameOf(name: string)
    ensures PermissionFrom(name).Some? ==> PermissionName(PermissionFrom(name).value) == name
  {
  }

  // ---------- snapshots and the log ----------

  function Names(permissions: seq<Permission>): (r: seq<string>)
    ensures |r| == |permissions|
  {
    seq(|permissions|, i requires 0 <= i < |permissions| => PermissionName(permissions[i]))
  }

  function Snapshot(member: Member, username: string): Audit.TeamMember {
    Audit.TeamMember(member.acceptedAt.Some?, member.isOwner, Names(member.permissions), member.role, username)
  }

  function Resource(t: Target): Audit.AuditResource {
    Audit.AuditResource(
      t.id, if t.kind.ProjectTeam? then Audit.ProjectResource else Audit.OrganizationResource, t.name,
      if t.kind.ProjectTeam? then t.projectKind else None, t.slug)
  }

  /** The membership as a log entry would describe it now. */
  function Current(s: State, key: Key): Option<Audit.TeamMember>
    requires key in s.members ==> key.1 in s.users
  {
    if key in s.members then Some(Snapshot(s.members[key], s.users[key.1])) else None
  }

  predicate About(c: Change, t: Target, userId: Id) {
    c.resource.id == t.id && c.resource.kind == Resource(t).kind && c.userId == userId
  }

  /**
   The entries about a user in a team form a chain that starts at no membership, each `before` being
   the `after` of the entry before it, and end at `current`.
   */
  ghost predicate Chain(log: seq<Change>, t: Target, userId: Id, current: Option<Audit.TeamMember>) {
    if log == [] then current == None
    else
      var last, earlier := log[|log| - 1], log[..|log| - 1];
      if About(last, t, userId) then last.after == current && Chain(earlier, t, userId, last.before)
      else Chain(earlier, t, userId, current)
  }

  // ---------- lookups ----------

  predicate UserNamed(s: State, username: string, u: Id) {
    u in s.users && Lower(s.users[u]) == Lower(username)
  }

  /** Names are unique apart from case, so at most one user is meant. */
  ghost predicate NamesUnique(users: map<Id, string>) {
    forall u, v :: u in users && v in users && Lower(users[u]) == Lower(users[v]) ==> u == v
  }

  function FindUser(s: State, username: string): (r: Option<Id>)
    requires NamesUnique(s.users)
    ensures r.Some? ==> UserNamed(s, username, r.value)
    ensures r.None? ==> forall u :: !UserNamed(s, username, u)
  {
    if exists u :: u in s.users && UserNamed(s, username, u) then
      var u :| u in s.users && UserNamed(s, username, u);
      Some(u)
    else None
  }

  predicate CanManageMembers(s: State, team: Id, userId: Id) {
    (team, userId) in s.members
    && s.members[(team, userId)].acceptedAt.Some?
    && (s.members[(team, userId)].isOwner || ManageMembers in s.members[(team, userId)].permissions)
  }

  ghost predicate TargetsUnique(teams: map<Id, Target>) {
    && (forall a, b :: a in teams && b in teams && teams[a].kind == teams[b].kind && teams[a].id == teams[b].id ==>
         a == b)
    && (forall a, b :: a in teams && b in teams && teams[a].kind == teams[b].kind && teams[a].slug == teams[b].slug ==>
         a == b)
  }

  predicate ProjectNamed(s: State, slug: string, t: Id) {
    t in s.teams && s.teams[t].kind.ProjectTeam? && s.teams[t].slug == slug
  }

  predicate OrganizationWithId(s: State, id: Id, t: Id) {
    t in s.teams && s.teams[t].kind.OrganizationTeam? && s.teams[t].id == id
  }

  function FindProjectTeam(s: State, slug: string): (r: Option<Id>)
    requires TargetsUnique(s.teams)
    ensures r.Some? ==> ProjectNamed(s, slug, r.value)
    ensures r.None? ==> forall t :: !ProjectNamed(s, slug, t)
  {
    if exists t :: t in s.teams && ProjectNamed(s, slug, t) then
      var t :| t in s.teams && ProjectNamed(s, slug, t);
      Some(t)
    else None
  }

  function FindOrganizationTeam(s: State, id: Id): (r: Option<Id>)
    requires TargetsUnique(s.teams)
    ensures r.Some? ==> OrganizationWithId(s, id, r.value)
    ensures r.None? ==> forall t :: !OrganizationWithId(s, id, t)
  {
    if exists t :: t in s.teams && OrganizationWithId(s, id, t) then
      var t :| t in s.teams && OrganizationWithId(s, id, t);
      Some(t)
    else None
  }

  /** A pending invitation by its row id, for the user it invites. */
  predicate Invitation(s: State, invitationId: Id, key: Key) {
    key in s.members && s.members[key].id == invitationId && s.members[key].acceptedAt.None?
  }

  ghost predicate RowsUnique(members: map<Key, Member>) {
    forall a, b :: a in members && b in members && members[a].id == members[b].id ==> a == b
  }

  function FindInvitation(s: State, invitationId: Id, userId: Id): (r: Option<Key>)
    requires RowsUnique(s.members)
    ensures r.Some? ==> r.value.1 == userId && Invitation(s, invitationId, r.value)
    ensures r.None? ==> forall key: Key :: key.1 == userId ==> !Invitation(s, invitationId, key)
  {
    if exists key :: key in s.members && key.1 == userId && Invitation(s, invitationId, key) then
      var key :| key in s.members && key.1 == userId && Invitation(s, invitationId, key);
      Some(key)
    else None
  }

  // ---------- what every state keeps ----------

  /** The one owner is who created the team's target, and has accepted. */
  ghost predicate OneOwner(s: State) {
    && (forall t :: t in s.teams ==>
          (t, s.teams[t].owner) in s.members && s.members[(t, s.teams[t].owner)].acceptedAt.Some?)
    && (forall k :: k in s.members ==> k.0 in s.teams && k.1 in s.users)
    && (forall k :: k in s.members ==> (s.members[k].isOwner <==> k.1 == s.teams[k.0].owner))
  }

  ghost predicate PermissionsFit(s: State) {
    forall k :: k in s.members ==>
      k.0 in s.teams && Distinct(s.members[k].permissions)
      && forall p :: p in s.members[k].permissions ==> Allowed(s.teams[k.0].kind, p)
  }

  ghost predicate LogReplays(s: State)
    requires forall k :: k in s.members ==> k.1 in s.users
  {
    forall t, u :: t in s.teams && u != s.teams[t].owner ==> Chain(s.log, s.teams[t], u, Current(s, (t, u)))
  }

  /** Everything named is known, and identifiers are never used for two things. */
  ghost predicate Tidy(s: State) {
    && NamesUnique(s.users) && TargetsUnique(s.teams) && RowsUnique(s.members)
    && (forall t :: t in s.teams ==> t in s.used && s.teams[t].id in s.used)
    && (forall k :: k in s.members ==> s.members[k].id in s.used)
    && (forall i :: 0 <= i < |s.log| ==> s.log[i].resource.id in s.used && FromTarget(s.log[i].resource))
  }

  /** The resource of a project or an organization, which has no project kind. */
  predicate FromTarget(r: Audit.AuditResource) {
    r.kind.ProjectResource? || (r.kind.OrganizationResource? && r.projectKind.None?)
  }

  ghost predicate Inv(s: State) {
    Tidy(s) && OneOwner(s) && PermissionsFit(s) && LogReplays(s)
  }

  // ---------- the steps ----------

  /** A new project or organization with its team: the creator owns it and has accepted. */
  function CreateTeam(s: State, team: Id, target: Target, memberId: Id, now: nat): State {
    s.(teams := s.teams[team := target],
       members := s.members[
         (team, target.owner) := Member(memberId, "Owner", OwnerPermissions(target.kind), true, Some(now))],
       used := s.used + {team, target.id, memberId})
  }

  function Role(role: string): string {
    if Trim(role) == [] then "Member" else Trim(role)
  }

  /** The membership row after an invitation or an update; acceptance and ownership stay as they are. */
  function MemberRow(s: State, key: Key, permissions: seq<Permission>, role: string, newId: Id): Member {
    if key in s.members then s.members[key].(permissions := permissions, role := role)
    else Member(newId, role, permissions, false, None)
  }

  /** Writes a membership row and the entry about it. */
  function WriteMember(s: State, key: Key, actorId: Id, action: string, member: Member): State
    requires key.0 in s.teams && key.1 in s.users
  {
    s.(members := s.members[key := member],
       log := s.log + [Change(action, actorId, Resource(s.teams[key.0]), key.1,
                              Current(s, key), Some(Snapshot(member, s.users[key.1])))],
       used := s.used + {member.id})
  }

  function PutMember(
    s: State, team: Id, userId: Id, actorId: Id, names: Option<seq<string>>, role: string, newId: Id
  ): State
    requires team in s.teams && userId in s.users
  {
    var key := (team, userId);
    WriteMember(s, key, actorId, if key in s.members then "UPDATE" else "ADD",
                MemberRow(s, key, Permissions(s.teams[team].kind, names), Role(role), newId))
  }

  function DropMember(s: State, key: Key, actorId: Id, action: string): State
    requires key in s.members && key.0 in s.teams && key.1 in s.users
  {
    s.(members := s.members - {key},
       log := s.log + [Change(action, actorId, Resource(s.teams[key.0]), key.1, Current(s, key), None)])
  }

  function AddToTeam(
    s: State, team: Id, username: string, actorId: Id, names: Option<seq<string>>, role: string, newId: Id
  ): (o: Outcome)
    requires NamesUnique(s.users) && team in s.teams
    ensures o.state.teams == s.teams
  {
    var user := FindUser(s, username);
    if user.None? then Outcome(s, NotFound)
    else if (team, user.value) in s.members && s.members[(team, user.value)].isOwner then Outcome(s, Forbidden)
    else Outcome(PutMember(s, team, user.value, actorId, names, role, newId), Done)
  }

  function RemoveFromTeam(s: State, team: Id, username: string, actorId: Id): (o: Outcome)
    requires NamesUnique(s.users) && team in s.teams
    ensures o.state.teams == s.teams
  {
    var user := FindUser(s, username);
    if user.None? || (team, user.value) !in s.members then Outcome(s, NotFound)
    else if s.members[(team, user.value)].isOwner then Outcome(s, Forbidden)
    else Outcome(DropMember(s, (team, user.value), actorId, "REMOVE"), Done)
  }

  function AddProjectTeamMember(
    s: State, projectSlug: string, username: string, actorId: Id, names: Option<seq<string>>, role: string, newId: Id
  ): Outcome
    requires Tidy(s)
  {
    var team := FindProjectTeam(s, projectSlug);
    if team.None? || !CanManageMembers(s, team.value, actorId) then Outcome(s, NotFound)
    else AddToTeam(s, team.value, username, actorId, names, role, newId)
  }

  function RemoveProjectTeamMember(s: State, projectSlug: string, username: string, actorId: Id): Outcome
    requires Tidy(s)
  {
    var team := FindProjectTeam(s, projectSlug);
    if team.None? || !CanManageMembers(s, team.value, actorId) then Outcome(s, NotFound)
    else RemoveFromTeam(s, team.value, username, actorId)
  }

  /** The reply reads the organization back as its owner's: for anyone else that is NotFound, after the effect. */
  function ReadBack(o: Outcome, team: Id, actorId: Id): (r: Outcome)
    requires team in o.state.teams
    ensures r.state == o.state
  {
    if o.reply.Done? && o.state.teams[team].owner != actorId then o.(reply := NotFound) else o
  }

  /** Identifier and name are trimmed first; neither may be empty. */
  function AddToOrganization(
    s: State, id: Id, username: string, actorId: Id, names: Option<seq<string>>, role: string, newId: Id
  ): Outcome
    requires Tidy(s)
  {
    if id == [] || username == [] then Outcome(s, BadRequest)
    else
      var team := FindOrganizationTeam(s, id);
      if team.None? then Outcome(s, NotFound)
      else AddAsManager(s, team.value, username, actorId, names, role, newId)
  }

  function AddAsManager(
    s: State, team: Id, username: string, actorId: Id, names: Option<seq<string>>, role: string, newId: Id
  ): Outcome
    requires NamesUnique(s.users) && team in s.teams
  {
    if !CanManageMembers(s, team, actorId) then Outcome(s, NotFound)
    else ReadBack(AddToTeam(s, team, username, actorId, names, role, newId), team, actorId)
  }

  function AddOrganizationTeamMember(
    s: State, organizationId: string, username: string, actorId: Id, names: Option<seq<string>>, role: string, newId: Id
  ): Outcome
    requires Tidy(s)
  {
    AddToOrganization(s, Trim(organizationId), Trim(username), actorId, names, role, newId)
  }

  function RemoveFromOrganization(s: State, id: Id, username: string, actorId: Id): Outcome
    requires Tidy(s)
  {
    if id == [] || username == [] then Outcome(s, BadRequest)
    else
      var team := FindOrganizationTeam(s, id);
      if team.None? then Outcome(s, NotFound)
      else RemoveAsManager(s, team.value, username, actorId)
  }

  function RemoveAsManager(s: State, team: Id, username: string, actorId: Id): Outcome
    requires NamesUnique(s.users) && team in s.teams
  {
    if !CanManageMembers(s, team, actorId) then Outcome(s, NotFound)
    else ReadBack(RemoveFromTeam(s, team, username, actorId), team, actorId)
  }

  function RemoveOrganizationTeamMember(s: State, organizationId: string, username: string, actorId: Id): Outcome
    requires Tidy(s)
  {
    RemoveFromOrganization(s, Trim(organizationId), Trim(username), actorId)
  }

  function AcceptInvitation(s: State, invitationId: Id, userId: Id, now: nat): Outcome
    requires Tidy(s) && OneOwner(s)
  {
    var key := FindInvitation(s, invitationId, userId);
    if key.None? then Outcome(s, NotFound)
    else
      Outcome(WriteMember(s, key.value, userId, "ACCEPT", s.members[key.value].(acceptedAt := Some(now))), Done)
  }

  function DeclineInvitation(s: State, invitationId: Id, userId: Id): Outcome
    requires Tidy(s) && OneOwner(s)
  {
    var key := FindInvitation(s, invitationId, userId);
    if key.None? then Outcome(s, NotFound)
    else if s.members[key.value].isOwner then Outcome(s, Forbidden)
    else Outcome(DropMember(s, key.value, userId, "DECLINE"), Done)
  }

  /** Deleting the project or organization deletes its team and, with it, every membership row. */
  function DeleteTeam(s: State, team: Id): State {
    s.(teams := s.teams - {team}, members := map k | k in s.members && k.0 != team :: s.members[k])
  }

  function DeleteProjectNamed(s: State, slug: string, userId: Id): Outcome
    requires Tidy(s)
  {
    var team := FindProjectTeam(s, slug);
    if team.None? || (team.value, userId) !in s.members || s.members[(team.value, userId)].acceptedAt.None?
       || !s.members[(team.value, userId)].isOwner then Outcome(s, NotFound)
    else Outcome(DeleteTeam(s, team.value), Done)
  }

  function DeleteProject(s: State, projectSlug: string, userId: Id): Outcome
    requires Tidy(s)
  {
    DeleteProjectNamed(s, Trim(projectSlug), userId)
  }

  function DeleteOrganizationWithId(s: State, id: Id, userId: Id): Outcome
    requires Tidy(s)
  {
    if id == [] then Outcome(s, BadRequest)
    else
      var team := FindOrganizationTeam(s, id);
      if team.None? || s.teams[team.value].owner != userId then Outcome(s, NotFound)
      else Outcome(DeleteTeam(s, team.value), Done)
  }

  function DeleteOrganization(s: State, organizationId: string, userId: Id): Outcome
    requires Tidy(s)
  {
    DeleteOrganizationWithId(s, Trim(organizationId), userId)
  }

  // ---------- the chain ----------

  lemma ChainGrows(log: seq<Change>, t: Target, userId: Id, c: Change, current: Option<Audit.TeamMember>)
    requires if About(c, t, userId) then c.after == current && Chain(log, t, userId, c.before)
             else Chain(log, t, userId, current)
    ensures Chain(log + [c], t, userId, current)
  {
    assert (log + [c])[..|log|] == log;
  }

  /** A log that never mentions a target has nothing to say about it: the chain ends where it starts. */
  lemma {:induction false} ChainOfNone(log: seq<Change>, t: Target, userId: Id)
    requires forall i :: 0 <= i < |log| ==> log[i].resource.id != t.id
    ensures Chain(log, t, userId, None)
  {
    if log != [] {
      ChainOfNone(log[..|log| - 1], t, userId);
    }
  }

  /** The log alone determines the membership it ends at. */
  lemma {:induction false} ChainTells(
    log: seq<Change>, t: Target, userId: Id, a: Option<Audit.TeamMember>, b: Option<Audit.TeamMember>)
    requires Chain(log, t, userId, a) && Chain(log, t, userId, b)
    ensures a == b
  {
    if log != [] && !About(log[|log| - 1], t, userId) {
      ChainTells(log[..|log| - 1], t, userId, a, b);
    }
  }

  // ---------- every step keeps the invariant ----------

  lemma CreateReplays(s: State, team: Id, target: Target, memberId: Id, now: nat)
    requires Tidy(s) && OneOwner(s) && LogReplays(s) && target.owner in s.users
    requires team !in s.used && target.id !in s.used
    ensures LogReplays(CreateTeam(s, team, target, memberId, now))
  {
    var s' := CreateTeam(s, team, target, memberId, now);
    forall t, u | t in s'.teams && u != s'.teams[t].owner
      ensures Chain(s'.log, s'.teams[t], u, Current(s', (t, u)))
    {
      if t == team {
        ChainOfNone(s.log, target, u);
        assert (t, u) !in s.members;
      } else {
        assert Chain(s.log, s.teams[t], u, Current(s, (t, u)));
      }
    }
  }

  lemma CreateTargets(teams: map<Id, Target>, team: Id, target: Target)
    requires TargetsUnique(teams) && team !in teams
    requires forall t :: t in teams ==> teams[t].id != target.id
    requires forall t :: t in teams && teams[t].kind == target.kind ==> teams[t].slug != target.slug
    ensures TargetsUnique(teams[team := target])
  {
  }

  lemma CreateTidy(s: State, team: Id, target: Target, memberId: Id, now: nat)
    requires Tidy(s) && OneOwner(s) && target.owner in s.users
    requires team !in s.used && target.id !in s.used && memberId !in s.used
    requires forall t :: t in s.teams && s.teams[t].kind == target.kind ==> s.teams[t].slug != target.slug
    ensures Tidy(CreateTeam(s, team, target, memberId, now))
  {
    CreateTargets(s.teams, team, target);
  }

  lemma CreateOwned(s: State, team: Id, target: Target, memberId: Id, now: nat)
    requires Tidy(s) && OneOwner(s) && target.owner in s.users && team !in s.used
    ensures OneOwner(CreateTeam(s, team, target, memberId, now))
  {
  }

  lemma CreateFits(s: State, team: Id, target: Target, memberId: Id, now: nat)
    requires PermissionsFit(s) && forall k :: k in s.members ==> k.0 != team
    ensures PermissionsFit(CreateTeam(s, team, target, memberId, now))
  {
    assert Distinct(OwnerPermissions(target.kind));
  }

  lemma CreateKeeps(s: State, team: Id, target: Target, memberId: Id, now: nat)
    requires Inv(s) && target.owner in s.users
    requires team !in s.used && target.id !in s.used && memberId !in s.used
    requires forall t :: t in s.teams && s.teams[t].kind == target.kind ==> s.teams[t].slug != target.slug
    ensures Inv(CreateTeam(s, team, target, memberId, now))
  {
    CreateTidy(s, team, target, memberId, now);
    CreateOwned(s, team, target, memberId, now);
    CreateFits(s, team, target, memberId, now);
    CreateReplays(s, team, target, memberId, now);
  }

  /** All that changed is one membership of a user who does not own the team. */
  ghost predicate OneMemberChanged(s: State, s': State, key: Key) {
    && s'.teams == s.teams && s'.users == s.users
    && key.0 in s.teams && key.1 in s.users && key.1 != s.teams[key.0].owner
    && (forall k :: k in s'.members ==> k.1 in s.users)
    && (forall k :: k != key ==> (k in s'.members <==> k in s.members))
    && (forall k :: k != key && k in s.members ==> s'.members[k] == s.members[k])
  }

  /** An entry about one membership ends its chain at what it says; the other chains go on as they were. */
  lemma ChainStep(s: State, s': State, key: Key, c: Change, t: Id, u: Id)
    requires TargetsUnique(s.teams) && OneMemberChanged(s, s', key) && s'.log == s.log + [c]
    requires forall k :: k in s.members ==> k.1 in s.users
    requires c.resource == Resource(s.teams[key.0]) && c.userId == key.1
    requires c.before == Current(s, key) && c.after == Current(s', key)
    requires t in s.teams && Chain(s.log, s.teams[t], u, Current(s, (t, u)))
    ensures Chain(s'.log, s.teams[t], u, Current(s', (t, u)))
  {
    if (t, u) != key {
      assert Current(s', (t, u)) == Current(s, (t, u));
      assert !About(c, s.teams[t], u);
    }
    ChainGrows(s.log, s.teams[t], u, c, Current(s', (t, u)));
  }

  /** One membership changed and one entry written about it, with the snapshots before and after. */
  lemma LogStep(s: State, s': State, key: Key, c: Change)
    requires Tidy(s) && OneOwner(s) && LogReplays(s) && OneMemberChanged(s, s', key) && s'.log == s.log + [c]
    requires c.resource == Resource(s.teams[key.0]) && c.userId == key.1
    requires c.before == Current(s, key) && c.after == Current(s', key)
    ensures LogReplays(s')
  {
    forall t, u | t in s'.teams && u != s'.teams[t].owner
      ensures Chain(s'.log, s'.teams[t], u, Current(s', (t, u)))
    {
      assert Chain(s.log, s.teams[t], u, Current(s, (t, u)));
      ChainStep(s, s', key, c, t, u);
    }
  }

  /** A row a step may put at a key: no owner's, its own id or a new one, permissions that fit the team. */
  ghost predicate FittingRow(s: State, key: Key, m: Member) {
    && !m.isOwner && (if key in s.members then m.id == s.members[key].id else m.id !in s.used)
    && key.0 in s.teams && Distinct(m.permissions)
    && forall p :: p in m.permissions ==> Allowed(s.teams[key.0].kind, p)
  }

  lemma WriteTidy(s: State, key: Key, actorId: Id, action: string, m: Member)
    requires Tidy(s) && OneOwner(s) && key.0 in s.teams && key.1 in s.users
    requires FittingRow(s, key, m)
    ensures Tidy(WriteMember(s, key, actorId, action, m))
  {
    var s' := WriteMember(s, key, actorId, action, m);
    forall a, b | a in s'.members && b in s'.members && s'.members[a].id == s'.members[b].id ensures a == b {
      assert a != key ==> s.members[a].id in s.used;
      assert b != key ==> s.members[b].id in s.used;
    }
  }

  lemma WriteOwner(s: State, key: Key, actorId: Id, action: string, m: Member)
    requires OneOwner(s) && PermissionsFit(s)
    requires key.0 in s.teams && key.1 in s.users && key.1 != s.teams[key.0].owner && FittingRow(s, key, m)
    ensures OneOwner(WriteMember(s, key, actorId, action, m)) && PermissionsFit(WriteMember(s, key, actorId, action, m))
  {
  }

  lemma WriteKeeps(s: State, key: Key, actorId: Id, action: string, m: Member)
    requires Inv(s) && key.0 in s.teams && key.1 in s.users && key.1 != s.teams[key.0].owner
    requires FittingRow(s, key, m)
    ensures Inv(WriteMember(s, key, actorId, action, m))
  {
    var s' := WriteMember(s, key, actorId, action, m);
    WriteTidy(s, key, actorId, action, m);
    WriteOwner(s, key, actorId, action, m);
    LogStep(s, s', key, s'.log[|s.log|]);
  }

  lemma PutKeeps(
    s: State, team: Id, userId: Id, actorId: Id, names: Option<seq<string>>, role: string, newId: Id)
    requires Inv(s) && team in s.teams && userId in s.users && userId != s.teams[team].owner && newId !in s.used
    ensures Inv(PutMember(s, team, userId, actorId, names, role, newId))
  {
    var key, permissions := (team, userId), Permissions(s.teams[team].kind, names);
    if names.Some? {
      GrantedDistinct(s.teams[team].kind, Unique(names.value));
    }
    var m := MemberRow(s, key, permissions, Role(role), newId);
    assert FittingRow(s, key, m);
    WriteKeeps(s, key, actorId, if key in s.members then "UPDATE" else "ADD", m);
  }

  lemma DropTidy(s: State, key: Key, actorId: Id, action: string)
    requires Tidy(s) && OneOwner(s) && key in s.members
    ensures Tidy(DropMember(s, key, actorId, action))
  {
  }

  lemma DropFits(s: State, key: Key, actorId: Id, action: string)
    requires OneOwner(s) && PermissionsFit(s) && key in s.members && !s.members[key].isOwner
    ensures OneOwner(DropMember(s, key, actorId, action)) && PermissionsFit(DropMember(s, key, actorId, action))
  {
  }

  lemma DropKeeps(s: State, key: Key, actorId: Id, action: string)
    requires Inv(s) && key in s.members && !s.members[key].isOwner
    ensures Inv(DropMember(s, key, actorId, action))
  {
    var s' := DropMember(s, key, actorId, action);
    DropTidy(s, key, actorId, action);
    DropFits(s, key, actorId, action);
    LogStep(s, s', key, s'.log[|s.log|]);
  }

  lemma AcceptKeeps(s: State, invitationId: Id, userId: Id, now: nat)
    requires Inv(s)
    ensures Inv(AcceptInvitation(s, invitationId, userId, now).state)
  {
    var found := FindInvitation(s, invitationId, userId);
    if found.Some? {
      var key := found.value;
      var m := s.members[key].(acceptedAt := Some(now));
      assert FittingRow(s, key, m);
      WriteKeeps(s, key, userId, "ACCEPT", m);
    }
  }

  lemma DeleteReplays(s: State, team: Id)
    requires Inv(s)
    ensures LogReplays(DeleteTeam(s, team))
  {
    var s' := DeleteTeam(s, team);
    forall t, u | t in s'.teams && u != s'.teams[t].owner
      ensures Chain(s'.log, s'.teams[t], u, Current(s', (t, u)))
    {
      assert Current(s', (t, u)) == Current(s, (t, u));
    }
  }

  lemma DeleteTidy(s: State, team: Id)
    requires Tidy(s) && OneOwner(s)
    ensures Tidy(DeleteTeam(s, team))
  {
  }

  lemma DeleteFits(s: State, team: Id)
    requires OneOwner(s) && PermissionsFit(s)
    ensures OneOwner(DeleteTeam(s, team)) && PermissionsFit(DeleteTeam(s, team))
  {
  }

  lemma DeleteKeeps(s: State, team: Id)
    requires Inv(s)
    ensures Inv(DeleteTeam(s, team))
  {
    DeleteTidy(s, team);
    DeleteFits(s, team);
    DeleteReplays(s, team);
  }

  // ---------- runs ----------

  datatype Op =
    | Register(id: Id, username: string)
    | Create(team: Id, target: Target, memberId: Id, now: nat)
    | Rename(team: Id, name: string, slug: string)
    | AddProjectMember(projectSlug: string, username: string, actorId: Id, names: Option<seq<string>>, role: string,
        newId: Id)
    | RemoveProjectMember(projectSlug: string, username: string, actorId: Id)
    | AddOrganizationMember(organizationId: Id, username: string, actorId: Id, names: Option<seq<string>>,
        role: string, newId: Id)
    | RemoveOrganizationMember(organizationId: Id, username: string, actorId: Id)
    | Accept(invitationId: Id, userId: Id, now: nat)
    | Decline(invitationId: Id, userId: Id)
    | RemoveProject(projectSlug: string, userId: Id)
    | RemoveOrganization(organizationId: Id, userId: Id)

  /** What the database and the other services guarantee: new identifiers, unique names and slugs. */
  ghost predicate Enabled(s: State, op: Op) {
    match op
    case Register(id, username) => id !in s.users && forall u :: u in s.users ==> Lower(s.users[u]) != Lower(username)
    case Create(team, target, memberId, _) =>
      && target.owner in s.users && team !in s.used && target.id !in s.used && memberId !in s.used
      && forall t :: t in s.teams && s.teams[t].kind == target.kind ==> s.teams[t].slug != target.slug
    case Rename(team, _, slug) =>
      && team in s.teams && (s.teams[team].kind.ProjectTeam? ==> slug == s.teams[team].slug)
      && forall t :: t in s.teams && t != team && s.teams[t].kind == s.teams[team].kind ==> s.teams[t].slug != slug
    case AddProjectMember(_, _, _, _, _, newId) => newId !in s.used
    case AddOrganizationMember(_, _, _, _, _, newId) => newId !in s.used
    case _ => true
  }

  ghost function Step(s: State, op: Op): State
    requires Inv(s) && Enabled(s, op)
  {
    match op
    case Register(id, username) => s.(users := s.users[id := username])
    case Create(team, target, memberId, now) => CreateTeam(s, team, target, memberId, now)
    case Rename(team, name, slug) => s.(teams := s.teams[team := s.teams[team].(name := name, slug := slug)])
    case AddProjectMember(slug, username, actorId, names, role, newId) =>
      AddProjectTeamMember(s, slug, username, actorId, names, role, newId).state
    case RemoveProjectMember(slug, username, actorId) => RemoveProjectTeamMember(s, slug, username, actorId).state
    case AddOrganizationMember(id, username, actorId, names, role, newId) =>
      AddOrganizationTeamMember(s, id, username, actorId, names, role, newId).state
    case RemoveOrganizationMember(id, username, actorId) => RemoveOrganizationTeamMember(s, id, username, actorId).state
    case Accept(invitationId, userId, now) => AcceptInvitation(s, invitationId, userId, now).state
    case Decline(invitationId, userId) => DeclineInvitation(s, invitationId, userId).state
    case RemoveProject(slug, userId) => DeleteProject(s, slug, userId).state
    case RemoveOrganization(id, userId) => DeleteOrganization(s, id, userId).state
  }

  lemma AddKeeps(s: State, team: Id, username: string, actorId: Id, names: Option<seq<string>>, role: string, newId: Id)
    requires Inv(s) && team in s.teams && newId !in s.used
    ensures Inv(AddToTeam(s, team, username, actorId, names, role, newId).state)
  {
    var user := FindUser(s, username);
    if user.Some? && user.value != s.teams[team].owner {
      PutKeeps(s, team, user.value, actorId, names, role, newId);
    }
  }

  lemma RemoveKeeps(s: State, team: Id, username: string, actorId: Id)
    requires Inv(s) && team in s.teams
    ensures Inv(RemoveFromTeam(s, team, username, actorId).state)
  {
    var user := FindUser(s, username);
    if user.Some? && (team, user.value) in s.members && !s.members[(team, user.value)].isOwner {
      DropKeeps(s, (team, user.value), actorId, "REMOVE");
    }
  }

  lemma RenameTargets(teams: map<Id, Target>, team: Id, name: string, slug: string)
    requires TargetsUnique(teams) && team in teams
    requires forall t :: t in teams && t != team && teams[t].kind == teams[team].kind ==> teams[t].slug != slug
    ensures TargetsUnique(teams[team := teams[team].(name := name, slug := slug)])
  {
  }

  lemma RenameTidy(s: State, s': State, team: Id, name: string, slug: string)
    requires Inv(s) && Enabled(s, Rename(team, name, slug))
    requires s' == s.(teams := s.teams[team := s.teams[team].(name := name, slug := slug)])
    ensures Tidy(s')
  {
    RenameTargets(s.teams, team, name, slug);
    assert forall t :: t in s'.teams ==> t in s.teams && s'.teams[t].id == s.teams[t].id;
  }

  lemma RenameFits(s: State, s': State, team: Id, name: string, slug: string)
    requires Inv(s) && Enabled(s, Rename(team, name, slug))
    requires s' == s.(teams := s.teams[team := s.teams[team].(name := name, slug := slug)])
    ensures OneOwner(s') && PermissionsFit(s')
  {
    assert forall t :: t in s'.teams ==>
      t in s.teams && s'.teams[t].owner == s.teams[t].owner && s'.teams[t].kind == s.teams[t].kind;
  }

  lemma RenameReplays(s: State, s': State, team: Id, name: string, slug: string)
    requires Tidy(s) && OneOwner(s) && LogReplays(s) && team in s.teams
    requires s' == s.(teams := s.teams[team := s.teams[team].(name := name, slug := slug)])
    ensures LogReplays(s')
  {
    forall t, u | t in s'.teams && u != s'.teams[t].owner
      ensures Chain(s'.log, s'.teams[t], u, Current(s', (t, u)))
    {
      assert Chain(s.log, s.teams[t], u, Current(s, (t, u)));
      ChainIgnoresNames(s.log, s.teams[t], s'.teams[t], u, Current(s, (t, u)));
    }
  }

  lemma RenameKeeps(s: State, team: Id, name: string, slug: string)
    requires Inv(s) && Enabled(s, Rename(team, name, slug))
    ensures Inv(s.(teams := s.teams[team := s.teams[team].(name := name, slug := slug)]))
  {
    var s' := s.(teams := s.teams[team := s.teams[team].(name := name, slug := slug)]);
    RenameTidy(s, s', team, name, slug);
    RenameFits(s, s', team, name, slug);
    RenameReplays(s, s', team, name, slug);
  }

  lemma {:induction false} ChainIgnoresNames(
    log: seq<Change>, t: Target, t': Target, userId: Id, current: Option<Audit.TeamMember>)
    requires t.id == t'.id && t.kind == t'.kind && Chain(log, t, userId, current)
    ensures Chain(log, t', userId, current)
  {
    if log != [] {
      var last := log[|log| - 1];
      ChainIgnoresNames(log[..|log| - 1], t, t', userId, if About(last, t, userId) then last.before else current);
    }
  }

  lemma RegisterKeeps(s: State, id: Id, username: string)
    requires Inv(s) && Enabled(s, Register(id, username))
    ensures Inv(Step(s, Register(id, username)))
  {
    var s' := Step(s, Register(id, username));
    forall t, u | t in s'.teams && u != s'.teams[t].owner
      ensures Chain(s'.log, s'.teams[t], u, Current(s', (t, u)))
    {
      assert Current(s', (t, u)) == Current(s, (t, u));
    }
  }

  lemma ProjectAdditionKeeps(
    s: State, slug: string, username: string, actorId: Id, names: Option<seq<string>>, role: string, newId: Id)
    requires Inv(s) && newId !in s.used
    ensures Inv(AddProjectTeamMember(s, slug, username, actorId, names, role, newId).state)
  {
    var team := FindProjectTeam(s, slug);
    if team.Some? {
      AddKeeps(s, team.value, username, actorId, names, role, newId);
    }
  }

  lemma ProjectRemovalKeeps(s: State, slug: string, username: string, actorId: Id)
    requires Inv(s)
    ensures Inv(RemoveProjectTeamMember(s, slug, username, actorId).state)
    ensures Inv(DeleteProjectNamed(s, slug, actorId).state)
  {
    var team := FindProjectTeam(s, slug);
    if team.Some? {
      RemoveKeeps(s, team.value, username, actorId);
      DeleteKeeps(s, team.value);
    }
  }

  lemma ManagerAddKeeps(
    s: State, team: Id, username: string, actorId: Id, names: Option<seq<string>>, role: string, newId: Id)
    requires Inv(s) && team in s.teams && newId !in s.used
    ensures Inv(AddAsManager(s, team, username, actorId, names, role, newId).state)
  {
    AddKeeps(s, team, username, actorId, names, role, newId);
  }

  lemma ManagerRemoveKeeps(s: State, team: Id, username: string, actorId: Id)
    requires Inv(s) && team in s.teams
    ensures Inv(RemoveAsManager(s, team, username, actorId).state)
  {
    RemoveKeeps(s, team, username, actorId);
  }

  lemma AddToOrganizationKeeps(
    s: State, id: Id, username: string, actorId: Id, names: Option<seq<string>>, role: string, newId: Id)
    requires Inv(s) && newId !in s.used
    ensures Inv(AddToOrganization(s, id, username, actorId, names, role, newId).state)
  {
    var team := FindOrganizationTeam(s, id);
    if id != [] && username != [] && team.Some? {
      ManagerAddKeeps(s, team.value, username, actorId, names, role, newId);
      assert AddToOrganization(s, id, username, actorId, names, role, newId)
          == AddAsManager(s, team.value, username, actorId, names, role, newId);
    } else {
      assert AddToOrganization(s, id, username, actorId, names, role, newId).state == s;
    }
  }

  lemma RemoveFromOrganizationKeeps(s: State, id: Id, username: string, actorId: Id)
    requires Inv(s)
    ensures Inv(RemoveFromOrganization(s, id, username, actorId).state)
  {
    var team := FindOrganizationTeam(s, id);
    if id != [] && username != [] && team.Some? {
      ManagerRemoveKeeps(s, team.value, username, actorId);
      assert RemoveFromOrganization(s, id, username, actorId) == RemoveAsManager(s, team.value, username, actorId);
    } else {
      assert RemoveFromOrganization(s, id, username, actorId).state == s;
    }
  }

  lemma DeleteOrganizationKeeps(s: State, id: Id, userId: Id)
    requires Inv(s)
    ensures Inv(DeleteOrganizationWithId(s, id, userId).state)
  {
    var team := FindOrganizationTeam(s, id);
    if team.Some? {
      DeleteKeeps(s, team.value);
    }
  }

  lemma DeclineKeeps(s: State, invitationId: Id, userId: Id)
    requires Inv(s)
    ensures Inv(DeclineInvitation(s, invitationId, userId).state)
  {
    var key := FindInvitation(s, invitationId, userId);
    if key.Some? && !s.members[key.value].isOwner {
      DropKeeps(s, key.value, userId, "DECLINE");
    }
  }

  /** Every step keeps the invariant. */
  lemma StepKeeps(s: State, op: Op)
    requires Inv(s) && Enabled(s, op)
    ensures Inv(Step(s, op))
  {
    match op
    case Register(id, username) => RegisterKeeps(s, id, username);
    case Create(team, target, memberId, now) => CreateKeeps(s, team, target, memberId, now);
    case Rename(team, name, slug) => RenameKeeps(s, team, name, slug);
    case AddProjectMember(slug, username, actorId, names, role, newId) =>
      ProjectAdditionKeeps(s, slug, username, actorId, names, role, newId);
    case RemoveProjectMember(slug, username, actorId) => ProjectRemovalKeeps(s, slug, username, actorId);
    case AddOrganizationMember(id, username, actorId, names, role, newId) =>
      AddToOrganizationKeeps(s, Trim(id), Trim(username), actorId, names, role, newId);
    case RemoveOrganizationMember(id, username, actorId) =>
      RemoveFromOrganizationKeeps(s, Trim(id), Trim(username), actorId);
    case Accept(invitationId, userId, now) => AcceptKeeps(s, invitationId, userId, now);
    case Decline(invitationId, userId) => DeclineKeeps(s, invitationId, userId);
    case RemoveProject(slug, userId) => ProjectRemovalKeeps(s, Trim(slug), [], userId);
    case RemoveOrganization(id, userId) => DeleteOrganizationKeeps(s, Trim(id), userId);
  }

  const EMPTY: State := State(map[], map[], map[], [], {})

  /** The state after a run from the empty tables; an operation that is not enabled cannot happen. */
  ghost function Run(ops: seq<Op>): (s: State)
    ensures Inv(s)
  {
    if ops == [] then EMPTY
    else
      var s, op := Run(ops[..|ops| - 1]), ops[|ops| - 1];
      if Enabled(s, op) then
        StepKeeps(s, op);
        Step(s, op)
      else s
  }

  // ---------- the stored log ----------

  function Recorded(c: Change): Audit.Record {
    Audit.TeamMembershipChange(c.action, c.actorId, c.after, c.before, c.resource, c.userId)
  }

  /** The rows of the audit table. */
  function Stored(log: seq<Change>): (rows: seq<Audit.Row>)
    ensures |rows| == |log| && forall i :: 0 <= i < |rows| ==> rows[i] == Audit.Written(Recorded(log[i]))
  {
    seq(|log|, i requires 0 <= i < |log| => Audit.Written(Recorded(log[i])))
  }

  /** A row as the log shows it: the user, the target and the membership after the change. */
  datatype Shown = Shown(userId: Option<Id>, resource: Option<Audit.AuditResource>, after: Option<Audit.TeamMember>)

  function Show(row: Audit.Row): Shown {
    var slots := Audit.AuditMetadata(row.metadata);
    Shown(row.targetUserId, slots.resource, slots.teamMemberAfter)
  }

  function ShowAll(rows: seq<Audit.Row>): (shown: seq<Shown>)
    ensures |shown| == |rows| && forall i :: 0 <= i < |shown| ==> shown[i] == Show(rows[i])
  {
    seq(|rows|, i requires 0 <= i < |rows| => Show(rows[i]))
  }

  /** The membership a log ends at: the `after` of the last entry about the user and the target. */
  function Replay(shown: seq<Shown>, t: Target, userId: Id): Option<Audit.TeamMember> {
    if shown == [] then None
    else
      var last := shown[|shown| - 1];
      if last.userId == Some(userId) && last.resource.Some? && last.resource.value.id == t.id
         && last.resource.value.kind == Resource(t).kind
      then last.after
      else Replay(shown[..|shown| - 1], t, userId)
  }

  lemma ShowsChange(c: Change)
    requires FromTarget(c.resource)
    ensures Show(Audit.Written(Recorded(c))) == Shown(Some(c.userId), Some(c.resource), c.after)
  {
    Audit.MembershipReadBack(Recorded(c));
  }

  lemma {:induction false} ReplayFollowsChain(
    log: seq<Change>, shown: seq<Shown>, t: Target, userId: Id, current: Option<Audit.TeamMember>)
    requires Chain(log, t, userId, current) && |shown| == |log|
    requires forall i :: 0 <= i < |log| ==> shown[i] == Shown(Some(log[i].userId), Some(log[i].resource), log[i].after)
    ensures Replay(shown, t, userId) == current
  {
    if log != [] && !About(log[|log| - 1], t, userId) {
      ReplayFollowsChain(log[..|log| - 1], shown[..|shown| - 1], t, userId, current);
    }
  }

  /**
   After any run, for every team: its one owner is the creator, who has accepted and holds fitting
   permissions like everyone else, and for every other user the JSON in the audit table, read back,
   replays to exactly the membership the user has now.
   */
  lemma LogTellsMembership(ops: seq<Op>, team: Id, userId: Id)
    requires team in Run(ops).teams
    ensures var s := Run(ops);
      && (forall k :: k in s.members && k.0 == team ==> (s.members[k].isOwner <==> k.1 == s.teams[team].owner))
      && (team, s.teams[team].owner) in s.members && s.members[(team, s.teams[team].owner)].acceptedAt.Some?
      && (userId != s.teams[team].owner ==>
            Replay(ShowAll(Stored(s.log)), s.teams[team], userId) == Current(s, (team, userId)))
  {
    var s := Run(ops);
    if userId != s.teams[team].owner {
      var shown := ShowAll(Stored(s.log));
      forall i | 0 <= i < |s.log|
        ensures shown[i] == Shown(Some(s.log[i].userId), Some(s.log[i].resource), s.log[i].after)
      {
        ShowsChange(s.log[i]);
      }
      assert Chain(s.log, s.teams[team], userId, Current(s, (team, userId)));
      ReplayFollowsChain(s.log, shown, s.teams[team], userId, Current(s, (team, userId)));
    }
  }

  // ---------- errors raised after the effect ----------

  /**
   The actor may manage the team's members and does not own the team; the name is that of someone else than
   its owner.
   */
  predicate ManagesOther(s: State, team: Id, username: string, actorId: Id)
    requires NamesUnique(s.users) && team in s.teams
  {
    CanManageMembers(s, team, actorId) && actorId != s.teams[team].owner
    && FindUser(s, username).Some? && FindUser(s, username).value != s.teams[team].owner
  }

  /** The membership of one user was written, and one entry about it logged. */
  predicate MemberWritten(s: State, t: State, team: Id, userId: Id) {
    (team, userId) in t.members && |t.log| == |s.log| + 1
  }

  predicate MemberDropped(s: State, t: State, team: Id, userId: Id) {
    (team, userId) in s.members && (team, userId) !in t.members && |t.log| == |s.log| + 1
  }

  /**
   Adding to an organization's team is refused with NotFound although it changed something exactly when
   a manager who is not the owner names someone who is not the owner; the member is then added and
   logged all the same. To the owner success is reported.
   */
  lemma AddedYetNotFound(
    s: State, team: Id, username: string, actorId: Id, names: Option<seq<string>>, role: string, newId: Id)
    requires Inv(s) && team in s.teams
    ensures var o := AddAsManager(s, team, username, actorId, names, role, newId);
      && (o.reply == NotFound && o.state != s <==> ManagesOther(s, team, username, actorId))
      && (o.state != s ==> o.reply == if actorId == s.teams[team].owner then Done else NotFound)
      && (o.state != s ==> FindUser(s, username).Some? && MemberWritten(s, o.state, team, FindUser(s, username).value))
  {
    var o := AddAsManager(s, team, username, actorId, names, role, newId);
    assert o.state != s <==> |o.state.log| != |s.log|;
  }

  /** Removing likewise, when the one named is a member. */
  lemma RemovedYetNotFound(s: State, team: Id, username: string, actorId: Id)
    requires Inv(s) && team in s.teams
    ensures var o := RemoveAsManager(s, team, username, actorId);
      && (o.reply == NotFound && o.state != s <==>
            ManagesOther(s, team, username, actorId) && (team, FindUser(s, username).value) in s.members)
      && (o.state != s ==> o.reply == if actorId == s.teams[team].owner then Done else NotFound)
      && (o.state != s ==> FindUser(s, username).Some? && MemberDropped(s, o.state, team, FindUser(s, username).value))
  {
    var o := RemoveAsManager(s, team, username, actorId);
    assert o.state != s <==> |o.state.log| != |s.log|;
  }

  /** The organization of a call, if it names one and a user. */
  function CalledTeam(s: State, organizationId: string, username: string): (r: Option<Id>)
    requires Tidy(s)
    ensures r.Some? ==> r.value in s.teams
  {
    if organizationId == [] || username == [] then None else FindOrganizationTeam(s, organizationId)
  }

  /** The same of the whole call, from the texts it is given. */
  lemma AddCallYetNotFound(
    s: State, organizationId: string, username: string, actorId: Id, names: Option<seq<string>>, role: string,
    newId: Id)
    requires Inv(s)
    ensures var o := AddOrganizationTeamMember(s, organizationId, username, actorId, names, role, newId);
      var team := CalledTeam(s, Trim(organizationId), Trim(username));
      o.reply == NotFound && o.state != s <==> team.Some? && ManagesOther(s, team.value, Trim(username), actorId)
  {
    AddNamedYetNotFound(s, Trim(organizationId), Trim(username), actorId, names, role, newId);
  }

  lemma AddNamedYetNotFound(
    s: State, id: Id, username: string, actorId: Id, names: Option<seq<string>>, role: string, newId: Id)
    requires Inv(s)
    ensures var o := AddToOrganization(s, id, username, actorId, names, role, newId);
      var team := CalledTeam(s, id, username);
      o.reply == NotFound && o.state != s <==> team.Some? && ManagesOther(s, team.value, username, actorId)
  {
    var team := CalledTeam(s, id, username);
    if team.Some? {
      AddedYetNotFound(s, team.value, username, actorId, names, role, newId);
    }
  }

  lemma RemoveCallYetNotFound(s: State, organizationId: string, username: string, actorId: Id)
    requires Inv(s)
    ensures var o := RemoveOrganizationTeamMember(s, organizationId, username, actorId);
      var team := CalledTeam(s, Trim(organizationId), Trim(username));
      o.reply == NotFound && o.state != s <==>
        team.Some? && ManagesOther(s, team.value, Trim(username), actorId)
        && (team.value, FindUser(s, Trim(username)).value) in s.members
  {
    RemoveNamedYetNotFound(s, Trim(organizationId), Trim(username), actorId);
  }

  lemma RemoveNamedYetNotFound(s: State, id: Id, username: string, actorId: Id)
    requires Inv(s)
    ensures var o := RemoveFromOrganization(s, id, username, actorId);
      var team := CalledTeam(s, id, username);
      o.reply == NotFound && o.state != s <==>
        team.Some? && ManagesOther(s, team.value, username, actorId)
        && (team.value, FindUser(s, username).value) in s.members
  {
    var team := CalledTeam(s, id, username);
    if team.Some? {
      RemovedYetNotFound(s, team.value, username, actorId);
    }
  }
}
