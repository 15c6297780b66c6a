/** The membership services on their tables, each method proved to perform its step of `Teams`. */
module TeamsService {
  import opened Text
  import opened Teams
  import Audit

  class MembershipService {
    var users: map<Id, string>
    var teams: map<Id, Target>
    var members: map<Key, Member>
    var log: seq<Change>
    ghost var used: set<Id>

    ghost function View(): State
      reads this
    {
      State(users, teams, members, log, used)
    }

    constructor ()
      ensures View() == EMPTY && Inv(View())
    {
      users, teams, members, log, used := map[], map[], map[], [], {};
      new;
      assert Run([]) == EMPTY;
    }

    method RecordTeamMembershipChange(
      action: string, actorId: Id, resource: Audit.AuditResource, userId: Id,
      before: Option<Audit.TeamMember>, after: Option<Audit.TeamMember>)
      modifies this`log
      ensures log == old(log) + [Change(action, actorId, resource, userId, before, after)]
    {
      log := log + [Change(action, actorId, resource, userId, before, after)];
    }

    method MayManage(team: Id, userId: Id) returns (may: bool)
      ensures may == CanManageMembers(View(), team, userId)
    {
      may := (team, userId) in members && members[(team, userId)].acceptedAt.Some?
             && (members[(team, userId)].isOwner || ManageMembers in members[(team, userId)].permissions);
    }

    method FindUserId(username: string) returns (user: Option<Id>)
      requires NamesUnique(users)
      ensures user == FindUser(View(), username)
    {
      if exists u :: u in users && Lower(users[u]) == Lower(username) {
        var u :| u in users && Lower(users[u]) == Lower(username);
        assert UserNamed(View(), username, u);
        user := Some(u);
      } else {
        assert forall u :: !UserNamed(View(), username, u);
        user := None;
      }
    }

    method FindTeam(kind: Kind, name: string) returns (team: Option<Id>)
      requires TargetsUnique(teams)
      ensures kind.ProjectTeam? ==> team == FindProjectTeam(View(), name)
      ensures kind.OrganizationTeam? ==> team == FindOrganizationTeam(View(), name)
    {
      if exists t :: t in teams && teams[t].kind == kind
          && (if kind.ProjectTeam? then teams[t].slug else teams[t].id) == name {
        var t :| t in teams && teams[t].kind == kind
            && (if kind.ProjectTeam? then teams[t].slug else teams[t].id) == name;
        assert kind.ProjectTeam? ==> ProjectNamed(View(), name, t);
        assert kind.OrganizationTeam? ==> OrganizationWithId(View(), name, t);
        team := Some(t);
      } else {
        assert kind.ProjectTeam? ==> forall t :: !ProjectNamed(View(), name, t);
        assert kind.OrganizationTeam? ==> forall t :: !OrganizationWithId(View(), name, t);
        team := None;
      }
    }

    /** Writes the row, then the log entry with the row as it was and as it is. */
    method WriteRow(key: Key, actorId: Id, action: string, before: Option<Member>, member: Member)
      requires key.0 in teams && key.1 in users && before == if key in members then Some(members[key]) else None
      modifies this
      ensures View() == WriteMember(old(View()), key, actorId, action, member)
    {
      members := members[key := member];
      used := used + {member.id};
      RecordTeamMembershipChange(
        action, actorId, Resource(teams[key.0]), key.1,
        if before.None? then None else Some(Snapshot(before.value, users[key.1])),
        Some(Snapshot(member, users[key.1])));
    }

    method DropRow(key: Key, actorId: Id, action: string, member: Member)
      requires key in members && members[key] == member && key.0 in teams && key.1 in users
      modifies this
      ensures View() == DropMember(old(View()), key, actorId, action)
    {
      members := members - {key};
      RecordTeamMembershipChange(action, actorId, Resource(teams[key.0]), key.1,
                                 Some(Snapshot(member, users[key.1])), None);
    }

    /** The common part of adding to a project's and an organization's team. */
    method PutTeamMember(team: Id, username: string, actorId: Id, names: Option<seq<string>>, role: string, newId: Id)
      returns (reply: Reply)
      requires Inv(View()) && team in teams && newId !in used
      modifies this
      ensures Outcome(View(), reply) == AddToTeam(old(View()), team, username, actorId, names, role, newId)
      ensures Inv(View())
    {
      AddKeeps(View(), team, username, actorId, names, role, newId);
      var user := FindUserId(username);
      if user.None? {
        return NotFound;
      }
      var key := (team, user.value);
      var before: Option<Member> := if key in members then Some(members[key]) else None;
      if before.Some? && before.value.isOwner {
        return Forbidden;
      }
      var permissions, named := Permissions(teams[team].kind, names), Role(role);
      var member := if before.Some? then before.value.(permissions := permissions, role := named)
                    else Member(newId, named, permissions, false, None);
      assert member == MemberRow(View(), key, permissions, named, newId);
      WriteRow(key, actorId, if before.None? then "ADD" else "UPDATE", before, member);
      return Done;
    }

    method DropTeamMember(team: Id, username: string, actorId: Id) returns (reply: Reply)
      requires Inv(View()) && team in teams
      modifies this
      ensures Outcome(View(), reply) == RemoveFromTeam(old(View()), team, username, actorId)
      ensures Inv(View())
    {
      RemoveKeeps(View(), team, username, actorId);
      var user := FindUserId(username);
      if user.None? || (team, user.value) !in members {
        return NotFound;
      }
      var member := members[(team, user.value)];
      if member.isOwner {
        return Forbidden;
      }
      DropRow((team, user.value), actorId, "REMOVE", member);
      return Done;
    }

    method AddProjectMember(
      projectSlug: string, username: string, actorId: Id, names: Option<seq<string>>, role: string, newId: Id)
      returns (reply: Reply)
      requires Inv(View()) && newId !in used
      modifies this
      ensures Outcome(View(), reply)
        == AddProjectTeamMember(old(View()), projectSlug, username, actorId, names, role, newId)
      ensures Inv(View())
    {
      var team := FindTeam(ProjectTeam, projectSlug);
      if team.None? {
        return NotFound;
      }
      var may := MayManage(team.value, actorId);
      if !may {
        return NotFound;
      }
      reply := PutTeamMember(team.value, username, actorId, names, role, newId);
    }

    method RemoveProjectMember(projectSlug: string, username: string, actorId: Id) returns (reply: Reply)
      requires Inv(View())
      modifies this
      ensures Outcome(View(), reply) == RemoveProjectTeamMember(old(View()), projectSlug, username, actorId)
      ensures Inv(View())
    {
      var team := FindTeam(ProjectTeam, projectSlug);
      if team.None? {
        return NotFound;
      }
      var may := MayManage(team.value, actorId);
      if !may {
        return NotFound;
      }
      reply := DropTeamMember(team.value, username, actorId);
    }

    /** The closing read finds the organization only for its owner; by then the member is in and logged. */
    method AddOrganizationMember(
      organizationId: string, username: string, actorId: Id, names: Option<seq<string>>, role: string, newId: Id)
      returns (reply: Reply)
      requires Inv(View()) && newId !in used
      modifies this
      ensures Outcome(View(), reply)
        == AddToOrganization(old(View()), Trim(organizationId), Trim(username), actorId, names, role, newId)
      ensures Inv(View())
    {
      var id, name := Trim(organizationId), Trim(username);
      if id == [] || name == [] {
        return BadRequest;
      }
      var team := FindTeam(OrganizationTeam, id);
      if team.None? {
        return NotFound;
      }
      var may := MayManage(team.value, actorId);
      if !may {
        return NotFound;
      }
      reply := PutTeamMember(team.value, name, actorId, names, role, newId);
      if reply.Done? && teams[team.value].owner != actorId {
        return NotFound;
      }
    }

    method RemoveOrganizationMember(organizationId: string, username: string, actorId: Id) returns (reply: Reply)
      requires Inv(View())
      modifies this
      ensures Outcome(View(), reply)
        == RemoveFromOrganization(old(View()), Trim(organizationId), Trim(username), actorId)
      ensures Inv(View())
    {
      var id, name := Trim(organizationId), Trim(username);
      if id == [] || name == [] {
        return BadRequest;
      }
      var team := FindTeam(OrganizationTeam, id);
      if team.None? {
        return NotFound;
      }
      var may := MayManage(team.value, actorId);
      if !may {
        return NotFound;
      }
      reply := DropTeamMember(team.value, name, actorId);
      if reply.Done? && teams[team.value].owner != actorId {
        return NotFound;
      }
    }

    method FindPending(invitationId: Id, userId: Id) returns (key: Option<Key>)
      requires RowsUnique(members)
      ensures key == FindInvitation(View(), invitationId, userId)
    {
      if exists k :: k in members && k.1 == userId && members[k].id == invitationId && members[k].acceptedAt.None? {
        var k :| k in members && k.1 == userId && members[k].id == invitationId && members[k].acceptedAt.None?;
        assert Invitation(View(), invitationId, k);
        key := Some(k);
      } else {
        assert forall k: Key :: k.1 == userId ==> !Invitation(View(), invitationId, k);
        key := None;
      }
    }

    method Accept(invitationId: Id, userId: Id, now: nat) returns (reply: Reply)
      requires Inv(View())
      modifies this
      ensures Outcome(View(), reply) == AcceptInvitation(old(View()), invitationId, userId, now)
      ensures Inv(View())
    {
      AcceptKeeps(View(), invitationId, userId, now);
      var key := FindPending(invitationId, userId);
      if key.None? {
        return NotFound;
      }
      var invitation := members[key.value];
      WriteRow(key.value, userId, "ACCEPT", Some(invitation), invitation.(acceptedAt := Some(now)));
      return Done;
    }

    method Decline(invitationId: Id, userId: Id) returns (reply: Reply)
      requires Inv(View())
      modifies this
      ensures Outcome(View(), reply) == DeclineInvitation(old(View()), invitationId, userId)
      ensures Inv(View())
    {
      DeclineKeeps(View(), invitationId, userId);
      var key := FindPending(invitationId, userId);
      if key.None? {
        return NotFound;
      }
      var invitation := members[key.value];
      if invitation.isOwner {
        return Forbidden;
      }
      DropRow(key.value, userId, "DECLINE", invitation);
      return Done;
    }

    method DropTeam(team: Id)
      requires Inv(View())
      modifies this
      ensures View() == DeleteTeam(old(View()), team) && Inv(View())
    {
      DeleteKeeps(View(), team);
      teams := teams - {team};
      members := map k | k in members && k.0 != team :: members[k];
    }

    method RemoveProject(projectSlug: string, userId: Id) returns (reply: Reply)
      requires Inv(View())
      modifies this
      ensures Outcome(View(), reply) == DeleteProject(old(View()), projectSlug, userId)
      ensures Inv(View())
    {
      var slug := Trim(projectSlug);
      var team := FindTeam(ProjectTeam, slug);
      if team.None? || (team.value, userId) !in members || members[(team.value, userId)].acceptedAt.None?
         || !members[(team.value, userId)].isOwner {
        return NotFound;
      }
      DropTeam(team.value);
      return Done;
    }

    method RemoveOrganization(organizationId: string, userId: Id) returns (reply: Reply)
      requires Inv(View())
      modifies this
      ensures Outcome(View(), reply) == DeleteOrganization(old(View()), organizationId, userId)
      ensures Inv(View())
    {
      var id := Trim(organizationId);
      if id == [] {
        return BadRequest;
      }
      var team := FindTeam(OrganizationTeam, id);
      if team.None? || teams[team.value].owner != userId {
        return NotFound;
      }
      DropTeam(team.value);
      return Done;
    }
  }
}
