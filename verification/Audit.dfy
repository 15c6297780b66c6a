/**
 The audit log's metadata: what each writer stores as JSON, and how the stored JSON is read back into
 the slots of a log entry. Reading looks at the shape of the values only, never at who wrote them.
 */
module Audit {
  import opened Text

  /** The property names that occur in metadata; a missing property is undefined. */
  datatype Field =
    | Accepted | Action | After | AttemptedAction | Before | Entity | ExpiresAt | Id | Kind | Name
    | OauthClientId | OauthClientName | Owner | Permissions | ProjectKind | ProjectSlug | Reason
    | RequestedStatus | Resource | RevokedApiTokens | RevokedSessions | Role | Scopes | SessionId | Slug
    | State | Status | TargetId | TargetKind | TargetLabel | Title | TokenId | TokenName | UserAgent
    | Username | VersionNumber

  datatype Json =
    | JNull
    | JBool(flag: bool)
    | JNumber(number: int)
    | JString(text: string)
    | JArray(items: seq<Json>)
    | JObject(fields: map<Field, Json>)

  // ---------- what is recorded ----------

  datatype UserAccount = UserAccount(role: string, status: string)

  datatype Project = Project(
    id: string, projectKind: Option<string>, requestedStatus: Option<string>, slug: string, status: string,
    title: string)

  datatype TargetKind = ProjectTarget | UserTarget | VersionTarget | UnknownTarget

  datatype Report = Report(
    id: string, reason: string, state: string, targetId: Option<string>, targetKind: TargetKind,
    targetLabel: string)

  datatype Version = Version(
    id: string, name: string, projectSlug: string, requestedStatus: Option<string>, status: string,
    versionNumber: string)

  datatype TeamMember = TeamMember(
    accepted: bool, owner: bool, permissions: seq<string>, role: string, username: string)

  datatype ResourceKind = OrganizationResource | ProjectResource | VersionResource

  datatype AuditResource = AuditResource(
    id: string, kind: ResourceKind, name: string, projectKind: Option<string>, slug: string)

  datatype DeniedResource = DeniedResource(id: Option<string>, kind: ResourceKind, slug: Option<string>)

  /** The metadata a security event may carry beside its action. */
  const SECURITY_FIELDS: set<Field> :=
    {ExpiresAt, OauthClientId, OauthClientName, RevokedApiTokens, RevokedSessions, Scopes, SessionId,
     TokenId, TokenName, UserAgent}

  type SecurityDetails = m: map<Field, Json> | m.Keys <= SECURITY_FIELDS

  /** One constructor for every writer. */
  datatype Record =
    | UserAccountUpdate(actorId: string, accountAfter: UserAccount, accountBefore: UserAccount, userId: string)
    | ProjectModeration(action: string, actorId: string, projectAfter: Project, projectBefore: Project,
        reason: Option<string>)
    | ReportStateUpdate(actorId: string, reportAfter: Report, reportBefore: Report)
    | VersionModeration(action: string, actorId: string, versionAfter: Version, versionBefore: Version,
        reason: Option<string>)
    | TeamMembershipChange(
        action: string, actorId: string, memberAfter: Option<TeamMember>, memberBefore: Option<TeamMember>,
        resource: AuditResource, userId: string)
    | SecurityEvent(action: string, actor: Option<string>, details: SecurityDetails, userId: string)
    | PermissionDenied(actorId: string, attemptedAction: string, deniedResource: DeniedResource)

  // ---------- the writers ----------

  datatype Row = Row(action: string, actorId: Option<string>, metadata: Json, targetUserId: Option<string>)

  function Nullable(value: Option<string>): Json {
    if value.Some? then JString(value.value) else JNull
  }

  function TargetName(kind: TargetKind): string {
    match kind
    case ProjectTarget => "PROJECT"
    case UserTarget => "USER"
    case VersionTarget => "VERSION"
    case UnknownTarget => "UNKNOWN"
  }

  function ResourceName(kind: ResourceKind): string {
    match kind
    case OrganizationResource => "ORGANIZATION"
    case ProjectResource => "PROJECT"
    case VersionResource => "VERSION"
  }

  function AccountJson(s: UserAccount): Json {
    JObject(map[Role := JString(s.role), Status := JString(s.status)])
  }

  function ProjectJson(s: Project): Json {
    JObject(map[
      Id := JString(s.id), Field.ProjectKind := Nullable(s.projectKind), RequestedStatus := Nullable(s.requestedStatus),
      Slug := JString(s.slug), Status := JString(s.status), Title := JString(s.title)])
  }

  function ReportJson(s: Report): Json {
    JObject(map[
      Id := JString(s.id), Reason := JString(s.reason), State := JString(s.state), TargetId := Nullable(s.targetId),
      Field.TargetKind := JString(TargetName(s.targetKind)), TargetLabel := JString(s.targetLabel)])
  }

  function VersionJson(s: Version): Json {
    JObject(map[
      Id := JString(s.id), Name := JString(s.name), ProjectSlug := JString(s.projectSlug),
      RequestedStatus := Nullable(s.requestedStatus), Status := JString(s.status),
      VersionNumber := JString(s.versionNumber)])
  }

  function Strings(texts: seq<string>): (r: seq<Json>)
    ensures |r| == |texts| && forall i :: 0 <= i < |r| ==> r[i] == JString(texts[i])
  {
    seq(|texts|, i requires 0 <= i < |texts| => JString(texts[i]))
  }

  function MemberJson(s: TeamMember): Json {
    JObject(map[
      Accepted := JBool(s.accepted), Owner := JBool(s.owner), Permissions := JArray(Strings(s.permissions)),
      Role := JString(s.role), Username := JString(s.username)])
  }

  function OptionalMemberJson(s: Option<TeamMember>): Json {
    if s.Some? then MemberJson(s.value) else JNull
  }

  function ResourceJson(s: AuditResource): Json {
    JObject(map[
      Id := JString(s.id), Kind := JString(ResourceName(s.kind)), Name := JString(s.name),
      Field.ProjectKind := Nullable(s.projectKind), Slug := JString(s.slug)])
  }

  function DeniedJson(s: DeniedResource): Json {
    JObject(map[Id := Nullable(s.id), Kind := JString(ResourceName(s.kind)), Slug := Nullable(s.slug)])
  }

  const PERMISSION_DENIED := "PERMISSION_DENIED"

  function Metadata(r: Record): map<Field, Json> {
    match r
    case UserAccountUpdate(_, after, before, _) =>
      map[After := AccountJson(after), Before := AccountJson(before)]
    case ProjectModeration(action, _, after, before, reason) =>
      map[Action := JString(action), After := ProjectJson(after), Before := ProjectJson(before),
          Reason := Nullable(reason)]
    case ReportStateUpdate(_, after, before) =>
      map[After := ReportJson(after), Before := ReportJson(before), Entity := JString("REPORT")]
    case VersionModeration(action, _, after, before, reason) =>
      map[Action := JString(action), After := VersionJson(after), Before := VersionJson(before),
          Entity := JString("VERSION"), Reason := Nullable(reason)]
    case TeamMembershipChange(action, _, after, before, resource, _) =>
      map[Action := JString(action), After := OptionalMemberJson(after), Before := OptionalMemberJson(before),
          Resource := ResourceJson(resource)]
    case SecurityEvent(action, _, details, _) =>
      map[Action := JString(action)] + details
    case PermissionDenied(_, attempted, resource) =>
      map[Action := JString(PERMISSION_DENIED), AttemptedAction := JString(attempted), Resource := DeniedJson(resource)]
  }

  function Written(r: Record): Row {
    var metadata := JObject(Metadata(r));
    match r
    case UserAccountUpdate(actorId, _, _, userId) => Row("USER_ACCOUNT_UPDATED", Some(actorId), metadata, Some(userId))
    case ProjectModeration(_, actorId, _, _, _) => Row("PROJECT_MODERATED", Some(actorId), metadata, None)
    case ReportStateUpdate(actorId, after, _) =>
      Row("REPORT_STATE_UPDATED", Some(actorId), metadata,
          if after.targetKind.UserTarget? then after.targetId else None)
    case VersionModeration(_, actorId, _, _, _) => Row("VERSION_MODERATED", Some(actorId), metadata, None)
    case TeamMembershipChange(_, actorId, _, _, _, userId) =>
      Row("TEAM_MEMBERSHIP_CHANGED", Some(actorId), metadata, Some(userId))
    case SecurityEvent(_, actor, _, userId) => Row("SECURITY_EVENT", actor, metadata, Some(userId))
    case PermissionDenied(actorId, _, _) => Row("SECURITY_EVENT", Some(actorId), metadata, Some(actorId))
  }

  // ---------- the readers ----------

  datatype Slots = Slots(
    after: Option<UserAccount>, before: Option<UserAccount>, moderationAction: Option<string>,
    projectAfter: Option<Project>, projectBefore: Option<Project>, reason: Option<string>,
    reportAfter: Option<Report>, reportBefore: Option<Report>, resource: Option<AuditResource>,
    securityAction: Option<string>, teamMemberAction: Option<string>,
    teamMemberAfter: Option<TeamMember>, teamMemberBefore: Option<TeamMember>,
    versionAfter: Option<Version>, versionBefore: Option<Version>,
    deniedAction: Option<string>, deniedResource: Option<DeniedResource>)

  const EMPTY: Slots :=
    Slots(None, None, None, None, None, None, None, None, None, None, None, None, None, None, None, None, None)

  /** A property's value, if it is a string. */
  function TextAt(o: map<Field, Json>, f: Field): Option<string> {
    if f in o && o[f].JString? then Some(o[f].text) else None
  }

  /** The property is a string or null. */
  predicate TextOrNull(o: map<Field, Json>, f: Field) {
    f in o && (o[f].JString? || o[f].JNull?)
  }

  predicate IsSecurityAction(action: string) {
    action == "ACCOUNT_CREDENTIALS_REVOKED" || action == "API_TOKEN_CREATED" || action == "API_TOKEN_REVOKED"
    || action == "EMAIL_VERIFICATION_CONFIRMED" || action == "OAUTH_CLIENT_CREATED" || action == "OAUTH_CLIENT_REVOKED"
    || action == "PASSWORD_RESET_CONFIRMED" || action == PERMISSION_DENIED || action == "SESSION_CREATED"
    || action == "SESSION_REVOKED" || action == "TWO_FACTOR_DISABLED" || action == "TWO_FACTOR_ENABLED"
  }

  /** A property of the metadata, as an object; arrays, null and undefined are none. */
  function ObjectAt(o: map<Field, Json>, f: Field): Option<map<Field, Json>> {
    if f in o && o[f].JObject? then Some(o[f].fields) else None
  }

  function AccountFrom(v: Option<map<Field, Json>>): Option<UserAccount> {
    if v.None? || TextAt(v.value, Role).None? || TextAt(v.value, Status).None? then None
    else Some(UserAccount(TextAt(v.value, Role).value, TextAt(v.value, Status).value))
  }

  function ProjectFrom(v: Option<map<Field, Json>>): Option<Project> {
    if v.None? then None
    else
      var o := v.value;
      if TextAt(o, Id).None? || TextAt(o, Slug).None? || TextAt(o, Status).None? || TextAt(o, Title).None?
         || !TextOrNull(o, RequestedStatus) then None
      else
        Some(Project(TextAt(o, Id).value, TextAt(o, Field.ProjectKind), TextAt(o, RequestedStatus),
            TextAt(o, Slug).value,
                     TextAt(o, Status).value, TextAt(o, Title).value))
  }

  function TargetFrom(name: Option<string>): Option<TargetKind> {
    if name == Some(TargetName(ProjectTarget)) then Some(ProjectTarget)
    else if name == Some(TargetName(UserTarget)) then Some(UserTarget)
    else if name == Some(TargetName(VersionTarget)) then Some(VersionTarget)
    else if name == Some(TargetName(UnknownTarget)) then Some(UnknownTarget)
    else None
  }

  function ReportFrom(v: Option<map<Field, Json>>): Option<Report> {
    if v.None? then None
    else
      var o := v.value;
      if TextAt(o, Id).None? || TextAt(o, Reason).None? || TextAt(o, State).None?
         || TargetFrom(TextAt(o, Field.TargetKind)).None? || TextAt(o, TargetLabel).None?
         || !TextOrNull(o, TargetId) then None
      else
        Some(Report(TextAt(o, Id).value, TextAt(o, Reason).value, TextAt(o, State).value, TextAt(o, TargetId),
                    TargetFrom(TextAt(o, Field.TargetKind)).value, TextAt(o, TargetLabel).value))
  }

  function VersionFrom(v: Option<map<Field, Json>>): Option<Version> {
    if v.None? then None
    else
      var o := v.value;
      if TextAt(o, Id).None? || TextAt(o, Name).None? || TextAt(o, ProjectSlug).None? || TextAt(o, Status).None?
         || TextAt(o, VersionNumber).None? || !TextOrNull(o, RequestedStatus) then None
      else
        Some(Version(TextAt(o, Id).value, TextAt(o, Name).value, TextAt(o, ProjectSlug).value,
            TextAt(o, RequestedStatus),
                     TextAt(o, Status).value, TextAt(o, VersionNumber).value))
  }

  function TextsFrom(items: seq<Json>): (r: Option<seq<string>>) {
    if forall i :: 0 <= i < |items| ==> items[i].JString?
    then Some(seq(|items|, i requires 0 <= i < |items| && items[i].JString? => items[i].text))
    else None
  }

  function MemberFrom(v: Option<map<Field, Json>>): Option<TeamMember> {
    if v.None? then None
    else
      var o := v.value;
      if Accepted !in o || !o[Accepted].JBool? || Owner !in o || !o[Owner].JBool?
         || Permissions !in o || !o[Permissions].JArray? || TextsFrom(o[Permissions].items).None?
         || TextAt(o, Role).None? || TextAt(o, Username).None? then None
      else
        Some(TeamMember(o[Accepted].flag, o[Owner].flag, TextsFrom(o[Permissions].items).value,
                        TextAt(o, Role).value, TextAt(o, Username).value))
  }

  function ResourceFrom(v: Option<map<Field, Json>>): Option<AuditResource> {
    if v.None? then None
    else
      var o := v.value;
      var kind := if TextAt(o, Kind) == Some(ResourceName(OrganizationResource)) then Some(OrganizationResource)
                  else if TextAt(o, Kind) == Some(ResourceName(ProjectResource)) then Some(ProjectResource)
                  else None;
      if TextAt(o, Id).None? || kind.None? || TextAt(o, Name).None? || TextAt(o, Slug).None? then None
      else
        Some(AuditResource(TextAt(o, Id).value, kind.value, TextAt(o, Name).value,
                           if kind.value.ProjectResource? then TextAt(o, Field.ProjectKind) else None,
                           TextAt(o, Slug).value))
  }

  /** Here, and only here, the kind is read whatever its case. */
  function KindFrom(name: string): Option<ResourceKind> {
    var upper := Upper(name);
    if upper == ResourceName(OrganizationResource) then Some(OrganizationResource)
    else if upper == ResourceName(ProjectResource) then Some(ProjectResource)
    else if upper == ResourceName(VersionResource) then Some(VersionResource)
    else None
  }

  function DeniedFrom(v: Option<map<Field, Json>>): Option<DeniedResource> {
    if v.None? || TextAt(v.value, Kind).None? || KindFrom(TextAt(v.value, Kind).value).None? then None
    else Some(DeniedResource(TextAt(v.value, Id), KindFrom(TextAt(v.value, Kind).value).value, TextAt(v.value, Slug)))
  }

  function IsSecurity(o: map<Field, Json>): bool {
    TextAt(o, Action).Some? && IsSecurityAction(TextAt(o, Action).value)
  }

  function SlotsOf(o: map<Field, Json>): Slots {
    Slots(
      AccountFrom(ObjectAt(o, After)),
      AccountFrom(ObjectAt(o, Before)),
      if TextAt(o, Entity) != Some("REPORT") && Resource !in o && !IsSecurity(o) then TextAt(o, Action) else None,
      ProjectFrom(ObjectAt(o, After)),
      ProjectFrom(ObjectAt(o, Before)),
      TextAt(o, Reason),
      ReportFrom(ObjectAt(o, After)),
      ReportFrom(ObjectAt(o, Before)),
      ResourceFrom(ObjectAt(o, Resource)),
      if IsSecurity(o) then TextAt(o, Action) else None,
      if Resource in o then TextAt(o, Action) else None,
      MemberFrom(ObjectAt(o, After)),
      MemberFrom(ObjectAt(o, Before)),
      VersionFrom(ObjectAt(o, After)),
      VersionFrom(ObjectAt(o, Before)),
      TextAt(o, AttemptedAction),
      DeniedFrom(ObjectAt(o, Resource)))
  }

  function AuditMetadata(metadata: Json): Slots {
    if metadata.JObject? then SlotsOf(metadata.fields) else EMPTY
  }

  // ---------- reading undoes writing ----------

  lemma AccountBack(s: UserAccount)
    ensures var o := Some(AccountJson(s).fields);
      AccountFrom(o) == Some(s) && ProjectFrom(o).None? && ReportFrom(o).None? && VersionFrom(o).None?
      && MemberFrom(o).None?
  {
  }

  lemma ProjectBack(s: Project)
    ensures var o := Some(ProjectJson(s).fields);
      ProjectFrom(o) == Some(s) && AccountFrom(o).None? && ReportFrom(o).None? && VersionFrom(o).None?
      && MemberFrom(o).None?
  {
  }

  lemma TargetBack(kind: TargetKind)
    ensures TargetFrom(Some(TargetName(kind))) == Some(kind)
  {
  }

  lemma ReportBack(s: Report)
    ensures var o := Some(ReportJson(s).fields);
      ReportFrom(o) == Some(s) && AccountFrom(o).None? && ProjectFrom(o).None? && VersionFrom(o).None?
      && MemberFrom(o).None?
  {
    TargetBack(s.targetKind);
  }

  lemma VersionBack(s: Version)
    ensures var o := Some(VersionJson(s).fields);
      VersionFrom(o) == Some(s) && AccountFrom(o).None? && ProjectFrom(o).None? && ReportFrom(o).None?
      && MemberFrom(o).None?
  {
  }

  lemma MemberBack(s: TeamMember)
    ensures var o := Some(MemberJson(s).fields);
      MemberFrom(o) == Some(s) && AccountFrom(o).None? && ProjectFrom(o).None? && ReportFrom(o).None?
      && VersionFrom(o).None?
  {
    assert TextsFrom(Strings(s.permissions)).value == s.permissions;
  }

  lemma KindBack(kind: ResourceKind)
    ensures KindFrom(ResourceName(kind)) == Some(kind)
  {
    assert Upper(ResourceName(kind)) == ResourceName(kind);
  }

  /** A project kind is not read back for an organization. */
  function ReadableResource(s: AuditResource): Option<AuditResource> {
    match s.kind
    case OrganizationResource => Some(s.(projectKind := None))
    case ProjectResource => Some(s)
    case VersionResource => None
  }

  lemma ResourceBack(s: AuditResource)
    ensures var o := Some(ResourceJson(s).fields);
      ResourceFrom(o) == ReadableResource(s) && DeniedFrom(o) == Some(DeniedResource(Some(s.id), s.kind, Some(s.slug)))
  {
    KindBack(s.kind);
  }

  lemma DeniedBack(s: DeniedResource)
    ensures var o := Some(DeniedJson(s).fields);
      DeniedFrom(o) == Some(s) && ResourceFrom(o).None?
  {
    KindBack(s.kind);
  }

  /** What each slot holds for each record. */
  function Expected(r: Record): Slots {
    match r
    case UserAccountUpdate(_, after, before, _) => EMPTY.(after := Some(after), before := Some(before))
    case ProjectModeration(action, _, after, before, reason) =>
      ActionSlots(action).(projectAfter := Some(after), projectBefore := Some(before), reason := reason)
    case ReportStateUpdate(_, after, before) => EMPTY.(reportAfter := Some(after), reportBefore := Some(before))
    case VersionModeration(action, _, after, before, reason) =>
      ActionSlots(action).(versionAfter := Some(after), versionBefore := Some(before), reason := reason)
    case TeamMembershipChange(action, _, after, before, resource, _) =>
      EMPTY.(teamMemberAction := Some(action), teamMemberAfter := after, teamMemberBefore := before,
             securityAction := if IsSecurityAction(action) then Some(action) else None,
             resource := ReadableResource(resource),
             deniedResource := Some(DeniedResource(Some(resource.id), resource.kind, Some(resource.slug))))
    case SecurityEvent(action, _, _, _) => ActionSlots(action)
    case PermissionDenied(_, attempted, resource) =>
      EMPTY.(securityAction := Some(PERMISSION_DENIED), teamMemberAction := Some(PERMISSION_DENIED),
             deniedAction := Some(attempted), deniedResource := Some(resource))
  }

  /** An action without a resource beside it is a security action or a moderation action by its name. */
  function ActionSlots(action: string): Slots {
    if IsSecurityAction(action) then EMPTY.(securityAction := Some(action))
    else EMPTY.(moderationAction := Some(action))
  }

  /** The top level of moderation metadata: an action and a reason, no resource, nothing attempted. */
  ghost predicate ModerationLevel(o: map<Field, Json>, action: string, reason: Option<string>) {
    && TextAt(o, Action) == Some(action) && TextAt(o, Reason) == reason
    && Resource !in o && AttemptedAction !in o && TextAt(o, Entity) != Some("REPORT")
  }

  lemma ProjectModerationBack(r: Record, o: map<Field, Json>)
    requires r.ProjectModeration? && o == Metadata(r)
    ensures SlotsOf(o) == Expected(r)
  {
    var x, y := ProjectJson(r.projectAfter).fields, ProjectJson(r.projectBefore).fields;
    assert ObjectAt(o, After) == Some(x) && ObjectAt(o, Before) == Some(y);
    assert ModerationLevel(o, r.action, r.reason);
    ProjectBack(r.projectAfter);
    ProjectBack(r.projectBefore);
    ProjectSlots(o, x, y, r);
  }

  lemma ProjectSlots(o: map<Field, Json>, x: map<Field, Json>, y: map<Field, Json>, r: Record)
    requires r.ProjectModeration? && ModerationLevel(o, r.action, r.reason)
    requires ObjectAt(o, After) == Some(x) && ObjectAt(o, Before) == Some(y)
    requires ProjectFrom(Some(x)) == Some(r.projectAfter) && ProjectFrom(Some(y)) == Some(r.projectBefore)
    requires AccountFrom(Some(x)).None? && ReportFrom(Some(x)).None? && VersionFrom(Some(x)).None?
      && MemberFrom(Some(x)).None?
    requires AccountFrom(Some(y)).None? && ReportFrom(Some(y)).None? && VersionFrom(Some(y)).None?
      && MemberFrom(Some(y)).None?
    ensures SlotsOf(o) == Expected(r)
  {
  }

  lemma VersionModerationBack(r: Record, o: map<Field, Json>)
    requires r.VersionModeration? && o == Metadata(r)
    ensures SlotsOf(o) == Expected(r)
  {
    var x, y := VersionJson(r.versionAfter).fields, VersionJson(r.versionBefore).fields;
    assert ObjectAt(o, After) == Some(x) && ObjectAt(o, Before) == Some(y);
    assert ModerationLevel(o, r.action, r.reason);
    VersionBack(r.versionAfter);
    VersionBack(r.versionBefore);
    VersionSlots(o, x, y, r);
  }

  lemma VersionSlots(o: map<Field, Json>, x: map<Field, Json>, y: map<Field, Json>, r: Record)
    requires r.VersionModeration? && ModerationLevel(o, r.action, r.reason)
    requires ObjectAt(o, After) == Some(x) && ObjectAt(o, Before) == Some(y)
    requires VersionFrom(Some(x)) == Some(r.versionAfter) && VersionFrom(Some(y)) == Some(r.versionBefore)
    requires AccountFrom(Some(x)).None? && ReportFrom(Some(x)).None? && ProjectFrom(Some(x)).None?
      && MemberFrom(Some(x)).None?
    requires AccountFrom(Some(y)).None? && ReportFrom(Some(y)).None? && ProjectFrom(Some(y)).None?
      && MemberFrom(Some(y)).None?
    ensures SlotsOf(o) == Expected(r)
  {
  }

  /** A member snapshot or null, wherever it stands, is read as a member and as nothing else. */
  ghost predicate OnlyMember(v: Option<map<Field, Json>>, member: Option<TeamMember>) {
    && MemberFrom(v) == member
    && AccountFrom(v).None? && ProjectFrom(v).None? && ReportFrom(v).None? && VersionFrom(v).None?
  }

  lemma OptionalMemberBack(o: map<Field, Json>, f: Field, member: Option<TeamMember>)
    requires f in o && o[f] == OptionalMemberJson(member)
    ensures OnlyMember(ObjectAt(o, f), member)
  {
    if member.Some? {
      MemberBack(member.value);
    }
  }

  lemma MembershipBack(r: Record, o: map<Field, Json>)
    requires r.TeamMembershipChange? && o == Metadata(r)
    ensures SlotsOf(o) == Expected(r)
  {
    OptionalMemberBack(o, After, r.memberAfter);
    OptionalMemberBack(o, Before, r.memberBefore);
    var x := ResourceJson(r.resource).fields;
    ResourceBack(r.resource);
    MemberSlots(o, x, r);
  }

  lemma MemberSlots(o: map<Field, Json>, x: map<Field, Json>, r: Record)
    requires r.TeamMembershipChange?
    requires OnlyMember(ObjectAt(o, After), r.memberAfter) && OnlyMember(ObjectAt(o, Before), r.memberBefore)
    requires TextAt(o, Action) == Some(r.action) && Reason !in o && AttemptedAction !in o
    requires Resource in o && ObjectAt(o, Resource) == Some(x)
    requires ResourceFrom(Some(x)) == ReadableResource(r.resource)
    requires DeniedFrom(Some(x)) == Some(DeniedResource(Some(r.resource.id), r.resource.kind, Some(r.resource.slug)))
    ensures SlotsOf(o) == Expected(r)
  {
  }

  lemma AccountUpdateBack(r: Record, o: map<Field, Json>)
    requires r.UserAccountUpdate? && o == Metadata(r)
    ensures SlotsOf(o) == Expected(r)
  {
    AccountBack(r.accountAfter);
    AccountBack(r.accountBefore);
  }

  lemma ReportUpdateBack(r: Record, o: map<Field, Json>)
    requires r.ReportStateUpdate? && o == Metadata(r)
    ensures SlotsOf(o) == Expected(r)
  {
    ReportBack(r.reportAfter);
    ReportBack(r.reportBefore);
  }

  lemma SecurityEventBack(r: Record, o: map<Field, Json>)
    requires r.SecurityEvent? && o == Metadata(r)
    ensures SlotsOf(o) == Expected(r)
  {
    assert After !in o && Before !in o && Resource !in o && Reason !in o && AttemptedAction !in o && Entity !in o;
  }

  lemma PermissionDeniedBack(r: Record, o: map<Field, Json>)
    requires r.PermissionDenied? && o == Metadata(r)
    ensures SlotsOf(o) == Expected(r)
  {
    var x := DeniedJson(r.deniedResource).fields;
    DeniedBack(r.deniedResource);
    assert IsSecurityAction(PERMISSION_DENIED);
    DeniedSlots(o, x, r);
  }

  lemma DeniedSlots(o: map<Field, Json>, x: map<Field, Json>, r: Record)
    requires r.PermissionDenied? && IsSecurityAction(PERMISSION_DENIED)
    requires TextAt(o, Action) == Some(PERMISSION_DENIED) && TextAt(o, AttemptedAction) == Some(r.attemptedAction)
    requires After !in o && Before !in o && Reason !in o && Resource in o && ObjectAt(o, Resource) == Some(x)
    requires ResourceFrom(Some(x)).None? && DeniedFrom(Some(x)) == Some(r.deniedResource)
    ensures SlotsOf(o) == Expected(r)
  {
  }

  /** Whatever is recorded, every slot is read back as expected: own snapshots in their slots, the rest empty. */
  lemma ReadsBack(r: Record)
    ensures AuditMetadata(Written(r).metadata) == Expected(r)
  {
    var o := Metadata(r);
    match r
    case ProjectModeration(_, _, _, _, _) => ProjectModerationBack(r, o);
    case VersionModeration(_, _, _, _, _) => VersionModerationBack(r, o);
    case TeamMembershipChange(_, _, _, _, _, _) => MembershipBack(r, o);
    case UserAccountUpdate(_, _, _, _) => AccountUpdateBack(r, o);
    case ReportStateUpdate(_, _, _) => ReportUpdateBack(r, o);
    case SecurityEvent(_, _, _, _) => SecurityEventBack(r, o);
    case PermissionDenied(_, _, _) => PermissionDeniedBack(r, o);
  }

  /** The actions the services record are moderation actions, membership actions and security actions by name. */
  ghost predicate Named(r: Record) {
    match r
    case ProjectModeration(action, _, _, _, _) => !IsSecurityAction(action)
    case VersionModeration(action, _, _, _, _) => !IsSecurityAction(action)
    case TeamMembershipChange(action, _, _, _, _, _) => !IsSecurityAction(action)
    case SecurityEvent(action, _, _, _) => IsSecurityAction(action)
    case _ => true
  }

  /** Which action slot is filled tells the kind of record. */
  lemma ActionSlotsTell(r: Record)
    requires Named(r)
    ensures var s := AuditMetadata(Written(r).metadata);
      && (s.moderationAction.Some? <==> r.ProjectModeration? || r.VersionModeration?)
      && (s.securityAction.Some? <==> r.SecurityEvent? || r.PermissionDenied?)
      && (s.deniedAction.Some? <==> r.PermissionDenied?)
      && (s.teamMemberAction.Some? <==> r.TeamMembershipChange? || r.PermissionDenied?)
      && (s.deniedResource.Some? <==> r.TeamMembershipChange? || r.PermissionDenied?)
  {
    ReadsBack(r);
  }

  /** Without that naming the two slots change places: they are told apart by the name of the action alone. */
  lemma ActionNamesDecide(r: Record)
    requires r.ProjectModeration? || r.VersionModeration? || r.SecurityEvent?
    ensures var s := AuditMetadata(Written(r).metadata);
      s.securityAction.Some? != s.moderationAction.Some?
      && (s.securityAction == Some(r.action) <==> IsSecurityAction(r.action))
  {
    ReadsBack(r);
  }

  /** A membership change is read back whole: action, both snapshots, and the team it happened in. */
  lemma MembershipReadBack(r: Record)
    requires r.TeamMembershipChange? && (r.resource.kind.OrganizationResource? ==> r.resource.projectKind.None?)
    requires !r.resource.kind.VersionResource?
    ensures var s := AuditMetadata(Written(r).metadata);
      s.teamMemberAction == Some(r.action) && s.teamMemberAfter == r.memberAfter
      && s.teamMemberBefore == r.memberBefore && s.resource == Some(r.resource)
  {
    ReadsBack(r);
  }
}
