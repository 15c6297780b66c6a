/**
 The catalog on its tables alone: what each call does to the rows, with no index and no cache. This is
 the simple form the service must agree with.
 */
module Catalog {
  import opened Text
  import opened ReadModel
  import Slug
  import Storage
  import VersionFiles

  datatype License = License(name: string, url: Option<string>)

  datatype Organization = Organization(name: string, ownerId: Id)

  datatype Channel = Alpha | Beta | Release

  /** What a release shows of itself. */
  datatype Notes = Notes(
    name: string, changelog: Option<string>, channel: Channel, featured: bool, sortOrder: int,
    gameVersions: seq<string>, loaders: seq<Loader>)

  datatype Version = Version(
    projectId: Id, authorId: Option<Id>, number: string, notes: Notes, status: Status,
    requestedStatus: Option<Status>, publishedAt: Option<nat>, downloads: nat)

  datatype Scan = Scan(complete: bool, clean: bool)

  datatype File = File(versionId: Id, url: string, latestScan: Option<Scan>)

  /** `verified` are the users with a confirmed email address. */
  datatype Tables = Tables(
    projects: map<Id, Project>, licenses: map<string, License>, organizations: map<Id, Organization>,
    versions: map<Id, Version>, files: map<Id, File>, verified: set<Id>)

  /** `Failed` is the error of a statement that would break a constraint of the database. */
  datatype Reply = Shown(contract: Contract) | VersionShown(version: Version) | OrganizationShown(id: Id)
    | Following(followers: nat) | Download(url: string, downloads: nat)
    | Deleted | NotFound | Forbidden | BadRequest | Failed

  datatype Outcome = Outcome(tables: Tables, reply: Reply)

  // ---------- reading ----------

  function AmbientOf(t: Tables, p: Project): Ambient {
    Ambient(
      if p.licenseKey in t.licenses then t.licenses[p.licenseKey].name else "Unknown",
      if p.licenseKey in t.licenses then t.licenses[p.licenseKey].url else None,
      if p.organizationId.Some? && p.organizationId.value in t.organizations
      then Some(t.organizations[p.organizationId.value].name) else None,
      p.ownerId, p.updatedAt)
  }

  function ContractOf(t: Tables, id: Id): Contract
    requires id in t.projects
  {
    RowToContract(id, t.projects[id], AmbientOf(t, t.projects[id]))
  }

  predicate HasSlug(projects: map<Id, Project>, slug: string, id: Id) {
    id in projects && projects[id].slug == slug
  }

  ghost predicate SlugsUnique(projects: map<Id, Project>) {
    forall slug, a, b :: HasSlug(projects, slug, a) && HasSlug(projects, slug, b) ==> a == b
  }

  function FindBySlug(projects: map<Id, Project>, slug: string): (r: Option<Id>)
    requires SlugsUnique(projects)
    ensures r.Some? ==> HasSlug(projects, slug, r.value)
    ensures r.None? ==> forall id :: !HasSlug(projects, slug, id)
  {
    if exists id :: id in projects && HasSlug(projects, slug, id) then
      var id :| id in projects && HasSlug(projects, slug, id);
      Some(id)
    else None
  }

  predicate IsApproved(projects: map<Id, Project>, id: Id) {
    id in projects && projects[id].status.Approved?
  }

  /** The row a slug shows in public: the one of an approved project. */
  function FindProject(t: Tables, slug: string): Option<Contract>
    requires SlugsUnique(t.projects)
  {
    var id := FindBySlug(t.projects, slug);
    if id.Some? && IsApproved(t.projects, id.value) then Some(ContractOf(t, id.value)) else None
  }

  // ---------- what the tables keep ----------

  function CountVersion(events: seq<Option<Id>>, versionId: Id): nat {
    if events == [] then 0
    else CountVersion(events[..|events| - 1], versionId) + (if events[|events| - 1] == Some(versionId) then 1 else 0)
  }

  /** The counters of a project say what its rows say. */
  predicate ProjectCounted(p: Project) {
    p.followers == |p.follows| && p.downloads == |p.downloadEvents|
  }

  ghost predicate ProjectsCounted(projects: map<Id, Project>) {
    forall id {:trigger ProjectCounted(projects[id])} :: id in projects ==> ProjectCounted(projects[id])
  }

  predicate VersionCounted(projects: map<Id, Project>, id: Id, version: Version) {
    version.projectId in projects
    && version.downloads == CountVersion(projects[version.projectId].downloadEvents, id)
  }

  ghost predicate VersionsCounted(projects: map<Id, Project>, versions: map<Id, Version>) {
    forall v {:trigger VersionCounted(projects, v, versions[v])} ::
      v in versions ==> VersionCounted(projects, v, versions[v])
  }

  /** An event of a version is kept by the project of that version. */
  predicate EventPlaced(versions: map<Id, Version>, id: Id, event: Option<Id>) {
    event.Some? ==> event.value in versions && versions[event.value].projectId == id
  }

  ghost predicate EventsPlaced(projects: map<Id, Project>, versions: map<Id, Version>) {
    forall id, i {:trigger EventPlaced(versions, id, projects[id].downloadEvents[i])} ::
      id in projects && 0 <= i < |projects[id].downloadEvents| ==>
      EventPlaced(versions, id, projects[id].downloadEvents[i])
  }

  predicate HasNumber(versions: map<Id, Version>, projectId: Id, number: string, v: Id) {
    v in versions && versions[v].projectId == projectId && versions[v].number == number
  }

  ghost predicate NumbersUnique(versions: map<Id, Version>) {
    forall projectId, number, a, b ::
      HasNumber(versions, projectId, number, a) && HasNumber(versions, projectId, number, b) ==> a == b
  }

  ghost predicate FilesPlaced(t: Tables) {
    forall f :: f in t.files ==> t.files[f].versionId in t.versions
  }

  predicate HasImage(projects: map<Id, Project>, imageId: Id, id: Id) {
    id in projects && imageId in projects[id].gallery
  }

  ghost predicate ImagesUnique(projects: map<Id, Project>) {
    forall image, a, b :: HasImage(projects, image, a) && HasImage(projects, image, b) ==> a == b
  }

  ghost predicate TablesInv(t: Tables) {
    && SlugsUnique(t.projects) && ImagesUnique(t.projects) && ProjectsCounted(t.projects)
    && VersionsCounted(t.projects, t.versions) && EventsPlaced(t.projects, t.versions) && FilesPlaced(t)
    && NumbersUnique(t.versions)
  }

  // ---------- inputs ----------

  /** A field of an update: left out, null, or a value. */
  datatype Patch = Unset | Null | Value(text: string)

  function Given(p: Patch): string {
    if p.Value? then Trim(p.text) else []
  }

  /** Blank text is null. */
  function NullableText(s: string): Option<string> {
    if Trim(s) == [] then None else Some(Trim(s))
  }

  function PatchedText(p: Patch, before: string): string {
    if p.Unset? then before else Given(p)
  }

  function PatchedOption(p: Patch, before: Option<string>): Option<string> {
    if p.Unset? then before else NullableText(Given(p))
  }

  datatype LinkInput = LinkInput(kind: string, caption: Option<string>, url: string)

  datatype CreateInput = CreateInput(
    slug: string, title: string, summary: string, description: string, kind: Kind,
    color: Option<string>, iconUrl: Option<string>,
    categories: Option<seq<string>>, gameVersions: Option<seq<string>>, loaders: Option<seq<string>>)

  datatype UpdateInput = UpdateInput(
    projectSlug: string, title: Patch, summary: Patch, description: Patch, color: Patch, iconUrl: Patch,
    sourceUrl: Patch, issuesUrl: Patch, wikiUrl: Patch, discordUrl: Patch,
    licenseKey: Patch, licenseName: Patch, licenseUrl: Patch,
    categories: Option<seq<string>>, gameVersions: Option<seq<string>>, loaders: Option<seq<string>>,
    links: Option<seq<LinkInput>>)

  predicate Distinct<T(==)>(s: seq<T>) {
    forall i, j :: 0 <= i < j < |s| ==> s[i] != s[j]
  }

  function Normal(value: string): string {
    Lower(Trim(value))
  }

  /** Trimmed, lower case, no blanks, first occurrences in order. */
  function UniqueNormalized(values: seq<string>): (r: seq<string>)
    ensures Distinct(r) && forall i :: 0 <= i < |r| ==> r[i] != []
  {
    if values == [] then []
    else
      var earlier, last := UniqueNormalized(values[..|values| - 1]), Normal(values[|values| - 1]);
      if last == [] || last in earlier then earlier else earlier + [last]
  }

  function Normals(values: seq<string>): (r: seq<string>)
    ensures |r| == |values|
  {
    if values == [] then [] else Normals(values[..|values| - 1]) + [Normal(values[|values| - 1])]
  }

  /** Nothing but the trimmed, lower-case, non-blank values, and every one of them. */
  lemma {:induction false} NormalizedValues(values: seq<string>, v: string)
    ensures v in UniqueNormalized(values) <==> v != [] && v in Normals(values)
  {
    if values != [] {
      NormalizedValues(values[..|values| - 1], v);
      LastOf(Normals(values[..|values| - 1]), Normal(values[|values| - 1]), v);
      LastOf(UniqueNormalized(values[..|values| - 1]), Normal(values[|values| - 1]), v);
    }
  }

  lemma LastOf(s: seq<string>, last: string, v: string)
    ensures v in s + [last] <==> v in s || v == last
  {
  }

  function Kept(values: seq<string>, keep: string -> bool): (r: seq<string>)
    ensures forall v :: v in r ==> v in values && keep(v)
  {
    if values == [] then []
    else Kept(values[..|values| - 1], keep) + (if keep(values[|values| - 1]) then [values[|values| - 1]] else [])
  }

  function LoaderFrom(name: string): Option<Loader> {
    if name == "fabric" then Some(Fabric)
    else if name == "forge" then Some(Forge)
    else if name == "neoforge" then Some(Neoforge)
    else if name == "quilt" then Some(Quilt)
    else None
  }

  function LoadersFrom(names: seq<string>): (r: seq<Loader>)
    ensures forall l :: l in r ==> exists i :: 0 <= i < |names| && LoaderFrom(names[i]) == Some(l)
  {
    if names == [] then []
    else
      var last := LoaderFrom(names[|names| - 1]);
      LoadersFrom(names[..|names| - 1]) + (if last.Some? then [last.value] else [])
  }

  function LinkKindFrom(text: string): Option<LinkKind> {
    var name := Upper(Trim(text));
    if name == "SOURCE" then Some(SourceLink)
    else if name == "ISSUES" then Some(IssuesLink)
    else if name == "WIKI" then Some(WikiLink)
    else if name == "DISCORD" then Some(DiscordLink)
    else if name == "DONATION" then Some(DonationLink)
    else if name == "WEBSITE" then Some(WebsiteLink)
    else if name == "OTHER" then Some(OtherLink)
    else None
  }

  /** None where a link has an unknown kind or a blank address. */
  function LinksFrom(links: seq<LinkInput>): Option<seq<Link>> {
    if links == [] then Some([])
    else
      var last, earlier := links[|links| - 1], LinksFrom(links[..|links| - 1]);
      if earlier.None? || LinkKindFrom(last.kind).None? || Trim(last.url) == [] then None
      else
        var caption := if last.caption.None? then None else NullableText(last.caption.value);
        Some(earlier.value + [Link(LinkKindFrom(last.kind).value, caption, Trim(last.url))])
  }

  const MAX_CATEGORIES := 12
  const MAX_LOADERS := 8
  const MAX_LINKS := 16

  function OrEmpty(values: Option<seq<string>>): seq<string> {
    if values.Some? then values.value else []
  }

  predicate WithinLimits(categories: Option<seq<string>>, loaders: Option<seq<string>>, links: nat) {
    |UniqueNormalized(OrEmpty(categories))| <= MAX_CATEGORIES
    && |UniqueNormalized(OrEmpty(loaders))| <= MAX_LOADERS && links <= MAX_LINKS
  }

  lemma {:induction false} KeptDistinct(values: seq<string>, keep: string -> bool)
    requires Distinct(values)
    ensures Distinct(Kept(values, keep))
  {
    if values != [] {
      var n := |values| - 1;
      KeptDistinct(values[..n], keep);
      KeptLast(values, keep);
    }
  }

  /** A value not seen before is not among the values kept before. */
  lemma KeptLast(values: seq<string>, keep: string -> bool)
    requires |values| > 0
    requires Distinct(values)
    ensures values[|values| - 1] !in Kept(values[..|values| - 1], keep)
  {
    var n := |values| - 1;
    assert values[n] !in values[..n];
  }

  lemma {:induction false} LoadersDistinct(names: seq<string>)
    requires Distinct(names)
    ensures Distinct(LoadersFrom(names))
  {
    if names != [] {
      var n := |names| - 1;
      LoadersDistinct(names[..n]);
      if LoaderFrom(names[n]).Some? {
        LoaderOnce(names[..n], names[n]);
      }
    }
  }

  lemma LoaderOnce(names: seq<string>, name: string)
    requires LoaderFrom(name).Some? && name !in names
    ensures LoaderFrom(name).value !in LoadersFrom(names)
  {
    forall i | 0 <= i < |names| ensures LoaderFrom(names[i]) != LoaderFrom(name) {
      assert names[i] in names;
      if LoaderFrom(names[i]) == LoaderFrom(name) {
        LoaderTells(names[i], name);
      }
    }
  }

  lemma LoaderTells(a: string, b: string)
    requires LoaderFrom(a).Some? && LoaderFrom(a) == LoaderFrom(b)
    ensures a == b
  {
  }

  function GameVersionsOf(values: seq<string>, isGameVersion: string -> bool): (r: seq<string>)
    ensures Distinct(r)
  {
    KeptDistinct(UniqueNormalized(values), isGameVersion);
    Kept(UniqueNormalized(values), isGameVersion)
  }

  function LoadersOf(values: seq<string>): (r: seq<Loader>)
    ensures Distinct(r)
  {
    LoadersDistinct(UniqueNormalized(values));
    LoadersFrom(UniqueNormalized(values))
  }

  // ---------- creating, updating, deleting ----------

  predicate CreateAllowed(t: Tables, input: CreateInput, slug: string) {
    |slug| >= 3 && Trim(input.title) != [] && Trim(input.summary) != [] && Trim(input.description) != []
    && WithinLimits(input.categories, input.loaders, 0)
  }

  function OptionText(s: Option<string>): Option<string> {
    if s.None? then None else NullableText(s.value)
  }

  const UNKNOWN := "unknown"

  function NewProject(input: CreateInput, slug: string, ownerId: Id, isGameVersion: string -> bool, now: nat): Project {
    Project(
      slug, Trim(input.title), Trim(input.summary), Trim(input.description), input.kind,
      PendingReview, Some(Approved), UNKNOWN, None, ownerId,
      OptionText(input.iconUrl), OptionText(input.color), None, None, None, None, 0, 0,
      None, None, Some(now), None, now,
      UniqueNormalized(OrEmpty(input.categories)), GameVersionsOf(OrEmpty(input.gameVersions), isGameVersion),
      LoadersOf(OrEmpty(input.loaders)), [],
      map[], None,
      map[ownerId := Member(true, true, {ManageDetails, ManageMembers, ManageSettings, ManageVersions, ViewAnalytics})],
      {}, [])
  }

  lemma NewShown(input: CreateInput, slug: string, ownerId: Id, isGameVersion: string -> bool, now: nat)
    ensures var p := NewProject(input, slug, ownerId, isGameVersion, now);
      Uncounted(p) && p.slug == slug && !p.status.Approved?
  {
  }

  function WithUnknownLicense(licenses: map<string, License>): map<string, License> {
    if UNKNOWN in licenses then licenses else licenses[UNKNOWN := License("Unknown", None)]
  }

  function CreateProject(
    t: Tables, input: CreateInput, ownerId: Id, newId: Id, isGameVersion: string -> bool, now: nat
  ): Outcome
    requires SlugsUnique(t.projects)
  {
    var slug := Slug.NormalizeSlug(input.slug);
    if !CreateAllowed(t, input, slug) then Outcome(t, BadRequest)
    else if ownerId !in t.verified then Outcome(t, Forbidden)
    else if FindBySlug(t.projects, slug).Some? then Outcome(t, BadRequest)
    else
      var project := NewProject(input, slug, ownerId, isGameVersion, now);
      var t' := t.(licenses := WithUnknownLicense(t.licenses), projects := t.projects[newId := project]);
      Outcome(t', Shown(ContractOf(t', newId)))
  }

  /** An accepted member who is the owner or has the permission. */
  predicate Manages(p: Project, userId: Id, permission: Permission) {
    userId in p.members && p.members[userId].accepted
    && (p.members[userId].isOwner || permission in p.members[userId].permissions)
  }

  predicate ManagesDetails(p: Project, userId: Id) {
    Manages(p, userId, ManageDetails)
  }

  /** The project of a slug, if the user may change its details. */
  function FindManaged(t: Tables, slug: string, userId: Id): (r: Option<Id>)
    requires SlugsUnique(t.projects)
    ensures r.Some? ==> r.value in t.projects && t.projects[r.value].slug == slug
  {
    var id := FindBySlug(t.projects, slug);
    if id.Some? && ManagesDetails(t.projects[id.value], userId) then id else None
  }

  predicate UpdateAllowed(input: UpdateInput) {
    Trim(input.projectSlug) != []
    && (input.title.Unset? || Given(input.title) != [])
    && (input.summary.Unset? || Given(input.summary) != [])
    && (input.description.Unset? || Given(input.description) != [])
    && WithinLimits(input.categories, input.loaders, if input.links.Some? then |input.links.value| else 0)
  }

  /** A licence must be named by its key when it is given at all, and every link must be readable. */
  predicate MetadataComplete(input: UpdateInput) {
    (input.licenseKey.Unset? || Given(input.licenseKey) != [])
    && (input.links.Some? ==> LinksFrom(input.links.value).Some?)
  }

  function UpdatedLicenses(licenses: map<string, License>, input: UpdateInput): map<string, License> {
    if input.licenseKey.Unset? then licenses
    else
      var key := Lower(Given(input.licenseKey));
      var name := NullableText(Given(input.licenseName));
      licenses[key := License(if name.Some? then name.value else key, NullableText(Given(input.licenseUrl)))]
  }

  function UpdatedColumns(p: Project, input: UpdateInput, now: nat): Project {
    p.(title := PatchedText(input.title, p.title),
       summary := PatchedText(input.summary, p.summary),
       description := PatchedText(input.description, p.description),
       color := PatchedOption(input.color, p.color),
       iconUrl := PatchedOption(input.iconUrl, p.iconUrl),
       sourceUrl := PatchedOption(input.sourceUrl, p.sourceUrl),
       issuesUrl := PatchedOption(input.issuesUrl, p.issuesUrl),
       wikiUrl := PatchedOption(input.wikiUrl, p.wikiUrl),
       discordUrl := PatchedOption(input.discordUrl, p.discordUrl),
       licenseKey := if input.licenseKey.Unset? then p.licenseKey else Lower(Given(input.licenseKey)),
       updatedAt := now)
  }

  function UpdatedRows(p: Project, input: UpdateInput, isGameVersion: string -> bool): Project {
    p.(categories := if input.categories.Some? then UniqueNormalized(input.categories.value) else p.categories,
       gameVersions := if input.gameVersions.Some? then GameVersionsOf(input.gameVersions.value, isGameVersion)
                       else p.gameVersions,
       loaders := if input.loaders.Some? then LoadersOf(input.loaders.value) else p.loaders)
  }

  function Updated(p: Project, input: UpdateInput, isGameVersion: string -> bool, now: nat): Project
    requires MetadataComplete(input)
  {
    var q := UpdatedRows(UpdatedColumns(p, input, now), input, isGameVersion);
    if input.links.Some? then q.(links := LinksFrom(input.links.value).value) else q
  }

  function UpdateNamed(
    t: Tables, slug: string, input: UpdateInput, userId: Id, isGameVersion: string -> bool, now: nat
  ): Outcome
    requires SlugsUnique(t.projects)
  {
    var id := FindManaged(t, slug, userId);
    if id.None? then Outcome(t, NotFound)
    else if !MetadataComplete(input) then Outcome(t, Forbidden)
    else
      var t' := t.(licenses := UpdatedLicenses(t.licenses, input),
                   projects := t.projects[id.value := Updated(t.projects[id.value], input, isGameVersion, now)]);
      Outcome(t', Shown(ContractOf(t', id.value)))
  }

  function UpdateProject(t: Tables, input: UpdateInput, userId: Id, isGameVersion: string -> bool, now: nat): Outcome
    requires SlugsUnique(t.projects)
  {
    if !UpdateAllowed(input) then Outcome(t, BadRequest)
    else UpdateNamed(t, Trim(input.projectSlug), input, userId, isGameVersion, now)
  }

  /** A project goes with everything that belongs to it. */
  function WithoutProject(t: Tables, id: Id): Tables {
    var versions := map v | v in t.versions && t.versions[v].projectId != id :: t.versions[v];
    t.(projects := t.projects - {id}, versions := versions,
       files := map f | f in t.files && t.files[f].versionId in versions :: t.files[f])
  }

  predicate Owns(p: Project, userId: Id) {
    userId in p.members && p.members[userId].accepted && p.members[userId].isOwner
  }

  function DeleteProject(t: Tables, slug: string, userId: Id): Outcome
    requires SlugsUnique(t.projects)
  {
    var id := FindBySlug(t.projects, slug);
    if id.None? || !Owns(t.projects[id.value], userId) then Outcome(t, NotFound)
    else Outcome(WithoutProject(t, id.value), Deleted)
  }

  // ---------- moderation ----------

  datatype Action = Approve | Reject | Archive | Restore

  function ActionFrom(text: string): Option<Action> {
    var name := Upper(Trim(text));
    if name == "APPROVE" then Some(Approve)
    else if name == "REJECT" then Some(Reject)
    else if name == "ARCHIVE" then Some(Archive)
    else if name == "RESTORE" then Some(Restore)
    else None
  }

  /** Approval publishes and leaves the archive time alone; only restoring clears it. */
  function Moderated(p: Project, action: Action, now: nat): Project {
    var q := p.(requestedStatus := None, updatedAt := now);
    match action
    case Approve => q.(status := Approved, approvedAt := Some(now), publishedAt := Some(now))
    case Reject => q.(status := Rejected)
    case Archive => q.(status := Archived, archivedAt := Some(now))
    case Restore => q.(status := Approved, archivedAt := None)
  }

  datatype Decision = Decision(action: Action, at: nat)

  /** A project after decisions about it, one after the other. */
  function Decided(p: Project, decisions: seq<Decision>): Project {
    if decisions == [] then p
    else
      var last := decisions[|decisions| - 1];
      Moderated(Decided(p, decisions[..|decisions| - 1]), last.action, last.at)
  }

  /** The last time a project was archived or restored. */
  function LastArchiving(decisions: seq<Decision>): Option<Decision> {
    if decisions == [] then None
    else
      var last := decisions[|decisions| - 1];
      if last.action.Archive? || last.action.Restore? then Some(last) else LastArchiving(decisions[..|decisions| - 1])
  }

  /**
   The archive time tells the last archiving or restoring, not the status: a project that was archived
   and then approved is public and still has the time it was archived at.
   */
  lemma {:induction false} ArchiveTimeStays(p: Project, decisions: seq<Decision>)
    ensures Decided(p, decisions).archivedAt ==
      if LastArchiving(decisions).None? then p.archivedAt
      else if LastArchiving(decisions).value.action.Archive? then Some(LastArchiving(decisions).value.at) else None
    ensures decisions != [] ==>
      (Decided(p, decisions).status.Approved? <==> var a := decisions[|decisions| - 1].action; a.Approve? || a.Restore?)
  {
    if decisions != [] {
      ArchiveTimeStays(p, decisions[..|decisions| - 1]);
    }
  }

  /** Replaces one project's row and shows it. */
  function Put(t: Tables, id: Id, p: Project): Outcome {
    var t' := t.(projects := t.projects[id := p]);
    Outcome(t', Shown(ContractOf(t', id)))
  }

  function ModerateProject(t: Tables, action: Option<Action>, slug: string, now: nat): Outcome
    requires SlugsUnique(t.projects)
  {
    if action.None? then Outcome(t, Forbidden)
    else
      var id := FindBySlug(t.projects, slug);
      if id.None? then Outcome(t, NotFound)
      else Put(t, id.value, Moderated(t.projects[id.value], action.value, now))
  }

  const LOCK_TTL := 30 * 60_000

  /** Taking a lock again moves its end, not its beginning. */
  function Taken(lock: Option<Lock>, moderatorId: Id, now: nat): Lock {
    Lock(moderatorId, if lock.Some? then lock.value.createdAt else now, now + LOCK_TTL)
  }

  function LockProject(t: Tables, slug: string, moderatorId: Id, now: nat): Outcome
    requires SlugsUnique(t.projects)
  {
    var id := FindBySlug(t.projects, slug);
    if id.None? then Outcome(t, NotFound)
    else
      var p := t.projects[id.value];
      Put(t, id.value, p.(lock := Some(Taken(p.lock, moderatorId, now))))
  }

  function ReleaseLock(t: Tables, slug: string, moderatorId: Id): Outcome
    requires SlugsUnique(t.projects)
  {
    var id := FindBySlug(t.projects, slug);
    if id.None? then Outcome(t, NotFound)
    else
      var p := t.projects[id.value];
      if p.lock.Some? && p.lock.value.moderatorId != moderatorId then Outcome(t, Forbidden)
      else Put(t, id.value, p.(lock := None))
  }

  // ---------- the gallery ----------

  datatype ImageInput = ImageInput(
    displayUrl: string, rawUrl: string, title: Option<string>, description: Option<string>, featured: bool,
    sortOrder: Option<int>)

  predicate UrlsGiven(input: ImageInput) {
    Trim(input.displayUrl) != [] && Trim(input.rawUrl) != []
  }

  function ImageFrom(input: ImageInput, sortOrder: int, createdAt: nat): Image {
    Image(Trim(input.rawUrl), Trim(input.displayUrl), OptionText(input.title), OptionText(input.description),
          input.featured, sortOrder, createdAt)
  }

  function AddImage(t: Tables, slug: string, input: ImageInput, userId: Id, imageId: Id, now: nat): Outcome
    requires SlugsUnique(t.projects)
  {
    var id := FindManaged(t, slug, userId);
    if id.None? then Outcome(t, NotFound)
    else if !UrlsGiven(input) then Outcome(t, BadRequest)
    else
      var p := t.projects[id.value];
      var image := ImageFrom(input, if input.sortOrder.Some? then input.sortOrder.value else 0, now);
      Put(t, id.value, p.(gallery := p.gallery[imageId := image]))
  }

  /** Images are found by their own id, in a project whose details the user may change. */
  predicate ManagedImage(projects: map<Id, Project>, imageId: Id, userId: Id, id: Id) {
    HasImage(projects, imageId, id) && ManagesDetails(projects[id], userId)
  }

  function FindManagedImage(projects: map<Id, Project>, imageId: Id, userId: Id): (r: Option<Id>)
    requires ImagesUnique(projects)
    ensures r.Some? ==> ManagedImage(projects, imageId, userId, r.value)
    ensures r.None? ==> forall id :: !ManagedImage(projects, imageId, userId, id)
  {
    if exists id :: id in projects && ManagedImage(projects, imageId, userId, id) then
      var id :| id in projects && ManagedImage(projects, imageId, userId, id);
      Some(id)
    else None
  }

  function UpdateImage(t: Tables, imageId: Id, input: ImageInput, userId: Id): Outcome
    requires ImagesUnique(t.projects)
  {
    var id := FindManagedImage(t.projects, imageId, userId);
    if id.None? then Outcome(t, NotFound)
    else if !UrlsGiven(input) then Outcome(t, BadRequest)
    else
      var p := t.projects[id.value];
      var was := p.gallery[imageId];
      var sortOrder := if input.sortOrder.Some? then input.sortOrder.value else was.sortOrder;
      var image := ImageFrom(input, sortOrder, was.createdAt);
      Put(t, id.value, p.(gallery := p.gallery[imageId := image]))
  }

  function RemoveImage(t: Tables, imageId: Id, userId: Id): Outcome
    requires ImagesUnique(t.projects)
  {
    var id := FindManagedImage(t.projects, imageId, userId);
    if id.None? then Outcome(t, NotFound)
    else
      var p := t.projects[id.value];
      Put(t, id.value, p.(gallery := p.gallery - {imageId}))
  }

  // ---------- following and downloading ----------

  function UpdateFollow(t: Tables, slug: string, userId: Id, following: bool, now: nat): Outcome
    requires SlugsUnique(t.projects)
  {
    var id := FindBySlug(t.projects, slug);
    if id.None? || !IsApproved(t.projects, id.value) then Outcome(t, NotFound)
    else
      var p := t.projects[id.value];
      var follows := if following then p.follows + {userId} else p.follows - {userId};
      Outcome(t.(projects := t.projects[id.value := p.(follows := follows, followers := |follows|, updatedAt := now)]),
              Following(|follows|))
  }

  /** A file can be downloaded when its version and project are approved and its latest scan found nothing. */
  predicate Downloadable(t: Tables, fileId: Id) {
    fileId in t.files && t.files[fileId].latestScan == Some(Scan(true, true))
    && t.files[fileId].versionId in t.versions && t.versions[t.files[fileId].versionId].status.Approved?
    && IsApproved(t.projects, t.versions[t.files[fileId].versionId].projectId)
  }

  function Downloaded(p: Project, versionId: Id, now: nat): Project {
    p.(downloads := p.downloads + 1, downloadEvents := p.downloadEvents + [Some(versionId)], updatedAt := now)
  }

  function PrepareFileDownload(t: Tables, fileId: Id, now: nat): Outcome {
    if !Downloadable(t, fileId) then Outcome(t, NotFound)
    else
      var v := t.files[fileId].versionId;
      var version := t.versions[v];
      var p := t.projects[version.projectId];
      Outcome(
        t.(projects := t.projects[version.projectId := Downloaded(p, v, now)],
           versions := t.versions[v := version.(downloads := version.downloads + 1)]),
        Download(t.files[fileId].url, p.downloads + 1))
  }

  // ---------- versions, files and organizations, as other services change them ----------

  function Released(event: Option<Id>, versionId: Id): Option<Id> {
    if event == Some(versionId) then None else event
  }

  /** The download events of a deleted version stay, without it. */
  function ReleasedAll(events: seq<Option<Id>>, versionId: Id): (r: seq<Option<Id>>)
    ensures |r| == |events|
    ensures forall i :: 0 <= i < |r| ==> r[i] == Released(events[i], versionId)
  {
    seq(|events|, i requires 0 <= i < |events| => Released(events[i], versionId))
  }

  function DeleteVersion(t: Tables, versionId: Id): Tables
    requires versionId in t.versions && t.versions[versionId].projectId in t.projects
  {
    var id := t.versions[versionId].projectId;
    var p := t.projects[id];
    t.(versions := t.versions - {versionId},
       projects := t.projects[id := p.(downloadEvents := ReleasedAll(p.downloadEvents, versionId))],
       files := map f | f in t.files && t.files[f].versionId != versionId :: t.files[f])
  }

  /** A project whose versions changed is marked as updated. */
  function Touched(t: Tables, id: Id, now: nat): Tables
    requires id in t.projects
  {
    t.(projects := t.projects[id := t.projects[id].(updatedAt := now)])
  }

  // ---------- releases ----------

  function FindVersion(versions: map<Id, Version>, projectId: Id, number: string): (r: Option<Id>)
    requires NumbersUnique(versions)
    ensures r.Some? ==> HasNumber(versions, projectId, number, r.value)
    ensures r.None? ==> forall v :: !HasNumber(versions, projectId, number, v)
  {
    if exists v :: v in versions && HasNumber(versions, projectId, number, v) then
      var v :| v in versions && HasNumber(versions, projectId, number, v);
      Some(v)
    else None
  }

  function PutVersion(t: Tables, versionId: Id, version: Version, now: nat): Outcome
    requires version.projectId in t.projects
  {
    Outcome(Touched(t.(versions := t.versions[versionId := version]), version.projectId, now), VersionShown(version))
  }

  datatype ReleaseInput = ReleaseInput(
    projectSlug: string, number: string, name: string, changelog: Option<string>, channel: Channel,
    gameVersions: Option<seq<string>>, loaders: Option<seq<string>>, files: seq<VersionFiles.FileInput>)

  /** Where release files must be, what scanning one finds (clean or not, or nothing), what game versions are called. */
  datatype Outside = Outside(
    parse: Storage.UrlParser, baseUrl: string, scan: string -> Option<bool>, isGameVersion: string -> bool)

  function NewVersion(projectId: Id, input: ReleaseInput, authorId: Id, isGameVersion: string -> bool): Version {
    var notes := Notes(
      Trim(input.name), OptionText(input.changelog), input.channel, false, 0,
      GameVersionsOf(OrEmpty(input.gameVersions), isGameVersion), LoadersOf(OrEmpty(input.loaders)));
    Version(projectId, Some(authorId), Trim(input.number), notes, PendingReview, Some(Approved), None, 0)
  }

  /** The first file that is not clean, or not scanned, in the order of the request. */
  function ScanError(files: seq<VersionFiles.FileInput>, scan: string -> Option<bool>): Option<Reply> {
    if files == [] then None
    else if scan(Trim(files[0].url)).None? then Some(Failed)
    else if !scan(Trim(files[0].url)).value then Some(BadRequest)
    else ScanError(files[1..], scan)
  }

  function FilesRefused(slug: string, input: ReleaseInput, around: Outside): Option<VersionFiles.Error> {
    VersionFiles.RequestError(
      VersionFiles.FilesOf(input.files, VersionFiles.Place(around.parse, around.baseUrl, slug)))
  }

  /** Why a release is not created, in the order of the checks. */
  function CreateVersionError(t: Tables, input: ReleaseInput, authorId: Id, around: Outside): (r: Option<Reply>)
    requires SlugsUnique(t.projects) && NumbersUnique(t.versions)
    ensures r.None? ==> FindBySlug(t.projects, input.projectSlug).Some?
  {
    if authorId !in t.verified then Some(Forbidden)
    else
      var id := FindBySlug(t.projects, input.projectSlug);
      if id.None? then Some(NotFound)
      else if !Manages(t.projects[id.value], authorId, ManageVersions) then Some(Forbidden)
      else if !IsApproved(t.projects, id.value) then Some(BadRequest)
      else if FilesRefused(input.projectSlug, input, around).Some? || Trim(input.number) == [] then Some(BadRequest)
      else if ScanError(input.files, around.scan).Some? then ScanError(input.files, around.scan)
      else if FindVersion(t.versions, id.value, Trim(input.number)).Some? then Some(BadRequest)
      else None
  }

  /** The rows of the files of a release, each with the scan that found it clean. */
  function StoredFiles(
    files: map<Id, File>, ids: seq<Id>, versionId: Id, inputs: seq<VersionFiles.FileInput>): map<Id, File>
    requires |ids| == |inputs|
  {
    if ids == [] then files
    else
      var n := |ids| - 1;
      StoredFiles(files, ids[..n], versionId, inputs[..n])
        [ids[n] := File(versionId, Trim(inputs[n].url), Some(Scan(true, true)))]
  }

  /** A release waits for review, and so do its files. */
  function CreateVersion(
    t: Tables, input: ReleaseInput, authorId: Id, versionId: Id, fileIds: seq<Id>, around: Outside, now: nat): Outcome
    requires SlugsUnique(t.projects) && NumbersUnique(t.versions) && |fileIds| == |input.files|
  {
    var error := CreateVersionError(t, input, authorId, around);
    if error.Some? then Outcome(t, error.value)
    else
      var id := FindBySlug(t.projects, input.projectSlug).value;
      PutVersion(t.(files := StoredFiles(t.files, fileIds, versionId, input.files)), versionId,
                 NewVersion(id, input, authorId, around.isGameVersion), now)
  }

  function ModeratedVersion(version: Version, action: Action, now: nat): Version {
    match action
    case Approve => version.(status := Approved, requestedStatus := None, publishedAt := Some(now))
    case Reject => version.(status := Rejected, requestedStatus := None)
    case Archive => version.(status := Archived, requestedStatus := None)
    case Restore => version.(status := PendingReview, requestedStatus := Some(Approved))
  }

  function ModerateVersion(t: Tables, action: Option<Action>, versionId: Id, now: nat): Outcome
    requires TablesInv(t)
  {
    if action.None? then Outcome(t, Forbidden)
    else if versionId !in t.versions then Outcome(t, NotFound)
    else
      assert VersionCounted(t.projects, versionId, t.versions[versionId]);
      PutVersion(t, versionId, ModeratedVersion(t.versions[versionId], action.value, now), now)
  }

  /** Why a user may not change a release. */
  function ManageVersionError(t: Tables, versionId: Id, userId: Id): (r: Option<Reply>)
    requires TablesInv(t)
    ensures r.Some? ==> r.value.NotFound? || r.value.Forbidden?
  {
    if versionId !in t.versions then Some(NotFound)
    else
      assert VersionCounted(t.projects, versionId, t.versions[versionId]);
      if !Manages(t.projects[t.versions[versionId].projectId], userId, ManageVersions) then Some(Forbidden)
      else None
  }

  /** Null is not checked, and becomes empty text. */
  predicate BlankGiven(patch: Patch) {
    patch.Value? && Given(patch) == []
  }

  predicate NumberFree(versions: map<Id, Version>, versionId: Id, projectId: Id, number: string)
    requires NumbersUnique(versions)
  {
    FindVersion(versions, projectId, number).None? || FindVersion(versions, projectId, number) == Some(versionId)
  }

  /** `statusGiven`: the input also asks for a status, which only moderation gives. */
  datatype VersionPatch = VersionPatch(
    statusGiven: bool, name: Patch, number: Patch, changelog: Patch, channel: Option<Channel>, featured: Option<bool>,
    sortOrder: Option<int>, gameVersions: Option<seq<string>>, loaders: Option<seq<string>>)

  function PatchedNotes(notes: Notes, input: VersionPatch, isGameVersion: string -> bool): Notes {
    Notes(
      PatchedText(input.name, notes.name), PatchedOption(input.changelog, notes.changelog),
      if input.channel.Some? then input.channel.value else notes.channel,
      if input.featured.Some? then input.featured.value else notes.featured,
      if input.sortOrder.Some? then input.sortOrder.value else notes.sortOrder,
      if input.gameVersions.Some? then GameVersionsOf(input.gameVersions.value, isGameVersion) else notes.gameVersions,
      if input.loaders.Some? then LoadersOf(input.loaders.value) else notes.loaders)
  }

  function PatchedVersion(version: Version, input: VersionPatch, isGameVersion: string -> bool): Version {
    version.(notes := PatchedNotes(version.notes, input, isGameVersion),
             number := PatchedText(input.number, version.number))
  }

  function UpdateVersionError(t: Tables, versionId: Id, input: VersionPatch, userId: Id): (r: Option<Reply>)
    requires TablesInv(t)
    ensures r.None? ==> versionId in t.versions && !BlankGiven(input.number)
    ensures r.Some? ==> !r.value.VersionShown?
  {
    if input.statusGiven || BlankGiven(input.name) || BlankGiven(input.number) then Some(BadRequest)
    else if ManageVersionError(t, versionId, userId).Some? then ManageVersionError(t, versionId, userId)
    else
      var version := t.versions[versionId];
      if !IsApproved(t.projects, version.projectId) then Some(BadRequest)
      else if NumberFree(t.versions, versionId, version.projectId, PatchedText(input.number, version.number)) then None
      else Some(Failed)
  }

  function UpdateVersion(
    t: Tables, versionId: Id, input: VersionPatch, userId: Id, isGameVersion: string -> bool, now: nat): Outcome
    requires TablesInv(t)
  {
    var error := UpdateVersionError(t, versionId, input, userId);
    if error.Some? then Outcome(t, error.value)
    else
      assert VersionCounted(t.projects, versionId, t.versions[versionId]);
      PutVersion(t, versionId, PatchedVersion(t.versions[versionId], input, isGameVersion), now)
  }

  function RemoveVersion(t: Tables, versionId: Id, userId: Id): Outcome
    requires TablesInv(t)
  {
    if ManageVersionError(t, versionId, userId).Some? then Outcome(t, ManageVersionError(t, versionId, userId).value)
    else
      assert VersionCounted(t.projects, versionId, t.versions[versionId]);
      Outcome(DeleteVersion(t, versionId), Deleted)
  }

  // ---------- organizations ----------

  predicate OwnsOrganization(t: Tables, organizationId: Id, userId: Id) {
    organizationId in t.organizations && t.organizations[organizationId].ownerId == userId
  }

  function LinkOrganization(t: Tables, id: Id, organizationId: Option<Id>, now: nat): Tables
    requires id in t.projects
  {
    t.(projects := t.projects[id := t.projects[id].(organizationId := organizationId, updatedAt := now)])
  }

  /** The project of a slug, if the user may change its settings. */
  function FindSettled(t: Tables, slug: string, userId: Id): (r: Option<Id>)
    requires SlugsUnique(t.projects)
    ensures r.Some? ==> r.value in t.projects
  {
    var id := FindBySlug(t.projects, slug);
    if id.Some? && Manages(t.projects[id.value], userId, ManageSettings) then id else None
  }

  /** Only the owner of the organization, who may also change the project's settings, links the two. */
  function AddToOrganization(t: Tables, organizationId: Id, slug: string, userId: Id, now: nat): Outcome
    requires SlugsUnique(t.projects)
  {
    var id := FindSettled(t, slug, userId);
    if organizationId == [] || slug == [] then Outcome(t, BadRequest)
    else if !OwnsOrganization(t, organizationId, userId) || id.None? then Outcome(t, NotFound)
    else Outcome(LinkOrganization(t, id.value, Some(organizationId), now), OrganizationShown(organizationId))
  }

  function RemoveFromOrganization(t: Tables, organizationId: Id, slug: string, userId: Id, now: nat): Outcome
    requires SlugsUnique(t.projects)
  {
    var id := FindSettled(t, slug, userId);
    if organizationId == [] || slug == [] then Outcome(t, BadRequest)
    else if !OwnsOrganization(t, organizationId, userId) || id.None?
            || t.projects[id.value].organizationId != Some(organizationId) then Outcome(t, NotFound)
    else Outcome(LinkOrganization(t, id.value, None, now), OrganizationShown(organizationId))
  }

  // ---------- what every call keeps ----------

  lemma {:induction false} NoneCounted(events: seq<Option<Id>>, v: Id)
    requires Some(v) !in events
    ensures CountVersion(events, v) == 0
  {
    if events != [] {
      NoneCounted(events[..|events| - 1], v);
    }
  }

  lemma {:induction false} ReleasedCount(events: seq<Option<Id>>, gone: Id, v: Id)
    requires v != gone
    ensures CountVersion(ReleasedAll(events, gone), v) == CountVersion(events, v)
  {
    if events != [] {
      var n := |events| - 1;
      ReleasedCount(events[..n], gone, v);
      assert ReleasedAll(events, gone)[..n] == ReleasedAll(events[..n], gone);
    }
  }

  lemma NamesKept(projects: map<Id, Project>, after: map<Id, Project>)
    requires SlugsUnique(projects) && ImagesUnique(projects) && after.Keys <= projects.Keys
    requires forall a :: a in after ==> after[a].slug == projects[a].slug && after[a].gallery == projects[a].gallery
    ensures SlugsUnique(after) && ImagesUnique(after)
  {
    forall slug, a, b | HasSlug(after, slug, a) && HasSlug(after, slug, b) ensures a == b {
      assert HasSlug(projects, slug, a) && HasSlug(projects, slug, b);
    }
    forall image, a, b | HasImage(after, image, a) && HasImage(after, image, b) ensures a == b {
      assert HasImage(projects, image, a) && HasImage(projects, image, b);
    }
  }

  predicate Uncounted(p: Project) {
    p.followers == 0 && p.follows == {} && p.downloads == 0 && p.downloadEvents == [] && p.gallery == map[]
  }

  lemma NamesPut(projects: map<Id, Project>, id: Id, p: Project)
    requires SlugsUnique(projects) && ImagesUnique(projects) && id in projects && projects[id].slug == p.slug
    requires forall image :: image in p.gallery && image !in projects[id].gallery ==>
      forall a :: !HasImage(projects, image, a)
    ensures SlugsUnique(projects[id := p]) && ImagesUnique(projects[id := p])
  {
    var after := projects[id := p];
    forall slug, a, b | HasSlug(after, slug, a) && HasSlug(after, slug, b) ensures a == b {
      assert HasSlug(projects, slug, a) && HasSlug(projects, slug, b);
    }
    forall image, a, b | HasImage(after, image, a) && HasImage(after, image, b) ensures a == b {
      assert HasImage(projects, image, a) || a == id;
      assert HasImage(projects, image, b) || b == id;
    }
  }

  lemma NamesNew(projects: map<Id, Project>, id: Id, p: Project)
    requires SlugsUnique(projects) && ImagesUnique(projects) && id !in projects && p.gallery == map[]
    requires forall a :: !HasSlug(projects, p.slug, a)
    ensures SlugsUnique(projects[id := p]) && ImagesUnique(projects[id := p])
  {
    var after := projects[id := p];
    forall slug, a, b | HasSlug(after, slug, a) && HasSlug(after, slug, b) ensures a == b {
      assert HasSlug(projects, slug, a) || (a == id && slug == p.slug);
      assert HasSlug(projects, slug, b) || (b == id && slug == p.slug);
    }
    forall image, a, b | HasImage(after, image, a) && HasImage(after, image, b) ensures a == b {
      assert HasImage(projects, image, a) && HasImage(projects, image, b);
    }
  }

  lemma CountedPut(projects: map<Id, Project>, id: Id, p: Project)
    requires ProjectsCounted(projects) && ProjectCounted(p)
    ensures ProjectsCounted(projects[id := p])
  {
    var after := projects[id := p];
    forall a | a in after ensures ProjectCounted(after[a]) {
      assert a != id ==> ProjectCounted(projects[a]);
    }
  }

  /** Two rows with the same slug, counters and rows counted. */
  predicate SameCounted(p: Project, q: Project) {
    p.slug == q.slug && p.downloads == q.downloads && p.downloadEvents == q.downloadEvents
  }

  /** A row of one project replaced, its events and downloads kept. */
  lemma PutKeeps(t: Tables, t': Tables, id: Id, p: Project)
    requires TablesInv(t) && id in t.projects && SameCounted(t.projects[id], p) && p.followers == |p.follows|
    requires t'.projects == t.projects[id := p] && t'.versions == t.versions && t'.files == t.files
    requires forall image :: image in p.gallery && image !in t.projects[id].gallery ==>
      forall a :: !HasImage(t.projects, image, a)
    ensures TablesInv(t')
  {
    NamesPut(t.projects, id, p);
    assert ProjectCounted(t.projects[id]);
    CountedPut(t.projects, id, p);
    EventsKept(t.projects, t'.projects, t.versions, id, p);
    forall v | v in t.versions ensures VersionCounted(t'.projects, v, t.versions[v]) {
      assert VersionCounted(t.projects, v, t.versions[v]);
    }
  }

  lemma EventsKept(projects: map<Id, Project>, after: map<Id, Project>, versions: map<Id, Version>, id: Id, p: Project)
    requires EventsPlaced(projects, versions) && id in projects && projects[id].downloadEvents == p.downloadEvents
    requires after == projects[id := p]
    ensures EventsPlaced(after, versions)
  {
    forall a, i | a in after && 0 <= i < |after[a].downloadEvents|
      ensures EventPlaced(versions, a, after[a].downloadEvents[i])
    {
      assert after[a].downloadEvents == projects[a].downloadEvents;
      assert EventPlaced(versions, a, projects[a].downloadEvents[i]);
    }
  }

  /** A new project with a slug no other has, and nothing counted yet. */
  lemma NewKeeps(t: Tables, t': Tables, id: Id, p: Project)
    requires TablesInv(t) && id !in t.projects && forall a :: !HasSlug(t.projects, p.slug, a)
    requires Uncounted(p)
    requires t'.projects == t.projects[id := p] && t'.versions == t.versions && t'.files == t.files
    ensures TablesInv(t')
  {
    NamesNew(t.projects, id, p);
    CountedPut(t.projects, id, p);
    forall v | v in t.versions ensures VersionCounted(t'.projects, v, t.versions[v]) {
      assert VersionCounted(t.projects, v, t.versions[v]);
    }
    forall a, i | a in t'.projects && 0 <= i < |t'.projects[a].downloadEvents|
      ensures EventPlaced(t.versions, a, t'.projects[a].downloadEvents[i])
    {
      assert EventPlaced(t.versions, a, t.projects[a].downloadEvents[i]);
    }
  }

  lemma DeleteKeeps(t: Tables, id: Id)
    requires TablesInv(t) && id in t.projects
    ensures TablesInv(WithoutProject(t, id))
  {
    var t' := WithoutProject(t, id);
    NamesKept(t.projects, t'.projects);
    NumbersKept(t.versions, t'.versions);
    forall a | a in t'.projects ensures ProjectCounted(t'.projects[a]) {
      assert ProjectCounted(t.projects[a]);
    }
    forall v | v in t'.versions ensures VersionCounted(t'.projects, v, t'.versions[v]) {
      assert VersionCounted(t.projects, v, t.versions[v]);
    }
    forall a, i | a in t'.projects && 0 <= i < |t'.projects[a].downloadEvents|
      ensures EventPlaced(t'.versions, a, t'.projects[a].downloadEvents[i])
    {
      assert EventPlaced(t.versions, a, t.projects[a].downloadEvents[i]);
    }
  }

  lemma NumbersKept(versions: map<Id, Version>, after: map<Id, Version>)
    requires NumbersUnique(versions) && after.Keys <= versions.Keys
    requires forall v :: v in after ==>
      after[v].projectId == versions[v].projectId && after[v].number == versions[v].number
    ensures NumbersUnique(after)
  {
    forall projectId, number, a, b
      | HasNumber(after, projectId, number, a) && HasNumber(after, projectId, number, b) ensures a == b
    {
      assert HasNumber(versions, projectId, number, a) && HasNumber(versions, projectId, number, b);
    }
  }

  lemma NumbersPut(versions: map<Id, Version>, versionId: Id, version: Version)
    requires NumbersUnique(versions) && NumberFree(versions, versionId, version.projectId, version.number)
    ensures NumbersUnique(versions[versionId := version])
  {
    var after := versions[versionId := version];
    forall projectId, number, a, b
      | HasNumber(after, projectId, number, a) && HasNumber(after, projectId, number, b) ensures a == b
    {
      assert HasNumber(versions, projectId, number, a) || a == versionId;
      assert HasNumber(versions, projectId, number, b) || b == versionId;
    }
  }

  lemma PatchedBlank(version: Version, input: VersionPatch, isGameVersion: string -> bool)
    requires version.number != [] && !BlankGiven(input.number)
    ensures PatchedVersion(version, input, isGameVersion).number == [] <==> input.number.Null?
  {
  }

  /** What must hold before an update for it to take the number away. */
  ghost predicate NumberAtRisk(t: Tables, versionId: Id, input: VersionPatch, userId: Id)
    requires versionId in t.versions && t.versions[versionId].projectId in t.projects
  {
    var id := t.versions[versionId].projectId;
    input.number.Null? && !input.statusGiven && !BlankGiven(input.name)
    && Manages(t.projects[id], userId, ManageVersions) && IsApproved(t.projects, id)
    && forall v :: !HasNumber(t.versions, id, [], v)
  }

  lemma RiskIsNoError(t: Tables, versionId: Id, input: VersionPatch, userId: Id)
    requires TablesInv(t) && versionId in t.versions && t.versions[versionId].number != []
    ensures t.versions[versionId].projectId in t.projects
    ensures UpdateVersionError(t, versionId, input, userId).None? && input.number.Null? <==>
      NumberAtRisk(t, versionId, input, userId)
  {
    var version := t.versions[versionId];
    assert VersionCounted(t.projects, versionId, version);
    assert !HasNumber(t.versions, version.projectId, [], versionId);
    if input.number.Null? {
      assert PatchedText(input.number, version.number) == [];
      assert NumberFree(t.versions, versionId, version.projectId, []) <==>
        forall v :: !HasNumber(t.versions, version.projectId, [], v);
    }
  }

  /**
   A number is checked when it is text and not when it is null: an update leaves a release without one exactly
   when it gives null, is let through, and no other release of the project is without one already.
   */
  lemma NumberLost(
    t: Tables, versionId: Id, input: VersionPatch, userId: Id, isGameVersion: string -> bool, now: nat)
    requires TablesInv(t) && versionId in t.versions && t.versions[versionId].number != []
    ensures var after := UpdateVersion(t, versionId, input, userId, isGameVersion, now).tables;
      versionId in after.versions && t.versions[versionId].projectId in t.projects
      && (after.versions[versionId].number == [] <==> NumberAtRisk(t, versionId, input, userId))
  {
    RiskIsNoError(t, versionId, input, userId);
    if UpdateVersionError(t, versionId, input, userId).None? {
      PatchedBlank(t.versions[versionId], input, isGameVersion);
    }
  }

  /** One approved project of its owner, with one release nobody has downloaded. */
  function OneRelease(id: Id, p: Project, versionId: Id, version: Version): Tables {
    Tables(map[id := p], map[], map[], map[versionId := version], map[], {})
  }

  lemma OneReleaseFits(id: Id, p: Project, versionId: Id, version: Version)
    requires Uncounted(p) && version.projectId == id && version.downloads == 0
    ensures TablesInv(OneRelease(id, p, versionId, version))
  {
  }

  /** On such tables it happens: the owner of a new, approved project takes the number of its release away. */
  lemma NumberLostAt(
    id: Id, input: CreateInput, slug: string, ownerId: Id, versionId: Id, version: Version,
    isGameVersion: string -> bool, now: nat)
    requires version.projectId == id && version.downloads == 0 && version.number != []
    ensures var p := Moderated(NewProject(input, slug, ownerId, isGameVersion, now), Approve, now);
      var t, patch := OneRelease(id, p, versionId, version),
                      VersionPatch(false, Unset, Null, Unset, None, None, None, None, None);
      TablesInv(t)
      && var after := UpdateVersion(t, versionId, patch, ownerId, isGameVersion, now);
         after.reply.VersionShown? && after.reply.version.number == []
         && after.tables.versions == map[versionId := after.reply.version]
  {
    var p := Moderated(NewProject(input, slug, ownerId, isGameVersion, now), Approve, now);
    var t, patch := OneRelease(id, p, versionId, version),
                    VersionPatch(false, Unset, Null, Unset, None, None, None, None, None);
    NewShown(input, slug, ownerId, isGameVersion, now);
    OneReleaseFits(id, p, versionId, version);
    assert Manages(p, ownerId, ManageVersions);
    RiskIsNoError(t, versionId, patch, ownerId);
    PatchedBlank(version, patch, isGameVersion);
  }

  lemma CountAppended(events: seq<Option<Id>>, versionId: Id, v: Id)
    ensures CountVersion(events + [Some(versionId)], v) == CountVersion(events, v) + (if v == versionId then 1 else 0)
  {
    assert (events + [Some(versionId)])[..|events|] == events;
  }

  lemma DownloadCounted(t: Tables, t': Tables, v: Id, id: Id)
    requires VersionsCounted(t.projects, t.versions) && v in t.versions && t.versions[v].projectId == id
      && id in t.projects
    requires t'.projects.Keys == t.projects.Keys
    requires t'.versions == t.versions[v := t.versions[v].(downloads := t.versions[v].downloads + 1)]
    requires t'.projects[id].downloadEvents == t.projects[id].downloadEvents + [Some(v)]
    requires forall a :: a in t.projects && a != id ==> t'.projects[a].downloadEvents == t.projects[a].downloadEvents
    ensures VersionsCounted(t'.projects, t'.versions)
  {
    forall w | w in t'.versions ensures VersionCounted(t'.projects, w, t'.versions[w]) {
      assert VersionCounted(t.projects, w, t.versions[w]);
      CountAppended(t.projects[id].downloadEvents, v, w);
    }
  }

  lemma DownloadKeepsRows(t: Tables, t': Tables, v: Id, id: Id, now: nat)
    requires TablesInv(t) && v in t.versions && t.versions[v].projectId == id && id in t.projects
    requires t'.projects == t.projects[id := Downloaded(t.projects[id], v, now)] && t'.files == t.files
    requires t'.versions == t.versions[v := t.versions[v].(downloads := t.versions[v].downloads + 1)]
    ensures TablesInv(t')
  {
    NamesKept(t.projects, t'.projects);
    NumbersKept(t.versions, t'.versions);
    DownloadCounted(t, t', v, id);
    DownloadPlaced(t, t', v, id);
    assert ProjectCounted(t.projects[id]);
    CountedPut(t.projects, id, t'.projects[id]);
  }

  /** Counting a download keeps every counter right, of the project and of each of its versions. */
  lemma DownloadKeeps(t: Tables, fileId: Id, now: nat)
    requires TablesInv(t)
    ensures TablesInv(PrepareFileDownload(t, fileId, now).tables)
  {
    if Downloadable(t, fileId) {
      var v := t.files[fileId].versionId;
      DownloadKeepsRows(t, PrepareFileDownload(t, fileId, now).tables, v, t.versions[v].projectId, now);
    }
  }

  lemma DownloadPlaced(t: Tables, t': Tables, v: Id, id: Id)
    requires EventsPlaced(t.projects, t.versions) && v in t.versions && t.versions[v].projectId == id
      && id in t.projects
    requires t'.projects.Keys == t.projects.Keys && t'.versions.Keys == t.versions.Keys
    requires t'.projects[id].downloadEvents == t.projects[id].downloadEvents + [Some(v)]
    requires forall a :: a in t.projects && a != id ==> t'.projects[a].downloadEvents == t.projects[a].downloadEvents
    requires forall w :: w in t.versions ==> t'.versions[w].projectId == t.versions[w].projectId
    ensures EventsPlaced(t'.projects, t'.versions)
  {
    forall a, i | a in t'.projects && 0 <= i < |t'.projects[a].downloadEvents|
      ensures EventPlaced(t'.versions, a, t'.projects[a].downloadEvents[i])
    {
      if i < |t.projects[a].downloadEvents| {
        assert EventPlaced(t.versions, a, t.projects[a].downloadEvents[i]);
      }
    }
  }

  lemma DeleteVersionKeeps(t: Tables, versionId: Id)
    requires TablesInv(t) && versionId in t.versions && t.versions[versionId].projectId in t.projects
    ensures TablesInv(DeleteVersion(t, versionId))
  {
    var t' := DeleteVersion(t, versionId);
    var id := t.versions[versionId].projectId;
    NamesKept(t.projects, t'.projects);
    NumbersKept(t.versions, t'.versions);
    assert ProjectCounted(t.projects[id]);
    CountedPut(t.projects, id, t'.projects[id]);
    forall v | v in t'.versions ensures VersionCounted(t'.projects, v, t'.versions[v]) {
      assert VersionCounted(t.projects, v, t.versions[v]);
      ReleasedCount(t.projects[id].downloadEvents, versionId, v);
    }
    forall a, i | a in t'.projects && 0 <= i < |t'.projects[a].downloadEvents|
      ensures EventPlaced(t'.versions, a, t'.projects[a].downloadEvents[i])
    {
      assert EventPlaced(t.versions, a, t.projects[a].downloadEvents[i]);
    }
  }

  /** A new version has no downloads, and nothing has been downloaded from it. */
  lemma AddVersionKeeps(t: Tables, t': Tables, versionId: Id, version: Version)
    requires TablesInv(t) && versionId !in t.versions && version.projectId in t.projects && version.downloads == 0
    requires NumberFree(t.versions, versionId, version.projectId, version.number)
    requires t' == t.(versions := t.versions[versionId := version])
    ensures TablesInv(t')
  {
    NumbersPut(t.versions, versionId, version);
    forall a, i | a in t.projects && 0 <= i < |t.projects[a].downloadEvents|
      ensures EventPlaced(t'.versions, a, t.projects[a].downloadEvents[i])
      ensures t.projects[a].downloadEvents[i] != Some(versionId)
    {
      assert EventPlaced(t.versions, a, t.projects[a].downloadEvents[i]);
    }
    NoneCounted(t.projects[version.projectId].downloadEvents, versionId);
    forall v | v in t'.versions ensures VersionCounted(t'.projects, v, t'.versions[v]) {
      assert v != versionId ==> VersionCounted(t.projects, v, t.versions[v]);
    }
  }

  lemma {:induction false} FilesStored(t: Tables, ids: seq<Id>, versionId: Id, inputs: seq<VersionFiles.FileInput>)
    requires FilesPlaced(t) && versionId in t.versions && |ids| == |inputs|
    ensures FilesPlaced(t.(files := StoredFiles(t.files, ids, versionId, inputs)))
  {
    if ids != [] {
      FilesStored(t, ids[..|ids| - 1], versionId, inputs[..|ids| - 1]);
    }
  }

  /** A version replaced by one of the same project with as many downloads and a number no other has. */
  lemma VersionPutKeeps(t: Tables, versionId: Id, version: Version)
    requires TablesInv(t) && versionId in t.versions && version.projectId == t.versions[versionId].projectId
    requires version.downloads == t.versions[versionId].downloads
    requires NumberFree(t.versions, versionId, version.projectId, version.number)
    ensures TablesInv(t.(versions := t.versions[versionId := version]))
  {
    var t' := t.(versions := t.versions[versionId := version]);
    NumbersPut(t.versions, versionId, version);
    forall a, i | a in t.projects && 0 <= i < |t.projects[a].downloadEvents|
      ensures EventPlaced(t'.versions, a, t.projects[a].downloadEvents[i])
    {
      assert EventPlaced(t.versions, a, t.projects[a].downloadEvents[i]);
    }
    forall v | v in t'.versions ensures VersionCounted(t'.projects, v, t'.versions[v]) {
      assert VersionCounted(t.projects, v, t.versions[v]);
    }
  }

  lemma OwnNumberFree(versions: map<Id, Version>, versionId: Id)
    requires NumbersUnique(versions) && versionId in versions
    ensures NumberFree(versions, versionId, versions[versionId].projectId, versions[versionId].number)
  {
    assert HasNumber(versions, versions[versionId].projectId, versions[versionId].number, versionId);
  }

  /** The number of follow rows and of download events shown to the public, in every contract. */
  lemma ContractsCount(t: Tables, slug: string)
    requires TablesInv(t) && FindProject(t, slug).Some?
    ensures var c := FindProject(t, slug).value;
      c.id in t.projects && c.slug == slug && c.status == Approved
      && c.followers == |t.projects[c.id].follows| && c.downloads == |t.projects[c.id].downloadEvents|
  {
    assert ProjectCounted(t.projects[FindProject(t, slug).value.id]);
  }
}
