/** Projects as they are stored, as the catalog shows them, and as the search index holds them. */
module ReadModel {
  import opened Text

  type Id = string

  datatype Kind = Mod | Modpack | ResourcePack | Shader | Plugin | Datapack

  datatype Status = Draft | PendingReview | Approved | Rejected | Archived

  datatype Loader = Fabric | Forge | Neoforge | Quilt

  datatype LinkKind = SourceLink | IssuesLink | WikiLink | DiscordLink | DonationLink | WebsiteLink | OtherLink

  datatype Link = Link(kind: LinkKind, caption: Option<string>, url: string)

  datatype Image = Image(
    rawUrl: string, displayUrl: string, title: Option<string>, description: Option<string>, featured: bool,
    sortOrder: int, createdAt: nat)

  datatype Lock = Lock(moderatorId: Id, createdAt: nat, expiresAt: nat)

  datatype Permission = ManageDetails | ManageVersions | ManageMembers | ManageSettings | ViewAnalytics

  datatype Member = Member(isOwner: bool, accepted: bool, permissions: set<Permission>)

  /** The columns of a project and the rows of other tables that belong to it and go with it. */
  datatype Project = Project(
    slug: string, title: string, summary: string, description: string, kind: Kind,
    status: Status, requestedStatus: Option<Status>, licenseKey: string, organizationId: Option<Id>, ownerId: Id,
    iconUrl: Option<string>, color: Option<string>, sourceUrl: Option<string>, issuesUrl: Option<string>,
    wikiUrl: Option<string>, discordUrl: Option<string>, downloads: nat, followers: nat,
    publishedAt: Option<nat>, approvedAt: Option<nat>, queuedAt: Option<nat>, archivedAt: Option<nat>, updatedAt: nat,
    categories: seq<string>, gameVersions: seq<string>, loaders: seq<Loader>, links: seq<Link>,
    gallery: map<Id, Image>, lock: Option<Lock>, members: map<Id, Member>,
    follows: set<Id>, downloadEvents: seq<Option<Id>>)

  /** What a contract shows that comes from rows other services write, and the time of the last update. */
  datatype Ambient = Ambient(
    licenseName: string, licenseUrl: Option<string>, organization: Option<string>, ownerId: Id, updatedAt: nat)

  datatype Contract = Contract(
    id: Id, slug: string, title: string, summary: string, body: string, kind: Kind,
    status: Status, requestedStatus: Option<Status>, licenseId: string,
    iconUrl: Option<string>, color: Option<string>, sourceUrl: Option<string>, issuesUrl: Option<string>,
    wikiUrl: Option<string>, discordUrl: Option<string>, downloads: nat, followers: nat,
    publishedAt: Option<nat>, approvedAt: Option<nat>, queuedAt: Option<nat>, archivedAt: Option<nat>,
    categories: seq<string>, gameVersions: seq<string>, loaders: seq<Loader>, links: seq<Link>,
    gallery: map<Id, Image>, moderationLock: Option<Lock>, ambient: Ambient)

  function DirectLink(kind: LinkKind, caption: string, url: Option<string>): seq<Link> {
    if url.Some? then [Link(kind, Some(caption), url.value)] else []
  }

  function AllLinks(p: Project): seq<Link> {
    DirectLink(SourceLink, "Source", p.sourceUrl) + DirectLink(IssuesLink, "Issues", p.issuesUrl)
    + DirectLink(WikiLink, "Wiki", p.wikiUrl) + DirectLink(DiscordLink, "Discord", p.discordUrl) + p.links
  }

  function RowToContract(id: Id, p: Project, ambient: Ambient): Contract {
    Contract(
      id, p.slug, p.title, p.summary, p.description, p.kind, p.status, p.requestedStatus, p.licenseKey,
      p.iconUrl, p.color, p.sourceUrl, p.issuesUrl, p.wikiUrl, p.discordUrl, p.downloads, p.followers,
      p.publishedAt, p.approvedAt, p.queuedAt, p.archivedAt,
      p.categories, p.gameVersions, p.loaders, AllLinks(p), p.gallery, p.lock, ambient)
  }

  /** Equal in everything but the ambient part. */
  predicate SameScope(a: Contract, b: Contract) {
    a.(ambient := b.ambient) == b
  }

  // ---------- the search document ----------

  datatype Document = Document(
    categories: seq<string>, color: Option<string>, description: string, downloads: nat, followers: nat,
    gameVersions: seq<string>, iconUrl: Option<string>, id: Id, kind: Kind, licenseKey: Option<string>,
    loaders: seq<string>, slug: string, summary: string, tags: seq<string>, title: string, titleSort: string,
    updatedAt: nat)

  function KindName(kind: Kind): string {
    match kind
    case Mod => "MOD"
    case Modpack => "MODPACK"
    case ResourcePack => "RESOURCE_PACK"
    case Shader => "SHADER"
    case Plugin => "PLUGIN"
    case Datapack => "DATAPACK"
  }

  function LoaderName(loader: Loader): string {
    match loader
    case Fabric => "FABRIC"
    case Forge => "FORGE"
    case Neoforge => "NEOFORGE"
    case Quilt => "QUILT"
  }

  function LowerLoaders(loaders: seq<Loader>): (r: seq<string>)
    ensures |r| == |loaders| && forall i :: 0 <= i < |r| ==> r[i] == Lower(LoaderName(loaders[i]))
  {
    seq(|loaders|, i requires 0 <= i < |loaders| => Lower(LoaderName(loaders[i])))
  }

  function NormalizedLicenseKey(licenseKey: string): Option<string> {
    var normalized := Lower(Trim(licenseKey));
    if normalized == [] || normalized == "unknown" then None else Some(normalized)
  }

  const KIND_TAG := "kind:"
  const CATEGORY_TAG := "category:"
  const GAME_VERSION_TAG := "game-version:"
  const LICENSE_TAG := "license:"
  const LOADER_TAG := "loader:"

  function Prefixed(prefix: string, values: seq<string>): (r: seq<string>)
    ensures |r| == |values| && forall i :: 0 <= i < |r| ==> r[i] == prefix + values[i]
  {
    seq(|values|, i requires 0 <= i < |values| => prefix + values[i])
  }

  function TagsOf(
    kind: string, categories: seq<string>, gameVersions: seq<string>, licenseKey: Option<string>, loaders: seq<string>
  ): seq<string> {
    [KIND_TAG + kind] + Prefixed(CATEGORY_TAG, categories) + Prefixed(GAME_VERSION_TAG, gameVersions)
    + (if licenseKey.Some? then [LICENSE_TAG + licenseKey.value] else []) + Prefixed(LOADER_TAG, loaders)
  }

  function ProjectSearchTags(c: Contract): seq<string> {
    TagsOf(KindName(c.kind), c.categories, c.gameVersions, NormalizedLicenseKey(c.licenseId), LowerLoaders(c.loaders))
  }

  function ContractToSearch(c: Contract): Document {
    Document(
      c.categories, c.color, c.body, c.downloads, c.followers, c.gameVersions, c.iconUrl, c.id, c.kind,
      NormalizedLicenseKey(c.licenseId), LowerLoaders(c.loaders), c.slug, c.summary, ProjectSearchTags(c), c.title,
      Lower(c.title), c.ambient.updatedAt)
  }

  /** Equal in everything but the time of the last update. */
  predicate SameDocument(a: Document, b: Document) {
    a.(updatedAt := b.updatedAt) == b
  }

  /** The document shows nothing ambient but the time of the last update. */
  lemma DocumentsAgree(a: Contract, b: Contract)
    requires SameScope(a, b)
    ensures SameDocument(ContractToSearch(a), ContractToSearch(b))
  {
  }

  // ---------- filtering by tags ----------

  /** The query's tags, then what its loader and game version ask for. */
  datatype Query = Query(tags: seq<string>, loader: Option<string>, gameVersion: Option<string>)

  function SearchTagsFromQuery(q: Query): seq<string> {
    q.tags + (if q.loader.Some? then [LOADER_TAG + q.loader.value] else [])
    + (if q.gameVersion.Some? then [GAME_VERSION_TAG + q.gameVersion.value] else [])
  }

  function NormalizeSearchTags(tags: seq<string>): seq<string> {
    if tags == [] then []
    else (if Trim(tags[0]) == [] then [] else [Trim(tags[0])]) + NormalizeSearchTags(tags[1..])
  }

  /** Every filter tag is one of the document's tags. */
  predicate PassesFilter(d: Document, filter: seq<string>) {
    forall tag :: tag in filter ==> tag in d.tags
  }

  function After(prefix: string, tag: string): Option<string> {
    if StartsWith(tag, prefix) then Some(tag[|prefix|..]) else None
  }

  /** What a tag means: the field its prefix names holds the rest of it. */
  predicate Means(tag: string, d: Document) {
    || After(KIND_TAG, tag) == Some(KindName(d.kind))
    || (After(CATEGORY_TAG, tag).Some? && After(CATEGORY_TAG, tag).value in d.categories)
    || (After(GAME_VERSION_TAG, tag).Some? && After(GAME_VERSION_TAG, tag).value in d.gameVersions)
    || (After(LICENSE_TAG, tag).Some? && After(LICENSE_TAG, tag) == d.licenseKey)
    || (After(LOADER_TAG, tag).Some? && After(LOADER_TAG, tag).value in d.loaders)
  }

  lemma AfterPrefix(prefix: string, value: string)
    ensures After(prefix, prefix + value) == Some(value)
  {
  }

  lemma AfterTells(prefix: string, tag: string)
    ensures After(prefix, tag).Some? ==> tag == prefix + After(prefix, tag).value
  {
  }

  lemma PrefixedHolds(prefix: string, values: seq<string>, tag: string)
    ensures tag in Prefixed(prefix, values) <==> After(prefix, tag).Some? && After(prefix, tag).value in values
  {
    var r := Prefixed(prefix, values);
    AfterTells(prefix, tag);
    if tag in r {
      var i :| 0 <= i < |r| && r[i] == tag;
      AfterPrefix(prefix, values[i]);
      assert values[i] in values;
    }
    if After(prefix, tag).Some? && After(prefix, tag).value in values {
      var i :| 0 <= i < |values| && values[i] == After(prefix, tag).value;
      assert r[i] == tag;
    }
  }

  /** A tag has at most one of the five prefixes, so no field is ever mistaken for another. */
  lemma OnePrefix(tag: string)
    ensures After(KIND_TAG, tag).Some? ==>
      After(CATEGORY_TAG, tag).None? && After(GAME_VERSION_TAG, tag).None? && After(LICENSE_TAG, tag).None?
      && After(LOADER_TAG, tag).None?
    ensures After(CATEGORY_TAG, tag).Some? ==>
      After(GAME_VERSION_TAG, tag).None? && After(LICENSE_TAG, tag).None? && After(LOADER_TAG, tag).None?
    ensures After(GAME_VERSION_TAG, tag).Some? ==> After(LICENSE_TAG, tag).None? && After(LOADER_TAG, tag).None?
    ensures After(LICENSE_TAG, tag).Some? ==> After(LOADER_TAG, tag).None?
  {
    PrefixChars(KIND_TAG, tag);
    PrefixChars(CATEGORY_TAG, tag);
    PrefixChars(GAME_VERSION_TAG, tag);
    PrefixChars(LICENSE_TAG, tag);
    PrefixChars(LOADER_TAG, tag);
    assert KIND_TAG[0] == 'k' && CATEGORY_TAG[0] == 'c' && GAME_VERSION_TAG[0] == 'g';
    assert LICENSE_TAG[..2] == "li" && LOADER_TAG[..2] == "lo";
  }

  lemma PrefixChars(prefix: string, tag: string)
    requires |prefix| >= 2
    ensures After(prefix, tag).Some? ==> |tag| >= 2 && tag[..2] == prefix[..2]
  {
    if After(prefix, tag).Some? {
      assert tag[..2] == tag[..|prefix|][..2];
    }
  }

  lemma TagMeans(
    tag: string, kind: string, categories: seq<string>, gameVersions: seq<string>, licenseKey: Option<string>,
    loaders: seq<string>)
    ensures tag in TagsOf(kind, categories, gameVersions, licenseKey, loaders) <==>
      || After(KIND_TAG, tag) == Some(kind)
      || (After(CATEGORY_TAG, tag).Some? && After(CATEGORY_TAG, tag).value in categories)
      || (After(GAME_VERSION_TAG, tag).Some? && After(GAME_VERSION_TAG, tag).value in gameVersions)
      || (After(LICENSE_TAG, tag).Some? && After(LICENSE_TAG, tag) == licenseKey)
      || (After(LOADER_TAG, tag).Some? && After(LOADER_TAG, tag).value in loaders)
  {
    PrefixedHolds(CATEGORY_TAG, categories, tag);
    PrefixedHolds(GAME_VERSION_TAG, gameVersions, tag);
    PrefixedHolds(LOADER_TAG, loaders, tag);
    AfterTells(KIND_TAG, tag);
    AfterPrefix(KIND_TAG, kind);
    AfterTells(LICENSE_TAG, tag);
    if licenseKey.Some? {
      AfterPrefix(LICENSE_TAG, licenseKey.value);
    }
    InFive(tag, [KIND_TAG + kind], Prefixed(CATEGORY_TAG, categories), Prefixed(GAME_VERSION_TAG, gameVersions),
           if licenseKey.Some? then [LICENSE_TAG + licenseKey.value] else [], Prefixed(LOADER_TAG, loaders));
  }

  lemma InFive(x: string, a: seq<string>, b: seq<string>, c: seq<string>, d: seq<string>, e: seq<string>)
    ensures x in a + b + c + d + e <==> x in a || x in b || x in c || x in d || x in e
  {
  }

  /** Filtering on a string tag is filtering on the one field its prefix names. */
  lemma TagFiltersField(tag: string, c: Contract)
    ensures tag in ContractToSearch(c).tags <==> Means(tag, ContractToSearch(c))
  {
    TagMeans(tag, KindName(c.kind), c.categories, c.gameVersions, NormalizedLicenseKey(c.licenseId),
        LowerLoaders(c.loaders));
  }

  lemma {:induction false} NormalizedTags(tags: seq<string>, tag: string)
    ensures tag in NormalizeSearchTags(tags) <==> tag != [] && exists i :: 0 <= i < |tags| && Trim(tags[i]) == tag
  {
    if tags != [] {
      NormalizedTags(tags[1..], tag);
      assert tags == [tags[0]] + tags[1..];
    }
  }

  /** Trimming a prefixed value only trims the value at its end. */
  lemma TrimPrefixed(prefix: string, value: string)
    requires |prefix| >= 1 && !IsSpace(prefix[0]) && !IsSpace(prefix[|prefix| - 1])
    ensures Trim(prefix + value) == prefix + TrimEnd(value)
  {
    assert TrimStart(prefix + value) == prefix + value;
    TrimEndPrefixed(prefix, value);
  }

  lemma LastBehind(prefix: string, value: string)
    requires value != []
    ensures var s, n := prefix + value, |value| - 1; s[|s| - 1] == value[n] && s[..|s| - 1] == prefix + value[..n]
  {
  }

  lemma {:induction false} TrimEndPrefixed(prefix: string, value: string)
    requires |prefix| >= 1 && !IsSpace(prefix[|prefix| - 1])
    ensures TrimEnd(prefix + value) == prefix + TrimEnd(value)
  {
    if value == [] {
      assert prefix + value == prefix;
    } else {
      var n := |value| - 1;
      LastBehind(prefix, value);
      if IsSpace(value[n]) {
        TrimEndPrefixed(prefix, value[..n]);
        assert TrimEnd(prefix + value) == TrimEnd(prefix + value[..n]);
      } else {
        assert TrimEnd(prefix + value) == prefix + value;
      }
    }
  }

  /** A raw tag of the query lets a document pass: it is blank, or means something the document has. */
  predicate Lets(tag: string, d: Document) {
    Trim(tag) == [] || Means(Trim(tag), d)
  }

  predicate AllLet(tags: seq<string>, d: Document) {
    forall i :: 0 <= i < |tags| ==> Lets(tags[i], d)
  }

  lemma FilterLets(tags: seq<string>, c: Contract)
    ensures PassesFilter(ContractToSearch(c), NormalizeSearchTags(tags)) <==> AllLet(tags, ContractToSearch(c))
  {
    var d, filter := ContractToSearch(c), NormalizeSearchTags(tags);
    if PassesFilter(d, filter) {
      forall i | 0 <= i < |tags| ensures Lets(tags[i], d) {
        NormalizedTags(tags, Trim(tags[i]));
        TagFiltersField(Trim(tags[i]), c);
      }
    }
    if AllLet(tags, d) {
      forall tag | tag in filter ensures tag in d.tags {
        NormalizedTags(tags, tag);
        TagFiltersField(tag, c);
      }
    }
  }

  lemma AllLetSplit(a: seq<string>, b: seq<string>, d: Document)
    ensures AllLet(a + b, d) <==> AllLet(a, d) && AllLet(b, d)
  {
    if AllLet(a + b, d) {
      forall i | 0 <= i < |a| ensures Lets(a[i], d) {
        assert (a + b)[i] == a[i];
      }
      forall i | 0 <= i < |b| ensures Lets(b[i], d) {
        assert (a + b)[|a| + i] == b[i];
      }
    }
  }

  lemma LoaderMeans(value: string, d: Document)
    ensures Means(LOADER_TAG + value, d) <==> value in d.loaders
  {
    AfterPrefix(LOADER_TAG, value);
    OnePrefix(LOADER_TAG + value);
  }

  lemma GameVersionMeans(value: string, d: Document)
    ensures Means(GAME_VERSION_TAG + value, d) <==> value in d.gameVersions
  {
    AfterPrefix(GAME_VERSION_TAG, value);
    OnePrefix(GAME_VERSION_TAG + value);
  }

  lemma LetsPrefixed(prefix: string, value: string, d: Document)
    requires |prefix| >= 1 && !IsSpace(prefix[0]) && !IsSpace(prefix[|prefix| - 1])
    ensures Lets(prefix + value, d) <==> Means(prefix + TrimEnd(value), d)
  {
    TrimPrefixed(prefix, value);
  }

  lemma LoaderLets(value: string, d: Document)
    ensures Lets(LOADER_TAG + value, d) <==> TrimEnd(value) in d.loaders
  {
    LetsPrefixed(LOADER_TAG, value, d);
    LoaderMeans(TrimEnd(value), d);
  }

  lemma GameVersionLets(value: string, d: Document)
    ensures Lets(GAME_VERSION_TAG + value, d) <==> TrimEnd(value) in d.gameVersions
  {
    LetsPrefixed(GAME_VERSION_TAG, value, d);
    GameVersionMeans(TrimEnd(value), d);
  }

  function OneTag(prefix: string, value: Option<string>): seq<string> {
    if value.Some? then [prefix + value.value] else []
  }

  /** The structured filter of a query on what a document shows. */
  predicate Wanted(q: Query, d: Document) {
    && AllLet(q.tags, d)
    && (q.loader.Some? ==> TrimEnd(q.loader.value) in d.loaders)
    && (q.gameVersion.Some? ==> TrimEnd(q.gameVersion.value) in d.gameVersions)
  }

  lemma OneTagLets(prefix: string, value: Option<string>, d: Document)
    ensures AllLet(OneTag(prefix, value), d) <==> (value.Some? ==> Lets(prefix + value.value, d))
  {
    if value.Some? {
      assert OneTag(prefix, value)[0] == prefix + value.value;
    }
  }

  /**
   The tag filter of a query is the structured filter: every tag given, trimmed and not blank, means
   something the project has; the loader is one of its loaders; the game version one of its versions.
   */
  lemma FilterIsStructured(q: Query, c: Contract)
    ensures PassesFilter(ContractToSearch(c), NormalizeSearchTags(SearchTagsFromQuery(q)))
      <==> Wanted(q, ContractToSearch(c))
  {
    var d := ContractToSearch(c);
    FilterLets(SearchTagsFromQuery(q), c);
    QueryLets(q, d);
  }

  lemma QueryLets(q: Query, d: Document)
    ensures AllLet(SearchTagsFromQuery(q), d) <==> Wanted(q, d)
  {
    var l, g := OneTag(LOADER_TAG, q.loader), OneTag(GAME_VERSION_TAG, q.gameVersion);
    assert SearchTagsFromQuery(q) == q.tags + l + g;
    AllLetSplit(q.tags + l, g, d);
    AllLetSplit(q.tags, l, d);
    OneTagLets(LOADER_TAG, q.loader, d);
    OneTagLets(GAME_VERSION_TAG, q.gameVersion, d);
    if q.loader.Some? {
      LoaderLets(q.loader.value, d);
    }
    if q.gameVersion.Some? {
      GameVersionLets(q.gameVersion.value, d);
    }
  }
}
