/**
 The catalog services: tables, a search index and a cache of contracts by slug, each method proved to
 perform its call of `Catalog` and to leave index and cache in agreement with the rows.
 */
module CatalogService {
  import opened Text
  import opened ReadModel
  import opened Catalog
  import Slug
  import VersionFiles

  const NO_AMBIENT := Ambient([], None, None, [], 0)

  /** What a row shows, with nothing that other services own. */
  function Bare(id: Id, p: Project): Contract {
    RowToContract(id, p, NO_AMBIENT)
  }

  // ---------- agreement ----------

  /** A document of the index agrees with a row, but for the time of the last update. */
  predicate Indexed(id: Id, p: Project, d: Document) {
    SameDocument(d, ContractToSearch(Bare(id, p)))
  }

  predicate Published(p: Project) {
    p.status.Approved?
  }

  /** Exactly the rows to be shown have an entry, and it agrees with its row. */
  ghost predicate Mirrors<K(!new), V(!new), D(!new)>(
    rows: map<K, V>, entries: map<K, D>, shown: V -> bool, agrees: (K, V, D) -> bool)
  {
    && (forall k :: k in entries <==> k in rows && shown(rows[k]))
    && (forall k {:trigger agrees(k, rows[k], entries[k])} :: k in entries && k in rows ==>
         agrees(k, rows[k], entries[k]))
  }

  /** The index holds the approved projects, each as its row shows it. */
  ghost predicate IndexCoherent(projects: map<Id, Project>, index: map<Id, Document>) {
    Mirrors(projects, index, Published, Indexed)
  }

  /** A cached contract is of the approved project with that slug, as its row shows it. */
  predicate CachedFresh(projects: map<Id, Project>, slug: string, c: Contract) {
    HasSlug(projects, slug, c.id) && IsApproved(projects, c.id) && SameScope(c, Bare(c.id, projects[c.id]))
  }

  ghost predicate CacheCoherent(projects: map<Id, Project>, cache: map<string, Contract>) {
    forall slug {:trigger CachedFresh(projects, slug, cache[slug])} ::
      slug in cache ==> CachedFresh(projects, slug, cache[slug])
  }

  ghost predicate Agree(t: Tables, index: map<Id, Document>, cache: map<string, Contract>) {
    TablesInv(t) && IndexCoherent(t.projects, index) && CacheCoherent(t.projects, cache)
  }

  function Reindexed(index: map<Id, Document>, c: Contract): map<Id, Document> {
    if c.status.Approved? then index[c.id := ContractToSearch(c)] else index - {c.id}
  }

  lemma IndexedFromContract(id: Id, p: Project, ambient: Ambient)
    ensures Indexed(id, p, ContractToSearch(RowToContract(id, p, ambient)))
  {
    DocumentsAgree(RowToContract(id, p, ambient), Bare(id, p));
  }

  lemma MirrorsAt<K(!new), V(!new), D(!new)>(
    rows: map<K, V>, entries: map<K, D>, shown: V -> bool, agrees: (K, V, D) -> bool, k: K)
    requires Mirrors(rows, entries, shown, agrees) && k in entries
    ensures k in rows && shown(rows[k]) && agrees(k, rows[k], entries[k])
  {
  }

  /** A row replaced, with the entry it must have. */
  lemma MirrorsPut<K(!new), V(!new), D(!new)>(
    rows: map<K, V>, entries: map<K, D>, shown: V -> bool, agrees: (K, V, D) -> bool, k: K, v: V, d: D)
    requires Mirrors(rows, entries, shown, agrees) && shown(v) && agrees(k, v, d)
    ensures Mirrors(rows[k := v], entries[k := d], shown, agrees)
  {
    var rows', entries' := rows[k := v], entries[k := d];
    forall j | j in entries' && j in rows' ensures agrees(j, rows'[j], entries'[j]) {
      assert j != k ==> agrees(j, rows[j], entries[j]);
    }
  }

  lemma MirrorsHide<K(!new), V(!new), D(!new)>(
    rows: map<K, V>, entries: map<K, D>, shown: V -> bool, agrees: (K, V, D) -> bool, k: K, v: V)
    requires Mirrors(rows, entries, shown, agrees) && !shown(v)
    ensures Mirrors(rows[k := v], entries - {k}, shown, agrees)
    ensures k !in rows ==> Mirrors(rows[k := v], entries, shown, agrees)
  {
    var rows', entries' := rows[k := v], entries - {k};
    forall j | j in entries' && j in rows' ensures agrees(j, rows'[j], entries'[j]) {
      assert agrees(j, rows[j], entries[j]);
    }
    assert k !in rows ==> entries' == entries;
  }

  lemma MirrorsDrop<K(!new), V(!new), D(!new)>(
    rows: map<K, V>, entries: map<K, D>, shown: V -> bool, agrees: (K, V, D) -> bool, k: K)
    requires Mirrors(rows, entries, shown, agrees)
    ensures Mirrors(rows - {k}, entries - {k}, shown, agrees)
  {
    var rows', entries' := rows - {k}, entries - {k};
    forall j | j in entries' && j in rows' ensures agrees(j, rows'[j], entries'[j]) {
      assert agrees(j, rows[j], entries[j]);
    }
  }

  /** A row replaced by one its entry agrees with just as well. */
  lemma MirrorsKeep<K(!new), V(!new), D(!new)>(
    rows: map<K, V>, entries: map<K, D>, shown: V -> bool, agrees: (K, V, D) -> bool, k: K, v: V)
    requires Mirrors(rows, entries, shown, agrees) && k in rows && shown(rows[k]) == shown(v)
    requires k in entries ==> agrees(k, v, entries[k])
    ensures Mirrors(rows[k := v], entries, shown, agrees)
  {
    var rows' := rows[k := v];
    forall j | j in entries && j in rows' ensures agrees(j, rows'[j], entries[j]) {
      assert j != k ==> agrees(j, rows[j], entries[j]);
    }
  }

  /** After a row is written and its document rebuilt or removed, the index agrees again. */
  lemma ReindexCoherent(projects: map<Id, Project>, index: map<Id, Document>, id: Id, p: Project, ambient: Ambient)
    requires IndexCoherent(projects, index)
    ensures IndexCoherent(projects[id := p], Reindexed(index, RowToContract(id, p, ambient)))
  {
    if Published(p) {
      IndexedFromContract(id, p, ambient);
      MirrorsPut(projects, index, Published, Indexed, id, p, ContractToSearch(RowToContract(id, p, ambient)));
    } else {
      MirrorsHide(projects, index, Published, Indexed, id, p);
    }
  }

  lemma DocumentCarried(id: Id, p: Project, q: Project, d: Document)
    requires SameDocument(ContractToSearch(Bare(id, p)), ContractToSearch(Bare(id, q))) && Indexed(id, p, d)
    ensures Indexed(id, q, d)
  {
  }

  /** A row changed in nothing its document shows needs no new document. */
  lemma IndexUntouched(projects: map<Id, Project>, index: map<Id, Document>, id: Id, p: Project)
    requires IndexCoherent(projects, index) && id in projects && projects[id].status == p.status
    requires SameDocument(ContractToSearch(Bare(id, projects[id])), ContractToSearch(Bare(id, p)))
    ensures IndexCoherent(projects[id := p], index)
  {
    if id in index {
      MirrorsAt(projects, index, Published, Indexed, id);
      DocumentCarried(id, projects[id], p, index[id]);
    }
    MirrorsKeep(projects, index, Published, Indexed, id, p);
  }

  /** Once the cached contract of a slug is dropped, only the row with that slug may have changed. */
  lemma CacheDropped(projects: map<Id, Project>, after: map<Id, Project>, cache: map<string, Contract>, slug: string)
    requires CacheCoherent(projects, cache)
    requires forall a :: a in projects && projects[a].slug != slug ==> a in after && after[a] == projects[a]
    ensures CacheCoherent(after, cache - {slug})
  {
    forall s | s in cache - {slug} ensures CachedFresh(after, s, (cache - {slug})[s]) {
      assert CachedFresh(projects, s, cache[s]);
    }
  }

  /** A row changed in nothing a contract shows leaves the cache as good as it was. */
  lemma CacheUntouched(projects: map<Id, Project>, cache: map<string, Contract>, id: Id, p: Project)
    requires CacheCoherent(projects, cache) && id in projects && Bare(id, projects[id]) == Bare(id, p)
    ensures CacheCoherent(projects[id := p], cache)
  {
    forall s | s in cache ensures CachedFresh(projects[id := p], s, cache[s]) {
      assert CachedFresh(projects, s, cache[s]);
    }
  }

  lemma FollowersShown(id: Id, p: Project, q: Project, d: Document)
    requires q == p.(follows := q.follows, followers := q.followers, updatedAt := q.updatedAt) && Indexed(id, p, d)
    ensures Indexed(id, q, d.(followers := q.followers))
  {
  }

  lemma DownloadsShown(id: Id, p: Project, q: Project, d: Document)
    requires q == p.(downloads := q.downloads, downloadEvents := q.downloadEvents, updatedAt := q.updatedAt)
      && Indexed(id, p, d)
    ensures Indexed(id, q, d.(downloads := q.downloads))
  {
  }

  /** Following changes one number of a document, which is there to be changed. */
  lemma FollowersIndexed(projects: map<Id, Project>, index: map<Id, Document>, id: Id, p: Project)
    requires IndexCoherent(projects, index) && IsApproved(projects, id)
    requires p == projects[id].(follows := p.follows, followers := p.followers, updatedAt := p.updatedAt)
    ensures id in index && IndexCoherent(projects[id := p], index[id := index[id].(followers := p.followers)])
  {
    assert Published(projects[id]);
    MirrorsAt(projects, index, Published, Indexed, id);
    FollowersShown(id, projects[id], p, index[id]);
    MirrorsPut(projects, index, Published, Indexed, id, p, index[id].(followers := p.followers));
  }

  /** So does a download. */
  lemma DownloadsIndexed(projects: map<Id, Project>, index: map<Id, Document>, id: Id, p: Project)
    requires IndexCoherent(projects, index) && IsApproved(projects, id)
    requires p == projects[id].(downloads := p.downloads, downloadEvents := p.downloadEvents, updatedAt := p.updatedAt)
    ensures id in index && IndexCoherent(projects[id := p], index[id := index[id].(downloads := p.downloads)])
  {
    assert Published(projects[id]);
    MirrorsAt(projects, index, Published, Indexed, id);
    DownloadsShown(id, projects[id], p, index[id]);
    MirrorsPut(projects, index, Published, Indexed, id, p, index[id].(downloads := p.downloads));
  }

  // ---------- what each kind of write does to the agreement ----------

  /** A row is written, its document rebuilt or removed, its cached contract dropped. */
  lemma RewriteAgrees(t: Tables, t': Tables, index: map<Id, Document>, cache: map<string, Contract>, id: Id, p: Project)
    requires Agree(t, index, cache) && id in t.projects && SameCounted(t.projects[id], p) && p.followers == |p.follows|
    requires p.gallery == t.projects[id].gallery
    requires t'.projects == t.projects[id := p] && t'.versions == t.versions && t'.files == t.files
    ensures Agree(t', Reindexed(index, ContractOf(t', id)), cache - {p.slug})
  {
    PutKeeps(t, t', id, p);
    ReindexCoherent(t.projects, index, id, p, AmbientOf(t', p));
    CacheDropped(t.projects, t'.projects, cache, p.slug);
  }

  /** Rows no document shows are written, and the cached contract dropped. */
  lemma UnindexedAgrees(
      t: Tables, t': Tables, index: map<Id, Document>, cache: map<string, Contract>, id: Id, p: Project)
    requires Agree(t, index, cache) && id in t.projects && p == t.projects[id].(lock := p.lock, gallery := p.gallery)
    requires forall image :: image in p.gallery && image !in t.projects[id].gallery ==>
      forall a :: !HasImage(t.projects, image, a)
    requires t' == t.(projects := t.projects[id := p])
    ensures Agree(t', index, cache - {p.slug})
  {
    assert ProjectCounted(t.projects[id]);
    PutKeeps(t, t', id, p);
    UnindexedShown(id, t.projects[id], p);
    IndexUntouched(t.projects, index, id, p);
    CacheDropped(t.projects, t'.projects, cache, p.slug);
  }

  lemma FollowAgrees(t: Tables, t': Tables, index: map<Id, Document>, cache: map<string, Contract>, id: Id, p: Project)
    requires Agree(t, index, cache) && IsApproved(t.projects, id) && p.followers == |p.follows|
    requires p == t.projects[id].(follows := p.follows, followers := p.followers, updatedAt := p.updatedAt)
    requires t' == t.(projects := t.projects[id := p])
    ensures id in index && Agree(t', index[id := index[id].(followers := p.followers)], cache - {p.slug})
  {
    PutKeeps(t, t', id, p);
    FollowersIndexed(t.projects, index, id, p);
    CacheDropped(t.projects, t'.projects, cache, p.slug);
  }

  lemma DownloadAgrees(
    t: Tables, t': Tables, index: map<Id, Document>, cache: map<string, Contract>, v: Id, id: Id, p: Project, now: nat)
    requires Agree(t, index, cache) && IsApproved(t.projects, id) && v in t.versions && t.versions[v].projectId == id
    requires p == Downloaded(t.projects[id], v, now)
    requires t' == t.(projects := t.projects[id := p],
                      versions := t.versions[v := t.versions[v].(downloads := t.versions[v].downloads + 1)])
    ensures id in index && Agree(t', index[id := index[id].(downloads := p.downloads)], cache - {p.slug})
  {
    DownloadKeepsRows(t, t', v, id, now);
    DownloadsIndexed(t.projects, index, id, p);
    CacheDropped(t.projects, t'.projects, cache, p.slug);
  }

  /** A new project, not approved, with a slug whose cached contract is dropped. */
  lemma NewAgrees(t: Tables, t': Tables, index: map<Id, Document>, cache: map<string, Contract>, id: Id, p: Project)
    requires Agree(t, index, cache) && id !in t.projects && !p.status.Approved?
    requires forall a :: !HasSlug(t.projects, p.slug, a)
    requires Uncounted(p)
    requires t'.projects == t.projects[id := p] && t'.versions == t.versions && t'.files == t.files
    ensures Agree(t', index, cache - {p.slug})
  {
    NewKeeps(t, t', id, p);
    MirrorsHide(t.projects, index, Published, Indexed, id, p);
    CacheDropped(t.projects, t'.projects, cache, p.slug);
  }

  lemma DeletedAgrees(t: Tables, index: map<Id, Document>, cache: map<string, Contract>, id: Id)
    requires Agree(t, index, cache) && id in t.projects
    ensures Agree(WithoutProject(t, id), index - {id}, cache - {t.projects[id].slug})
  {
    DeleteKeeps(t, id);
    MirrorsDrop(t.projects, index, Published, Indexed, id);
    CacheDropped(t.projects, t.projects - {id}, cache, t.projects[id].slug);
  }

  lemma UpdatedShown(t: Tables, id: Id, input: UpdateInput, isGameVersion: string -> bool, now: nat)
    requires TablesInv(t) && id in t.projects && MetadataComplete(input)
    ensures var p := Updated(t.projects[id], input, isGameVersion, now);
      SameCounted(t.projects[id], p) && p.followers == |p.follows| && p.gallery == t.projects[id].gallery
  {
    assert ProjectCounted(t.projects[id]);
  }

  lemma LinkAgrees(
    t: Tables, index: map<Id, Document>, cache: map<string, Contract>, id: Id, organizationId: Option<Id>, now: nat)
    requires Agree(t, index, cache) && id in t.projects
    ensures Agree(Catalog.LinkOrganization(t, id, organizationId, now), index, cache)
  {
    var p := t.projects[id].(organizationId := organizationId, updatedAt := now);
    assert ProjectCounted(t.projects[id]);
    PutKeeps(t, Catalog.LinkOrganization(t, id, organizationId, now), id, p);
    assert Bare(id, p) == Bare(id, t.projects[id]);
    IndexUntouched(t.projects, index, id, p);
    CacheUntouched(t.projects, cache, id, p);
  }

  /** The same users own the project before and after, with their invitation as it was. */
  ghost predicate SameOwners(before: map<Id, Member>, after: map<Id, Member>) {
    forall u :: (u in before && before[u].isOwner) || (u in after && after[u].isOwner) ==>
      u in before && u in after && before[u] == after[u]
  }

  /** So any other user can come to manage a project without owning it. */
  lemma ManagerJoins(p: Project, u: Id, permission: Permission)
    requires u !in p.members
    ensures var members := p.members[u := Member(false, true, {permission})];
      SameOwners(p.members, members) && Manages(p.(members := members), u, permission)
      && !Owns(p.(members := members), u)
  {
  }

  lemma MembersAgree(
      t: Tables, index: map<Id, Document>, cache: map<string, Contract>, id: Id, members: map<Id, Member>)
    requires Agree(t, index, cache) && id in t.projects
    ensures Agree(t.(projects := t.projects[id := t.projects[id].(members := members)]), index, cache)
  {
    var p := t.projects[id].(members := members);
    assert ProjectCounted(t.projects[id]);
    PutKeeps(t, t.(projects := t.projects[id := p]), id, p);
    assert Bare(id, p) == Bare(id, t.projects[id]);
    IndexUntouched(t.projects, index, id, p);
    CacheUntouched(t.projects, cache, id, p);
  }

  lemma FilesAgree(t: Tables, index: map<Id, Document>, cache: map<string, Contract>, files: map<Id, File>)
    requires Agree(t, index, cache) && FilesPlaced(t.(files := files))
    ensures Agree(t.(files := files), index, cache)
  {
  }

  lemma VersionDeletedAgrees(t: Tables, index: map<Id, Document>, cache: map<string, Contract>, versionId: Id)
    requires Agree(t, index, cache) && versionId in t.versions && t.versions[versionId].projectId in t.projects
    ensures Agree(Catalog.DeleteVersion(t, versionId), index, cache)
  {
    var id := t.versions[versionId].projectId;
    var p := t.projects[id].(downloadEvents := ReleasedAll(t.projects[id].downloadEvents, versionId));
    DeleteVersionKeeps(t, versionId);
    assert Bare(id, p) == Bare(id, t.projects[id]);
    IndexUntouched(t.projects, index, id, p);
    CacheUntouched(t.projects, cache, id, p);
  }

  lemma RefreshAgrees(t: Tables, index: map<Id, Document>, cache: map<string, Contract>, id: Id)
    requires Agree(t, index, cache) && id in t.projects
    ensures Agree(t, Reindexed(index, ContractOf(t, id)), cache - {t.projects[id].slug})
  {
    assert ProjectCounted(t.projects[id]);
    assert t.projects[id := t.projects[id]] == t.projects;
    RewriteAgrees(t, t, index, cache, id, t.projects[id]);
  }

  // ---------- searching ----------

  /** A document matches the filter the query is turned into. */
  predicate Hit(index: map<Id, Document>, q: Query, id: Id) {
    id in index && PassesFilter(index[id], NormalizeSearchTags(SearchTagsFromQuery(q)))
  }

  /** Filtering the index by tags finds exactly the approved projects the structured filter wants. */
  lemma HitsAreWanted(t: Tables, index: map<Id, Document>, cache: map<string, Contract>, q: Query, id: Id)
    requires Agree(t, index, cache)
    ensures Hit(index, q, id) <==> IsApproved(t.projects, id) && Wanted(q, ContractToSearch(ContractOf(t, id)))
  {
    if id in index {
      var p := t.projects[id];
      MirrorsAt(t.projects, index, Published, Indexed, id);
      FilterIsStructured(q, ContractOf(t, id));
      SameTags(id, p, AmbientOf(t, p), index[id], NormalizeSearchTags(SearchTagsFromQuery(q)));
    } else {
      assert !IsApproved(t.projects, id);
    }
  }

  /** The contract is that of the current row, which is approved and which the query wants. */
  predicate Answers(t: Tables, q: Query, id: Id, c: Contract) {
    IsApproved(t.projects, id) && c == ContractOf(t, id) && Wanted(q, ContractToSearch(c))
  }

  lemma HitAnswers(t: Tables, index: map<Id, Document>, cache: map<string, Contract>, q: Query, id: Id)
    requires Agree(t, index, cache) && Hit(index, q, id)
    ensures IsApproved(t.projects, id) && Answers(t, q, id, ContractOf(t, id))
  {
    HitsAreWanted(t, index, cache, q, id);
  }

  lemma SameTags(id: Id, p: Project, ambient: Ambient, d: Document, filter: seq<string>)
    requires Indexed(id, p, d)
    ensures PassesFilter(d, filter) <==> PassesFilter(ContractToSearch(RowToContract(id, p, ambient)), filter)
  {
    assert d.tags == ContractToSearch(RowToContract(id, p, ambient)).tags;
  }

  // ---------- the services ----------

  class Services {
    var projects: map<Id, Project>
    var licenses: map<string, License>
    var organizations: map<Id, Organization>
    var versions: map<Id, Version>
    var files: map<Id, File>
    var verified: set<Id>
    var index: map<Id, Document>
    var cache: map<string, Contract>

    function View(): Tables
      reads this
    {
      Tables(projects, licenses, organizations, versions, files, verified)
    }

    ghost predicate Valid()
      reads this
    {
      Agree(View(), index, cache)
    }

    constructor ()
      ensures View() == Tables(map[], map[], map[], map[], map[], {}) && Valid()
    {
      projects, licenses, organizations, versions, files, verified := map[], map[], map[], map[], map[], {};
      index, cache := map[], map[];
    }

    // ---------- index and cache ----------

    method IndexOrRemove(c: Contract)
      modifies this`index
      ensures index == Reindexed(old(index), c)
    {
      if c.status.Approved? {
        index := index[c.id := ContractToSearch(c)];
      } else {
        index := index - {c.id};
      }
    }

    /** A partial update fails when there is no document to update. */
    method UpdateProjectFollowers(id: Id, followers: nat) returns (found: bool)
      modifies this`index
      ensures found == (id in old(index))
      ensures index == if found then old(index)[id := old(index)[id].(followers := followers)] else old(index)
    {
      found := id in index;
      if found {
        index := index[id := index[id].(followers := followers)];
      }
    }

    method UpdateProjectDownloads(id: Id, downloads: nat) returns (found: bool)
      modifies this`index
      ensures found == (id in old(index))
      ensures index == if found then old(index)[id := old(index)[id].(downloads := downloads)] else old(index)
    {
      found := id in index;
      if found {
        index := index[id := index[id].(downloads := downloads)];
      }
    }

    method Invalidate(slug: string)
      modifies this`cache
      ensures cache == old(cache) - {slug}
    {
      cache := cache - {slug};
    }

    /** The time to live of an entry is over. */
    method Expire(slug: string)
      requires Valid()
      modifies this`cache
      ensures cache == old(cache) - {slug} && Valid()
    {
      CacheDropped(projects, projects, cache, slug);
      cache := cache - {slug};
    }

    // ---------- reading ----------

    /** With calls one at a time the cache never shows: the contract is that of the current row. */
    method FindProjectBySlug(slug: string) returns (c: Option<Contract>)
      requires Valid()
      modifies this`cache
      ensures Valid()
      ensures c.Some? == FindProject(View(), slug).Some?
      ensures c.Some? ==> SameScope(c.value, FindProject(View(), slug).value)
    {
      var id := FindBySlug(projects, slug);
      if slug in cache && cache[slug].status.Approved? {
        assert CachedFresh(projects, slug, cache[slug]);
        SameRow(projects, slug, cache[slug].id, id);
        return Some(cache[slug]);
      }
      if id.Some? && IsApproved(projects, id.value) {
        var contract := ContractOf(View(), id.value);
        CacheFilled(projects, cache, slug, contract);
        cache := cache[slug := contract];
        return Some(contract);
      }
      return None;
    }

    /** The contracts of a page of the index, in its order, with nothing dropped. */
    method SearchProjects(q: Query, page: seq<Id>) returns (found: seq<Contract>)
      requires Valid() && forall i :: 0 <= i < |page| ==> Hit(index, q, page[i])
      ensures |found| == |page|
      ensures forall i :: 0 <= i < |page| ==> Answers(View(), q, page[i], found[i])
    {
      forall i | 0 <= i < |page|
        ensures IsApproved(projects, page[i]) && Answers(View(), q, page[i], ContractOf(View(), page[i])) {
        HitAnswers(View(), index, cache, q, page[i]);
      }
      found := LookUp(ApprovedById(View(), page), page);
    }

    // ---------- moderation ----------

    method ModerateProject(action: string, slug: string, now: nat) returns (reply: Reply)
      requires Valid()
      modifies this
      ensures Outcome(View(), reply) == Catalog.ModerateProject(old(View()), ActionFrom(action), slug, now)
      ensures Valid()
    {
      var kind := ActionFrom(action);
      if kind.None? {
        return Forbidden;
      }
      var id := FindBySlug(projects, slug);
      if id.None? {
        return NotFound;
      }
      ModeratedShown(View(), id.value, kind.value, now);
      reply := Rewrite(id.value, Moderated(projects[id.value], kind.value, now));
    }

    /** Writes a row, rebuilds or removes its document, and drops its cached contract. */
    method Rewrite(id: Id, p: Project) returns (reply: Reply)
      requires Valid() && id in projects && SameCounted(projects[id], p) && p.followers == |p.follows|
      requires p.gallery == projects[id].gallery
      modifies this`projects, this`index, this`cache
      ensures Outcome(View(), reply) == Put(old(View()), id, p) && Valid()
    {
      RewriteAgrees(View(), View().(projects := projects[id := p]), index, cache, id, p);
      projects := projects[id := p];
      var contract := ContractOf(View(), id);
      IndexOrRemove(contract);
      Invalidate(contract.slug);
      reply := Shown(contract);
    }

    method LockProjectForModeration(slug: string, moderatorId: Id, now: nat) returns (reply: Reply)
      requires Valid()
      modifies this
      ensures Outcome(View(), reply) == Catalog.LockProject(old(View()), slug, moderatorId, now)
      ensures Valid()
    {
      var id := FindBySlug(projects, slug);
      if id.None? {
        return NotFound;
      }
      var p := projects[id.value];
      WriteUnindexed(id.value, p.(lock := Some(Taken(p.lock, moderatorId, now))));
      reply := Shown(ContractOf(View(), id.value));
    }

    method ReleaseProjectModerationLock(slug: string, moderatorId: Id) returns (reply: Reply)
      requires Valid()
      modifies this
      ensures Outcome(View(), reply) == Catalog.ReleaseLock(old(View()), slug, moderatorId)
      ensures Valid()
    {
      var id := FindBySlug(projects, slug);
      if id.None? {
        return NotFound;
      }
      var p := projects[id.value];
      if p.lock.Some? && p.lock.value.moderatorId != moderatorId {
        return Forbidden;
      }
      WriteUnindexed(id.value, p.(lock := None));
      reply := Shown(ContractOf(View(), id.value));
    }

    /** Writes rows no document shows, and drops the cached contract; the index is left alone. */
    method WriteUnindexed(id: Id, p: Project)
      requires Valid() && id in projects && p == projects[id].(lock := p.lock, gallery := p.gallery)
      requires forall image :: image in p.gallery && image !in projects[id].gallery ==>
        forall a :: !HasImage(projects, image, a)
      modifies this`projects, this`cache
      ensures projects == old(projects)[id := p] && Valid()
    {
      UnindexedAgrees(View(), View().(projects := projects[id := p]), index, cache, id, p);
      projects := projects[id := p];
      Invalidate(p.slug);
    }

    // ---------- the gallery ----------

    method AddProjectGalleryImage(
      slug: string, input: ImageInput, userId: Id, imageId: Id, now: nat
    ) returns (reply: Reply)
      requires Valid() && forall a :: !HasImage(projects, imageId, a)
      modifies this
      ensures Outcome(View(), reply) == Catalog.AddImage(old(View()), slug, input, userId, imageId, now)
      ensures Valid()
    {
      var id := FindManaged(View(), slug, userId);
      if id.None? {
        return NotFound;
      }
      if !UrlsGiven(input) {
        return BadRequest;
      }
      var p := projects[id.value];
      var image := ImageFrom(input, if input.sortOrder.Some? then input.sortOrder.value else 0, now);
      WriteUnindexed(id.value, p.(gallery := p.gallery[imageId := image]));
      reply := Shown(ContractOf(View(), id.value));
    }

    method UpdateProjectGalleryImage(imageId: Id, input: ImageInput, userId: Id) returns (reply: Reply)
      requires Valid()
      modifies this
      ensures Outcome(View(), reply) == Catalog.UpdateImage(old(View()), imageId, input, userId)
      ensures Valid()
    {
      var id := FindManagedImage(projects, imageId, userId);
      if id.None? {
        return NotFound;
      }
      if !UrlsGiven(input) {
        return BadRequest;
      }
      var p := projects[id.value];
      var was := p.gallery[imageId];
      var sortOrder := if input.sortOrder.Some? then input.sortOrder.value else was.sortOrder;
      var image := ImageFrom(input, sortOrder, was.createdAt);
      WriteUnindexed(id.value, p.(gallery := p.gallery[imageId := image]));
      reply := Shown(ContractOf(View(), id.value));
    }

    method RemoveProjectGalleryImage(imageId: Id, userId: Id) returns (reply: Reply)
      requires Valid()
      modifies this
      ensures Outcome(View(), reply) == Catalog.RemoveImage(old(View()), imageId, userId)
      ensures Valid()
    {
      var id := FindManagedImage(projects, imageId, userId);
      if id.None? {
        return NotFound;
      }
      var p := projects[id.value];
      WriteUnindexed(id.value, p.(gallery := p.gallery - {imageId}));
      reply := Shown(ContractOf(View(), id.value));
    }

    // ---------- following and downloading ----------

    /** The partial update of the index always finds its document: the call never fails halfway. */
    method UpdateProjectFollow(slug: string, userId: Id, following: bool, now: nat)
        returns (reply: Reply, repaired: bool)
      requires Valid()
      modifies this
      ensures Outcome(View(), reply) == Catalog.UpdateFollow(old(View()), slug, userId, following, now)
      ensures Valid() && repaired
    {
      var id := FindBySlug(projects, slug);
      if id.None? || !IsApproved(projects, id.value) {
        return NotFound, true;
      }
      var follows := projects[id.value].follows;
      if following {
        follows := follows + {userId};
      } else {
        follows := follows - {userId};
      }
      var p := projects[id.value].(follows := follows, followers := |follows|, updatedAt := now);
      repaired := StoreFollows(id.value, p);
      reply := Following(|follows|);
    }

    method StoreFollows(id: Id, p: Project) returns (repaired: bool)
      requires Valid() && IsApproved(projects, id) && p.followers == |p.follows|
      requires p == projects[id].(follows := p.follows, followers := p.followers, updatedAt := p.updatedAt)
      modifies this`projects, this`index, this`cache
      ensures projects == old(projects)[id := p] && Valid() && repaired
    {
      ghost var after, index' := View().(projects := projects[id := p]),
          index[id := index[id].(followers := p.followers)];
      ghost var cache' := cache - {p.slug};
      FollowAgrees(View(), after, index, cache, id, p);
      projects := projects[id := p];
      Invalidate(p.slug);
      repaired := UpdateProjectFollowers(id, p.followers);
      assert View() == after && index == index' && cache == cache';
    }

    method PrepareFileDownload(fileId: Id, now: nat) returns (reply: Reply, repaired: bool)
      requires Valid()
      modifies this
      ensures Outcome(View(), reply) == Catalog.PrepareFileDownload(old(View()), fileId, now)
      ensures Valid() && repaired
    {
      if !Downloadable(View(), fileId) {
        return NotFound, true;
      }
      var v := files[fileId].versionId;
      var id := versions[v].projectId;
      var p := Downloaded(projects[id], v, now);
      repaired := StoreDownload(v, id, p, now);
      reply := Download(files[fileId].url, p.downloads);
    }

    method StoreDownload(v: Id, id: Id, p: Project, now: nat) returns (repaired: bool)
      requires Valid() && IsApproved(projects, id) && v in versions && versions[v].projectId == id
      requires p == Downloaded(projects[id], v, now)
      modifies this`projects, this`versions, this`index, this`cache
      ensures projects == old(projects)[id := p] && Valid() && repaired
      ensures versions == old(versions)[v := old(versions)[v].(downloads := old(versions)[v].downloads + 1)]
    {
      var version := versions[v].(downloads := versions[v].downloads + 1);
      DownloadAgrees(View(), View().(projects := projects[id := p], versions := versions[v := version]),
                     index, cache, v, id, p, now);
      projects := projects[id := p];
      versions := versions[v := version];
      Invalidate(p.slug);
      repaired := UpdateProjectDownloads(id, p.downloads);
    }

    // ---------- creating, updating, deleting ----------

    method CreateProject(input: CreateInput, ownerId: Id, newId: Id, isGameVersion: string -> bool, now: nat)
      returns (reply: Reply, inserted: bool)
      requires Valid() && newId !in projects
      modifies this
      ensures Outcome(View(), reply) == Catalog.CreateProject(old(View()), input, ownerId, newId, isGameVersion, now)
      ensures Valid() && inserted
    {
      var slug := Slug.NormalizeSlug(input.slug);
      if !CreateAllowed(View(), input, slug) {
        return BadRequest, true;
      }
      if ownerId !in verified {
        return Forbidden, true;
      }
      if FindBySlug(projects, slug).Some? {
        return BadRequest, true;
      }
      NewShown(input, slug, ownerId, isGameVersion, now);
      var p;
      p, inserted := NewRows(input, slug, ownerId, isGameVersion, now);
      reply := StoreNew(newId, p);
    }

    method StoreNew(id: Id, p: Project) returns (reply: Reply)
      requires Valid() && id !in projects && !p.status.Approved? && Uncounted(p)
      requires forall a :: !HasSlug(projects, p.slug, a)
      modifies this`projects, this`licenses, this`cache
      ensures Outcome(View(), reply) == Put(old(View()).(licenses := WithUnknownLicense(old(licenses))), id, p)
      ensures Valid()
    {
      NewAgrees(View(), View().(projects := projects[id := p], licenses := WithUnknownLicense(licenses)), index, cache,
          id, p);
      licenses := WithUnknownLicense(licenses);
      projects := projects[id := p];
      var contract := ContractOf(View(), id);
      Invalidate(contract.slug);
      reply := Shown(contract);
    }

    /** When a licence key is blank or a link cannot be read, the transaction is rolled back. */
    method UpdateProject(input: UpdateInput, userId: Id, isGameVersion: string -> bool, now: nat) returns (reply: Reply)
      requires Valid()
      modifies this
      ensures Outcome(View(), reply) == Catalog.UpdateProject(old(View()), input, userId, isGameVersion, now)
      ensures Valid()
    {
      if !UpdateAllowed(input) {
        return BadRequest;
      }
      reply := UpdateNamed(Trim(input.projectSlug), input, userId, isGameVersion, now);
    }

    method UpdateNamed(slug: string, input: UpdateInput, userId: Id, isGameVersion: string -> bool, now: nat)
      returns (reply: Reply)
      requires Valid()
      modifies this
      ensures Outcome(View(), reply) == Catalog.UpdateNamed(old(View()), slug, input, userId, isGameVersion, now)
      ensures Valid()
    {
      var id := FindManaged(View(), slug, userId);
      if id.None? {
        return NotFound;
      }
      var p, committed := UpdateRows(projects[id.value], input, isGameVersion, now);
      if !committed {
        return Forbidden;
      }
      UpdatedShown(View(), id.value, input, isGameVersion, now);
      licenses := UpdatedLicenses(licenses, input);
      reply := Rewrite(id.value, p);
    }

    method DeleteProject(slug: string, userId: Id) returns (reply: Reply)
      requires Valid()
      modifies this
      ensures Outcome(View(), reply) == Catalog.DeleteProject(old(View()), Trim(slug), userId)
      ensures Valid()
    {
      reply := DeleteNamed(Trim(slug), userId);
    }

    method DeleteNamed(slug: string, userId: Id) returns (reply: Reply)
      requires Valid()
      modifies this
      ensures Outcome(View(), reply) == Catalog.DeleteProject(old(View()), slug, userId)
      ensures Valid()
    {
      var id := FindBySlug(projects, slug);
      if id.None? || !Owns(projects[id.value], userId) {
        return NotFound;
      }
      DeletedAgrees(View(), index, cache, id.value);
      var without := WithoutProject(View(), id.value);
      var shown := projects[id.value].slug;
      projects, versions, files := without.projects, without.versions, without.files;
      index := index - {id.value};
      Invalidate(shown);
      reply := Deleted;
    }

    // ---------- organizations ----------

    /** Neither index nor cache hears of it. */
    method LinkProject(id: Id, organizationId: Option<Id>, now: nat)
      requires Valid() && id in projects
      modifies this`projects
      ensures View() == Catalog.LinkOrganization(old(View()), id, organizationId, now) && Valid()
    {
      LinkAgrees(View(), index, cache, id, organizationId, now);
      projects := projects[id := projects[id].(organizationId := organizationId, updatedAt := now)];
    }

    method AddProjectToOrganization(organizationId: string, slug: string, userId: Id, now: nat) returns (reply: Reply)
      requires Valid()
      modifies this`projects
      ensures Outcome(View(), reply)
           == AddToOrganization(old(View()), Trim(organizationId), Trim(slug), userId, now)
      ensures Valid()
    {
      var organization, name := Trim(organizationId), Trim(slug);
      if organization == [] || name == [] {
        return BadRequest;
      }
      if !OwnsOrganization(View(), organization, userId) {
        return NotFound;
      }
      var id := FindSettled(View(), name, userId);
      if id.None? {
        return NotFound;
      }
      LinkProject(id.value, Some(organization), now);
      reply := OrganizationShown(organization);
    }

    method RemoveProjectFromOrganization(organizationId: string, slug: string, userId: Id, now: nat)
      returns (reply: Reply)
      requires Valid()
      modifies this`projects
      ensures Outcome(View(), reply)
           == RemoveFromOrganization(old(View()), Trim(organizationId), Trim(slug), userId, now)
      ensures Valid()
    {
      var organization, name := Trim(organizationId), Trim(slug);
      if organization == [] || name == [] {
        return BadRequest;
      }
      if !OwnsOrganization(View(), organization, userId) {
        return NotFound;
      }
      var id := FindSettled(View(), name, userId);
      if id.None? || projects[id.value].organizationId != Some(organization) {
        return NotFound;
      }
      LinkProject(id.value, None, now);
      reply := OrganizationShown(organization);
    }

    // ---------- what other services change ----------

    /** Organizations and licences are created and renamed, email addresses confirmed, files scanned again. */
    method ChangeAround(
      organizations': map<Id, Organization>, licenses': map<string, License>, verified': set<Id>, files': map<Id, File>)
      requires Valid() && forall f :: f in files' ==> files'[f].versionId in versions
      modifies this`organizations, this`licenses, this`verified, this`files
      ensures View() == old(View()).(
        organizations := organizations', licenses := licenses', verified := verified', files := files')
      ensures Valid()
    {
      organizations, licenses, verified, files := organizations', licenses', verified', files';
    }

    /** Members are invited, accept, change permissions and leave; the owner stays the owner. */
    method ChangeMembers(id: Id, members: map<Id, Member>)
      requires Valid() && id in projects && SameOwners(projects[id].members, members)
      modifies this`projects
      ensures projects == old(projects)[id := old(projects)[id].(members := members)]
      ensures View() == old(View()).(projects := projects) && Valid()
    {
      MembersAgree(View(), index, cache, id, members);
      projects := projects[id := projects[id].(members := members)];
    }

    // ---------- releases ----------

    method CreateVersion(
      input: ReleaseInput, authorId: Id, versionId: Id, fileIds: seq<Id>, around: Outside, now: nat
    ) returns (reply: Reply)
      requires Valid() && versionId !in versions && |fileIds| == |input.files|
      modifies this
      ensures Outcome(View(), reply)
           == Catalog.CreateVersion(old(View()), input, authorId, versionId, fileIds, around, now)
      ensures Valid()
    {
      var error := CheckRelease(input, authorId, around);
      if error.Some? {
        return error.value;
      }
      var id := FindBySlug(projects, input.projectSlug).value;
      var version := NewVersion(id, input, authorId, around.isGameVersion);
      reply := StoreVersion(versionId, version, fileIds, input.files, now);
    }

    /** The checks in their order, with the loops over the files of the request. */
    method CheckRelease(input: ReleaseInput, authorId: Id, around: Outside) returns (error: Option<Reply>)
      requires Valid()
      ensures error == CreateVersionError(View(), input, authorId, around)
    {
      if authorId !in verified {
        return Some(Forbidden);
      }
      var id := FindBySlug(projects, input.projectSlug);
      if id.None? {
        return Some(NotFound);
      }
      if !Manages(projects[id.value], authorId, ManageVersions) {
        return Some(Forbidden);
      }
      if !IsApproved(projects, id.value) {
        return Some(BadRequest);
      }
      var place := VersionFiles.Place(around.parse, around.baseUrl, input.projectSlug);
      var refused := VersionFiles.ValidateVersionFiles(input.files, place);
      if refused.Some? || Trim(input.number) == [] {
        return Some(BadRequest);
      }
      error := ScanVersionFiles(input.files, around.scan);
      if error.None? && FindVersion(versions, id.value, Trim(input.number)).Some? {
        return Some(BadRequest);
      }
    }

    method StoreVersion(
      versionId: Id, version: Version, fileIds: seq<Id>, inputs: seq<VersionFiles.FileInput>, now: nat
    ) returns (reply: Reply)
      requires Valid() && versionId !in versions && version.projectId in projects && version.downloads == 0
      requires NumberFree(versions, versionId, version.projectId, version.number) && |fileIds| == |inputs|
      modifies this
      ensures var stored := StoredFiles(old(files), fileIds, versionId, inputs);
        Outcome(View(), reply) == PutVersion(old(View()).(files := stored), versionId, version, now)
      ensures Valid()
    {
      InsertVersion(versionId, version, fileIds, inputs);
      TouchProject(version.projectId, now);
      RefreshProjectAfterVersionChange(version.projectId);
      reply := VersionShown(version);
    }

    method InsertVersion(
      versionId: Id, version: Version, fileIds: seq<Id>, inputs: seq<VersionFiles.FileInput>)
      requires Valid() && versionId !in versions && version.projectId in projects && version.downloads == 0
      requires NumberFree(versions, versionId, version.projectId, version.number) && |fileIds| == |inputs|
      modifies this`versions, this`files
      ensures versions == old(versions)[versionId := version] && Valid()
      ensures files == StoredFiles(old(files), fileIds, versionId, inputs)
    {
      var stored := StoreFiles(files, fileIds, versionId, inputs);
      ghost var t := View().(versions := versions[versionId := version]);
      AddVersionKeeps(View(), t, versionId, version);
      FilesStored(t, fileIds, versionId, inputs);
      FilesAgree(t, index, cache, stored);
      versions, files := versions[versionId := version], stored;
    }

    method ModerateVersion(action: string, versionId: Id, now: nat) returns (reply: Reply)
      requires Valid()
      modifies this
      ensures Outcome(View(), reply) == Catalog.ModerateVersion(old(View()), ActionFrom(action), versionId, now)
      ensures Valid()
    {
      var kind := ActionFrom(action);
      if kind.None? {
        return Forbidden;
      }
      if versionId !in versions {
        return NotFound;
      }
      OwnNumberFree(versions, versionId);
      reply := RewriteVersion(versionId, ModeratedVersion(versions[versionId], kind.value, now), now);
    }

    method UpdateVersion(
      versionId: Id, input: VersionPatch, userId: Id, isGameVersion: string -> bool, now: nat
    ) returns (reply: Reply)
      requires Valid()
      modifies this
      ensures Outcome(View(), reply)
           == Catalog.UpdateVersion(old(View()), versionId, input, userId, isGameVersion, now)
      ensures Valid()
    {
      var error := UpdateVersionError(View(), versionId, input, userId);
      if error.Some? {
        return error.value;
      }
      reply := RewriteVersion(versionId, PatchedVersion(versions[versionId], input, isGameVersion), now);
    }

    /** Writes a version, marks its project as updated, and refreshes index and cache. */
    method RewriteVersion(versionId: Id, version: Version, now: nat) returns (reply: Reply)
      requires Valid() && versionId in versions && version.projectId == versions[versionId].projectId
      requires version.downloads == versions[versionId].downloads
      requires NumberFree(versions, versionId, version.projectId, version.number)
      modifies this
      ensures version.projectId in old(projects)
      ensures Outcome(View(), reply) == PutVersion(old(View()), versionId, version, now) && Valid()
    {
      assert VersionCounted(projects, versionId, versions[versionId]);
      VersionPutKeeps(View(), versionId, version);
      versions := versions[versionId := version];
      TouchProject(version.projectId, now);
      RefreshProjectAfterVersionChange(version.projectId);
      reply := VersionShown(version);
    }

    method TouchProject(id: Id, now: nat)
      requires Valid() && id in projects
      modifies this`projects
      ensures View() == Touched(old(View()), id, now) && Valid()
    {
      LinkAgrees(View(), index, cache, id, projects[id].organizationId, now);
      projects := projects[id := projects[id].(updatedAt := now)];
    }

    method DeleteVersion(versionId: Id, userId: Id) returns (reply: Reply)
      requires Valid()
      modifies this
      ensures Outcome(View(), reply) == Catalog.RemoveVersion(old(View()), versionId, userId) && Valid()
    {
      var error := ManageVersionError(View(), versionId, userId);
      if error.Some? {
        return error.value;
      }
      assert VersionCounted(projects, versionId, versions[versionId]);
      var id := versions[versionId].projectId;
      VersionDeletedAgrees(View(), index, cache, versionId);
      var without := Catalog.DeleteVersion(View(), versionId);
      projects, versions, files := without.projects, without.versions, without.files;
      RefreshProjectAfterVersionChange(id);
      reply := Deleted;
    }

    method RefreshProjectAfterVersionChange(id: Id)
      requires Valid() && id in projects
      modifies this`index, this`cache
      ensures index == Reindexed(old(index), ContractOf(View(), id)) && cache == old(cache) - {projects[id].slug}
        && Valid()
    {
      ghost var before, index', cache' := View(), Reindexed(index, ContractOf(View(), id)), cache - {projects[id].slug};
      RefreshAgrees(before, index, cache, id);
      var contract := ContractOf(View(), id);
      IndexOrRemove(contract);
      Invalidate(contract.slug);
      assert View() == before && index == index' && cache == cache';
    }
  }

  function ApprovedById(t: Tables, ids: seq<Id>): (m: map<Id, Contract>)
    ensures forall id :: id in m <==> id in ids && IsApproved(t.projects, id)
    ensures forall id :: id in m ==> id in t.projects && m[id] == ContractOf(t, id)
  {
    map id | id in ids && IsApproved(t.projects, id) :: ContractOf(t, id)
  }

  /** The values of the keys, in the order of the keys; keys without one are dropped. */
  method LookUp<K(==), V>(values: map<K, V>, keys: seq<K>) returns (found: seq<V>)
    ensures (forall k :: k in keys ==> k in values) ==>
      |found| == |keys| && forall i :: 0 <= i < |keys| ==> found[i] == values[keys[i]]
    ensures forall v :: v in found ==> exists k :: k in keys && k in values && values[k] == v
  {
    found := [];
    for i := 0 to |keys|
      invariant (forall k :: k in keys ==> k in values) ==>
        |found| == i && forall j :: 0 <= j < i ==> found[j] == values[keys[j]]
      invariant forall v :: v in found ==> exists k :: k in keys && k in values && values[k] == v
    {
      if keys[i] in values {
        found := found + [values[keys[i]]];
      }
    }
  }

  /** Files are scanned one by one, up to the first that is not clean. */
  method ScanVersionFiles(inputs: seq<VersionFiles.FileInput>, scan: string -> Option<bool>)
    returns (error: Option<Reply>)
    ensures error == ScanError(inputs, scan)
  {
    for i := 0 to |inputs|
      invariant ScanError(inputs, scan) == ScanError(inputs[i..], scan)
    {
      assert inputs[i..][1..] == inputs[i + 1..];
      var clean := scan(Trim(inputs[i].url));
      if clean.None? {
        return Some(Failed);
      }
      if !clean.value {
        return Some(BadRequest);
      }
    }
    return None;
  }

  /** A row for every file, with the scan that found it clean. */
  method StoreFiles(files: map<Id, File>, ids: seq<Id>, versionId: Id, inputs: seq<VersionFiles.FileInput>)
    returns (stored: map<Id, File>)
    requires |ids| == |inputs|
    ensures stored == StoredFiles(files, ids, versionId, inputs)
  {
    stored := files;
    for i := 0 to |ids|
      invariant stored == StoredFiles(files, ids[..i], versionId, inputs[..i])
    {
      assert ids[..i + 1][..i] == ids[..i] && inputs[..i + 1][..i] == inputs[..i];
      stored := stored[ids[i] := File(versionId, Trim(inputs[i].url), Some(Scan(true, true)))];
    }
    assert ids[..|ids|] == ids && inputs[..|ids|] == inputs;
  }

  // ---------- what a transaction does to a project and the rows that hang on it ----------

  /** The old rows go, then one row per normalized value is inserted; no insert meets a row already there. */
  method ReplaceProjectCategories(p: Project, categories: seq<string>) returns (q: Project, inserted: bool)
    ensures inserted && q == p.(categories := UniqueNormalized(categories))
  {
    var rows;
    rows, inserted := InsertRows(UniqueNormalized(categories));
    q := p.(categories := rows);
  }

  method ReplaceProjectGameVersions(p: Project, versions: seq<string>, isGameVersion: string -> bool)
    returns (q: Project, inserted: bool)
    ensures inserted && q == p.(gameVersions := GameVersionsOf(versions, isGameVersion))
  {
    var rows;
    rows, inserted := InsertRows(GameVersionsOf(versions, isGameVersion));
    q := p.(gameVersions := rows);
  }

  method ReplaceProjectLoaders(p: Project, loaders: seq<string>) returns (q: Project, inserted: bool)
    ensures inserted && q == p.(loaders := LoadersOf(loaders))
  {
    var rows;
    rows, inserted := InsertRows(LoadersOf(loaders));
    q := p.(loaders := rows);
  }

  method NewRows(input: CreateInput, slug: string, ownerId: Id, isGameVersion: string -> bool, now: nat)
    returns (p: Project, inserted: bool)
    ensures inserted && p == NewProject(input, slug, ownerId, isGameVersion, now)
  {
    var c, g, l;
    p := NewProject(input, slug, ownerId, isGameVersion, now).(categories := [], gameVersions := [], loaders := []);
    p, c := ReplaceProjectCategories(p, OrEmpty(input.categories));
    p, g := ReplaceProjectGameVersions(p, OrEmpty(input.gameVersions), isGameVersion);
    p, l := ReplaceProjectLoaders(p, OrEmpty(input.loaders));
    inserted := c && g && l;
  }

  /** Nothing is committed when the licence key is blank or a link cannot be read. */
  method UpdateRows(before: Project, input: UpdateInput, isGameVersion: string -> bool, now: nat)
    returns (p: Project, committed: bool)
    ensures committed == MetadataComplete(input)
    ensures committed ==> p == Updated(before, input, isGameVersion, now)
  {
    p := before;
    if !input.licenseKey.Unset? && Given(input.licenseKey) == [] {
      return p, false;
    }
    p := UpdatedColumns(p, input, now);
    var inserted := true;
    if input.categories.Some? {
      p, inserted := ReplaceProjectCategories(p, input.categories.value);
    }
    if inserted && input.gameVersions.Some? {
      p, inserted := ReplaceProjectGameVersions(p, input.gameVersions.value, isGameVersion);
    }
    if inserted && input.loaders.Some? {
      p, inserted := ReplaceProjectLoaders(p, input.loaders.value);
    }
    committed := inserted;
    if inserted && input.links.Some? {
      var links := LinksFrom(input.links.value);
      committed := links.Some?;
      if links.Some? {
        p := p.(links := links.value);
      }
    }
  }

  /** Rows keyed by their value are inserted one by one, and the first that is already there fails. */
  method InsertRows<T(==)>(values: seq<T>) returns (rows: seq<T>, inserted: bool)
    ensures inserted <==> Distinct(values)
    ensures inserted ==> rows == values
  {
    rows := [];
    for i := 0 to |values|
      invariant rows == values[..i]
      invariant forall j, k :: 0 <= j < k < i ==> values[j] != values[k]
    {
      if values[i] in rows {
        return rows, false;
      }
      rows := rows + [values[i]];
    }
    inserted := true;
  }

  /** A decision changes the status and times of a row, and nothing counted. */
  lemma ModeratedShown(t: Tables, id: Id, action: Action, now: nat)
    requires TablesInv(t) && id in t.projects
    ensures var p := Moderated(t.projects[id], action, now);
      SameCounted(t.projects[id], p) && p.followers == |p.follows| && p.gallery == t.projects[id].gallery
  {
    assert ProjectCounted(t.projects[id]);
  }

  /** Neither locks nor gallery images are shown by a document. */
  lemma UnindexedShown(id: Id, p: Project, q: Project)
    requires q == p.(lock := q.lock, gallery := q.gallery)
    ensures SameDocument(ContractToSearch(Bare(id, p)), ContractToSearch(Bare(id, q)))
  {
  }

  lemma SameRow(projects: map<Id, Project>, slug: string, id: Id, found: Option<Id>)
    requires SlugsUnique(projects) && HasSlug(projects, slug, id) && found == FindBySlug(projects, slug)
    ensures found == Some(id)
  {
    assert found.Some?;
  }

  lemma CacheFilled(projects: map<Id, Project>, cache: map<string, Contract>, slug: string, c: Contract)
    requires CacheCoherent(projects, cache) && CachedFresh(projects, slug, c)
    ensures CacheCoherent(projects, cache[slug := c])
  {
    var after := cache[slug := c];
    forall s | s in after ensures CachedFresh(projects, s, after[s]) {
      assert s != slug ==> CachedFresh(projects, s, cache[s]);
    }
  }
}
