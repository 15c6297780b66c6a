/** Paths of the web application: how each kind of page is printed, and which reader claims a path. */
module Routing {
  import opened Text
  import PercentEncoding

  datatype View =
    | Home | Discover | Collections | Users | Dashboard | Notifications | Platform | Status
    | Terms | Privacy | Safety | OrganizationView | Profile

  datatype Entity = ProjectEntity | OrganizationEntity | CollectionEntity | VersionEntity

  datatype EditTarget = EditTarget(entity: Entity, id: string)

  datatype SelectedCollection = SelectedCollection(owner: string, slug: string)

  /** A reader passes a path over, claims it, or throws on a segment it cannot decode. */
  datatype Claim<+T> = Passed | Claimed(value: T) | UriError

  const DASHBOARD := "dashboard"
  const EDIT := "edit"
  const USERS := "users"
  const COLLECTIONS := "collections"
  const ORGANIZATIONS := "organizations"

  // ---------- printers ----------

  function EntityName(entity: Entity): string {
    match entity
    case ProjectEntity => "projects"
    case OrganizationEntity => "organizations"
    case CollectionEntity => "collections"
    case VersionEntity => "versions"
  }

  function DashboardEditPath(target: EditTarget): string {
    "/" + DASHBOARD + "/" + EntityName(target.entity) + "/" + PercentEncoding.Encode(target.id) + "/" + EDIT
  }

  function UserPath(username: string): string {
    "/" + USERS + "/" + PercentEncoding.Encode(username)
  }

  function CollectionPath(c: SelectedCollection): string {
    "/" + COLLECTIONS + "/" + PercentEncoding.Encode(c.owner) + "/" + PercentEncoding.Encode(c.slug)
  }

  function OrganizationPath(slug: string): string {
    "/" + ORGANIZATIONS + "/" + PercentEncoding.Encode(slug)
  }

  // ---------- readers ----------

  /** The non-empty pieces between slashes. */
  function Segments(pathname: string): seq<string> {
    NonEmpty(Split(pathname, '/'))
  }

  function EntityFrom(name: string): Option<Entity> {
    if name == "projects" then Some(ProjectEntity)
    else if name == "organizations" then Some(OrganizationEntity)
    else if name == "collections" then Some(CollectionEntity)
    else if name == "versions" then Some(VersionEntity)
    else None
  }

  function DashboardEditFrom(pathname: string): Claim<EditTarget> {
    var s := Segments(pathname);
    if |s| < 4 || s[0] != DASHBOARD || s[3] != EDIT then Passed
    else if EntityFrom(s[1]).None? then Passed
    else
      match PercentEncoding.Decode(s[2])
      case None => UriError
      case Some(id) => Claimed(EditTarget(EntityFrom(s[1]).value, id))
  }

  function CollectionFrom(pathname: string): Claim<SelectedCollection> {
    var s := Segments(pathname);
    if |s| < 3 || s[0] != COLLECTIONS then Passed
    else
      match (PercentEncoding.Decode(s[1]), PercentEncoding.Decode(s[2]))
      case (Some(owner), Some(slug)) => Claimed(SelectedCollection(owner, slug))
      case _ => UriError
  }

  function OneName(resource: string, pathname: string): Claim<string> {
    var s := Segments(pathname);
    if |s| < 2 || s[0] != resource then Passed
    else
      match PercentEncoding.Decode(s[1])
      case None => UriError
      case Some(name) => Claimed(name)
  }

  function ProfileFrom(pathname: string): Claim<string> {
    OneName(USERS, pathname)
  }

  function OrganizationFrom(pathname: string): Claim<string> {
    OneName(ORGANIZATIONS, pathname)
  }

  predicate IsProjectTypePath(segment: string) {
    segment == "mods" || segment == "resource-packs" || segment == "data-packs" || segment == "shaders"
    || segment == "modpacks" || segment == "plugins"
  }

  predicate ProjectTypeClaims(pathname: string) {
    var s := Segments(pathname);
    s != [] && IsProjectTypePath(s[0])
  }

  function StaticView(pathname: string): Option<View> {
    if pathname == "/" then Some(Home)
    else if pathname == "/collections" then Some(Collections)
    else if pathname == "/dashboard" then Some(Dashboard)
    else if pathname == "/notifications" then Some(Notifications)
    else if pathname == "/organizations" then Some(OrganizationView)
    else if pathname == "/platform" then Some(Platform)
    else if pathname == "/status" then Some(Status)
    else if pathname == "/terms" then Some(Terms)
    else if pathname == "/privacy" then Some(Privacy)
    else if pathname == "/safety" then Some(Safety)
    else if pathname == "/users" then Some(Users)
    else None
  }

  /** The readers in the order they are tried; `discover` is what the query string asks for. */
  function ViewFrom(pathname: string, discover: bool): Claim<View> {
    if StaticView(pathname).Some? then Claimed(StaticView(pathname).value)
    else if DashboardEditFrom(pathname).UriError? then UriError
    else if DashboardEditFrom(pathname).Claimed? then Claimed(Dashboard)
    else if CollectionFrom(pathname).UriError? then UriError
    else if CollectionFrom(pathname).Claimed? then Claimed(Collections)
    else if OrganizationFrom(pathname).UriError? then UriError
    else if OrganizationFrom(pathname).Claimed? then Claimed(OrganizationView)
    else if ProfileFrom(pathname).UriError? then UriError
    else if ProfileFrom(pathname).Claimed? then Claimed(Profile)
    else if ProjectTypeClaims(pathname) then Claimed(Discover)
    else Claimed(if discover then Discover else Home)
  }

  // ---------- segments of a printed path ----------

  /** The path of the given segments. */
  function PathOf(segments: seq<string>): string {
    if segments == [] then [] else "/" + segments[0] + PathOf(segments[1..])
  }

  predicate PlainSegment(s: string) {
    s != [] && '/' !in s
  }

  lemma {:induction false} SegmentsOf(segments: seq<string>)
    requires forall i :: 0 <= i < |segments| ==> PlainSegment(segments[i])
    ensures Segments(PathOf(segments)) == segments
  {
    if segments != [] {
      SplitPath(segments);
      assert NonEmpty(Split(PathOf(segments), '/')) == NonEmpty(segments) by {
        assert Split(PathOf(segments), '/')[1..] == segments;
      }
      AllNonEmpty(segments);
    }
  }

  lemma FirstOfPath(segments: seq<string>)
    requires segments != []
    ensures PathOf(segments) == "/" + (segments[0] + PathOf(segments[1..]))
    ensures |segments| > 1 ==> PathOf(segments[1..]) != [] && PathOf(segments[1..])[0] == '/'
  {
  }

  lemma SplitBehindSlash(s: string)
    ensures Split("/" + s, '/') == [[]] + Split(s, '/')
  {
    assert ("/" + s)[1..] == s;
  }

  lemma {:induction false} SplitPath(segments: seq<string>)
    requires forall i :: 0 <= i < |segments| ==> PlainSegment(segments[i])
    ensures Split(PathOf(segments), '/') == [[]] + segments
  {
    if segments != [] {
      var first, rest := segments[0], PathOf(segments[1..]);
      SplitPath(segments[1..]);
      FirstOfPath(segments);
      SplitBehindSlash(first + rest);
      assert segments == [first] + segments[1..];
      if segments[1..] == [] {
        assert first + rest == first;
        SplitWhole(first, '/');
      } else {
        var behind := rest[1..];
        assert rest == "/" + behind;
        SplitBehindSlash(behind);
        assert ([[]] + Split(behind, '/'))[1..] == Split(behind, '/');
        assert first + rest == first + ['/'] + behind;
        SplitFirst(first, behind, '/');
      }
    }
  }

  lemma {:induction false} AllNonEmpty(segments: seq<string>)
    requires forall i :: 0 <= i < |segments| ==> PlainSegment(segments[i])
    ensures NonEmpty(segments) == segments
  {
    if segments != [] {
      AllNonEmpty(segments[1..]);
    }
  }

  lemma {:induction false} SegmentsPlain(pieces: seq<string>)
    ensures forall s :: s in NonEmpty(pieces) ==> s != []
  {
    if pieces != [] {
      SegmentsPlain(pieces[1..]);
    }
  }

  lemma EncodedSegment(s: string)
    requires s != []
    ensures PlainSegment(PercentEncoding.Encode(s))
  {
    PercentEncoding.PlainOutput(s);
  }

  lemma PathOfTwo(a: string, b: string)
    ensures PathOf([a, b]) == "/" + a + "/" + b
  {
    assert [a, b][1..] == [b] && [b][1..] == [];
    assert PathOf([b]) == "/" + b + [];
  }

  lemma PathOfThree(a: string, b: string, c: string)
    ensures PathOf([a, b, c]) == "/" + a + "/" + b + "/" + c
  {
    assert [a, b, c][1..] == [b, c];
    PathOfTwo(b, c);
  }

  lemma PathOfFour(a: string, b: string, c: string, d: string)
    ensures PathOf([a, b, c, d]) == "/" + a + "/" + b + "/" + c + "/" + d
  {
    assert [a, b, c, d][1..] == [b, c, d];
    PathOfThree(b, c, d);
  }

  lemma StaticSlash(pathname: string)
    requires StaticView(pathname).Some?
    ensures pathname[..1] == "/" && forall i :: 1 <= i < |pathname| ==> pathname[i] != '/'
  {
  }

  /** A static view claims no path of two or more segments. */
  lemma StaticHasOneSegment(pathname: string)
    requires StaticView(pathname).Some?
    ensures |Segments(pathname)| <= 1
  {
    if |pathname| <= 1 {
      assert Split("/", '/') == [[], []];
    } else {
      StaticSlash(pathname);
      var name := pathname[1..];
      assert pathname == "/" + name;
      assert PathOf([name]) == pathname;
      SegmentsOf([name]);
    }
  }

  // ---------- printing and reading undo each other ----------

  lemma EditSegments(target: EditTarget) returns (s: seq<string>)
    requires target.id != []
    ensures s == [DASHBOARD, EntityName(target.entity), PercentEncoding.Encode(target.id), EDIT]
    ensures Segments(DashboardEditPath(target)) == s
  {
    s := [DASHBOARD, EntityName(target.entity), PercentEncoding.Encode(target.id), EDIT];
    PathOfFour(s[0], s[1], s[2], s[3]);
    assert PlainSegment(s[0]) && PlainSegment(s[1]) && PlainSegment(s[3]);
    EncodedSegment(target.id);
    SegmentsOf(s);
  }

  lemma EntityBack(entity: Entity)
    ensures EntityFrom(EntityName(entity)) == Some(entity)
  {
  }

  lemma DashboardEditBack(target: EditTarget)
    requires target.id != []
    ensures DashboardEditFrom(DashboardEditPath(target)) == Claimed(target)
    ensures StaticView(DashboardEditPath(target)).None?
  {
    var s := EditSegments(target);
    EntityBack(target.entity);
    PercentEncoding.RoundTrip(target.id);
    if StaticView(DashboardEditPath(target)).Some? {
      StaticHasOneSegment(DashboardEditPath(target));
    }
  }

  lemma CollectionBack(c: SelectedCollection)
    requires c.owner != [] && c.slug != []
    ensures CollectionFrom(CollectionPath(c)) == Claimed(c)
    ensures StaticView(CollectionPath(c)).None?
  {
    var p := CollectionPath(c);
    var s := [COLLECTIONS, PercentEncoding.Encode(c.owner), PercentEncoding.Encode(c.slug)];
    PathOfThree(s[0], s[1], s[2]);
    assert p == PathOf(s);
    EncodedSegment(c.owner);
    EncodedSegment(c.slug);
    SegmentsOf(s);
    PercentEncoding.RoundTrip(c.owner);
    PercentEncoding.RoundTrip(c.slug);
    if StaticView(p).Some? {
      StaticHasOneSegment(p);
    }
  }

  lemma NameBack(resource: string, name: string)
    requires PlainSegment(resource) && name != []
    ensures OneName(resource, "/" + resource + "/" + PercentEncoding.Encode(name)) == Claimed(name)
    ensures StaticView("/" + resource + "/" + PercentEncoding.Encode(name)).None?
  {
    var p := "/" + resource + "/" + PercentEncoding.Encode(name);
    var s := [resource, PercentEncoding.Encode(name)];
    PathOfTwo(s[0], s[1]);
    EncodedSegment(name);
    SegmentsOf(s);
    PercentEncoding.RoundTrip(name);
    if StaticView(p).Some? {
      StaticHasOneSegment(p);
    }
  }

  lemma UserBack(username: string)
    requires username != []
    ensures ProfileFrom(UserPath(username)) == Claimed(username)
    ensures StaticView(UserPath(username)).None?
  {
    NameBack(USERS, username);
  }

  lemma OrganizationBack(slug: string)
    requires slug != []
    ensures OrganizationFrom(OrganizationPath(slug)) == Claimed(slug)
    ensures StaticView(OrganizationPath(slug)).None?
  {
    NameBack(ORGANIZATIONS, slug);
  }

  /** How many of the four readers do not pass a path over. */
  function Readers(pathname: string): nat {
    (if DashboardEditFrom(pathname).Passed? then 0 else 1) + (if CollectionFrom(pathname).Passed? then 0 else 1)
    + (if OrganizationFrom(pathname).Passed? then 0 else 1) + (if ProfileFrom(pathname).Passed? then 0 else 1)
  }

  lemma FirstSegmentDecides(pathname: string)
    ensures var s := Segments(pathname);
      (!DashboardEditFrom(pathname).Passed? ==> |s| >= 2 && s[0] == DASHBOARD)
      && (!CollectionFrom(pathname).Passed? ==> |s| >= 2 && s[0] == COLLECTIONS)
      && (!OrganizationFrom(pathname).Passed? ==> |s| >= 2 && s[0] == ORGANIZATIONS)
      && (!ProfileFrom(pathname).Passed? ==> |s| >= 2 && s[0] == USERS)
  {
  }

  /** No path, printed or typed in, is claimed twice: readers, project types and static views exclude one another. */
  lemma AtMostOneReader(pathname: string)
    ensures Readers(pathname) <= 1
    ensures ProjectTypeClaims(pathname) || StaticView(pathname).Some? ==> Readers(pathname) == 0
  {
    FirstSegmentDecides(pathname);
    if StaticView(pathname).Some? {
      StaticHasOneSegment(pathname);
    }
  }

  /** A printed path of each kind is read back, and shown as the page it was printed for, by that reader alone. */
  lemma DashboardEditRoundTrip(target: EditTarget, discover: bool)
    requires target.id != []
    ensures var p := DashboardEditPath(target);
      DashboardEditFrom(p) == Claimed(target) && Readers(p) == 1 && !ProjectTypeClaims(p) && StaticView(p).None?
      && ViewFrom(p, discover) == Claimed(Dashboard)
  {
    DashboardEditBack(target);
    AtMostOneReader(DashboardEditPath(target));
  }

  lemma CollectionRoundTrip(c: SelectedCollection, discover: bool)
    requires c.owner != [] && c.slug != []
    ensures var p := CollectionPath(c);
      CollectionFrom(p) == Claimed(c) && Readers(p) == 1 && !ProjectTypeClaims(p) && StaticView(p).None?
      && ViewFrom(p, discover) == Claimed(Collections)
  {
    CollectionBack(c);
    AtMostOneReader(CollectionPath(c));
  }

  lemma UserRoundTrip(username: string, discover: bool)
    requires username != []
    ensures var p := UserPath(username);
      ProfileFrom(p) == Claimed(username) && Readers(p) == 1 && !ProjectTypeClaims(p) && StaticView(p).None?
      && ViewFrom(p, discover) == Claimed(Profile)
  {
    UserBack(username);
    AtMostOneReader(UserPath(username));
  }

  lemma OrganizationRoundTrip(slug: string, discover: bool)
    requires slug != []
    ensures var p := OrganizationPath(slug);
      OrganizationFrom(p) == Claimed(slug) && Readers(p) == 1 && !ProjectTypeClaims(p) && StaticView(p).None?
      && ViewFrom(p, discover) == Claimed(OrganizationView)
  {
    OrganizationBack(slug);
    AtMostOneReader(OrganizationPath(slug));
  }

  lemma DecodedSegment(pathname: string, i: nat)
    requires i < |Segments(pathname)|
    ensures PercentEncoding.Decode(Segments(pathname)[i]).Some? ==>
      PercentEncoding.Decode(Segments(pathname)[i]).value != []
  {
    SegmentsPlain(Split(pathname, '/'));
    assert Segments(pathname)[i] in Segments(pathname);
    PercentEncoding.DecodedNonEmpty(Segments(pathname)[i]);
  }

  /**
   Whatever a reader claims names something printable, and the printed path is claimed as the same
   thing: extra slashes and segments or odd escapes never lead to a page that has no path of its own.
   */
  lemma ClaimedIsPrintable(pathname: string)
    ensures DashboardEditFrom(pathname).Claimed? ==>
      DashboardEditFrom(DashboardEditPath(DashboardEditFrom(pathname).value)) == DashboardEditFrom(pathname)
    ensures CollectionFrom(pathname).Claimed? ==>
      CollectionFrom(CollectionPath(CollectionFrom(pathname).value)) == CollectionFrom(pathname)
    ensures ProfileFrom(pathname).Claimed? ==>
      ProfileFrom(UserPath(ProfileFrom(pathname).value)) == ProfileFrom(pathname)
    ensures OrganizationFrom(pathname).Claimed? ==>
      OrganizationFrom(OrganizationPath(OrganizationFrom(pathname).value)) == OrganizationFrom(pathname)
  {
    if DashboardEditFrom(pathname).Claimed? {
      DecodedSegment(pathname, 2);
      DashboardEditBack(DashboardEditFrom(pathname).value);
    }
    if CollectionFrom(pathname).Claimed? {
      DecodedSegment(pathname, 1);
      DecodedSegment(pathname, 2);
      CollectionBack(CollectionFrom(pathname).value);
    }
    if ProfileFrom(pathname).Claimed? {
      DecodedSegment(pathname, 1);
      UserBack(ProfileFrom(pathname).value);
    }
    if OrganizationFrom(pathname).Claimed? {
      DecodedSegment(pathname, 1);
      OrganizationBack(OrganizationFrom(pathname).value);
    }
  }
}
