/**
 The public base URL as it is configured, and exactly when the URLs printed behind it pass the check on
 release files: for every base with a scheme and an authority, and any way of reading authorities.
 */
module PublicBase {
  import opened Text
  import opened Slug
  import opened Storage
  import opened UrlParsing
  import PercentEncoding

  // ---------- the condition ----------

  predicate HasQuery(s: string) {
    exists c :: c in s && IsQuery(c)
  }

  /** The authority is one that can be read. */
  predicate HostFits(hosts: HostReader, p: Parts) {
    (p.special ==> p.Authority() != []) && hosts(p.Authority()).Some?
  }

  /** The path, its dot segments resolved and its backslashes taken as they are read, ends behind no slash. */
  predicate PathFits(p: Parts) {
    var kept := Kept(PathSegments(p.special, p.Tail()));
    kept == [] || kept[|kept| - 1] != []
  }

  /** White space behind the base that URL parsing does not remove is harmless in a host that ignores it. */
  predicate SpaceFits(hosts: HostReader, p: Parts, space: string) {
    space == [] || (p.Tail() == [] && hosts(p.Authority() + space) == hosts(p.Authority()))
  }

  predicate PartsFit(hosts: HostReader, p: Parts, slashes: string, space: string) {
    HostFits(hosts, p) && !HasQuery(p.Tail()) && PathFits(p) && slashes == [] && SpaceFits(hosts, p, space)
  }

  /** The base as the check reads it, without white space around it and slashes at its end. */
  function ReadBase(base: string): Option<Parts> {
    PartsOf(Without(StripSlashes(Trim(base))))
  }

  /** Slashes that stay in what is printed: those with white space behind them. */
  function SlashesLeft(base: string): string {
    if SpaceAtEnd(base) == [] then [] else SlashesAtEnd(Trim(base))
  }

  predicate BaseFits(hosts: HostReader, base: string) {
    ReadBase(base).Some?
    && PartsFit(hosts, ReadBase(base).value, SlashesLeft(base), Without(SpaceAtEnd(base)))
  }

  // ---------- the key ----------

  function Head(slug: string): seq<string> {
    [PROJECTS, KeyPart(slug), VERSION_FILE]
  }

  function Key(slug: string, uuid: string, extension: string): string {
    UploadKey(slug, VERSION_FILE, uuid, extension)
  }

  predicate KeySegment(segment: string) {
    Storage.Plain(segment) && !IsDots(segment)
  }

  lemma {:induction false} NoDotNoDots(segment: string)
    requires segment != [] ==> segment[0] != '.' && segment[0] != '%'
    ensures !IsDots(segment)
  {
  }

  lemma KeySegments(slug: string, uuid: string, extension: string)
    requires SlugText(slug) && IsUuid(uuid) && Storage.Plain(extension)
    ensures var segments := Head(slug) + [uuid + extension];
      Key(slug, uuid, extension) == Join(segments, "/")
      && forall i :: 0 <= i < |segments| ==> KeySegment(segments[i])
  {
    SlugIsKeyPart(slug);
    assert forall c :: c in slug ==> SlugChar(c);
    if slug != [] {
      assert slug[0] in slug;
    }
    NoDotNoDots(slug);
    NoDotNoDots(uuid + extension);
    NoDotNoDots(PROJECTS);
    NoDotNoDots(VERSION_FILE);
    assert Head(slug) + [uuid + extension] == [PROJECTS, KeyPart(slug), VERSION_FILE, uuid + extension];
  }

  lemma KeySplit(special: bool, slug: string, uuid: string, extension: string)
    requires SlugText(slug) && IsUuid(uuid) && Storage.Plain(extension)
    ensures Split(Clean(special, Key(slug, uuid, extension)), '/') == Head(slug) + [uuid + extension]
  {
    PrintedUrl([], slug, uuid, extension);
    PlainIsClean(special, Key(slug, uuid, extension));
    KeySegments(slug, uuid, extension);
    var segments := Head(slug) + [uuid + extension];
    forall piece | piece in segments ensures '/' !in piece {
      assert KeySegment(piece);
    }
    SplitJoin(segments, '/');
  }

  // ---------- under the prefix, segment by segment ----------

  /** The segments begin with those the check expects below a path. */
  predicate Under(segments: seq<string>, home: seq<string>, slug: string) {
    Goes(segments, Bare(home) + Head(slug))
  }

  lemma HeadLead(slug: string, b: string)
    ensures b + Lead(Head(slug)) + "/" == b + "/" + PROJECTS + "/" + KeyPart(slug) + "/" + VERSION_FILE + "/"
  {
    var p, k, v := PROJECTS, KeyPart(slug), VERSION_FILE;
    assert [p, k, v][1..] == [k, v] && [k, v][1..] == [v];
    LeadOne(v);
    assert Lead([k, v]) == "/" + k + Lead([v]);
    assert Lead([p, k, v]) == "/" + p + Lead([k, v]);
    ThreeBehind(b, p, k, v);
  }

  lemma ThreeBehind(b: string, p: string, k: string, v: string)
    ensures b + ("/" + p + ("/" + k + ("/" + v))) + "/" == b + "/" + p + "/" + k + "/" + v + "/"
  {
  }

  lemma PrefixIs(home: seq<string>, slug: string)
    requires SlashFree(home)
    ensures ExpectedPrefix(Lead(home + [[]]), slug) == Lead(Bare(home) + Head(slug)) + "/"
  {
    LeadBoth(home, [[]]);
    LeadOne([]);
    LeadStripped(home);
    LeadBoth(Bare(home), Head(slug));
    HeadLead(slug, Lead(Bare(home)));
  }

  lemma HeadSlashFree(slug: string)
    ensures SlashFree(Head(slug))
  {
  }

  lemma UnderText(segments: seq<string>, home: seq<string>, slug: string)
    requires SlashFree(segments) && SlashFree(home)
    ensures StartsWith(Lead(segments), ExpectedPrefix(Lead(home + [[]]), slug)) <==> Under(segments, home, slug)
  {
    PrefixIs(home, slug);
    HeadSlashFree(slug);
    LeadUnder(segments, Bare(home) + Head(slug));
  }

  lemma OtherFirst(segments: seq<string>, home: seq<string>, slug: string)
    requires |Bare(home)| < |segments| && segments[|Bare(home)|] != PROJECTS
    ensures !Under(segments, home, slug)
  {
    var first := Bare(home) + Head(slug);
    assert first[|Bare(home)|] == PROJECTS;
    assert |first| < |segments| ==> segments[..|first|][|Bare(home)|] == segments[|Bare(home)|];
  }

  lemma OtherSecond(segments: seq<string>, home: seq<string>, slug: string)
    requires |Bare(home)| + 1 < |segments| && segments[|Bare(home)| + 1] != KeyPart(slug)
    ensures !Under(segments, home, slug)
  {
    var first := Bare(home) + Head(slug);
    assert first[|Bare(home)| + 1] == KeyPart(slug);
    assert |first| < |segments| ==> segments[..|first|][|Bare(home)| + 1] == segments[|Bare(home)| + 1];
  }

  lemma OtherLast(segments: seq<string>, home: seq<string>, slug: string)
    requires 0 < |Bare(home)| <= |segments| && segments[|Bare(home)| - 1] != home[|Bare(home)| - 1]
    ensures !Under(segments, home, slug)
  {
    var first := Bare(home) + Head(slug);
    assert first[|Bare(home)| - 1] == home[|Bare(home)| - 1];
    assert |first| < |segments| ==> segments[..|first|][|Bare(home)| - 1] == segments[|Bare(home)| - 1];
  }

  /** The key right behind the path: under it exactly when the path does not end in empty segments. */
  lemma KeyUnder(home: seq<string>, slug: string, file: string)
    ensures Under(home + (Head(slug) + [file]), home, slug) <==> home == [] || home[|home| - 1] != []
  {
    var segments := home + (Head(slug) + [file]);
    if Bare(home) == home {
      assert segments[..|home + Head(slug)|] == home + Head(slug);
    } else {
      assert segments[|Bare(home)|] == [];
      OtherFirst(segments, home, slug);
    }
  }

  predicate Percent(segment: string) {
    '%' in segment
  }

  /** Empty segments, or one with an escape, between path and key. */
  lemma BetweenRefused(home: seq<string>, more: seq<string>, slug: string)
    requires more != [] && (more[0] == [] || Percent(more[0]))
    ensures !Under(home + more, home, slug)
  {
    var segments := home + more;
    NoPercent(slug);
    if Bare(home) == home {
      assert segments[|home|] == more[0];
    } else {
      assert segments[|Bare(home)|] == [];
    }
    OtherFirst(segments, home, slug);
  }

  lemma NoPercent(slug: string)
    ensures !Percent(PROJECTS) && !Percent(KeyPart(slug))
  {
    assert forall c :: c in KeyPart(slug) ==> KeyChar(c);
  }

  /** The last segment of the path goes on with an escape, and what it stood for is not undone. */
  lemma SpoiledRefused(before: seq<string>, last: string, e: string, more: seq<string>, slug: string)
    requires Percent(e)
    ensures !Under(before + ([last + e] + more), Step(before, last), slug)
  {
    var segments, home := before + ([last + e] + more), Step(before, last);
    NoPercent(slug);
    assert Percent(last + e);
    assert segments[|before|] == last + e;
    if Dots(last) == Some(2) && before != [] {
      var y := before[|before| - 1];
      assert segments == home + ([y, last + e] + more);
      if Bare(home) == home {
        OtherSecond(segments, home, slug);
      } else {
        assert segments[|Bare(home)|] == [];
        OtherFirst(segments, home, slug);
      }
    } else if Dots(last) == Some(2) || Dots(last) == Some(1) {
      assert segments == home + ([last + e] + more);
      BetweenRefused(home, [last + e] + more, slug);
    } else if last == [] {
      assert home == before + [[]];
      assert Bare(home) == Bare(before);
      if Bare(before) == before {
        OtherFirst(segments, home, slug);
      } else {
        assert segments[|Bare(before)|] == [];
        OtherFirst(segments, home, slug);
      }
    } else {
      assert home == before + [last] && Bare(home) == home;
      assert |last + e| > |last|;
      OtherLast(segments, home, slug);
    }
  }

  // ---------- what is read behind a base ----------

  function Behind(p: Parts, more: string): Parts {
    p.(rest := p.rest + more)
  }

  lemma TailBehind(p: Parts, more: string)
    requires p.Tail() != [] || more == [] || EndsHost(p.special, more[0])
    ensures Behind(p, more).Authority() == p.Authority() && Behind(p, more).Tail() == p.Tail() + more
  {
    var a, t := p.Authority(), p.Tail();
    assert p.rest == a + t;
    Regrouped(a, t, more);
    HostLengthIs(p.special, a, t + more);
    assert (a + (t + more))[..|a|] == a && (a + (t + more))[|a|..] == t + more;
  }

  /** Text without an end of the host, where there is no path, goes on with the authority. */
  lemma AuthorityBehind(p: Parts, u: string, more: string)
    requires p.Tail() == [] && (forall i :: 0 <= i < |u| ==> !EndsHost(p.special, u[i]))
    requires more != [] && EndsHost(p.special, more[0])
    ensures Behind(p, u + more).Authority() == p.Authority() + u && Behind(p, u + more).Tail() == more
  {
    var a := p.Authority();
    assert p.rest == a;
    Regrouped(a, u, more);
    HostLengthIs(p.special, a + u, more);
    assert (a + u + more)[..|a + u|] == a + u && (a + u + more)[|a + u|..] == more;
  }

  lemma TailStart(p: Parts)
    ensures p.Tail() != [] ==> EndsHost(p.special, p.Tail()[0])
    ensures !HasQuery(p.Tail()) ==> PathStart(p.special, p.Tail())
  {
    var t := p.Tail();
    if t != [] && IsQuery(t[0]) {
      assert HasQuery(t);
    }
  }

  /** What is home and what is printed are read from the same parts, with a slash or more behind them. */
  predicate Judged(hosts: HostReader, p: Parts, more: string, slug: string) {
    var home, url := ReadParts(hosts, Behind(p, "/")), ReadParts(hosts, Behind(p, more));
    home.Some? && url.Some? && home.value.host == url.value.host
    && StartsWith(url.value.pathname, ExpectedPrefix(home.value.pathname, slug))
  }

  lemma PrefixGoesOn(path: string, slug: string)
    ensures ExpectedPrefix(path, slug)
      == StripSlashes(path) + ("/" + (PROJECTS + ("/" + KeyPart(slug) + "/" + VERSION_FILE + "/")))
  {
    FourBehind(StripSlashes(path), PROJECTS, KeyPart(slug), VERSION_FILE);
  }

  lemma FourBehind(b: string, p: string, k: string, v: string)
    ensures b + "/" + p + "/" + k + "/" + v + "/" == b + ("/" + (p + ("/" + k + "/" + v + "/")))
  {
  }

  lemma SlashesOnly(b: string, slashes: string, name: string)
    requires AllSlashes(slashes) && name != [] && name[0] != '/'
    ensures !StartsWith(b + slashes, b + ("/" + name))
  {
    var path, prefix := b + slashes, b + ("/" + name);
    if |prefix| <= |path| {
      assert path[..|prefix|][|b| + 1] == slashes[1];
      assert prefix[|b| + 1] == name[0];
    }
  }

  lemma NeverUnderItself(path: string, slug: string)
    ensures !StartsWith(path, ExpectedPrefix(path, slug))
  {
    StripSplit(path);
    PrefixGoesOn(path, slug);
    var name := PROJECTS + ("/" + KeyPart(slug) + "/" + VERSION_FILE + "/");
    assert name[0] == PROJECTS[0];
    SlashesOnly(StripSlashes(path), SlashesAtEnd(path), name);
  }

  lemma QueryRefused(hosts: HostReader, p: Parts, more: string, slug: string)
    requires HasQuery(p.Tail())
    ensures !Judged(hosts, p, more, slug)
  {
    TailBehind(p, "/");
    TailBehind(p, more);
    QueryCut(p.Tail(), "/");
    QueryCut(p.Tail(), more);
    if ReadParts(hosts, Behind(p, "/")).Some? {
      NeverUnderItself(ReadParts(hosts, Behind(p, "/")).value.pathname, slug);
    }
  }

  // ---------- paths below a path ----------

  predicate NoQuery(s: string) {
    forall i :: 0 <= i < |s| ==> !IsQuery(s[i])
  }

  lemma QueryKept(s: string)
    requires NoQuery(s)
    ensures BeforeQuery(s) == s
  {
    assert s + [] == s;
    QueryCut(s, []);
  }

  lemma CleanSegments(special: bool, path: string)
    ensures SlashFree(PathSegments(special, path))
  {
    if path != [] {
      SplitPlain(Clean(special, path[1..]));
    }
  }

  lemma {:induction false} KeptSlashFree(segments: seq<string>)
    requires SlashFree(segments)
    ensures SlashFree(Kept(segments))
  {
    if segments != [] {
      KeptSlashFree(segments[..|segments| - 1]);
    }
  }

  /** A path, a slash, and text of segments none of which are dots. */
  lemma ReadBelow(special: bool, path: string, more: string)
    requires PathStart(special, path)
    requires forall segment :: segment in Split(Clean(special, more), '/') ==> !IsDots(segment)
    ensures ReadPath(special, path + "/" + more)
      == Lead(Kept(PathSegments(special, path)) + Split(Clean(special, more), '/'))
  {
    SegmentsGlue(special, path, more);
    ResolveThrough(PathSegments(special, path), Split(Clean(special, more), '/'));
  }

  lemma ReadHome(special: bool, path: string)
    requires PathStart(special, path)
    ensures ReadPath(special, path + "/") == Lead(Kept(PathSegments(special, path)) + [[]])
  {
    assert path + "/" + [] == path + "/";
    assert Split(Clean(special, []), '/') == [[]];
    ReadBelow(special, path, []);
  }

  /** Behind the same path as at home, or a path that goes on, comes the key. */
  lemma ReadKey(special: bool, path: string, slug: string, uuid: string, extension: string)
    requires PathStart(special, path) && SlugText(slug) && IsUuid(uuid) && Storage.Plain(extension)
    ensures ReadPath(special, path + "/" + Key(slug, uuid, extension))
      == Lead(Kept(PathSegments(special, path)) + (Head(slug) + [uuid + extension]))
  {
    KeySplit(special, slug, uuid, extension);
    KeySegments(slug, uuid, extension);
    var segments := Head(slug) + [uuid + extension];
    forall segment | segment in segments ensures !IsDots(segment) {
      assert KeySegment(segment);
    }
    ReadBelow(special, path, Key(slug, uuid, extension));
  }

  /** Printed and home paths compared by their segments. */
  lemma BelowUnder(special: bool, home: string, path: string, slug: string, uuid: string, extension: string)
    requires PathStart(special, home) && PathStart(special, path)
    requires SlugText(slug) && IsUuid(uuid) && Storage.Plain(extension)
    ensures StartsWith(ReadPath(special, path + "/" + Key(slug, uuid, extension)),
                       ExpectedPrefix(ReadPath(special, home + "/"), slug)) <==>
      Under(Kept(PathSegments(special, path)) + (Head(slug) + [uuid + extension]),
            Kept(PathSegments(special, home)), slug)
  {
    ReadHome(special, home);
    ReadKey(special, path, slug, uuid, extension);
    CleanSegments(special, home);
    CleanSegments(special, path);
    KeptSlashFree(PathSegments(special, home));
    KeptSlashFree(PathSegments(special, path));
    KeySegments(slug, uuid, extension);
    KeySlashFree(slug, uuid + extension);
    UnderText(Kept(PathSegments(special, path)) + (Head(slug) + [uuid + extension]),
              Kept(PathSegments(special, home)), slug);
  }

  lemma KeySlashFree(slug: string, file: string)
    requires Storage.Plain(file)
    ensures SlashFree(Head(slug) + [file])
  {
    HeadSlashFree(slug);
  }

  // ---------- white space and slashes between base and key ----------

  lemma EmptiesKept(segments: seq<string>, n: nat)
    ensures Kept(segments + Empties(n)) == Kept(segments) + Empties(n)
  {
    KeptThrough(segments, Empties(n));
  }

  lemma SlashesBetween(special: bool, path: string, slashes: string, more: seq<string>, slug: string)
    requires PathStart(special, path) && AllSlashes(slashes) && slashes != []
    ensures !Under(Kept(PathSegments(special, path + slashes)) + more, Kept(PathSegments(special, path)), slug)
  {
    var home := Kept(PathSegments(special, path));
    SegmentsSlashes(special, path, slashes);
    EmptiesKept(PathSegments(special, path), |slashes|);
    assert home + Empties(|slashes|) + more == home + (Empties(|slashes|) + more);
    BetweenRefused(home, Empties(|slashes|) + more, slug);
  }

  /** The kept segments of a path whose last segment goes on with an escape. */
  lemma KeptExtended(segments: seq<string>, e: string)
    requires segments != [] && Escaped(e)
    ensures Kept(Extend(segments, e)) == Kept(segments[..|segments| - 1]) + [segments[|segments| - 1] + e]
    ensures Kept(segments) == Step(Kept(segments[..|segments| - 1]), segments[|segments| - 1])
  {
    var n := |segments| - 1;
    ExtendedNoDots(segments[n], e);
    assert Extend(segments, e)[..n] == segments[..n] && Extend(segments, e)[n] == segments[n] + e;
  }

  /** A path whose last segment goes on with an escape, whatever it is. */
  lemma ExtendedRefused(segments: seq<string>, e: string, more: seq<string>, slug: string)
    requires segments != [] && Escaped(e)
    ensures !Under(Kept(Extend(segments, e)) + more, Kept(segments), slug)
  {
    KeptExtended(segments, e);
    var before, last := Kept(segments[..|segments| - 1]), segments[|segments| - 1];
    assert before + [last + e] + more == before + ([last + e] + more);
    assert e[0] in e;
    SpoiledRefused(before, last, e, more, slug);
  }

  lemma SpaceBetween(special: bool, path: string, u: string, more: seq<string>, slug: string)
    requires PathStart(special, path) && path != [] && AllSpace(u) && u != []
    ensures !Under(Kept(PathSegments(special, path + u)) + more, Kept(PathSegments(special, path)), slug)
  {
    SpacesEscaped(special, u);
    SegmentsExtended(special, path, u);
    ExtendedRefused(PathSegments(special, path), Clean(special, u), more, slug);
  }

  lemma EmptiesExtended(segments: seq<string>, n: nat, e: string)
    requires Escaped(e)
    ensures Kept(Extend(segments + Empties(n + 1), e)) == Kept(segments) + (Empties(n) + [e])
  {
    var all := segments + Empties(n + 1);
    KeptExtended(all, e);
    assert all[..|all| - 1] == segments + Empties(n) && all[|all| - 1] + e == e;
    EmptiesKept(segments, n);
  }

  lemma SlashesAndSpaceBetween(
    special: bool, path: string, slashes: string, u: string, more: seq<string>, slug: string)
    requires PathStart(special, path) && AllSlashes(slashes) && slashes != [] && AllSpace(u) && u != []
    ensures !Under(Kept(PathSegments(special, path + slashes + u)) + more, Kept(PathSegments(special, path)), slug)
  {
    var segments, n, e := PathSegments(special, path), |slashes| - 1, Clean(special, u);
    SpacesEscaped(special, u);
    SegmentsExtended(special, path + slashes, u);
    SegmentsSlashes(special, path, slashes);
    EmptiesExtended(segments, n, e);
    EscapeRefused(Kept(segments), n, e, more, slug);
  }

  lemma EscapeRefused(home: seq<string>, n: nat, e: string, more: seq<string>, slug: string)
    requires Escaped(e)
    ensures !Under(home + (Empties(n) + [e]) + more, home, slug)
  {
    assert home + (Empties(n) + [e]) + more == home + (Empties(n) + [e] + more);
    assert e[0] in e;
    BetweenRefused(home, Empties(n) + [e] + more, slug);
  }

  // ---------- the condition is exact ----------

  /** Text behind a base as it is printed: what stays of slashes and white space, a slash, the key. */
  function Tailed(slashes: string, u: string, slug: string, uuid: string, extension: string): string {
    slashes + u + ("/" + Key(slug, uuid, extension))
  }

  predicate Fresh(uuid: string, extension: string) {
    IsUuid(uuid) && Storage.Plain(extension)
  }

  lemma KeyNoQuery(slug: string, uuid: string, extension: string)
    requires Fresh(uuid, extension)
    ensures NoQuery(Key(slug, uuid, extension))
  {
    PrintedUrl([], slug, uuid, extension);
    var key := Key(slug, uuid, extension);
    assert forall i :: 0 <= i < |key| ==> key[i] in key;
  }

  lemma SpaceIsPlain(special: bool, u: string)
    requires AllSpace(u)
    ensures NoQuery(u) && forall i :: 0 <= i < |u| ==> !EndsHost(special, u[i])
  {
    forall i | 0 <= i < |u| ensures !EndsHost(special, u[i]) && !IsQuery(u[i]) {
      assert u[i] in u;
    }
  }

  /** Home is read from the authority, with the path of the base. */
  lemma HomeRead(hosts: HostReader, p: Parts)
    requires !HasQuery(p.Tail())
    ensures ReadParts(hosts, Behind(p, "/")) ==
      if HostFits(hosts, p) then
        Some(Url(p.protocol, hosts(p.Authority()).value, ReadPath(p.special, p.Tail() + "/")))
      else None
  {
    TailBehind(p, "/");
    TailNoQuery(p);
    QueryKept(p.Tail() + "/");
  }

  lemma TailNoQuery(p: Parts)
    requires !HasQuery(p.Tail())
    ensures NoQuery(p.Tail())
  {
    var t := p.Tail();
    forall i | 0 <= i < |t| ensures !IsQuery(t[i]) {
      assert t[i] in t;
    }
  }

  /** Where a path or a slash comes first, what is printed has the host of the base. */
  lemma PrintedRead(hosts: HostReader, p: Parts, between: string, slug: string, uuid: string, extension: string)
    requires !HasQuery(p.Tail()) && NoQuery(between) && Fresh(uuid, extension)
    requires p.Tail() != [] || between == [] || between[0] == '/'
    ensures ReadParts(hosts, Behind(p, between + ("/" + Key(slug, uuid, extension)))) ==
      if HostFits(hosts, p) then
        Some(Url(p.protocol, hosts(p.Authority()).value,
                 ReadPath(p.special, p.Tail() + between + "/" + Key(slug, uuid, extension))))
      else None
  {
    var more := between + ("/" + Key(slug, uuid, extension));
    TailBehind(p, more);
    TailNoQuery(p);
    KeyNoQuery(slug, uuid, extension);
    NoQueryBehind(p.Tail(), between, Key(slug, uuid, extension));
  }

  lemma NoQueryBehind(tail: string, between: string, key: string)
    requires NoQuery(tail) && NoQuery(between) && NoQuery(key)
    ensures BeforeQuery(tail + (between + ("/" + key))) == tail + between + "/" + key
  {
    var s := tail + between + "/" + key;
    Regrouped(tail + between, "/", key);
    Regrouped(tail, between, "/" + key);
    QueryKept(s);
  }

  /** Without a path, white space goes to the host. */
  lemma PrintedHost(hosts: HostReader, p: Parts, u: string, slug: string, uuid: string, extension: string)
    requires p.Tail() == [] && AllSpace(u) && u != [] && Fresh(uuid, extension)
    ensures ReadParts(hosts, Behind(p, u + ("/" + Key(slug, uuid, extension)))) ==
      if hosts(p.Authority() + u).Some? then
        Some(Url(p.protocol, hosts(p.Authority() + u).value, ReadPath(p.special, "/" + Key(slug, uuid, extension))))
      else None
  {
    var more := "/" + Key(slug, uuid, extension);
    SpaceIsPlain(p.special, u);
    AuthorityBehind(p, u, more);
    KeyNoQuery(slug, uuid, extension);
    QueryKept(more);
  }

  lemma JudgedRight(hosts: HostReader, p: Parts, slug: string, uuid: string, extension: string)
    requires !HasQuery(p.Tail()) && SlugText(slug) && Fresh(uuid, extension)
    ensures Judged(hosts, p, Tailed([], [], slug, uuid, extension), slug) <==> HostFits(hosts, p) && PathFits(p)
  {
    var t := p.Tail();
    TailStart(p);
    HomeRead(hosts, p);
    PrintedRead(hosts, p, [], slug, uuid, extension);
    NothingMore(t);
    BelowUnder(p.special, t, t, slug, uuid, extension);
    KeyUnder(Kept(PathSegments(p.special, t)), slug, uuid + extension);
    assert Tailed([], [], slug, uuid, extension) == [] + ("/" + Key(slug, uuid, extension));
  }

  lemma JudgedInHost(hosts: HostReader, p: Parts, u: string, slug: string, uuid: string, extension: string)
    requires p.Tail() == [] && AllSpace(u) && u != [] && SlugText(slug) && Fresh(uuid, extension)
    ensures Judged(hosts, p, Tailed([], u, slug, uuid, extension), slug) <==>
      HostFits(hosts, p) && hosts(p.Authority() + u) == hosts(p.Authority())
  {
    HomeRead(hosts, p);
    PrintedHost(hosts, p, u, slug, uuid, extension);
    BelowRoot(p.special, slug, uuid, extension);
    assert [] + u == u && p.Tail() + "/" == "/";
  }

  lemma BelowRoot(special: bool, slug: string, uuid: string, extension: string)
    requires SlugText(slug) && Fresh(uuid, extension)
    ensures StartsWith(ReadPath(special, "/" + Key(slug, uuid, extension)),
                       ExpectedPrefix(ReadPath(special, "/"), slug))
  {
    BelowUnder(special, [], [], slug, uuid, extension);
    KeyUnder([], slug, uuid + extension);
    assert [] + "/" + Key(slug, uuid, extension) == "/" + Key(slug, uuid, extension);
    assert [] + "/" == "/";
    assert Kept(PathSegments(special, [])) == [];
  }

  lemma JudgedBetween(
    hosts: HostReader, p: Parts, slashes: string, u: string, slug: string, uuid: string, extension: string)
    requires !HasQuery(p.Tail()) && AllSlashes(slashes) && AllSpace(u) && (slashes != [] || u != [])
    requires p.Tail() != [] || slashes != []
    requires SlugText(slug) && Fresh(uuid, extension)
    ensures !Judged(hosts, p, Tailed(slashes, u, slug, uuid, extension), slug)
  {
    var t, between := p.Tail(), slashes + u;
    TailStart(p);
    SpaceIsPlain(p.special, u);
    HomeRead(hosts, p);
    PrintedRead(hosts, p, between, slug, uuid, extension);
    BelowUnder(p.special, t, t + between, slug, uuid, extension);
    Between(p.special, t, slashes, u, Head(slug) + [uuid + extension], slug);
  }

  lemma Between(special: bool, path: string, slashes: string, u: string, more: seq<string>, slug: string)
    requires PathStart(special, path) && AllSlashes(slashes) && AllSpace(u) && (slashes != [] || u != [])
    requires path != [] || slashes != []
    ensures !Under(Kept(PathSegments(special, path + (slashes + u))) + more, Kept(PathSegments(special, path)), slug)
  {
    Regrouped(path, slashes, u);
    if u == [] {
      NothingMore(slashes);
      SlashesBetween(special, path, slashes, more, slug);
    } else if slashes == [] {
      assert [] + u == u;
      SpaceBetween(special, path, u, more, slug);
    } else {
      SlashesAndSpaceBetween(special, path, slashes, u, more, slug);
    }
  }

  lemma JudgedExactly(
    hosts: HostReader, p: Parts, slashes: string, u: string, slug: string, uuid: string, extension: string)
    requires AllSlashes(slashes) && AllSpace(u) && SlugText(slug) && Fresh(uuid, extension)
    ensures Judged(hosts, p, Tailed(slashes, u, slug, uuid, extension), slug) <==> PartsFit(hosts, p, slashes, u)
  {
    if HasQuery(p.Tail()) {
      QueryRefused(hosts, p, Tailed(slashes, u, slug, uuid, extension), slug);
    } else if slashes == [] && u == [] {
      JudgedRight(hosts, p, slug, uuid, extension);
    } else if slashes == [] && p.Tail() == [] {
      JudgedInHost(hosts, p, u, slug, uuid, extension);
    } else {
      JudgedBetween(hosts, p, slashes, u, slug, uuid, extension);
    }
  }

  // ---------- from the texts as they are given ----------

  lemma SlashesNotRemoved(slashes: string)
    requires AllSlashes(slashes)
    ensures Without(slashes) == slashes
  {
    NothingRemoved(slashes);
  }

  lemma KeyNotRemoved(slug: string, uuid: string, extension: string)
    requires Fresh(uuid, extension)
    ensures Without("/" + Key(slug, uuid, extension)) == "/" + Key(slug, uuid, extension)
  {
    PrintedUrl([], slug, uuid, extension);
    var key := "/" + Key(slug, uuid, extension);
    assert forall i :: 0 < i < |key| ==> key[i] in Key(slug, uuid, extension);
    NothingRemoved(key);
  }

  /** What is read of the printed text, tabs and line breaks removed. */
  lemma PrintedWithout(n: string, slashes: string, w: string, slug: string, uuid: string, extension: string)
    requires AllSlashes(slashes) && Fresh(uuid, extension)
    ensures Without(n + slashes + w + "/" + Key(slug, uuid, extension))
      == Without(n) + Tailed(slashes, Without(w), slug, uuid, extension)
  {
    var key := "/" + Key(slug, uuid, extension);
    Regrouped(n + slashes + w, "/", Key(slug, uuid, extension));
    WithoutBoth(n + slashes + w, key);
    WithoutBoth(n + slashes, w);
    WithoutBoth(n, slashes);
    SlashesNotRemoved(slashes);
    KeyNotRemoved(slug, uuid, extension);
    Regrouped(Without(n), slashes, Without(w));
    Regrouped(Without(n), slashes + Without(w), key);
  }

  lemma HomeWithout(n: string)
    ensures Without(n + "/") == Without(n) + "/"
  {
    WithoutBoth(n, "/");
    NothingRemoved("/");
  }

  /** Nothing but slashes, where they are read as none. */
  predicate OnlySlashes(p: Parts) {
    p.special && p.rest == []
  }

  lemma NoHostNoHome(hosts: HostReader, n: string)
    requires PartsOf(n).Some? && OnlySlashes(PartsOf(n).value)
    ensures PartsOf(n + "/").Some? && ReadParts(hosts, PartsOf(n + "/").value).None?
    ensures !HostFits(hosts, PartsOf(n).value)
  {
    assert SkipSlashes("/") == [];
    PartsMore(n, "/");
  }

  lemma UrlRead(hosts: HostReader, url: string, n: string, more: string)
    requires Without(url) == n + more && PartsOf(n).Some? && !OnlySlashes(PartsOf(n).value)
    ensures Reader(hosts)(url) == ReadParts(hosts, Behind(PartsOf(n).value, more))
  {
    PartsMore(n, more);
  }

  lemma Compared(parse: UrlParser, url: string, base: string, slug: string, p: Parts)
    requires StripSlashes(Trim(base)) != []
    requires parse(url).Some? ==> parse(url).value.protocol == p.protocol
    requires var home := parse(StripSlashes(Trim(base)) + "/"); home.Some? ==> home.value.protocol == p.protocol
    ensures var home := parse(StripSlashes(Trim(base)) + "/");
      IsProjectVersionFileUrl(parse, url, base, slug) <==>
        home.Some? && parse(url).Some? && home.value.host == parse(url).value.host
        && StartsWith(parse(url).value.pathname, ExpectedPrefix(home.value.pathname, slug))
  {
  }

  lemma BaseGiven(base: string)
    requires ReadBase(base).Some?
    ensures StripSlashes(Trim(base)) != []
  {
  }

  /** The check, put to a text that goes on behind the base. */
  lemma CheckedExactly(hosts: HostReader, url: string, base: string, more: string, slug: string)
    requires ReadBase(base).Some? && Without(url) == Without(StripSlashes(Trim(base))) + more
    requires !OnlySlashes(ReadBase(base).value)
    ensures IsProjectVersionFileUrl(Reader(hosts), url, base, slug) <==>
      Judged(hosts, ReadBase(base).value, more, slug)
  {
    var n, p := StripSlashes(Trim(base)), ReadBase(base).value;
    HomeWithout(n);
    UrlRead(hosts, url, Without(n), more);
    UrlRead(hosts, n + "/", Without(n), "/");
    BaseGiven(base);
    Compared(Reader(hosts), url, base, slug, p);
  }

  lemma NoHostUnread(hosts: HostReader, n: string)
    requires PartsOf(Without(n)).Some? && OnlySlashes(PartsOf(Without(n)).value)
    ensures Reader(hosts)(n + "/").None? && !HostFits(hosts, PartsOf(Without(n)).value)
  {
    HomeWithout(n);
    NoHostNoHome(hosts, Without(n));
  }

  lemma NoHomeRefused(parse: UrlParser, url: string, base: string, slug: string)
    requires parse(StripSlashes(Trim(base)) + "/").None?
    ensures !IsProjectVersionFileUrl(parse, url, base, slug)
  {
  }

  lemma NoHostRefused(hosts: HostReader, url: string, base: string, slug: string)
    requires ReadBase(base).Some? && OnlySlashes(ReadBase(base).value)
    ensures !IsProjectVersionFileUrl(Reader(hosts), url, base, slug) && !HostFits(hosts, ReadBase(base).value)
  {
    NoHostUnread(hosts, StripSlashes(Trim(base)));
    NoHomeRefused(Reader(hosts), url, base, slug);
  }

  lemma SpaceWithout(w: string)
    requires AllSpace(w)
    ensures AllSpace(Without(w))
  {
  }

  /** What is printed, trimmed: the base as the check has it, then slashes and white space that stay, then the key. */
  lemma PrintedBehind(base: string, slug: string, uuid: string, extension: string)
    requires ReadBase(base).Some? && Fresh(uuid, extension)
    ensures AllSlashes(SlashesLeft(base)) && AllSpace(Without(SpaceAtEnd(base)))
    ensures Without(Trim(PublicObjectUrl(base, Key(slug, uuid, extension))))
      == Without(StripSlashes(Trim(base)))
         + Tailed(SlashesLeft(base), Without(SpaceAtEnd(base)), slug, uuid, extension)
  {
    var t, w, key := Trim(base), SpaceAtEnd(base), Key(slug, uuid, extension);
    PrintedUrl(base, slug, uuid, extension);
    KeyEnds(slug, uuid, extension);
    PrintedTrimmed(base, key);
    StripSplit(t);
    EndParts(base);
    SpaceWithout(w);
    if w == [] {
      NothingBetween(StripSlashes(t), key);
    }
    PrintedWithout(StripSlashes(t), SlashesLeft(base), w, slug, uuid, extension);
  }

  lemma NothingBetween(n: string, key: string)
    ensures n + [] + [] + "/" + key == n + "/" + key
  {
  }

  lemma KeyAccepted(hosts: HostReader, base: string, slug: string, uuid: string, extension: string)
    requires ReadBase(base).Some? && SlugText(slug) && Fresh(uuid, extension)
    ensures Accepted(Reader(hosts), PublicObjectUrl(base, Key(slug, uuid, extension)), base, slug)
       <==> BaseFits(hosts, base)
  {
    var slashes, u := SlashesLeft(base), Without(SpaceAtEnd(base));
    var url := Trim(PublicObjectUrl(base, Key(slug, uuid, extension)));
    PrintedBehind(base, slug, uuid, extension);
    if OnlySlashes(ReadBase(base).value) {
      NoHostRefused(hosts, url, base, slug);
    } else {
      CheckedExactly(hosts, url, base, Tailed(slashes, u, slug, uuid, extension), slug);
      JudgedExactly(hosts, ReadBase(base).value, slashes, u, slug, uuid, extension);
    }
  }

  lemma PrintedFrom(
    hosts: HostReader, n: Normalized, projects: map<string, ProjectView>, base: string, uuid: string)
    requires ReadBase(base).Some? && SlugsMade(projects) && IsUuid(uuid) && n.kind == Some(VersionFileUpload)
    ensures var upload := PrepareNormalized(n, projects, base, uuid);
      upload.Upload? ==>
        n.slug in projects
        && (Accepted(Reader(hosts), upload.objectUrl, base, projects[n.slug].slug) <==> BaseFits(hosts, base))
  {
    if PrepareNormalized(n, projects, base, uuid).Upload? {
      ArchiveChecked(n, projects, base, uuid);
      ArchiveExtensions(n.name);
      KeyAccepted(hosts, base, projects[n.slug].slug, uuid, Lower(Extname(n.name)));
    }
  }

  /**
   The URL printed for a release file, trimmed as the check's caller trims it, is accepted for the same
   base and project exactly when the base fits: an authority that can be read, no query and no fragment,
   no slash and no empty segment at the end of the path as it is read, and no white space at the end that
   is not ignored or has a slash before it.
   */
  lemma PrintedIsAccepted(
    hosts: HostReader, input: UploadInput, projects: map<string, ProjectView>, base: string, uuid: string)
    requires ReadBase(base).Some?
    requires SlugsMade(projects) && IsUuid(uuid) && KindFrom(input.uploadKind) == Some(VersionFileUpload)
    ensures var upload, slug := PrepareProjectUpload(input, projects, base, uuid), Trim(input.projectSlug);
      upload.Upload? ==>
        slug in projects
        && (Accepted(Reader(hosts), upload.objectUrl, base, projects[slug].slug) <==> BaseFits(hosts, base))
  {
    PrintedFrom(hosts, Normalize(input), projects, base, uuid);
  }
}
