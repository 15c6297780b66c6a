/** Public bases of the web that do not fit, one that does, and release files to be printed behind them. */
module PublicBaseWitness {
  import opened Text
  import opened Slug
  import opened Storage
  import opened UrlParsing
  import opened PublicBase

  // ---------- release files ----------

  lemma KindRead(text: string)
    requires Lower(text) == VERSION_FILE
    ensures KindFrom(text) == Some(VersionFileUpload)
  {
    assert LowerChar(text[0]) == 'v' && LowerChar(text[|text| - 1]) == 'e';
    TrimFixed(text);
  }

  lemma NameRead(name: string)
    requires Lower(name) == ".zip"
    ensures Trim(name) == name && NameError(name).None? && ArchiveError(name).None?
  {
    assert forall i :: 0 <= i < 4 ==> LowerChar(name[i]) == ".zip"[i];
    TrimFixed(name);
    assert name[0] == '.';
    assert LastDot(name) == 0;
    assert name[0..] == name;
    LengthAtMost(name);
  }

  lemma {:induction false} LengthAtMost(s: string)
    ensures Utf16Length(s) <= 2 * |s|
  {
    if s != [] {
      LengthAtMost(s[1..]);
    }
  }

  /** A request for a release file that passes the checks on the input. */
  predicate FileRequest(n: Normalized) {
    n.kind == Some(VersionFileUpload) && InputError(n).None? && SlugText(n.slug)
  }

  lemma OneByte(size: JsNumber)
    requires size.Finite? && size.value == 1.0
    ensures SizeError(size).None?
  {
  }

  lemma FieldsFit(n: Normalized)
    requires n.kind == Some(VersionFileUpload) && n.slug != [] && SlugText(n.slug)
    requires NameError(n.name).None? && ArchiveError(n.name).None? && SizeError(n.size).None?
    ensures FileRequest(n)
  {
  }

  lemma Fields(input: UploadInput)
    requires Trim(input.projectSlug) == input.projectSlug && Trim(input.fileName) == input.fileName
    ensures var n := Normalize(input);
      n.kind == KindFrom(input.uploadKind) && n.slug == input.projectSlug && n.name == input.fileName
      && n.size == input.sizeBytes
  {
  }

  predicate FitsNameAndSize(name: string, size: JsNumber) {
    Trim(name) == name && NameError(name).None? && ArchiveError(name).None? && SizeError(size).None?
  }

  lemma SomeKind() returns (text: string)
    ensures KindFrom(text) == Some(VersionFileUpload)
  {
    text := VERSION_FILE;
    KindRead(text);
  }

  lemma SomeArchive() returns (name: string, size: JsNumber)
    ensures FitsNameAndSize(name, size)
  {
    name, size := ".zip", Finite(1.0);
    NameRead(name);
    OneByte(size);
  }

  /** For every slug the service makes there is such a request. */
  lemma SomeRequest(slug: string) returns (input: UploadInput)
    requires slug != [] && SlugText(slug)
    ensures FileRequest(Normalize(input)) && Normalize(input).slug == slug
  {
    var kind := SomeKind();
    var name, size := SomeArchive();
    input := UploadInput(kind, slug, name, size, None);
    AlreadyTrimmed(slug);
    Fields(input);
    FieldsFit(Normalize(input));
  }

  function OneProject(slug: string): map<string, ProjectView> {
    map[slug := ProjectView(slug, true, true)]
  }

  lemma SomePrinted(n: Normalized, base: string, uuid: string)
    requires FileRequest(n)
    ensures PrepareNormalized(n, OneProject(n.slug), base, uuid).Upload?
  {
  }

  lemma OneMade(slug: string)
    requires SlugText(slug)
    ensures SlugsMade(OneProject(slug))
  {
  }

  predicate Refused(hosts: HostReader, base: string, input: UploadInput, uuid: string) {
    var n := Normalize(input);
    var upload := PrepareNormalized(n, OneProject(n.slug), base, uuid);
    upload.Upload? && !Accepted(Reader(hosts), upload.objectUrl, base, n.slug)
  }

  /** It is printed a URL for a project the caller may change, which the check refuses unless the base fits. */
  lemma RequestRefused(hosts: HostReader, base: string, input: UploadInput, uuid: string)
    requires ReadBase(base).Some? && FileRequest(Normalize(input)) && IsUuid(uuid)
    ensures Refused(hosts, base, input, uuid) <==> !BaseFits(hosts, base)
  {
    var n := Normalize(input);
    SomePrinted(n, base, uuid);
    OneMade(n.slug);
    PrintedFrom(hosts, n, OneProject(n.slug), base, uuid);
  }

  // ---------- bases of the web ----------

  predicate NoSpace(s: string) {
    forall i :: 0 <= i < |s| ==> !IsSpace(s[i])
  }

  /** An authority and what is behind it, without white space and not ending in a slash. */
  predicate WebText(a: string, tail: string) {
    && NoSpace(a + tail) && a != [] && (forall i :: 0 <= i < |a| ==> !EndsHost(true, a[i]))
    && (tail != [] ==> EndsHost(true, tail[0]) && tail[|tail| - 1] != '/')
  }

  function Web(scheme: string, a: string, tail: string): string {
    scheme + "://" + (a + tail)
  }

  predicate WebScheme(scheme: string) {
    Readable(scheme) && Special(scheme) && NoSpace(scheme)
  }

  lemma {:induction false} TrimEndSpace(s: string, w: string)
    requires s != [] && !IsSpace(s[|s| - 1]) && AllSpace(w)
    ensures TrimEnd(s + w) == s
  {
    if w == [] {
      assert s + w == s;
    } else {
      var n := |w| - 1;
      assert (s + w)[..|s + w| - 1] == s + w[..n];
      TrimEndSpace(s, w[..n]);
    }
  }

  lemma TrimBehind(s: string, w: string)
    requires s != [] && !IsSpace(s[0]) && !IsSpace(s[|s| - 1]) && AllSpace(w)
    ensures Trim(s + w) == s && SpaceAtEnd(s + w) == w
  {
    TrimEndSpace(s, w);
    assert TrimStart(s + w) == s + w;
  }

  lemma FirstColon(scheme: string, rest: string)
    requires SchemeText(scheme)
    ensures FirstIndex(scheme + ":" + rest, ':') == |scheme|
  {
    var s := scheme + ":" + rest;
    var i := FirstIndex(s, ':');
    assert s[|scheme|] == ':';
    assert forall k :: 0 <= k < |scheme| ==> s[k] == scheme[k] && s[k] != ':';
  }

  lemma TwoSlashes(s: string)
    requires s != [] && !IsSlash(true, s[0])
    ensures SkipSlashes("//" + s) == s
  {
    assert ("//" + s)[1..] == "/" + s && ("/" + s)[1..] == s;
    assert SkipSlashes("/" + s) == SkipSlashes(s) == s;
  }

  lemma WebParts(scheme: string, a: string, tail: string)
    requires WebScheme(scheme) && WebText(a, tail)
    ensures PartsOf(Web(scheme, a, tail)) == Some(Parts(true, Lower(scheme) + ":", a + tail))
  {
    var s, rest := Web(scheme, a, tail), "//" + (a + tail);
    assert s == scheme + ":" + rest;
    FirstColon(scheme, rest);
    assert s[..|scheme|] == scheme && s[|scheme| + 1..] == rest;
    TwoSlashes(a + tail);
  }

  lemma WebEnds(scheme: string, a: string, tail: string)
    requires WebScheme(scheme) && WebText(a, tail)
    ensures var s := Web(scheme, a, tail);
      s != [] && !IsSpace(s[0]) && !IsSpace(s[|s| - 1]) && s[|s| - 1] != '/' && Without(s) == s
  {
    var s, at := Web(scheme, a, tail), a + tail;
    assert s[0] == scheme[0] && s[|s| - 1] == at[|at| - 1];
    NothingRemoved(s);
  }

  lemma ReadAs(base: string, s: string)
    requires Trim(base) == s && StripSlashes(s) == s && Without(s) == s
    ensures ReadBase(base) == PartsOf(s) && SlashesLeft(base) == []
  {
  }

  lemma PartsAt(p: Parts, a: string, tail: string)
    requires p.special && p.rest == a + tail && WebText(a, tail)
    ensures p.Authority() == a && p.Tail() == tail
  {
    HostLengthIs(true, a, tail);
    assert (a + tail)[..|a|] == a && (a + tail)[|a|..] == tail;
  }

  /** How such a base is read, with white space behind it. */
  lemma WebRead(scheme: string, a: string, tail: string, w: string)
    requires WebScheme(scheme) && WebText(a, tail) && AllSpace(w)
    ensures var base := Web(scheme, a, tail) + w;
      SpaceAtEnd(base) == w && SlashesLeft(base) == []
      && ReadBase(base) == Some(Parts(true, Lower(scheme) + ":", a + tail))
  {
    var s := Web(scheme, a, tail);
    WebEnds(scheme, a, tail);
    TrimBehind(s, w);
    SlashesKept(s);
    WebParts(scheme, a, tail);
    ReadAs(s + w, s);
  }

  // ---------- what fits and what does not ----------

  predicate WebFits(hosts: HostReader, a: string, tail: string, w: string) {
    var kept := Kept(PathSegments(true, tail));
    hosts(a).Some? && !HasQuery(tail) && (kept == [] || kept[|kept| - 1] != [])
    && (w == [] || (tail == [] && hosts(a + w) == hosts(a)))
  }

  lemma PartsJudged(hosts: HostReader, p: Parts, a: string, tail: string, w: string)
    requires p.special && p.rest == a + tail && WebText(a, tail)
    ensures PartsFit(hosts, p, [], w) <==> WebFits(hosts, a, tail, w)
  {
    PartsAt(p, a, tail);
  }

  lemma WebJudged(hosts: HostReader, scheme: string, a: string, tail: string, w: string)
    requires WebScheme(scheme) && WebText(a, tail) && AllSpace(w)
    ensures var base := Web(scheme, a, tail) + w;
      ReadBase(base).Some? && (BaseFits(hosts, base) <==> WebFits(hosts, a, tail, Without(w)))
  {
    WebRead(scheme, a, tail, w);
    PartsJudged(hosts, Parts(true, Lower(scheme) + ":", a + tail), a, tail, Without(w));
  }

  /** A name that is a segment of its own, neither dots nor in need of an escape. */
  predicate Name(name: string) {
    name != [] && PlainPath(name) && '/' !in name && !IsDots(name)
  }

  lemma OneSegment(name: string)
    requires Name(name)
    ensures Kept(PathSegments(true, "/" + name)) == [name]
  {
    PlainIsClean(true, name);
    SplitWhole(name, '/');
    assert ("/" + name)[1..] == name;
    assert [name][..0] == [];
  }

  lemma BackslashSegment(name: string, backslash: string)
    requires Name(name) && backslash == ['\\']
    ensures Kept(PathSegments(true, "/" + name + backslash)) == [name] + [[]]
  {
    assert Clean(true, backslash) == "/";
    CleanBoth(true, name, backslash);
    PlainIsClean(true, name);
    assert ("/" + name + backslash)[1..] == name + backslash;
    SplitGlue(name, []);
    SplitWhole(name, '/');
    assert name + "/" + [] == name + "/";
    KeptThrough([], [name] + [[]]);
    assert [] + ([name] + [[]]) == [name] + [[]];
  }

  lemma PlainFits(hosts: HostReader, a: string, name: string)
    requires Name(name) && hosts(a).Some?
    ensures WebFits(hosts, a, "/" + name, [])
  {
    OneSegment(name);
    NameNoQuery(name);
  }

  lemma QueryIn(s: string, query: string)
    requires query != [] && IsQuery(query[0])
    ensures HasQuery(s + query)
  {
    assert (s + query)[|s|] == query[0];
  }

  lemma NameNoQuery(name: string)
    requires PlainPath(name)
    ensures !HasQuery("/" + name)
  {
    var s := "/" + name;
    forall c | c in s ensures !IsQuery(c) {
      assert c == '/' || c in name;
    }
  }

  /** Text that may stand at the end of such a base. */
  predicate AtEnd(more: string) {
    NoSpace(more) && more != [] && more[|more| - 1] != '/'
  }

  lemma MoreText(a: string, tail: string, more: string)
    requires WebText(a, tail) && tail != [] && AtEnd(more)
    ensures WebText(a, tail + more)
  {
    Regrouped(a, tail, more);
    var t := a + tail;
    assert forall i :: 0 <= i < |t| ==> (t + more)[i] == t[i];
    assert forall i :: |t| <= i < |t + more| ==> (t + more)[i] == more[i - |t|];
  }

  lemma CaseJudged(
    hosts: HostReader, scheme: string, a: string, tail: string, w: string, input: UploadInput, uuid: string)
    requires WebScheme(scheme) && WebText(a, tail) && AllSpace(w) && Without(w) == w
    requires FileRequest(Normalize(input)) && IsUuid(uuid)
    ensures Refused(hosts, Web(scheme, a, tail) + w, input, uuid) <==> !WebFits(hosts, a, tail, w)
  {
    WebJudged(hosts, scheme, a, tail, w);
    RequestRefused(hosts, Web(scheme, a, tail) + w, input, uuid);
  }

  /** A release file to be printed behind a base of the web that fits. */
  ghost predicate Given(
    hosts: HostReader, scheme: string, a: string, name: string, input: UploadInput, uuid: string) {
    WebScheme(scheme) && Name(name) && WebText(a, "/" + name) && hosts(a).Some?
    && FileRequest(Normalize(input)) && IsUuid(uuid)
  }

  /** What is printed behind it is taken. */
  lemma BaseTaken(hosts: HostReader, scheme: string, a: string, name: string, input: UploadInput, uuid: string)
    requires Given(hosts, scheme, a, name, input, uuid)
    ensures !Refused(hosts, Web(scheme, a, "/" + name) + [], input, uuid)
  {
    PlainFits(hosts, a, name);
    CaseJudged(hosts, scheme, a, "/" + name, [], input, uuid);
  }

  /** With a query or a fragment behind it, refused. */
  lemma QueryBaseRefused(
    hosts: HostReader, scheme: string, a: string, name: string, query: string, input: UploadInput, uuid: string)
    requires Given(hosts, scheme, a, name, input, uuid) && AtEnd(query) && IsQuery(query[0])
    ensures Refused(hosts, Web(scheme, a, "/" + name + query) + [], input, uuid)
  {
    MoreText(a, "/" + name, query);
    QueryIn("/" + name, query);
    CaseJudged(hosts, scheme, a, "/" + name + query, [], input, uuid);
  }

  lemma EmptyEndUnfit(hosts: HostReader, a: string, name: string, backslash: string)
    requires Name(name) && backslash == ['\\']
    ensures !WebFits(hosts, a, "/" + name + backslash, [])
  {
    BackslashSegment(name, backslash);
    assert ([name] + [[]])[1] == [];
  }

  lemma BackslashAtEnd(backslash: string)
    requires backslash == ['\\']
    ensures AtEnd(backslash)
  {
  }

  /** With a backslash behind it, refused. */
  lemma BackslashBaseRefused(
    hosts: HostReader, scheme: string, a: string, name: string, backslash: string, input: UploadInput, uuid: string)
    requires Given(hosts, scheme, a, name, input, uuid) && backslash == ['\\']
    ensures Refused(hosts, Web(scheme, a, "/" + name + backslash) + [], input, uuid)
  {
    BackslashAtEnd(backslash);
    MoreText(a, "/" + name, backslash);
    EmptyEndUnfit(hosts, a, name, backslash);
    CaseJudged(hosts, scheme, a, "/" + name + backslash, [], input, uuid);
  }

  /** With a blank behind it, refused. */
  lemma BlankBaseRefused(
    hosts: HostReader, scheme: string, a: string, name: string, blank: string, input: UploadInput, uuid: string)
    requires Given(hosts, scheme, a, name, input, uuid) && blank == [' ']
    ensures Refused(hosts, Web(scheme, a, "/" + name) + blank, input, uuid)
  {
    NothingRemoved(blank);
    CaseJudged(hosts, scheme, a, "/" + name, blank, input, uuid);
  }

  predicate OneLetter(s: string) {
    |s| == 1 && 'a' <= s[0] <= 'z'
  }

  /** Such a base is `https://h/a`: the scheme in any case, and any letters for host and path. */
  lemma SomeWeb(scheme: string, a: string, name: string)
    requires Lower(scheme) == "https" && OneLetter(a) && OneLetter(name)
    ensures WebScheme(scheme) && Name(name) && WebText(a, "/" + name)
  {
    forall i | 0 <= i < |scheme| ensures IsLetter(scheme[i]) {
      assert 'a' <= LowerChar(scheme[i]) <= 'z';
    }
  }
}
