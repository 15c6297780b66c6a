/** Where uploads go: the printer of object keys and URLs, and the checker a release file URL must pass. */
module Storage {
  import opened Text
  import opened Slug
  import PercentEncoding

  // ---------- numbers as JavaScript has them ----------

  datatype JsNumber = NotANumber | Infinite | Finite(value: real)

  const MAX_SAFE_INTEGER := 0x1F_FFFF_FFFF_FFFF

  predicate IsInteger(n: JsNumber) {
    n.Finite? && n.value.Floor as real == n.value
  }

  predicate IsSafeInteger(n: JsNumber) {
    IsInteger(n) && -MAX_SAFE_INTEGER <= n.value.Floor <= MAX_SAFE_INTEGER
  }

  // ---------- file names ----------

  function LastDot(name: string): (i: int)
    ensures -1 <= i < |name|
    ensures i >= 0 ==> name[i] == '.'
    ensures forall j :: i < j < |name| ==> name[j] != '.'
  {
    if name == [] then -1
    else if name[|name| - 1] == '.' then |name| - 1
    else LastDot(name[..|name| - 1])
  }

  /** From the last dot on, lower case. */
  function FileExtension(name: string): string {
    if LastDot(name) == -1 then [] else Lower(name[LastDot(name)..])
  }

  /** The same as the path library reads it: a leading dot starts no extension. */
  function Extname(name: string): string {
    if LastDot(name) <= 0 || name == ".." then [] else name[LastDot(name)..]
  }

  predicate AllowedExtension(extension: string) {
    extension == ".jar" || extension == ".mrpack" || extension == ".zip"
  }

  // ---------- printing ----------

  const VERSION_FILE := "version-file"
  const PROJECTS := "projects"

  datatype UploadError =
    | UnsupportedKind | ProjectRequired | NameRequired | NameHasSeparator | NameTooLong
    | SizeNotPositive | SizeTooLarge | NotAnArchive | ImageTooLarge | ContentTypeRequired
    | NotAnImage | ProjectNotFound | PermissionRequired | ProjectNotApproved

  datatype Upload = Upload(key: string, objectUrl: string) | Refused(error: UploadError)

  /** A project as the upload looks it up; `allowed` is the caller's permission for the upload kind. */
  datatype ProjectView = ProjectView(slug: string, approved: bool, allowed: bool)

  datatype UploadInput = UploadInput(
    uploadKind: string, projectSlug: string, fileName: string, sizeBytes: JsNumber, contentType: Option<string>)

  const MAX_UPLOAD_BYTES := 512 * 1024 * 1024
  const MAX_IMAGE_BYTES := 10 * 1024 * 1024

  datatype UploadKind = GalleryImage | ProjectIcon | VersionFileUpload

  function KindName(kind: UploadKind): string {
    match kind
    case GalleryImage => "gallery-image"
    case ProjectIcon => "project-icon"
    case VersionFileUpload => VERSION_FILE
  }

  /** The kind a text names, apart from case and surrounding white space. */
  function KindFrom(text: string): Option<UploadKind> {
    var name := Lower(Trim(text));
    if name == KindName(GalleryImage) then Some(GalleryImage)
    else if name == KindName(ProjectIcon) then Some(ProjectIcon)
    else if name == KindName(VersionFileUpload) then Some(VersionFileUpload)
    else None
  }

  predicate ImageType(contentType: string) {
    contentType == "image/gif" || contentType == "image/jpeg" || contentType == "image/png"
    || contentType == "image/webp"
  }

  function Utf16Length(s: string): nat {
    if s == [] then 0 else (if s[0] as int < 0x1_0000 then 1 else 2) + Utf16Length(s[1..])
  }

  function StripSlashes(s: string): (r: string)
    ensures r != [] ==> r[|r| - 1] != '/'
    ensures |r| <= |s| && r == s[..|r|]
  {
    if s != [] && s[|s| - 1] == '/' then StripSlashes(s[..|s| - 1]) else s
  }

  function UploadKey(slug: string, kind: string, uuid: string, extension: string): string {
    Join([PROJECTS, KeyPart(slug), kind, uuid + extension], "/")
  }

  function EncodeSegments(segments: seq<string>): (r: seq<string>)
    ensures |r| == |segments|
    ensures forall i :: 0 <= i < |r| ==> r[i] == PercentEncoding.Encode(segments[i])
  {
    seq(|segments|, i requires 0 <= i < |segments| => PercentEncoding.Encode(segments[i]))
  }

  function PublicObjectUrl(baseUrl: string, key: string): string {
    StripSlashes(baseUrl) + "/" + Join(EncodeSegments(Split(key, '/')), "/")
  }

  function ContentType(value: Option<string>): Option<string> {
    if value.None? || Trim(value.value) == [] then None else Some(Lower(Trim(value.value)))
  }

  function NameError(name: string): Option<UploadError> {
    if name == [] then Some(NameRequired)
    else if '/' in name || '\\' in name then Some(NameHasSeparator)
    else if Utf16Length(name) > 160 then Some(NameTooLong)
    else None
  }

  function SizeError(sizeBytes: JsNumber): Option<UploadError> {
    if !IsSafeInteger(sizeBytes) || sizeBytes.value.Floor <= 0 then Some(SizeNotPositive)
    else if sizeBytes.value.Floor > MAX_UPLOAD_BYTES then Some(SizeTooLarge)
    else None
  }

  function ImageError(sizeBytes: int, contentType: Option<string>): Option<UploadError> {
    if sizeBytes > MAX_IMAGE_BYTES then Some(ImageTooLarge)
    else if contentType.None? then Some(ContentTypeRequired)
    else if !ImageType(contentType.value) then Some(NotAnImage)
    else None
  }

  function ArchiveError(name: string): Option<UploadError> {
    if AllowedExtension(FileExtension(name)) then None else Some(NotAnArchive)
  }

  /** The input as the checks see it: trimmed, lower case where case does not count. */
  datatype Normalized = Normalized(
    kind: Option<UploadKind>, slug: string, name: string, size: JsNumber, contentType: Option<string>)

  function Normalize(input: UploadInput): Normalized {
    Normalized(KindFrom(input.uploadKind), Trim(input.projectSlug), Trim(input.fileName),
               input.sizeBytes, ContentType(input.contentType))
  }

  /** The checks on the input alone, in their order. */
  function InputError(n: Normalized): Option<UploadError> {
    if n.kind.None? then Some(UnsupportedKind)
    else if n.slug == [] then Some(ProjectRequired)
    else if NameError(n.name).Some? then NameError(n.name)
    else if SizeError(n.size).Some? then SizeError(n.size)
    else if n.kind == Some(VersionFileUpload) then ArchiveError(n.name)
    else ImageError(n.size.value.Floor, n.contentType)
  }

  function PrepareNormalized(n: Normalized, projects: map<string, ProjectView>, baseUrl: string, uuid: string): Upload {
    if InputError(n).Some? then Refused(InputError(n).value)
    else if n.slug !in projects then Refused(ProjectNotFound)
    else if !projects[n.slug].allowed then Refused(PermissionRequired)
    else if n.kind == Some(VersionFileUpload) && !projects[n.slug].approved then Refused(ProjectNotApproved)
    else Printed(projects[n.slug].slug, KindName(n.kind.value), uuid, n.name, baseUrl)
  }

  function PrepareProjectUpload(
    input: UploadInput, projects: map<string, ProjectView>, baseUrl: string, uuid: string
  ): Upload {
    PrepareNormalized(Normalize(input), projects, baseUrl, uuid)
  }

  function Printed(slug: string, kind: string, uuid: string, fileName: string, baseUrl: string): Upload {
    var key := UploadKey(slug, kind, uuid, Lower(Extname(fileName)));
    Upload(key, PublicObjectUrl(baseUrl, key))
  }

  // ---------- checking ----------

  /** What the checker looks at in a parsed URL. */
  datatype Url = Url(protocol: string, host: string, pathname: string)

  /** The URL parser, whichever it is; None where it throws. */
  type UrlParser = string -> Option<Url>

  function ExpectedPrefix(basePathname: string, slug: string): string {
    StripSlashes(basePathname) + "/" + PROJECTS + "/" + KeyPart(slug) + "/" + VERSION_FILE + "/"
  }

  predicate IsProjectVersionFileUrl(parse: UrlParser, url: string, publicBaseUrl: string, slug: string) {
    var normalizedBase := StripSlashes(Trim(publicBaseUrl));
    normalizedBase != []
    && parse(url).Some?
    && parse(normalizedBase + "/").Some?
    && parse(url).value.protocol == parse(normalizedBase + "/").value.protocol
    && parse(url).value.host == parse(normalizedBase + "/").value.host
    && StartsWith(parse(url).value.pathname, ExpectedPrefix(parse(normalizedBase + "/").value.pathname, slug))
  }

  // ---------- what is printed for a release file ----------

  predicate PlainPath(path: string) {
    forall c :: c in path ==> PercentEncoding.Unreserved(c) || c == '/'
  }

  predicate AllSpace(w: string) {
    forall c :: c in w ==> IsSpace(c)
  }

  predicate AllSlashes(s: string) {
    forall i :: 0 <= i < |s| ==> s[i] == '/'
  }

  /** The slashes a base ends with. */
  function SlashesAtEnd(base: string): string {
    base[|StripSlashes(base)|..]
  }

  predicate IsUuid(uuid: string) {
    |uuid| == 36 && forall i :: 0 <= i < 36 ==> '0' <= uuid[i] <= '9' || 'a' <= uuid[i] <= 'f' || uuid[i] == '-'
  }

  predicate Plain(s: string) {
    forall c :: c in s ==> PercentEncoding.Unreserved(c)
  }

  lemma ArchiveExtensions(name: string)
    requires AllowedExtension(FileExtension(name))
    ensures Plain(Lower(Extname(name)))
  {
    if Extname(name) != [] {
      assert Lower(Extname(name)) == FileExtension(name);
    }
  }

  lemma {:induction false} PlainPieces(pieces: seq<string>)
    requires forall i :: 0 <= i < |pieces| ==> Plain(pieces[i])
    ensures EncodeSegments(pieces) == pieces
    ensures PlainPath(Join(pieces, "/"))
  {
    forall i | 0 <= i < |pieces| ensures EncodeSegments(pieces)[i] == pieces[i] {
      PercentEncoding.PlainText(pieces[i]);
    }
    if |pieces| > 1 {
      PlainPieces(pieces[1..]);
    }
  }

  lemma PlainUrl(base: string, pieces: seq<string>)
    requires pieces != [] && forall i :: 0 <= i < |pieces| ==> Plain(pieces[i])
    ensures PublicObjectUrl(base, Join(pieces, "/")) == StripSlashes(base) + "/" + Join(pieces, "/")
  {
    PlainPieces(pieces);
    forall piece | piece in pieces ensures '/' !in piece {
      assert Plain(piece);
    }
    SplitJoin(pieces, '/');
  }

  /** A release upload's URL is the base followed by the key as it is: nothing in the key needs an escape. */
  lemma PrintedUrl(base: string, slug: string, uuid: string, extension: string)
    requires IsUuid(uuid) && Plain(extension)
    ensures var key := UploadKey(slug, VERSION_FILE, uuid, extension);
      PublicObjectUrl(base, key) == StripSlashes(base) + "/" + key && PlainPath(key)
  {
    var pieces := [PROJECTS, KeyPart(slug), VERSION_FILE, uuid + extension];
    assert Plain(pieces[0]) && Plain(pieces[1]) && Plain(pieces[2]) && Plain(pieces[3]);
    PlainUrl(base, pieces);
    PlainPieces(pieces);
  }

  lemma JoinFour(a: string, b: string, c: string, d: string)
    ensures Join([a, b, c, d], "/") == a + "/" + b + "/" + c + "/" + d
  {
    assert [a, b, c, d][1..] == [b, c, d] && [b, c, d][1..] == [c, d] && [c, d][1..] == [d];
    assert Join([c, d], "/") == c + "/" + d;
    assert Join([b, c, d], "/") == b + "/" + (c + "/" + d);
  }

  lemma KeyStart(slug: string, uuid: string, extension: string)
    ensures var key := UploadKey(slug, VERSION_FILE, uuid, extension);
      key == PROJECTS + "/" + KeyPart(slug) + "/" + VERSION_FILE + "/" + (uuid + extension)
      && !StartsWith(key, "/")
  {
    JoinFour(PROJECTS, KeyPart(slug), VERSION_FILE, uuid + extension);
    assert UploadKey(slug, VERSION_FILE, uuid, extension)[0] == PROJECTS[0];
  }

  lemma ArchiveChecked(n: Normalized, projects: map<string, ProjectView>, base: string, uuid: string)
    requires n.kind == Some(VersionFileUpload) && PrepareNormalized(n, projects, base, uuid).Upload?
    ensures AllowedExtension(FileExtension(n.name)) && n.slug in projects
    ensures PrepareNormalized(n, projects, base, uuid)
      == Printed(projects[n.slug].slug, VERSION_FILE, uuid, n.name, base)
  {
    assert ArchiveError(n.name).None?;
  }

  function SpaceAtEnd(base: string): string {
    base[|TrimEnd(base)|..]
  }

  // ---------- what is printed, trimmed as the checker's caller trims it ----------

  lemma {:induction false} TrimStartSpace(w: string, s: string)
    requires AllSpace(w) && s != [] && !IsSpace(s[0])
    ensures TrimStart(w + s) == s
  {
    if w == [] {
      assert w + s == s;
    } else {
      assert (w + s)[1..] == w[1..] + s;
      TrimStartSpace(w[1..], s);
    }
  }

  lemma {:induction false} TrimStartSplit(s: string)
    ensures AllSpace(s[..|s| - |TrimStart(s)|])
  {
    if s != [] && IsSpace(s[0]) {
      TrimStartSplit(s[1..]);
      var n := |s| - |TrimStart(s)|;
      assert s[..n] == [s[0]] + s[1..][..n - 1];
    }
  }

  lemma {:induction false} TrimEndSplit(s: string)
    ensures AllSpace(s[|TrimEnd(s)|..])
  {
    if s != [] && IsSpace(s[|s| - 1]) {
      var n := |s| - 1;
      TrimEndSplit(s[..n]);
      assert s[|TrimEnd(s)|..] == s[..n][|TrimEnd(s)|..] + [s[n]];
    }
  }

  lemma {:induction false} TrimEndAfter(w: string, s: string)
    requires TrimEnd(s) != []
    ensures TrimEnd(w + s) == w + TrimEnd(s)
  {
    if s != [] && IsSpace(s[|s| - 1]) {
      assert (w + s)[..|w + s| - 1] == w + s[..|s| - 1];
      TrimEndAfter(w, s[..|s| - 1]);
    }
  }

  lemma StartParts(base: string) returns (l: string)
    ensures AllSpace(l) && base == l + TrimStart(base)
  {
    l := base[..|base| - |TrimStart(base)|];
    TrimStartSplit(base);
  }

  lemma EndParts(base: string)
    ensures AllSpace(SpaceAtEnd(base)) && base == TrimEnd(base) + SpaceAtEnd(base)
  {
    TrimEndSplit(base);
  }

  /** A base is white space, the trimmed base, white space. */
  lemma BaseParts(base: string) returns (l: string)
    requires Trim(base) != []
    ensures AllSpace(l) && AllSpace(SpaceAtEnd(base)) && base == l + Trim(base) + SpaceAtEnd(base)
  {
    l := StartParts(base);
    EndParts(base);
    TrimEndAfter(l, TrimStart(base));
  }

  lemma {:induction false} StripAfter(w: string, s: string)
    requires StripSlashes(s) != []
    ensures StripSlashes(w + s) == w + StripSlashes(s)
  {
    if s[|s| - 1] == '/' {
      assert (w + s)[..|w + s| - 1] == w + s[..|s| - 1];
      StripAfter(w, s[..|s| - 1]);
    }
  }

  lemma {:induction false} StripSplit(s: string)
    ensures s == StripSlashes(s) + SlashesAtEnd(s) && AllSlashes(SlashesAtEnd(s))
  {
    if s != [] && s[|s| - 1] == '/' {
      var n := |s| - 1;
      StripSplit(s[..n]);
      assert SlashesAtEnd(s) == SlashesAtEnd(s[..n]) + [s[n]];
    }
  }

  lemma TrimAround(l: string, s: string)
    requires AllSpace(l) && s != [] && !IsSpace(s[0]) && !IsSpace(s[|s| - 1])
    ensures Trim(l + s) == s
  {
    TrimStartSpace(l, s);
  }

  lemma TrimmedWithout(l: string, b: string, key: string)
    requires AllSpace(l) && StripSlashes(b) != [] && !IsSpace(b[0]) && key != [] && !IsSpace(key[|key| - 1])
    ensures Trim(StripSlashes(l + b) + "/" + key) == StripSlashes(b) + "/" + key
  {
    StripAfter(l, b);
    var s := StripSlashes(b) + "/" + key;
    assert StripSlashes(l + b) + "/" + key == l + s;
    TrimAround(l, s);
  }

  lemma TrimmedWith(l: string, b: string, w: string, key: string)
    requires AllSpace(l) && b != [] && !IsSpace(b[0]) && w != [] && w[|w| - 1] != '/'
    requires key != [] && !IsSpace(key[|key| - 1])
    ensures Trim(StripSlashes(l + b + w) + "/" + key) == b + w + "/" + key
  {
    SlashesKept(l + b + w);
    Behind(l, b, w, key);
    TrimAround(l, b + w + "/" + key);
  }

  lemma SlashesKept(s: string)
    requires s != [] && s[|s| - 1] != '/'
    ensures StripSlashes(s) == s
  {
  }

  lemma Behind(l: string, b: string, w: string, key: string)
    ensures l + b + w + "/" + key == l + (b + w + "/" + key)
  {
  }

  /** What is printed behind a base, trimmed: the slashes of the base are gone, but not those before white space. */
  lemma PrintedTrimmed(base: string, key: string)
    requires StripSlashes(Trim(base)) != [] && key != [] && !IsSpace(key[|key| - 1])
    ensures Trim(StripSlashes(base) + "/" + key) ==
      if SpaceAtEnd(base) == [] then StripSlashes(Trim(base)) + "/" + key
      else Trim(base) + SpaceAtEnd(base) + "/" + key
  {
    var b, w := Trim(base), SpaceAtEnd(base);
    var l := BaseParts(base);
    if w == [] {
      assert base == l + b;
      TrimmedWithout(l, b, key);
    } else {
      assert IsSpace(w[|w| - 1]);
      TrimmedWith(l, b, w, key);
    }
  }

  lemma KeyEnds(slug: string, uuid: string, extension: string)
    requires IsUuid(uuid) && Plain(extension)
    ensures var key := UploadKey(slug, VERSION_FILE, uuid, extension); key != [] && !IsSpace(key[|key| - 1])
  {
    KeyStart(slug, uuid, extension);
    var last := uuid + extension;
    assert Plain(last);
    assert last[|last| - 1] in last;
  }

  /** The URL of a file, as a request gives it, is that of the project. */
  predicate Accepted(parse: UrlParser, url: string, publicBaseUrl: string, slug: string) {
    IsProjectVersionFileUrl(parse, Trim(url), publicBaseUrl, slug)
  }

  ghost predicate SlugsMade(projects: map<string, ProjectView>) {
    forall name :: name in projects ==> SlugText(projects[name].slug)
  }

  // ---------- one URL, one project ----------

  lemma PartAt(head: string, a: string, tail: string, path: string)
    requires '/' !in a && tail != [] && tail[0] == '/' && StartsWith(path, head + a + tail)
    ensures |head| + |a| < |path| && path[|head| + |a|] == '/'
    ensures path[|head|..|head| + |a|] == a
    ensures forall i :: |head| <= i < |head| + |a| ==> path[i] != '/'
  {
    var whole := head + a + tail;
    assert forall i :: 0 <= i < |whole| ==> path[i] == whole[i];
    assert forall i :: 0 <= i < |a| ==> whole[|head| + i] == a[i];
    assert whole[|head| + |a|] == tail[0];
    assert whole[|head|..|head| + |a|] == a;
  }

  /** A path that goes on with `a` up to a slash and with `b` up to a slash goes on with one of them. */
  lemma SamePart(head: string, a: string, b: string, tail: string, path: string)
    requires '/' !in a && '/' !in b && tail != [] && tail[0] == '/'
    requires StartsWith(path, head + a + tail) && StartsWith(path, head + b + tail)
    ensures a == b
  {
    PartAt(head, a, tail, path);
    PartAt(head, b, tail, path);
  }

  lemma PrefixAround(b: string, p: string, k: string, v: string)
    ensures b + "/" + p + "/" + k + "/" + v + "/" == (b + "/" + p + "/") + k + ("/" + v + "/")
  {
  }

  lemma SamePrefix(basePathname: string, slugA: string, slugB: string, path: string)
    requires StartsWith(path, ExpectedPrefix(basePathname, slugA))
    requires StartsWith(path, ExpectedPrefix(basePathname, slugB))
    ensures KeyPart(slugA) == KeyPart(slugB)
  {
    PrefixAround(StripSlashes(basePathname), PROJECTS, KeyPart(slugA), VERSION_FILE);
    PrefixAround(StripSlashes(basePathname), PROJECTS, KeyPart(slugB), VERSION_FILE);
    SamePart(StripSlashes(basePathname) + "/" + PROJECTS + "/", KeyPart(slugA), KeyPart(slugB),
             "/" + VERSION_FILE + "/", path);
  }

  /** Whatever the parser, a URL is accepted for two projects only if their key parts are the same. */
  lemma AcceptedForOneKeyPart(parse: UrlParser, url: string, base: string, slugA: string, slugB: string)
    requires IsProjectVersionFileUrl(parse, url, base, slugA)
    ensures IsProjectVersionFileUrl(parse, url, base, slugB) <==> KeyPart(slugA) == KeyPart(slugB)
  {
    if IsProjectVersionFileUrl(parse, url, base, slugB) {
      SamePrefix(parse(StripSlashes(Trim(base)) + "/").value.pathname, slugA, slugB, parse(url).value.pathname);
    }
  }

  /** For slugs the service makes, that is: for one project only. */
  lemma AcceptedForOneProject(parse: UrlParser, url: string, base: string, valueA: string, valueB: string)
    requires IsProjectVersionFileUrl(parse, url, base, NormalizeSlug(valueA))
    requires IsProjectVersionFileUrl(parse, url, base, NormalizeSlug(valueB))
    ensures NormalizeSlug(valueA) == NormalizeSlug(valueB)
  {
    AcceptedForOneKeyPart(parse, url, base, NormalizeSlug(valueA), NormalizeSlug(valueB));
    Shape(valueA);
    Shape(valueB);
    SlugIsKeyPart(NormalizeSlug(valueA));
    SlugIsKeyPart(NormalizeSlug(valueB));
  }
}
