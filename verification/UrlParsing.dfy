/**
 A URL parser in the steps of the URL standard that matter to the storage URLs, for every scheme that
 has an authority behind two slashes: tabs and line breaks are removed, a query and a fragment are cut
 off, a backslash is a slash under the schemes of the web, dot segments are resolved, and what is no
 path character is escaped. The host is read by a parser of its own, which may be any.
 */
module UrlParsing {
  import opened Text
  import opened Int32
  import opened Storage
  import PercentEncoding

  /** What an authority is read as: the host with its port; None where it is refused. */
  type HostReader = string -> Option<string>

  /** Tabs and line breaks are removed from a URL before it is read. */
  predicate Removed(c: char) {
    c == '\t' || c == '\n' || c == '\r'
  }

  function Without(s: string): (r: string)
    ensures forall c :: c in r ==> c in s && !Removed(c)
  {
    if s == [] then [] else (if Removed(s[0]) then [] else [s[0]]) + Without(s[1..])
  }

  /** Position of the first occurrence, or the length. */
  function FirstIndex(s: string, c: char): (i: nat)
    ensures i <= |s| && (i < |s| ==> s[i] == c)
    ensures forall k :: 0 <= k < i ==> s[k] != c
  {
    if s == [] || s[0] == c then 0 else 1 + FirstIndex(s[1..], c)
  }

  predicate IsLetter(c: char) {
    'a' <= c <= 'z' || 'A' <= c <= 'Z'
  }

  predicate SchemeText(s: string) {
    s != [] && IsLetter(s[0])
    && forall i :: 0 <= i < |s| ==> IsLetter(s[i]) || '0' <= s[i] <= '9' || s[i] == '+' || s[i] == '-' || s[i] == '.'
  }

  /** The schemes of the web; local files are read by rules of their own. */
  predicate Special(scheme: string) {
    var name := Lower(scheme);
    name == "http" || name == "https" || name == "ws" || name == "wss" || name == "ftp"
  }

  predicate Readable(scheme: string) {
    SchemeText(scheme) && Lower(scheme) != "file"
  }

  predicate IsSlash(special: bool, c: char) {
    c == '/' || (special && c == '\\')
  }

  predicate IsQuery(c: char) {
    c == '?' || c == '#'
  }

  predicate EndsHost(special: bool, c: char) {
    IsSlash(special, c) || IsQuery(c)
  }

  function SkipSlashes(s: string): (r: string)
    ensures r != [] ==> !IsSlash(true, r[0])
  {
    if s != [] && IsSlash(true, s[0]) then SkipSlashes(s[1..]) else s
  }

  function HostLength(special: bool, s: string): (j: nat)
    ensures j <= |s| && (j < |s| ==> EndsHost(special, s[j]))
    ensures forall k :: 0 <= k < j ==> !EndsHost(special, s[k])
  {
    if s == [] || EndsHost(special, s[0]) then 0 else 1 + HostLength(special, s[1..])
  }

  function BeforeQuery(s: string): (r: string)
    ensures forall c :: c in r ==> !IsQuery(c)
  {
    if s == [] || IsQuery(s[0]) then [] else [s[0]] + BeforeQuery(s[1..])
  }

  // ---------- paths ----------

  /** How many dots a segment is, each written as itself or escaped; None when it is anything else. */
  function Dots(segment: string): Option<nat> {
    if segment == [] then Some(0)
    else if segment[0] == '.' then OneMore(Dots(segment[1..]))
    else if |segment| >= 3 && segment[0] == '%' && segment[1] == '2' && (segment[2] == 'e' || segment[2] == 'E') then
      OneMore(Dots(segment[3..]))
    else None
  }

  function OneMore(n: Option<nat>): Option<nat> {
    if n.None? then None else Some(n.value + 1)
  }

  predicate IsDots(segment: string) {
    Dots(segment) == Some(1) || Dots(segment) == Some(2)
  }

  /** Characters of a path that are not escaped. */
  predicate PathChar(c: char) {
    '!' <= c <= '~' && c != '"' && c != '#' && c != '<' && c != '>' && c != '?' && c != '`' && c != '{' && c != '}'
  }

  function CleanChar(special: bool, c: char): string {
    if IsSlash(special, c) then "/"
    else if PathChar(c) then [c]
    else PercentEncoding.EscapeAll(PercentEncoding.Utf8(c))
  }

  function Clean(special: bool, s: string): string {
    if s == [] then [] else CleanChar(special, s[0]) + Clean(special, s[1..])
  }

  /** One dot adds nothing, two dots take a segment away. */
  function Step(kept: seq<string>, segment: string): seq<string> {
    if Dots(segment) == Some(2) then (if kept == [] then [] else kept[..|kept| - 1])
    else if Dots(segment) == Some(1) then kept
    else kept + [segment]
  }

  function Kept(segments: seq<string>): seq<string> {
    if segments == [] then []
    else Step(Kept(segments[..|segments| - 1]), segments[|segments| - 1])
  }

  /** At the end dots leave an empty segment. */
  function Resolve(segments: seq<string>): seq<string> {
    Kept(segments) + (if segments != [] && IsDots(segments[|segments| - 1]) then [[]] else [])
  }

  /** The segments of a path as it is written, behind its first slash. */
  function PathSegments(special: bool, path: string): seq<string> {
    if path == [] then [] else Split(Clean(special, path[1..]), '/')
  }

  /** Every segment behind a slash. */
  function Lead(segments: seq<string>): string {
    if segments == [] then [] else "/" + segments[0] + Lead(segments[1..])
  }

  function ReadPath(special: bool, path: string): string {
    if path == [] then (if special then "/" else "") else Lead(Resolve(PathSegments(special, path)))
  }

  // ---------- URLs ----------

  /** A URL up to the slashes before its authority, and the text behind them. */
  datatype Parts = Parts(special: bool, protocol: string, rest: string) {
    function Authority(): string {
      rest[..HostLength(special, rest)]
    }

    /** Path, query and fragment. */
    function Tail(): string {
      rest[HostLength(special, rest)..]
    }
  }

  /** Under the schemes of the web any number of slashes will do. */
  function BehindSlashes(special: bool, s: string): Option<string> {
    if special then Some(SkipSlashes(s))
    else if |s| >= 2 && s[..2] == "//" then Some(s[2..])
    else None
  }

  function PartsOf(s: string): Option<Parts> {
    var i := FirstIndex(s, ':');
    if i == |s| then None else PartsUnder(s[..i], s[i + 1..])
  }

  function PartsUnder(scheme: string, s: string): Option<Parts> {
    if !Readable(scheme) || BehindSlashes(Special(scheme), s).None? then None
    else Some(Parts(Special(scheme), Lower(scheme) + ":", BehindSlashes(Special(scheme), s).value))
  }

  function ReadParts(hosts: HostReader, p: Parts): Option<Url> {
    if (p.special && p.Authority() == []) || hosts(p.Authority()).None? then None
    else Some(Url(p.protocol, hosts(p.Authority()).value, ReadPath(p.special, BeforeQuery(p.Tail()))))
  }

  function ReadUrl(hosts: HostReader, s: string): Option<Url> {
    var p := PartsOf(Without(s));
    if p.None? then None else ReadParts(hosts, p.value)
  }

  function Reader(hosts: HostReader): UrlParser {
    s => ReadUrl(hosts, s)
  }

  // ---------- pieces ----------

  lemma {:induction false} WithoutBoth(a: string, b: string)
    ensures Without(a + b) == Without(a) + Without(b)
  {
    if a == [] {
      assert a + b == b;
    } else {
      assert (a + b)[1..] == a[1..] + b;
      WithoutBoth(a[1..], b);
    }
  }

  lemma {:induction false} NothingRemoved(s: string)
    requires forall i :: 0 <= i < |s| ==> !Removed(s[i])
    ensures Without(s) == s
  {
    if s != [] {
      NothingRemoved(s[1..]);
    }
  }

  lemma {:induction false} FirstIndexStays(s: string, c: char, more: string)
    requires FirstIndex(s, c) < |s|
    ensures FirstIndex(s + more, c) == FirstIndex(s, c)
  {
    if s[0] != c {
      assert (s + more)[1..] == s[1..] + more;
      FirstIndexStays(s[1..], c, more);
    }
  }

  lemma {:induction false} SkipMore(s: string, more: string)
    ensures SkipSlashes(s) != [] ==> SkipSlashes(s + more) == SkipSlashes(s) + more
    ensures SkipSlashes(s) == [] ==> SkipSlashes(s + more) == SkipSlashes(more)
  {
    if s == [] {
      assert s + more == more;
    } else {
      assert (s + more)[1..] == s[1..] + more;
      SkipMore(s[1..], more);
    }
  }

  lemma BehindSlashesMore(special: bool, s: string, more: string)
    requires BehindSlashes(special, s).Some?
    requires special && SkipSlashes(s) == [] ==> SkipSlashes(more) == []
    ensures BehindSlashes(special, s + more)
      == Some(if special && SkipSlashes(s) == [] then [] else BehindSlashes(special, s).value + more)
  {
    if special {
      SkipMore(s, more);
    } else {
      assert (s + more)[..2] == s[..2] && (s + more)[2..] == s[2..] + more;
    }
  }

  lemma PartsUnderMore(scheme: string, s: string, more: string)
    requires PartsUnder(scheme, s).Some?
    requires PartsUnder(scheme, s).value.special && PartsUnder(scheme, s).value.rest == [] ==> SkipSlashes(more) == []
    ensures var p := PartsUnder(scheme, s).value;
      PartsUnder(scheme, s + more) == Some(p.(rest := if p.special && p.rest == [] then [] else p.rest + more))
  {
    BehindSlashesMore(Special(scheme), s, more);
  }

  lemma CutMore(s: string, i: nat, more: string)
    requires i < |s|
    ensures (s + more)[..i] == s[..i] && (s + more)[i + 1..] == s[i + 1..] + more
  {
  }

  /** Text goes to the rest, whatever is read before it. */
  lemma PartsMore(s: string, more: string)
    requires PartsOf(s).Some?
    requires PartsOf(s).value.special && PartsOf(s).value.rest == [] ==> SkipSlashes(more) == []
    ensures var p := PartsOf(s).value;
      PartsOf(s + more) == Some(p.(rest := if p.special && p.rest == [] then [] else p.rest + more))
  {
    var i := FirstIndex(s, ':');
    FirstIndexStays(s, ':', more);
    CutMore(s, i, more);
    PartsUnderMore(s[..i], s[i + 1..], more);
  }

  lemma {:induction false} HostLengthIs(special: bool, a: string, more: string)
    requires forall i :: 0 <= i < |a| ==> !EndsHost(special, a[i])
    requires more == [] || EndsHost(special, more[0])
    ensures HostLength(special, a + more) == |a|
  {
    if a == [] {
      assert a + more == more;
    } else {
      assert (a + more)[1..] == a[1..] + more;
      HostLengthIs(special, a[1..], more);
    }
  }

  lemma {:induction false} QueryCut(s: string, more: string)
    ensures (exists c :: c in s && IsQuery(c)) ==> BeforeQuery(s + more) == BeforeQuery(s)
    ensures !(exists c :: c in s && IsQuery(c)) ==> BeforeQuery(s + more) == s + BeforeQuery(more)
  {
    if s == [] {
      assert s + more == more;
    } else if !IsQuery(s[0]) {
      assert (s + more)[1..] == s[1..] + more;
      assert s == [s[0]] + s[1..];
      QueryCut(s[1..], more);
    } else {
      assert s[0] in s;
    }
  }

  lemma {:induction false} CleanBoth(special: bool, a: string, b: string)
    ensures Clean(special, a + b) == Clean(special, a) + Clean(special, b)
  {
    if a == [] {
      assert a + b == b;
    } else {
      assert (a + b)[1..] == a[1..] + b;
      CleanBoth(special, a[1..], b);
    }
  }

  lemma {:induction false} PlainIsClean(special: bool, s: string)
    requires PlainPath(s)
    ensures Clean(special, s) == s
  {
    if s != [] {
      assert s[0] in s;
      assert s == [s[0]] + s[1..];
      PlainIsClean(special, s[1..]);
    }
  }

  // ---------- splitting ----------

  lemma {:induction false} SplitGlue(a: string, b: string)
    ensures Split(a + "/" + b, '/') == Split(a, '/') + Split(b, '/')
  {
    var s := a + "/" + b;
    if a == [] {
      assert s[1..] == b;
    } else {
      assert s[1..] == a[1..] + "/" + b;
      SplitGlue(a[1..], b);
    }
  }

  /** Text put behind the last piece. */
  function Extend(pieces: seq<string>, e: string): seq<string>
    requires pieces != []
  {
    pieces[..|pieces| - 1] + [pieces[|pieces| - 1] + e]
  }

  function Before(c: char, pieces: seq<string>): (r: seq<string>)
    requires pieces != []
    ensures r != []
  {
    if c == '/' then [[]] + pieces else [[c] + pieces[0]] + pieces[1..]
  }

  lemma ExtendBefore(c: char, pieces: seq<string>, e: string)
    requires pieces != []
    ensures Extend(Before(c, pieces), e) == Before(c, Extend(pieces, e))
  {
    if |pieces| == 1 {
      assert [c] + (pieces[0] + e) == ([c] + pieces[0]) + e;
    } else {
      assert Extend(pieces, e)[0] == pieces[0];
    }
  }

  lemma SplitBefore(c: char, s: string)
    ensures Split([c] + s, '/') == Before(c, Split(s, '/'))
  {
    assert ([c] + s)[1..] == s;
  }

  lemma ExtendedBefore(c: char, rest: string, e: string)
    requires Split(rest + e, '/') == Extend(Split(rest, '/'), e)
    ensures Split([c] + (rest + e), '/') == Extend(Split([c] + rest, '/'), e)
  {
    SplitBefore(c, rest);
    SplitBefore(c, rest + e);
    ExtendBefore(c, Split(rest, '/'), e);
  }

  lemma {:induction false} SplitExtended(s: string, e: string)
    requires '/' !in e
    ensures Split(s + e, '/') == Extend(Split(s, '/'), e)
  {
    if s == [] {
      assert s + e == e && [] + e == e;
      SplitWhole(e, '/');
    } else {
      SplitExtended(s[1..], e);
      ExtendedBefore(s[0], s[1..], e);
      assert s == [s[0]] + s[1..] && s + e == [s[0]] + (s[1..] + e);
    }
  }

  lemma {:induction false} SplitPlain(s: string)
    ensures forall piece :: piece in Split(s, '/') ==> '/' !in piece
  {
    if s != [] {
      SplitPlain(s[1..]);
    }
  }

  // ---------- segments of a path ----------

  predicate PathStart(special: bool, path: string) {
    path == [] || IsSlash(special, path[0])
  }

  lemma CleanGlue(special: bool, a: string, b: string)
    ensures Clean(special, a + "/" + b) == Clean(special, a) + "/" + Clean(special, b)
  {
    CleanBoth(special, a + "/", b);
    CleanBoth(special, a, "/");
    assert Clean(special, "/") == "/";
  }

  /** A slash more, and the segments behind it. */
  lemma SegmentsGlue(special: bool, path: string, more: string)
    requires PathStart(special, path)
    ensures PathSegments(special, path + "/" + more) == PathSegments(special, path) + Split(Clean(special, more), '/')
  {
    if path == [] {
      assert (path + "/" + more)[1..] == more;
    } else {
      assert (path + "/" + more)[1..] == path[1..] + "/" + more;
      CleanGlue(special, path[1..], more);
      SplitGlue(Clean(special, path[1..]), Clean(special, more));
    }
  }

  function Empties(n: nat): (r: seq<string>)
    ensures |r| == n && forall i :: 0 <= i < n ==> r[i] == []
  {
    seq(n, _ => [])
  }

  lemma {:induction false} SegmentsSlashes(special: bool, path: string, slashes: string)
    requires PathStart(special, path) && AllSlashes(slashes)
    ensures PathSegments(special, path + slashes) == PathSegments(special, path) + Empties(|slashes|)
  {
    if slashes == [] {
      assert path + slashes == path;
    } else {
      var n := |slashes| - 1;
      SegmentsSlashes(special, path, slashes[..n]);
      assert path + slashes == path + slashes[..n] + "/" + [];
      SegmentsGlue(special, path + slashes[..n], []);
      assert Empties(n) + [[]] == Empties(n + 1);
    }
  }

  lemma SegmentsExtended(special: bool, path: string, more: string)
    requires path != [] && '/' !in Clean(special, more)
    ensures PathSegments(special, path + more) == Extend(PathSegments(special, path), Clean(special, more))
  {
    assert (path + more)[1..] == path[1..] + more;
    CleanBoth(special, path[1..], more);
    SplitExtended(Clean(special, path[1..]), Clean(special, more));
  }

  // ---------- resolving ----------

  lemma {:induction false} KeptThrough(segments: seq<string>, more: seq<string>)
    requires forall segment :: segment in more ==> !IsDots(segment)
    ensures Kept(segments + more) == Kept(segments) + more
  {
    if more == [] {
      assert segments + more == segments;
    } else {
      var n := |more| - 1;
      assert (segments + more)[..|segments + more| - 1] == segments + more[..n];
      KeptThrough(segments, more[..n]);
      assert more[n] in more && (segments + more)[|segments + more| - 1] == more[n];
      assert Kept(segments) + more[..n] + [more[n]] == Kept(segments) + more;
    }
  }

  lemma ResolveThrough(segments: seq<string>, more: seq<string>)
    requires more != [] && forall segment :: segment in more ==> !IsDots(segment)
    ensures Resolve(segments + more) == Kept(segments) + more
  {
    KeptThrough(segments, more);
    assert (segments + more)[|segments + more| - 1] == more[|more| - 1];
  }

  /** White space as it is escaped: no slash, and no dot. */
  predicate Escaped(e: string) {
    |e| >= 3 && e[0] == '%' && '/' !in e && Dots(e).None?
  }

  lemma NoDots(e: string)
    requires |e| >= 3 && e[0] == '%' && (e[1] != '2' || (e[2] != 'e' && e[2] != 'E'))
    ensures Dots(e).None?
  {
  }

  lemma SpaceEscaped(special: bool, c: char, rest: string)
    requires IsSpace(c) && '/' !in rest
    ensures Escaped(CleanChar(special, c) + rest)
  {
    var bytes := PercentEncoding.Utf8(c);
    var e := PercentEncoding.EscapeAll(bytes);
    PercentEncoding.PlainEscapes(bytes);
    assert e == PercentEncoding.Escape(bytes[0]) + PercentEncoding.EscapeAll(bytes[1..]);
    assert (e + rest)[0] == '%' && (e + rest)[1] == e[1] && (e + rest)[2] == e[2];
    NoDots(e + rest);
  }

  lemma {:induction false} SpacesEscaped(special: bool, w: string)
    requires AllSpace(w)
    ensures '/' !in Clean(special, w) && (w != [] ==> Escaped(Clean(special, w)))
  {
    if w != [] {
      SpacesEscaped(special, w[1..]);
      SpaceEscaped(special, w[0], Clean(special, w[1..]));
    }
  }

  lemma {:induction false} ExtendedNoDots(segment: string, e: string)
    requires Escaped(e)
    ensures !IsDots(segment + e) && Dots(segment + e).None?
    decreases |segment|
  {
    var s := segment + e;
    if segment == [] {
      assert s == e;
    } else if segment[0] == '.' {
      assert s[1..] == segment[1..] + e;
      ExtendedNoDots(segment[1..], e);
    } else if |segment| >= 3 {
      assert s[3..] == segment[3..] + e;
      ExtendedNoDots(segment[3..], e);
    } else {
      assert s[|segment|] == '%';
    }
  }

  // ---------- paths under paths ----------

  lemma {:induction false} LeadBoth(a: seq<string>, b: seq<string>)
    ensures Lead(a + b) == Lead(a) + Lead(b)
  {
    if a == [] {
      assert a + b == b;
    } else {
      assert (a + b)[1..] == a[1..] + b;
      LeadBoth(a[1..], b);
    }
  }

  predicate SlashFree(segments: seq<string>) {
    forall i :: 0 <= i < |segments| ==> '/' !in segments[i]
  }

  /** The first segments are these, and there are more. */
  predicate Goes(segments: seq<string>, first: seq<string>) {
    |first| < |segments| && segments[..|first|] == first
  }

  predicate Slashed(s: string) {
    s == [] || s[0] == '/'
  }

  lemma StartsStep(s: string, t: string)
    requires s != [] && t != []
    ensures StartsWith(s, t) <==> s[0] == t[0] && StartsWith(s[1..], t[1..])
  {
    if |t| <= |s| {
      assert s[..|t|] == [s[0]] + s[1..][..|t| - 1];
      assert t == [t[0]] + t[1..];
    }
  }

  /** Texts without slashes, each before a slash or the end, are compared by comparing them. */
  lemma {:induction false} FirstSegment(a: string, x: string, b: string, y: string)
    requires '/' !in a && '/' !in b && Slashed(x) && Slashed(y) && y != []
    ensures StartsWith(a + x, b + y) <==> a == b && StartsWith(x, y)
  {
    if a == [] && b == [] {
      assert a + x == x && b + y == y;
    } else if a + x != [] {
      StartsStep(a + x, b + y);
      if a != [] && b != [] {
        assert (a + x)[1..] == a[1..] + x && (b + y)[1..] == b[1..] + y;
        FirstSegment(a[1..], x, b[1..], y);
        assert a == b <==> a[0] == b[0] && a[1..] == b[1..];
      }
    }
  }

  lemma {:induction false} LeadUnder(a: seq<string>, b: seq<string>)
    requires SlashFree(a) && SlashFree(b)
    ensures StartsWith(Lead(a), Lead(b) + "/") <==> Goes(a, b)
  {
    if b != [] && a != [] {
      LeadUnder(a[1..], b[1..]);
      FirstSegment(a[0], Lead(a[1..]), b[0], Lead(b[1..]) + "/");
      LeadStep(a, b);
      GoesStep(a, b);
    } else if b == [] && a != [] {
      assert Lead(a)[..1] == "/";
      assert a[..0] == b;
    }
  }

  lemma Regrouped(a: string, b: string, c: string)
    ensures a + b + c == a + (b + c)
  {
  }

  lemma LeadFirst(a: seq<string>, more: string)
    requires a != []
    ensures Lead(a) + more == "/" + (a[0] + (Lead(a[1..]) + more))
  {
    Regrouped("/" + a[0], Lead(a[1..]), more);
    Regrouped("/", a[0], Lead(a[1..]) + more);
  }

  lemma LeadStep(a: seq<string>, b: seq<string>)
    requires a != [] && b != []
    ensures StartsWith(Lead(a), Lead(b) + "/") <==>
      StartsWith(a[0] + Lead(a[1..]), b[0] + (Lead(b[1..]) + "/"))
  {
    LeadFirst(a, []);
    LeadFirst(b, "/");
    NothingMore(Lead(a));
    NothingMore(Lead(a[1..]));
    OneBefore("/", a[0] + Lead(a[1..]), b[0] + (Lead(b[1..]) + "/"));
  }

  lemma NothingMore(s: string)
    ensures s + [] == s
  {
  }

  lemma GoesStep(a: seq<string>, b: seq<string>)
    requires a != [] && b != []
    ensures Goes(a, b) <==> a[0] == b[0] && Goes(a[1..], b[1..])
  {
    if |b| < |a| {
      assert a[..|b|] == [a[0]] + a[1..][..|b| - 1];
      assert b == [b[0]] + b[1..];
    }
  }

  lemma OneBefore(c: string, s: string, t: string)
    ensures StartsWith(c + s, c + t) <==> StartsWith(s, t)
  {
    if StartsWith(s, t) {
      assert (c + s)[..|c + t|] == c + s[..|t|];
    }
    if StartsWith(c + s, c + t) {
      assert s[..|t|] == (c + s)[..|c + t|][|c|..];
    }
  }

  // ---------- the slashes at the end of a path ----------

  /** Without the empty segments at the end. */
  function Bare(segments: seq<string>): (r: seq<string>)
    ensures |r| <= |segments| && r == segments[..|r|]
    ensures forall i :: |r| <= i < |segments| ==> segments[i] == []
    ensures r != [] ==> r[|r| - 1] != []
  {
    if segments != [] && segments[|segments| - 1] == [] then Bare(segments[..|segments| - 1]) else segments
  }

  lemma LeadLast(segments: seq<string>)
    requires segments != []
    ensures var n := |segments| - 1; Lead(segments) == Lead(segments[..n]) + "/" + segments[n]
  {
    var n := |segments| - 1;
    assert segments == segments[..n] + [segments[n]];
    LeadBoth(segments[..n], [segments[n]]);
    LeadOne(segments[n]);
    Regrouped(Lead(segments[..n]), "/", segments[n]);
  }

  lemma StripOne(s: string)
    ensures StripSlashes(s + "/") == StripSlashes(s)
  {
    assert (s + "/")[..|s|] == s;
  }

  lemma NoSlashAtEnd(s: string, segment: string)
    requires segment != [] && '/' !in segment
    ensures StripSlashes(s + segment) == s + segment
  {
    assert (s + segment)[|s + segment| - 1] in segment;
  }

  lemma {:induction false} LeadStripped(segments: seq<string>)
    requires SlashFree(segments)
    ensures StripSlashes(Lead(segments) + "/") == Lead(Bare(segments))
  {
    StripOne(Lead(segments));
    if segments != [] {
      var n := |segments| - 1;
      LeadLast(segments);
      if segments[n] == [] {
        NothingMore(Lead(segments[..n]) + "/");
        LeadStripped(segments[..n]);
      } else {
        NoSlashAtEnd(Lead(segments[..n]) + "/", segments[n]);
      }
    }
  }

  lemma LeadOne(segment: string)
    ensures Lead([segment]) == "/" + segment
  {
  }
}
