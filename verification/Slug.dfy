/** Slugs: how a project or organization slug is made from what was typed in, and the storage key part made from it. */
module Slug {
  import opened Text

  const MAX_SLUG := 64

  predicate SlugChar(c: char) {
    'a' <= c <= 'z' || '0' <= c <= '9' || c == '_' || c == '-'
  }

  /** One dash for every run of other characters. */
  function ReplaceRuns(s: string): string
    decreases |s|
  {
    if s == [] then []
    else if SlugChar(s[0]) then [s[0]] + ReplaceRuns(s[1..])
    else ['-'] + ReplaceRuns(DropRun(s[1..]))
  }

  function DropRun(s: string): (r: string)
    ensures |r| <= |s|
  {
    if s != [] && !SlugChar(s[0]) then DropRun(s[1..]) else s
  }

  function StripStart(s: string): (r: string)
    ensures r != [] ==> r[0] != '-'
    ensures forall c :: c in r ==> c in s
  {
    if s != [] && s[0] == '-' then StripStart(s[1..]) else s
  }

  function StripEnd(s: string): (r: string)
    ensures r != [] ==> r[|r| - 1] != '-'
    ensures |r| <= |s| && r == s[..|r|]
  {
    if s != [] && s[|s| - 1] == '-' then StripEnd(s[..|s| - 1]) else s
  }

  function Cut(s: string): string {
    if |s| <= MAX_SLUG then s else s[..MAX_SLUG]
  }

  function Plain(value: string): string {
    ReplaceRuns(Lower(Trim(value)))
  }

  function Ends(s: string): string {
    Cut(StripEnd(StripStart(s)))
  }

  function NormalizeSlug(value: string): string {
    Ends(Plain(value))
  }

  predicate SlugText(s: string) {
    |s| <= MAX_SLUG && (forall c :: c in s ==> SlugChar(c)) && (s != [] ==> s[0] != '-')
  }

  lemma {:induction false} RunsReplaced(s: string)
    ensures forall c :: c in ReplaceRuns(s) ==> SlugChar(c)
    decreases |s|
  {
    if s != [] {
      if SlugChar(s[0]) {
        RunsReplaced(s[1..]);
      } else {
        RunsReplaced(DropRun(s[1..]));
      }
    }
  }

  lemma {:induction false} NothingReplaced(s: string)
    requires forall c :: c in s ==> SlugChar(c)
    ensures ReplaceRuns(s) == s
  {
    if s != [] {
      NothingReplaced(s[1..]);
      assert [s[0]] + s[1..] == s;
    }
  }

  lemma ShapeOf(s: string)
    requires forall c :: c in s ==> SlugChar(c)
    ensures var r := Ends(s);
      SlugText(r) && (r != [] && |r| < MAX_SLUG ==> r[|r| - 1] != '-')
  {
    var t := StripStart(s);
    assert forall c :: c in StripEnd(t) ==> c in t;
  }

  /** A slug is short, plain and never starts with a dash; one below the full length never ends with one. */
  lemma Shape(value: string)
    ensures var r := NormalizeSlug(value);
      SlugText(r) && (r != [] && |r| < MAX_SLUG ==> r[|r| - 1] != '-')
  {
    RunsReplaced(Lower(Trim(value)));
    ShapeOf(Plain(value));
  }

  lemma AlreadyTrimmed(s: string)
    requires forall c :: c in s ==> SlugChar(c)
    ensures Trim(s) == s
  {
    if s != [] {
      assert SlugChar(s[0]) && SlugChar(s[|s| - 1]);
    }
    TrimFixed(s);
  }

  lemma AlreadyLower(s: string)
    requires forall c :: c in s ==> SlugChar(c)
    ensures Lower(s) == s
  {
    forall i | 0 <= i < |s| ensures LowerChar(s[i]) == s[i] {
      assert SlugChar(s[i]);
    }
  }

  lemma PlainSteps(s: string)
    requires forall c :: c in s ==> SlugChar(c)
    ensures Plain(s) == s
  {
    AlreadyTrimmed(s);
    AlreadyLower(s);
    NothingReplaced(s);
  }

  /** What normalizing does to a text that already looks like a slug: only a dash at the end goes. */
  lemma OnlyTheEnd(s: string)
    requires SlugText(s)
    ensures NormalizeSlug(s) == StripEnd(s)
  {
    PlainSteps(s);
    EndsShort(s);
  }

  lemma EndsShort(s: string)
    requires |s| <= MAX_SLUG && (s != [] ==> s[0] != '-')
    ensures Ends(s) == StripEnd(s)
  {
  }

  /** The text a slug is cut from: plain, without dashes at either end. */
  function BeforeCut(value: string): (r: string)
    ensures r != [] ==> r[|r| - 1] != '-'
  {
    StripEnd(StripStart(Plain(value)))
  }

  /** Normalizing a slug again changes nothing exactly when the cut falls behind no dash, or nowhere. */
  lemma NormalizedAgain(value: string)
    ensures var t := BeforeCut(value);
      NormalizeSlug(NormalizeSlug(value)) == NormalizeSlug(value) <==> |t| <= MAX_SLUG || t[MAX_SLUG - 1] != '-'
  {
    Shape(value);
    OnlyTheEnd(NormalizeSlug(value));
    CutEnds(BeforeCut(value));
  }

  lemma CutEnds(t: string)
    requires t != [] ==> t[|t| - 1] != '-'
    ensures StripEnd(Cut(t)) == Cut(t) <==> |t| <= MAX_SLUG || t[MAX_SLUG - 1] != '-'
  {
  }

  lemma NothingStripped(s: string)
    requires s != [] && s[0] != '-' && s[|s| - 1] != '-'
    ensures StripEnd(StripStart(s)) == s
  {
  }

  lemma NothingBeforeCut(s: string)
    requires s != [] && (forall c :: c in s ==> SlugChar(c)) && s[0] != '-' && s[|s| - 1] != '-'
    ensures BeforeCut(s) == s
  {
    PlainSteps(s);
    NothingStripped(s);
  }

  /** A long text with a dash just before the cut: normalizing twice is not normalizing once. */
  lemma EndsWithDash() returns (value: string)
    ensures NormalizeSlug(NormalizeSlug(value)) != NormalizeSlug(value)
  {
    value := seq(63, _ => 'a') + ['-', 'b'];
    NothingBeforeCut(value);
    NormalizedAgain(value);
  }

  // ---------- the key part ----------

  predicate KeyChar(c: char) {
    'a' <= c <= 'z' || 'A' <= c <= 'Z' || '0' <= c <= '9' || c == '.' || c == '_' || c == '-'
  }

  /** Every other UTF-16 unit becomes a dash, so a character outside the basic plane becomes two. */
  function KeyPart(value: string): (r: string)
    ensures forall c :: c in r ==> KeyChar(c)
  {
    if value == [] then []
    else
      (if KeyChar(value[0]) then [LowerChar(value[0])]
       else if value[0] as int < 0x1_0000 then ['-'] else ['-', '-'])
      + KeyPart(value[1..])
  }

  /** Slugs are their own key parts, so different slugs never share one. */
  lemma {:induction false} SlugIsKeyPart(s: string)
    requires forall c :: c in s ==> SlugChar(c)
    ensures KeyPart(s) == s
  {
    if s != [] {
      SlugIsKeyPart(s[1..]);
      assert SlugChar(s[0]) && [s[0]] + s[1..] == s;
    }
  }
}
