/**
 `encodeURIComponent` and `decodeURIComponent`: percent-encoding (section 2.1 of RFC 3986) of the UTF-8
 bytes of every character outside the unreserved set. Decoding is partial: it throws on a broken escape.
 */
module PercentEncoding {
  import opened Text
  import opened Int32

  predicate Unreserved(c: char) {
    'A' <= c <= 'Z' || 'a' <= c <= 'z' || '0' <= c <= '9'
    || c == '-' || c == '_' || c == '.' || c == '!' || c == '~' || c == '*' || c == '\'' || c == '(' || c == ')'
  }

  // ---------- printing ----------

  function Utf8(c: char): (r: seq<Byte>)
    ensures 1 <= |r| <= 4
  {
    var n := c as int;
    if n < 0x80 then [n]
    else if n < 0x800 then [0xC0 + n / 0x40, Tail(n)]
    else if n < 0x1_0000 then [0xE0 + n / 0x1000, Tail(n / 0x40), Tail(n)]
    else [0xF0 + n / 0x4_0000, Tail(n / 0x1000), Tail(n / 0x40), Tail(n)]
  }

  function Tail(n: nat): Byte {
    0x80 + n % 0x40
  }

  function HexDigit(n: nat): char
    requires n < 16
  {
    if n < 10 then ('0' as int + n) as char else ('A' as int + n - 10) as char
  }

  function Escape(b: Byte): (r: string)
    ensures |r| == 3
  {
    ['%', HexDigit(b / 16), HexDigit(b % 16)]
  }

  function EscapeAll(bytes: seq<Byte>): string {
    if bytes == [] then [] else Escape(bytes[0]) + EscapeAll(bytes[1..])
  }

  function EncodeChar(c: char): string {
    if Unreserved(c) then [c] else EscapeAll(Utf8(c))
  }

  function Encode(s: string): string {
    if s == [] then [] else EncodeChar(s[0]) + Encode(s[1..])
  }

  // ---------- reading ----------

  function HexValue(c: char): (r: Option<nat>)
    ensures r.Some? ==> r.value < 16
  {
    if '0' <= c <= '9' then Some(c as int - '0' as int)
    else if 'A' <= c <= 'F' then Some(c as int - 'A' as int + 10)
    else if 'a' <= c <= 'f' then Some(c as int - 'a' as int + 10)
    else None
  }

  function EscapedByte(s: string): Option<Byte> {
    if |s| < 3 || s[0] != '%' || HexValue(s[1]).None? || HexValue(s[2]).None? then None
    else Some(HexValue(s[1]).value * 16 + HexValue(s[2]).value)
  }

  /** The six low bits of an escaped continuation byte. */
  function Continuation(s: string): Option<nat> {
    match EscapedByte(s)
    case Some(b) => if 0x80 <= b < 0xC0 then Some(b - 0x80) else None
    case None => None
  }

  /** The number spelled by `count` continuation bytes behind the bits already read. */
  function Continued(s: string, bits: nat, count: nat): Option<nat>
    decreases count
  {
    if count == 0 then Some(bits)
    else
      match Continuation(s)
      case Some(low) => Continued(s[3..], bits * 0x40 + low, count - 1)
      case None => None
  }

  /** A code point of the given range; surrogates are no characters. */
  function Character(n: nat, least: nat): Option<char> {
    if least <= n < 0xD800 || (least <= n && 0xE000 <= n < 0x11_0000) then Some(n as char) else None
  }

  datatype Sequence = Sequence(character: char, length: nat)

  function Spelled(s: string, bits: nat, count: nat, least: nat): Option<Sequence> {
    match Continued(s, bits, count)
    case None => None
    case Some(n) =>
      if Character(n, least).None? then None
      else Some(Sequence(Character(n, least).value, 3 * count + 3))
  }

  /** The character an escape sequence at the start of the text spells, in its shortest form only. */
  function EscapedCharacter(s: string): (r: Option<Sequence>)
    ensures r.Some? ==> 3 <= r.value.length
  {
    match EscapedByte(s)
    case None => None
    case Some(b) =>
      if b < 0x80 then Some(Sequence(b as char, 3))
      else if 0xC0 <= b < 0xE0 then Spelled(s[3..], b - 0xC0, 1, 0x80)
      else if 0xE0 <= b < 0xF0 then Spelled(s[3..], b - 0xE0, 2, 0x800)
      else if 0xF0 <= b < 0xF8 then Spelled(s[3..], b - 0xF0, 3, 0x1_0000)
      else None
  }

  function Prefix(c: char, rest: Option<string>): Option<string> {
    match rest
    case None => None
    case Some(t) => Some([c] + t)
  }

  /** None stands for the URIError thrown on a broken escape. */
  function Decode(s: string): Option<string>
    decreases |s|
  {
    if s == [] then Some([])
    else if s[0] != '%' then Prefix(s[0], Decode(s[1..]))
    else
      match EscapedCharacter(s)
      case None => None
      case Some(q) => if q.length <= |s| then Prefix(q.character, Decode(s[q.length..])) else None
  }

  // ---------- reading undoes printing ----------

  lemma EscapeBack(b: Byte, rest: string)
    ensures EscapedByte(Escape(b) + rest) == Some(b)
    ensures (Escape(b) + rest)[3..] == rest
  {
    assert HexValue(HexDigit(b / 16)) == Some(b / 16);
    assert HexValue(HexDigit(b % 16)) == Some(b % 16);
  }

  lemma TailBack(n: nat, rest: string)
    ensures Continuation(Escape(Tail(n)) + rest) == Some(n % 0x40)
  {
    EscapeBack(Tail(n), rest);
  }

  /** Continuation bytes put back the bits that were split off the number. */
  lemma ContinuedOne(n: nat, rest: string)
    ensures Continued(Escape(Tail(n)) + rest, n / 0x40, 1) == Some(n)
  {
    TailBack(n, rest);
    EscapeBack(Tail(n), rest);
    assert Continued(rest, n, 0) == Some(n);
  }

  lemma ContinuedTwo(n: nat, rest: string)
    ensures Continued(Escape(Tail(n / 0x40)) + (Escape(Tail(n)) + rest), n / 0x1000, 2) == Some(n)
  {
    TailBack(n / 0x40, Escape(Tail(n)) + rest);
    EscapeBack(Tail(n / 0x40), Escape(Tail(n)) + rest);
    assert n / 0x40 / 0x40 == n / 0x1000;
    ContinuedOne(n, rest);
  }

  lemma ContinuedThree(n: nat, rest: string)
    ensures Continued(Escape(Tail(n / 0x1000)) + (Escape(Tail(n / 0x40)) + (Escape(Tail(n)) + rest)), n / 0x4_0000, 3)
      == Some(n)
  {
    TailBack(n / 0x1000, Escape(Tail(n / 0x40)) + (Escape(Tail(n)) + rest));
    EscapeBack(Tail(n / 0x1000), Escape(Tail(n / 0x40)) + (Escape(Tail(n)) + rest));
    assert n / 0x1000 / 0x40 == n / 0x4_0000;
    ContinuedTwo(n, rest);
  }

  lemma EscapeOne(b: Byte, rest: string)
    ensures EscapeAll([b]) + rest == Escape(b) + rest
  {
  }

  lemma EscapeMore(b: Byte, more: seq<Byte>, rest: string)
    ensures EscapeAll([b] + more) + rest == Escape(b) + (EscapeAll(more) + rest)
  {
    assert ([b] + more)[1..] == more;
  }

  lemma {:induction false} EscapedLength(bytes: seq<Byte>)
    ensures |EscapeAll(bytes)| == 3 * |bytes|
  {
    if bytes != [] {
      EscapedLength(bytes[1..]);
    }
  }

  lemma LeadBack(bytes: seq<Byte>, rest: string)
    requires bytes != []
    ensures var s := EscapeAll(bytes) + rest;
      EscapedByte(s) == Some(bytes[0]) && s[3..] == EscapeAll(bytes[1..]) + rest && s[0] == '%'
  {
    EscapeMore(bytes[0], bytes[1..], rest);
    EscapeBack(bytes[0], EscapeAll(bytes[1..]) + rest);
    assert [bytes[0]] + bytes[1..] == bytes;
  }

  lemma TwoRead(s: string, c: char)
    requires 0x80 <= c as int < 0x800 && EscapedByte(s) == Some(0xC0 + c as int / 0x40)
    requires Continued(s[3..], c as int / 0x40, 1) == Some(c as int)
    ensures EscapedCharacter(s) == Some(Sequence(c, 6))
  {
  }

  lemma ThreeRead(s: string, c: char)
    requires 0x800 <= c as int < 0x1_0000 && EscapedByte(s) == Some(0xE0 + c as int / 0x1000)
    requires Continued(s[3..], c as int / 0x1000, 2) == Some(c as int)
    ensures EscapedCharacter(s) == Some(Sequence(c, 9))
  {
  }

  lemma FourRead(s: string, c: char)
    requires 0x1_0000 <= c as int && EscapedByte(s) == Some(0xF0 + c as int / 0x4_0000)
    requires Continued(s[3..], c as int / 0x4_0000, 3) == Some(c as int)
    ensures EscapedCharacter(s) == Some(Sequence(c, 12))
  {
  }

  lemma Utf8Parts(c: char)
    ensures var n, u := c as int, Utf8(c);
      if n < 0x80 then u == [n]
      else if n < 0x800 then u[0] == 0xC0 + n / 0x40 && u[1..] == [Tail(n)]
      else if n < 0x1_0000 then u[0] == 0xE0 + n / 0x1000 && u[1..] == [Tail(n / 0x40), Tail(n)]
      else u[0] == 0xF0 + n / 0x4_0000 && u[1..] == [Tail(n / 0x1000), Tail(n / 0x40), Tail(n)]
  {
  }

  /** The escapes of a character, whatever follows them, spell that character and no more. */
  lemma EscapedBack(c: char, rest: string)
    ensures EscapedCharacter(EscapeAll(Utf8(c)) + rest) == Some(Sequence(c, 3 * |Utf8(c)|))
    ensures (EscapeAll(Utf8(c)) + rest)[0] == '%'
  {
    var n, s := c as int, EscapeAll(Utf8(c)) + rest;
    LeadBack(Utf8(c), rest);
    Utf8Parts(c);
    if n < 0x80 {
    } else if n < 0x800 {
      TwoBytesBack(n, rest);
      TwoRead(s, c);
    } else if n < 0x1_0000 {
      ThreeBytesBack(n, rest);
      ThreeRead(s, c);
    } else {
      FourBytesBack(n, rest);
      FourRead(s, c);
    }
  }

  lemma TwoBytesBack(n: nat, rest: string)
    ensures Continued(EscapeAll([Tail(n)]) + rest, n / 0x40, 1) == Some(n)
  {
    EscapeOne(Tail(n), rest);
    ContinuedOne(n, rest);
  }

  lemma ThreeBytesBack(n: nat, rest: string)
    ensures Continued(EscapeAll([Tail(n / 0x40), Tail(n)]) + rest, n / 0x1000, 2) == Some(n)
  {
    EscapeMore(Tail(n / 0x40), [Tail(n)], rest);
    EscapeOne(Tail(n), rest);
    assert [Tail(n / 0x40)] + [Tail(n)] == [Tail(n / 0x40), Tail(n)];
    ContinuedTwo(n, rest);
  }

  lemma FourBytesBack(n: nat, rest: string)
    ensures Continued(EscapeAll([Tail(n / 0x1000), Tail(n / 0x40), Tail(n)]) + rest, n / 0x4_0000, 3) == Some(n)
  {
    EscapeMore(Tail(n / 0x1000), [Tail(n / 0x40), Tail(n)], rest);
    EscapeMore(Tail(n / 0x40), [Tail(n)], rest);
    EscapeOne(Tail(n), rest);
    assert [Tail(n / 0x40)] + [Tail(n)] == [Tail(n / 0x40), Tail(n)];
    assert [Tail(n / 0x1000)] + [Tail(n / 0x40), Tail(n)] == [Tail(n / 0x1000), Tail(n / 0x40), Tail(n)];
    ContinuedThree(n, rest);
  }

  /** Every string survives being encoded and decoded. */
  lemma {:induction false} RoundTrip(s: string)
    ensures Decode(Encode(s)) == Some(s)
  {
    if s != [] {
      var c, rest := s[0], Encode(s[1..]);
      RoundTrip(s[1..]);
      assert [c] + s[1..] == s;
      if Unreserved(c) {
        assert Encode(s)[1..] == rest;
      } else {
        EscapedBack(c, rest);
        EscapedLength(Utf8(c));
        assert Encode(s)[3 * |Utf8(c)|..] == rest;
      }
    }
  }

  /** What is printed holds no separator, and is empty only for the empty string. */
  lemma {:induction false} PlainOutput(s: string)
    ensures forall c :: c in Encode(s) ==> Unreserved(c) || c == '%'
    ensures Encode(s) == [] <==> s == []
  {
    if s != [] {
      PlainOutput(s[1..]);
      PlainEscapes(Utf8(s[0]));
      EscapedLength(Utf8(s[0]));
    }
  }

  lemma {:induction false} PlainEscapes(bytes: seq<Byte>)
    ensures forall c :: c in EscapeAll(bytes) ==> Unreserved(c) || c == '%'
  {
    if bytes != [] {
      PlainEscapes(bytes[1..]);
      assert Unreserved(HexDigit(bytes[0] / 16)) && Unreserved(HexDigit(bytes[0] % 16));
    }
  }

  /** A text without escapes or reserved characters prints as itself. */
  lemma {:induction false} PlainText(s: string)
    requires forall c :: c in s ==> Unreserved(c)
    ensures Encode(s) == s
  {
    if s != [] {
      PlainText(s[1..]);
      assert [s[0]] + s[1..] == s;
    }
  }

  lemma DecodedNonEmpty(s: string)
    ensures Decode(s).Some? ==> (Decode(s).value == [] <==> s == [])
  {
  }
}
