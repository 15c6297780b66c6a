/**
 The base32 codec of the two-factor secrets (section 6 of RFC 4648), kept in its own form: one
 32-bit accumulator that is shifted and never masked, and a count of the bits not yet consumed.
 The reference definition is on bit strings and knows nothing about accumulators.
 */
module Base32 {
  import opened Text
  import opened Int32

  // ---------- reference definition: bit strings ----------

  function AllBits(bytes: seq<Byte>): (r: Bits)
    ensures |r| == 8 * |bytes|
  {
    if bytes == [] then [] else Digits(bytes[0], 8) + AllBits(bytes[1..])
  }

  /** Position i of the alphabet A-Z, 2-7. */
  function AlphabetAt(i: nat): (c: char)
    requires i < 32
    ensures AlphabetIndex(c) == Some(i)
  {
    if i < 26 then ('A' as int + i) as char else ('2' as int + i - 26) as char
  }

  /** Position of a character in the alphabet, as `indexOf` finds it. */
  function AlphabetIndex(c: char): (r: Option<nat>)
    ensures r.Some? ==> r.value < 32
  {
    if 'A' <= c <= 'Z' then Some(c as int - 'A' as int)
    else if '2' <= c <= '7' then Some(c as int - '2' as int + 26)
    else None
  }

  function Character(group: Bits): (c: char)
    requires |group| == 5
    ensures AlphabetIndex(c) == Some(Number(group))
  {
    DigitsNumber(group);
    Pow2Values();
    AlphabetAt(Number(group))
  }

  function ByteOf(group: Bits): Byte
    requires |group| == 8
  {
    DigitsNumber(group);
    Pow2Values();
    Number(group)
  }

  /** Every five bits become one character; a shorter rest is filled up with zero bits. */
  function Characters(bits: Bits): (r: string)
    ensures |r| == (|bits| + 4) / 5
    ensures forall c :: c in r ==> AlphabetIndex(c).Some?
    decreases |bits|
  {
    if bits == [] then []
    else if |bits| < 5 then [Character(bits + Zeros(5 - |bits|))]
    else [Character(bits[..5])] + Characters(bits[5..])
  }

  /** Every eight bits become one byte; a shorter rest is dropped. */
  function Bytes(bits: Bits): (r: seq<Byte>)
    ensures |r| == |bits| / 8
    decreases |bits|
  {
    if |bits| < 8 then [] else [ByteOf(bits[..8])] + Bytes(bits[8..])
  }

  /** Five bits for every character of the alphabet; any other character is passed over. */
  function CharacterBits(text: string): Bits {
    if text == [] then []
    else if AlphabetIndex(text[0]).None? then CharacterBits(text[1..])
    else Digits(AlphabetIndex(text[0]).value, 5) + CharacterBits(text[1..])
  }

  function StripPadding(text: string): string {
    if text != [] && text[|text| - 1] == '=' then StripPadding(text[..|text| - 1]) else text
  }

  function Encoded(bytes: seq<Byte>): string {
    Characters(AllBits(bytes))
  }

  function Decoded(text: string): seq<Byte> {
    Bytes(CharacterBits(StripPadding(Upper(text))))
  }

  // ---------- the accumulator agrees with the bit string ----------

  /** The low bits of the accumulator are the pending bits; nothing is said about the bits above. */
  ghost predicate Holds(v: nat, pending: Bits) {
    Digits(v, |pending|) == pending
  }

  lemma Push(v: nat, pending: Bits, x: nat, width: nat)
    requires Holds(v, pending) && |pending| + width <= 32 && x < Pow2(width)
    ensures Holds(Or(ShiftLeft(v, width), x), pending + Digits(x, width))
  {
    AppendDigits(v, |pending|, x, width);
  }

  /** `(v >>> (n - width)) & mask` is the number of the oldest pending bits. */
  lemma Oldest(v: nat, pending: Bits, width: nat)
    requires Holds(v, pending) && width <= |pending|
    ensures And(ShiftRight(v, |pending| - width), Mask(width)) == Number(pending[..width])
    ensures Number(pending[..width]) < Pow2(width)
    ensures Holds(v, pending[width..])
  {
    DigitsNumber(pending[..width]);
    TakeDigits(v, |pending|, width);
  }

  /** `(v << (5 - n)) & 31` is the number of the pending bits filled up with zeros. */
  lemma FillUp(v: nat, pending: Bits)
    requires Holds(v, pending) && |pending| <= 5
    ensures And(ShiftLeft(v, 5 - |pending|), Mask(5)) == Number(pending + Zeros(5 - |pending|)) < Pow2(5)
  {
    DigitsNumber(pending + Zeros(5 - |pending|));
    ShiftLeftDigits(v, 5 - |pending|, |pending|);
    AndDigits(ShiftLeft(v, 5 - |pending|), 5);
  }

  // ---------- the two loops ----------

  /** What is still to be written after `output`: pending bits, then the bits not yet read. */
  ghost predicate EncodesTo(output: string, pending: Bits, rest: Bits, target: string) {
    output + Characters(pending + rest) == target
  }

  ghost predicate DecodesTo(bytes: seq<Byte>, pending: Bits, rest: Bits, target: seq<Byte>) {
    bytes + Bytes(pending + rest) == target
  }

  lemma MoveBits(pending: Bits, more: Bits, rest: Bits)
    ensures pending + (more + rest) == pending + more + rest
  {
  }

  lemma EmitCharacter(output: string, pending: Bits, rest: Bits, target: string)
    requires EncodesTo(output, pending, rest, target) && |pending| >= 5
    ensures EncodesTo(output + [Character(pending[..5])], pending[5..], rest, target)
  {
    assert (pending + rest)[..5] == pending[..5];
    assert (pending + rest)[5..] == pending[5..] + rest;
  }

  lemma EmitByte(bytes: seq<Byte>, pending: Bits, rest: Bits, target: seq<Byte>)
    requires DecodesTo(bytes, pending, rest, target) && |pending| >= 8
    ensures DecodesTo(bytes + [ByteOf(pending[..8])], pending[8..], rest, target)
  {
    assert (pending + rest)[..8] == pending[..8];
    assert (pending + rest)[8..] == pending[8..] + rest;
  }

  lemma NextByte(bytes: seq<Byte>, i: nat)
    requires i < |bytes|
    ensures AllBits(bytes[i..]) == Digits(bytes[i], 8) + AllBits(bytes[i + 1..])
  {
    assert bytes[i..][1..] == bytes[i + 1..];
  }

  lemma NextCharacter(text: string, i: nat)
    requires i < |text|
    ensures CharacterBits(text[i..])
      == if AlphabetIndex(text[i]).None? then CharacterBits(text[i + 1..])
         else Digits(AlphabetIndex(text[i]).value, 5) + CharacterBits(text[i + 1..])
  {
    assert text[i..][1..] == text[i + 1..];
  }

  method Encode(bytes: seq<Byte>) returns (output: string)
    ensures output == Encoded(bytes)
  {
    var bits: nat := 0;
    var value: nat := 0;
    output := "";
    ghost var pending: Bits := [];
    ghost var target := Encoded(bytes);
    assert pending + AllBits(bytes) == AllBits(bytes);
    for i := 0 to |bytes|
      invariant bits == |pending| < 5 && Holds(value, pending)
      invariant EncodesTo(output, pending, AllBits(bytes[i..]), target)
    {
      ghost var rest := AllBits(bytes[i + 1..]);
      NextByte(bytes, i);
      MoveBits(pending, Digits(bytes[i], 8), rest);
      value, pending := Append(value, pending, bytes[i], 8);
      bits := bits + 8;
      while bits >= 5
        invariant bits == |pending| && Holds(value, pending)
        invariant EncodesTo(output, pending, rest, target)
      {
        EmitCharacter(output, pending, rest, target);
        var character := OldestCharacter(value, bits, pending);
        output := output + [character];
        bits := bits - 5;
        pending := pending[5..];
      }
    }
    assert pending + AllBits([]) == pending;
    if bits > 0 {
      var character := LastCharacter(value, bits, pending);
      output := output + [character];
    }
  }

  method Decode(text: string) returns (bytes: seq<Byte>)
    ensures bytes == Decoded(text)
  {
    var bits: nat := 0;
    var accumulator: nat := 0;
    bytes := [];
    var characters := StripPadding(Upper(text));
    ghost var pending: Bits := [];
    ghost var target := Decoded(text);
    assert pending + CharacterBits(characters) == CharacterBits(characters);
    for i := 0 to |characters|
      invariant bits == |pending| < 8 && Holds(accumulator, pending)
      invariant DecodesTo(bytes, pending, CharacterBits(characters[i..]), target)
    {
      NextCharacter(characters, i);
      var index := AlphabetIndex(characters[i]);
      if index == None { continue; }
      ghost var rest := CharacterBits(characters[i + 1..]);
      MoveBits(pending, Digits(index.value, 5), rest);
      Pow2Values();
      accumulator, pending := Append(accumulator, pending, index.value, 5);
      bits := bits + 5;
      if bits >= 8 {
        EmitByte(bytes, pending, rest, target);
        var byte := OldestByte(accumulator, bits, pending);
        bytes := bytes + [byte];
        bits := bits - 8;
        pending := pending[8..];
      }
    }
    assert pending + CharacterBits([]) == pending;
  }

  method Append(value: nat, ghost pending: Bits, low: nat, width: nat)
    returns (next: nat, ghost grown: Bits)
    requires Holds(value, pending) && |pending| + width <= 32 && low < Pow2(width)
    ensures Holds(next, grown) && grown == pending + Digits(low, width)
  {
    Push(value, pending, low, width);
    next, grown := Or(ShiftLeft(value, width), low), pending + Digits(low, width);
  }

  method OldestCharacter(value: nat, bits: nat, ghost pending: Bits) returns (character: char)
    requires Holds(value, pending) && bits == |pending| >= 5
    ensures character == Character(pending[..5]) && Holds(value, pending[5..])
  {
    Pow2Values();
    Oldest(value, pending, 5);
    character := AlphabetAt(And(ShiftRight(value, bits - 5), 31));
  }

  method LastCharacter(value: nat, bits: nat, ghost pending: Bits) returns (character: char)
    requires Holds(value, pending) && 0 < bits == |pending| < 5
    ensures [character] == Characters(pending)
  {
    Pow2Values();
    FillUp(value, pending);
    character := AlphabetAt(And(ShiftLeft(value, 5 - bits), 31));
  }

  method OldestByte(accumulator: nat, bits: nat, ghost pending: Bits) returns (byte: Byte)
    requires Holds(accumulator, pending) && bits == |pending| >= 8
    ensures byte == ByteOf(pending[..8]) && Holds(accumulator, pending[8..])
  {
    Pow2Values();
    Oldest(accumulator, pending, 8);
    byte := And(ShiftRight(accumulator, bits - 8), 0xff);
  }

  // ---------- what the codec promises ----------

  lemma CharacterBack(group: Bits, rest: string)
    requires |group| == 5
    ensures CharacterBits([Character(group)] + rest) == group + CharacterBits(rest)
  {
    Pow2Values();
    DigitsNumber(group);
    assert ([Character(group)] + rest)[1..] == rest;
  }

  /** Reading the characters back gives the bits written, followed by fewer than five zeros. */
  lemma {:induction false} CharactersBack(bits: Bits) returns (padding: nat)
    ensures padding < 5
    ensures CharacterBits(Characters(bits)) == bits + Zeros(padding)
    decreases |bits|
  {
    if bits == [] {
      padding := 0;
    } else if |bits| < 5 {
      padding := 5 - |bits|;
      CharacterBack(bits + Zeros(padding), []);
      assert bits + Zeros(padding) + CharacterBits([]) == bits + Zeros(padding);
    } else {
      padding := CharactersBack(bits[5..]);
      CharacterBack(bits[..5], Characters(bits[5..]));
      assert bits[..5] + (bits[5..] + Zeros(padding)) == bits + Zeros(padding);
    }
  }

  lemma {:induction false} BytesBack(bytes: seq<Byte>, padding: nat)
    requires padding < 8
    ensures Bytes(AllBits(bytes) + Zeros(padding)) == bytes
  {
    if bytes != [] {
      var bits := AllBits(bytes) + Zeros(padding);
      assert bits[..8] == Digits(bytes[0], 8);
      assert bits[8..] == AllBits(bytes[1..]) + Zeros(padding);
      Pow2Values();
      NumberDigits(bytes[0], 8);
      BytesBack(bytes[1..], padding);
    }
  }

  lemma PlainText(text: string)
    requires forall c :: c in text ==> AlphabetIndex(c).Some?
    ensures StripPadding(Upper(text)) == text
  {
    forall i | 0 <= i < |text| ensures UpperChar(text[i]) == text[i] {
      assert AlphabetIndex(text[i]).Some?;
    }
    assert Upper(text) == text;
    assert text != [] ==> AlphabetIndex(text[|text| - 1]).Some?;
  }

  /** Decoding undoes encoding for every byte sequence; the zero padding never yields an extra byte. */
  lemma RoundTrip(bytes: seq<Byte>)
    ensures Decoded(Encoded(bytes)) == bytes
    ensures |Encoded(bytes)| == (8 * |bytes| + 4) / 5
  {
    PlainText(Encoded(bytes));
    var padding := CharactersBack(AllBits(bytes));
    BytesBack(bytes, padding);
  }

  /** The same about the running code: what `Encode` stores, `Decode` reads back. */
  method EncodeThenDecode(bytes: seq<Byte>) returns (text: string, again: seq<Byte>)
    ensures again == bytes && |text| == (8 * |bytes| + 4) / 5
  {
    text := Encode(bytes);
    again := Decode(text);
    RoundTrip(bytes);
  }
}
