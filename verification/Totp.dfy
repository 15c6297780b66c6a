/**
 Time-based one-time codes (section 4 of RFC 6238) from the dynamic truncation of an HMAC-SHA-1
 digest (section 5.3 of RFC 4226). The HMAC itself is a parameter.
 */
module Totp {
  import opened Text
  import opened Int32
  import opened Base32

  const PERIOD_MS := 30 * 1000
  const COUNTER_LIMIT: nat := 0x1_0000_0000_0000_0000

  type Hmac = (seq<Byte>, seq<Byte>) -> seq<Byte>

  /** A counter outside an unsigned 64-bit integer makes the buffer write throw. */
  datatype Outcome<T> = Done(value: T) | RangeError

  predicate IsDigit(c: char) {
    '0' <= c <= '9'
  }

  predicate IsCode(s: string) {
    |s| == 6 && forall i :: 0 <= i < 6 ==> IsDigit(s[i])
  }

  // ---------- reference definitions ----------

  function CounterBytes(counter: nat, length: nat): (r: seq<Byte>)
    ensures |r| == length
  {
    if length == 0 then [] else CounterBytes(counter / 256, length - 1) + [counter % 256]
  }

  function ByteAt(buffer: seq<Byte>, index: int): Byte {
    if 0 <= index < |buffer| then buffer[index] else 0
  }

  /** Dynamic truncation: 31 bits, big endian, from the offset the last half byte names. */
  function TruncatedBits(digest: seq<Byte>): (bits: Bits)
    ensures |bits| == 31
  {
    var offset := ByteAt(digest, |digest| - 1) % 16;
    Digits(ByteAt(digest, offset), 7) + Digits(ByteAt(digest, offset + 1), 8)
    + Digits(ByteAt(digest, offset + 2), 8) + Digits(ByteAt(digest, offset + 3), 8)
  }

  function Truncated(digest: seq<Byte>): nat {
    Number(TruncatedBits(digest))
  }

  function DigitChar(d: nat): char
    requires d < 10
  {
    ('0' as int + d) as char
  }

  /** The `count` last decimal digits of a number, leading zeros included. */
  function LastDigits(n: nat, count: nat): (s: string)
    ensures |s| == count && forall i :: 0 <= i < count ==> IsDigit(s[i])
  {
    if count == 0 then [] else LastDigits(n / 10, count - 1) + [DigitChar(n % 10)]
  }

  function CodeValue(secret: string, counter: nat, hmac: Hmac): (n: nat)
    ensures n < 1_000_000
  {
    Truncated(hmac(Decoded(secret), CounterBytes(counter, 8))) % 1_000_000
  }

  function Code(secret: string, counter: nat, hmac: Hmac): (s: string)
    ensures IsCode(s)
  {
    LastDigits(CodeValue(secret, counter, hmac), 6)
  }

  function Counter(now: int): int {
    now / PERIOD_MS
  }

  // ---------- the code as it runs ----------

  function Decimal(n: nat): (s: string)
    ensures |s| >= 1
  {
    if n < 10 then [DigitChar(n)] else Decimal(n / 10) + [DigitChar(n % 10)]
  }

  function PadStart(s: string, length: nat, fill: char): string
    decreases length - |s|
  {
    if |s| >= length then s else PadStart([fill] + s, length, fill)
  }

  lemma {:induction false} PadAppend(s: string, c: char, length: nat)
    requires |s| <= length
    ensures PadStart(s + [c], length + 1, '0') == PadStart(s, length, '0') + [c]
    decreases length - |s|
  {
    if |s| < length {
      assert ['0'] + (s + [c]) == (['0'] + s) + [c];
      PadAppend(['0'] + s, c, length);
    }
  }

  function Pow10(k: nat): nat {
    if k == 0 then 1 else 10 * Pow10(k - 1)
  }

  lemma {:induction false} ZeroDigits(count: nat)
    ensures LastDigits(0, count) == PadStart([], count, '0')
  {
    if count > 0 {
      ZeroDigits(count - 1);
      PadAppend([], '0', count - 1);
      assert [] + ['0'] == ['0'] + [] == ['0'];
    }
  }

  /** `toString` followed by `padStart` prints all the digits. */
  lemma {:induction false} PaddedDecimal(n: nat, count: nat)
    requires n < Pow10(count) && count >= 1
    ensures |Decimal(n)| <= count && PadStart(Decimal(n), count, '0') == LastDigits(n, count)
  {
    if n < 10 {
      ZeroDigits(count - 1);
      PadAppend([], DigitChar(n), count - 1);
      assert [] + [DigitChar(n)] == [DigitChar(n)];
    } else {
      assert count >= 2;
      PaddedDecimal(n / 10, count - 1);
      PadAppend(Decimal(n / 10), DigitChar(n % 10), count - 1);
    }
  }

  lemma ShiftedByte(b: nat, k: nat)
    requires k == 8 || k == 16 || k == 24
    requires b < 256 && (k == 24 ==> b < 128)
    ensures ShiftLeft(b, k) == b * Pow2(k)
  {
    Pow2Values();
    ScaledIsProduct(b, k);
    ShiftLeftSmall(b, k);
  }

  lemma PutUnder(a: nat, b: nat, k: nat)
    requires b < Pow2(k)
    ensures Or(a * Pow2(k), b) == a * Pow2(k) + b
  {
    ScaledIsProduct(a, k);
    OrScaled(a, b, k);
  }

  /** The number of four bytes, big endian. */
  function Joined(b0: nat, b1: nat, b2: nat, b3: nat): nat {
    b0 * 0x100_0000 + b1 * 0x1_0000 + b2 * 0x100 + b3
  }

  /** Or-ing four numbers whose bits do not meet adds them. */
  lemma OrAdds(b0: nat, b1: nat, b2: nat, b3: nat)
    requires b0 < 128 && b1 < 256 && b2 < 256 && b3 < 256
    ensures Or(Or(Or(b0 * 0x100_0000, b1 * 0x1_0000), b2 * 0x100), b3) == Joined(b0, b1, b2, b3)
  {
    Pow2Values();
    PutUnder(b0, b1 * 0x1_0000, 24);
    PutUnder(b0 * 0x100 + b1, b2 * 0x100, 16);
    PutUnder(b0 * 0x1_0000 + b1 * 0x100 + b2, b3, 8);
  }

  /** Four bytes, shifted and or-ed as 32-bit integers, are the number of the bytes. */
  lemma OrJoins(b0: nat, b1: nat, b2: nat, b3: nat)
    requires b0 < 128 && b1 < 256 && b2 < 256 && b3 < 256
    ensures Or(Or(Or(ShiftLeft(b0, 24), ShiftLeft(b1, 16)), ShiftLeft(b2, 8)), b3) == Joined(b0, b1, b2, b3)
  {
    Pow2Values();
    ShiftedByte(b0, 24);
    ShiftedByte(b1, 16);
    ShiftedByte(b2, 8);
    OrAdds(b0, b1, b2, b3);
  }

  lemma AppendByte(a: Bits, b: Bits)
    requires |b| == 8
    ensures Number(a + b) == Number(a) * 0x100 + Number(b) && Number(b) < 0x100
  {
    NumberAppend(a, b);
    ScaledIsProduct(Number(a), 8);
    Pow2Values();
    DigitsNumber(b);
  }

  lemma BitsJoin(a0: Bits, a1: Bits, a2: Bits, a3: Bits)
    requires |a0| == 7 && |a1| == |a2| == |a3| == 8
    ensures Number(a0 + a1 + a2 + a3) == Joined(Number(a0), Number(a1), Number(a2), Number(a3))
    ensures Number(a0) < 128 && Number(a1) < 256 && Number(a2) < 256 && Number(a3) < 256
  {
    AppendByte(a0, a1);
    AppendByte(a0 + a1, a2);
    AppendByte(a0 + a1 + a2, a3);
    Pow2Values();
    DigitsNumber(a0);
  }

  /** The masked bytes at an offset, joined as the code joins them. */
  function BinaryAt(b0: Byte, b1: Byte, b2: Byte, b3: Byte): nat {
    Or(Or(Or(ShiftLeft(And(b0, 0x7f), 24), ShiftLeft(And(b1, 0xff), 16)), ShiftLeft(And(b2, 0xff), 8)), And(b3, 0xff))
  }

  lemma BinaryIsNumber(b0: Byte, b1: Byte, b2: Byte, b3: Byte)
    ensures BinaryAt(b0, b1, b2, b3) == Number(Digits(b0, 7) + Digits(b1, 8) + Digits(b2, 8) + Digits(b3, 8))
  {
    Pow2Values();
    AndDigits(b0, 7);
    AndDigits(b1, 8);
    AndDigits(b2, 8);
    AndDigits(b3, 8);
    BitsJoin(Digits(b0, 7), Digits(b1, 8), Digits(b2, 8), Digits(b3, 8));
    OrJoins(Number(Digits(b0, 7)), Number(Digits(b1, 8)), Number(Digits(b2, 8)), Number(Digits(b3, 8)));
  }

  lemma MaskStep(v: nat, k: nat)
    requires k > 0
    ensures And(v, Mask(k)) == 2 * And(v / 2, Mask(k - 1)) + v % 2
  {
  }

  lemma Remainder4(b: nat, q: nat, r: nat)
    requires b == 4 * q + r && r < 4
    ensures b % 4 == r
  {
  }

  lemma Remainder8(b: nat, q: nat, r: nat)
    requires b == 8 * q + r && r < 8
    ensures b % 8 == r
  {
  }

  lemma Remainder16(b: nat, q: nat, r: nat)
    requires b == 16 * q + r && r < 16
    ensures b % 16 == r
  {
  }

  lemma Halves16(b: nat)
    ensures b % 16 == 2 * (b / 2 % 8) + b % 2
  {
    Remainder16(b, b / 2 / 8, 2 * (b / 2 % 8) + b % 2);
  }

  lemma Halves8(b: nat)
    ensures b % 8 == 2 * (b / 2 % 4) + b % 2
  {
    Remainder8(b, b / 2 / 4, 2 * (b / 2 % 4) + b % 2);
  }

  lemma Halves4(b: nat)
    ensures b % 4 == 2 * (b / 2 % 2) + b % 2
  {
    Remainder4(b, b / 2 / 2, 2 * (b / 2 % 2) + b % 2);
  }

  lemma LowHalfByte(b: Byte)
    ensures And(b, 0x0f) == b % 16
  {
    assert Mask(4) == 15;
    LowTwoBits(b / 2 / 2);
    MaskStep(b / 2, 3);
    Halves8(b / 2);
    MaskStep(b, 4);
    Halves16(b);
  }

  lemma LowTwoBits(v: nat)
    ensures And(v, Mask(2)) == v % 4
  {
    MaskStep(v / 2, 1);
    MaskStep(v, 2);
    assert And(v / 2 / 2, Mask(0)) == 0;
    Halves4(v);
  }

  method ReadBinary(digest: seq<Byte>) returns (binary: nat)
    ensures binary == Truncated(digest)
  {
    var last := ByteAt(digest, |digest| - 1);
    LowHalfByte(last);
    var offset := And(last, 0x0f);
    var b0, b1 := ByteAt(digest, offset), ByteAt(digest, offset + 1);
    var b2, b3 := ByteAt(digest, offset + 2), ByteAt(digest, offset + 3);
    BinaryIsNumber(b0, b1, b2, b3);
    binary := BinaryAt(b0, b1, b2, b3);
  }

  method TotpCode(secret: string, counter: int, hmac: Hmac) returns (r: Outcome<string>)
    ensures r == if 0 <= counter < COUNTER_LIMIT then Done(Code(secret, counter, hmac)) else RangeError
  {
    if counter < 0 || counter >= COUNTER_LIMIT {
      return RangeError;
    }
    var key := Decode(secret);
    var binary := ReadBinary(hmac(key, CounterBytes(counter, 8)));
    assert Pow10(6) == 1_000_000;
    PaddedDecimal(binary % 1_000_000, 6);
    return Done(PadStart(Decimal(binary % 1_000_000), 6, '0'));
  }

  ghost predicate MatchesAt(normalized: string, secret: string, counter: int, hmac: Hmac)
    requires 0 <= counter
  {
    normalized == Code(secret, counter, hmac)
  }

  /** The code, trimmed, is that of the counter at `now` or of one of its neighbours. */
  ghost predicate Matches(code: string, secret: string, now: int, hmac: Hmac)
    requires 1 <= Counter(now)
  {
    MatchesNear(Trim(code), secret, Counter(now), hmac)
  }

  method TryCode(normalized: string, secret: string, counter: int, hmac: Hmac) returns (r: Outcome<bool>)
    ensures r == if 0 <= counter < COUNTER_LIMIT then Done(MatchesAt(normalized, secret, counter, hmac)) else RangeError
  {
    var expected := TotpCode(secret, counter, hmac);
    r := if expected == RangeError then RangeError else Done(expected.value == normalized);
  }

  method VerifyTotp(code: string, secret: string, now: int, hmac: Hmac) returns (r: Outcome<bool>)
    ensures !IsCode(Trim(code)) ==> r == Done(false)
    ensures IsCode(Trim(code)) && Counter(now) < 1 ==> r == RangeError
    ensures 1 <= Counter(now) < COUNTER_LIMIT - 1 ==> r == Done(Matches(code, secret, now, hmac))
  {
    var normalized := Trim(code);
    if |normalized| != 6 || exists i :: 0 <= i < 6 && !IsDigit(normalized[i]) {
      NoOtherCode(code, secret, now, hmac);
      return Done(false);
    }
    r := TryNeighbours(normalized, secret, now / PERIOD_MS, hmac);
  }

  ghost predicate MatchesNear(normalized: string, secret: string, counter: int, hmac: Hmac)
    requires 1 <= counter
  {
    exists c :: counter - 1 <= c <= counter + 1 && MatchesAt(normalized, secret, c, hmac)
  }

  method TryNeighbours(normalized: string, secret: string, counter: int, hmac: Hmac) returns (r: Outcome<bool>)
    ensures counter < 1 ==> r == RangeError
    ensures 1 <= counter < COUNTER_LIMIT - 1 ==> r == Done(MatchesNear(normalized, secret, counter, hmac))
  {
    for offset := -1 to 2
      invariant offset >= 0 ==> counter >= 1
      invariant forall c :: 0 <= c && counter - 1 <= c < counter + offset ==> !MatchesAt(normalized, secret, c, hmac)
    {
      var tried := TryCode(normalized, secret, counter + offset, hmac);
      if tried == RangeError {
        return RangeError;
      }
      if tried.value {
        return Done(true);
      }
    }
    return Done(false);
  }

  lemma NoOtherCode(code: string, secret: string, now: int, hmac: Hmac)
    requires !IsCode(Trim(code))
    ensures 1 <= Counter(now) ==> !Matches(code, secret, now, hmac)
  {
  }

  // ---------- what the codes promise ----------

  lemma {:induction false} DigitsTell(a: nat, b: nat, count: nat)
    requires a < Pow10(count) && b < Pow10(count) && LastDigits(a, count) == LastDigits(b, count)
    ensures a == b
  {
    if count > 0 {
      var s, t := LastDigits(a, count), LastDigits(b, count);
      assert s[count - 1] == t[count - 1] && s[..count - 1] == t[..count - 1];
      DigitsTell(a / 10, b / 10, count - 1);
      assert DigitChar(a % 10) == DigitChar(b % 10);
    }
  }

  /** Generation times whose counter is within one of that at `t` lie less than two periods away. */
  lemma CountersApart(s: int, t: int)
    ensures -1 <= Counter(s) - Counter(t) <= 1 ==> -2 * PERIOD_MS < t - s < 2 * PERIOD_MS
    ensures -PERIOD_MS <= t - s <= PERIOD_MS ==> -1 <= Counter(s) - Counter(t) <= 1
  {
  }

  /** A code generated at time `s` is accepted at every time at most one period away. */
  lemma AcceptedNearby(secret: string, s: int, t: int, hmac: Hmac)
    requires -PERIOD_MS <= t - s <= PERIOD_MS
    requires 0 <= Counter(s) && 1 <= Counter(t)
    ensures Matches(Code(secret, Counter(s), hmac), secret, t, hmac)
  {
    CountersApart(s, t);
    var code := TrimmedCode(secret, Counter(s), hmac);
    assert MatchesAt(Trim(code), secret, Counter(s), hmac);
  }

  lemma TrimmedCode(secret: string, counter: nat, hmac: Hmac) returns (code: string)
    ensures code == Code(secret, counter, hmac) && Trim(code) == code
  {
    code := Code(secret, counter, hmac);
    assert IsDigit(code[0]) && IsDigit(code[5]);
    TrimFixed(code);
  }

  /** Only the values of three adjacent counters are accepted, all of times less than two periods away. */
  lemma OnlyThreeCounters(code: string, secret: string, t: int, hmac: Hmac) returns (counter: nat)
    requires 1 <= Counter(t) && Matches(code, secret, t, hmac)
    ensures Counter(t) - 1 <= counter <= Counter(t) + 1
    ensures Trim(code) == LastDigits(CodeValue(secret, counter, hmac), 6)
    ensures forall s :: Counter(s) == counter ==> -2 * PERIOD_MS < t - s < 2 * PERIOD_MS
  {
    counter :| Counter(t) - 1 <= counter <= Counter(t) + 1 && MatchesAt(Trim(code), secret, counter, hmac);
    forall s | Counter(s) == counter ensures -2 * PERIOD_MS < t - s < 2 * PERIOD_MS {
      CountersApart(s, t);
    }
  }

  /** Six digits determine the value, so accepting the code is accepting the number. */
  lemma CodesTell(a: nat, b: nat)
    requires a < 1_000_000 && b < 1_000_000
    ensures LastDigits(a, 6) == LastDigits(b, 6) <==> a == b
  {
    assert Pow10(6) == 1_000_000;
    if LastDigits(a, 6) == LastDigits(b, 6) {
      DigitsTell(a, b, 6);
    }
  }

  /** On the twenty bytes of an HMAC-SHA-1 digest no read falls outside, so none defaults to zero. */
  lemma ReadsInside(digest: seq<Byte>)
    requires |digest| == 20
    ensures var offset := digest[19] % 16;
      offset + 3 < 20
      && TruncatedBits(digest) == Digits(digest[offset], 7) + Digits(digest[offset + 1], 8)
                                  + Digits(digest[offset + 2], 8) + Digits(digest[offset + 3], 8)
  {
  }
}
