/**
 The 32-bit integer operators of JavaScript on their unsigned bit patterns: `<<` drops what leaves the
 word, `>>>` shifts zeros in, `|` and `&` work bit by bit. Numbers and bit strings are related here once.
 */
module Int32 {

  const WORD: nat := 0x1_0000_0000

  type Byte = n: nat | n < 256

  type Bits = seq<bool>

  /** The `width` low binary digits of a number, most significant first. */
  function Digits(n: nat, width: nat): (bits: Bits)
    ensures |bits| == width
  {
    if width == 0 then [] else Digits(n / 2, width - 1) + [n % 2 == 1]
  }

  /** The number whose binary digits are the given bits, most significant first. */
  function Number(bits: Bits): nat {
    if bits == [] then 0
    else 2 * Number(bits[..|bits| - 1]) + (if bits[|bits| - 1] then 1 else 0)
  }

  function Zeros(n: nat): (r: Bits)
    ensures |r| == n
    ensures forall i :: 0 <= i < n ==> !r[i]
  {
    if n == 0 then [] else Zeros(n - 1) + [false]
  }

  function Pow2(k: nat): (r: nat)
    ensures r >= 1
  {
    if k == 0 then 1 else 2 * Pow2(k - 1)
  }

  /** `k` ones. */
  function Mask(k: nat): (r: nat)
    ensures r == Pow2(k) - 1
  {
    if k == 0 then 0 else 2 * Mask(k - 1) + 1
  }

  function Or(a: nat, b: nat): nat {
    if a == 0 && b == 0 then 0
    else 2 * Or(a / 2, b / 2) + (if a % 2 == 1 || b % 2 == 1 then 1 else 0)
  }

  function And(a: nat, b: nat): nat {
    if a == 0 || b == 0 then 0
    else 2 * And(a / 2, b / 2) + (if a % 2 == 1 && b % 2 == 1 then 1 else 0)
  }

  function ShiftLeft(v: nat, k: nat): nat {
    if k == 0 then v else 2 * ShiftLeft(v, k - 1) % WORD
  }

  function ShiftRight(v: nat, k: nat): nat {
    if k == 0 then v else ShiftRight(v / 2, k - 1)
  }

  // ---------- numbers and bits ----------

  lemma {:induction false} NumberDigits(n: nat, width: nat)
    requires n < Pow2(width)
    ensures Number(Digits(n, width)) == n
  {
    if width > 0 {
      NumberDigits(n / 2, width - 1);
      assert Digits(n, width)[..width - 1] == Digits(n / 2, width - 1);
    }
  }

  lemma {:induction false} DigitsNumber(bits: Bits)
    ensures Digits(Number(bits), |bits|) == bits
    ensures Number(bits) < Pow2(|bits|)
  {
    if bits != [] {
      DigitsNumber(bits[..|bits| - 1]);
      assert bits == bits[..|bits| - 1] + [bits[|bits| - 1]];
    }
  }

  lemma {:induction false} DigitsOfZero(width: nat)
    ensures Digits(0, width) == Zeros(width)
  {
    if width > 0 {
      DigitsOfZero(width - 1);
    }
  }

  // ---------- the operators on bits ----------

  /** Numbers that differ by a multiple of `Pow2(width)` have the same `width` low digits. */
  lemma {:induction false} DigitsDropHigh(n: nat, width: nat, times: nat)
    ensures Digits(n + Pow2(width) * times, width) == Digits(n, width)
  {
    if width > 0 {
      var h := Pow2(width - 1) * times;
      assert Pow2(width) * times == 2 * h;
      assert (n + 2 * h) / 2 == n / 2 + h && (n + 2 * h) % 2 == n % 2;
      DigitsDropHigh(n / 2, width - 1, times);
    }
  }

  lemma {:induction false} Pow2Divides(k: nat, n: nat) returns (h: nat)
    requires k <= n
    ensures Pow2(n) == Pow2(k) * h
  {
    if k == n {
      h := 1;
    } else {
      h := Pow2Divides(k, n - 1);
      assert 2 * (Pow2(k) * h) == Pow2(k) * (2 * h);
      h := 2 * h;
    }
  }

  lemma Product(a: nat, b: nat, c: nat)
    ensures a * b * c == a * (b * c)
  {
  }

  lemma WordMultiple(a: nat, h: nat, q: nat)
    requires a * h == WORD
    ensures WORD * q == a * (h * q)
  {
    Product(a, h, q);
  }

  lemma WordSplit(n: nat, width: nat) returns (times: nat)
    requires width <= 32
    ensures n == n % WORD + Pow2(width) * times
  {
    Pow2Values();
    var h := Pow2Divides(width, 32);
    WordMultiple(Pow2(width), h, n / WORD);
    times := h * (n / WORD);
  }

  lemma DigitsOfWord(n: nat, width: nat)
    requires width <= 32
    ensures Digits(n % WORD, width) == Digits(n, width)
  {
    var times := WordSplit(n, width);
    DigitsDropHigh(n % WORD, width, times);
  }

  /** `<<` keeps the low digits and puts zeros below them. */
  lemma {:induction false} ShiftLeftDigits(v: nat, k: nat, width: nat)
    requires width + k <= 32
    ensures Digits(ShiftLeft(v, k), width + k) == Digits(v, width) + Zeros(k)
  {
    if k > 0 {
      var u := ShiftLeft(v, k - 1);
      ShiftLeftDigits(v, k - 1, width);
      DigitsOfWord(2 * u, width + k);
      assert Digits(2 * u, width + k) == Digits(u, width + k - 1) + [false];
      assert Digits(v, width) + Zeros(k - 1) + [false] == Digits(v, width) + Zeros(k);
    } else {
      assert Digits(v, width) + [] == Digits(v, width);
    }
  }

  /** `>>>` drops the lowest digits. */
  lemma {:induction false} ShiftRightDigits(v: nat, k: nat, width: nat)
    ensures Digits(v, width + k)[..width] == Digits(ShiftRight(v, k), width)
  {
    if k > 0 {
      ShiftRightDigits(v / 2, k - 1, width);
      assert Digits(v, width + k)[..width] == Digits(v / 2, width + k - 1)[..width];
    }
  }

  lemma OrStep(a: nat, b: nat)
    ensures Or(a, b) / 2 == Or(a / 2, b / 2)
    ensures Or(a, b) % 2 == 1 <==> a % 2 == 1 || b % 2 == 1
  {
  }

  lemma {:induction false} OrDigits(a: nat, b: nat, width: nat, i: nat)
    requires i < width
    ensures Digits(Or(a, b), width)[i] <==> Digits(a, width)[i] || Digits(b, width)[i]
  {
    OrStep(a, b);
    if i < width - 1 {
      OrDigits(a / 2, b / 2, width - 1, i);
    }
  }

  /** Masking with `k` ones reads the number of the `k` low digits. */
  lemma {:induction false} AndDigits(v: nat, k: nat)
    ensures And(v, Mask(k)) == Number(Digits(v, k))
  {
    if k > 0 {
      AndDigits(v / 2, k - 1);
      assert Digits(v, k)[..k - 1] == Digits(v / 2, k - 1);
      if v == 0 {
        assert And(v / 2, Mask(k - 1)) == 0;
      }
    }
  }

  lemma {:induction false} LowDigits(v: nat, width: nat, k: nat)
    requires k <= width
    ensures Digits(v, width)[width - k..] == Digits(v, k)
  {
    if k > 0 {
      LowDigits(v / 2, width - 1, k - 1);
    }
  }

  /** A small number has only zeros above its own digits. */
  lemma {:induction false} SmallDigits(x: nat, width: nat, k: nat)
    requires x < Pow2(k)
    ensures Digits(x, width + k) == Zeros(width) + Digits(x, k)
  {
    if k > 0 {
      SmallDigits(x / 2, width, k - 1);
      assert Zeros(width) + Digits(x / 2, k - 1) + [x % 2 == 1] == Zeros(width) + Digits(x, k);
    } else {
      DigitsOfZero(width);
      assert Zeros(width) + [] == Zeros(width);
    }
  }

  /** `(v << k) | x` appends the `k` digits of x below the low digits of v. */
  lemma AppendDigits(v: nat, width: nat, x: nat, k: nat)
    requires width + k <= 32 && x < Pow2(k)
    ensures Digits(Or(ShiftLeft(v, k), x), width + k) == Digits(v, width) + Digits(x, k)
  {
    ShiftLeftDigits(v, k, width);
    SmallDigits(x, width, k);
    var left, right := Digits(Or(ShiftLeft(v, k), x), width + k), Digits(v, width) + Digits(x, k);
    forall i | 0 <= i < width + k ensures left[i] == right[i] {
      OrDigits(ShiftLeft(v, k), x, width + k, i);
    }
  }

  /** `(v >>> n - k) & mask` is the number of the k highest of the n low digits. */
  lemma TakeDigits(v: nat, n: nat, k: nat)
    requires k <= n
    ensures And(ShiftRight(v, n - k), Mask(k)) == Number(Digits(v, n)[..k])
    ensures Digits(v, n)[k..] == Digits(v, n - k)
  {
    ShiftRightDigits(v, n - k, k);
    AndDigits(ShiftRight(v, n - k), k);
    LowDigits(v, n, n - k);
  }

  // ---------- the operators on numbers ----------

  /** `n` doubled `k` times. */
  function Scaled(n: nat, k: nat): nat {
    if k == 0 then n else 2 * Scaled(n, k - 1)
  }

  lemma {:induction false} NumberAppend(a: Bits, b: Bits)
    ensures Number(a + b) == Scaled(Number(a), |b|) + Number(b)
  {
    if b == [] {
      assert a + b == a;
    } else {
      assert (a + b)[..|a + b| - 1] == a + b[..|b| - 1];
      NumberAppend(a, b[..|b| - 1]);
    }
  }

  lemma {:induction false} ScaledIsProduct(n: nat, k: nat)
    ensures Scaled(n, k) == n * Pow2(k)
  {
    if k > 0 {
      ScaledIsProduct(n, k - 1);
      assert n * Pow2(k) == 2 * (n * Pow2(k - 1));
    }
  }

  lemma Pow2Values()
    ensures Pow2(5) == 32 && Pow2(7) == 128 && Pow2(8) == 256 && Pow2(16) == 0x1_0000
    ensures Pow2(24) == 0x100_0000 && Pow2(32) == WORD
  {
    assert Pow2(4) == 16;
    assert Pow2(8) == 256;
    assert Pow2(12) == 0x1000;
    assert Pow2(16) == 0x1_0000;
    assert Pow2(20) == 0x10_0000;
    assert Pow2(24) == 0x100_0000;
    assert Pow2(28) == 0x1000_0000;
  }

  lemma {:induction false} ShiftLeftSmall(v: nat, k: nat)
    requires Scaled(v, k) < WORD
    ensures ShiftLeft(v, k) == Scaled(v, k)
  {
    if k > 0 {
      ShiftLeftSmall(v, k - 1);
    }
  }

  /** A number below `Pow2(k)` put under the doubled number is added to it. */
  lemma {:induction false} OrScaled(a: nat, b: nat, k: nat)
    requires b < Pow2(k)
    ensures Or(Scaled(a, k), b) == Scaled(a, k) + b
  {
    if k == 0 {
      OrZero(a);
    } else {
      OrScaled(a, b / 2, k - 1);
      OrStep(Scaled(a, k), b);
    }
  }

  lemma {:induction false} OrZero(a: nat)
    ensures Or(a, 0) == a
  {
    if a != 0 {
      OrZero(a / 2);
    }
  }
}
