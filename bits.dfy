/**
 * Go's `byte` and the integer bit operators the codec uses, on Dafny's
 * unbounded integers.  `&`, `|` and `^` are defined bit by bit, `<<` and `>>`
 * by doubling and halving; the lemmas below say what the masks and packings
 * used by the codec compute.  Go's `byte` arithmetic wraps modulo 256, which
 * `Trunc` (Go's `byte(...)` conversion) makes explicit.
 */
module Bits {

  /** An unsigned 8-bit value, Go's `byte`. */
  type byte = x: int | 0 <= x < 256

  function Pow2(n: nat): (r: nat)
    ensures r >= 1
  {
    if n == 0 then 1 else 2 * Pow2(n - 1)
  }

  /** `a << k` on a non-negative integer (no truncation). */
  function Shl(a: nat, k: nat): nat
  {
    if k == 0 then a else 2 * Shl(a, k - 1)
  }

  /** `a >> k` on a non-negative integer. */
  function Shr(a: nat, k: nat): (r: nat)
    ensures r <= a
  {
    if k == 0 then a else Shr(a / 2, k - 1)
  }

  /** Bitwise `a & b`. */
  function And(a: nat, b: nat): (r: nat)
    ensures r <= a && r <= b
  {
    if a == 0 || b == 0 then 0
    else 2 * And(a / 2, b / 2) + (if a % 2 == 1 && b % 2 == 1 then 1 else 0)
  }

  /** Bitwise `a | b`. */
  function Or(a: nat, b: nat): (r: nat)
    ensures a <= r && b <= r && r <= a + b
  {
    if a == 0 then b
    else if b == 0 then a
    else 2 * Or(a / 2, b / 2) + (if a % 2 == 1 || b % 2 == 1 then 1 else 0)
  }

  /** Bitwise `a ^ b`. */
  function Xor(a: nat, b: nat): nat
  {
    if a == 0 then b
    else if b == 0 then a
    else 2 * Xor(a / 2, b / 2) + (a % 2 + b % 2) % 2
  }

  /** Go's conversion `byte(x)`: the low eight bits of a two's-complement integer. */
  function Trunc(x: int): (r: byte)
    ensures (r - x) % 256 == 0
  {
    x % 256
  }

  /** Go's `a + b` on two bytes (wraps). */
  function Add8(a: byte, b: byte): byte
  {
    Trunc(a + b)
  }

  /** Go's `a - b` on two bytes (wraps). */
  function Sub8(a: byte, b: byte): byte
  {
    Trunc(a - b)
  }

  /** Go's `a << k` on a byte: the bits shifted past bit 7 are lost. */
  function Shl8(a: byte, k: nat): byte
  {
    Trunc(Shl(a, k))
  }

  /** Go's `a | b` on two bytes. */
  function Or8(a: byte, b: byte): (r: byte)
    ensures r == Or(a, b)
  {
    OrBound(a, b, 8);
    Or(a, b)
  }

  /** Go's `a ^ b` on two bytes. */
  function Xor8(a: byte, b: byte): (r: byte)
    ensures r == Xor(a, b)
  {
    XorBound(a, b, 8);
    Xor(a, b)
  }

  // ---------------------------------------------------------------------
  // Arithmetic helpers

  lemma MulAtLeast(d: nat, t: int)
    requires t >= 1
    ensures d * t >= d
  {
    assert d * t == d * (t - 1) + d;
  }

  lemma MulLe(a: nat, b: nat, c: nat)
    requires a <= b
    ensures a * c <= b * c
  {
    assert b * c == a * c + (b - a) * c;
  }

  lemma DivModUnique(x: nat, d: nat, q: nat, r: nat)
    requires d >= 1 && x == d * q + r && r < d
    ensures x / d == q && x % d == r
  {
    var q', r' := x / d, x % d;
    var t := q' - q;
    assert d * t == r - r' by {
      assert d * q' == d * (q + t) == d * q + d * t;
    }
    assert d * (-t) == -(d * t);
    if t >= 1 {
      MulAtLeast(d, t);
    } else if t <= -1 {
      MulAtLeast(d, -t);
    }
  }

  lemma HalfSplit(x: nat, p: nat)
    requires p >= 1
    ensures x / (2 * p) == (x / 2) / p
    ensures x % (2 * p) == 2 * ((x / 2) % p) + x % 2
  {
    var q := x / 2;
    assert x == (2 * p) * (q / p) + (2 * (q % p) + x % 2);
    DivModUnique(x, 2 * p, q / p, 2 * (q % p) + x % 2);
  }

  lemma HalfSplitPow(x: nat, n: nat)
    requires n > 0
    ensures x / Pow2(n) == (x / 2) / Pow2(n - 1)
    ensures x % Pow2(n) == 2 * ((x / 2) % Pow2(n - 1)) + x % 2
  {
    HalfSplit(x, Pow2(n - 1));
  }

  // ---------------------------------------------------------------------
  // What the operators compute

  lemma {:induction false} ShlMul(a: nat, k: nat)
    ensures Shl(a, k) == a * Pow2(k)
  {
    if k > 0 {
      ShlMul(a, k - 1);
      assert a * Pow2(k) == 2 * (a * Pow2(k - 1));
    }
  }

  lemma {:induction false} ShrDiv(a: nat, k: nat)
    ensures Shr(a, k) == a / Pow2(k)
  {
    if k > 0 {
      ShrDiv(a / 2, k - 1);
      HalfSplit(a, Pow2(k - 1));
    }
  }

  /** One bit of a low mask: `x & (2^n - 1)` is bit 0 of `x` below `(x / 2) & (2^(n-1) - 1)`. */
  lemma AndMaskStep(x: nat, n: nat)
    requires n > 0
    ensures And(x, Pow2(n) - 1) == 2 * And(x / 2, Pow2(n - 1) - 1) + x % 2
  {
    var m := Pow2(n) - 1;
    assert m / 2 == Pow2(n - 1) - 1 && m % 2 == 1;
  }

  /** The low `n` bits of `x`, collected one bit at a time. */
  function Low(x: nat, n: nat): nat
  {
    if n == 0 then 0 else 2 * Low(x / 2, n - 1) + x % 2
  }

  /** The low `n` bits are the remainder modulo `2^n`. */
  lemma {:induction false} LowMod(x: nat, n: nat)
    ensures Low(x, n) == x % Pow2(n)
  {
    if n > 0 {
      LowMod(x / 2, n - 1);
      HalfSplitPow(x, n);
    }
  }

  lemma {:induction false} AndLowBits(x: nat, n: nat)
    ensures And(x, Pow2(n) - 1) == Low(x, n)
  {
    if n > 0 {
      AndMaskStep(x, n);
      AndLowBits(x / 2, n - 1);
    }
  }

  /** Masking with `2^n - 1` keeps the low `n` bits. */
  lemma AndLow(x: nat, n: nat)
    ensures And(x, Pow2(n) - 1) == x % Pow2(n)
  {
    AndLowBits(x, n);
    LowMod(x, n);
  }

  lemma AndEven(x: nat, q: nat)
    ensures And(x, 2 * q) == 2 * And(x / 2, q)
  {
    if x > 0 && q > 0 {
      assert (2 * q) / 2 == q && (2 * q) % 2 == 0;
    }
  }

  /** Masking with a shifted mask is shifting, masking and shifting back. */
  lemma {:induction false} AndShifted(x: nat, m: nat, k: nat)
    ensures And(x, Shl(m, k)) == Shl(And(Shr(x, k), m), k)
  {
    if k > 0 {
      AndShifted(x / 2, m, k - 1);
      AndEven(x, Shl(m, k - 1));
    }
  }

  /** A value below `2^n` is unchanged by the mask of `n` ones. */
  lemma {:induction false} AndMaskBelow(x: nat, n: nat)
    requires x < Pow2(n)
    ensures And(x, Pow2(n) - 1) == x
  {
    if n > 0 {
      AndMaskStep(x, n);
      AndMaskBelow(x / 2, n - 1);
    }
  }

  /** `AndShifted` for a mask written as a number. */
  lemma ShiftedMask(x: nat, m: nat, k: nat, mask: nat)
    requires mask == Shl(m, k)
    ensures And(x, mask) == Shl(And(Shr(x, k), m), k)
  {
    AndShifted(x, m, k);
  }

  /** `b & 0xC0` keeps the top two bits of a byte. */
  lemma AndTop2(b: byte)
    ensures And(b, 0xC0) == (b / 64) * 64
  {
    ShiftedMask(b, 3, 6, 0xC0);
    ShrDiv(b, 6);
    AndMaskBelow(b / 64, 2);
    ShlMul(b / 64, 6);
  }

  /** `b & 0xE0` keeps the top three bits of a byte. */
  lemma AndTop3(b: byte)
    ensures And(b, 0xE0) == (b / 32) * 32
  {
    ShiftedMask(b, 7, 5, 0xE0);
    ShrDiv(b, 5);
    AndMaskBelow(b / 32, 3);
    ShlMul(b / 32, 5);
  }

  /** `b & 0xF0` keeps the top four bits of a byte. */
  lemma AndTop4(b: byte)
    ensures And(b, 0xF0) == (b / 16) * 16
  {
    ShiftedMask(b, 15, 4, 0xF0);
    ShrDiv(b, 4);
    AndMaskBelow(b / 16, 4);
    ShlMul(b / 16, 4);
  }

  lemma {:induction false} OrShifted(c: nat, b: nat, k: nat)
    requires b < Pow2(k)
    ensures Or(Shl(c, k), b) == Shl(c, k) + b
  {
    if k > 0 && b > 0 {
      OrShifted(c, b / 2, k - 1);
    }
  }

  /** `|` of two values whose bits do not overlap is their sum. */
  lemma OrNoCarry(a: nat, b: nat, k: nat)
    requires a % Pow2(k) == 0 && b < Pow2(k)
    ensures Or(a, b) == a + b
  {
    var c := a / Pow2(k);
    ShlMul(c, k);
    assert a == c * Pow2(k);
    OrShifted(c, b, k);
  }

  lemma {:induction false} OrBound(a: nat, b: nat, n: nat)
    requires a < Pow2(n) && b < Pow2(n)
    ensures Or(a, b) < Pow2(n)
  {
    if n > 0 && a > 0 && b > 0 {
      OrBound(a / 2, b / 2, n - 1);
    }
  }

  lemma {:induction false} XorBound(a: nat, b: nat, n: nat)
    requires a < Pow2(n) && b < Pow2(n)
    ensures Xor(a, b) < Pow2(n)
  {
    if n > 0 && a > 0 && b > 0 {
      XorBound(a / 2, b / 2, n - 1);
    }
  }

  // ---------------------------------------------------------------------
  // Exact values, in the small steps the proofs above are assembled from

  /** `x << k` is `x * p` for `p == 2^k`. */
  lemma ShiftLeft(a: nat, k: nat, p: nat)
    requires p == Pow2(k)
    ensures Shl(a, k) == a * p
  {
    ShlMul(a, k);
  }

  /** `x >> k` of `x == y * 2^k + lo` with `lo < 2^k` is `y`. */
  lemma ShrExact(x: nat, k: nat, p: nat, y: nat, lo: nat)
    requires p == Pow2(k) && lo < p && x == y * p + lo
    ensures Shr(x, k) == y
  {
    ShrDiv(x, k);
    DivModUnique(x, p, y, lo);
  }

  /** `y & m`, for `m` a mask of `n` ones, is `y` modulo `m + 1`. */
  lemma AndExact(y: nat, n: nat, m: nat, f: nat)
    requires m + 1 == Pow2(n) && y % (m + 1) == f
    ensures And(y, m) == f
  {
    AndLow(y, n);
  }

  /** `(x >> k) & m` is the field `f` of `x == y * 2^k + lo` where `f` is `y` modulo `m + 1`. */
  lemma FieldAt(x: nat, k: nat, p: nat, n: nat, m: nat, y: nat, f: nat, lo: nat)
    requires p == Pow2(k) && m + 1 == Pow2(n) && lo < p
    requires x == y * p + lo && y % (m + 1) == f
    ensures And(Shr(x, k), m) == f
  {
    ShrExact(x, k, p, y, lo);
    AndExact(y, n, m, f);
  }

  /** `q * p` is a multiple of `p`. */
  lemma Multiple(q: nat, p: nat)
    requires p >= 1
    ensures (q * p) % p == 0
  {
    DivModUnique(q * p, p, q, 0);
  }

  /** `hi | lo` for `hi` a multiple of `2^k` and `lo < 2^k` is `hi + lo`. */
  lemma OrLow(hi: nat, lo: nat, k: nat, p: nat)
    requires p == Pow2(k) && hi % p == 0 && lo < p
    ensures Or(hi, lo) == hi + lo
  {
    OrNoCarry(hi, lo, k);
  }

  /** `x << k | y` for `y < 2^k` is `x * 2^k + y`. */
  lemma OrShl(x: nat, y: nat, k: nat, p: nat)
    requires p == Pow2(k) && y < p
    ensures Or(Shl(x, k), y) == x * p + y
  {
    ShiftLeft(x, k, p);
    Multiple(x, p);
    OrLow(Shl(x, k), y, k, p);
  }

  /** A tag byte `|` a payload that fits below its low set bit is their sum. */
  lemma Tagged(tag: byte, v: nat, k: nat, p: nat)
    requires p == Pow2(k) && tag % p == 0 && v < p && tag + v < 256
    ensures Or8(tag, Trunc(v)) == tag + v
  {
    assert Trunc(v) == v;
    OrLow(tag, v, k, p);
  }
}
