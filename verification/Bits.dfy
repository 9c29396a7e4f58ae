/** Bit operations on unsigned integers, written out on their binary digits. */
module Bits {

  function Pow2(n: nat): (p: nat)
    ensures p > 0
  {
    if n == 0 then 1 else 2 * Pow2(n - 1)
  }

  function BitAnd(x: nat, y: nat): nat {
    if x == 0 || y == 0 then 0
    else (if x % 2 == 1 && y % 2 == 1 then 1 else 0) + 2 * BitAnd(x / 2, y / 2)
  }

  function BitOr(x: nat, y: nat): nat {
    if x == 0 then y
    else if y == 0 then x
    else (if x % 2 == 1 || y % 2 == 1 then 1 else 0) + 2 * BitOr(x / 2, y / 2)
  }

  function Shl(x: nat, n: nat): nat {
    x * Pow2(n)
  }

  function Shr(x: nat, n: nat): nat {
    if n == 0 then x else Shr(x / 2, n - 1)
  }

  lemma {:induction false} MulSign(d: int, n: int)
    requires n >= 0
    ensures d >= 1 ==> d * n >= n
    ensures d <= 0 ==> d * n <= 0
    ensures d <= -1 ==> d * n <= -n
  {
  }

  /** Division with remainder has one answer. */
  lemma {:induction false} DivModUnique(x: int, n: int, q: int, r: int)
    requires n > 0 && 0 <= r < n && x == q * n + r
    ensures x / n == q && x % n == r
  {
    var d := x / n - q;
    assert d * n == r - x % n;
    MulSign(d, n);
  }

  lemma {:induction false} ModDouble(x: nat, p: nat)
    requires p > 0
    ensures x % (2 * p) == x % 2 + 2 * (x / 2 % p)
  {
    var q, r := x / 2 / p, x % 2 + 2 * (x / 2 % p);
    assert x == 2 * (x / 2) + x % 2;
    assert x / 2 == q * p + x / 2 % p;
    assert x == q * (2 * p) + r by {
      assert 2 * (q * p) == q * (2 * p);
    }
    DivModUnique(x, 2 * p, q, r);
  }

  /** Masking with 2^n - 1 takes the remainder modulo 2^n. */
  lemma {:induction false} AndMask(x: nat, n: nat)
    ensures BitAnd(x, Pow2(n) - 1) == x % Pow2(n)
  {
    if n > 0 {
      AndMask(x / 2, n - 1);
      ModDouble(x, Pow2(n - 1));
      AndOdd(x, Pow2(n - 1) - 1);
      hide BitAnd;
    }
  }

  lemma {:induction false} AndOdd(x: nat, y: nat)
    ensures BitAnd(x, 2 * y + 1) == x % 2 + 2 * BitAnd(x / 2, y)
  {
    assert (2 * y + 1) / 2 == y;
  }

  /** Bits that do not overlap are added by `|`. */
  lemma {:induction false} OrDisjoint(high: nat, low: nat, n: nat)
    requires low < Pow2(n)
    ensures BitOr(high * Pow2(n), low) == high * Pow2(n) + low
  {
    if n > 0 {
      OrDisjoint(high, low / 2, n - 1);
      OrDigit(high * Pow2(n - 1), low);
      ShiftOne(high, n);
      hide BitOr, Pow2;
    } else {
      OrZero(high);
    }
  }

  /** The lowest digit of `|` when one side is even. */
  lemma {:induction false} OrDigit(p: nat, low: nat)
    ensures BitOr(2 * p, low) == low % 2 + 2 * BitOr(p, low / 2)
  {
    assert 2 * p / 2 == p;
  }

  lemma {:induction false} OrZero(x: nat)
    ensures BitOr(x * Pow2(0), 0) == x * Pow2(0)
  {
  }

  /** One shift more doubles, and a number below 2^n loses a digit. */
  lemma {:induction false} ShiftOne(x: nat, n: nat)
    requires n > 0
    ensures x * Pow2(n) == 2 * (x * Pow2(n - 1)) && Pow2(n) == 2 * Pow2(n - 1)
  {
  }

  lemma {:induction false} Pow2Add(a: nat, b: nat)
    ensures Pow2(a + b) == Pow2(a) * Pow2(b)
  {
    if a > 0 {
      Pow2Add(a - 1, b);
      assert Pow2(a) * Pow2(b) == 2 * (Pow2(a - 1) * Pow2(b));
    }
  }

  lemma {:induction false} Pow2Values()
    ensures Pow2(8) == 0x100 && Pow2(16) == 0x1_0000 && Pow2(32) == 0x1_0000_0000
  {
    assert Pow2(4) == 16;
    Pow2Add(4, 4);
    Pow2Add(8, 8);
    Pow2Add(16, 16);
  }

  /** Two counters less than `n` apart have different remainders modulo `n`. */
  lemma {:induction false} ModDistinct(a: nat, b: nat, n: nat)
    requires a < b < a + n
    ensures a % n != b % n
  {
    if a % n == b % n {
      assert b - a == (b / n - a / n) * n;
      MulSign(b / n - a / n, n);
    }
  }

  /** Shifting right drops the low digits. */
  lemma {:induction false} ShrDrops(high: nat, low: nat, n: nat)
    requires low < Pow2(n)
    ensures Shr(high * Pow2(n) + low, n) == high
  {
    if n > 0 {
      ShiftOne(high, n);
      ShrDrops(high, low / 2, n - 1);
      hide Pow2;
    }
  }
}
