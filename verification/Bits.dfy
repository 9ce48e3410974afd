/** Division facts, each proved in isolation. */
module Arith {

  lemma MulFar(m: int, d: int)
    requires m > 0
    ensures d >= 1 ==> m * d >= m
    ensures d <= -1 ==> m * d <= 0 - m
  {
  }

  lemma Product(a: nat, b: nat)
    ensures a * b >= 0
  {
  }

  lemma MulSub(m: int, a: int, q: int)
    ensures m * (a - q) == m * a - m * q
  {
  }

  lemma MulAdd(m: int, a: int, q: int)
    ensures m * (a + q) == m * a + m * q
  {
  }

  lemma MulAssoc(a: int, b: int, c: int)
    ensures a * (b * c) == a * b * c
  {
  }

  lemma DivMod(x: int, m: int)
    requires m > 0
    ensures x == m * (x / m) + x % m && 0 <= x % m < m
  {
  }

  lemma DivModUnique(m: int, a: int, b: int, q: int, r: int)
    requires m > 0 && 0 <= b < m && 0 <= r < m && m * a + b == m * q + r
    ensures a == q && b == r
  {
    MulSub(m, a, q);
    MulFar(m, a - q);
  }

  /** Quotient and remainder are what they are written to be. */
  lemma ModIs(x: int, m: int, q: int, r: int)
    requires m > 0 && 0 <= r < m && x == m * q + r
    ensures x % m == r && x / m == q
  {
    DivMod(x, m);
    DivModUnique(m, x / m, x % m, q, r);
  }

  /** Adding a multiple does not change the remainder. */
  lemma ModAddMultiple(x: int, m: int, k: int)
    requires m > 0
    ensures (x + m * k) % m == x % m
  {
    DivMod(x, m);
    MulAdd(m, x / m, k);
    ModIs(x + m * k, m, x / m + k, x % m);
  }

  lemma ModSmall(x: int, m: int)
    requires 0 <= x < m
    ensures x % m == x
  {
    ModIs(x, m, 0, x);
  }

  /** The remainder by a multiple of `a` has the same remainder by `a`. */
  lemma ModMod(x: int, m: int, a: int)
    requires a > 0 && m > 0 && m % a == 0
    ensures x % m % a == x % a
  {
    DivMod(x, m);
    DivMod(m, a);
    MulAssoc(a, m / a, x / m);
    assert x % m == x + a * (0 - (m / a) * (x / m)) by {
      MulSub(a, 0, (m / a) * (x / m));
    }
    ModAddMultiple(x, a, 0 - (m / a) * (x / m));
  }

  /** Congruence is preserved by equal shifts. */
  lemma ModShift(x: int, y: int, d: int, m: int)
    requires m > 0 && x % m == y % m
    ensures (x + d) % m == (y + d) % m
  {
    DivMod(x, m);
    DivMod(y, m);
    MulSub(m, x / m, y / m);
    ModAddMultiple(y + d, m, x / m - y / m);
  }

  /** A sum is congruent to its second term when the first is a multiple. */
  lemma ModMultiple(b: int, x: int, m: int, a: int)
    requires a > 0 && m > 0 && b % m == 0 && m % a == 0
    ensures (b + x) % a == x % a
  {
    ModMod(b, m, a);
    ModSmall(0, a);
    ModShift(b, 0, x, a);
  }
}

/** Bitwise "and" on machine words, as far as alignment arithmetic needs it. */
module Bits {
  import opened Arith

  function Pow2(k: nat): (p: nat)
    ensures p > 0
  {
    if k == 0 then 1 else 2 * Pow2(k - 1)
  }

  ghost predicate IsPow2(a: nat) {
    exists k: nat :: a == Pow2(k)
  }

  /** The bit-by-bit conjunction. */
  function And(x: nat, y: nat): nat {
    if x == 0 || y == 0 then 0
    else (if x % 2 == 1 && y % 2 == 1 then 1 else 0) + 2 * And(x / 2, y / 2)
  }

  /** The remainder of a division by `2 * m`, from that of half the number by `m`. */
  lemma ModHalf(x: nat, m: nat)
    requires m > 0
    ensures x % (2 * m) == x % 2 + 2 * (x / 2 % m)
  {
    DivMod(x / 2, m);
    var q, r := x / 2 / m, x / 2 % m;
    MulAssoc(2, m, q);
    ModIs(x, 2 * m, q, 2 * r + x % 2);
  }

  /** Masking with one less than a power of two is the remainder by that power. */
  lemma {:induction false} AndMask(x: nat, k: nat)
    ensures And(x, Pow2(k) - 1) == x % Pow2(k)
  {
    assert And(x, 0) == 0 && And(0, Pow2(k) - 1) == 0;
    hide And;
    if k == 0 {
      ModIs(x, 1, x, 0);
    } else if x == 0 {
      ModSmall(0, Pow2(k));
    } else {
      var m := Pow2(k - 1);
      AndMask(x / 2, k - 1);
      ModHalf(x, m);
      AndOdd(x, m - 1);
      assert Pow2(k) - 1 == 2 * (m - 1) + 1;
    }
  }

  lemma HalfOfOdd(y: nat)
    ensures (2 * y + 1) / 2 == y && (2 * y + 1) % 2 == 1 && 2 * y / 2 == y && 2 * y % 2 == 0
  {
  }

  lemma AndOdd(x: nat, y: nat)
    requires x > 0
    ensures And(x, 2 * y + 1) == x % 2 + 2 * And(x / 2, y)
  {
    HalfOfOdd(y);
  }

  lemma AndEven(x: nat, y: nat)
    ensures And(2 * x, 2 * y) == 2 * And(x, y)
  {
    HalfOfOdd(x);
    HalfOfOdd(y);
  }

  lemma {:induction false} AndSymmetric(x: nat, y: nat)
    ensures And(x, y) == And(y, x)
  {
    if x > 0 && y > 0 { AndSymmetric(x / 2, y / 2); }
  }

  /** `x & y-1` for a power of two `y`. */
  lemma AndAlign(x: nat, y: nat)
    requires IsPow2(y)
    ensures y > 0 && And(x, y - 1) == x % y
  {
    var k: nat :| y == Pow2(k);
    AndMask(x, k);
  }

  lemma {:induction false} Pow2Monotone(i: nat, j: nat)
    requires i <= j
    ensures Pow2(i) <= Pow2(j)
    ensures i < j ==> 2 * Pow2(i) <= Pow2(j)
  {
    if i < j { Pow2Monotone(i, j - 1); }
  }

  lemma {:induction false} Pow2Quotient(i: nat, j: nat)
    requires i <= j
    ensures Pow2(j) == Pow2(i) * Pow2(j - i)
  {
    if i < j {
      Pow2Quotient(i, j - 1);
      MulAssoc(Pow2(i), 2, Pow2(j - 1 - i));
      MulAssoc(2, Pow2(i), Pow2(j - 1 - i));
    }
  }

  /** Of two powers of two the smaller divides the larger. */
  lemma Pow2Divides(a: nat, b: nat)
    requires IsPow2(a) && IsPow2(b) && a <= b
    ensures a > 0 && b % a == 0
  {
    var i: nat :| a == Pow2(i);
    var j: nat :| b == Pow2(j);
    if i <= j {
      Pow2Quotient(i, j);
      ModIs(b, a, Pow2(j - i), 0);
    } else {
      Pow2Monotone(j, i);
      assert false;
    }
  }

  /** `-x` in a word of `w` bits. */
  function Neg(w: nat, x: nat): nat
    requires x < Pow2(w)
  {
    if x == 0 then 0 else Pow2(w) - x
  }

  lemma {:induction false} AndBound(x: nat, y: nat)
    ensures And(x, y) <= x
  {
    if x > 0 && y > 0 { AndBound(x / 2, y / 2); }
  }

  /** The macro MAXP2: `-(-(a) & -(b))`. */
  function MaxP2(w: nat, a: nat, b: nat): nat
    requires a < Pow2(w) && b < Pow2(w)
  {
    AndBound(Neg(w, a), Neg(w, b));
    Neg(w, And(Neg(w, a), Neg(w, b)))
  }

  /** The high bits from `i` and from `j` on have in common those from the larger on. */
  lemma {:induction false} HighBits(w: nat, i: nat, j: nat)
    requires i <= j <= w
    ensures Pow2(i) <= Pow2(j) <= Pow2(w)
    ensures And(Pow2(w) - Pow2(i), Pow2(w) - Pow2(j)) == Pow2(w) - Pow2(j)
  {
    hide And;
    Pow2Monotone(i, j);
    Pow2Monotone(j, w);
    var y := Pow2(w) - Pow2(j);
    if i == 0 {
      AndSymmetric(Pow2(w) - 1, y);
      AndMask(y, w);
      ModSmall(y, Pow2(w));
    } else {
      HighBits(w - 1, i - 1, j - 1);
      var x', y' := Pow2(w - 1) - Pow2(i - 1), Pow2(w - 1) - Pow2(j - 1);
      AndEven(x', y');
      assert Pow2(w) - Pow2(i) == 2 * x' && Pow2(w) - Pow2(j) == 2 * y';
    }
  }

  /** On powers of two that fit the word, MAXP2 is the maximum. */
  lemma MaxP2IsMax(w: nat, a: nat, b: nat)
    requires IsPow2(a) && IsPow2(b) && a < Pow2(w) && b < Pow2(w)
    ensures MaxP2(w, a, b) == if a < b then b else a
  {
    hide And;
    var i: nat :| a == Pow2(i);
    var j: nat :| b == Pow2(j);
    if i >= w { Pow2Monotone(w, i); }
    if j >= w { Pow2Monotone(w, j); }
    if i <= j {
      Pow2Monotone(i, j);
      HighBits(w, i, j);
    } else {
      Pow2Monotone(j, i);
      HighBits(w, j, i);
      AndSymmetric(Neg(w, a), Neg(w, b));
    }
  }

  lemma AndEvenRight(x: nat, y: nat)
    ensures And(x, 2 * y) == 2 * And(x / 2, y)
  {
    HalfOfOdd(y);
    if x == 1 { assert And(0, y) == 0; }
  }

  lemma AndAll(w: nat, x: nat)
    requires x < Pow2(w)
    ensures And(x, Pow2(w) - Pow2(0)) == x == RoundDown(x, Pow2(0))
  {
    hide And;
    AndMask(x, w);
    ModSmall(x, Pow2(w));
  }

  lemma RoundHalf(x: nat, m: nat)
    requires m > 0
    ensures 2 * (x / 2 - x / 2 % m) == x - x % (2 * m)
  {
    ModHalf(x, m);
    DivMod(x, 2);
  }

  function RoundDown(x: nat, m: nat): int
    requires m > 0
  {
    x - x % m
  }

  lemma AndHighStep(x: nat, h: nat, m: nat)
    requires 0 < m <= h && And(x / 2, h - m) == RoundDown(x / 2, m)
    ensures And(x, 2 * h - 2 * m) == RoundDown(x, 2 * m)
  {
    hide And;
    AndEvenRight(x, h - m);
    RoundHalf(x, m);
  }

  lemma Pow2Twice(k: nat)
    ensures Pow2(k + 1) == 2 * Pow2(k)
  {
  }

  lemma HalfBelow(x: nat, h: nat)
    requires x < 2 * h
    ensures x / 2 < h
  {
  }

  /** Masking with `-2^k` rounds down to a multiple of `2^k`. */
  lemma {:induction false} AndHigh(w: nat, x: nat, k: nat)
    requires k <= w && x < Pow2(w)
    ensures Pow2(k) <= Pow2(w) && And(x, Pow2(w) - Pow2(k)) == RoundDown(x, Pow2(k))
  {
    hide And, Pow2, RoundDown;
    Pow2Monotone(k, w);
    if k == 0 {
      AndAll(w, x);
    } else {
      Pow2Twice(k - 1);
      Pow2Twice(w - 1);
      HalfBelow(x, Pow2(w - 1));
      AndHigh(w - 1, x / 2, k - 1);
      AndHighStep(x, Pow2(w - 1), Pow2(k - 1));
    }
  }

  /** The macro ALIGN: `((x)+(y)-1 & -(y))`. */
  function AlignUp(w: nat, x: nat, y: nat): nat
    requires 0 < y < Pow2(w)
  {
    And(x + y - 1, Neg(w, y))
  }

  /** ALIGN gives the next multiple. */
  lemma AlignUpIs(w: nat, x: nat, y: nat)
    requires IsPow2(y) && y < Pow2(w) && x + y <= Pow2(w)
    ensures x <= AlignUp(w, x, y) < x + y && AlignUp(w, x, y) % y == 0
  {
    hide And;
    var k: nat :| y == Pow2(k);
    if k > w { Pow2Monotone(w, k); }
    AndHigh(w, x + y - 1, k);
    DivMod(x + y - 1, y);
    ModIs(y * ((x + y - 1) / y), y, (x + y - 1) / y, 0);
  }

  lemma DivDiv(x: nat, m: nat)
    requires m > 0
    ensures x / 2 / m == x / (2 * m)
  {
    DivMod(x / 2, m);
    var q, r := x / 2 / m, x / 2 % m;
    MulAssoc(2, m, q);
    ModIs(x, 2 * m, q, 2 * r + x % 2);
  }

  predicate Bit(x: nat, k: nat) { x / Pow2(k) % 2 == 1 }

  /** Masking with a single bit tests it. */
  lemma {:induction false} AndBit(x: nat, k: nat)
    ensures And(x, Pow2(k)) != 0 <==> Bit(x, k)
  {
    hide And;
    if k == 0 {
      AndMask(x, 1);
    } else {
      AndBit(x / 2, k - 1);
      AndEvenRight(x, Pow2(k - 1));
      DivDiv(x, Pow2(k - 1));
    }
  }

  lemma BitIs(x: nat, k: nat)
    ensures Bit(x, k) <==> x / Pow2(k) % 2 == 1
  {
  }
}
