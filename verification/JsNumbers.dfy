/** Bitwise operators of JavaScript, on mathematical integers.

    Every bitwise operator first reduces its operands modulo 2^32 and, except for `>>>`, reads the
    result as a signed number. `And`, `Or` and `Xor` are the operators on non-negative integers,
    defined bit by bit; the `Js` functions add the two conversions.
 */
module JsNumbers {
  type Byte = n: int | 0 <= n < 0x100

  const TWO_32: nat := 0x1_0000_0000
  const TWO_31: nat := 0x8000_0000

  function Pow2(k: nat): (p: nat)
    ensures p > 0
  {
    if k == 0 then 1 else 2 * Pow2(k - 1)
  }

  lemma Pow2Values()
    ensures Pow2(3) == 8 && Pow2(4) == 0x10 && Pow2(5) == 0x20 && Pow2(6) == 0x40 && Pow2(10) == 0x400
    ensures Pow2(12) == 0x1000 && Pow2(18) == 0x4_0000
  {
    assert Pow2(3) == 8 && Pow2(6) == 8 * Pow2(3);
    assert Pow2(9) == 8 * Pow2(6) && Pow2(12) == 8 * Pow2(9);
    assert Pow2(15) == 8 * Pow2(12) && Pow2(18) == 8 * Pow2(15);
  }

  function And(a: nat, b: nat): nat {
    if a == 0 || b == 0 then 0 else 2 * And(a / 2, b / 2) + (if a % 2 == 1 && b % 2 == 1 then 1 else 0)
  }

  function Or(a: nat, b: nat): nat
    decreases a + b
  {
    if a == 0 then b
    else if b == 0 then a
    else 2 * Or(a / 2, b / 2) + (if a % 2 == 1 || b % 2 == 1 then 1 else 0)
  }

  function Xor(a: nat, b: nat): nat
    decreases a + b
  {
    if a == 0 then b
    else if b == 0 then a
    else 2 * Xor(a / 2, b / 2) + (if a % 2 != b % 2 then 1 else 0)
  }

  function ToUint32(n: int): nat { n % TWO_32 }

  function ToInt32(n: int): int {
    var u := n % TWO_32;
    if u >= TWO_31 then u - TWO_32 else u
  }

  function JsAnd(a: int, b: int): int { ToInt32(And(ToUint32(a), ToUint32(b))) }

  function JsOr(a: int, b: int): int { ToInt32(Or(ToUint32(a), ToUint32(b))) }

  function JsXor(a: int, b: int): int { ToInt32(Xor(ToUint32(a), ToUint32(b))) }

  function JsNot(a: int): int { -1 - ToInt32(a) }

  function JsShl(a: int, k: nat): int { ToInt32(ToUint32(a) * Pow2(k)) }

  // `a >> k`: Dafny's division rounds towards negative infinity for a positive divisor.
  function JsSar(a: int, k: nat): int { ToInt32(a) / Pow2(k) }

  // `a >>> k`
  function JsShr(a: int, k: nat): int { ToUint32(a) / Pow2(k) }

  // ---------- The operators, bit by bit ----------

  /** Bit `i` of a number. */
  predicate Bit(n: nat, i: nat) { n / Pow2(i) % 2 == 1 }

  lemma HalfDiv(n: nat, q: nat)
    requires q > 0
    ensures n / (2 * q) == n / 2 / q
  {
    var d := n / 2 / q;
    assert n / 2 == d * q + n / 2 % q;
    assert n == d * (2 * q) + (2 * (n / 2 % q) + n % 2);
    DivModUnique(n, 2 * q, d, 2 * (n / 2 % q) + n % 2);
  }

  lemma BitOfHalf(n: nat, i: nat)
    ensures Bit(n, i + 1) <==> Bit(n / 2, i)
    ensures Bit(n, 0) <==> n % 2 == 1
  {
    HalfDiv(n, Pow2(i));
  }

  lemma ZeroBits(i: nat)
    ensures !Bit(0, i)
  {
    DivModUnique(0, Pow2(i), 0, 0);
  }

  /** `&` has the bits both operands have, `|` those one has, and `^` those exactly one has. */
  lemma {:induction false} OperatorBits(a: nat, b: nat, i: nat)
    ensures Bit(And(a, b), i) <==> Bit(a, i) && Bit(b, i)
    ensures Bit(Or(a, b), i) <==> Bit(a, i) || Bit(b, i)
    ensures Bit(Xor(a, b), i) <==> Bit(a, i) != Bit(b, i)
  {
    ZeroBits(i);
    if a != 0 && b != 0 {
      HalvesOf(a, b);
      if i == 0 {
        BitOfHalf(a, 0);
        BitOfHalf(b, 0);
        BitOfHalf(And(a, b), 0);
        BitOfHalf(Or(a, b), 0);
        BitOfHalf(Xor(a, b), 0);
      } else {
        OperatorBits(a / 2, b / 2, i - 1);
        BitOfHalf(a, i - 1);
        BitOfHalf(b, i - 1);
        BitOfHalf(And(a, b), i - 1);
        BitOfHalf(Or(a, b), i - 1);
        BitOfHalf(Xor(a, b), i - 1);
      }
    }
  }

  lemma HalvesOf(a: nat, b: nat)
    requires a != 0 && b != 0
    ensures And(a, b) / 2 == And(a / 2, b / 2) && (And(a, b) % 2 == 1 <==> a % 2 == 1 && b % 2 == 1)
    ensures Or(a, b) / 2 == Or(a / 2, b / 2) && (Or(a, b) % 2 == 1 <==> a % 2 == 1 || b % 2 == 1)
    ensures Xor(a, b) / 2 == Xor(a / 2, b / 2) && (Xor(a, b) % 2 == 1 <==> a % 2 != b % 2)
  {
  }

  /** The bits make the number: two numbers with the same bits are one. */
  lemma {:induction false} SameBits(a: nat, b: nat)
    requires forall i: nat :: Bit(a, i) <==> Bit(b, i)
    ensures a == b
  {
    BitOfHalf(a, 0);
    BitOfHalf(b, 0);
    assert Bit(a, 0) <==> Bit(b, 0);
    if a != 0 || b != 0 {
      forall i: nat ensures Bit(a / 2, i) <==> Bit(b / 2, i) {
        BitOfHalf(a, i);
        BitOfHalf(b, i);
        assert Bit(a, i + 1) <==> Bit(b, i + 1);
      }
      SameBits(a / 2, b / 2);
    }
  }

  lemma {:induction false} BitsBelow(a: nat, b: nat, k: nat)
    requires a < Pow2(k) && b < Pow2(k)
    ensures And(a, b) < Pow2(k) && Or(a, b) < Pow2(k) && Xor(a, b) < Pow2(k)
  {
    if k > 0 {
      BitsBelow(a / 2, b / 2, k - 1);
    }
  }

  lemma {:induction false} AndMask(x: nat, k: nat)
    ensures And(x, Pow2(k) - 1) == x % Pow2(k)
  {
    var q := Pow2(k);
    if k == 0 || x == 0 {
      assert x == 0 ==> x % q == 0 by { ModBound(0, q); }
    } else {
      AndMask(x / 2, k - 1);
      HalfMod(x, Pow2(k - 1));
    }
  }

  lemma HalfMod(x: nat, q: nat)
    requires q > 0
    ensures x % (2 * q) == 2 * (x / 2 % q) + x % 2
  {
    var d := x / 2 / q;
    assert x / 2 == d * q + x / 2 % q;
    assert x == d * (2 * q) + (2 * (x / 2 % q) + x % 2);
    DivModUnique(x, 2 * q, d, 2 * (x / 2 % q) + x % 2);
  }

  lemma ProductAtLeast(d: int, m: int)
    requires d >= 1 && m >= 1
    ensures d * m >= m
  {
    assert (d - 1) * m >= 0;
  }

  lemma DivShrinks(x: nat, m: nat)
    requires m > 0
    ensures 0 <= x / m <= x
  {
    var q, r := x / m, x % m;
    assert q * m == x - r;
    if q < 0 {
      ProductAtLeast(-q, m);
    } else if q > 0 {
      ProductAtLeast(m, q);
    }
  }

  lemma DivModUnique(x: int, m: nat, d: int, r: int)
    requires m > 0 && 0 <= r < m && x == d * m + r
    ensures x / m == d && x % m == r
  {
    var d', r' := x / m, x % m;
    assert (d - d') * m == r' - r;
    if d > d' {
      ProductAtLeast(d - d', m);
    } else if d < d' {
      ProductAtLeast(d' - d, m);
    }
  }

  /** Joining a multiple of 2^k and a number below 2^k with `|` is addition. */
  lemma {:induction false} OrJoin(hi: nat, lo: nat, k: nat)
    requires lo < Pow2(k)
    ensures Or(hi * Pow2(k), lo) == hi * Pow2(k) + lo
  {
    if k == 0 || hi == 0 || lo == 0 {
    } else {
      var q := hi * Pow2(k - 1);
      assert hi * Pow2(k) == 2 * q;
      assert q >= 1;
      OrJoin(hi, lo / 2, k - 1);
    }
  }

  lemma ModBound(x: nat, m: nat)
    requires m > 0
    ensures 0 <= x % m < m && x % m <= x
  {
    if x < m {
      DivModUnique(x, m, 0, x);
    }
  }

  lemma SmallUint(x: nat)
    requires x < TWO_31
    ensures ToUint32(x) == x && ToInt32(x) == x
  {
  }

  lemma JsAndMask(x: int, k: nat)
    requires Pow2(k) <= TWO_31
    ensures JsAnd(x, Pow2(k) - 1) == ToUint32(x) % Pow2(k)
  {
    var u := ToUint32(x);
    AndMask(u, k);
    SmallUint(Pow2(k) - 1);
    ModBound(u, Pow2(k));
    SmallUint(u % Pow2(k));
  }

  lemma JsOrJoin(hi: nat, lo: nat, k: nat)
    requires lo < Pow2(k) && hi * Pow2(k) + lo < TWO_31
    ensures JsOr(hi * Pow2(k), lo) == hi * Pow2(k) + lo
  {
    OrJoin(hi, lo, k);
    var h := hi * Pow2(k);
    SmallUint(h);
    SmallUint(lo);
    SmallUint(h + lo);
  }

  lemma JsShlSmall(x: nat, k: nat)
    requires x < TWO_31 && x * Pow2(k) < TWO_31
    ensures JsShl(x, k) == x * Pow2(k)
  {
  }
}
