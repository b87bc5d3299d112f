/** What the functions of FIPS 180-4 on 32-bit words do to each bit: sections 2.2.2, 3.2 and 4.1.2. */
module Fips180Words {
  import opened JsNumbers
  import opened Fips180

  lemma {:induction false} DivBits(x: nat, n: nat, i: nat)
    ensures x / Pow2(n) >= 0 && (Bit(x / Pow2(n), i) <==> Bit(x, n + i))
  {
    DivShrinks(x, Pow2(n));
    if n > 0 {
      HalfDiv(x, Pow2(n - 1));
      DivBits(x / 2, n - 1, i);
      BitOfHalf(x, n - 1 + i);
    } else {
      DivModUnique(x, 1, x, 0);
    }
  }

  lemma {:induction false} ModBits(x: nat, k: nat, i: nat)
    ensures x % Pow2(k) >= 0 && (Bit(x % Pow2(k), i) <==> i < k && Bit(x, i))
  {
    ModBound(x, Pow2(k));
    if k == 0 {
      ZeroBits(i);
    } else {
      HalfMod(x, Pow2(k - 1));
      var m := x % Pow2(k);
      ModBound(x / 2, Pow2(k - 1));
      assert m / 2 == x / 2 % Pow2(k - 1) && m % 2 == x % 2;
      if i == 0 {
        BitOfHalf(m, 0);
        BitOfHalf(x, 0);
      } else {
        ModBits(x / 2, k - 1, i - 1);
        BitOfHalf(m, i - 1);
        BitOfHalf(x, i - 1);
      }
    }
  }

  lemma Twice(x: nat, q: nat)
    ensures x * (2 * q) == 2 * (x * q) && 2 * (x * q) / 2 == x * q && 2 * (x * q) % 2 == 0
  {
    var y := x * q;
    assert x * (2 * q) == 2 * y;
  }

  lemma {:induction false} ProductBits(x: nat, m: nat, i: nat)
    ensures Bit(x * Pow2(m), i) <==> i >= m && Bit(x, i - m)
  {
    if m > 0 {
      var y := x * Pow2(m - 1);
      Twice(x, Pow2(m - 1));
      hide Bit, Pow2;
      if i == 0 {
        BitOfHalf(2 * y, 0);
      } else {
        BitOfHalf(2 * y, i - 1);
        ProductBits(x, m - 1, i - 1);
      }
    }
  }

  lemma {:induction false} ComplementBits(x: nat, k: nat, i: nat)
    requires x < Pow2(k) && i < k
    ensures Bit(Pow2(k) - 1 - x, i) <==> !Bit(x, i)
  {
    var y := Pow2(k) - 1 - x;
    assert y / 2 == Pow2(k - 1) - 1 - x / 2 && y % 2 == 1 - x % 2;
    if i == 0 {
      BitOfHalf(x, 0);
      BitOfHalf(y, 0);
    } else {
      ComplementBits(x / 2, k - 1, i - 1);
      BitOfHalf(x, i - 1);
      BitOfHalf(y, i - 1);
    }
  }

  lemma NoBitAbove(x: Word, i: nat)
    ensures i >= 32 ==> !Bit(x, i)
  {
    TwoTo32();
    DivModUnique(x, TWO_32, 0, x);
    ModBits(x, 32, i);
  }

  /** A shift moves every bit down and drops the lowest ones; a rotation puts those on top. */
  lemma ShiftBits(x: Word, n: nat, i: nat)
    requires n <= 32 && i < 32
    ensures Bit(ShiftRight(x, n), i) <==> i + n < 32 && Bit(x, i + n)
    ensures Bit(RotR(x, n), i) <==> Bit(x, (i + n) % 32)
  {
    hide Bit;
    DivBits(x, n, i);
    NoBitAbove(x, i + n);
    TwoTo32();
    ProductBits(x, 32 - n, i);
    ModBits(x * Pow2(32 - n), 32, i);
    OperatorBits(ShiftRight(x, n), Mod(x * Pow2(32 - n)), i);
    Around(i, n);
  }

  lemma Around(i: nat, n: nat)
    requires i < 32 && n <= 32
    ensures (i + n) % 32 == if i + n < 32 then i + n else i + n - 32
  {
  }

  /** Ch takes each bit from `y` where `x` has a one and from `z` where it has a zero; Maj takes the majority. */
  lemma ChoiceBits(x: Word, y: Word, z: Word, i: nat)
    requires i < 32
    ensures Bit(Ch(x, y, z), i) <==> if Bit(x, i) then Bit(y, i) else Bit(z, i)
    ensures Bit(Maj(x, y, z), i) <==>
            (Bit(x, i) && Bit(y, i)) || (Bit(x, i) && Bit(z, i)) || (Bit(y, i) && Bit(z, i))
  {
    hide Bit;
    TwoTo32();
    ComplementBits(x, 32, i);
    OperatorBits(x, y, i);
    OperatorBits(WordNot(x), z, i);
    OperatorBits(WordAnd(x, y), WordAnd(WordNot(x), z), i);
    OperatorBits(x, z, i);
    OperatorBits(y, z, i);
    OperatorBits(WordAnd(x, y), WordAnd(x, z), i);
    OperatorBits(WordXor(WordAnd(x, y), WordAnd(x, z)), WordAnd(y, z), i);
  }

  /** Each sigma function adds three bits of the word modulo two. */
  predicate OddOf(a: bool, b: bool, c: bool) { (a != b) != c }

  lemma SigmaBits(x: Word, i: nat)
    requires i < 32
    ensures Bit(BigSigma0(x), i) <==> OddOf(Bit(x, (i + 2) % 32), Bit(x, (i + 13) % 32), Bit(x, (i + 22) % 32))
    ensures Bit(BigSigma1(x), i) <==> OddOf(Bit(x, (i + 6) % 32), Bit(x, (i + 11) % 32), Bit(x, (i + 25) % 32))
    ensures Bit(SmallSigma0(x), i) <==>
            OddOf(Bit(x, (i + 7) % 32), Bit(x, (i + 18) % 32), i + 3 < 32 && Bit(x, i + 3))
    ensures Bit(SmallSigma1(x), i) <==>
            OddOf(Bit(x, (i + 17) % 32), Bit(x, (i + 19) % 32), i + 10 < 32 && Bit(x, i + 10))
  {
    hide Bit, RotR, ShiftRight;
    SumBits(x, 2, 13, 22, i);
    SumBits(x, 6, 11, 25, i);
    PartBits(x, 7, 18, 3, i);
    PartBits(x, 17, 19, 10, i);
  }

  lemma SumBits(x: Word, a: nat, b: nat, c: nat, i: nat)
    requires a <= 32 && b <= 32 && c <= 32 && i < 32
    ensures Bit(WordXor(WordXor(RotR(x, a), RotR(x, b)), RotR(x, c)), i) <==>
            OddOf(Bit(x, (i + a) % 32), Bit(x, (i + b) % 32), Bit(x, (i + c) % 32))
  {
    hide Bit, RotR, ShiftRight;
    ShiftBits(x, a, i);
    ShiftBits(x, b, i);
    ShiftBits(x, c, i);
    OperatorBits(RotR(x, a), RotR(x, b), i);
    OperatorBits(WordXor(RotR(x, a), RotR(x, b)), RotR(x, c), i);
  }

  lemma PartBits(x: Word, a: nat, b: nat, c: nat, i: nat)
    requires a <= 32 && b <= 32 && c <= 32 && i < 32
    ensures Bit(WordXor(WordXor(RotR(x, a), RotR(x, b)), ShiftRight(x, c)), i) <==>
            OddOf(Bit(x, (i + a) % 32), Bit(x, (i + b) % 32), i + c < 32 && Bit(x, i + c))
  {
    hide Bit, RotR, ShiftRight;
    ShiftBits(x, a, i);
    ShiftBits(x, b, i);
    ShiftBits(x, c, i);
    OperatorBits(RotR(x, a), RotR(x, b), i);
    OperatorBits(WordXor(RotR(x, a), RotR(x, b)), ShiftRight(x, c), i);
  }
}
