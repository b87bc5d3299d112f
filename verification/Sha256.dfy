/** SHA-256 as FIPS 180-4 defines it, on words that are integers below 2^32. */
module Fips180 {
  import opened JsNumbers

  type Word = n: int | 0 <= n < 0x1_0000_0000

  // Section 4.2.2
  function RoundConstants(): (k: seq<Word>)
    ensures |k| == 64
  {
    [0x428a2f98, 0x71374491, 0xb5c0fbcf, 0xe9b5dba5, 0x3956c25b, 0x59f111f1, 0x923f82a4, 0xab1c5ed5] +
    [0xd807aa98, 0x12835b01, 0x243185be, 0x550c7dc3, 0x72be5d74, 0x80deb1fe, 0x9bdc06a7, 0xc19bf174] +
    [0xe49b69c1, 0xefbe4786, 0x0fc19dc6, 0x240ca1cc, 0x2de92c6f, 0x4a7484aa, 0x5cb0a9dc, 0x76f988da] +
    [0x983e5152, 0xa831c66d, 0xb00327c8, 0xbf597fc7, 0xc6e00bf3, 0xd5a79147, 0x06ca6351, 0x14292967] +
    [0x27b70a85, 0x2e1b2138, 0x4d2c6dfc, 0x53380d13, 0x650a7354, 0x766a0abb, 0x81c2c92e, 0x92722c85] +
    [0xa2bfe8a1, 0xa81a664b, 0xc24b8b70, 0xc76c51a3, 0xd192e819, 0xd6990624, 0xf40e3585, 0x106aa070] +
    [0x19a4c116, 0x1e376c08, 0x2748774c, 0x34b0bcb5, 0x391c0cb3, 0x4ed8aa4a, 0x5b9cca4f, 0x682e6ff3] +
    [0x748f82ee, 0x78a5636f, 0x84c87814, 0x8cc70208, 0x90befffa, 0xa4506ceb, 0xbef9a3f7, 0xc67178f2]
  }

  // Section 5.3.3
  const H0: Vars := Vars(
    0x6a09e667, 0xbb67ae85, 0x3c6ef372, 0xa54ff53a, 0x510e527f, 0x9b05688c, 0x1f83d9ab, 0x5be0cd19)

  datatype Vars = Vars(a: Word, b: Word, c: Word, d: Word, e: Word, f: Word, g: Word, h: Word)

  // Section 3.2: addition modulo 2^32, rotation, shift, and the operators on 32-bit words.
  function Mod(n: nat): Word { n % TWO_32 }

  function WordXor(x: Word, y: Word): Word {
    XorWord(x, y);
    Xor(x, y)
  }

  function WordAnd(x: Word, y: Word): Word {
    AndWord(x, y);
    And(x, y)
  }

  function WordOr(x: Word, y: Word): Word {
    OrWord(x, y);
    Or(x, y)
  }

  function WordNot(x: Word): Word { TWO_32 - 1 - x }

  function ShiftRight(x: Word, n: nat): Word {
    DivShrinks(x, Pow2(n));
    x / Pow2(n)
  }

  function RotR(x: Word, n: nat): Word
    requires n <= 32
  {
    WordOr(ShiftRight(x, n), Mod(x * Pow2(32 - n)))
  }

  lemma TwoTo32()
    ensures Pow2(32) == TWO_32
  {
    Pow2Values();
    assert Pow2(20) == 4 * Pow2(18);
    assert Pow2(24) == 16 * Pow2(20) by { assert Pow2(22) == 4 * Pow2(20); }
    assert Pow2(28) == 16 * Pow2(24) by { assert Pow2(26) == 4 * Pow2(24); }
    assert Pow2(32) == 16 * Pow2(28) by { assert Pow2(30) == 4 * Pow2(28); }
  }

  lemma XorWord(x: Word, y: Word)
    ensures Xor(x, y) < TWO_32
  {
    TwoTo32();
    BitsBelow(x, y, 32);
  }

  lemma AndWord(x: Word, y: Word)
    ensures And(x, y) < TWO_32
  {
    TwoTo32();
    BitsBelow(x, y, 32);
  }

  lemma OrWord(x: Word, y: Word)
    ensures Or(x, y) < TWO_32
  {
    TwoTo32();
    BitsBelow(x, y, 32);
  }

  // Section 4.1.2
  function Ch(x: Word, y: Word, z: Word): Word { WordXor(WordAnd(x, y), WordAnd(WordNot(x), z)) }

  function Maj(x: Word, y: Word, z: Word): Word { WordXor(WordXor(WordAnd(x, y), WordAnd(x, z)), WordAnd(y, z)) }

  function BigSigma0(x: Word): Word { WordXor(WordXor(RotR(x, 2), RotR(x, 13)), RotR(x, 22)) }

  function BigSigma1(x: Word): Word { WordXor(WordXor(RotR(x, 6), RotR(x, 11)), RotR(x, 25)) }

  function SmallSigma0(x: Word): Word { WordXor(WordXor(RotR(x, 7), RotR(x, 18)), ShiftRight(x, 3)) }

  function SmallSigma1(x: Word): Word { WordXor(WordXor(RotR(x, 17), RotR(x, 19)), ShiftRight(x, 10)) }

  // Section 5.1.1, in bytes: the single 1 bit, zeros up to 56 modulo 64, and the length in 64 bits.
  function Zeros(n: nat): seq<Byte> { seq(n, _ => 0) }

  function BigEndian32(w: Word): seq<Byte> { [w / 0x100_0000, w / 0x1_0000 % 0x100, w / 0x100 % 0x100, w % 0x100] }

  function BigEndian64(n: nat): seq<Byte> { BigEndian32(Mod(n / TWO_32)) + BigEndian32(Mod(n)) }

  function Pad(m: seq<Byte>): seq<Byte> {
    m + [0x80] + Zeros((55 - |m|) % 64) + BigEndian64(8 * |m|)
  }

  // Section 6.2.2, step 1
  function WordAt(bytes: seq<Byte>, i: nat): Word
    requires i + 4 <= |bytes|
  {
    bytes[i] as int * 0x100_0000 + bytes[i + 1] as int * 0x1_0000 + bytes[i + 2] as int * 0x100 + bytes[i + 3]
  }

  function NextWord(w: seq<Word>): Word
    requires |w| >= 16
  {
    var t := |w|;
    Mod(SmallSigma1(w[t - 2]) + w[t - 7] + SmallSigma0(w[t - 15]) + w[t - 16])
  }

  /** The first `t` words of the message schedule of the 64-byte block at `offset`. */
  function Schedule(bytes: seq<Byte>, offset: nat, t: nat): (w: seq<Word>)
    requires offset + 64 <= |bytes| && t <= 64
    ensures |w| == t
  {
    if t == 0 then []
    else
      var w := Schedule(bytes, offset, t - 1);
      w + [if t <= 16 then WordAt(bytes, offset + (t - 1) * 4) else NextWord(w)]
  }

  // Step 3
  function T1(v: Vars, k: Word, w: Word): nat { v.h + BigSigma1(v.e) + Ch(v.e, v.f, v.g) + k + w }

  function T2(v: Vars): nat { BigSigma0(v.a) + Maj(v.a, v.b, v.c) }

  function Round(v: Vars, k: Word, w: Word): Vars {
    Vars(Mod(T1(v, k, w) + T2(v)), v.a, v.b, v.c, Mod(v.d + T1(v, k, w)), v.e, v.f, v.g)
  }

  function Rounds(v: Vars, k: seq<Word>, w: seq<Word>, t: nat): Vars
    requires |k| == |w| == 64 && t <= 64
  {
    if t == 0 then v else Round(Rounds(v, k, w, t - 1), k[t - 1], w[t - 1])
  }

  // Step 4
  function AddVars(u: Vars, v: Vars): Vars {
    Vars(Mod(u.a + v.a), Mod(u.b + v.b), Mod(u.c + v.c), Mod(u.d + v.d),
         Mod(u.e + v.e), Mod(u.f + v.f), Mod(u.g + v.g), Mod(u.h + v.h))
  }

  /** The hash value after the first `n` blocks. */
  function HashBlocks(bytes: seq<Byte>, n: nat): Vars
    requires n * 64 <= |bytes|
  {
    if n == 0 then H0
    else
      var h := HashBlocks(bytes, n - 1);
      AddVars(h, Rounds(h, RoundConstants(), Schedule(bytes, (n - 1) * 64, 64), 64))
  }

  function Digest(v: Vars): seq<Byte> {
    BigEndian32(v.a) + BigEndian32(v.b) + BigEndian32(v.c) + BigEndian32(v.d) +
    BigEndian32(v.e) + BigEndian32(v.f) + BigEndian32(v.g) + BigEndian32(v.h)
  }

  /** The message digest of a message shorter than 2^64 bits. */
  function Hash(m: seq<Byte>): seq<Byte> {
    Digest(HashBlocks(Pad(m), |Pad(m)| / 64))
  }
}

/** The in-place SHA-256 of src/utils/hash.ts, with JavaScript's signed bitwise results. */
module Sha256 {
  import opened JsNumbers
  import opened Fips180

  // ---------- Signed results against 32-bit words ----------

  lemma UnsignedOfSigned(n: int)
    ensures ToUint32(ToInt32(n)) == ToUint32(n)
  {
  }

  lemma XorAgrees(a: int, b: int)
    ensures ToUint32(JsXor(a, b)) == WordXor(ToUint32(a), ToUint32(b))
  {
    XorWord(ToUint32(a), ToUint32(b));
  }

  lemma AndAgrees(a: int, b: int)
    ensures ToUint32(JsAnd(a, b)) == WordAnd(ToUint32(a), ToUint32(b))
  {
    AndWord(ToUint32(a), ToUint32(b));
  }

  lemma OrAgrees(a: int, b: int)
    ensures ToUint32(JsOr(a, b)) == WordOr(ToUint32(a), ToUint32(b))
  {
    OrWord(ToUint32(a), ToUint32(b));
  }

  lemma NotAgrees(a: Word)
    ensures ToUint32(JsNot(a)) == WordNot(a)
  {
  }

  function RightRotate(value: int, bits: nat): int
    requires bits <= 32
  {
    JsOr(JsShr(value, bits), JsShl(value, 32 - bits))
  }

  lemma ShrAgrees(x: Word, n: nat)
    ensures JsShr(x, n) == ShiftRight(x, n) == ToUint32(ShiftRight(x, n))
  {
  }

  /** Whatever its sign, the rotation of a word has the bits of ROTR. */
  lemma RotateAgrees(x: Word, n: nat)
    requires n <= 32
    ensures ToUint32(RightRotate(x, n)) == RotR(x, n)
  {
    ShrAgrees(x, n);
    WordIsUnsigned(x);
    UnsignedOfSigned(x * Pow2(32 - n));
    OrAgrees(JsShr(x, n), JsShl(x, 32 - n));
  }

  lemma XorThree(a: int, b: int, c: int)
    ensures ToUint32(JsXor(JsXor(a, b), c)) == WordXor(WordXor(ToUint32(a), ToUint32(b)), ToUint32(c))
  {
    XorAgrees(a, b);
    XorAgrees(JsXor(a, b), c);
  }

  lemma RotateThree(x: Word, i: nat, j: nat, k: nat)
    requires i <= 32 && j <= 32 && k <= 32
    ensures ToUint32(JsXor(JsXor(RightRotate(x, i), RightRotate(x, j)), RightRotate(x, k)))
         == WordXor(WordXor(RotR(x, i), RotR(x, j)), RotR(x, k))
  {
    RotateAgrees(x, i);
    RotateAgrees(x, j);
    RotateAgrees(x, k);
    XorThree(RightRotate(x, i), RightRotate(x, j), RightRotate(x, k));
  }

  lemma RotateShift(x: Word, i: nat, j: nat, k: nat)
    requires i <= 32 && j <= 32
    ensures ToUint32(JsXor(JsXor(RightRotate(x, i), RightRotate(x, j)), JsShr(x, k)))
         == WordXor(WordXor(RotR(x, i), RotR(x, j)), ShiftRight(x, k))
  {
    RotateAgrees(x, i);
    RotateAgrees(x, j);
    ShrAgrees(x, k);
    XorThree(RightRotate(x, i), RightRotate(x, j), JsShr(x, k));
  }

  lemma WordIsUnsigned(x: Word)
    ensures ToUint32(x) == x
  {
  }

  lemma ChAgrees(e: Word, f: Word, g: Word)
    ensures ToUint32(JsXor(JsAnd(e, f), JsAnd(JsNot(e), g))) == Ch(e, f, g)
  {
    WordIsUnsigned(e);
    WordIsUnsigned(f);
    WordIsUnsigned(g);
    AndAgrees(e, f);
    NotAgrees(e);
    AndAgrees(JsNot(e), g);
    XorAgrees(JsAnd(e, f), JsAnd(JsNot(e), g));
  }

  lemma MajAgrees(a: Word, b: Word, c: Word)
    ensures ToUint32(JsXor(JsXor(JsAnd(a, b), JsAnd(a, c)), JsAnd(b, c))) == Maj(a, b, c)
  {
    WordIsUnsigned(a);
    WordIsUnsigned(b);
    WordIsUnsigned(c);
    AndAgrees(a, b);
    AndAgrees(a, c);
    AndAgrees(b, c);
    XorThree(JsAnd(a, b), JsAnd(a, c), JsAnd(b, c));
  }

  lemma SumMod(n: nat, s: int)
    ensures ToUint32(n + s) == Mod(n + ToUint32(s))
  {
  }

  lemma SumModTwo(n: nat, s: int, t: int)
    ensures ToUint32(n + s + t) == Mod(n + ToUint32(s) + ToUint32(t))
  {
    SumMod(n + ToUint32(s), t);
    assert (n + s + t) % TWO_32 == (n + ToUint32(s) + t) % TWO_32;
  }

  // ---------- The expressions of the two loops ----------

  method ScheduleSigma0(x: Word) returns (s0: int)
    ensures ToUint32(s0) == SmallSigma0(x)
  {
    RotateShift(x, 7, 18, 3);
    s0 := JsXor(JsXor(RightRotate(x, 7), RightRotate(x, 18)), JsShr(x, 3));
  }

  method ScheduleSigma1(x: Word) returns (s1: int)
    ensures ToUint32(s1) == SmallSigma1(x)
  {
    RotateShift(x, 17, 19, 10);
    s1 := JsXor(JsXor(RightRotate(x, 17), RightRotate(x, 19)), JsShr(x, 10));
  }

  method RoundSigma0(a: Word) returns (s0: int)
    ensures ToUint32(s0) == BigSigma0(a)
  {
    RotateThree(a, 2, 13, 22);
    s0 := JsXor(JsXor(RightRotate(a, 2), RightRotate(a, 13)), RightRotate(a, 22));
  }

  method RoundSigma1(e: Word) returns (s1: int)
    ensures ToUint32(s1) == BigSigma1(e)
  {
    RotateThree(e, 6, 11, 25);
    s1 := JsXor(JsXor(RightRotate(e, 6), RightRotate(e, 11)), RightRotate(e, 25));
  }

  method Choose(e: Word, f: Word, g: Word) returns (ch: int)
    ensures ToUint32(ch) == Ch(e, f, g)
  {
    ChAgrees(e, f, g);
    ch := JsXor(JsAnd(e, f), JsAnd(JsNot(e), g));
  }

  method Majority(a: Word, b: Word, c: Word) returns (maj: int)
    ensures ToUint32(maj) == Maj(a, b, c)
  {
    MajAgrees(a, b, c);
    maj := JsXor(JsXor(JsAnd(a, b), JsAnd(a, c)), JsAnd(b, c));
  }

  /** `n >>> 0` */
  function Unsigned(n: int): Word { n % TWO_32 }

  // ---------- Message schedule ----------

  method ScheduleWord(words: array<Word>, i: nat) returns (w: Word)
    requires words.Length == 64 && 16 <= i < 64
    ensures w == NextWord(words[..i])
  {
    var s0 := ScheduleSigma0(words[i - 15]);
    var s1 := ScheduleSigma1(words[i - 2]);
    SumModTwo(words[i - 16] as int + words[i - 7], s0, s1);
    w := Unsigned(words[i - 16] + s0 + words[i - 7] + s1);
  }

  lemma ScheduleGrows(bytes: seq<Byte>, offset: nat, before: seq<Word>, after: seq<Word>, w: Word)
    requires offset + 64 <= |bytes| && |before| < 64
    requires before == Schedule(bytes, offset, |before|) && after == before + [w]
    requires w == if |before| < 16 then WordAt(bytes, offset + |before| * 4) else NextWord(before)
    ensures after == Schedule(bytes, offset, |after|)
  {
  }

  method FillSchedule(words: array<Word>, padded: array<Byte>, offset: nat)
    requires words.Length == 64 && offset + 64 <= padded.Length
    modifies words
    ensures words[..] == Schedule(padded[..], offset, 64)
  {
    hide NextWord, WordAt;
    for i := 0 to 16
      invariant words[..i] == Schedule(padded[..], offset, i)
    {
      ghost var before := words[..i];
      words[i] := WordAt(padded[..], offset + i * 4);
      ScheduleGrows(padded[..], offset, before, words[..i + 1], words[i]);
    }
    for i := 16 to 64
      invariant words[..i] == Schedule(padded[..], offset, i)
    {
      ghost var before := words[..i];
      var w := ScheduleWord(words, i);
      words[i] := w;
      ScheduleGrows(padded[..], offset, before, words[..i + 1], w);
    }
    assert words[..64] == words[..];
  }

  // ---------- Compression ----------

  method RoundTemps(v: Vars, k: Word, w: Word) returns (temp1: Word, temp2: Word)
    ensures temp1 == Mod(T1(v, k, w)) && temp2 == Mod(T2(v))
  {
    var s1 := RoundSigma1(v.e);
    var ch := Choose(v.e, v.f, v.g);
    SumModTwo(v.h as int + k + w, s1, ch);
    temp1 := Unsigned(v.h + s1 + ch + k + w);
    var s0 := RoundSigma0(v.a);
    var maj := Majority(v.a, v.b, v.c);
    SumModTwo(0, s0, maj);
    temp2 := Unsigned(s0 + maj);
  }

  lemma CarryMod(t1: nat, t2: nat, d: nat)
    ensures Unsigned(Mod(t1) + Mod(t2)) == Mod(t1 + t2)
    ensures Unsigned(d + Mod(t1)) == Mod(d + t1)
  {
  }

  /** `now` are the working variables after the first `t` rounds from `v`. */
  ghost predicate AfterRounds(v: Vars, constants: seq<Word>, words: seq<Word>, t: nat, now: Vars) {
    |constants| == |words| == 64 && t <= 64 && now == Rounds(v, constants, words, t)
  }

  lemma OneMoreRound(v: Vars, constants: seq<Word>, words: seq<Word>, t: nat, now: Vars, temp1: Word, temp2: Word)
    requires t < 64 && AfterRounds(v, constants, words, t, now)
    requires temp1 == Mod(T1(now, constants[t], words[t])) && temp2 == Mod(T2(now))
    ensures AfterRounds(v, constants, words, t + 1,
              Vars(Unsigned(temp1 + temp2), now.a, now.b, now.c, Unsigned(now.d + temp1), now.e, now.f, now.g))
  {
    hide T1, T2;
    CarryMod(T1(now, constants[t], words[t]), T2(now), now.d);
    assert Rounds(v, constants, words, t + 1) == Round(now, constants[t], words[t]);
  }

  /** The 64 rounds on the eight working variables. */
  method Compress(v: Vars, constants: seq<Word>, words: array<Word>) returns (r: Vars)
    requires |constants| == words.Length == 64
    ensures r == Rounds(v, constants, words[..], 64)
  {
    hide T1, T2, Round;
    var a: Word, b: Word, c: Word, d: Word := v.a, v.b, v.c, v.d;
    var e: Word, f: Word, g: Word, h: Word := v.e, v.f, v.g, v.h;
    var i := 0;
    while i < 64
      invariant 0 <= i <= 64
      invariant AfterRounds(v, constants, words[..], i, Vars(a, b, c, d, e, f, g, h))
    {
      var temp1, temp2 := RoundTemps(Vars(a, b, c, d, e, f, g, h), constants[i], words[i]);
      OneMoreRound(v, constants, words[..], i, Vars(a, b, c, d, e, f, g, h), temp1, temp2);
      h := g;
      g := f;
      f := e;
      e := Unsigned(d as int + temp1);
      d := c;
      c := b;
      b := a;
      a := Unsigned(temp1 as int + temp2);
      i := i + 1;
    }
    r := Vars(a, b, c, d, e, f, g, h);
  }

  // ---------- Padding ----------

  function PaddedLength(n: nat): nat { (n + 9 + 63) / 64 * 64 }

  /** The buffer the code hashes: only the low 32 bits of the bit length are written. */
  function CodePad(m: seq<Byte>): seq<Byte> {
    m + [0x80] + Zeros(PaddedLength(|m|) - |m| - 5) + BigEndian32(Mod(8 * |m|))
  }

  method SetUint32(a: array<Byte>, offset: nat, value: nat)
    requires offset + 4 <= a.Length
    modifies a
    ensures a[..] == old(a[..offset]) + BigEndian32(Mod(value)) + old(a[offset + 4..])
  {
    var w := Mod(value);
    a[offset], a[offset + 1] := w / 0x100_0000, w / 0x1_0000 % 0x100;
    a[offset + 2], a[offset + 3] := w / 0x100 % 0x100, w % 0x100;
  }

  method PadMessage(message: seq<Byte>) returns (padded: array<Byte>)
    ensures fresh(padded) && padded[..] == CodePad(message)
  {
    var bitLength := |message| * 8;
    var paddedLength := PaddedLength(|message|);
    padded := new Byte[paddedLength](_ => 0);
    forall i | 0 <= i < |message| {
      padded[i] := message[i];
    }
    padded[|message|] := 0x80;
    assert padded[..paddedLength - 4] == message + [0x80] + Zeros(paddedLength - |message| - 5);
    SetUint32(padded, paddedLength - 4, bitLength);
  }

  lemma PadArithmetic(n: nat)
    ensures n + 9 + (55 - n) % 64 == PaddedLength(n) && PaddedLength(n) % 64 == 0
  {
    var q, r := n / 64, n % 64;
    if r <= 55 {
      assert (55 - n) % 64 == 55 - r && (n + 72) / 64 == q + 1;
    } else {
      assert (55 - n) % 64 == 119 - r && (n + 72) / 64 == q + 2;
    }
  }

  lemma PadLengths(m: seq<Byte>)
    ensures |Pad(m)| == |CodePad(m)| == PaddedLength(|m|) && PaddedLength(|m|) % 64 == 0
  {
    PadArithmetic(|m|);
  }

  /** The buffer is the padding of section 5.1.1 exactly when the bit length fits 32 bits. */
  lemma PaddingConforms(m: seq<Byte>)
    requires 8 * |m| < 0x1_0000_0000_0000_0000
    ensures CodePad(m) == Pad(m) <==> |m| < 0x2000_0000
  {
    PadLengths(m);
    var n := PaddedLength(|m|);
    var high := 8 * |m| / TWO_32;
    PadArithmetic(|m|);
    assert Pad(m)[n - 8..n - 4] == BigEndian32(Mod(high));
    assert CodePad(m)[n - 8..n - 4] == BigEndian32(0);
    if CodePad(m) == Pad(m) {
      BigEndianInjective(Mod(high), 0);
    }
    if |m| < 0x2000_0000 {
      assert high == 0;
      assert Zeros((55 - |m|) % 64) + BigEndian32(0) == Zeros(n - |m| - 5);
    }
  }

  lemma BigEndianValue(w: Word)
    ensures WordAt(BigEndian32(w), 0) == w
  {
    var x := w / 0x100;
    var y := x / 0x100;
    assert y == w / 0x1_0000 && y / 0x100 == w / 0x100_0000;
  }

  lemma BigEndianInjective(v: Word, w: Word)
    requires BigEndian32(v) == BigEndian32(w)
    ensures v == w
  {
    BigEndianValue(v);
    BigEndianValue(w);
  }

  /** The code's own buffer determines the message, beyond 2^29 bytes as well. */
  lemma CodePadInjective(m: seq<Byte>, n: seq<Byte>)
    requires CodePad(m) == CodePad(n)
    ensures m == n
  {
    PadLengths(m);
    PadLengths(n);
    var p := PaddedLength(|m|);
    PadArithmetic(|m|);
    PadArithmetic(|n|);
    assert CodePad(m)[p - 4..] == BigEndian32(Mod(8 * |m|));
    assert CodePad(n)[p - 4..] == BigEndian32(Mod(8 * |n|));
    BigEndianInjective(Mod(8 * |m|), Mod(8 * |n|));
    SameLength(|m|, |n|);
    assert m == CodePad(m)[..|m|] && n == CodePad(n)[..|n|];
  }

  lemma SameLength(x: nat, y: nat)
    requires PaddedLength(x) == PaddedLength(y) && Mod(8 * x) == Mod(8 * y)
    ensures x == y
  {
    assert -64 < x - y < 64;
  }

  // ---------- The hash ----------

  function CodeHash(m: seq<Byte>): seq<Byte> {
    PadLengths(m);
    Digest(HashBlocks(CodePad(m), PaddedLength(|m|) / 64))
  }

  function StateVars(s: seq<Word>): Vars
    requires |s| == 8
  {
    Vars(s[0], s[1], s[2], s[3], s[4], s[5], s[6], s[7])
  }

  /** One iteration of the block loop: schedule, 64 rounds, and the sums into `state`. */
  method HashBlock(state: array<Word>, words: array<Word>, padded: array<Byte>, offset: nat)
    requires state.Length == 8 && words.Length == 64 && offset + 64 <= padded.Length && state != words
    modifies state, words
    ensures var h := StateVars(old(state[..]));
            StateVars(state[..]) == AddVars(h, Rounds(h, RoundConstants(), Schedule(padded[..], offset, 64), 64))
  {
    hide Rounds, Schedule, RoundConstants;
    FillSchedule(words, padded, offset);
    ghost var h := StateVars(state[..]);
    var r := Compress(StateVars(state[..]), RoundConstants(), words);
    state[0] := Unsigned(state[0] as int + r.a);
    state[1] := Unsigned(state[1] as int + r.b);
    state[2] := Unsigned(state[2] as int + r.c);
    state[3] := Unsigned(state[3] as int + r.d);
    state[4] := Unsigned(state[4] as int + r.e);
    state[5] := Unsigned(state[5] as int + r.f);
    state[6] := Unsigned(state[6] as int + r.g);
    state[7] := Unsigned(state[7] as int + r.h);
    assert StateVars(state[..]) == AddVars(h, r);
  }

  method WriteDigest(state: array<Word>) returns (output: array<Byte>)
    requires state.Length == 8
    ensures fresh(output) && output[..] == Digest(StateVars(state[..]))
  {
    hide BigEndian32;
    output := new Byte[32](_ => 0);
    ghost var sofar: seq<Byte> := [];
    for i := 0 to 8
      invariant |sofar| == i * 4 && output[..i * 4] == sofar
      invariant sofar == DigestPrefix(state[..], i)
    {
      SetUint32(output, i * 4, state[i]);
      sofar := sofar + BigEndian32(Mod(state[i]));
      assert output[..i * 4 + 4] == sofar;
    }
    DigestIsPrefix(state[..]);
  }

  ghost function DigestPrefix(s: seq<Word>, n: nat): (d: seq<Byte>)
    requires n <= |s|
    ensures |d| == n * 4
  {
    if n == 0 then [] else DigestPrefix(s, n - 1) + BigEndian32(s[n - 1])
  }

  lemma DigestIsPrefix(s: seq<Word>)
    requires |s| == 8
    ensures Digest(StateVars(s)) == DigestPrefix(s, 8)
  {
    hide BigEndian32;
    assert DigestPrefix(s, 2) == BigEndian32(s[0]) + BigEndian32(s[1]);
    assert DigestPrefix(s, 4) == DigestPrefix(s, 2) + BigEndian32(s[2]) + BigEndian32(s[3]);
    assert DigestPrefix(s, 6) == DigestPrefix(s, 4) + BigEndian32(s[4]) + BigEndian32(s[5]);
    assert DigestPrefix(s, 8) == DigestPrefix(s, 6) + BigEndian32(s[6]) + BigEndian32(s[7]);
  }

  lemma NextBlock(bytes: seq<Byte>, offset: nat)
    requires offset % 64 == 0 && offset + 64 <= |bytes|
    ensures (offset + 64) / 64 == offset / 64 + 1
    ensures var h := HashBlocks(bytes, offset / 64);
            HashBlocks(bytes, offset / 64 + 1)
            == AddVars(h, Rounds(h, RoundConstants(), Schedule(bytes, offset, 64), 64))
  {
    hide Rounds, Schedule, AddVars, RoundConstants;
  }

  method InitialState() returns (state: array<Word>)
    ensures fresh(state) && state.Length == 8 && StateVars(state[..]) == H0
  {
    state := new Word[8] [0x6a09e667, 0xbb67ae85, 0x3c6ef372, 0xa54ff53a, 0x510e527f, 0x9b05688c, 0x1f83d9ab,
                          0x5be0cd19];
  }

  /** The loop over the blocks of the buffer. */
  method HashBuffer(padded: array<Byte>) returns (output: array<Byte>)
    requires padded.Length % 64 == 0
    ensures fresh(output) && output[..] == Digest(HashBlocks(padded[..], padded.Length / 64))
  {
    hide Rounds, Schedule, AddVars, RoundConstants, HashBlocks, Digest, StateVars;
    var state := InitialState();
    FirstBlock(padded[..]);
    var words := new Word[64](_ => 0);
    var offset := 0;
    while offset < padded.Length
      invariant 0 <= offset <= padded.Length && offset % 64 == 0
      invariant padded[..] == old(padded[..])
      invariant StateVars(state[..]) == HashBlocks(padded[..], offset / 64)
    {
      NextBlock(padded[..], offset);
      HashBlock(state, words, padded, offset);
      offset := offset + 64;
    }
    output := WriteDigest(state);
  }

  lemma FirstBlock(bytes: seq<Byte>)
    ensures HashBlocks(bytes, 0) == H0
  {
  }

  method Sha256(message: seq<Byte>) returns (output: array<Byte>)
    ensures output[..] == CodeHash(message)
    ensures |message| < 0x2000_0000 ==> output[..] == Hash(message)
  {
    hide HashBlocks, CodePad, Pad, Digest, PaddedLength;
    var padded := PadMessage(message);
    PadLengths(message);
    output := HashBuffer(padded);
    if |message| < 0x2000_0000 {
      PaddingConforms(message);
    }
  }
}
