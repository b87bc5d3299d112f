/** Where the constants of FIPS 180-4 come from: sections 4.2.2 and 5.3.3. */
module Fips180Tables {
  import opened JsNumbers
  import opened Fips180

  // ---------- The first sixty-four primes ----------

  ghost predicate Prime(p: nat) { p >= 2 && forall d | 2 <= d < p :: p % d != 0 }

  function FirstPrimes(): (p: seq<nat>)
    ensures |p| == 64
  {
    [2, 3, 5, 7, 11, 13, 17, 19] +
    [23, 29, 31, 37, 41, 43, 47, 53] +
    [59, 61, 67, 71, 73, 79, 83, 89] +
    [97, 101, 103, 107, 109, 113, 127, 131] +
    [137, 139, 149, 151, 157, 163, 167, 173] +
    [179, 181, 191, 193, 197, 199, 211, 223] +
    [227, 229, 233, 239, 241, 251, 257, 263] +
    [269, 271, 277, 281, 283, 293, 307, 311]
  }

  /** Divisible by one of the primes below 18, other than by itself. */
  predicate SmallDivisor(p: nat) {
    || (p % 2 == 0 && p > 2) || (p % 3 == 0 && p > 3) || (p % 5 == 0 && p > 5) || (p % 7 == 0 && p > 7)
    || (p % 11 == 0 && p > 11) || (p % 13 == 0 && p > 13) || (p % 17 == 0 && p > 17)
  }

  lemma ProductMod(e: nat, d: nat)
    requires d > 0
    ensures e * d % d == 0
  {
    DivModUnique(e * d, d, e, 0);
  }

  lemma MultipleOf(p: nat, e: nat, d: nat)
    requires p == e * d && d > 0
    ensures p % d == 0
  {
    ProductMod(e, d);
  }

  /** A composite number has a divisor among the primes below 18 if it has one below 18. */
  lemma DivisorBelow18(p: nat, d: nat)
    requires 2 <= d < 18 && d < p && p % d == 0
    ensures SmallDivisor(p)
  {
    var e := p / d;
    assert p == e * d;
    if d % 2 == 0 {
      assert p == e * (d / 2) * 2;
      MultipleOf(p, e * (d / 2), 2);
    } else if d % 3 == 0 {
      assert p == e * (d / 3) * 3;
      MultipleOf(p, e * (d / 3), 3);
    }
  }

  lemma ProductBounds(e: int, d: nat)
    ensures e >= 18 && d >= 18 ==> e * d >= 324
    ensures e <= 1 ==> e * d <= d
  {
    if e >= 18 && d >= 18 {
      assert e * d >= 18 * d;
    }
    if e <= 1 {
      assert (1 - e) * d >= 0;
    }
  }

  lemma CoDivisor(p: nat, d: nat)
    requires 18 <= d < p < 324 && p % d == 0
    ensures 2 <= p / d < 18 && p % (p / d) == 0
  {
    var e := p / d;
    assert p == e * d == d * e;
    ProductBounds(e, d);
    ProductMod(d, e);
  }

  /** Below 18 * 18 no other divisors need to be tried. */
  lemma PrimeBelow324(p: nat)
    requires 2 <= p < 324
    ensures Prime(p) <==> !SmallDivisor(p)
  {
    if !Prime(p) {
      var d :| 2 <= d < p && p % d == 0;
      if d < 18 {
        DivisorBelow18(p, d);
      } else {
        CoDivisor(p, d);
        DivisorBelow18(p, p / d);
      }
    }
  }

  lemma PrimesOfRow0(p: nat)
    requires 2 <= p < 20
    ensures !SmallDivisor(p) <==> p in {2, 3, 5, 7, 11, 13, 17, 19}
  {
    match p
    case 2 | 3 | 4 | 5 | 6 | 7 | 8 | 9 | 10 | 11 | 12 | 13 | 14 | 15 | 16 | 17 | 18 | 19 =>
  }

  lemma PrimesOfRow1(p: nat)
    requires 20 <= p < 54
    ensures !SmallDivisor(p) <==> p in {23, 29, 31, 37, 41, 43, 47, 53}
  {
    match p
    case 20 | 21 | 22 | 23 | 24 | 25 | 26 | 27 | 28 | 29 | 30 | 31 | 32 | 33 | 34 | 35 | 36 | 37 | 38 | 39 | 40 | 41 |
         42 | 43 | 44 | 45 | 46 | 47 | 48 | 49 | 50 | 51 | 52 | 53 =>
  }

  lemma PrimesOfRow2(p: nat)
    requires 54 <= p < 90
    ensures !SmallDivisor(p) <==> p in {59, 61, 67, 71, 73, 79, 83, 89}
  {
    match p
    case 54 | 55 | 56 | 57 | 58 | 59 | 60 | 61 | 62 | 63 | 64 | 65 | 66 | 67 | 68 | 69 | 70 | 71 | 72 | 73 | 74 | 75 |
         76 | 77 | 78 | 79 | 80 | 81 | 82 | 83 | 84 | 85 | 86 | 87 | 88 | 89 =>
  }

  lemma PrimesOfRow3(p: nat)
    requires 90 <= p < 132
    ensures !SmallDivisor(p) <==> p in {97, 101, 103, 107, 109, 113, 127, 131}
  {
    match p
    case 90 | 91 | 92 | 93 | 94 | 95 | 96 | 97 | 98 | 99 | 100 | 101 | 102 | 103 | 104 | 105 | 106 | 107 | 108 | 109 |
         110 | 111 | 112 | 113 | 114 | 115 | 116 | 117 | 118 | 119 | 120 | 121 | 122 | 123 | 124 | 125 | 126 | 127 |
         128 | 129 | 130 | 131 =>
  }

  lemma PrimesOfRow4(p: nat)
    requires 132 <= p < 174
    ensures !SmallDivisor(p) <==> p in {137, 139, 149, 151, 157, 163, 167, 173}
  {
    match p
    case 132 | 133 | 134 | 135 | 136 | 137 | 138 | 139 | 140 | 141 | 142 | 143 | 144 | 145 | 146 | 147 | 148 | 149 |
         150 | 151 | 152 | 153 | 154 | 155 | 156 | 157 | 158 | 159 | 160 | 161 | 162 | 163 | 164 | 165 | 166 | 167 |
         168 | 169 | 170 | 171 | 172 | 173 =>
  }

  lemma PrimesOfRow5(p: nat)
    requires 174 <= p < 224
    ensures !SmallDivisor(p) <==> p in {179, 181, 191, 193, 197, 199, 211, 223}
  {
    match p
    case 174 | 175 | 176 | 177 | 178 | 179 | 180 | 181 | 182 | 183 | 184 | 185 | 186 | 187 | 188 | 189 | 190 | 191 |
         192 | 193 | 194 | 195 | 196 | 197 | 198 | 199 | 200 | 201 | 202 | 203 | 204 | 205 | 206 | 207 | 208 | 209 |
         210 | 211 | 212 | 213 | 214 | 215 | 216 | 217 | 218 | 219 | 220 | 221 | 222 | 223 =>
  }

  lemma PrimesOfRow6(p: nat)
    requires 224 <= p < 264
    ensures !SmallDivisor(p) <==> p in {227, 229, 233, 239, 241, 251, 257, 263}
  {
    match p
    case 224 | 225 | 226 | 227 | 228 | 229 | 230 | 231 | 232 | 233 | 234 | 235 | 236 | 237 | 238 | 239 | 240 | 241 |
         242 | 243 | 244 | 245 | 246 | 247 | 248 | 249 | 250 | 251 | 252 | 253 | 254 | 255 | 256 | 257 | 258 | 259 |
         260 | 261 | 262 | 263 =>
  }

  lemma PrimesOfRow7(p: nat)
    requires 264 <= p < 312
    ensures !SmallDivisor(p) <==> p in {269, 271, 277, 281, 283, 293, 307, 311}
  {
    match p
    case 264 | 265 | 266 | 267 | 268 | 269 | 270 | 271 | 272 | 273 | 274 | 275 | 276 | 277 | 278 | 279 | 280 | 281 |
         282 | 283 | 284 | 285 | 286 | 287 | 288 | 289 | 290 | 291 | 292 | 293 | 294 | 295 | 296 | 297 | 298 | 299 |
         300 | 301 | 302 | 303 | 304 | 305 | 306 | 307 | 308 | 309 | 310 | 311 =>
  }

  lemma PrimesListed(p: nat)
    requires p <= 311
    ensures p in FirstPrimes() <==> p >= 2 && !SmallDivisor(p)
  {
    RowsOfPrimes(p);
    hide FirstPrimes, SmallDivisor;
    if p < 2 {
    } else if p < 20 {
      PrimesOfRow0(p);
    } else if p < 54 {
      PrimesOfRow1(p);
    } else if p < 90 {
      PrimesOfRow2(p);
    } else if p < 132 {
      PrimesOfRow3(p);
    } else if p < 174 {
      PrimesOfRow4(p);
    } else if p < 224 {
      PrimesOfRow5(p);
    } else if p < 264 {
      PrimesOfRow6(p);
    } else {
      PrimesOfRow7(p);
    }
  }

  lemma RowsOfPrimes(p: nat)
    ensures p in FirstPrimes() <==>
              || p in {2, 3, 5, 7, 11, 13, 17, 19}
              || p in {23, 29, 31, 37, 41, 43, 47, 53}
              || p in {59, 61, 67, 71, 73, 79, 83, 89}
              || p in {97, 101, 103, 107, 109, 113, 127, 131}
              || p in {137, 139, 149, 151, 157, 163, 167, 173}
              || p in {179, 181, 191, 193, 197, 199, 211, 223}
              || p in {227, 229, 233, 239, 241, 251, 257, 263}
              || p in {269, 271, 277, 281, 283, 293, 307, 311}
  {
  }

  lemma NoPrimeBelow2(p: nat)
    requires p < 2
    ensures !Prime(p)
  {
  }

  lemma {:induction false} AscendFrom(p: seq<nat>, i: nat, j: nat)
    requires i < j < |p| && forall k | 0 <= k < |p| - 1 :: p[k] < p[k + 1]
    ensures p[i] < p[j]
    decreases j
  {
    if i < j - 1 {
      AscendFrom(p, i, j - 1);
    }
    assert p[j - 1] < p[j - 1 + 1];
  }

  lemma Ascend0()
    ensures forall i | 0 <= i < 16 :: FirstPrimes()[i] < FirstPrimes()[i + 1]
  {
  }

  lemma Ascend16()
    ensures forall i | 16 <= i < 32 :: FirstPrimes()[i] < FirstPrimes()[i + 1]
  {
  }

  lemma Ascend32()
    ensures forall i | 32 <= i < 48 :: FirstPrimes()[i] < FirstPrimes()[i + 1]
  {
  }

  lemma Ascend48()
    ensures forall i | 48 <= i < 63 :: FirstPrimes()[i] < FirstPrimes()[i + 1]
  {
  }

  lemma PrimesAscend()
    ensures forall i, j | 0 <= i < j < 64 :: FirstPrimes()[i] < FirstPrimes()[j]
  {
    hide FirstPrimes;
    var p := FirstPrimes();
    Ascend0();
    Ascend16();
    Ascend32();
    Ascend48();
    forall i, j | 0 <= i < j < 64 ensures p[i] < p[j] {
      AscendFrom(p, i, j);
    }
  }

  /** They are all the primes up to the last of them, in ascending order. */
  lemma FirstPrimesAre()
    ensures forall p: nat | p <= 311 :: Prime(p) <==> p in FirstPrimes()
    ensures forall i, j | 0 <= i < j < 64 :: FirstPrimes()[i] < FirstPrimes()[j]
  {
    hide Prime, FirstPrimes;
    forall p: nat | p <= 311 ensures Prime(p) <==> p in FirstPrimes() {
      PrimesListed(p);
      if p < 2 {
        NoPrimeBelow2(p);
      } else {
        PrimeBelow324(p);
      }
    }
    PrimesAscend();
  }

  // ---------- Roots ----------

  function Cube(x: nat): nat { x * x * x }

  const TWO_64: nat := 0x1_0000_0000_0000_0000
  const TWO_96: nat := 0x1_0000_0000_0000_0000_0000_0000

  /** The cube root of `p` is `n` and the fraction that begins with the thirty-two bits of `k`. */
  predicate CubeRoot(p: nat, n: nat, k: nat) {
    Cube(n * TWO_32 + k) <= p * TWO_96 < Cube(n * TWO_32 + k + 1)
  }

  predicate SquareRoot(p: nat, n: nat, k: nat) {
    (n * TWO_32 + k) * (n * TWO_32 + k) <= p * TWO_64 < (n * TWO_32 + k + 1) * (n * TWO_32 + k + 1)
  }

  ghost predicate CubeRootPart(p: nat, k: Word) { exists n: nat :: CubeRoot(p, n, k) }

  ghost predicate SquareRootPart(p: nat, k: Word) { exists n: nat :: SquareRoot(p, n, k) }

  lemma RootsOfRow0()
    ensures forall i | 0 <= i < 8 :: CubeRootPart(FirstPrimes()[i], RoundConstants()[i])
  {
    var p, k := FirstPrimes()[0..8], RoundConstants()[0..8];
    assert p == [2, 3, 5, 7, 11, 13, 17, 19];
    assert k == [0x428a2f98, 0x71374491, 0xb5c0fbcf, 0xe9b5dba5, 0x3956c25b, 0x59f111f1, 0x923f82a4, 0xab1c5ed5];
    assert CubeRoot(2, 1, 0x428a2f98) && CubeRoot(3, 1, 0x71374491);
    assert CubeRoot(5, 1, 0xb5c0fbcf) && CubeRoot(7, 1, 0xe9b5dba5);
    assert CubeRoot(11, 2, 0x3956c25b) && CubeRoot(13, 2, 0x59f111f1);
    assert CubeRoot(17, 2, 0x923f82a4) && CubeRoot(19, 2, 0xab1c5ed5);
    hide CubeRoot, FirstPrimes, RoundConstants;
    assert forall j | 0 <= j < 8 :: CubeRootPart(p[j], k[j]);
    assert forall i | 0 <= i < 8 :: FirstPrimes()[i] == p[i - 0] && RoundConstants()[i] == k[i - 0];
  }

  lemma RootsOfRow1()
    ensures forall i | 8 <= i < 16 :: CubeRootPart(FirstPrimes()[i], RoundConstants()[i])
  {
    var p, k := FirstPrimes()[8..16], RoundConstants()[8..16];
    assert p == [23, 29, 31, 37, 41, 43, 47, 53];
    assert k == [0xd807aa98, 0x12835b01, 0x243185be, 0x550c7dc3, 0x72be5d74, 0x80deb1fe, 0x9bdc06a7, 0xc19bf174];
    assert CubeRoot(23, 2, 0xd807aa98) && CubeRoot(29, 3, 0x12835b01);
    assert CubeRoot(31, 3, 0x243185be) && CubeRoot(37, 3, 0x550c7dc3);
    assert CubeRoot(41, 3, 0x72be5d74) && CubeRoot(43, 3, 0x80deb1fe);
    assert CubeRoot(47, 3, 0x9bdc06a7) && CubeRoot(53, 3, 0xc19bf174);
    hide CubeRoot, FirstPrimes, RoundConstants;
    assert forall j | 0 <= j < 8 :: CubeRootPart(p[j], k[j]);
    assert forall i | 8 <= i < 16 :: FirstPrimes()[i] == p[i - 8] && RoundConstants()[i] == k[i - 8];
  }

  lemma RootsOfRow2()
    ensures forall i | 16 <= i < 24 :: CubeRootPart(FirstPrimes()[i], RoundConstants()[i])
  {
    var p, k := FirstPrimes()[16..24], RoundConstants()[16..24];
    assert p == [59, 61, 67, 71, 73, 79, 83, 89];
    assert k == [0xe49b69c1, 0xefbe4786, 0x0fc19dc6, 0x240ca1cc, 0x2de92c6f, 0x4a7484aa, 0x5cb0a9dc, 0x76f988da];
    assert CubeRoot(59, 3, 0xe49b69c1) && CubeRoot(61, 3, 0xefbe4786);
    assert CubeRoot(67, 4, 0x0fc19dc6) && CubeRoot(71, 4, 0x240ca1cc);
    assert CubeRoot(73, 4, 0x2de92c6f) && CubeRoot(79, 4, 0x4a7484aa);
    assert CubeRoot(83, 4, 0x5cb0a9dc) && CubeRoot(89, 4, 0x76f988da);
    hide CubeRoot, FirstPrimes, RoundConstants;
    assert forall j | 0 <= j < 8 :: CubeRootPart(p[j], k[j]);
    assert forall i | 16 <= i < 24 :: FirstPrimes()[i] == p[i - 16] && RoundConstants()[i] == k[i - 16];
  }

  lemma RootsOfRow3()
    ensures forall i | 24 <= i < 32 :: CubeRootPart(FirstPrimes()[i], RoundConstants()[i])
  {
    var p, k := FirstPrimes()[24..32], RoundConstants()[24..32];
    assert p == [97, 101, 103, 107, 109, 113, 127, 131];
    assert k == [0x983e5152, 0xa831c66d, 0xb00327c8, 0xbf597fc7, 0xc6e00bf3, 0xd5a79147, 0x06ca6351, 0x14292967];
    assert CubeRoot(97, 4, 0x983e5152) && CubeRoot(101, 4, 0xa831c66d);
    assert CubeRoot(103, 4, 0xb00327c8) && CubeRoot(107, 4, 0xbf597fc7);
    assert CubeRoot(109, 4, 0xc6e00bf3) && CubeRoot(113, 4, 0xd5a79147);
    assert CubeRoot(127, 5, 0x06ca6351) && CubeRoot(131, 5, 0x14292967);
    hide CubeRoot, FirstPrimes, RoundConstants;
    assert forall j | 0 <= j < 8 :: CubeRootPart(p[j], k[j]);
    assert forall i | 24 <= i < 32 :: FirstPrimes()[i] == p[i - 24] && RoundConstants()[i] == k[i - 24];
  }

  lemma RootsOfRow4()
    ensures forall i | 32 <= i < 40 :: CubeRootPart(FirstPrimes()[i], RoundConstants()[i])
  {
    var p, k := FirstPrimes()[32..40], RoundConstants()[32..40];
    assert p == [137, 139, 149, 151, 157, 163, 167, 173];
    assert k == [0x27b70a85, 0x2e1b2138, 0x4d2c6dfc, 0x53380d13, 0x650a7354, 0x766a0abb, 0x81c2c92e, 0x92722c85];
    assert CubeRoot(137, 5, 0x27b70a85) && CubeRoot(139, 5, 0x2e1b2138);
    assert CubeRoot(149, 5, 0x4d2c6dfc) && CubeRoot(151, 5, 0x53380d13);
    assert CubeRoot(157, 5, 0x650a7354) && CubeRoot(163, 5, 0x766a0abb);
    assert CubeRoot(167, 5, 0x81c2c92e) && CubeRoot(173, 5, 0x92722c85);
    hide CubeRoot, FirstPrimes, RoundConstants;
    assert forall j | 0 <= j < 8 :: CubeRootPart(p[j], k[j]);
    assert forall i | 32 <= i < 40 :: FirstPrimes()[i] == p[i - 32] && RoundConstants()[i] == k[i - 32];
  }

  lemma RootsOfRow5()
    ensures forall i | 40 <= i < 48 :: CubeRootPart(FirstPrimes()[i], RoundConstants()[i])
  {
    var p, k := FirstPrimes()[40..48], RoundConstants()[40..48];
    assert p == [179, 181, 191, 193, 197, 199, 211, 223];
    assert k == [0xa2bfe8a1, 0xa81a664b, 0xc24b8b70, 0xc76c51a3, 0xd192e819, 0xd6990624, 0xf40e3585, 0x106aa070];
    assert CubeRoot(179, 5, 0xa2bfe8a1) && CubeRoot(181, 5, 0xa81a664b);
    assert CubeRoot(191, 5, 0xc24b8b70) && CubeRoot(193, 5, 0xc76c51a3);
    assert CubeRoot(197, 5, 0xd192e819) && CubeRoot(199, 5, 0xd6990624);
    assert CubeRoot(211, 5, 0xf40e3585) && CubeRoot(223, 6, 0x106aa070);
    hide CubeRoot, FirstPrimes, RoundConstants;
    assert forall j | 0 <= j < 8 :: CubeRootPart(p[j], k[j]);
    assert forall i | 40 <= i < 48 :: FirstPrimes()[i] == p[i - 40] && RoundConstants()[i] == k[i - 40];
  }

  lemma RootsOfRow6()
    ensures forall i | 48 <= i < 56 :: CubeRootPart(FirstPrimes()[i], RoundConstants()[i])
  {
    var p, k := FirstPrimes()[48..56], RoundConstants()[48..56];
    assert p == [227, 229, 233, 239, 241, 251, 257, 263];
    assert k == [0x19a4c116, 0x1e376c08, 0x2748774c, 0x34b0bcb5, 0x391c0cb3, 0x4ed8aa4a, 0x5b9cca4f, 0x682e6ff3];
    assert CubeRoot(227, 6, 0x19a4c116) && CubeRoot(229, 6, 0x1e376c08);
    assert CubeRoot(233, 6, 0x2748774c) && CubeRoot(239, 6, 0x34b0bcb5);
    assert CubeRoot(241, 6, 0x391c0cb3) && CubeRoot(251, 6, 0x4ed8aa4a);
    assert CubeRoot(257, 6, 0x5b9cca4f) && CubeRoot(263, 6, 0x682e6ff3);
    hide CubeRoot, FirstPrimes, RoundConstants;
    assert forall j | 0 <= j < 8 :: CubeRootPart(p[j], k[j]);
    assert forall i | 48 <= i < 56 :: FirstPrimes()[i] == p[i - 48] && RoundConstants()[i] == k[i - 48];
  }

  lemma RootsOfRow7()
    ensures forall i | 56 <= i < 64 :: CubeRootPart(FirstPrimes()[i], RoundConstants()[i])
  {
    var p, k := FirstPrimes()[56..64], RoundConstants()[56..64];
    assert p == [269, 271, 277, 281, 283, 293, 307, 311];
    assert k == [0x748f82ee, 0x78a5636f, 0x84c87814, 0x8cc70208, 0x90befffa, 0xa4506ceb, 0xbef9a3f7, 0xc67178f2];
    assert CubeRoot(269, 6, 0x748f82ee) && CubeRoot(271, 6, 0x78a5636f);
    assert CubeRoot(277, 6, 0x84c87814) && CubeRoot(281, 6, 0x8cc70208);
    assert CubeRoot(283, 6, 0x90befffa) && CubeRoot(293, 6, 0xa4506ceb);
    assert CubeRoot(307, 6, 0xbef9a3f7) && CubeRoot(311, 6, 0xc67178f2);
    hide CubeRoot, FirstPrimes, RoundConstants;
    assert forall j | 0 <= j < 8 :: CubeRootPart(p[j], k[j]);
    assert forall i | 56 <= i < 64 :: FirstPrimes()[i] == p[i - 56] && RoundConstants()[i] == k[i - 56];
  }

  /** Section 4.2.2: the first thirty-two bits of the fractional parts of the cube roots of the first sixty-four
      primes, in order. */
  lemma RoundConstantsAreRoots()
    ensures forall i | 0 <= i < 64 :: CubeRootPart(FirstPrimes()[i], RoundConstants()[i])
  {
    hide CubeRootPart, RoundConstants, FirstPrimes;
    RootsOfRow0();
    RootsOfRow1();
    RootsOfRow2();
    RootsOfRow3();
    RootsOfRow4();
    RootsOfRow5();
    RootsOfRow6();
    RootsOfRow7();
  }

  /** Section 5.3.3: those of the square roots of the first eight. */
  lemma InitialValuesAreRoots()
    ensures var h: seq<Word> := [H0.a, H0.b, H0.c, H0.d, H0.e, H0.f, H0.g, H0.h];
            forall i | 0 <= i < 8 :: SquareRootPart(FirstPrimes()[i], h[i])
  {
    var p := FirstPrimes()[0..8];
    assert p == [2, 3, 5, 7, 11, 13, 17, 19];
    assert SquareRoot(2, 1, 0x6a09e667) && SquareRoot(3, 1, 0xbb67ae85);
    assert SquareRoot(5, 2, 0x3c6ef372) && SquareRoot(7, 2, 0xa54ff53a);
    assert SquareRoot(11, 3, 0x510e527f) && SquareRoot(13, 3, 0x9b05688c);
    assert SquareRoot(17, 4, 0x1f83d9ab) && SquareRoot(19, 4, 0x5be0cd19);
    hide SquareRoot, FirstPrimes;
    assert forall i | 0 <= i < 8 :: FirstPrimes()[i] == p[i];
  }

  lemma CubesGrow(x: nat, y: nat)
    requires x <= y
    ensures Cube(x) <= Cube(y)
  {
    assert x * x <= x * y <= y * y;
    assert x * x * x <= y * y * y by {
      assert x * (x * x) <= x * (y * y) <= y * (y * y);
    }
  }

  /** A number has one such root only, so these lemmas determine the tables. */
  lemma OneCubeRoot(p: nat, m: nat, j: Word, n: nat, k: Word)
    requires CubeRoot(p, m, j) && CubeRoot(p, n, k)
    ensures m == n && j == k
  {
    var x, y := m * TWO_32 + j, n * TWO_32 + k;
    hide Cube;
    if x < y {
      CubesGrow(x + 1, y);
    }
    if y < x {
      CubesGrow(y + 1, x);
    }
  }
}
