/** The UTF-16 / UTF-8 codec of src/utils/hash.ts and the byte counter of src/network/NetworkMessage.ts. */
module Utf8 {
  import opened JsNumbers

  type Unit = n: int | 0 <= n < 0x1_0000
  type Point = n: int | 0 <= n < 0x11_0000

  predicate IsHigh(u: Unit) { 0xD800 <= u <= 0xDBFF }

  predicate IsLow(u: Unit) { 0xDC00 <= u <= 0xDFFF }

  predicate IsSurrogate(p: Point) { 0xD800 <= p <= 0xDFFF }

  // ---------- UTF-16 strings as code points ----------

  /** Code point at the front of `s`; a surrogate without its partner stands for itself. */
  function FirstPoint(s: seq<Unit>): Point
    requires s != []
  {
    if |s| >= 2 && IsHigh(s[0]) && IsLow(s[1])
    then 0x1_0000 + (s[0] as int - 0xD800) * 0x400 + (s[1] as int - 0xDC00)
    else s[0]
  }

  function PointWidth(p: Point): nat { if p < 0x1_0000 then 1 else 2 }

  function Units(p: Point): seq<Unit> {
    if p < 0x1_0000 then [p]
    else [0xD800 + (p - 0x1_0000) / 0x400, 0xDC00 + (p - 0x1_0000) % 0x400]
  }

  function Points(s: seq<Unit>): seq<Point> {
    if s == [] then [] else [FirstPoint(s)] + Points(s[PointWidth(FirstPoint(s))..])
  }

  /** No unpaired surrogate anywhere. */
  predicate WellFormed(s: seq<Unit>) {
    forall p <- Points(s) :: !IsSurrogate(p)
  }

  // ---------- Encoding ----------

  /** The table of section 3 of RFC 3629, in arithmetic. */
  function EncodePoint(p: Point): seq<Byte> {
    if p < 0x80 then [p]
    else if p < 0x800 then [0xC0 + p / 0x40, 0x80 + p % 0x40]
    else if p < 0x1_0000 then [0xE0 + p / 0x1000, 0x80 + p / 0x40 % 0x40, 0x80 + p % 0x40]
    else [0xF0 + p / 0x4_0000, 0x80 + p / 0x1000 % 0x40, 0x80 + p / 0x40 % 0x40, 0x80 + p % 0x40]
  }

  function EncodePoints(ps: seq<Point>): seq<Byte> {
    if ps == [] then [] else EncodePoint(ps[0]) + EncodePoints(ps[1..])
  }

  function Encode(s: seq<Unit>): seq<Byte> { EncodePoints(Points(s)) }

  lemma SarSmall(p: Point)
    ensures JsSar(p, 6) == p / 0x40 && JsSar(p, 12) == p / 0x1000 && JsSar(p, 18) == p / 0x4_0000
  {
    SmallUint(p);
    Pow2Values();
  }

  lemma TailBits(x: nat)
    requires x < TWO_31
    ensures JsAnd(x, 0x3F) == x % 0x40
  {
    Pow2Values();
    SmallUint(x);
    JsAndMask(x, 6);
  }

  lemma TailByte(m: nat)
    requires m < 0x40
    ensures JsOr(0x80, m) == 0x80 + m
  {
    Pow2Values();
    JsOrJoin(2, m, 6);
  }

  /** The continuation bytes of a code point. */
  lemma Tails(p: Point)
    ensures JsOr(0x80, JsAnd(p, 0x3F)) == 0x80 + p % 0x40
    ensures JsOr(0x80, JsAnd(JsSar(p, 6), 0x3F)) == 0x80 + p / 0x40 % 0x40
    ensures JsOr(0x80, JsAnd(JsSar(p, 12), 0x3F)) == 0x80 + p / 0x1000 % 0x40
  {
    SarSmall(p);
    TailBits(p);
    TailBits(p / 0x40);
    TailBits(p / 0x1000);
    TailByte(p % 0x40);
    TailByte(p / 0x40 % 0x40);
    TailByte(p / 0x1000 % 0x40);
  }

  lemma LeadTwo(p: Point)
    requires 0x80 <= p < 0x800
    ensures JsOr(0xC0, JsSar(p, 6)) == 0xC0 + p / 0x40
  {
    SarSmall(p);
    Pow2Values();
    JsOrJoin(6, p / 0x40, 5);
  }

  lemma LeadThree(p: Point)
    requires 0x800 <= p < 0x1_0000
    ensures JsOr(0xE0, JsSar(p, 12)) == 0xE0 + p / 0x1000
  {
    SarSmall(p);
    Pow2Values();
    JsOrJoin(14, p / 0x1000, 4);
  }

  lemma LeadFour(p: Point)
    requires 0x1_0000 <= p
    ensures JsOr(0xF0, JsSar(p, 18)) == 0xF0 + p / 0x4_0000
  {
    SarSmall(p);
    Pow2Values();
    JsOrJoin(30, p / 0x4_0000, 3);
  }

  /** The bytes pushed for one code point: the encoder's shifts and masks compute the RFC table. */
  method PushBytes(p: Point) returns (pushed: seq<Byte>)
    ensures pushed == EncodePoint(p)
  {
    hide JsOr, JsAnd, JsSar;
    Tails(p);
    if p < 0x80 {
      pushed := [p];
    } else if p < 0x800 {
      LeadTwo(p);
      pushed := [JsOr(0xC0, JsSar(p, 6)), JsOr(0x80, JsAnd(p, 0x3F))];
    } else if p < 0x1_0000 {
      LeadThree(p);
      pushed := [JsOr(0xE0, JsSar(p, 12)), JsOr(0x80, JsAnd(JsSar(p, 6), 0x3F)), JsOr(0x80, JsAnd(p, 0x3F))];
    } else {
      LeadFour(p);
      pushed := [JsOr(0xF0, JsSar(p, 18)), JsOr(0x80, JsAnd(JsSar(p, 12), 0x3F)),
                 JsOr(0x80, JsAnd(JsSar(p, 6), 0x3F)), JsOr(0x80, JsAnd(p, 0x3F))];
    }
  }

  /** The code point read at `index`, and the index of the last unit it took. */
  method ReadPoint(value: seq<Unit>, index: nat) returns (codePoint: Point, last: nat)
    requires index < |value|
    ensures codePoint == FirstPoint(value[index..]) && last + 1 == index + PointWidth(codePoint) <= |value|
  {
    codePoint, last := value[index], index;
    if codePoint >= 0xD800 && codePoint <= 0xDBFF && index + 1 < |value| {
      var next := value[index + 1];
      if next >= 0xDC00 && next <= 0xDFFF {
        Pow2Values();
        JsShlSmall(codePoint - 0xD800, 10);
        codePoint := 0x1_0000 + JsShl(codePoint - 0xD800, 10) + (next as int - 0xDC00);
        last := last + 1;
      }
    }
  }

  lemma EncodeStep(s: seq<Unit>)
    requires s != []
    ensures PointWidth(FirstPoint(s)) <= |s|
    ensures Encode(s) == EncodePoint(FirstPoint(s)) + Encode(s[PointWidth(FirstPoint(s))..])
  {
    assert Points(s)[1..] == Points(s[PointWidth(FirstPoint(s))..]);
  }

  method EncodeUtf8(value: seq<Unit>) returns (bytes: seq<Byte>)
    ensures bytes == Encode(value)
  {
    hide Encode, EncodePoint, FirstPoint;
    bytes := [];
    var index := 0;
    assert value[0..] == value && [] + Encode(value) == Encode(value);
    while index < |value|
      invariant 0 <= index <= |value|
      invariant bytes + Encode(value[index..]) == Encode(value)
    {
      ghost var rest := value[index..];
      EncodeStep(rest);
      var codePoint, last := ReadPoint(value, index);
      var pushed := PushBytes(codePoint);
      assert rest[PointWidth(codePoint)..] == value[last + 1..];
      AssociateBytes(bytes, pushed, Encode(value[last + 1..]));
      bytes := bytes + pushed;
      index := last + 1;
    }
    EncodeNothing();
    assert value[index..] == [] && bytes + [] == bytes;
  }

  lemma AssociateBytes(a: seq<Byte>, b: seq<Byte>, c: seq<Byte>)
    ensures a + (b + c) == a + b + c
  {
  }

  lemma EncodeNothing()
    ensures Encode([]) == []
  {
  }

  // ---------- Decoding ----------

  /** Low six bits of the byte at `i`; past the end JavaScript reads `undefined`, whose bits are 0. */
  function TailAt(b: seq<Byte>, i: nat): nat { if i < |b| then b[i] % 0x40 else 0 }

  /** Number of bytes the decoder takes for a leading byte; it never checks the bytes after it. */
  function LeadWidth(first: Byte): nat {
    if first < 0x80 then 1 else if first < 0xE0 then 2 else if first < 0xF0 then 3 else 4
  }

  function DecodeFirst(b: seq<Byte>): seq<Unit>
    requires b != []
  {
    if b[0] < 0x80 then [b[0]]
    else if b[0] < 0xE0 then [b[0] % 0x20 * 0x40 + TailAt(b, 1)]
    else if b[0] < 0xF0 then [b[0] % 0x10 * 0x1000 + TailAt(b, 1) * 0x40 + TailAt(b, 2)]
    else
      var adjusted := b[0] % 8 * 0x4_0000 + TailAt(b, 1) * 0x1000 + TailAt(b, 2) * 0x40 + TailAt(b, 3) - 0x1_0000;
      [0xD800 + adjusted / 0x400, 0xDC00 + adjusted % 0x400]
  }

  function DropAtMost<T>(b: seq<T>, n: nat): (r: seq<T>)
    ensures b != [] && n > 0 ==> |r| < |b|
  {
    if n <= |b| then b[n..] else []
  }

  function Decode(b: seq<Byte>): seq<Unit>
    decreases |b|
  {
    if b == [] then [] else DecodeFirst(b) + Decode(DropAtMost(b, LeadWidth(b[0])))
  }

  lemma LeadBits(first: Byte, k: nat, width: nat)
    requires Pow2(k) <= TWO_31 && first % Pow2(k) * Pow2(width) < TWO_31
    ensures JsShl(JsAnd(first, Pow2(k) - 1), width) == first % Pow2(k) * Pow2(width)
  {
    SmallUint(first);
    JsAndMask(first, k);
    ModBound(first, Pow2(k));
    JsShlSmall(first % Pow2(k), width);
  }

  lemma JoinTwo(hi: nat, second: nat)
    requires hi < 0x20 && second < 0x40
    ensures JsOr(hi * 0x40, second) == hi * 0x40 + second
  {
    Pow2Values();
    JsOrJoin(hi, second, 6);
  }

  lemma JoinFour(hi: nat, second: nat, third: nat, fourth: nat)
    requires hi < 8 && second < 0x40 && third < 0x40 && fourth < 0x40
    ensures JsOr(JsOr(JsOr(hi * 0x4_0000, JsShl(second, 12)), JsShl(third, 6)), fourth)
         == hi * 0x4_0000 + second * 0x1000 + third * 0x40 + fourth
  {
    Pow2Values();
    hide JsOr, JsShl, Pow2;
    JsShlSmall(second, 12);
    JsOrJoin(hi, second * 0x1000, 18);
    var top := hi * 0x40 + second;
    assert top * 0x1000 == hi * 0x4_0000 + second * 0x1000;
    JoinLow(top, third, fourth);
  }

  lemma JoinLow(top: nat, third: nat, fourth: nat)
    requires top < 0x200 && third < 0x40 && fourth < 0x40
    ensures JsOr(JsOr(top * 0x1000, JsShl(third, 6)), fourth) == top * 0x1000 + third * 0x40 + fourth
  {
    Pow2Values();
    JsShlSmall(third, 6);
    JsOrJoin(top, third * 0x40, 12);
    var mid := top * 0x40 + third;
    assert mid * 0x40 == top * 0x1000 + third * 0x40;
    JsOrJoin(mid, fourth, 6);
  }

  /** `adjusted` is negative for an overlong four-byte form, so its mask works on 2^32 + adjusted. */
  lemma SurrogateBits(adjusted: int)
    requires -0x1_0000 <= adjusted < 0x1F_0000
    ensures JsSar(adjusted, 10) == adjusted / 0x400
    ensures JsAnd(adjusted, 0x3FF) == adjusted % 0x400
  {
    Pow2Values();
    hide And, Pow2;
    JsAndMask(adjusted, 10);
    SmallSigned(adjusted);
    WrapMod(adjusted);
  }

  lemma SmallSigned(n: int)
    requires 0 <= n + TWO_31 < TWO_32
    ensures ToUint32(n) == (if n < 0 then n + TWO_32 else n) && ToInt32(n) == n
  {
  }

  lemma WrapMod(n: int)
    ensures (n + TWO_32) % 0x400 == n % 0x400
  {
    assert n + TWO_32 == n + 0x40_0000 * 0x400;
  }

  lemma TailMask(b: seq<Byte>, i: nat)
    ensures JsAnd(ByteAt(b, i), 0x3F) == TailAt(b, i)
  {
    TailBits(ByteAt(b, i));
  }

  lemma DecodeStep(bytes: seq<Byte>, index: nat)
    requires index < |bytes|
    ensures Decode(DropAtMost(bytes, index))
         == DecodeFirst(bytes[index..]) + Decode(DropAtMost(bytes, index + LeadWidth(bytes[index])))
  {
    var rest := bytes[index..];
    assert DropAtMost(rest, LeadWidth(rest[0])) == DropAtMost(bytes, index + LeadWidth(bytes[index]));
  }

  /** The two surrogates appended for a four-byte form, with the decoder's own operators. */
  method SurrogatePair(first: Byte, second: nat, third: nat, fourth: nat) returns (units: seq<Unit>)
    requires second < 0x40 && third < 0x40 && fourth < 0x40
    ensures var adjusted := first % 8 * 0x4_0000 + second * 0x1000 + third * 0x40 + fourth - 0x1_0000;
            units == [0xD800 + adjusted / 0x400, 0xDC00 + adjusted % 0x400]
  {
    Pow2Values();
    LeadBits(first, 3, 18);
    JoinFour(first % 8, second, third, fourth);
    var codePoint := JsOr(JsOr(JsOr(JsShl(JsAnd(first, 0x07), 18), JsShl(second, 12)), JsShl(third, 6)), fourth);
    var adjusted := codePoint - 0x1_0000;
    SurrogateBits(adjusted);
    units := [0xD800 + JsSar(adjusted, 10), 0xDC00 + JsAnd(adjusted, 0x3FF)];
  }

  method TwoByteUnit(first: Byte, second: nat) returns (u: Unit)
    requires second < 0x40
    ensures u == first % 0x20 * 0x40 + second
  {
    Pow2Values();
    LeadBits(first, 5, 6);
    JoinTwo(first % 0x20, second);
    u := JsOr(JsShl(JsAnd(first, 0x1F), 6), second);
  }

  method ThreeByteUnit(first: Byte, second: nat, third: nat) returns (u: Unit)
    requires second < 0x40 && third < 0x40
    ensures u == first % 0x10 * 0x1000 + second * 0x40 + third
  {
    Pow2Values();
    LeadBits(first, 4, 12);
    JoinLow(first % 0x10, second, third);
    u := JsOr(JsOr(JsShl(JsAnd(first, 0x0F), 12), JsShl(second, 6)), third);
  }

  /** The units appended for the lead byte at `index`, and the index after the bytes they took. */
  method ReadUnits(bytes: seq<Byte>, index: nat) returns (units: seq<Unit>, next: nat)
    requires index < |bytes|
    ensures units == DecodeFirst(bytes[index..]) && next == index + LeadWidth(bytes[index])
  {
    var first := bytes[index];
    next := index + 1;
    if first < 0x80 {
      units := [first];
      return;
    }
    var second := ReadTail(bytes, index, 1);
    next := next + 1;
    if first < 0xE0 {
      var u := TwoByteUnit(first, second);
      units := [u];
      return;
    }
    var third := ReadTail(bytes, index, 2);
    next := next + 1;
    if first < 0xF0 {
      var u := ThreeByteUnit(first, second, third);
      units := [u];
      return;
    }
    var fourth := ReadTail(bytes, index, 3);
    next := next + 1;
    units := SurrogatePair(first, second, third, fourth);
  }

  /** `bytes[index + i] & 0x3f`, the index already moved past `i` bytes. */
  method ReadTail(bytes: seq<Byte>, index: nat, i: nat) returns (tail: nat)
    requires index < |bytes|
    ensures tail == TailAt(bytes[index..], i) < 0x40
  {
    TailMask(bytes, index + i);
    tail := JsAnd(ByteAt(bytes, index + i), 0x3F);
  }

  /** `output` is what the decoder has written once it has read the first `index` bytes. */
  ghost predicate DecodedSoFar(bytes: seq<Byte>, index: nat, output: seq<Unit>) {
    output + Decode(DropAtMost(bytes, index)) == Decode(bytes)
  }

  lemma Associate(a: seq<Unit>, b: seq<Unit>, c: seq<Unit>)
    ensures a + (b + c) == a + b + c
  {
  }

  lemma DecodedMore(bytes: seq<Byte>, index: nat, output: seq<Unit>, units: seq<Unit>)
    requires index < |bytes| && DecodedSoFar(bytes, index, output)
    requires units == DecodeFirst(bytes[index..])
    ensures DecodedSoFar(bytes, index + LeadWidth(bytes[index]), output + units)
  {
    hide Decode, DecodeFirst, DropAtMost, LeadWidth;
    DecodeStep(bytes, index);
    Associate(output, units, Decode(DropAtMost(bytes, index + LeadWidth(bytes[index]))));
  }

  method DecodeUtf8(bytes: seq<Byte>) returns (output: seq<Unit>)
    ensures output == Decode(bytes)
  {
    hide Decode, DecodeFirst, LeadWidth, DecodedSoFar;
    output := [];
    var index := 0;
    DecodedStart(bytes);
    while index < |bytes|
      invariant 0 <= index
      invariant DecodedSoFar(bytes, index, output)
      decreases |bytes| - index
    {
      var units, next := ReadUnits(bytes, index);
      DecodedMore(bytes, index, output, units);
      assert LeadWidth(bytes[index]) > 0 by { LeadPositive(bytes[index]); }
      output := output + units;
      index := next;
    }
    DecodedAll(bytes, index, output);
  }

  lemma LeadPositive(first: Byte)
    ensures LeadWidth(first) > 0
  {
  }

  lemma DecodedStart(bytes: seq<Byte>)
    ensures DecodedSoFar(bytes, 0, [])
  {
    hide Decode;
    assert DropAtMost(bytes, 0) == bytes && [] + Decode(bytes) == Decode(bytes);
  }

  lemma DecodedAll(bytes: seq<Byte>, index: nat, output: seq<Unit>)
    requires index >= |bytes| && DecodedSoFar(bytes, index, output)
    ensures output == Decode(bytes)
  {
    assert DropAtMost(bytes, index) == [] && output + [] == output;
  }

  /** `bytes[i]` with JavaScript's `undefined` past the end, which the following `&` turns into 0. */
  function ByteAt(b: seq<Byte>, i: nat): Byte { if i < |b| then b[i] else 0 }

  // ---------- Round trip ----------

  lemma UnitsOfFirst(s: seq<Unit>)
    requires s != []
    ensures PointWidth(FirstPoint(s)) <= |s|
    ensures s == Units(FirstPoint(s)) + s[PointWidth(FirstPoint(s))..]
  {
  }

  lemma SplitSix(p: nat)
    ensures p / 0x1000 == p / 0x40 / 0x40 && p / 0x4_0000 == p / 0x1000 / 0x40
  {
    var y := p / 0x40;
    var z := y / 0x40;
    DivModUnique(p, 0x1000, z, y % 0x40 * 0x40 + p % 0x40);
    DivModUnique(p, 0x4_0000, z / 0x40, z % 0x40 * 0x1000 + y % 0x40 * 0x40 + p % 0x40);
  }

  lemma FourByteValue(p: Point, b0: Byte, b1: Byte, b2: Byte, b3: Byte)
    requires 0x1_0000 <= p && EncodePoint(p) == [b0, b1, b2, b3]
    ensures b0 >= 0xF0
    ensures b0 % 8 * 0x4_0000 + b1 % 0x40 * 0x1000 + b2 % 0x40 * 0x40 + b3 % 0x40 == p
  {
    SplitSix(p);
    assert b0 % 8 == p / 0x4_0000 && b1 % 0x40 == p / 0x1000 % 0x40;
    assert b2 % 0x40 == p / 0x40 % 0x40 && b3 % 0x40 == p % 0x40;
  }

  lemma ThreeByteValue(p: Point, b0: Byte, b1: Byte, b2: Byte)
    requires 0x800 <= p < 0x1_0000 && EncodePoint(p) == [b0, b1, b2]
    ensures 0xE0 <= b0 < 0xF0
    ensures b0 % 0x10 * 0x1000 + b1 % 0x40 * 0x40 + b2 % 0x40 == p
  {
    SplitSix(p);
    assert b0 % 0x10 == p / 0x1000 && b1 % 0x40 == p / 0x40 % 0x40 && b2 % 0x40 == p % 0x40;
  }

  lemma DecodeFirstOfPoint(p: Point, b: seq<Byte>)
    requires EncodePoint(p) <= b
    ensures DecodeFirst(b) == Units(p) && LeadWidth(b[0]) == |EncodePoint(p)|
  {
    var e := EncodePoint(p);
    assert forall i | 0 <= i < |e| :: b[i] == e[i];
    if 0x1_0000 <= p {
      FourByteValue(p, b[0], b[1], b[2], b[3]);
    } else if 0x800 <= p {
      ThreeByteValue(p, b[0], b[1], b[2]);
    }
  }

  /** The decoder reads back one encoded code point, whatever bytes follow it. */
  lemma DecodeEncodedPoint(p: Point, rest: seq<Byte>)
    ensures Decode(EncodePoint(p) + rest) == Units(p) + Decode(rest)
  {
    var e := EncodePoint(p);
    DecodeFirstOfPoint(p, e + rest);
    assert DropAtMost(e + rest, |e|) == rest;
  }

  /** decodeUtf8 undoes encodeUtf8 on every string, unpaired surrogates included. */
  lemma {:induction false} RoundTrip(s: seq<Unit>)
    ensures Decode(Encode(s)) == s
  {
    if s != [] {
      var p := FirstPoint(s);
      var t := s[PointWidth(p)..];
      UnitsOfFirst(s);
      RoundTrip(t);
      assert Points(s)[1..] == Points(t);
      DecodeEncodedPoint(p, Encode(t));
    }
  }

  lemma EncodeInjective(s: seq<Unit>, t: seq<Unit>)
    requires Encode(s) == Encode(t)
    ensures s == t
  {
    RoundTrip(s);
    RoundTrip(t);
  }

  // ---------- Agreement with RFC 3629 ----------

  predicate IsTail(b: Byte) { 0x80 <= b <= 0xBF }

  /** Length of the character at the front of `b` by the grammar of section 4 of RFC 3629, or 0. */
  function CharLength(b: seq<Byte>): nat {
    if |b| >= 1 && b[0] <= 0x7F then 1
    else if |b| >= 2 && 0xC2 <= b[0] <= 0xDF && IsTail(b[1]) then 2
    else if |b| >= 3 && IsTail(b[1]) && IsTail(b[2]) &&
            ((b[0] == 0xE0 && 0xA0 <= b[1]) || 0xE1 <= b[0] <= 0xEC || (b[0] == 0xED && b[1] <= 0x9F)
             || 0xEE <= b[0] <= 0xEF)
    then 3
    else if |b| >= 4 && IsTail(b[1]) && IsTail(b[2]) && IsTail(b[3]) &&
            ((b[0] == 0xF0 && 0x90 <= b[1]) || 0xF1 <= b[0] <= 0xF3 || (b[0] == 0xF4 && b[1] <= 0x8F))
    then 4
    else 0
  }

  predicate ValidUtf8(b: seq<Byte>) {
    b == [] || (0 < CharLength(b) <= |b| && ValidUtf8(b[CharLength(b)..]))
  }

  lemma EncodedCharLength(p: Point, rest: seq<Byte>)
    ensures CharLength(EncodePoint(p) + rest) == if IsSurrogate(p) then 0 else |EncodePoint(p)|
  {
    var e := EncodePoint(p);
    assert forall i | 0 <= i < |e| :: (e + rest)[i] == e[i];
  }

  /** The output is valid UTF-8 exactly when the string has no unpaired surrogate. */
  lemma {:induction false} EncodeValid(s: seq<Unit>)
    ensures ValidUtf8(Encode(s)) <==> WellFormed(s)
  {
    if s != [] {
      var p := FirstPoint(s);
      var t := s[PointWidth(p)..];
      EncodeValid(t);
      assert Points(s) == [p] + Points(t);
      assert Points(s)[1..] == Points(t);
      assert Encode(s) == EncodePoint(p) + Encode(t);
      EncodedCharLength(p, Encode(t));
      assert (EncodePoint(p) + Encode(t))[|EncodePoint(p)|..] == Encode(t);
      assert IsSurrogate(p) ==> !WellFormed(s) by { assert Points(s)[0] == p; }
      assert !IsSurrogate(p) ==> (WellFormed(s) <==> WellFormed(t)) by {
        assert forall q :: q in Points(s) <==> q == p || q in Points(t);
      }
    }
  }

  lemma TwoByteChar(b0: Byte, b1: Byte) returns (p: Point)
    requires 0xC2 <= b0 <= 0xDF && IsTail(b1)
    ensures !IsSurrogate(p) && EncodePoint(p) == [b0, b1]
  {
    p := (b0 as int - 0xC0) * 0x40 + (b1 as int - 0x80);
  }

  lemma ThreeByteChar(b0: Byte, b1: Byte, b2: Byte) returns (p: Point)
    requires CharLength([b0, b1, b2]) == 3
    ensures !IsSurrogate(p) && EncodePoint(p) == [b0, b1, b2]
  {
    var y := (b0 as int - 0xE0) * 0x40 + (b1 as int - 0x80);
    p := y * 0x40 + (b2 as int - 0x80);
    assert p / 0x40 == y;
  }

  lemma FourByteChar(b0: Byte, b1: Byte, b2: Byte, b3: Byte) returns (p: Point)
    requires CharLength([b0, b1, b2, b3]) == 4
    ensures !IsSurrogate(p) && EncodePoint(p) == [b0, b1, b2, b3]
  {
    var z := (b0 as int - 0xF0) * 0x40 + (b1 as int - 0x80);
    var y := z * 0x40 + (b2 as int - 0x80);
    p := y * 0x40 + (b3 as int - 0x80);
    assert p / 0x40 == y && y / 0x40 == z;
    assert p / 0x1000 == z;
  }

  /** A grammatical character is the encoding of the code point its bits spell, never of a surrogate. */
  lemma CharIsEncoded(b: seq<Byte>) returns (p: Point)
    requires 0 < CharLength(b)
    ensures !IsSurrogate(p) && CharLength(b) <= |b| && b == EncodePoint(p) + b[CharLength(b)..]
  {
    var n := CharLength(b);
    if n == 1 {
      p := b[0];
    } else if n == 2 {
      p := TwoByteChar(b[0], b[1]);
    } else if n == 3 {
      p := ThreeByteChar(b[0], b[1], b[2]);
    } else {
      p := FourByteChar(b[0], b[1], b[2], b[3]);
    }
    assert b[..n] == EncodePoint(p);
  }

  lemma PointsOfUnits(p: Point, rest: seq<Unit>)
    requires !IsSurrogate(p)
    ensures Points(Units(p) + rest) == [p] + Points(rest)
  {
    var s := Units(p) + rest;
    assert s[0] == Units(p)[0];
    assert p >= 0x1_0000 ==> s[1] == Units(p)[1];
    assert FirstPoint(s) == p;
    assert s[PointWidth(p)..] == rest;
  }

  /** On valid UTF-8 the decoder is the inverse of the encoder, and yields a well-formed string. */
  lemma {:induction false} DecodeValid(b: seq<Byte>)
    requires ValidUtf8(b)
    ensures Encode(Decode(b)) == b && WellFormed(Decode(b))
  {
    if b != [] {
      var p := CharIsEncoded(b);
      var rest := b[CharLength(b)..];
      DecodeValid(rest);
      DecodeEncodedPoint(p, rest);
      PointsOfUnits(p, Decode(rest));
      var ps := Points(Decode(b));
      assert ps == [p] + Points(Decode(rest));
      assert ps[1..] == Points(Decode(rest));
      assert forall q :: q in ps <==> q == p || q in Points(Decode(rest));
    }
  }

  // ---------- Byte counter ----------

  /** A conforming TextEncoder writes U+FFFD for a surrogate that has no partner. */
  function TextEncoded(ps: seq<Point>): seq<Byte> {
    if ps == [] then []
    else EncodePoint(if IsSurrogate(ps[0]) then 0xFFFD else ps[0]) + TextEncoded(ps[1..])
  }

  /** Both branches of the byte counter agree: the replacement character is as long as what it replaces. */
  lemma {:induction false} TextEncoderLength(ps: seq<Point>)
    ensures |TextEncoded(ps)| == |EncodePoints(ps)|
  {
    if ps != [] {
      TextEncoderLength(ps[1..]);
    }
  }

  /** The loop taken where no TextEncoder exists; `for...of` walks a string by code points. */
  method Utf8ByteLength(value: seq<Unit>) returns (bytes: nat)
    ensures bytes == |Encode(value)| == |TextEncoded(Points(value))|
  {
    bytes := 0;
    var characters := Points(value);
    var i := 0;
    while i < |characters|
      invariant 0 <= i <= |characters|
      invariant bytes + |EncodePoints(characters[i..])| == |Encode(value)|
    {
      var codePoint := characters[i];
      assert characters[i..][1..] == characters[i + 1..];
      if codePoint <= 0x7F {
        bytes := bytes + 1;
      } else if codePoint <= 0x7FF {
        bytes := bytes + 2;
      } else if codePoint <= 0xFFFF {
        bytes := bytes + 3;
      } else {
        bytes := bytes + 4;
      }
      i := i + 1;
    }
    TextEncoderLength(characters);
  }
}
