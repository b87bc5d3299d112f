/** Content identifiers of src/crypto/CIDGenerator.ts: hex text, Base58 text and their composition with SHA-256. */
module Base58 {
  import opened JsNumbers
  import Sha256
  import Fips180

  // The 58 characters, written as their runs of consecutive code points.
  function Alphabet(): (a: string)
    ensures |a| == 58
  {
    "123456789" + "ABCDEFGH" + "JKLMN" + "PQRSTUVWXYZ" + "abcdefghijk" + "mnopqrstuvwxyz"
  }

  type Digit = n: int | 0 <= n < 58

  // ---------- Numbers behind the text ----------

  /** Value of base-58 digits, least significant first. */
  function Value(d: seq<Digit>): nat {
    if d == [] then 0 else d[0] + 58 * Value(d[1..])
  }

  /** Value of bytes, most significant first. */
  function BigEndian(b: seq<Byte>): nat {
    if b == [] then 0 else 256 * BigEndian(b[..|b| - 1]) + b[|b| - 1]
  }

  /** Base-58 digits of `n`, least significant first, without a zero on top. */
  function MinDigits(n: nat): seq<Digit> {
    if n == 0 then [] else [n % 58] + MinDigits(n / 58)
  }

  /** Bytes of `n`, most significant first, without a zero in front. */
  function MinBytes(n: nat): seq<Byte> {
    if n == 0 then [] else MinBytes(n / 256) + [n % 256]
  }

  /** Digits that start out as `d`, multiplied by 256 with `carry` added. */
  function MulAdd(d: seq<Digit>, carry: nat): seq<Digit> {
    if d == [] then MinDigits(carry)
    else [(carry + 256 * (d[0] as int)) % 58] + MulAdd(d[1..], (carry + 256 * (d[0] as int)) / 58)
  }

  lemma {:induction false} MinDigitsValue(n: nat)
    ensures Value(MinDigits(n)) == n
  {
    if n != 0 {
      MinDigitsValue(n / 58);
    }
  }

  lemma {:induction false} MulAddValue(d: seq<Digit>, carry: nat)
    ensures Value(MulAdd(d, carry)) == 256 * Value(d) + carry
  {
    if d == [] {
      MinDigitsValue(carry);
    } else {
      var c := carry + 256 * (d[0] as int);
      MulAddValue(d[1..], c / 58);
      assert MulAdd(d, carry)[1..] == MulAdd(d[1..], c / 58);
    }
  }

  /** The digits the loop holds after `b`: it starts from a single zero. */
  function DigitsOf(b: seq<Byte>): seq<Digit> {
    if b == [] then [0] else MulAdd(DigitsOf(b[..|b| - 1]), b[|b| - 1])
  }

  /** No zero on top, except for zero itself, which is the single digit 0. */
  predicate Canonical(d: seq<Digit>) {
    d != [] && (d == [0] || d[|d| - 1] != 0)
  }

  lemma {:induction false} CanonicalDigits(d: seq<Digit>)
    requires d != [] && d[|d| - 1] != 0
    ensures d == MinDigits(Value(d)) && Value(d) > 0
  {
    if |d| == 1 {
      assert d[1..] == [];
      assert MinDigits(d[0] / 58) == [];
    } else {
      CanonicalDigits(d[1..]);
    }
  }

  lemma {:induction false} MinDigitsTop(n: nat)
    requires n > 0
    ensures MinDigits(n) != [] && MinDigits(n)[|MinDigits(n)| - 1] != 0
  {
    if n >= 58 {
      MinDigitsTop(n / 58);
    }
  }

  lemma {:induction false} MulAddTop(d: seq<Digit>, carry: nat)
    requires d != [] && d[|d| - 1] != 0
    ensures MulAdd(d, carry) != [] && MulAdd(d, carry)[|MulAdd(d, carry)| - 1] != 0
  {
    var c := carry + 256 * (d[0] as int);
    if |d| == 1 {
      assert d[1..] == [];
      assert c / 58 > 0;
      MinDigitsTop(c / 58);
    } else {
      MulAddTop(d[1..], c / 58);
    }
  }

  /** The digit array always denotes the big-endian value of the bytes read, in canonical form. */
  lemma {:induction false} DigitsDenote(b: seq<Byte>)
    ensures Value(DigitsOf(b)) == BigEndian(b) && Canonical(DigitsOf(b))
  {
    if b == [] {
      assert Value([0]) == 0;
    } else {
      var d, c := DigitsOf(b[..|b| - 1]), b[|b| - 1];
      DigitsDenote(b[..|b| - 1]);
      MulAddValue(d, c);
      if d == [0] {
        assert d[1..] == [];
        if c >= 58 {
          MinDigitsTop(c / 58);
        }
      } else {
        MulAddTop(d, c);
      }
    }
  }

  // ---------- The in-place converter ----------

  lemma MulAddStep(front: seq<Digit>, back: seq<Digit>, carry: nat, whole: seq<Digit>)
    requires back != [] && front + MulAdd(back, carry) == whole
    ensures var c := carry + 256 * (back[0] as int);
            front + [c % 58] + MulAdd(back[1..], c / 58) == whole
  {
    var c := carry + 256 * (back[0] as int);
    assert front + ([c % 58] + MulAdd(back[1..], c / 58)) == front + [c % 58] + MulAdd(back[1..], c / 58);
  }

  /** A carry of a byte into a digit leaves a carry of a byte, and `<<` and `| 0` are exact on the way. */
  lemma CarryStaysByte(d: Digit, carry: Byte)
    ensures carry + JsShl(d, 8) == carry + 256 * (d as int)
    ensures ToInt32((carry + JsShl(d, 8)) / 58) == (carry + 256 * (d as int)) / 58 <= 255
  {
    hide JsShl, ToInt32, ToUint32;
    ShiftByte(d);
    SmallUint((carry + 256 * (d as int)) / 58);
  }

  /** One byte into the digits. */
  method AddByte(digits: seq<Digit>, byte: Byte) returns (r: seq<Digit>)
    ensures r == MulAdd(digits, byte)
  {
    hide JsShl, ToInt32, ToUint32;
    r := digits;
    var carry: int := byte;
    var j := 0;
    hide MulAdd, MinDigits;
    assert r[..0] == [] && digits[0..] == digits && [] + MulAdd(digits, byte) == MulAdd(digits, byte);
    while j < |r|
      invariant 0 <= j <= |r| == |digits|
      invariant 0 <= carry <= 255
      invariant r[j..] == digits[j..]
      invariant r[..j] + MulAdd(digits[j..], carry) == MulAdd(digits, byte)
    {
      MulAddStep(r[..j], digits[j..], carry, MulAdd(digits, byte));
      assert r[j] == r[j..][0] == digits[j] && digits[j..][1..] == digits[j + 1..];
      CarryStaysByte(r[j], carry);
      carry := carry + JsShl(r[j], 8);
      SetOne(r, j, carry % 58);
      r := r[j := carry % 58];
      carry := ToInt32(carry / 58);
      j := j + 1;
    }
    assert r[..j] == r && digits[j..] == [];
    MulAddNothing(carry);
    while carry > 0
      invariant 0 <= carry <= 255
      invariant r + MinDigits(carry) == MulAdd(digits, byte)
    {
      PushDigit(r, carry);
      r := r + [carry % 58];
      SmallUint(carry / 58);
      carry := ToInt32(carry / 58);
    }
    NoDigits();
    assert r + [] == r;
  }

  lemma SetOne(r: seq<Digit>, j: nat, d: Digit)
    requires j < |r|
    ensures r[j := d][..j + 1] == r[..j] + [d] && r[j := d][j + 1..] == r[j..][1..]
  {
  }

  lemma MulAddNothing(carry: nat)
    ensures MulAdd([], carry) == MinDigits(carry)
  {
  }

  lemma PushDigit(r: seq<Digit>, carry: nat)
    requires carry > 0
    ensures r + [carry % 58] + MinDigits(carry / 58) == r + MinDigits(carry)
  {
  }

  lemma NoDigits()
    ensures MinDigits(0) == []
  {
  }

  lemma ShiftByte(d: Digit)
    ensures JsShl(d, 8) == 256 * (d as int)
  {
    assert Pow2(8) == 256 by {
      Pow2Values();
      assert Pow2(8) == 4 * Pow2(6);
    }
    JsShlSmall(d, 8);
  }

  // ---------- Text ----------

  function Ones(n: nat): string { seq(n, _ => '1') }

  function LeadingZeros(b: seq<Byte>): nat {
    if b != [] && b[0] == 0 then 1 + LeadingZeros(b[1..]) else 0
  }

  /** The digits as text, most significant first. */
  function Text(d: seq<Digit>): string {
    if d == [] then "" else Text(d[1..]) + [Alphabet()[d[0]]]
  }

  function Encode(b: seq<Byte>): string { Ones(LeadingZeros(b)) + Text(DigitsOf(b)) }

  /** Base58 as it is usually specified: one `1` per leading zero byte, then the number without leading zeros. */
  function Textbook(b: seq<Byte>): string { Ones(LeadingZeros(b)) + Text(MinDigits(BigEndian(b))) }

  method ToDigits(bytes: seq<Byte>) returns (digits: seq<Digit>)
    ensures digits == DigitsOf(bytes)
  {
    digits := [0];
    var i := 0;
    while i < |bytes|
      invariant 0 <= i <= |bytes|
      invariant digits == DigitsOf(bytes[..i])
    {
      assert bytes[..i + 1][..i] == bytes[..i];
      digits := AddByte(digits, bytes[i]);
      i := i + 1;
    }
    assert bytes[..i] == bytes;
  }

  method Base58Encode(bytes: seq<Byte>) returns (result: string)
    ensures result == Encode(bytes)
  {
    var digits := ToDigits(bytes);
    result := "";
    var i := 0;
    while i < |bytes| && bytes[i] == 0
      invariant 0 <= i <= |bytes|
      invariant result == Ones(i)
      invariant i + LeadingZeros(bytes[i..]) == LeadingZeros(bytes)
    {
      assert bytes[i..][1..] == bytes[i + 1..];
      result := result + "1";
      i := i + 1;
    }
    ghost var ones := result;
    var k := |digits|;
    assert digits[..k] == digits;
    while k > 0
      invariant 0 <= k <= |digits|
      invariant result + Text(digits[..k]) == ones + Text(digits)
    {
      k := k - 1;
      TextOfLast(digits[..k + 1]);
      assert digits[..k + 1][..k] == digits[..k];
      result := result + [Alphabet()[digits[k]]];
    }
    assert result + Text([]) == result;
  }

  /** The most significant digit comes first. */
  lemma {:induction false} TextOfLast(d: seq<Digit>)
    requires d != []
    ensures Text(d) == [Alphabet()[d[|d| - 1]]] + Text(d[..|d| - 1])
  {
    if |d| == 1 {
      assert d[1..] == [] && d[..0] == [];
      assert Text(d) == Text(d[1..]) + [Alphabet()[d[0]]];
    } else {
      var rest, front := d[1..], d[..|d| - 1];
      TextOfLast(rest);
      assert rest[..|rest| - 1] == front[1..];
      hide Alphabet;
      assert Text(front) == Text(front[1..]) + [Alphabet()[d[0]]];
    }
  }

  // ---------- Decoding ----------

  /** Position of a character of the alphabet, by its six runs of consecutive characters. */
  function Rank(c: char): int {
    var u := c as int;
    if u <= '9' as int then u - '1' as int
    else if u <= 'H' as int then u - 'A' as int + 9
    else if u <= 'N' as int then u - 'J' as int + 17
    else if u <= 'Z' as int then u - 'P' as int + 22
    else if u <= 'k' as int then u - 'a' as int + 33
    else u - 'm' as int + 44
  }

  lemma Runs()
    ensures forall i | 0 <= i < 9 :: "123456789"[i] as int == '1' as int + i
    ensures forall i | 0 <= i < 8 :: "ABCDEFGH"[i] as int == 'A' as int + i
    ensures forall i | 0 <= i < 5 :: "JKLMN"[i] as int == 'J' as int + i
    ensures forall i | 0 <= i < 11 :: "PQRSTUVWXYZ"[i] as int == 'P' as int + i
    ensures forall i | 0 <= i < 11 :: "abcdefghijk"[i] as int == 'a' as int + i
    ensures forall i | 0 <= i < 14 :: "mnopqrstuvwxyz"[i] as int == 'm' as int + i
  {
  }

  lemma RankOf(d: Digit)
    ensures Rank(Alphabet()[d]) == d && Alphabet()[d] in Alphabet()
    ensures d == 0 <==> Alphabet()[d] == '1'
  {
    Runs();
  }

  function TextValue(s: string): int {
    if s == "" then 0 else 58 * TextValue(s[..|s| - 1]) + Rank(s[|s| - 1])
  }

  function LeadingOnes(s: string): nat {
    if s != "" && s[0] == '1' then 1 + LeadingOnes(s[1..]) else 0
  }

  function ZeroBytes(n: nat): seq<Byte> { seq(n, _ => 0) }

  /** Reads `Encode` back: a text of ones only stands for one zero byte fewer than it has characters. */
  function Decode(s: string): seq<Byte>
    requires s != ""
  {
    var z := LeadingOnes(s);
    if z >= |s| then ZeroBytes(|s| - 1)
    else
      var n := TextValue(s[z..]);
      if n < 0 then [] else ZeroBytes(z) + MinBytes(n)
  }

  lemma {:induction false} TextValueOf(d: seq<Digit>)
    ensures TextValue(Text(d)) == Value(d)
  {
    if d != [] {
      TextValueOf(d[1..]);
      RankOf(d[0]);
      var t := Text(d);
      assert t[..|t| - 1] == Text(d[1..]);
    }
  }

  lemma {:induction false} OnesThen(n: nat, t: string)
    requires t == "" || t[0] != '1'
    ensures LeadingOnes(Ones(n) + t) == n
  {
    if n > 0 {
      OnesThen(n - 1, t);
      assert (Ones(n) + t)[1..] == Ones(n - 1) + t;
    }
  }

  lemma {:induction false} SplitZeros(b: seq<Byte>)
    ensures var z := LeadingZeros(b);
            z <= |b| && b[..z] == ZeroBytes(z) && (z < |b| ==> b[z] != 0) && BigEndian(b) == BigEndian(b[z..])
  {
    if b != [] && b[0] == 0 {
      SplitZeros(b[1..]);
      var z := LeadingZeros(b[1..]);
      assert b[1..][z..] == b[z + 1..];
      assert b[..z + 1] == [b[0]] + b[1..][..z];
      DropZero(b);
    } else {
      assert b[0..] == b;
    }
  }

  lemma {:induction false} DropZero(b: seq<Byte>)
    requires b != [] && b[0] == 0
    ensures BigEndian(b) == BigEndian(b[1..])
  {
    if |b| == 1 {
      assert b[..0] == [];
    } else {
      DropZero(b[..|b| - 1]);
      assert b[1..][..|b| - 2] == b[..|b| - 1][1..];
    }
  }

  lemma {:induction false} MinBytesOf(b: seq<Byte>)
    requires b == [] || b[0] != 0
    ensures MinBytes(BigEndian(b)) == b && (b != [] ==> BigEndian(b) > 0)
  {
    if b != [] {
      var front, last := b[..|b| - 1], b[|b| - 1];
      MinBytesOf(front);
      assert b == front + [last];
      var n := BigEndian(front);
      hide BigEndian;
      assert (256 * n + last) / 256 == n && (256 * n + last) % 256 == last;
      if front == [] {
        assert n == 0 by { EmptyIsZero(); }
      }
      assert 256 * n + last > 0;
    }
  }

  lemma EmptyIsZero()
    ensures BigEndian([]) == 0
  {
  }

  /** Bytes that are all zero leave the single digit 0, which is written as one more `1`. */
  lemma AllZero(b: seq<Byte>)
    requires LeadingZeros(b) == |b|
    ensures BigEndian(b) == 0 && Encode(b) == Ones(|b| + 1) && Textbook(b) == Ones(|b|)
  {
    hide BigEndian, Text, DigitsOf, Alphabet, LeadingZeros;
    SplitZeros(b);
    assert b[|b|..] == [];
    EmptyIsZero();
    ZeroDigits(b);
    ZeroText();
    assert Ones(|b|) + "1" == Ones(|b| + 1);
  }

  lemma ZeroDigits(b: seq<Byte>)
    requires BigEndian(b) == 0
    ensures DigitsOf(b) == [0]
  {
    DigitsDenote(b);
    var d := DigitsOf(b);
    if d != [0] {
      CanonicalDigits(d);
    }
  }

  lemma ZeroText()
    ensures Text([0]) == "1" && Text([]) == ""
  {
    RankOf(0);
    assert [0][1..] == [];
  }

  lemma SomeNonzero(b: seq<Byte>)
    requires LeadingZeros(b) < |b|
    ensures var d := DigitsOf(b);
            d != [] && d[|d| - 1] != 0 && d == MinDigits(BigEndian(b))
    ensures BigEndian(b) == BigEndian(b[LeadingZeros(b)..]) > 0
  {
    hide BigEndian, LeadingZeros, Value, DigitsOf, MinDigits, MinBytes;
    SplitZeros(b);
    MinBytesOf(b[LeadingZeros(b)..]);
    DigitsDenote(b);
    var d := DigitsOf(b);
    ZeroValue();
    CanonicalDigits(d);
  }

  lemma ZeroValue()
    ensures Value([0]) == 0
  {
  }

  /** Base58Encode loses nothing: every byte sequence, leading zeros included, can be read back. */
  lemma RoundTrip(b: seq<Byte>)
    ensures Encode(b) != "" && Decode(Encode(b)) == b
  {
    hide Alphabet, LeadingZeros, BigEndian, DigitsOf, Text, MinBytes, MinDigits, Encode, Decode;
    var z := LeadingZeros(b);
    SplitZeros(b);
    EncodeIs(b);
    if z == |b| {
      AllZero(b);
      assert Ones(z + 1) + "" == Ones(z + 1);
      OnesThen(z + 1, "");
      DecodeOnes(Encode(b), z);
      assert b[..z] == b;
    } else {
      var d := DigitsOf(b);
      SomeNonzero(b);
      TextValueOf(d);
      DigitsDenote(b);
      MinBytesOf(b[z..]);
      TextOfLast(d);
      RankOf(d[|d| - 1]);
      OnesThen(z, Text(d));
      DecodeText(z, Text(d), BigEndian(b));
      assert b == b[..z] + b[z..];
    }
  }

  lemma EncodeIs(b: seq<Byte>)
    ensures Encode(b) == Ones(LeadingZeros(b)) + Text(DigitsOf(b))
  {
  }

  lemma DecodeOnes(s: string, z: nat)
    requires |s| == z + 1 && LeadingOnes(s) == z + 1
    ensures Decode(s) == ZeroBytes(z)
  {
    hide LeadingOnes;
  }

  lemma DecodeText(z: nat, t: string, n: nat)
    requires t != "" && LeadingOnes(Ones(z) + t) == z && TextValue(t) == n
    ensures Decode(Ones(z) + t) == ZeroBytes(z) + MinBytes(n)
  {
    hide LeadingOnes, TextValue, MinBytes;
    assert (Ones(z) + t)[z..] == t;
  }

  lemma EncodeInjective(b: seq<Byte>, c: seq<Byte>)
    requires Encode(b) == Encode(c)
    ensures b == c
  {
    RoundTrip(b);
    RoundTrip(c);
  }

  /** The text is textbook Base58 exactly when some byte is not zero; otherwise it has one `1` more. */
  lemma TextbookAgreement(b: seq<Byte>)
    ensures Encode(b) == Textbook(b) <==> exists i :: 0 <= i < |b| && b[i] != 0
    ensures Encode(b) != Textbook(b) ==> Encode(b) == Textbook(b) + "1"
  {
    hide Alphabet;
    var z := LeadingZeros(b);
    SplitZeros(b);
    if z == |b| {
      AllZero(b);
      assert b == ZeroBytes(z);
    } else {
      SomeNonzero(b);
      assert b[z] != 0;
    }
  }

  // ---------- Validation ----------

  predicate Valid(cid: string) {
    cid != "" && forall i | 0 <= i < |cid| :: cid[i] in Alphabet()
  }

  method IsValidCID(cid: string) returns (valid: bool)
    ensures valid == Valid(cid)
  {
    hide Alphabet;
    if |cid| == 0 {
      return false;
    }
    for i := 0 to |cid|
      invariant forall k | 0 <= k < i :: cid[k] in Alphabet()
    {
      if cid[i] !in Alphabet() {
        return false;
      }
    }
    return true;
  }

  lemma {:induction false} TextValid(d: seq<Digit>)
    ensures forall i | 0 <= i < |Text(d)| :: Text(d)[i] in Alphabet()
  {
    hide Alphabet;
    if d != [] {
      TextValid(d[1..]);
      RankOf(d[0]);
    }
  }

  lemma EncodeIsValid(b: seq<Byte>)
    ensures Valid(Encode(b))
  {
    hide Alphabet;
    RoundTrip(b);
    TextValid(DigitsOf(b));
    RankOf(0);
  }

  // ---------- Hex and content identifiers ----------

  const HEX: string := "0123456789abcdef"

  /** `byte.toString(16).padStart(2, '0')` */
  function HexByte(b: Byte): string { [HEX[b / 16], HEX[b % 16]] }

  function ToHex(b: seq<Byte>): string {
    if b == [] then "" else HexByte(b[0]) + ToHex(b[1..])
  }

  function HexDigit(c: char): nat {
    if '0' <= c <= '9' then c as int - '0' as int
    else if 'a' <= c <= 'f' then c as int - 'a' as int + 10
    else if 'A' <= c <= 'F' then c as int - 'A' as int + 10
    else 0
  }

  predicate IsHex(s: string) {
    forall c <- s :: '0' <= c <= '9' || 'a' <= c <= 'f' || 'A' <= c <= 'F'
  }

  method HexToBytes(hex: string) returns (bytes: array<Byte>)
    requires IsHex(hex) && |hex| % 2 == 0
    ensures fresh(bytes) && bytes.Length == |hex| / 2
    ensures forall i | 0 <= i < bytes.Length :: bytes[i] == HexDigit(hex[2 * i]) * 16 + HexDigit(hex[2 * i + 1])
  {
    bytes := new Byte[|hex| / 2](_ => 0);
    for i := 0 to bytes.Length
      invariant forall k | 0 <= k < i :: bytes[k] == HexDigit(hex[2 * k]) * 16 + HexDigit(hex[2 * k + 1])
    {
      bytes[i] := HexDigit(hex[2 * i]) * 16 + HexDigit(hex[2 * i + 1]);
    }
  }

  lemma HexDigitOf(n: nat)
    requires n < 16
    ensures HexDigit(HEX[n]) == n && IsHex([HEX[n]])
  {
  }

  /** Reading each pair of digits gives the byte. */
  ghost predicate Spells(t: string, b: seq<Byte>) {
    && |t| == 2 * |b| && IsHex(t)
    && forall i | 0 <= i < |b| :: HexDigit(t[2 * i]) * 16 + HexDigit(t[2 * i + 1]) == b[i]
  }

  lemma SpellsOne(x: Byte)
    ensures Spells(HexByte(x), [x])
  {
    HexDigitOf(x / 16);
    HexDigitOf(x % 16);
    hide HexDigit;
    assert x / 16 * 16 + x % 16 == x;
  }

  lemma SpellsMore(s: string, a: seq<Byte>, t: string, b: seq<Byte>)
    requires Spells(s, a) && Spells(t, b)
    ensures Spells(s + t, a + b)
  {
    hide HexDigit;
    var u, c := s + t, a + b;
    forall i | 0 <= i < |c| ensures HexDigit(u[2 * i]) * 16 + HexDigit(u[2 * i + 1]) == c[i] {
      if i < |a| {
        assert u[2 * i] == s[2 * i] && u[2 * i + 1] == s[2 * i + 1];
      } else {
        var j := i - |a|;
        assert u[2 * i] == t[2 * j] && u[2 * i + 1] == t[2 * j + 1];
      }
    }
  }

  /** Two digits a byte, and reading each pair gives the byte back. */
  lemma {:induction false} HexPairs(b: seq<Byte>)
    ensures |ToHex(b)| == 2 * |b| && IsHex(ToHex(b))
    ensures forall i | 0 <= i < |b| :: HexDigit(ToHex(b)[2 * i]) * 16 + HexDigit(ToHex(b)[2 * i + 1]) == b[i]
  {
    HexSpells(b);
    hide ToHex, HexDigit;
  }

  lemma {:induction false} HexSpells(b: seq<Byte>)
    ensures Spells(ToHex(b), b)
  {
    hide Spells, HexByte;
    if b == [] {
      SpellsNothing();
    } else {
      HexSpells(b[1..]);
      SpellsOne(b[0]);
      SpellsMore(HexByte(b[0]), [b[0]], ToHex(b[1..]), b[1..]);
      assert b == [b[0]] + b[1..];
    }
  }

  lemma SpellsNothing()
    ensures Spells("", [])
  {
  }

  method HexRoundTrip(digest: seq<Byte>) returns (bytes: seq<Byte>)
    ensures bytes == digest
  {
    var hash := ToHex(digest);
    HexPairs(digest);
    hide ToHex, HexDigit, IsHex;
    var hashBytes := HexToBytes(hash);
    bytes := hashBytes[..];
  }

  /** SHA-256, hex text, bytes again, Base58: the identifier is the Base58 text of the digest. */
  method GenerateCID(content: seq<Byte>) returns (cid: string)
    ensures cid == Encode(Sha256.CodeHash(content)) && Valid(cid)
    ensures |content| < 0x2000_0000 ==> cid == Encode(Fips180.Hash(content))
  {
    hide Sha256.CodeHash, Fips180.Hash, Encode, Valid;
    var digest := Sha256.Sha256(content);
    var hashBytes := HexRoundTrip(digest[..]);
    cid := Base58Encode(hashBytes);
    EncodeIsValid(hashBytes);
  }
}
