/** A reader of the grammar of RFC 8259, for texts whose numbers are integers, and what it reads in canonical text. */
module JsonReader {
  import opened Prelude
  import opened Utf8
  import opened CanonicalJson

  // ---------- The grammar, sections 2 to 7 of RFC 8259 ----------

  /** What has been read, and the text behind it. */
  datatype Parsed<+T> = Parsed(value: T, rest: Text)

  /** White space, where the text may have any: tab, line feed, carriage return, space. */
  function SkipSpace(space: bool, u: Text): (r: Text)
    ensures |r| <= |u|
  {
    if space && u != [] && (u[0] == 0x09 || u[0] == 0x0A || u[0] == 0x0D || u[0] == 0x20)
    then SkipSpace(space, u[1..])
    else u
  }

  function ReadWord(u: Text, word: Text, v: Json): (r: Option<Parsed<Json>>)
    ensures r.Some? ==> |r.value.rest| + |word| == |u|
  {
    if word <= u then Some(Parsed(v, u[|word|..])) else None
  }

  predicate IsHex(u: Unit) { 0x30 <= u <= 0x39 || 0x41 <= u <= 0x46 || 0x61 <= u <= 0x66 }

  function HexNumber(u: Unit): nat
    requires IsHex(u)
  {
    if u <= 0x39 then u - 0x30 else if u <= 0x46 then u - 0x41 + 10 else u - 0x61 + 10
  }

  /** The character behind a reverse solidus, and how many characters stand for it. */
  function ReadEscape(u: Text): (r: Option<(Unit, nat)>)
    ensures r.Some? ==> 0 < r.value.1 <= |u|
  {
    if u == [] then None
    else if u[0] == 0x22 || u[0] == 0x5C || u[0] == 0x2F then Some((u[0], 1))
    else if u[0] == 0x62 then Some((0x08, 1))
    else if u[0] == 0x66 then Some((0x0C, 1))
    else if u[0] == 0x6E then Some((0x0A, 1))
    else if u[0] == 0x72 then Some((0x0D, 1))
    else if u[0] == 0x74 then Some((0x09, 1))
    else if u[0] == 0x75 && |u| >= 5 && IsHex(u[1]) && IsHex(u[2]) && IsHex(u[3]) && IsHex(u[4]) then
      Some((HexNumber(u[1]) * 0x1000 + HexNumber(u[2]) * 0x100 + HexNumber(u[3]) * 0x10 + HexNumber(u[4]), 5))
    else None
  }

  /** The rest of a string, behind its first quotation mark. */
  function ReadChars(u: Text): (r: Option<Parsed<Text>>)
    ensures r.Some? ==> |r.value.rest| < |u|
    decreases |u|
  {
    if u == [] || u[0] < 0x20 then None
    else if u[0] == 0x22 then Some(Parsed([], u[1..]))
    else if u[0] == 0x5C then
      match ReadEscape(u[1..])
      case None => None
      case Some((c, n)) => Prefixed([c], ReadChars(u[1 + n..]))
    else Prefixed([u[0]], ReadChars(u[1..]))
  }

  function Prefixed(front: Text, read: Option<Parsed<Text>>): (r: Option<Parsed<Text>>)
    ensures r.Some? <==> read.Some?
    ensures r.Some? ==> r.value.rest == read.value.rest
  {
    match read
    case None => None
    case Some(Parsed(s, rest)) => Some(Parsed(front + s, rest))
  }

  /** How many digits there are, and the number they make in base ten. */
  function CountDigits(u: Text): (n: nat)
    ensures n <= |u| && forall i | 0 <= i < n :: 0x30 <= u[i] <= 0x39
  {
    if u != [] && 0x30 <= u[0] <= 0x39 then 1 + CountDigits(u[1..]) else 0
  }

  function Number(d: Text): int {
    if d == [] then 0 else 10 * Number(d[..|d| - 1]) + d[|d| - 1] as int - 0x30
  }

  /** An integer: no leading zeros, no fraction, no exponent, within the range JavaScript represents exactly. */
  function ReadNumber(u: Text): (r: Option<Parsed<Json>>)
    ensures r.Some? ==> |r.value.rest| < |u|
  {
    var minus := if u != [] && u[0] == 0x2D then 1 else 0;
    var n := CountDigits(u[minus..]);
    var d, rest := u[minus..minus + n], u[minus + n..];
    var v := if minus == 1 then -Number(d) else Number(d);
    if n == 0 || (n > 1 && d[0] == 0x30) then None
    else if rest != [] && (rest[0] == 0x2E || rest[0] == 0x45 || rest[0] == 0x65) then None
    else if -0x1F_FFFF_FFFF_FFFF <= v <= 0x1F_FFFF_FFFF_FFFF then Some(Parsed(Num(v), rest))
    else None
  }

  function ReadValue(space: bool, text: Text): (r: Option<Parsed<Json>>)
    ensures r.Some? ==> |r.value.rest| < |text|
    decreases |text|, 1
  {
    var u := SkipSpace(space, text);
    if u == [] then None
    else if u[0] == 0x6E then ReadWord(u, [0x6E, 0x75, 0x6C, 0x6C], Null)
    else if u[0] == 0x74 then ReadWord(u, [0x74, 0x72, 0x75, 0x65], Bool(true))
    else if u[0] == 0x66 then ReadWord(u, [0x66, 0x61, 0x6C, 0x73, 0x65], Bool(false))
    else if u[0] == 0x22 then
      match ReadChars(u[1..])
      case None => None
      case Some(Parsed(s, rest)) => Some(Parsed(Str(s), rest))
    else if u[0] == 0x5B then
      var v := SkipSpace(space, u[1..]);
      if v != [] && v[0] == 0x5D then Some(Parsed(Arr([]), v[1..]))
      else
        match ReadItems(space, u[1..])
        case None => None
        case Some(Parsed(items, rest)) => Some(Parsed(Arr(items), rest))
    else if u[0] == 0x7B then
      var v := SkipSpace(space, u[1..]);
      if v != [] && v[0] == 0x7D then Some(Parsed(Record([]), v[1..]))
      else
        match ReadMembers(space, u[1..])
        case None => None
        case Some(Parsed(fields, rest)) => Some(Parsed(Record(fields), rest))
    else ReadNumber(u)
  }

  /** The items of an array up to and including the right square bracket. */
  function ReadItems(space: bool, u: Text): (r: Option<Parsed<seq<Json>>>)
    ensures r.Some? ==> |r.value.rest| < |u|
    decreases |u|, 2
  {
    match ReadValue(space, u)
    case None => None
    case Some(Parsed(v, rest)) =>
      var w := SkipSpace(space, rest);
      if w != [] && w[0] == 0x5D then Some(Parsed([v], w[1..]))
      else if w != [] && w[0] == 0x2C then
        match ReadItems(space, w[1..])
        case None => None
        case Some(Parsed(vs, last)) => Some(Parsed([v] + vs, last))
      else None
  }

  /** The members of an object up to and including the right curly bracket, in the order in which they stand. */
  function ReadMembers(space: bool, text: Text): (r: Option<Parsed<seq<Field<Json>>>>)
    ensures r.Some? ==> |r.value.rest| < |text|
    decreases |text|, 2
  {
    var u := SkipSpace(space, text);
    if u == [] || u[0] != 0x22 then None
    else
      match ReadChars(u[1..])
      case None => None
      case Some(Parsed(key, afterKey)) =>
        var t := SkipSpace(space, afterKey);
        if t == [] || t[0] != 0x3A then None
        else
          match ReadValue(space, t[1..])
          case None => None
          case Some(Parsed(v, rest)) =>
            var w := SkipSpace(space, rest);
            if w != [] && w[0] == 0x7D then Some(Parsed([Field(key, v)], w[1..]))
            else if w != [] && w[0] == 0x2C then
              match ReadMembers(space, w[1..])
              case None => None
              case Some(Parsed(fs, last)) => Some(Parsed([Field(key, v)] + fs, last))
            else None
  }

  /** A whole text: one value between white space, with `space` false the value alone and no white space in it
      outside strings. */
  function ReadText(space: bool, u: Text): Option<Json> {
    match ReadValue(space, u)
    case None => None
    case Some(Parsed(v, rest)) => if SkipSpace(space, rest) == [] then Some(v) else None
  }

  // ---------- What a text stands for ----------

  /** Of members with the same name the last one counts. */
  function ValueOf(v: Json): Value
    decreases v, 1
  {
    match v
    case Null => VNull
    case Bool(b) => VBool(b)
    case Num(n) => VNum(n)
    case Str(s) => VStr(s)
    case Arr(items) => VArr(ValuesOf(items))
    case Record(fields) => VRecord(MembersOf(fields))
  }

  function ValuesOf(vs: seq<Json>): seq<Value>
    decreases vs, 0
  {
    if vs == [] then [] else [ValueOf(vs[0])] + ValuesOf(vs[1..])
  }

  function MembersOf(fs: seq<Field<Json>>): map<Text, Value>
    decreases fs, 0
  {
    if fs == [] then map[]
    else
      var later := MembersOf(fs[1..]);
      if fs[0].key in later then later else later[fs[0].key := ValueOf(fs[0].val)]
  }

  /** Before it in the order of UTF-16 code units: the first difference decides, or the shorter is a prefix. */
  ghost predicate Before(a: Text, b: Text) {
    exists k: nat :: FirstDifference(a, b, k)
  }

  predicate FirstDifference(a: Text, b: Text, k: nat) {
    && k <= |a| && k <= |b| && a[..k] == b[..k]
    && ((k == |a| && k < |b|) || (k < |a| && k < |b| && a[k] < b[k]))
  }

  /** In every object of the text the names stand in that order. */
  ghost predicate KeysInOrder(v: Json)
    decreases v, 1
  {
    match v
    case Arr(items) => forall i | 0 <= i < |items| :: KeysInOrder(items[i])
    case Record(fields) =>
      && (forall i, j | 0 <= i < j < |fields| :: Before(fields[i].key, fields[j].key))
      && forall i | 0 <= i < |fields| :: KeysInOrder(fields[i].val)
    case _ => true
  }

  // ---------- Strings are read ----------

  /** What may come behind a value in a text. */
  predicate Follows(x: Text) { x == [] || x[0] == 0x2C || x[0] == 0x5D || x[0] == 0x7D }

  lemma HexRead(n: nat)
    requires n < 16
    ensures IsHex(HexDigit(n)) && HexNumber(HexDigit(n)) == n
  {
  }

  lemma BackslashRead(p: Point, e: Text, u: Text, c: Unit)
    requires |e| >= 2 && e[0] == 0x5C && ReadEscape(e[1..] + u) == Some((c, |e| - 1)) && Units(p) == [c]
    ensures ReadChars(e + u) == Prefixed(Units(p), ReadChars(u))
  {
    hide ReadEscape, Prefixed, Units;
    var t := e + u;
    assert t[1..] == e[1..] + u && t[1 + (|e| - 1)..] == u;
  }

  lemma ShortEscapeRead(c: Unit, k: Unit, u: Text)
    requires ReadEscape([k]) == Some((c, 1)) && k != 0x75
    ensures ReadEscape([k] + u) == Some((c, 1))
  {
  }

  lemma HexEscapeRead(p: nat, u: Text)
    requires p < 0x1_0000
    ensures var e := [0x75, HexDigit(p / 0x1000), HexDigit(p / 0x100 % 16), HexDigit(p / 16 % 16), HexDigit(p % 16)];
            ReadEscape(e + u) == Some((p, 5))
  {
    HexRead(p / 0x1000);
    HexRead(p / 0x100 % 16);
    HexRead(p / 16 % 16);
    HexRead(p % 16);
    HexParts(p);
    var a, b, c, d := HexDigit(p / 0x1000), HexDigit(p / 0x100 % 16), HexDigit(p / 16 % 16), HexDigit(p % 16);
    hide HexDigit, HexNumber, IsHex;
    var t := [0x75, a, b, c, d] + u;
    assert t[0] == 0x75 && t[1] == a && t[2] == b && t[3] == c && t[4] == d;
  }

  lemma HexParts(p: nat)
    requires p < 0x1_0000
    ensures p / 0x1000 * 0x1000 + p / 0x100 % 16 * 0x100 + p / 16 % 16 * 0x10 + p % 16 == p
  {
    var a, b, c := p / 16, p / 0x100, p / 0x1000;
    assert b == a / 16 && c == b / 16;
    assert p == a * 16 + p % 16 && a == b * 16 + a % 16 && b == c * 16 + b % 16;
  }

  lemma PlainRead(c: Unit, u: Text)
    requires c >= 0x20 && c != 0x22 && c != 0x5C
    ensures ReadChars([c] + u) == Prefixed([c], ReadChars(u))
  {
    hide Prefixed, ReadEscape;
    assert ([c] + u)[1..] == u;
  }

  lemma PairRead(c: Unit, d: Unit, u: Text)
    requires c >= 0xD800 && d >= 0xDC00
    ensures ReadChars([c, d] + u) == Prefixed([c, d], ReadChars(u))
  {
    hide ReadChars, ReadEscape;
    PlainRead(c, [d] + u);
    PlainRead(d, u);
    assert [c, d] + u == [c] + ([d] + u);
    match ReadChars(u)
    case None =>
    case Some(Parsed(s, rest)) => assert [c] + ([d] + s) == [c, d] + s;
  }

  lemma EscapeRead(p: Point, u: Text)
    ensures ReadChars(Escape(p) + u) == Prefixed(Units(p), ReadChars(u))
  {
    hide ReadChars, ReadEscape, Prefixed, HexDigit;
    var e := Escape(p);
    if p == 0x22 || p == 0x5C || p == 8 || p == 9 || p == 10 || p == 12 || p == 13 {
      ShortEscapes(p, u);
    } else if p < 0x20 || IsSurrogate(p) {
      HexEscapeRead(p, u);
      assert e[1..] == [0x75, HexDigit(p / 0x1000), HexDigit(p / 0x100 % 16), HexDigit(p / 16 % 16), HexDigit(p % 16)];
      BackslashRead(p, e, u, p);
    } else if p < 0x1_0000 {
      PlainRead(p, u);
    } else {
      PairRead(Units(p)[0], Units(p)[1], u);
    }
  }

  lemma ShortEscapes(p: Point, u: Text)
    requires p == 0x22 || p == 0x5C || p == 8 || p == 9 || p == 10 || p == 12 || p == 13
    ensures ReadChars(Escape(p) + u) == Prefixed(Units(p), ReadChars(u))
  {
    hide ReadChars, Prefixed;
    var e := Escape(p);
    assert ReadEscape([e[1]]) == Some((p, 1));
    ShortEscapeRead(p, e[1], u);
    hide ReadEscape;
    assert e[1..] == [e[1]];
    BackslashRead(p, e, u, p);
  }

  lemma {:induction false} CharsRead(ps: seq<Point>, x: Text)
    ensures ReadChars(EscapeAll(ps) + [0x22] + x) == Some(Parsed(Flatten(Each(ps)), x))
  {
    hide Escape, Units;
    if ps == [] {
      assert EscapeAll(ps) + [0x22] + x == [0x22] + x && ([0x22] + x)[1..] == x;
      assert Flatten(Each(ps)) == [];
    } else {
      var rest := EscapeAll(ps[1..]) + [0x22] + x;
      assert EscapeAll(ps) + [0x22] + x == Escape(ps[0]) + rest;
      EscapeRead(ps[0], rest);
      CharsRead(ps[1..], x);
      hide ReadChars;
      assert Each(ps)[1..] == Each(ps[1..]);
    }
  }

  function Each(ps: seq<Point>): (r: seq<Text>)
    ensures |r| == |ps|
  {
    if ps == [] then [] else [Units(ps[0])] + Each(ps[1..])
  }

  lemma {:induction false} EachOfPoints(s: Text)
    ensures Flatten(Each(Points(s))) == s
  {
    if s != [] {
      UnitsOfFirst(s);
      var t := s[PointWidth(FirstPoint(s))..];
      EachOfPoints(t);
      assert Points(s)[1..] == Points(t);
      assert Each(Points(s))[1..] == Each(Points(t));
      hide Units, FirstPoint;
    }
  }

  lemma QuoteRead(s: Text, x: Text)
    ensures Quote(s) + x != [] && (Quote(s) + x)[0] == 0x22
    ensures ReadChars((Quote(s) + x)[1..]) == Some(Parsed(s, x))
  {
    hide EscapeAll, Points, ReadChars;
    CharsRead(Points(s), x);
    EachOfPoints(s);
    assert (Quote(s) + x)[1..] == EscapeAll(Points(s)) + [0x22] + x;
  }

  // ---------- Numbers are read ----------

  lemma {:induction false} DigitsRead(n: nat)
    ensures Number(Digits(n)) == n && |Digits(n)| > 0 && (forall u <- Digits(n) :: 0x30 <= u <= 0x39)
    ensures n > 0 ==> Digits(n)[0] != 0x30
    ensures n == 0 ==> |Digits(n)| == 1
  {
    if n >= 10 {
      DigitsRead(n / 10);
      var d := Digits(n);
      assert d[..|d| - 1] == Digits(n / 10);
    } else {
      assert Digits(n)[..0] == [];
    }
  }

  lemma {:induction false} CountIs(d: Text, x: Text)
    requires (forall i | 0 <= i < |d| :: 0x30 <= d[i] <= 0x39) && Follows(x)
    ensures CountDigits(d + x) == |d|
  {
    if d == [] {
      assert d + x == x;
    } else {
      CountIs(d[1..], x);
      assert (d + x)[1..] == d[1..] + x;
    }
  }

  /** Digits with or without a minus sign in front, and what may follow a value. */
  lemma SignedRead(minus: nat, d: Text, x: Text, v: int)
    requires minus <= 1 && d != [] && (forall i | 0 <= i < |d| :: 0x30 <= d[i] <= 0x39) && Follows(x)
    requires |d| > 1 ==> d[0] != 0x30
    requires v == (if minus == 1 then -Number(d) else Number(d)) && -0x1F_FFFF_FFFF_FFFF <= v <= 0x1F_FFFF_FFFF_FFFF
    ensures var u := (if minus == 1 then [0x2D] else []) + d + x;
            u != [] && (u[0] == 0x2D || 0x30 <= u[0] <= 0x39) && ReadNumber(u) == Some(Parsed(Num(v), x))
  {
    hide Number, CountDigits;
    CountIs(d, x);
    SignedParts(minus, d, x);
    var u := (if minus == 1 then [0x2D] else []) + d + x;
    NumberParts(u, minus, d, x);
  }

  lemma SignedParts(minus: nat, d: Text, x: Text)
    requires minus <= 1 && d != [] && 0x30 <= d[0] <= 0x39
    ensures var u := (if minus == 1 then [0x2D] else []) + d + x;
            && |u| == minus + |d| + |x| && (u[0] == 0x2D <==> minus == 1) && (minus == 0 ==> u[0] == d[0])
            && u[minus..] == d + x && u[minus..minus + |d|] == d && u[minus + |d|..] == x
  {
  }

  /** The reader takes a number apart in this way. */
  lemma NumberParts(u: Text, minus: nat, d: Text, x: Text)
    requires minus <= 1 && |u| == minus + |d| + |x| && d != [] && (u[0] == 0x2D <==> minus == 1)
    requires u[minus..minus + |d|] == d && u[minus + |d|..] == x && CountDigits(u[minus..]) == |d|
    requires (|d| > 1 ==> d[0] != 0x30) && Follows(x)
    requires var v := if minus == 1 then -Number(d) else Number(d); -0x1F_FFFF_FFFF_FFFF <= v <= 0x1F_FFFF_FFFF_FFFF
    ensures ReadNumber(u) == Some(Parsed(Num(if minus == 1 then -Number(d) else Number(d)), x))
  {
    hide Number, CountDigits;
  }

  lemma NumberRead(n: SafeInt, x: Text)
    requires Follows(x)
    ensures var u := Decimal(n) + x;
            u != [] && (u[0] == 0x2D || 0x30 <= u[0] <= 0x39) && ReadNumber(u) == Some(Parsed(Num(n), x))
  {
    hide Digits, Number, CountDigits, ReadNumber;
    var m: nat := if n < 0 then -n else n;
    DigitsRead(m);
    assert forall i | 0 <= i < |Digits(m)| :: Digits(m)[i] in Digits(m);
    if n < 0 {
      SignedRead(1, Digits(m), x, n);
    } else {
      SignedRead(0, Digits(m), x, n);
      assert [] + Digits(m) == Digits(m);
    }
  }

  // ---------- Values are read ----------

  /** The text is the value followed by `x`, and begins neither with white space nor with a closing bracket. */
  ghost predicate Reads(space: bool, text: Text, v: Json, x: Text) {
    && ReadValue(space, text + x) == Some(Parsed(v, x)) && SkipSpace(space, text + x) == text + x
    && text != [] && text[0] != 0x5D && text[0] != 0x7D
  }

  /** What the printer writes in front of such a rest is read as the value, the fields in the order printed. */
  lemma {:induction false} PrintRead(space: bool, v: Json, x: Text)
    requires Follows(x)
    ensures Reads(space, Print(v), v, x)
    decreases v, 1
  {
    hide Reads, Quote, Decimal, Join;
    match v
    case Null => WordRead(space, v, x);
    case Bool(b) => WordRead(space, v, x);
    case Num(n) => NumValueRead(space, n, x);
    case Str(s) => StrValueRead(space, s, x);
    case Arr(items) => ArrayRead(space, items, x);
    case Record(fields) => RecordRead(space, fields, x);
  }

  lemma NumValueRead(space: bool, n: SafeInt, x: Text)
    requires Follows(x)
    ensures Reads(space, Decimal(n), Num(n), x)
  {
    NumberRead(n, x);
    DecimalHead(n, x);
    hide Decimal, ReadNumber;
    NoSpace(space, Decimal(n) + x);
    hide SkipSpace;
  }

  lemma StrValueRead(space: bool, s: Text, x: Text)
    ensures Reads(space, Quote(s), Str(s), x)
  {
    QuoteRead(s, x);
    assert Quote(s)[0] == 0x22;
    hide Quote, ReadChars;
    NoSpace(space, Quote(s) + x);
    hide SkipSpace;
  }

  lemma WordRead(space: bool, v: Json, x: Text)
    requires v.Null? || v.Bool?
    ensures Reads(space, Print(v), v, x)
  {
    var w := Print(v);
    assert w <= w + x && (w + x)[|w|..] == x && (w + x)[0] == w[0];
  }

  lemma NoSpace(space: bool, u: Text)
    requires u != [] && u[0] > 0x20
    ensures SkipSpace(space, u) == u
  {
  }

  lemma {:induction false} ArrayRead(space: bool, items: seq<Json>, x: Text)
    requires Follows(x)
    ensures Reads(space, [0x5B] + Join(PrintAll(items)) + [0x5D], Arr(items), x)
    decreases items, 1
  {
    var u := [0x5B] + Join(PrintAll(items)) + [0x5D] + x;
    var t := Join(PrintAll(items)) + [0x5D] + x;
    assert u[0] == 0x5B && u[1..] == t;
    NoSpace(space, u);
    if items == [] {
      assert t == [0x5D] + x && t[1..] == x;
      NoSpace(space, t);
    } else {
      ItemsRead(space, items, x);
    }
    hide Join, PrintAll, ReadItems, SkipSpace;
  }

  lemma {:induction false} ItemsRead(space: bool, vs: seq<Json>, x: Text)
    requires vs != [] && Follows(x)
    ensures var t := Join(PrintAll(vs)) + [0x5D] + x;
            && ReadItems(space, t) == Some(Parsed(vs, x))
            && SkipSpace(space, t) == t && t[0] != 0x5D
    decreases vs, 0
  {
    hide Print, ReadValue;
    var parts := PrintAll(vs);
    var behind := AfterFirst(parts, 0x5D, x);
    JoinFirst(parts, 0x5D, x);
    PrintRead(space, vs[0], behind);
    assert parts[0] == Print(vs[0]) && parts[1..] == PrintAll(vs[1..]);
    NoSpace(space, behind);
    if |vs| == 1 {
      assert behind[1..] == x;
      assert vs == [vs[0]];
    } else {
      assert behind[1..] == Join(PrintAll(vs[1..])) + [0x5D] + x;
      ItemsRead(space, vs[1..], x);
      assert vs == [vs[0]] + vs[1..];
    }
  }

  lemma {:induction false} RecordRead(space: bool, fields: seq<Field<Json>>, x: Text)
    requires Follows(x)
    ensures Reads(space, [0x7B] + Join(PrintFields(fields)) + [0x7D], Record(fields), x)
    decreases fields, 1
  {
    if fields != [] {
      MembersRead(space, fields, x);
    }
    BracesRead(space, fields, Join(PrintFields(fields)), x);
    hide Reads, ReadMembers;
  }

  lemma BracesRead(space: bool, fields: seq<Field<Json>>, inner: Text, x: Text)
    requires fields == [] ==> inner == []
    requires fields != [] ==>
               var t := inner + [0x7D] + x;
               ReadMembers(space, t) == Some(Parsed(fields, x)) && SkipSpace(space, t) == t && t[0] != 0x7D
    ensures Reads(space, [0x7B] + inner + [0x7D], Record(fields), x)
  {
    hide ReadMembers, ReadItems, ReadChars, ReadNumber;
    var u, t := [0x7B] + inner + [0x7D] + x, inner + [0x7D] + x;
    assert u[0] == 0x7B && u[1..] == t;
    NoSpace(space, u);
    if fields == [] {
      assert t == [0x7D] + x && t[1..] == x;
      NoSpace(space, t);
    }
    hide SkipSpace;
  }

  lemma {:induction false} MembersRead(space: bool, fs: seq<Field<Json>>, x: Text)
    requires fs != [] && Follows(x)
    ensures var t := Join(PrintFields(fs)) + [0x7D] + x;
            && ReadMembers(space, t) == Some(Parsed(fs, x))
            && SkipSpace(space, t) == t && t[0] != 0x7D
    decreases fs, 0
  {
    hide Print, ReadValue, Quote, ReadChars;
    var parts, f := PrintFields(fs), fs[0];
    var behind := AfterFirst(parts, 0x7D, x);
    var t := Join(parts) + [0x7D] + x;
    JoinFirst(parts, 0x7D, x);
    var afterKey := [0x3A] + (Print(f.val) + behind);
    assert t == Quote(f.key) + afterKey;
    QuoteRead(f.key, afterKey);
    NoSpace(space, t);
    NoSpace(space, afterKey);
    assert afterKey[1..] == Print(f.val) + behind;
    PrintRead(space, f.val, behind);
    assert parts[1..] == PrintFields(fs[1..]);
    NoSpace(space, behind);
    if |fs| == 1 {
      assert behind[1..] == x;
      assert fs == [Field(f.key, f.val)];
    } else {
      assert behind[1..] == Join(PrintFields(fs[1..])) + [0x7D] + x;
      MembersRead(space, fs[1..], x);
      assert fs == [Field(f.key, f.val)] + fs[1..];
    }
  }

  // ---------- What canonical text says ----------

  lemma {:induction false} LessIff(a: Text, b: Text)
    ensures Less(a, b) <==> Before(a, b)
  {
    if b == [] {
      assert forall k: nat :: !FirstDifference(a, b, k);
    } else if a == [] {
      assert FirstDifference(a, b, 0);
    } else if a[0] != b[0] {
      if a[0] < b[0] {
        assert FirstDifference(a, b, 0);
      } else {
        forall k: nat ensures !FirstDifference(a, b, k) {
          if 0 < k <= |a| && k <= |b| {
            assert a[..k][0] == a[0] && b[..k][0] == b[0];
          }
        }
      }
    } else {
      LessIff(a[1..], b[1..]);
      assert a == [a[0]] + a[1..] && b == [b[0]] + b[1..];
      if Before(a[1..], b[1..]) {
        var k: nat :| FirstDifference(a[1..], b[1..], k);
        assert a[..k + 1] == [a[0]] + a[1..][..k] && b[..k + 1] == [b[0]] + b[1..][..k];
        assert FirstDifference(a, b, k + 1);
      }
      if Before(a, b) {
        var k: nat :| FirstDifference(a, b, k);
        assert a[1..][..k - 1] == a[..k][1..] && b[1..][..k - 1] == b[..k][1..];
        assert FirstDifference(a[1..], b[1..], k - 1);
      }
    }
  }

  lemma {:induction false} AscendingInOrder(fs: seq<Field<Json>>)
    requires Ascending(fs)
    ensures forall i, j | 0 <= i < j < |fs| :: Before(fs[i].key, fs[j].key)
  {
    hide Less, Before;
    if fs != [] {
      AscendingInOrder(fs[1..]);
      forall i, j | 0 <= i < j < |fs| ensures Before(fs[i].key, fs[j].key) {
        assert fs[j] == fs[1..][j - 1] && fs[j] in fs[1..];
        if i == 0 {
          assert fs[j].key in Keys(fs[1..]);
          LessIff(fs[0].key, fs[j].key);
        } else {
          assert fs[i] == fs[1..][i - 1];
        }
      }
    }
  }

  lemma {:induction false} NormalInOrder(v: Json)
    requires IsNormal(v)
    ensures KeysInOrder(v)
    decreases v, 1
  {
    match v
    case Arr(items) => ItemsInOrder(items);
    case Record(fields) =>
      AscendingInOrder(fields);
      FieldsInOrder(fields);
    case _ =>
  }

  lemma {:induction false} ItemsInOrder(vs: seq<Json>)
    requires AllNormal(vs)
    ensures forall i | 0 <= i < |vs| :: KeysInOrder(vs[i])
    decreases vs, 0
  {
    if vs != [] {
      hide KeysInOrder, IsNormal;
      NormalInOrder(vs[0]);
      ItemsInOrder(vs[1..]);
      assert vs == [vs[0]] + vs[1..];
    }
  }

  lemma {:induction false} FieldsInOrder(fs: seq<Field<Json>>)
    requires FieldsNormal(fs)
    ensures forall i | 0 <= i < |fs| :: KeysInOrder(fs[i].val)
    decreases fs, 0
  {
    if fs != [] {
      hide KeysInOrder, IsNormal;
      NormalInOrder(fs[0].val);
      FieldsInOrder(fs[1..]);
      assert fs == [fs[0]] + fs[1..];
    }
  }

  lemma {:induction false} ValueIsMeaning(v: Json)
    requires IsNormal(v)
    ensures ValueOf(v) == Meaning(v)
    decreases v, 1
  {
    match v
    case Arr(items) => ValuesAreMeanings(items);
    case Record(fields) => MembersAreMeanings(fields);
    case _ =>
  }

  lemma {:induction false} ValuesAreMeanings(vs: seq<Json>)
    requires AllNormal(vs)
    ensures ValuesOf(vs) == Meanings(vs)
    decreases vs, 0
  {
    if vs != [] {
      hide ValueOf, Meaning, IsNormal;
      ValueIsMeaning(vs[0]);
      ValuesAreMeanings(vs[1..]);
    }
  }

  lemma {:induction false} MembersAreMeanings(fs: seq<Field<Json>>)
    requires Ascending(fs) && FieldsNormal(fs)
    ensures MembersOf(fs) == FieldMeanings(fs)
    decreases fs, 0
  {
    if fs != [] {
      hide ValueOf, Meaning, IsNormal, Less;
      ValueIsMeaning(fs[0].val);
      MembersAreMeanings(fs[1..]);
      if fs[0].key in Keys(fs[1..]) {
        LessIrreflexive(fs[0].key);
      }
    }
  }

  /** Reading the canonical text gives the value, the reader meets the names of every object in order, and there is no
      white space to skip. */
  lemma CanonicalRead(space: bool, v: Json)
    requires Distinct(v)
    ensures var tree := ReadText(space, Canonical(v));
            tree.Some? && ValueOf(tree.value) == Meaning(v) && KeysInOrder(tree.value)
  {
    hide Canonical, Meaning, Print, Normal, IsNormal, ReadValue, ValueOf, KeysInOrder;
    var w := Normal(v);
    CanonicalIsPrint(v);
    assert Print(w) + [] == Print(w);
    PrintRead(space, w, []);
    NormalMeaning(v);
    NormalIsNormal(v);
    ValueIsMeaning(w);
    NormalInOrder(w);
  }

  // ---------- The text is the one JSON.stringify writes ----------

  /** Each character is written in one way: seven of them, and no others, with a reverse solidus and one more
      character, the other control characters and unpaired surrogates with four lower-case hexadecimal digits, and
      the rest as they are. With what the reader makes of it, this leaves one text for each character. */
  lemma EscapeShape(p: Point, u: Text)
    ensures var e, short := Escape(p), p == 0x22 || p == 0x5C || p == 8 || p == 9 || p == 10 || p == 12 || p == 13;
            && ReadChars(e + u) == Prefixed(Units(p), ReadChars(u))
            && (|e| == 2 && e[0] == 0x5C <==> short)
            && (|e| == 6 <==> !short && (p < 0x20 || IsSurrogate(p)))
            && (|e| == 6 ==> forall i | 2 <= i < 6 :: 0x30 <= e[i] <= 0x39 || 0x61 <= e[i] <= 0x66)
            && (e == Units(p) || e[0] == 0x5C)
  {
    EscapeRead(p, u);
    hide ReadChars, Prefixed;
  }
}
