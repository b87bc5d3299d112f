/** canonicalJson of src/crypto/CryptoService.ts, with strings quoted as JSON.stringify does. */
module CanonicalJson {
  import opened Utf8

  type Text = seq<Unit>

  // Integers JavaScript represents exactly.
  type SafeInt = n: int | -0x1F_FFFF_FFFF_FFFF <= n <= 0x1F_FFFF_FFFF_FFFF

  /** A JavaScript value; the fields of a record are in insertion order. */
  datatype Json =
    | Null
    | Bool(b: bool)
    | Num(n: SafeInt)
    | Str(s: Text)
    | Arr(items: seq<Json>)
    | Record(fields: seq<Field<Json>>)

  datatype Field<+T> = Field(key: Text, val: T)

  /** The value itself, in which a record is a map. */
  datatype Value =
    | VNull
    | VBool(b: bool)
    | VNum(n: SafeInt)
    | VStr(s: Text)
    | VArr(items: seq<Value>)
    | VRecord(fields: map<Text, Value>)

  const QUOTE: Unit := 34
  const COMMA: Unit := 44
  const MINUS: Unit := 45
  const COLON: Unit := 58
  const LBRACKET: Unit := 91
  const BACKSLASH: Unit := 92
  const RBRACKET: Unit := 93
  const LBRACE: Unit := 123
  const RBRACE: Unit := 125

  /** No record repeats a key, at any depth. */
  ghost predicate Distinct(v: Json)
    decreases v, 1
  {
    match v
    case Arr(items) => AllDistinct(items)
    case Record(fields) => FieldsDistinct(fields)
    case _ => true
  }

  ghost predicate AllDistinct(vs: seq<Json>)
    decreases vs, 0
  {
    vs == [] || (Distinct(vs[0]) && AllDistinct(vs[1..]))
  }

  ghost predicate FieldsDistinct(fs: seq<Field<Json>>)
    decreases fs, 0
  {
    fs == [] || (Distinct(fs[0].val) && fs[0].key !in Keys(fs[1..]) && FieldsDistinct(fs[1..]))
  }

  ghost function Keys<T>(fs: seq<Field<T>>): set<Text> { set f | f in fs :: f.key }

  // ---------- The value of a JavaScript object ----------

  function Meaning(v: Json): Value
    decreases v, 1
  {
    match v
    case Null => VNull
    case Bool(b) => VBool(b)
    case Num(n) => VNum(n)
    case Str(s) => VStr(s)
    case Arr(items) => VArr(Meanings(items))
    case Record(fields) => VRecord(FieldMeanings(fields))
  }

  function Meanings(vs: seq<Json>): (r: seq<Value>)
    ensures |r| == |vs|
    decreases vs, 0
  {
    if vs == [] then [] else [Meaning(vs[0])] + Meanings(vs[1..])
  }

  function FieldMeanings(fs: seq<Field<Json>>): (m: map<Text, Value>)
    ensures m.Keys == Keys(fs)
    decreases fs, 0
  {
    if fs == [] then map[] else FieldMeanings(fs[1..])[fs[0].key := Meaning(fs[0].val)]
  }

  // ---------- Printing ----------

  function HexDigit(n: nat): Unit
    requires n < 16
  {
    if n < 10 then 48 + n else 87 + n
  }

  /** Section 7 of RFC 8259, escaping only what has to be escaped, and unpaired surrogates. */
  function Escape(p: Point): Text {
    if p == QUOTE || p == BACKSLASH then [BACKSLASH, p]
    else if p == 8 then [BACKSLASH, 98]
    else if p == 9 then [BACKSLASH, 116]
    else if p == 10 then [BACKSLASH, 110]
    else if p == 12 then [BACKSLASH, 102]
    else if p == 13 then [BACKSLASH, 114]
    else if p < 32 || IsSurrogate(p) then
      [BACKSLASH, 117, HexDigit(p / 0x1000), HexDigit(p / 0x100 % 16), HexDigit(p / 16 % 16), HexDigit(p % 16)]
    else Units(p)
  }

  function EscapeAll(ps: seq<Point>): Text {
    if ps == [] then [] else Escape(ps[0]) + EscapeAll(ps[1..])
  }

  function Quote(s: Text): Text { [QUOTE] + EscapeAll(Points(s)) + [QUOTE] }

  function Digits(n: nat): Text {
    if n < 10 then [48 + n] else Digits(n / 10) + [48 + n % 10]
  }

  function Decimal(n: int): Text { if n < 0 then [MINUS] + Digits(-n) else Digits(n) }

  function Join(parts: seq<Text>): Text {
    if parts == [] then []
    else if |parts| == 1 then parts[0]
    else parts[0] + [COMMA] + Join(parts[1..])
  }

  /** JSON text with the fields in the order given. */
  function Print(v: Json): Text
    decreases v, 1
  {
    match v
    case Null => [110, 117, 108, 108]
    case Bool(b) => if b then [116, 114, 117, 101] else [102, 97, 108, 115, 101]
    case Num(n) => Decimal(n)
    case Str(s) => Quote(s)
    case Arr(items) => [LBRACKET] + Join(PrintAll(items)) + [RBRACKET]
    case Record(fields) => [LBRACE] + Join(PrintFields(fields)) + [RBRACE]
  }

  function PrintAll(vs: seq<Json>): (r: seq<Text>)
    ensures |r| == |vs|
    decreases vs, 0
  {
    if vs == [] then [] else [Print(vs[0])] + PrintAll(vs[1..])
  }

  function PrintField(key: Text, text: Text): Text { Quote(key) + [COLON] + text }

  function PrintFields(fs: seq<Field<Json>>): (r: seq<Text>)
    ensures |r| == |fs|
    decreases fs, 0
  {
    if fs == [] then [] else [PrintField(fs[0].key, Print(fs[0].val))] + PrintFields(fs[1..])
  }

  // ---------- Key order ----------

  /** The order of `sort()` on strings: by code units, a proper prefix first. */
  predicate Less(a: Text, b: Text) {
    b != [] && (a == [] || a[0] < b[0] || (a[0] == b[0] && Less(a[1..], b[1..])))
  }

  function Insert<T>(f: Field<T>, fs: seq<Field<T>>): seq<Field<T>> {
    if fs == [] || Less(f.key, fs[0].key) then [f] + fs else [fs[0]] + Insert(f, fs[1..])
  }

  function SortFields<T>(fs: seq<Field<T>>): seq<Field<T>> {
    if fs == [] then [] else Insert(fs[0], SortFields(fs[1..]))
  }

  // ---------- canonicalJson ----------

  function Canonical(v: Json): Text
    decreases v, 1
  {
    match v
    case Arr(items) => [LBRACKET] + Join(CanonicalAll(items)) + [RBRACKET]
    case Record(fields) => [LBRACE] + Join(FieldTexts(SortFields(CanonicalFields(fields)))) + [RBRACE]
    case _ => Print(v)
  }

  function CanonicalAll(vs: seq<Json>): seq<Text>
    decreases vs, 0
  {
    if vs == [] then [] else [Canonical(vs[0])] + CanonicalAll(vs[1..])
  }

  function CanonicalFields(fs: seq<Field<Json>>): seq<Field<Text>>
    decreases fs, 0
  {
    if fs == [] then [] else [Field(fs[0].key, Canonical(fs[0].val))] + CanonicalFields(fs[1..])
  }

  function FieldTexts(fs: seq<Field<Text>>): seq<Text> {
    if fs == [] then [] else [PrintField(fs[0].key, fs[0].val)] + FieldTexts(fs[1..])
  }

  // ---------- Strings are read back ----------

  function HexValue(u: Unit): int { if u < 58 then u - 48 else u - 87 }

  /** The code point an escape at the front of `u` stands for, and its length. */
  function Unescape(u: Text): (int, nat)
    requires u != []
  {
    if u[0] == BACKSLASH && |u| >= 2 then
      var c := u[1];
      if c == 98 then (8, 2)
      else if c == 116 then (9, 2)
      else if c == 110 then (10, 2)
      else if c == 102 then (12, 2)
      else if c == 114 then (13, 2)
      else if c == 117 && |u| >= 6 then
        (HexValue(u[2]) * 0x1000 + HexValue(u[3]) * 0x100 + HexValue(u[4]) * 16 + HexValue(u[5]), 6)
      else (c, 2)
    else (FirstPoint(u), PointWidth(FirstPoint(u)))
  }

  lemma HexBack(p: nat)
    requires p < 0x1_0000
    ensures HexValue(HexDigit(p / 0x1000)) * 0x1000 + HexValue(HexDigit(p / 0x100 % 16)) * 0x100
          + HexValue(HexDigit(p / 16 % 16)) * 16 + HexValue(HexDigit(p % 16)) == p
  {
    var y := p / 16;
    assert p / 0x100 == y / 16 && p / 0x1000 == y / 16 / 16;
  }

  lemma UnescapeEscaped(p: Point, x: Text)
    ensures |Escape(p)| > 0 && Escape(p)[0] != QUOTE
    ensures Unescape(Escape(p) + x) == (p, |Escape(p)|)
  {
    var e := Escape(p);
    assert forall i | 0 <= i < |e| :: (e + x)[i] == e[i];
    if e[0] == BACKSLASH {
      if p < 32 || IsSurrogate(p) {
        HexBack(p);
      }
    } else {
      PointsOfUnits(p, x);
    }
  }

  lemma {:induction false} EscapeAllPrefix(ps: seq<Point>, qs: seq<Point>, x: Text, y: Text)
    requires EscapeAll(ps) + [QUOTE] + x == EscapeAll(qs) + [QUOTE] + y
    ensures ps == qs && x == y
  {
    hide Escape, Unescape;
    var u := EscapeAll(ps) + [QUOTE] + x;
    if ps != [] {
      UnescapeEscaped(ps[0], EscapeAll(ps[1..]) + [QUOTE] + x);
      assert u == Escape(ps[0]) + (EscapeAll(ps[1..]) + [QUOTE] + x) && u[0] == Escape(ps[0])[0];
    }
    if qs != [] {
      UnescapeEscaped(qs[0], EscapeAll(qs[1..]) + [QUOTE] + y);
      assert u == Escape(qs[0]) + (EscapeAll(qs[1..]) + [QUOTE] + y) && u[0] == Escape(qs[0])[0];
    }
    if ps == [] || qs == [] {
      assert ps == qs;
      assert u == [QUOTE] + x == [QUOTE] + y;
      assert x == u[1..] == y;
    } else {
      assert ps[0] == qs[0];
      var n := |Escape(ps[0])|;
      assert u[n..] == EscapeAll(ps[1..]) + [QUOTE] + x;
      assert u[n..] == EscapeAll(qs[1..]) + [QUOTE] + y;
      EscapeAllPrefix(ps[1..], qs[1..], x, y);
      assert ps == [ps[0]] + ps[1..] && qs == [qs[0]] + qs[1..];
    }
  }

  lemma {:induction false} PointsInjective(s: Text, t: Text)
    requires Points(s) == Points(t)
    ensures s == t
  {
    if s != [] {
      assert t != [];
      var p := FirstPoint(s);
      assert Points(s)[0] == p == FirstPoint(t);
      UnitsOfFirst(s);
      UnitsOfFirst(t);
      var w := PointWidth(p);
      assert Points(s[w..]) == Points(s)[1..] == Points(t)[1..] == Points(t[w..]);
      PointsInjective(s[w..], t[w..]);
    }
  }

  lemma QuotePrefix(s: Text, t: Text, x: Text, y: Text)
    requires Quote(s) + x == Quote(t) + y
    ensures s == t && x == y
  {
    hide EscapeAll, Points;
    var u := Quote(s) + x;
    assert u[1..] == EscapeAll(Points(s)) + [QUOTE] + x;
    assert u[1..] == EscapeAll(Points(t)) + [QUOTE] + y;
    EscapeAllPrefix(Points(s), Points(t), x, y);
    PointsInjective(s, t);
  }

  // ---------- Numbers are read back ----------

  predicate IsDigit(u: Unit) { 48 <= u <= 57 }

  /** What may follow a value inside a text: nothing, or a character that continues no number. */
  predicate Ends(x: Text) { x == [] || !IsDigit(x[0]) }

  function DigitCount(u: Text): nat {
    if u == [] || !IsDigit(u[0]) then 0 else 1 + DigitCount(u[1..])
  }

  function DigitsValue(d: Text): int {
    if d == [] then 0 else DigitsValue(d[..|d| - 1]) * 10 + d[|d| - 1] - 48
  }

  lemma {:induction false} DigitsBack(n: nat)
    ensures DigitsValue(Digits(n)) == n && |Digits(n)| > 0 && forall i | 0 <= i < |Digits(n)| :: IsDigit(Digits(n)[i])
  {
    if n >= 10 {
      DigitsBack(n / 10);
      var d := Digits(n);
      assert d[..|d| - 1] == Digits(n / 10);
    } else {
      assert Digits(n)[..0] == [];
    }
  }

  lemma {:induction false} CountOf(d: Text, x: Text)
    requires (forall i | 0 <= i < |d| :: IsDigit(d[i])) && Ends(x)
    ensures DigitCount(d + x) == |d|
  {
    if d == [] {
      assert d + x == x;
    } else {
      CountOf(d[1..], x);
      assert (d + x)[1..] == d[1..] + x;
    }
  }

  lemma DigitsPrefix(m: nat, n: nat, x: Text, y: Text)
    requires Digits(m) + x == Digits(n) + y && Ends(x) && Ends(y)
    ensures m == n && x == y
  {
    hide Digits, DigitCount, DigitsValue;
    DigitsBack(m);
    DigitsBack(n);
    CountOf(Digits(m), x);
    CountOf(Digits(n), y);
    var u, k := Digits(m) + x, |Digits(m)|;
    assert u[..k] == Digits(m) && u[..k] == Digits(n) && u[k..] == x && u[k..] == y;
  }

  lemma DecimalPrefix(m: int, n: int, x: Text, y: Text)
    requires Decimal(m) + x == Decimal(n) + y && Ends(x) && Ends(y)
    ensures m == n && x == y
  {
    hide Digits;
    DecimalHead(m, x);
    DecimalHead(n, y);
    if m < 0 {
      DropMinus(m, x);
      DropMinus(n, y);
      DigitsPrefix(-m, -n, x, y);
    } else {
      DigitsPrefix(m, n, x, y);
    }
  }

  lemma DropMinus(n: int, x: Text)
    requires n < 0
    ensures (Decimal(n) + x)[1..] == Digits(-n) + x
  {
  }

  lemma DecimalHead(n: int, x: Text)
    ensures Decimal(n) != [] && (Decimal(n) + x)[0] == Decimal(n)[0]
    ensures if n < 0 then Decimal(n)[0] == MINUS else IsDigit(Decimal(n)[0])
  {
    if n >= 0 {
      DigitsBack(n);
    }
  }

  // ---------- Texts are read back ----------

  /** The first character tells the kind of value. */
  function Kind(v: Json): nat {
    match v
    case Null => 0
    case Bool(_) => 1
    case Num(_) => 2
    case Str(_) => 3
    case Arr(_) => 4
    case Record(_) => 5
  }

  function KindAt(u: Unit): nat {
    if u == 110 then 0
    else if u == 116 || u == 102 then 1
    else if u == MINUS || IsDigit(u) then 2
    else if u == QUOTE then 3
    else if u == LBRACKET then 4
    else if u == LBRACE then 5
    else 6
  }

  lemma PrintHead(v: Json, x: Text)
    ensures Print(v) != [] && (Print(v) + x)[0] == Print(v)[0] && KindAt(Print(v)[0]) == Kind(v)
  {
    if v.Num? {
      DecimalHead(v.n, x);
    }
  }

  /** The text after the first of the joined parts. */
  function AfterFirst(parts: seq<Text>, close: Unit, x: Text): Text
    requires parts != []
  {
    if |parts| == 1 then [close] + x else [COMMA] + Join(parts[1..]) + [close] + x
  }

  lemma JoinFirst(parts: seq<Text>, close: Unit, x: Text)
    requires parts != []
    ensures Join(parts) + [close] + x == parts[0] + AfterFirst(parts, close, x)
  {
  }

  /** Two values printed in front of texts that do not continue a number are told apart by the texts. */
  lemma {:induction false} PrintPrefix(v: Json, w: Json, x: Text, y: Text)
    requires Print(v) + x == Print(w) + y && Ends(x) && Ends(y)
    ensures v == w && x == y
    decreases v, 1
  {
    hide KindAt, Decimal, Quote, Join, Ends;
    PrintHead(v, x);
    PrintHead(w, y);
    assert Kind(v) == Kind(w);
    match v
    case Null => LiteralPrefix(v, w, x, y);
    case Bool(b) => LiteralPrefix(v, w, x, y);
    case Num(n) => DecimalPrefix(n, w.n, x, y);
    case Str(s) => QuotePrefix(s, w.s, x, y);
    case Arr(items) =>
      Bracketed(LBRACKET, Join(PrintAll(items)), RBRACKET, x);
      Bracketed(LBRACKET, Join(PrintAll(w.items)), RBRACKET, y);
      ItemsPrefix(items, w.items, x, y);
    case Record(fields) =>
      Bracketed(LBRACE, Join(PrintFields(fields)), RBRACE, x);
      Bracketed(LBRACE, Join(PrintFields(w.fields)), RBRACE, y);
      FieldsPrefix(fields, w.fields, x, y);
  }

  lemma Bracketed(open: Unit, s: Text, close: Unit, x: Text)
    ensures ([open] + s + [close] + x)[1..] == s + [close] + x
  {
  }

  lemma LiteralPrefix(v: Json, w: Json, x: Text, y: Text)
    requires (v.Null? && w.Null?) || (v.Bool? && w.Bool?)
    requires Print(v) + x == Print(w) + y
    ensures v == w && x == y
  {
    var u, n := Print(v) + x, |Print(v)|;
    assert u[0] == Print(v)[0] == Print(w)[0];
    assert u[n..] == x && u[n..] == y;
  }

  lemma {:induction false} ItemsPrefix(vs: seq<Json>, ws: seq<Json>, x: Text, y: Text)
    requires Join(PrintAll(vs)) + [RBRACKET] + x == Join(PrintAll(ws)) + [RBRACKET] + y
    ensures vs == ws && x == y
    decreases vs, 0
  {
    hide Print, KindAt;
    ItemsHead(vs, x);
    ItemsHead(ws, y);
    if vs == [] {
      var u := Join(PrintAll(vs)) + [RBRACKET] + x;
      assert u == [RBRACKET] + x == [RBRACKET] + y;
      assert u[1..] == x && u[1..] == y;
    } else {
      var a, b := AfterFirst(PrintAll(vs), RBRACKET, x), AfterFirst(PrintAll(ws), RBRACKET, y);
      JoinFirst(PrintAll(vs), RBRACKET, x);
      JoinFirst(PrintAll(ws), RBRACKET, y);
      PrintPrefix(vs[0], ws[0], a, b);
      assert a[0] == b[0];
      assert PrintAll(vs)[1..] == PrintAll(vs[1..]) && PrintAll(ws)[1..] == PrintAll(ws[1..]);
      if |vs| == 1 {
        assert a[1..] == x && b[1..] == y;
      } else {
        assert a[1..] == Join(PrintAll(vs[1..])) + [RBRACKET] + x && b[1..] == Join(PrintAll(ws[1..])) + [RBRACKET] + y;
        ItemsPrefix(vs[1..], ws[1..], x, y);
      }
      assert vs == [vs[0]] + vs[1..] && ws == [ws[0]] + ws[1..];
    }
  }

  lemma ItemsHead(vs: seq<Json>, x: Text)
    ensures var u := Join(PrintAll(vs)) + [RBRACKET] + x;
            u != [] && (u[0] == RBRACKET <==> vs == [])
  {
    if vs != [] {
      JoinFirst(PrintAll(vs), RBRACKET, x);
      PrintHead(vs[0], AfterFirst(PrintAll(vs), RBRACKET, x));
    }
  }

  lemma {:induction false} FieldsPrefix(fs: seq<Field<Json>>, gs: seq<Field<Json>>, x: Text, y: Text)
    requires Join(PrintFields(fs)) + [RBRACE] + x == Join(PrintFields(gs)) + [RBRACE] + y
    ensures fs == gs && x == y
    decreases fs, 0
  {
    hide Print, PrintField;
    FieldsHead(fs, x);
    FieldsHead(gs, y);
    if fs == [] {
      var u := Join(PrintFields(fs)) + [RBRACE] + x;
      assert u == [RBRACE] + x == [RBRACE] + y;
      assert u[1..] == x && u[1..] == y;
    } else {
      var f, g := fs[0], gs[0];
      var a, b := AfterFirst(PrintFields(fs), RBRACE, x), AfterFirst(PrintFields(gs), RBRACE, y);
      JoinFirst(PrintFields(fs), RBRACE, x);
      JoinFirst(PrintFields(gs), RBRACE, y);
      KeyPrefix(f.key, g.key, Print(f.val), Print(g.val), a, b);
      PrintPrefix(f.val, g.val, a, b);
      assert a[0] == b[0];
      assert PrintFields(fs)[1..] == PrintFields(fs[1..]) && PrintFields(gs)[1..] == PrintFields(gs[1..]);
      if |fs| == 1 {
        assert a[1..] == x && b[1..] == y;
      } else {
        assert a[1..] == Join(PrintFields(fs[1..])) + [RBRACE] + x
          && b[1..] == Join(PrintFields(gs[1..])) + [RBRACE] + y;
        FieldsPrefix(fs[1..], gs[1..], x, y);
      }
      assert fs == [f] + fs[1..] && gs == [g] + gs[1..];
    }
  }

  lemma KeyPrefix(k: Text, l: Text, s: Text, t: Text, a: Text, b: Text)
    requires PrintField(k, s) + a == PrintField(l, t) + b
    ensures k == l && s + a == t + b
  {
    hide Quote;
    var c, d := [COLON] + s + a, [COLON] + t + b;
    assert PrintField(k, s) + a == Quote(k) + c && PrintField(l, t) + b == Quote(l) + d;
    QuotePrefix(k, l, c, d);
    assert c[1..] == s + a && d[1..] == t + b;
  }

  lemma FieldsHead(fs: seq<Field<Json>>, x: Text)
    ensures var u := Join(PrintFields(fs)) + [RBRACE] + x;
            u != [] && (u[0] == RBRACE <==> fs == [])
  {
    if fs != [] {
      JoinFirst(PrintFields(fs), RBRACE, x);
      assert PrintFields(fs)[0][0] == QUOTE;
    }
  }

  /** The printer is injective on values whose field order counts. */
  lemma PrintInjective(v: Json, w: Json)
    requires Print(v) == Print(w)
    ensures v == w
  {
    assert Print(v) + [] == Print(w) + [];
    PrintPrefix(v, w, [], []);
  }

  // ---------- The key order is a strict total order ----------

  lemma {:induction false} LessTotal(a: Text, b: Text)
    ensures a == b || Less(a, b) || Less(b, a)
    ensures !(Less(a, b) && Less(b, a)) && !Less(a, a)
  {
    if a != [] && b != [] && a[0] == b[0] {
      LessTotal(a[1..], b[1..]);
      assert a == [a[0]] + a[1..] && b == [b[0]] + b[1..];
    }
    if a != [] {
      LessIrreflexive(a);
    }
  }

  lemma {:induction false} LessIrreflexive(a: Text)
    ensures !Less(a, a)
  {
    if a != [] {
      LessIrreflexive(a[1..]);
    }
  }

  lemma {:induction false} LessTransitive(a: Text, b: Text, c: Text)
    requires Less(a, b) && Less(b, c)
    ensures Less(a, c)
  {
    if a != [] && a[0] == b[0] == c[0] {
      LessTransitive(a[1..], b[1..], c[1..]);
    }
  }

  // ---------- Sorting ----------

  ghost predicate DistinctKeys<T>(fs: seq<Field<T>>) {
    fs == [] || (fs[0].key !in Keys(fs[1..]) && DistinctKeys(fs[1..]))
  }

  /** Strictly ascending keys. */
  ghost predicate Ascending<T>(fs: seq<Field<T>>) {
    fs == [] || ((forall k | k in Keys(fs[1..]) :: Less(fs[0].key, k)) && Ascending(fs[1..]))
  }

  lemma KeysCons<T>(f: Field<T>, fs: seq<Field<T>>)
    ensures Keys([f] + fs) == {f.key} + Keys(fs)
  {
    assert ([f] + fs)[0] == f;
    forall g | g in fs ensures g in [f] + fs {
    }
  }

  lemma {:induction false} InsertAscending<T>(f: Field<T>, fs: seq<Field<T>>)
    requires Ascending(fs) && f.key !in Keys(fs)
    ensures Ascending(Insert(f, fs)) && Keys(Insert(f, fs)) == {f.key} + Keys(fs)
  {
    KeysCons(f, fs);
    if fs == [] {
      assert Ascending([f]) by { assert [f][1..] == []; }
    } else {
      assert fs == [fs[0]] + fs[1..];
      KeysCons(fs[0], fs[1..]);
      LessTotal(f.key, fs[0].key);
      if Less(f.key, fs[0].key) {
        forall k | k in Keys(fs[1..]) ensures Less(f.key, k) {
          LessTransitive(f.key, fs[0].key, k);
        }
        assert ([f] + fs)[1..] == fs;
      } else {
        InsertAscending(f, fs[1..]);
        KeysCons(fs[0], Insert(f, fs[1..]));
        assert ([fs[0]] + Insert(f, fs[1..]))[1..] == Insert(f, fs[1..]);
      }
    }
  }

  lemma {:induction false} SortAscending<T>(fs: seq<Field<T>>)
    requires DistinctKeys(fs)
    ensures Ascending(SortFields(fs)) && Keys(SortFields(fs)) == Keys(fs)
  {
    if fs != [] {
      SortAscending(fs[1..]);
      InsertAscending(fs[0], SortFields(fs[1..]));
      KeysCons(fs[0], fs[1..]);
      assert fs == [fs[0]] + fs[1..];
    }
  }

  // ---------- Normal form: every record sorted ----------

  function Normal(v: Json): Json
    decreases v, 1
  {
    match v
    case Arr(items) => Arr(NormalAll(items))
    case Record(fields) => Record(SortFields(NormalFields(fields)))
    case _ => v
  }

  function NormalAll(vs: seq<Json>): seq<Json>
    decreases vs, 0
  {
    if vs == [] then [] else [Normal(vs[0])] + NormalAll(vs[1..])
  }

  function NormalFields(fs: seq<Field<Json>>): seq<Field<Json>>
    decreases fs, 0
  {
    if fs == [] then [] else [Field(fs[0].key, Normal(fs[0].val))] + NormalFields(fs[1..])
  }

  function TextFields(fs: seq<Field<Json>>): seq<Field<Text>> {
    if fs == [] then [] else [Field(fs[0].key, Print(fs[0].val))] + TextFields(fs[1..])
  }

  lemma {:induction false} InsertTexts(f: Field<Json>, fs: seq<Field<Json>>)
    ensures TextFields(Insert(f, fs)) == Insert(Field(f.key, Print(f.val)), TextFields(fs))
  {
    hide Print;
    if fs == [] || Less(f.key, fs[0].key) {
      assert ([f] + fs)[1..] == fs;
    } else {
      InsertTexts(f, fs[1..]);
      assert ([fs[0]] + Insert(f, fs[1..]))[1..] == Insert(f, fs[1..]);
      assert TextFields(fs)[1..] == TextFields(fs[1..]);
    }
  }

  lemma {:induction false} SortTexts(fs: seq<Field<Json>>)
    ensures TextFields(SortFields(fs)) == SortFields(TextFields(fs))
  {
    hide Print;
    if fs != [] {
      SortTexts(fs[1..]);
      InsertTexts(fs[0], SortFields(fs[1..]));
      assert TextFields(fs)[1..] == TextFields(fs[1..]);
    }
  }

  lemma {:induction false} TextsOfFields(fs: seq<Field<Json>>)
    ensures FieldTexts(TextFields(fs)) == PrintFields(fs)
  {
    hide Print, PrintField;
    if fs != [] {
      TextsOfFields(fs[1..]);
      assert TextFields(fs)[1..] == TextFields(fs[1..]);
    }
  }

  /** Sorting keys and printing is printing the value whose records are sorted. */
  lemma {:induction false} CanonicalIsPrint(v: Json)
    ensures Canonical(v) == Print(Normal(v))
    decreases v, 1
  {
    match v
    case Arr(items) => CanonicalAllIsPrint(items);
    case Record(fields) =>
      CanonicalFieldsArePrint(fields);
      var g := NormalFields(fields);
      SortTexts(g);
      TextsOfFields(SortFields(g));
    case _ =>
  }

  lemma {:induction false} CanonicalAllIsPrint(vs: seq<Json>)
    ensures CanonicalAll(vs) == PrintAll(NormalAll(vs))
    decreases vs, 0
  {
    if vs != [] {
      hide Print, Canonical, Normal;
      CanonicalIsPrint(vs[0]);
      CanonicalAllIsPrint(vs[1..]);
      assert NormalAll(vs)[1..] == NormalAll(vs[1..]);
    }
  }

  lemma {:induction false} CanonicalFieldsArePrint(fs: seq<Field<Json>>)
    ensures CanonicalFields(fs) == TextFields(NormalFields(fs))
    decreases fs, 0
  {
    if fs != [] {
      hide Print, Canonical, Normal;
      CanonicalIsPrint(fs[0].val);
      CanonicalFieldsArePrint(fs[1..]);
      assert NormalFields(fs)[1..] == NormalFields(fs[1..]);
    }
  }

  // ---------- Normal form keeps the meaning ----------

  lemma MeaningCons(f: Field<Json>, fs: seq<Field<Json>>)
    ensures FieldMeanings([f] + fs) == FieldMeanings(fs)[f.key := Meaning(f.val)]
  {
    hide Meaning;
    assert ([f] + fs)[1..] == fs;
  }

  lemma UpdatesCommute(m: map<Text, Value>, j: Text, x: Value, k: Text, y: Value)
    requires j != k
    ensures m[j := x][k := y] == m[k := y][j := x]
  {
  }

  lemma {:induction false} InsertMeaning(f: Field<Json>, fs: seq<Field<Json>>)
    requires f.key !in Keys(fs)
    ensures FieldMeanings(Insert(f, fs)) == FieldMeanings(fs)[f.key := Meaning(f.val)]
  {
    hide Meaning, Less, FieldMeanings;
    if fs == [] || Less(f.key, fs[0].key) {
      MeaningCons(f, fs);
    } else {
      var g, rest := fs[0], fs[1..];
      assert fs == [g] + rest;
      KeysCons(g, rest);
      InsertMeaning(f, rest);
      MeaningCons(g, rest);
      MeaningCons(g, Insert(f, rest));
      UpdatesCommute(FieldMeanings(rest), f.key, Meaning(f.val), g.key, Meaning(g.val));
    }
  }

  lemma {:induction false} SortMeaning(fs: seq<Field<Json>>)
    requires DistinctKeys(fs)
    ensures FieldMeanings(SortFields(fs)) == FieldMeanings(fs)
  {
    hide Meaning;
    if fs != [] {
      SortMeaning(fs[1..]);
      SortAscending(fs[1..]);
      InsertMeaning(fs[0], SortFields(fs[1..]));
    }
  }

  lemma {:induction false} NormalMeaning(v: Json)
    requires Distinct(v)
    ensures Meaning(Normal(v)) == Meaning(v)
    decreases v, 1
  {
    match v
    case Arr(items) => NormalMeanings(items);
    case Record(fields) =>
      NormalFieldMeanings(fields);
      SortMeaning(NormalFields(fields));
    case _ =>
  }

  lemma {:induction false} NormalMeanings(vs: seq<Json>)
    requires AllDistinct(vs)
    ensures Meanings(NormalAll(vs)) == Meanings(vs)
    decreases vs, 0
  {
    if vs != [] {
      hide Meaning, Normal, Distinct;
      NormalMeaning(vs[0]);
      NormalMeanings(vs[1..]);
      assert NormalAll(vs)[1..] == NormalAll(vs[1..]);
    }
  }

  lemma {:induction false} NormalFieldMeanings(fs: seq<Field<Json>>)
    requires FieldsDistinct(fs)
    ensures FieldMeanings(NormalFields(fs)) == FieldMeanings(fs)
    ensures DistinctKeys(NormalFields(fs)) && Keys(NormalFields(fs)) == Keys(fs)
    decreases fs, 0
  {
    if fs != [] {
      hide Meaning, Normal, Distinct;
      NormalMeaning(fs[0].val);
      NormalFieldMeanings(fs[1..]);
      var f := Field(fs[0].key, Normal(fs[0].val));
      assert NormalFields(fs)[1..] == NormalFields(fs[1..]);
      KeysCons(f, NormalFields(fs[1..]));
      KeysCons(fs[0], fs[1..]);
      assert fs == [fs[0]] + fs[1..];
    }
  }

  // ---------- Normal forms are determined by their meaning ----------

  ghost predicate IsNormal(v: Json)
    decreases v, 1
  {
    match v
    case Arr(items) => AllNormal(items)
    case Record(fields) => Ascending(fields) && FieldsNormal(fields)
    case _ => true
  }

  ghost predicate AllNormal(vs: seq<Json>)
    decreases vs, 0
  {
    vs == [] || (IsNormal(vs[0]) && AllNormal(vs[1..]))
  }

  ghost predicate FieldsNormal(fs: seq<Field<Json>>)
    decreases fs, 0
  {
    fs == [] || (IsNormal(fs[0].val) && FieldsNormal(fs[1..]))
  }

  lemma {:induction false} InsertNormal(f: Field<Json>, fs: seq<Field<Json>>)
    requires IsNormal(f.val) && FieldsNormal(fs)
    ensures FieldsNormal(Insert(f, fs))
  {
    hide IsNormal;
    if fs == [] || Less(f.key, fs[0].key) {
      assert ([f] + fs)[1..] == fs;
    } else {
      InsertNormal(f, fs[1..]);
      assert ([fs[0]] + Insert(f, fs[1..]))[1..] == Insert(f, fs[1..]);
    }
  }

  lemma {:induction false} SortNormal(fs: seq<Field<Json>>)
    requires FieldsNormal(fs)
    ensures FieldsNormal(SortFields(fs))
  {
    hide IsNormal;
    if fs != [] {
      SortNormal(fs[1..]);
      InsertNormal(fs[0], SortFields(fs[1..]));
    }
  }

  lemma {:induction false} NormalIsNormal(v: Json)
    requires Distinct(v)
    ensures IsNormal(Normal(v))
    decreases v, 1
  {
    match v
    case Arr(items) => NormalAllNormal(items);
    case Record(fields) =>
      NormalFieldsNormal(fields);
      NormalFieldMeanings(fields);
      SortAscending(NormalFields(fields));
      SortNormal(NormalFields(fields));
    case _ =>
  }

  lemma {:induction false} NormalAllNormal(vs: seq<Json>)
    requires AllDistinct(vs)
    ensures AllNormal(NormalAll(vs))
    decreases vs, 0
  {
    if vs != [] {
      hide IsNormal, Normal, Distinct;
      NormalIsNormal(vs[0]);
      NormalAllNormal(vs[1..]);
      assert NormalAll(vs)[1..] == NormalAll(vs[1..]);
    }
  }

  lemma {:induction false} NormalFieldsNormal(fs: seq<Field<Json>>)
    requires FieldsDistinct(fs)
    ensures FieldsNormal(NormalFields(fs))
    decreases fs, 0
  {
    if fs != [] {
      hide IsNormal, Normal, Distinct;
      NormalIsNormal(fs[0].val);
      NormalFieldsNormal(fs[1..]);
      assert NormalFields(fs)[1..] == NormalFields(fs[1..]);
    }
  }

  lemma {:induction false} SameMeaning(v: Json, w: Json)
    requires IsNormal(v) && IsNormal(w) && Meaning(v) == Meaning(w)
    ensures v == w
    decreases v, 1
  {
    match v
    case Arr(items) => SameMeanings(items, w.items);
    case Record(fields) => SameFieldMeanings(fields, w.fields);
    case _ =>
  }

  lemma {:induction false} SameMeanings(vs: seq<Json>, ws: seq<Json>)
    requires AllNormal(vs) && AllNormal(ws) && Meanings(vs) == Meanings(ws)
    ensures vs == ws
    decreases vs, 0
  {
    if vs != [] {
      hide Meaning, IsNormal;
      assert Meanings(vs)[0] == Meanings(ws)[0] && Meanings(vs)[1..] == Meanings(ws)[1..];
      SameMeaning(vs[0], ws[0]);
      SameMeanings(vs[1..], ws[1..]);
      assert vs == [vs[0]] + vs[1..] && ws == [ws[0]] + ws[1..];
    }
  }

  lemma FirstKeyLeast(fs: seq<Field<Json>>, gs: seq<Field<Json>>)
    requires fs != [] && gs != [] && Ascending(fs) && Ascending(gs) && Keys(fs) == Keys(gs)
    ensures fs[0].key == gs[0].key && Keys(fs[1..]) == Keys(gs[1..])
    ensures fs[0].key !in Keys(fs[1..])
  {
    assert fs == [fs[0]] + fs[1..] && gs == [gs[0]] + gs[1..];
    KeysCons(fs[0], fs[1..]);
    KeysCons(gs[0], gs[1..]);
    LessTotal(fs[0].key, gs[0].key);
    LessIrreflexive(fs[0].key);
    LessIrreflexive(gs[0].key);
  }

  lemma FirstMeaning(fs: seq<Field<Json>>)
    requires fs != [] && fs[0].key !in Keys(fs[1..])
    ensures fs[0].key in FieldMeanings(fs) && FieldMeanings(fs)[fs[0].key] == Meaning(fs[0].val)
    ensures FieldMeanings(fs[1..]) == FieldMeanings(fs) - {fs[0].key}
  {
    hide Meaning;
    assert FieldMeanings(fs) == FieldMeanings(fs[1..])[fs[0].key := Meaning(fs[0].val)];
    assert FieldMeanings(fs[1..]).Keys == Keys(fs[1..]);
    hide FieldMeanings, Keys;
    AddAndDrop(FieldMeanings(fs[1..]), fs[0].key, Meaning(fs[0].val));
  }

  lemma AddAndDrop(m: map<Text, Value>, k: Text, v: Value)
    requires k !in m
    ensures m[k := v] - {k} == m
  {
  }

  lemma {:induction false} SameFieldMeanings(fs: seq<Field<Json>>, gs: seq<Field<Json>>)
    requires Ascending(fs) && Ascending(gs) && FieldsNormal(fs) && FieldsNormal(gs)
    requires FieldMeanings(fs) == FieldMeanings(gs)
    ensures fs == gs
    decreases fs, 0
  {
    hide Meaning, IsNormal, FieldMeanings;
    assert Keys(fs) == Keys(gs);
    assert fs != [] ==> fs[0].key in Keys(fs);
    assert gs != [] ==> gs[0].key in Keys(gs);
    if fs != [] {
      FirstKeyLeast(fs, gs);
      FirstMeaning(fs);
      FirstMeaning(gs);
      SameMeaning(fs[0].val, gs[0].val);
      SameFieldMeanings(fs[1..], gs[1..]);
      assert fs == [fs[0]] + fs[1..] && gs == [gs[0]] + gs[1..];
    }
  }

  /** The text is a function of the value, whatever the insertion order, and tells any two values apart. */
  lemma CanonicalDeterminesValue(v: Json, w: Json)
    requires Distinct(v) && Distinct(w)
    ensures Canonical(v) == Canonical(w) <==> Meaning(v) == Meaning(w)
  {
    hide Canonical, Meaning, Print, Normal, IsNormal;
    CanonicalIsPrint(v);
    CanonicalIsPrint(w);
    NormalMeaning(v);
    NormalMeaning(w);
    NormalIsNormal(v);
    NormalIsNormal(w);
    if Meaning(v) == Meaning(w) {
      SameMeaning(Normal(v), Normal(w));
    }
    if Canonical(v) == Canonical(w) {
      PrintInjective(Normal(v), Normal(w));
    }
  }
}
