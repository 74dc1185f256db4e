/** The JSON printer behind the mail props hash: object keys sorted at every depth. */
module CanonicalJson {
  import opened Options
  import opened JsText

  const QUOTE: CodeUnit := 34
  const COMMA: CodeUnit := 44
  const COLON: CodeUnit := 58
  const OPEN_BRACKET: CodeUnit := 91
  const BACKSLASH: CodeUnit := 92
  const CLOSE_BRACKET: CodeUnit := 93
  const LOWER_U: CodeUnit := 117
  const OPEN_BRACE: CodeUnit := 123
  const CLOSE_BRACE: CodeUnit := 125

  /** A value given to the printer. A finite number is the decimal `JSON.stringify` writes for
      it; an object is the list of its own properties in the order it holds them, so a date is
      one without properties; a function counts as undefined. */
  datatype Json =
    | JNull
    | JUndefined
    | JNotFinite
    | JBool(b: bool)
    | JNum(token: Text)
    | JStr(s: Text)
    | JArr(items: seq<Json>)
    | JObj(fields: seq<Field>)

  datatype Field = Field(key: Text, value: Json)

  // ----- Strings: section 7 of RFC 8259 -----

  predicate HighSurrogate(u: CodeUnit) { 0xD800 <= u < 0xDC00 }

  predicate LowSurrogate(u: CodeUnit) { 0xDC00 <= u < 0xE000 }

  function HexDigit(d: int): CodeUnit
    requires 0 <= d < 16
  {
    if d < 10 then 48 + d else 87 + d
  }

  function HexUnit(u: CodeUnit): (t: Text)
    ensures |t| == 4
  {
    [HexDigit(u / 4096), HexDigit(u / 256 % 16), HexDigit(u / 16 % 16), HexDigit(u % 16)]
  }

  /** The letter after the backslash of a two-unit escape, or 0. */
  function ShortEscape(u: CodeUnit): CodeUnit {
    if u == 8 then 98
    else if u == 9 then 116
    else if u == 10 then 110
    else if u == 12 then 102
    else if u == 13 then 114
    else if u == QUOTE || u == BACKSLASH then u
    else 0
  }

  /** One unit that is not half of a surrogate pair. */
  function EscapeUnit(u: CodeUnit): Text {
    if ShortEscape(u) != 0 then [BACKSLASH, ShortEscape(u)]
    else if u < 32 || HighSurrogate(u) || LowSurrogate(u) then [BACKSLASH, LOWER_U] + HexUnit(u)
    else [u]
  }

  predicate StartsWithPair(s: Text) {
    |s| >= 2 && HighSurrogate(s[0]) && LowSurrogate(s[1])
  }

  function Escape(s: Text): Text {
    if s == [] then []
    else if StartsWithPair(s) then s[..2] + Escape(s[2..])
    else EscapeUnit(s[0]) + Escape(s[1..])
  }

  /** `JSON.stringify` of a string. */
  function Quote(s: Text): Text {
    [QUOTE] + Escape(s) + [QUOTE]
  }

  function HexValue(u: CodeUnit): int {
    if 48 <= u <= 57 then u - 48 else if 97 <= u <= 102 then u - 87 else if 65 <= u <= 70 then u - 55 else -1
  }

  /** The unit four hexadecimal digits stand for. */
  function UnitOf(t: Text): Option<CodeUnit>
    requires |t| == 4
  {
    var a, b, c, d := HexValue(t[0]), HexValue(t[1]), HexValue(t[2]), HexValue(t[3]);
    if a < 0 || b < 0 || c < 0 || d < 0 then None else Some(4096 * a + 256 * b + 16 * c + d)
  }

  function ShortUnit(letter: CodeUnit): Option<CodeUnit> {
    if letter == 98 then Some(8)
    else if letter == 116 then Some(9)
    else if letter == 110 then Some(10)
    else if letter == 102 then Some(12)
    else if letter == 114 then Some(13)
    else if letter == QUOTE || letter == BACKSLASH || letter == 47 then Some(letter)
    else None
  }

  /** Reads one character of a string body: the unit and the rest. */
  function ReadUnit(t: Text): (r: Option<(CodeUnit, Text)>)
    ensures r.Some? ==> |r.value.1| < |t|
  {
    if t == [] || t[0] < 32 || t[0] == QUOTE then None
    else if t[0] != BACKSLASH then Some((t[0], t[1..]))
    else if |t| >= 6 && t[1] == LOWER_U then
      match UnitOf(t[2..6]) { case None => None case Some(u) => Some((u, t[6..])) }
    else if |t| >= 2 then
      match ShortUnit(t[1]) { case None => None case Some(u) => Some((u, t[2..])) }
    else None
  }

  /** Reads a string body up to its closing quote: the string and the rest. */
  function ReadString(t: Text): Option<(Text, Text)>
    decreases |t|
  {
    if t != [] && t[0] == QUOTE then Some(([], t[1..]))
    else
      match ReadUnit(t)
      case None => None
      case Some(r) =>
        match ReadString(r.1)
        case None => None
        case Some(q) => Some(([r.0] + q.0, q.1))
  }

  lemma HexRoundTrip(u: CodeUnit)
    ensures UnitOf(HexUnit(u)) == Some(u)
  {
    var a, b, c, d := u / 4096, u / 256 % 16, u / 16 % 16, u % 16;
    assert HexValue(HexDigit(a)) == a && HexValue(HexDigit(b)) == b;
    assert HexValue(HexDigit(c)) == c && HexValue(HexDigit(d)) == d;
    assert u / 16 / 16 == u / 256 && u / 256 / 16 == u / 4096;
  }

  lemma ReadEscapedUnit(u: CodeUnit, x: Text)
    ensures ReadUnit(EscapeUnit(u) + x) == Some((u, x))
  {
    var t := EscapeUnit(u) + x;
    if ShortEscape(u) != 0 {
      assert t[2..] == x;
    } else if u < 32 || HighSurrogate(u) || LowSurrogate(u) {
      HexRoundTrip(u);
      assert t[2..6] == HexUnit(u) && t[6..] == x;
    } else {
      assert t[1..] == x;
    }
  }

  /** One character in front of a body that reads. */
  lemma ReadNext(t: Text, u: CodeUnit, x: Text)
    requires ReadUnit(t) == Some((u, x)) && ReadString(x).Some?
    ensures ReadString(t) == Some(([u] + ReadString(x).value.0, ReadString(x).value.1))
  {
  }

  lemma ReadRaw(u: CodeUnit, x: Text)
    requires u >= 0xD800
    ensures ReadUnit([u] + x) == Some((u, x))
  {
    assert ([u] + x)[1..] == x;
  }

  /** Reading what was escaped gives the string back and stops at its closing quote. */
  lemma {:induction false} ReadEscaped(s: Text, x: Text)
    ensures ReadString(Escape(s) + [QUOTE] + x) == Some((s, x))
  {
    if s == [] {
      assert ([QUOTE] + x)[1..] == x && Escape(s) + [QUOTE] + x == [QUOTE] + x;
    } else if StartsWithPair(s) {
      ReadEscaped(s[2..], x);
      ReadPair(s, Escape(s[2..]), x);
    } else {
      ReadEscaped(s[1..], x);
      ReadSingle(s, Escape(s[1..]), x);
    }
  }

  lemma ReadPair(s: Text, rest: Text, x: Text)
    requires StartsWithPair(s) && ReadString(rest + [QUOTE] + x) == Some((s[2..], x))
    ensures ReadString(s[..2] + rest + [QUOTE] + x) == Some((s, x))
  {
    var r := rest + [QUOTE] + x;
    ReadRaw(s[1], r);
    ReadNext([s[1]] + r, s[1], r);
    ReadRaw(s[0], [s[1]] + r);
    ReadNext([s[0]] + ([s[1]] + r), s[0], [s[1]] + r);
    assert s[..2] + rest + [QUOTE] + x == [s[0]] + ([s[1]] + r);
    assert s == [s[0]] + ([s[1]] + s[2..]);
  }

  lemma ReadSingle(s: Text, rest: Text, x: Text)
    requires s != [] && ReadString(rest + [QUOTE] + x) == Some((s[1..], x))
    ensures ReadString(EscapeUnit(s[0]) + rest + [QUOTE] + x) == Some((s, x))
  {
    var r := rest + [QUOTE] + x;
    ReadEscapedUnit(s[0], r);
    ReadNext(EscapeUnit(s[0]) + r, s[0], r);
    assert EscapeUnit(s[0]) + rest + [QUOTE] + x == EscapeUnit(s[0]) + r;
    assert s == [s[0]] + s[1..];
  }

  lemma QuoteUnambiguous(s: Text, x: Text, t: Text, y: Text)
    requires Quote(s) + x == Quote(t) + y
    ensures s == t && x == y
  {
    assert (Quote(s) + x)[1..] == Escape(s) + [QUOTE] + x;
    assert (Quote(t) + y)[1..] == Escape(t) + [QUOTE] + y;
    ReadEscaped(s, x);
    ReadEscaped(t, y);
  }

  // ----- The printer -----

  function KeysOf(fields: seq<Field>): (keys: seq<Text>)
    ensures |keys| == |fields|
  {
    if fields == [] then [] else [fields[0].key] + KeysOf(fields[1..])
  }

  /** `Object.keys(obj).sort()` */
  function SortedKeys(fields: seq<Field>): seq<Text> {
    Sort(KeysOf(fields))
  }

  /** Where a property sits; the number of properties if there is none. */
  function FieldIndex(fields: seq<Field>, key: Text): (i: nat)
    ensures i <= |fields|
    ensures i < |fields| ==> fields[i].key == key
  {
    if fields == [] || fields[0].key == key then 0 else 1 + FieldIndex(fields[1..], key)
  }

  function Canon(v: Json): Text
    decreases v, 1, 0
  {
    match v
    case JNull => Lit("null")
    case JUndefined => Lit("undefined")
    case JNotFinite => Lit("null")
    case JBool(b) => if b then Lit("true") else Lit("false")
    case JNum(token) => token
    case JStr(s) => Quote(s)
    case JArr(items) => [OPEN_BRACKET] + Join(ItemTexts(v, 0), COMMA) + [CLOSE_BRACKET]
    case JObj(fields) => [OPEN_BRACE] + Join(FieldTexts(v, SortedKeys(fields)), COMMA) + [CLOSE_BRACE]
  }

  /** `join` writes nothing for undefined. */
  function ItemText(v: Json): Text
    decreases v, 1, 1
  {
    if v.JUndefined? then [] else Canon(v)
  }

  /** The printed items from the i-th on. */
  function ItemTexts(v: Json, i: nat): (r: seq<Text>)
    requires v.JArr? && i <= |v.items|
    ensures |r| == |v.items| - i
    decreases v, 0, |v.items| - i
  {
    if i == |v.items| then [] else [ItemText(v.items[i])] + ItemTexts(v, i + 1)
  }

  /** The printed value of a property. */
  function Member(v: Json, key: Text): Text
    requires v.JObj?
    decreases v, 0, 0
  {
    var i := FieldIndex(v.fields, key);
    if i < |v.fields| then Canon(v.fields[i].value) else []
  }

  function FieldText(v: Json, key: Text): Text
    requires v.JObj?
    decreases v, 0, 1
  {
    Quote(key) + [COLON] + Member(v, key)
  }

  function FieldTexts(v: Json, keys: seq<Text>): (r: seq<Text>)
    requires v.JObj?
    ensures |r| == |keys|
    decreases v, 0, 2 + |keys|
  {
    if keys == [] then [] else [FieldText(v, keys[0])] + FieldTexts(v, keys[1..])
  }

  // ----- Equality up to key order -----

  predicate NumUnit(u: CodeUnit) {
    48 <= u <= 57 || u == 43 || u == 45 || u == 46 || u == 69 || u == 101
  }

  /** Values as they can be: digits in numbers, no object with a key twice. */
  ghost predicate Valid(v: Json) {
    match v
    case JNum(token) => token != [] && forall i | 0 <= i < |token| :: NumUnit(token[i])
    case JArr(items) => forall i | 0 <= i < |items| :: Valid(items[i])
    case JObj(fields) => Distinct(KeysOf(fields)) && forall i | 0 <= i < |fields| :: Valid(fields[i].value)
    case _ => true
  }

  /** No item, or one that is undefined. */
  predicate Blank(items: seq<Json>) {
    items == [] || items == [JUndefined]
  }

  /** Equal at any depth but for the order of object keys, for null and numbers that are not
      finite, and for an empty array and one that holds only undefined. */
  ghost predicate Equiv(a: Json, b: Json) {
    match (a, b)
    case (JNull, JNotFinite) => true
    case (JNotFinite, JNull) => true
    case (JArr(s), JArr(t)) =>
      || (Blank(s) && Blank(t))
      || (|s| == |t| && forall i | 0 <= i < |s| :: Equiv(s[i], t[i]))
    case (JObj(s), JObj(t)) =>
      && multiset(KeysOf(s)) == multiset(KeysOf(t))
      && forall i, j | 0 <= i < |s| && 0 <= j < |t| && s[i].key == t[j].key :: Equiv(s[i].value, t[j].value)
    case _ => a == b
  }

  // ----- The printed form is unambiguous -----

  /** What may follow a value inside a printed document. */
  predicate Ends(x: Text) {
    x == [] || x[0] == COMMA || x[0] == CLOSE_BRACKET || x[0] == CLOSE_BRACE
  }

  /** What kind of value starts with a unit; 0 for none. */
  function KindOfUnit(u: CodeUnit): nat {
    if u == 110 then 1
    else if u == 116 || u == 102 then 2
    else if NumUnit(u) then 3
    else if u == QUOTE then 4
    else if u == OPEN_BRACKET then 5
    else if u == OPEN_BRACE then 6
    else if u == LOWER_U then 7
    else 0
  }

  function Kind(v: Json): nat {
    match v
    case JNull => 1
    case JUndefined => 7
    case JNotFinite => 1
    case JBool(_) => 2
    case JNum(_) => 3
    case JStr(_) => 4
    case JArr(_) => 5
    case JObj(_) => 6
  }

  lemma FirstUnit(v: Json)
    requires Valid(v)
    ensures Canon(v) != [] && KindOfUnit(Canon(v)[0]) == Kind(v)
  {
  }

  lemma FirstUnitIn(v: Json, x: Text)
    requires Valid(v)
    ensures Canon(v) + x != [] && KindOfUnit((Canon(v) + x)[0]) == Kind(v)
  {
    FirstUnit(v);
  }

  lemma {:induction false} NumbersUnambiguous(s: Text, x: Text, t: Text, y: Text)
    requires forall i | 0 <= i < |s| :: NumUnit(s[i])
    requires forall i | 0 <= i < |t| :: NumUnit(t[i])
    requires Ends(x) && Ends(y) && s + x == t + y
    ensures s == t && x == y
  {
    var whole := s + x;
    assert whole[..|s|] == s && whole[..|t|] == t && whole[|s|..] == x && whole[|t|..] == y;
  }

  /** The text after the first part of a joined list. */
  function Tail(parts: seq<Text>, close: CodeUnit, x: Text): Text {
    if parts == [] then [close] + x else [COMMA] + (Join(parts, COMMA) + [close] + x)
  }

  lemma JoinTail(parts: seq<Text>, close: CodeUnit, x: Text)
    requires parts != []
    ensures Join(parts, COMMA) + [close] + x == parts[0] + Tail(parts[1..], close, x)
  {
  }

  lemma TailsUnambiguous(p: seq<Text>, q: seq<Text>, close: CodeUnit, x: Text, y: Text)
    requires close != COMMA && Tail(p, close, x) == Tail(q, close, y)
    ensures p == [] <==> q == []
    ensures p == [] ==> x == y
    ensures Join(p, COMMA) + [close] + x == Join(q, COMMA) + [close] + y
  {
    var s, t := Tail(p, close, x), Tail(q, close, y);
    assert s[0] == t[0];
    if p == [] {
      assert s[1..] == x && t[1..] == y;
    } else {
      assert s[1..] == Join(p, COMMA) + [close] + x && t[1..] == Join(q, COMMA) + [close] + y;
    }
  }

  ghost predicate HasKeys(v: Json, keys: seq<Text>) {
    v.JObj? && forall i | 0 <= i < |keys| :: FieldIndex(v.fields, keys[i]) < |v.fields|
  }

  function Value(v: Json, key: Text): (r: Json)
    requires v.JObj? && FieldIndex(v.fields, key) < |v.fields|
    ensures r < v
  {
    v.fields[FieldIndex(v.fields, key)].value
  }

  ghost predicate SameValues(a: Json, b: Json, keys: seq<Text>)
    requires HasKeys(a, keys) && HasKeys(b, keys)
  {
    forall i | 0 <= i < |keys| :: Equiv(Value(a, keys[i]), Value(b, keys[i]))
  }

  ghost predicate SameItems(a: Json, b: Json, i: nat)
    requires a.JArr? && b.JArr?
  {
    |a.items| == |b.items| && forall k | i <= k < |a.items| :: Equiv(a.items[k], b.items[k])
  }

  lemma {:induction false} Unambiguous(a: Json, x: Text, b: Json, y: Text)
    requires Valid(a) && Valid(b) && Ends(x) && Ends(y) && Canon(a) + x == Canon(b) + y
    ensures Equiv(a, b) && x == y
    decreases a, 1, 0
  {
    FirstUnitIn(a, x);
    FirstUnitIn(b, y);
    var s, t := Canon(a) + x, Canon(b) + y;
    if a.JNull? || a.JNotFinite? {
      assert s[4..] == x && t[4..] == y;
    } else if a.JUndefined? {
      assert s[9..] == x && t[9..] == y;
    } else if a.JBool? {
      BoolUnambiguous(a, x, b, y);
    } else if a.JNum? {
      NumbersUnambiguous(a.token, x, b.token, y);
    } else if a.JStr? {
      QuoteUnambiguous(a.s, x, b.s, y);
    } else if a.JArr? {
      ArraysUnambiguous(a, x, b, y);
    } else {
      ObjectsUnambiguous(a, x, b, y);
    }
  }

  lemma DropFirst(u: CodeUnit, s: Text, v: CodeUnit, t: Text)
    requires [u] + s == [v] + t
    ensures s == t
  {
    assert ([u] + s)[1..] == s && ([v] + t)[1..] == t;
  }

  lemma Regroup(u: CodeUnit, s: Text, v: CodeUnit, x: Text)
    ensures [u] + s + [v] + x == [u] + (s + [v] + x)
  {
  }

  lemma {:induction false} ArraysUnambiguous(a: Json, x: Text, b: Json, y: Text)
    requires Valid(a) && Valid(b) && a.JArr? && b.JArr? && Canon(a) + x == Canon(b) + y
    ensures Equiv(a, b) && x == y
    decreases a, 0, |a.items| + 1
  {
    var p, q := Join(ItemTexts(a, 0), COMMA), Join(ItemTexts(b, 0), COMMA);
    Regroup(OPEN_BRACKET, p, CLOSE_BRACKET, x);
    Regroup(OPEN_BRACKET, q, CLOSE_BRACKET, y);
    DropFirst(OPEN_BRACKET, p + [CLOSE_BRACKET] + x, OPEN_BRACKET, q + [CLOSE_BRACKET] + y);
    if a.items == [] || b.items == [] {
      BlankUnambiguous(a, x, b, y);
    } else {
      ItemsUnambiguous(a, x, b, y, 0);
    }
  }

  /** The text of an array without items, from its first unit on. */
  lemma BlankStart(v: Json, x: Text)
    requires Valid(v) && v.JArr?
    ensures var text := Join(ItemTexts(v, 0), COMMA) + [CLOSE_BRACKET] + x;
            && (text[0] == CLOSE_BRACKET <==> Blank(v.items))
            && (Blank(v.items) ==> text == [CLOSE_BRACKET] + x)
  {
    var p := ItemTexts(v, 0);
    if v.items != [] {
      JoinTail(p, CLOSE_BRACKET, x);
      ItemStart(v.items[0], Tail(p[1..], CLOSE_BRACKET, x));
      if |v.items| > 1 { assert p[1..] != []; } else { assert v.items == [v.items[0]]; }
    }
  }

  lemma BlankUnambiguous(a: Json, x: Text, b: Json, y: Text)
    requires Valid(a) && Valid(b) && a.JArr? && b.JArr? && (a.items == [] || b.items == [])
    requires Join(ItemTexts(a, 0), COMMA) + [CLOSE_BRACKET] + x == Join(ItemTexts(b, 0), COMMA) + [CLOSE_BRACKET] + y
    ensures Equiv(a, b) && x == y
  {
    BlankStart(a, x);
    BlankStart(b, y);
    DropFirst(CLOSE_BRACKET, x, CLOSE_BRACKET, y);
  }

  /** An item that is undefined leaves the next delimiter in front; any other does not. */
  lemma ItemStart(v: Json, x: Text)
    requires Valid(v) && Ends(x) && x != []
    ensures var text := ItemText(v) + x;
            text != [] && (Ends(text) <==> v.JUndefined?) && (v.JUndefined? ==> text == x)
  {
    FirstUnitIn(v, x);
  }

  /** One item: equal, with the same text after it. */
  lemma {:induction false} ItemUnambiguous(a: Json, x: Text, b: Json, y: Text)
    requires Valid(a) && Valid(b) && Ends(x) && Ends(y) && x != [] && y != []
    requires ItemText(a) + x == ItemText(b) + y
    ensures Equiv(a, b) && x == y
    decreases a, 2, 0
  {
    ItemStart(a, x);
    ItemStart(b, y);
    if !a.JUndefined? { Unambiguous(a, x, b, y); }
  }

  lemma {:induction false} ObjectsUnambiguous(a: Json, x: Text, b: Json, y: Text)
    requires Valid(a) && Valid(b) && a.JObj? && b.JObj? && Canon(a) + x == Canon(b) + y
    ensures Equiv(a, b) && x == y
    decreases a, 0, |a.fields| + 1
  {
    var s, t := SortedKeys(a.fields), SortedKeys(b.fields);
    var p, q := Join(FieldTexts(a, s), COMMA), Join(FieldTexts(b, t), COMMA);
    Regroup(OPEN_BRACE, p, CLOSE_BRACE, x);
    Regroup(OPEN_BRACE, q, CLOSE_BRACE, y);
    DropFirst(OPEN_BRACE, p + [CLOSE_BRACE] + x, OPEN_BRACE, q + [CLOSE_BRACE] + y);
    HasSortedKeys(a);
    HasSortedKeys(b);
    assert |s| == |a.fields| by { assert |multiset(s)| == |multiset(KeysOf(a.fields))|; }
    FieldsUnambiguous(a, x, b, y, s, t);
    ObjectsEquiv(a, b);
  }

  lemma BoolUnambiguous(a: Json, x: Text, b: Json, y: Text)
    requires a.JBool? && b.JBool? && Canon(a) + x == Canon(b) + y
    ensures a == b && x == y
  {
    var s, t := Canon(a) + x, Canon(b) + y;
    assert s[0] == t[0];
    assert s[|Canon(a)|..] == x && t[|Canon(b)|..] == y;
  }

  lemma FirstItem(v: Json, i: nat, x: Text)
    requires v.JArr? && i < |v.items|
    ensures Join(ItemTexts(v, i), COMMA) + [CLOSE_BRACKET] + x
            == ItemText(v.items[i]) + Tail(ItemTexts(v, i + 1), CLOSE_BRACKET, x)
  {
    JoinTail(ItemTexts(v, i), CLOSE_BRACKET, x);
  }

  lemma {:induction false} ItemsUnambiguous(a: Json, x: Text, b: Json, y: Text, i: nat)
    requires Valid(a) && Valid(b) && a.JArr? && b.JArr? && i < |a.items| && i < |b.items|
    requires Join(ItemTexts(a, i), COMMA) + [CLOSE_BRACKET] + x == Join(ItemTexts(b, i), COMMA) + [CLOSE_BRACKET] + y
    ensures SameItems(a, b, i) && x == y
    decreases a, 0, |a.items| - i
  {
    FirstItem(a, i, x);
    FirstItem(b, i, y);
    var p, q := ItemTexts(a, i + 1), ItemTexts(b, i + 1);
    ItemUnambiguous(a.items[i], Tail(p, CLOSE_BRACKET, x), b.items[i], Tail(q, CLOSE_BRACKET, y));
    TailsUnambiguous(p, q, CLOSE_BRACKET, x, y);
    if i + 1 < |a.items| { ItemsUnambiguous(a, x, b, y, i + 1); }
  }

  lemma {:induction false} FieldsUnambiguous(a: Json, x: Text, b: Json, y: Text, s: seq<Text>, t: seq<Text>)
    requires Valid(a) && Valid(b) && HasKeys(a, s) && HasKeys(b, t)
    requires Join(FieldTexts(a, s), COMMA) + [CLOSE_BRACE] + x == Join(FieldTexts(b, t), COMMA) + [CLOSE_BRACE] + y
    ensures s == t && SameValues(a, b, s) && x == y
    decreases a, 0, |s|
  {
    var p, q := FieldTexts(a, s), FieldTexts(b, t);
    FieldsStart(a, s, x);
    FieldsStart(b, t, y);
    if s == [] {
      DropFirst(CLOSE_BRACE, x, CLOSE_BRACE, y);
    } else {
      JoinTail(p, CLOSE_BRACE, x);
      JoinTail(q, CLOSE_BRACE, y);
      FieldUnambiguous(a, Tail(p[1..], CLOSE_BRACE, x), b, Tail(q[1..], CLOSE_BRACE, y), s[0], t[0]);
      TailsUnambiguous(p[1..], q[1..], CLOSE_BRACE, x, y);
      FieldsUnambiguous(a, x, b, y, s[1..], t[1..]);
      assert s == [s[0]] + s[1..] && t == [t[0]] + t[1..];
    }
  }

  lemma FieldsStart(v: Json, keys: seq<Text>, x: Text)
    requires v.JObj?
    ensures var text := Join(FieldTexts(v, keys), COMMA) + [CLOSE_BRACE] + x;
            text[0] == (if keys == [] then CLOSE_BRACE else QUOTE) && (keys == [] ==> text == [CLOSE_BRACE] + x)
  {
    var p := FieldTexts(v, keys);
    if keys != [] {
      JoinTail(p, CLOSE_BRACE, x);
      assert p[0][0] == QUOTE;
    }
  }

  /** One property: same key, equal values, same text after it. */
  lemma {:induction false} FieldUnambiguous(a: Json, x: Text, b: Json, y: Text, s: Text, t: Text)
    requires Valid(a) && Valid(b) && HasKeys(a, [s]) && HasKeys(b, [t]) && Ends(x) && Ends(y)
    requires FieldText(a, s) + x == FieldText(b, t) + y
    ensures s == t && SameValues(a, b, [s]) && x == y
    decreases a, 0, 0
  {
    assert FieldIndex(a.fields, [s][0]) < |a.fields| && FieldIndex(b.fields, [t][0]) < |b.fields|;
    var va, vb := Value(a, s), Value(b, t);
    SplitField(Quote(s), Canon(va), x);
    SplitField(Quote(t), Canon(vb), y);
    QuoteUnambiguous(s, [COLON] + (Canon(va) + x), t, [COLON] + (Canon(vb) + y));
    DropFirst(COLON, Canon(va) + x, COLON, Canon(vb) + y);
    Unambiguous(va, x, vb, y);
  }

  lemma SplitField(key: Text, value: Text, x: Text)
    ensures key + [COLON] + value + x == key + ([COLON] + (value + x))
  {
  }

  lemma {:induction false} KeyAt(fields: seq<Field>, i: nat)
    requires i < |fields|
    ensures KeysOf(fields)[i] == fields[i].key
  {
    if i > 0 { KeyAt(fields[1..], i - 1); }
  }

  lemma {:induction false} KeyFound(fields: seq<Field>, key: Text)
    ensures key in KeysOf(fields) <==> FieldIndex(fields, key) < |fields|
  {
    if fields != [] { KeyFound(fields[1..], key); }
  }

  /** With distinct keys the lookup finds a property where it sits. */
  lemma IndexOfKey(fields: seq<Field>, i: nat)
    requires Distinct(KeysOf(fields)) && i < |fields|
    ensures FieldIndex(fields, fields[i].key) == i
  {
    var j := FieldIndex(fields, fields[i].key);
    KeyAt(fields, i);
    KeyFound(fields, fields[i].key);
    KeyAt(fields, j);
  }

  lemma SortedKeyFound(fields: seq<Field>, key: Text)
    ensures key in SortedKeys(fields) <==> FieldIndex(fields, key) < |fields|
  {
    KeyFound(fields, key);
    assert key in SortedKeys(fields) <==> key in multiset(SortedKeys(fields));
    assert key in KeysOf(fields) <==> key in multiset(KeysOf(fields));
  }

  lemma HasSortedKeys(v: Json)
    requires v.JObj?
    ensures HasKeys(v, SortedKeys(v.fields))
  {
    var keys := SortedKeys(v.fields);
    forall i | 0 <= i < |keys| ensures FieldIndex(v.fields, keys[i]) < |v.fields| {
      SortedKeyFound(v.fields, keys[i]);
    }
  }

  lemma ObjectsEquiv(a: Json, b: Json)
    requires Valid(a) && Valid(b) && a.JObj? && b.JObj? && SortedKeys(a.fields) == SortedKeys(b.fields)
    requires HasKeys(a, SortedKeys(a.fields)) && HasKeys(b, SortedKeys(a.fields))
    requires SameValues(a, b, SortedKeys(a.fields))
    ensures Equiv(a, b)
  {
    SortCanonical(KeysOf(a.fields), KeysOf(b.fields));
    forall i, j | 0 <= i < |a.fields| && 0 <= j < |b.fields| && a.fields[i].key == b.fields[j].key
      ensures Equiv(a.fields[i].value, b.fields[j].value)
    {
      IndexOfKey(a.fields, i);
      IndexOfKey(b.fields, j);
      SortedKeyFound(a.fields, a.fields[i].key);
      var k :| 0 <= k < |SortedKeys(a.fields)| && SortedKeys(a.fields)[k] == a.fields[i].key;
      assert Equiv(Value(a, SortedKeys(a.fields)[k]), Value(b, SortedKeys(a.fields)[k]));
    }
  }

  // ----- Equal values print alike -----

  lemma {:induction false} EquivPrintsAlike(a: Json, b: Json)
    requires Valid(a) && Valid(b) && Equiv(a, b)
    ensures Canon(a) == Canon(b)
    decreases a, 1, 0
  {
    if a.JArr? && Blank(a.items) && Blank(b.items) {
      assert ItemTexts(a, 0) == [] || ItemTexts(a, 0) == [[]];
      assert ItemTexts(b, 0) == [] || ItemTexts(b, 0) == [[]];
    } else if a.JArr? {
      ItemsPrintAlike(a, b, 0);
    } else if a.JObj? {
      SortCanonical(KeysOf(a.fields), KeysOf(b.fields));
      HasSortedKeys(a);
      HasSortedKeys(b);
      FieldsPrintAlike(a, b, SortedKeys(a.fields));
    }
  }

  lemma {:induction false} ItemsPrintAlike(a: Json, b: Json, i: nat)
    requires Valid(a) && Valid(b) && a.JArr? && b.JArr? && SameItems(a, b, 0) && i <= |a.items|
    ensures ItemTexts(a, i) == ItemTexts(b, i)
    decreases a, 0, |a.items| - i
  {
    if i < |a.items| {
      EquivPrintsAlike(a.items[i], b.items[i]);
      ItemsPrintAlike(a, b, i + 1);
    }
  }

  lemma {:induction false} FieldsPrintAlike(a: Json, b: Json, keys: seq<Text>)
    requires Valid(a) && Valid(b) && Equiv(a, b) && HasKeys(a, keys) && HasKeys(b, keys)
    ensures FieldTexts(a, keys) == FieldTexts(b, keys)
    decreases a, 0, |keys|
  {
    if keys != [] {
      FieldPrintsAlike(a, b, keys[0]);
      FieldsPrintAlike(a, b, keys[1..]);
    }
  }

  lemma {:induction false} FieldPrintsAlike(a: Json, b: Json, key: Text)
    requires Valid(a) && Valid(b) && a.JObj? && b.JObj? && Equiv(a, b)
    requires FieldIndex(a.fields, key) < |a.fields| && FieldIndex(b.fields, key) < |b.fields|
    ensures FieldText(a, key) == FieldText(b, key)
    decreases a, 0, 0
  {
    var i, j := FieldIndex(a.fields, key), FieldIndex(b.fields, key);
    assert Equiv(a.fields[i].value, b.fields[j].value);
    EquivPrintsAlike(a.fields[i].value, b.fields[j].value);
  }

  /** Two values print the same exactly when they are equivalent. */
  lemma CanonicalExact(a: Json, b: Json)
    requires Valid(a) && Valid(b)
    ensures Canon(a) == Canon(b) <==> Equiv(a, b)
  {
    if Canon(a) == Canon(b) {
      assert Canon(a) + [] == Canon(b) + [];
      Unambiguous(a, [], b, []);
    }
    if Equiv(a, b) { EquivPrintsAlike(a, b); }
  }

  // ----- Values read from JSON -----

  /** Neither undefined nor a number that is not finite, at any depth. */
  ghost predicate Parsed(v: Json) {
    match v
    case JUndefined => false
    case JNotFinite => false
    case JArr(items) => forall i | 0 <= i < |items| :: Parsed(items[i])
    case JObj(fields) => forall i | 0 <= i < |fields| :: Parsed(fields[i].value)
    case _ => true
  }

  /** Equal but for the order of object keys, at any depth. */
  ghost predicate SameButOrder(a: Json, b: Json) {
    match (a, b)
    case (JArr(s), JArr(t)) => |s| == |t| && forall i | 0 <= i < |s| :: SameButOrder(s[i], t[i])
    case (JObj(s), JObj(t)) =>
      && multiset(KeysOf(s)) == multiset(KeysOf(t))
      && forall i, j | 0 <= i < |s| && 0 <= j < |t| && s[i].key == t[j].key :: SameButOrder(s[i].value, t[j].value)
    case _ => a == b
  }

  lemma {:induction false} ParsedEquiv(a: Json, b: Json)
    requires Parsed(a) && Parsed(b)
    ensures Equiv(a, b) <==> SameButOrder(a, b)
  {
    if a.JArr? && b.JArr? {
      assert a.items != [] ==> Parsed(a.items[0]);
      assert b.items != [] ==> Parsed(b.items[0]);
      forall i | 0 <= i < |a.items| && i < |b.items|
        ensures Equiv(a.items[i], b.items[i]) <==> SameButOrder(a.items[i], b.items[i])
      {
        ParsedEquiv(a.items[i], b.items[i]);
      }
    } else if a.JObj? && b.JObj? {
      forall i, j | 0 <= i < |a.fields| && 0 <= j < |b.fields|
        ensures Equiv(a.fields[i].value, b.fields[j].value) <==> SameButOrder(a.fields[i].value, b.fields[j].value)
      {
        ParsedEquiv(a.fields[i].value, b.fields[j].value);
      }
    }
  }

  /** Two values read from JSON print the same exactly when only the order of keys differs. */
  lemma ParsedExact(a: Json, b: Json)
    requires Valid(a) && Valid(b) && Parsed(a) && Parsed(b)
    ensures Canon(a) == Canon(b) <==> SameButOrder(a, b)
  {
    CanonicalExact(a, b);
    ParsedEquiv(a, b);
  }
}
