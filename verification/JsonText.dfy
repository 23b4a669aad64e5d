/**
 JSON values as JavaScript holds them, the text printed for them, and a decoder
 for that text. Text is a sequence of UTF-16 code units.
 */
module JsonText {
  import opened Prelude

  type Unit = u: int | 0 <= u < 0x10000
  type Text = seq<Unit>

  const QUOTE: Unit := 0x22
  const BACKSLASH: Unit := 0x5C
  const COMMA: Unit := 0x2C
  const COLON: Unit := 0x3A
  const OPEN_BRACKET: Unit := 0x5B
  const CLOSE_BRACKET: Unit := 0x5D
  const OPEN_BRACE: Unit := 0x7B
  const CLOSE_BRACE: Unit := 0x7D

  const NULL_TEXT: Text := [0x6E, 0x75, 0x6C, 0x6C]
  const TRUE_TEXT: Text := [0x74, 0x72, 0x75, 0x65]
  const FALSE_TEXT: Text := [0x66, 0x61, 0x6C, 0x73, 0x65]
  const UNDEFINED_TEXT: Text := [0x75, 0x6E, 0x64, 0x65, 0x66, 0x69, 0x6E, 0x65, 0x64]

  predicate NumUnit(u: Unit) { 0x30 <= u <= 0x39 || u in {0x2B, 0x2D, 0x2E, 0x65} }

  predicate IsNumText(t: Text) { t != [] && forall u | u in t :: NumUnit(u) }

  /** A finite number is identified with its decimal text. */
  type NumText = t: Text | IsNumText(t) witness [0x30]

  /**
   `Opaque` stands for a function or a symbol, with the text `String()` gives.
   An object's fields are in insertion order.
   */
  datatype Value =
    | Undefined
    | Null
    | Bool(b: bool)
    | Number(text: NumText)
    | NonFinite
    | Str(s: Text)
    | Arr(items: seq<Value>)
    | Obj(fields: seq<Field>)
    | Opaque(shown: Text)

  datatype Field = Field(key: Text, value: Value)

  // ---------------------------------------------------------------------
  // Strings (section 7 of RFC 8259; lone surrogates are escaped too)
  // ---------------------------------------------------------------------

  function Hex(d: int): Unit
    requires 0 <= d < 16
  {
    if d < 10 then 0x30 + d else 0x57 + d
  }

  function Unhex(u: Unit): Option<int> {
    if 0x30 <= u <= 0x39 then Some(u - 0x30) else if 0x61 <= u <= 0x66 then Some(u - 0x57) else None
  }

  function UnicodeEscape(u: Unit): Text {
    [BACKSLASH, 0x75, Hex(u / 16 / 16 / 16), Hex(u / 16 / 16 % 16), Hex(u / 16 % 16), Hex(u % 16)]
  }

  predicate IsHigh(u: Unit) { 0xD800 <= u < 0xDC00 }
  predicate IsLow(u: Unit) { 0xDC00 <= u < 0xE000 }

  /** The letter of a two-character escape, where there is one. */
  function ShortEscape(u: Unit): Option<Unit> {
    if u == QUOTE || u == BACKSLASH then Some(u)
    else if u == 0x08 then Some(0x62)
    else if u == 0x09 then Some(0x74)
    else if u == 0x0A then Some(0x6E)
    else if u == 0x0C then Some(0x66)
    else if u == 0x0D then Some(0x72)
    else None
  }

  function EscapeUnit(u: Unit): Text {
    if ShortEscape(u).Some? then [BACKSLASH, ShortEscape(u).value]
    else if u < 0x20 || IsHigh(u) || IsLow(u) then UnicodeEscape(u)
    else [u]
  }

  function Escape(s: Text): Text
    decreases |s|
  {
    if s == [] then []
    else if |s| >= 2 && IsHigh(s[0]) && IsLow(s[1]) then s[..2] + Escape(s[2..])
    else EscapeUnit(s[0]) + Escape(s[1..])
  }

  function Quote(s: Text): Text { [QUOTE] + Escape(s) + [QUOTE] }

  function ShortUnescape(u: Unit): Option<Unit> {
    if u == QUOTE || u == BACKSLASH then Some(u)
    else if u == 0x62 then Some(0x08)
    else if u == 0x74 then Some(0x09)
    else if u == 0x6E then Some(0x0A)
    else if u == 0x66 then Some(0x0C)
    else if u == 0x72 then Some(0x0D)
    else None
  }

  function UnicodeUnescape(t: Text): Option<Unit>
    requires |t| >= 4
  {
    var a, b, c, d := Unhex(t[0]), Unhex(t[1]), Unhex(t[2]), Unhex(t[3]);
    if a.Some? && b.Some? && c.Some? && d.Some?
    then Some(((a.value * 16 + b.value) * 16 + c.value) * 16 + d.value)
    else None
  }

  /** One unit of a string body and the text after it. */
  function DecodeUnit(t: Text): (r: Option<(Unit, Text)>)
    ensures r.Some? ==> |r.value.1| < |t|
  {
    if t == [] then None
    else if t[0] != BACKSLASH then Some((t[0], t[1..]))
    else if |t| < 2 then None
    else if ShortUnescape(t[1]).Some? then Some((ShortUnescape(t[1]).value, t[2..]))
    else if t[1] == 0x75 && |t| >= 6 && UnicodeUnescape(t[2..]).Some? then Some((UnicodeUnescape(t[2..]).value, t[6..]))
    else None
  }

  /** The string whose body starts here, and the text after its closing quote. */
  function DecodeString(t: Text): (r: Option<(Text, Text)>)
    ensures r.Some? ==> |r.value.1| < |t|
    decreases |t|
  {
    if t == [] then None
    else if t[0] == QUOTE then Some(([], t[1..]))
    else
      var unit := DecodeUnit(t);
      if unit.None? then None
      else
        var tail := DecodeString(unit.value.1);
        if tail.None? then None else Some(([unit.value.0] + tail.value.0, tail.value.1))
  }

  lemma Assoc(a: Text, b: Text, c: Text)
    ensures (a + b) + c == a + (b + c)
  {}

  lemma Dropped(a: Text, b: Text)
    ensures (a + b)[|a|..] == b && (a + b)[..|a|] == a
  {}

  lemma UnicodeRoundTrip(u: Unit, t: Text)
    requires |t| >= 4
    requires t[0] == Hex(u / 16 / 16 / 16) && t[1] == Hex(u / 16 / 16 % 16) && t[2] == Hex(u / 16 % 16)
      && t[3] == Hex(u % 16)
    ensures UnicodeUnescape(t) == Some(u)
  {
    var a := u / 16;
    var b := a / 16;
    assert u == a * 16 + u % 16 && a == b * 16 + a % 16 && b == b / 16 * 16 + b % 16 && 0 <= b / 16 < 16;
  }

  lemma UnitRoundTrip(u: Unit, rest: Text)
    ensures DecodeUnit(EscapeUnit(u) + rest) == Some((u, rest))
    ensures EscapeUnit(u) != [] && EscapeUnit(u)[0] != QUOTE
  {
    var e := EscapeUnit(u);
    Dropped(e, rest);
    if ShortEscape(u).None? && (u < 0x20 || IsHigh(u) || IsLow(u)) {
      var digits := (e + rest)[2..];
      assert |digits| >= 4 && forall i | 0 <= i < 4 :: digits[i] == e[i+2];
      UnicodeRoundTrip(u, digits);
    }
  }

  lemma StringMore(t: Text, u: Unit, tail: Text, s: Text, rest: Text)
    requires t != [] && t[0] != QUOTE && DecodeUnit(t) == Some((u, tail)) && DecodeString(tail) == Some((s, rest))
    ensures DecodeString(t) == Some(([u] + s, rest))
  {}

  lemma StringRaw(u: Unit, tail: Text, s: Text, rest: Text)
    requires u != QUOTE && u != BACKSLASH && DecodeString(tail) == Some((s, rest))
    ensures DecodeString([u] + tail) == Some(([u] + s, rest))
  {}

  /** A surrogate pair travels raw. */
  lemma StringPair(high: Unit, low: Unit, tail: Text, s: Text, rest: Text)
    requires IsHigh(high) && IsLow(low) && DecodeString(tail) == Some((s, rest))
    ensures DecodeString([high, low] + tail) == Some(([high, low] + s, rest))
  {
    StringRaw(low, tail, s, rest);
    StringRaw(high, [low] + tail, [low] + s, rest);
    assert [high, low] + tail == [high] + ([low] + tail);
    assert [high, low] + s == [high] + ([low] + s);
  }

  lemma {:induction false} StringRoundTrip(s: Text, rest: Text)
    ensures DecodeString(Escape(s) + ([QUOTE] + rest)) == Some((s, rest))
    decreases |s|
  {
    var close := [QUOTE] + rest;
    if s == [] {
      Dropped([QUOTE], rest);
      assert Escape(s) + close == close;
    } else if |s| >= 2 && IsHigh(s[0]) && IsLow(s[1]) {
      StringRoundTrip(s[2..], rest);
      var tail := Escape(s[2..]) + close;
      assert s[..2] == [s[0], s[1]] && s == s[..2] + s[2..];
      StringPair(s[0], s[1], tail, s[2..], rest);
      Assoc(s[..2], Escape(s[2..]), close);
    } else {
      StringRoundTrip(s[1..], rest);
      var tail := Escape(s[1..]) + close;
      UnitRoundTrip(s[0], tail);
      Assoc(EscapeUnit(s[0]), Escape(s[1..]), close);
      StringMore(EscapeUnit(s[0]) + tail, s[0], tail, s[1..], rest);
      assert [s[0]] + s[1..] == s;
    }
  }

  // ---------------------------------------------------------------------
  // Printing and decoding values
  // ---------------------------------------------------------------------

  /** Only what JSON itself can hold. */
  ghost predicate Clean(v: Value) {
    match v
    case Undefined => false
    case NonFinite => false
    case Opaque(_) => false
    case Arr(items) => forall i | 0 <= i < |items| :: Clean(items[i])
    case Obj(fields) => forall i | 0 <= i < |fields| :: Clean(fields[i].value)
    case _ => true
  }

  /** `parts.join(',')`. */
  function Join(parts: seq<Text>): Text
    decreases |parts|
  {
    if parts == [] then []
    else if |parts| == 1 then parts[0]
    else parts[0] + [COMMA] + Join(parts[1..])
  }

  /** The text of a clean value, fields in the order it holds them. */
  function Print(v: Value): Text
    decreases v, 0
  {
    match v
    case Undefined => UNDEFINED_TEXT
    case Null => NULL_TEXT
    case NonFinite => NULL_TEXT
    case Bool(b) => if b then TRUE_TEXT else FALSE_TEXT
    case Number(text) => text
    case Str(s) => Quote(s)
    case Opaque(shown) => Quote(shown)
    case Arr(items) => [OPEN_BRACKET] + Join(PrintItems(items)) + [CLOSE_BRACKET]
    case Obj(fields) => [OPEN_BRACE] + Join(PrintFields(fields)) + [CLOSE_BRACE]
  }

  function PrintItems(items: seq<Value>): (parts: seq<Text>)
    ensures |parts| == |items| && forall i | 0 <= i < |items| :: parts[i] == Print(items[i])
    decreases items, 0
  {
    if items == [] then [] else [Print(items[0])] + PrintItems(items[1..])
  }

  function PrintFields(fields: seq<Field>): (parts: seq<Text>)
    ensures |parts| == |fields| && forall i | 0 <= i < |fields| :: parts[i] == PrintField(fields[i])
    decreases fields, 0
  {
    if fields == [] then [] else [PrintField(fields[0])] + PrintFields(fields[1..])
  }

  function PrintField(field: Field): Text
    decreases field, 0
  {
    Quote(field.key) + [COLON] + Print(field.value)
  }

  function NumPrefix(t: Text): (n: nat)
    ensures n <= |t| && (forall i | 0 <= i < n :: NumUnit(t[i])) && (n < |t| ==> !NumUnit(t[n]))
    decreases |t|
  {
    if t == [] || !NumUnit(t[0]) then 0 else 1 + NumPrefix(t[1..])
  }

  function DecodeValue(t: Text): (r: Option<(Value, Text)>)
    ensures r.Some? ==> |r.value.1| < |t|
    decreases |t|, 0
  {
    if t == [] then None
    else if t[0] == NULL_TEXT[0] then if NULL_TEXT <= t then Some((Null, t[4..])) else None
    else if t[0] == TRUE_TEXT[0] then if TRUE_TEXT <= t then Some((Bool(true), t[4..])) else None
    else if t[0] == FALSE_TEXT[0] then if FALSE_TEXT <= t then Some((Bool(false), t[5..])) else None
    else if t[0] == QUOTE then
      var s := DecodeString(t[1..]);
      if s.None? then None else Some((Str(s.value.0), s.value.1))
    else if t[0] == OPEN_BRACKET then
      if |t| > 1 && t[1] == CLOSE_BRACKET then Some((Arr([]), t[2..]))
      else
        var items := DecodeItems(t[1..]);
        if items.None? then None else Some((Arr(items.value.0), items.value.1))
    else if t[0] == OPEN_BRACE then
      if |t| > 1 && t[1] == CLOSE_BRACE then Some((Obj([]), t[2..]))
      else
        var fields := DecodeFields(t[1..]);
        if fields.None? then None else Some((Obj(fields.value.0), fields.value.1))
    else if NumUnit(t[0]) then
      var n := NumPrefix(t);
      assert t[0] == t[..n][0];
      Some((Number(t[..n]), t[n..]))
    else None
  }

  function DecodeItems(t: Text): (r: Option<(seq<Value>, Text)>)
    ensures r.Some? ==> |r.value.1| < |t|
    decreases |t|, 1
  {
    var v := DecodeValue(t);
    if v.None? || v.value.1 == [] then None
    else
      var after := v.value.1;
      if after[0] == CLOSE_BRACKET then Some(([v.value.0], after[1..]))
      else if after[0] != COMMA then None
      else
        var more := DecodeItems(after[1..]);
        if more.None? then None else Some(([v.value.0] + more.value.0, more.value.1))
  }

  function DecodeFields(t: Text): (r: Option<(seq<Field>, Text)>)
    ensures r.Some? ==> |r.value.1| < |t|
    decreases |t|, 1
  {
    if t == [] || t[0] != QUOTE then None
    else
      var key := DecodeString(t[1..]);
      if key.None? || key.value.1 == [] || key.value.1[0] != COLON then None
      else
        var v := DecodeValue(key.value.1[1..]);
        if v.None? || v.value.1 == [] then None
        else
          var after := v.value.1;
          var field := Field(key.value.0, v.value.0);
          if after[0] == CLOSE_BRACE then Some(([field], after[1..]))
          else if after[0] != COMMA then None
          else
            var more := DecodeFields(after[1..]);
            if more.None? then None else Some(([field] + more.value.0, more.value.1))
  }

  /** The text after a value does not go on with a number. */
  predicate Stops(rest: Text) { rest == [] || !NumUnit(rest[0]) }

  lemma NumPrefixIs(text: NumText, rest: Text)
    requires Stops(rest)
    ensures NumPrefix(text + rest) == |text|
  {
    var t := text + rest;
    var n := NumPrefix(t);
    assert forall i | 0 <= i < |text| :: t[i] == text[i] && text[i] in text;
    assert rest != [] ==> t[|text|] == rest[0];
  }

  lemma FirstUnit(v: Value)
    requires Clean(v)
    ensures Print(v) != [] && Print(v)[0] !in {CLOSE_BRACKET, CLOSE_BRACE, COMMA, COLON}
  {
    if v.Number? { assert v.text[0] in v.text; }
  }

  /** Decoding a printed value gives it back and consumes exactly its text. */
  lemma {:induction false} RoundTrip(v: Value, rest: Text)
    requires Clean(v) && Stops(rest)
    ensures DecodeValue(Print(v) + rest) == Some((v, rest))
    decreases v, 2
  {
    match v
    case Arr(items) => ArrRoundTrip(v, rest);
    case Obj(fields) => ObjRoundTrip(v, rest);
    case _ => LeafRoundTrip(v, rest);
  }

  lemma StrRoundTrip(s: Text, rest: Text)
    ensures DecodeValue(Quote(s) + rest) == Some((Str(s), rest))
  {
    StringRoundTrip(s, rest);
    var body := Escape(s) + ([QUOTE] + rest);
    assert Quote(s) + rest == [QUOTE] + body;
    Dropped([QUOTE], body);
  }

  lemma NumberRoundTrip(text: NumText, rest: Text)
    requires Stops(rest)
    ensures DecodeValue(text + rest) == Some((Number(text), rest))
  {
    NumPrefixIs(text, rest);
    Dropped(text, rest);
    assert text[0] in text && (text + rest)[0] == text[0];
  }

  lemma LeafRoundTrip(v: Value, rest: Text)
    requires Clean(v) && Stops(rest) && !v.Arr? && !v.Obj?
    ensures DecodeValue(Print(v) + rest) == Some((v, rest))
  {
    Dropped(Print(v), rest);
    match v
    case Null =>
    case Bool(b) =>
    case Number(text) => NumberRoundTrip(text, rest);
    case Str(s) => StrRoundTrip(s, rest);
  }

  lemma ItemsLast(t: Text, v: Value, rest: Text)
    requires DecodeValue(t) == Some((v, [CLOSE_BRACKET] + rest))
    ensures DecodeItems(t) == Some(([v], rest))
  {}

  lemma ItemsMore(t: Text, v: Value, more: Text, vs: seq<Value>, rest: Text)
    requires DecodeValue(t) == Some((v, [COMMA] + more)) && DecodeItems(more) == Some((vs, rest))
    ensures DecodeItems(t) == Some(([v] + vs, rest))
  {}

  lemma ArrWhole(body: Text, items: seq<Value>, rest: Text)
    requires body != [] && body[0] != CLOSE_BRACKET && DecodeItems(body) == Some((items, rest))
    ensures DecodeValue([OPEN_BRACKET] + body) == Some((Arr(items), rest))
  {
    var t := [OPEN_BRACKET] + body;
    assert t[1..] == body && t[1] == body[0];
  }

  lemma {:induction false} ArrRoundTrip(v: Value, rest: Text)
    requires Clean(v) && v.Arr?
    ensures DecodeValue(Print(v) + rest) == Some((v, rest))
    decreases v, 1
  {
    var body := Join(PrintItems(v.items)) + ([CLOSE_BRACKET] + rest);
    assert Print(v) + rest == [OPEN_BRACKET] + body;
    if v.items == [] {
      assert ([OPEN_BRACKET] + body)[2..] == rest;
    } else {
      ItemsRoundTrip(v.items, rest);
      FirstUnit(v.items[0]);
      assert body[0] == Print(v.items[0])[0];
      ArrWhole(body, v.items, rest);
    }
  }

  /** The text of two items or more, up to and after the first comma. */
  lemma ItemsText(items: seq<Value>, rest: Text)
    requires |items| >= 2
    ensures Join(PrintItems(items)) + rest == Print(items[0]) + ([COMMA] + (Join(PrintItems(items[1..])) + rest))
  {
    JoinMore(PrintItems(items), rest);
    assert PrintItems(items)[1..] == PrintItems(items[1..]);
  }

  lemma {:induction false} ItemsRoundTrip(items: seq<Value>, rest: Text)
    requires items != [] && forall i | 0 <= i < |items| :: Clean(items[i])
    ensures DecodeItems(Join(PrintItems(items)) + ([CLOSE_BRACKET] + rest)) == Some((items, rest))
    decreases items, 0
  {
    var close := [CLOSE_BRACKET] + rest;
    if |items| == 1 {
      RoundTrip(items[0], close);
      ItemsLast(Print(items[0]) + close, items[0], rest);
      assert items == [items[0]] && Join(PrintItems(items)) == Print(items[0]);
    } else {
      var more := Join(PrintItems(items[1..])) + close;
      ItemsRoundTrip(items[1..], rest);
      RoundTrip(items[0], [COMMA] + more);
      ItemsMore(Print(items[0]) + ([COMMA] + more), items[0], more, items[1..], rest);
      ItemsText(items, close);
      assert items == [items[0]] + items[1..];
    }
  }

  lemma JoinMore(parts: seq<Text>, rest: Text)
    requires |parts| >= 2
    ensures Join(parts) + rest == parts[0] + ([COMMA] + (Join(parts[1..]) + rest))
  {
    Assoc(parts[0], [COMMA], Join(parts[1..]));
    Assoc(parts[0], [COMMA] + Join(parts[1..]), rest);
    Assoc([COMMA], Join(parts[1..]), rest);
  }

  /** A key, a colon and a value, up to the text after the value. */
  ghost predicate DecodesField(t: Text, key: Text, v: Value, after: Text) {
    && t != [] && t[0] == QUOTE
    && var k := DecodeString(t[1..]);
    && k.Some? && k.value.0 == key && k.value.1 != [] && k.value.1[0] == COLON
    && DecodeValue(k.value.1[1..]) == Some((v, after))
  }

  lemma FieldsLast(t: Text, key: Text, v: Value, rest: Text)
    requires DecodesField(t, key, v, [CLOSE_BRACE] + rest)
    ensures DecodeFields(t) == Some(([Field(key, v)], rest))
  {}

  lemma FieldsMore(t: Text, key: Text, v: Value, more: Text, fields: seq<Field>, rest: Text)
    requires DecodesField(t, key, v, [COMMA] + more) && DecodeFields(more) == Some((fields, rest))
    ensures DecodeFields(t) == Some(([Field(key, v)] + fields, rest))
  {}

  lemma ObjWhole(body: Text, fields: seq<Field>, rest: Text)
    requires body != [] && body[0] != CLOSE_BRACE && DecodeFields(body) == Some((fields, rest))
    ensures DecodeValue([OPEN_BRACE] + body) == Some((Obj(fields), rest))
  {
    var t := [OPEN_BRACE] + body;
    assert t[1..] == body && t[1] == body[0];
  }

  lemma {:induction false} ObjRoundTrip(v: Value, rest: Text)
    requires Clean(v) && v.Obj?
    ensures DecodeValue(Print(v) + rest) == Some((v, rest))
    decreases v, 1
  {
    var body := Join(PrintFields(v.fields)) + ([CLOSE_BRACE] + rest);
    assert Print(v) + rest == [OPEN_BRACE] + body;
    if v.fields == [] {
      assert ([OPEN_BRACE] + body)[2..] == rest;
    } else {
      FieldsRoundTrip(v.fields, rest);
      assert body[0] == PrintFields(v.fields)[0][0] == QUOTE;
      ObjWhole(body, v.fields, rest);
    }
  }

  lemma PrintFieldsTail(fields: seq<Field>)
    requires fields != []
    ensures PrintFields(fields)[1..] == PrintFields(fields[1..])
  {}

  lemma FieldThenClose(field: Field, rest: Text)
    requires DecodeValue(Print(field.value) + ([CLOSE_BRACE] + rest)) == Some((field.value, [CLOSE_BRACE] + rest))
    ensures DecodeFields(PrintField(field) + ([CLOSE_BRACE] + rest)) == Some(([field], rest))
  {
    FieldDecodes(field.key, field.value, [CLOSE_BRACE] + rest);
    FieldsLast(PrintField(field) + ([CLOSE_BRACE] + rest), field.key, field.value, rest);
  }

  lemma FieldThenMore(field: Field, more: Text, fields: seq<Field>, rest: Text)
    requires DecodeValue(Print(field.value) + ([COMMA] + more)) == Some((field.value, [COMMA] + more))
    requires DecodeFields(more) == Some((fields, rest))
    ensures DecodeFields(PrintField(field) + ([COMMA] + more)) == Some(([field] + fields, rest))
  {
    FieldDecodes(field.key, field.value, [COMMA] + more);
    FieldsMore(PrintField(field) + ([COMMA] + more), field.key, field.value, more, fields, rest);
  }

  lemma {:induction false} FieldsRoundTrip(fields: seq<Field>, rest: Text)
    requires fields != [] && forall i | 0 <= i < |fields| :: Clean(fields[i].value)
    ensures DecodeFields(Join(PrintFields(fields)) + ([CLOSE_BRACE] + rest)) == Some((fields, rest))
    decreases fields, 0
  {
    var field := fields[0];
    if |fields| == 1 {
      RoundTrip(field.value, [CLOSE_BRACE] + rest);
      FieldThenClose(field, rest);
      assert fields == [field];
    } else {
      FieldsRoundTrip(fields[1..], rest);
      var more := Join(PrintFields(fields[1..])) + ([CLOSE_BRACE] + rest);
      JoinMore(PrintFields(fields), [CLOSE_BRACE] + rest);
      PrintFieldsTail(fields);
      RoundTrip(field.value, [COMMA] + more);
      FieldThenMore(field, more, fields[1..], rest);
      assert fields == [field] + fields[1..];
    }
  }

  lemma FieldDecodes(key: Text, v: Value, after: Text)
    requires DecodeValue(Print(v) + after) == Some((v, after))
    ensures DecodesField(Quote(key) + [COLON] + Print(v) + after, key, v, after)
  {
    var value := Print(v) + after;
    var afterKey := [COLON] + value;
    var body := Escape(key) + ([QUOTE] + afterKey);
    assert Quote(key) + [COLON] + Print(v) + after == [QUOTE] + body by {
      Assoc(Quote(key), [COLON], Print(v));
      Assoc(Quote(key), [COLON] + Print(v), after);
      Assoc([COLON], Print(v), after);
      Assoc([QUOTE] + Escape(key), [QUOTE], afterKey);
      Assoc([QUOTE], Escape(key), [QUOTE] + afterKey);
    }
    StringRoundTrip(key, afterKey);
    Dropped([QUOTE], body);
    Dropped([COLON], value);
  }
}
