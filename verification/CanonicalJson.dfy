/**
 Canonical JSON: the serializer that sorts object keys, what its text stands
 for, and which values have the same text.
 */
module CanonicalJson {
  import opened Prelude
  import opened JsonText

  // ---------------------------------------------------------------------
  // Sorting keys by code unit
  // ---------------------------------------------------------------------

  predicate Below(a: Text, b: Text)
    decreases |a|
  {
    b != [] && (a == [] || a[0] < b[0] || (a[0] == b[0] && Below(a[1..], b[1..])))
  }

  ghost predicate Increasing(ks: seq<Text>) { forall i, j | 0 <= i < j < |ks| :: Below(ks[i], ks[j]) }

  function Insert(k: Text, ks: seq<Text>): seq<Text>
    decreases |ks|
  {
    if ks != [] && Below(ks[0], k) then [ks[0]] + Insert(k, ks[1..]) else [k] + ks
  }

  function Sort(ks: seq<Text>): seq<Text>
    decreases |ks|
  {
    if ks == [] then [] else Insert(ks[0], Sort(ks[1..]))
  }

  lemma {:induction false} BelowIsStrict(a: Text)
    ensures !Below(a, a)
    decreases |a|
  {
    if a != [] { BelowIsStrict(a[1..]); }
  }

  lemma {:induction false} BelowTransitive(a: Text, b: Text, c: Text)
    requires Below(a, b) && Below(b, c)
    ensures Below(a, c)
    decreases |a|
  {
    if a != [] && a[0] == b[0] == c[0] { BelowTransitive(a[1..], b[1..], c[1..]); }
  }

  lemma {:induction false} BelowTotal(a: Text, b: Text)
    ensures a == b || Below(a, b) || Below(b, a)
    decreases |a|
  {
    if a != [] && b != [] && a[0] == b[0] {
      BelowTotal(a[1..], b[1..]);
      assert a == [a[0]] + a[1..] && b == [b[0]] + b[1..];
    }
  }

  lemma {:induction false} InsertIncreasing(k: Text, ks: seq<Text>)
    requires Increasing(ks) && k !in ks
    ensures Increasing(Insert(k, ks))
    ensures forall x :: x in Insert(k, ks) <==> x == k || x in ks
    decreases |ks|
  {
    if ks == [] {
    } else if Below(ks[0], k) {
      var tail := Insert(k, ks[1..]);
      InsertIncreasing(k, ks[1..]);
      assert ks == [ks[0]] + ks[1..];
      forall i, j | 0 <= i < j < |Insert(k, ks)| ensures Below(Insert(k, ks)[i], Insert(k, ks)[j]) {
        if i == 0 { assert tail[j-1] in tail; }
      }
    } else {
      BelowTotal(ks[0], k);
      forall i, j | 0 <= i < j < |Insert(k, ks)| ensures Below(Insert(k, ks)[i], Insert(k, ks)[j]) {
        if i == 0 && j > 1 { BelowTransitive(k, ks[0], ks[j-1]); }
      }
    }
  }

  lemma {:induction false} SortIncreasing(ks: seq<Text>)
    requires forall i, j | 0 <= i < j < |ks| :: ks[i] != ks[j]
    ensures Increasing(Sort(ks))
    ensures forall x :: x in Sort(ks) <==> x in ks
    decreases |ks|
  {
    if ks != [] {
      SortIncreasing(ks[1..]);
      InsertIncreasing(ks[0], Sort(ks[1..]));
      assert ks == [ks[0]] + ks[1..];
    }
  }

  /** An increasing sequence is determined by its elements. */
  lemma {:induction false} IncreasingUnique(a: seq<Text>, b: seq<Text>)
    requires Increasing(a) && Increasing(b)
    requires forall x :: x in a <==> x in b
    ensures a == b
    decreases |a|
  {
    assert b != [] ==> b[0] in a;
    if a == [] {
    } else {
      assert a[0] in b && b != [];
      assert b[0] in a;
      IncreasingHead(a, b[0]);
      IncreasingHead(b, a[0]);
      if a[0] != b[0] {
        BelowTransitive(a[0], b[0], a[0]);
        BelowIsStrict(a[0]);
      }
      forall x ensures x in a[1..] <==> x in b[1..] {
        TailMembers(a, x);
        TailMembers(b, x);
      }
      IncreasingUnique(a[1..], b[1..]);
      assert a == [a[0]] + a[1..] && b == [b[0]] + b[1..];
    }
  }

  lemma IncreasingHead(a: seq<Text>, x: Text)
    requires a != [] && Increasing(a) && x in a
    ensures x == a[0] || Below(a[0], x)
  {}

  lemma TailMembers(a: seq<Text>, x: Text)
    requires a != [] && Increasing(a)
    ensures x in a[1..] <==> x in a && x != a[0]
  {
    BelowIsStrict(a[0]);
    assert a == [a[0]] + a[1..];
    if x in a[1..] {
      var i :| 0 <= i < |a| - 1 && a[1..][i] == x;
      assert Below(a[0], a[i+1]);
    }
  }

  // ---------------------------------------------------------------------
  // The serializer
  // ---------------------------------------------------------------------

  function Keys(fields: seq<Field>): (ks: seq<Text>)
    ensures |ks| == |fields| && forall i | 0 <= i < |ks| :: ks[i] == fields[i].key
  {
    seq(|fields|, i requires 0 <= i < |fields| => fields[i].key)
  }

  /** Where the field named `k` is. */
  function Find(fields: seq<Field>, k: Text): (i: nat)
    requires k in Keys(fields)
    ensures i < |fields| && fields[i].key == k
  {
    if fields[0].key == k then 0
    else
      assert exists j | 1 <= j < |fields| :: Keys(fields)[j] == k;
      assert forall j | 1 <= j < |fields| :: Keys(fields)[j] == Keys(fields[1..])[j-1];
      1 + Find(fields[1..], k)
  }

  function At(fields: seq<Field>, k: Text): Value
    requires k in Keys(fields)
  {
    fields[Find(fields, k)].value
  }

  /** `keys.filter((key) => record[key] !== undefined)`. */
  function Defined(fields: seq<Field>, ks: seq<Text>): (r: seq<Text>)
    requires forall k | k in ks :: k in Keys(fields)
    ensures forall k :: k in r <==> k in ks && At(fields, k) != Undefined
    decreases |ks|
  {
    if ks == [] then []
    else
      assert ks == [ks[0]] + ks[1..];
      (if At(fields, ks[0]) == Undefined then [] else [ks[0]]) + Defined(fields, ks[1..])
  }

  lemma {:induction false} SortMembers(ks: seq<Text>)
    ensures forall x :: x in Sort(ks) <==> x in ks
    decreases |ks|
  {
    if ks != [] {
      SortMembers(ks[1..]);
      InsertMembers(ks[0], Sort(ks[1..]));
      assert ks == [ks[0]] + ks[1..];
    }
  }

  lemma {:induction false} InsertMembers(k: Text, ks: seq<Text>)
    ensures forall x :: x in Insert(k, ks) <==> x == k || x in ks
    decreases |ks|
  {
    if ks != [] && Below(ks[0], k) {
      InsertMembers(k, ks[1..]);
      assert ks == [ks[0]] + ks[1..];
    }
  }

  /** The sorted names of an object's fields whose value is not `undefined`. */
  function PresentKeys(fields: seq<Field>): (ks: seq<Text>)
    ensures forall k :: k in ks <==> k in Keys(fields) && At(fields, k) != Undefined
  {
    SortMembers(Keys(fields));
    Defined(fields, Sort(Keys(fields)))
  }

  function Serialize(v: Value): Text
    decreases v, 1, 0
  {
    match v
    case Undefined => UNDEFINED_TEXT
    case Null => NULL_TEXT
    case NonFinite => NULL_TEXT
    case Bool(b) => if b then TRUE_TEXT else FALSE_TEXT
    case Number(text) => text
    case Str(s) => Quote(s)
    case Arr(items) => [OPEN_BRACKET] + Join(SerializeItems(items)) + [CLOSE_BRACKET]
    case Obj(fields) => [OPEN_BRACE] + Join(SerializeEntries(v, PresentKeys(fields))) + [CLOSE_BRACE]
    case Opaque(shown) => Quote(shown)
  }

  function SerializeItems(items: seq<Value>): (parts: seq<Text>)
    ensures |parts| == |items| && forall i | 0 <= i < |items| :: parts[i] == SerializeItem(items[i])
    decreases items, 0, 0
  {
    if items == [] then [] else [SerializeItem(items[0])] + SerializeItems(items[1..])
  }

  function SerializeItem(item: Value): Text
    decreases item, 2, 0
  {
    if item == Undefined then NULL_TEXT else Serialize(item)
  }

  function SerializeEntries(v: Value, ks: seq<Text>): (parts: seq<Text>)
    requires v.Obj? && forall k | k in ks :: k in Keys(v.fields)
    ensures |parts| == |ks|
    ensures forall i | 0 <= i < |ks| :: parts[i] == Quote(ks[i]) + [COLON] + Serialize(At(v.fields, ks[i]))
    decreases v, 0, |ks|
  {
    if ks == [] then []
    else
      assert forall k | k in ks[1..] :: k in ks;
      [Quote(ks[0]) + [COLON] + Serialize(v.fields[Find(v.fields, ks[0])].value)] + SerializeEntries(v, ks[1..])
  }

  // ---------------------------------------------------------------------
  // What a value means: a JSON value whose objects are unordered
  // ---------------------------------------------------------------------

  datatype Json =
    | JNull
    | JBool(b: bool)
    | JNumber(text: NumText)
    | JString(s: Text)
    | JArray(items: seq<Json>)
    | JObject(members: map<Text, Json>)

  /** A JavaScript object holds each key once. */
  ghost predicate DistinctKeys(fields: seq<Field>) {
    forall i, j | 0 <= i < j < |fields| :: fields[i].key != fields[j].key
  }

  ghost predicate WellFormed(v: Value) {
    match v
    case Arr(items) => forall i | 0 <= i < |items| :: WellFormed(items[i])
    case Obj(fields) =>
      && DistinctKeys(fields)
      && (forall i | 0 <= i < |fields| :: WellFormed(fields[i].value))
    case _ => true
  }

  ghost function Meaning(v: Value): Json
    decreases v
  {
    match v
    case Undefined => JNull
    case Null => JNull
    case NonFinite => JNull
    case Bool(b) => JBool(b)
    case Number(text) => JNumber(text)
    case Str(s) => JString(s)
    case Opaque(shown) => JString(shown)
    case Arr(items) => JArray(seq(|items|, i requires 0 <= i < |items| => Meaning(items[i])))
    case Obj(fields) =>
      JObject(map k | k in Keys(fields) && fields[Find(fields, k)].value != Undefined ::
        Meaning(fields[Find(fields, k)].value))
  }

  /** The value as the serializer prints it: keys sorted, everything JSON cannot hold replaced or dropped. */
  ghost function Canon(v: Value): Value
    decreases v, 1, 0
  {
    match v
    case Undefined => Null
    case NonFinite => Null
    case Opaque(shown) => Str(shown)
    case Arr(items) => Arr(seq(|items|, i requires 0 <= i < |items| => Canon(items[i])))
    case Obj(fields) => Obj(CanonFields(v, PresentKeys(fields)))
    case _ => v
  }

  ghost function CanonFields(v: Value, ks: seq<Text>): (r: seq<Field>)
    requires v.Obj? && forall k | k in ks :: k in Keys(v.fields)
    ensures |r| == |ks| && forall i | 0 <= i < |ks| :: r[i] == Field(ks[i], Canon(At(v.fields, ks[i])))
    decreases v, 0, |ks|
  {
    if ks == [] then []
    else
      assert forall k | k in ks[1..] :: k in ks;
      [Field(ks[0], Canon(v.fields[Find(v.fields, ks[0])].value))] + CanonFields(v, ks[1..])
  }

  lemma {:induction false} CanonIsClean(v: Value)
    ensures Clean(Canon(v))
    decreases v
  {
    match v
    case Arr(items) =>
      forall i | 0 <= i < |items| ensures Clean(Canon(items[i])) { CanonIsClean(items[i]); }
    case Obj(fields) =>
      var ks := PresentKeys(fields);
      forall i | 0 <= i < |ks| ensures Clean(CanonFields(v, ks)[i].value) {
        assert ks[i] in ks;
        CanonIsClean(fields[Find(fields, ks[i])].value);
      }
    case _ =>
  }

  lemma {:induction false} SerializePrintsCanon(v: Value)
    requires v != Undefined
    ensures Serialize(v) == Print(Canon(v))
    decreases v
  {
    match v
    case Arr(items) =>
      var canon := Canon(v).items;
      forall i | 0 <= i < |items| ensures SerializeItems(items)[i] == PrintItems(canon)[i] {
        assert canon[i] == Canon(items[i]);
        if items[i] != Undefined { SerializePrintsCanon(items[i]); }
      }
      assert SerializeItems(items) == PrintItems(canon);
    case Obj(fields) =>
      var ks := PresentKeys(fields);
      var canon := CanonFields(v, ks);
      forall i | 0 <= i < |ks| ensures SerializeEntries(v, ks)[i] == PrintFields(canon)[i] {
        assert ks[i] in ks;
        SerializePrintsCanon(fields[Find(fields, ks[i])].value);
      }
      assert SerializeEntries(v, ks) == PrintFields(canon);
    case _ =>
  }

  lemma PresentKeysIncreasing(v: Value)
    requires v.Obj? && WellFormed(v)
    ensures Increasing(PresentKeys(v.fields))
  {
    SortIncreasing(Keys(v.fields));
    DefinedIncreasing(v.fields, Sort(Keys(v.fields)));
  }

  lemma {:induction false} DefinedIncreasing(fields: seq<Field>, ks: seq<Text>)
    requires Increasing(ks) && forall k | k in ks :: k in Keys(fields)
    ensures Increasing(Defined(fields, ks))
    decreases |ks|
  {
    if ks != [] {
      assert forall k | k in ks[1..] :: k in ks;
      DefinedIncreasing(fields, ks[1..]);
      var r := Defined(fields, ks);
      var tail := Defined(fields, ks[1..]);
      if At(fields, ks[0]) != Undefined {
        forall i, j | 0 <= i < j < |r| ensures Below(r[i], r[j]) {
          if i == 0 {
            assert tail[j-1] in tail;
            IncreasingTail(ks, r[j]);
          }
        }
      } else {
        assert r == tail;
      }
    }
  }

  lemma IncreasingTail(ks: seq<Text>, x: Text)
    requires ks != [] && Increasing(ks) && x in ks[1..]
    ensures Below(ks[0], x)
  {}

  /** Values that mean the same have the same canonical form ... */
  lemma {:induction false} SameMeaningSameCanon(v: Value, w: Value)
    requires WellFormed(v) && WellFormed(w) && Meaning(v) == Meaning(w)
    ensures Canon(v) == Canon(w)
    decreases v
  {
    match v
    case Arr(items) =>
      var m := Meaning(v).items;
      assert |items| == |m| == |w.items|;
      forall i | 0 <= i < |items| ensures Canon(items[i]) == Canon(w.items[i]) {
        assert m[i] == Meaning(items[i]) && m[i] == Meaning(w.items[i]);
        SameMeaningSameCanon(items[i], w.items[i]);
      }
    case Obj(fields) =>
      var m := Meaning(v).members;
      var ks, ls := PresentKeys(fields), PresentKeys(w.fields);
      forall k ensures (k in ks <==> k in m) && (k in ls <==> k in m) {}
      PresentKeysIncreasing(v);
      PresentKeysIncreasing(w);
      IncreasingUnique(ks, ls);
      forall i | 0 <= i < |ks| ensures CanonFields(v, ks)[i] == CanonFields(w, ls)[i] {
        var k := ks[i];
        assert k in ks && k in m;
        assert m[k] == Meaning(At(fields, k)) == Meaning(At(w.fields, k));
        SameMeaningSameCanon(fields[Find(fields, k)].value, At(w.fields, k));
      }
      assert CanonFields(v, ks) == CanonFields(w, ls);
    case _ =>
  }

  /** ... and the canonical form still means what the value meant. */
  lemma {:induction false} CanonKeepsMeaning(v: Value)
    requires WellFormed(v)
    ensures Meaning(Canon(v)) == Meaning(v)
    decreases v
  {
    match v
    case Arr(items) =>
      forall i | 0 <= i < |items| ensures Meaning(Canon(items[i])) == Meaning(items[i]) { CanonKeepsMeaning(items[i]); }
    case Obj(fields) => ObjCanonKeepsMeaning(v);
    case _ =>
  }

  /** `m` is the meaning of the object with these fields. */
  ghost predicate MembersOf(m: map<Text, Json>, fields: seq<Field>) {
    && (forall k :: k in m <==> k in Keys(fields) && At(fields, k) != Undefined)
    && (forall k | k in m :: m[k] == Meaning(At(fields, k)))
  }

  lemma MeaningMembers(fields: seq<Field>)
    ensures MembersOf(Meaning(Obj(fields)).members, fields)
  {}

  lemma MembersUnique(m: map<Text, Json>, n: map<Text, Json>, fields: seq<Field>)
    requires MembersOf(m, fields) && MembersOf(n, fields)
    ensures m == n
  {}

  lemma {:induction false} ObjCanonKeepsMeaning(v: Value)
    requires v.Obj? && WellFormed(v)
    ensures Meaning(Canon(v)) == Meaning(v)
    decreases v, 0
  {
    var ks := PresentKeys(v.fields);
    var canon := CanonFields(v, ks);
    forall k | k in ks ensures Canon(At(v.fields, k)) != Undefined
      && Meaning(Canon(At(v.fields, k))) == Meaning(At(v.fields, k)) {
      CanonIsClean(v.fields[Find(v.fields, k)].value);
      CanonKeepsMeaning(v.fields[Find(v.fields, k)].value);
    }
    CanonFieldsAt(v, ks);
    MeaningMembers(v.fields);
    MeaningMembers(canon);
    MembersUnique(Meaning(v).members, Meaning(Obj(canon)).members, v.fields);
  }

  lemma CanonFieldsAt(v: Value, ks: seq<Text>)
    requires v.Obj? && forall k | k in ks :: k in Keys(v.fields)
    ensures forall k :: k in Keys(CanonFields(v, ks)) <==> k in ks
    ensures forall k | k in ks :: At(CanonFields(v, ks), k) == Canon(At(v.fields, k))
  {
    var canon := CanonFields(v, ks);
    forall k ensures k in Keys(canon) <==> k in ks {
      if k in ks {
        var i :| 0 <= i < |ks| && ks[i] == k;
        assert Keys(canon)[i] == k;
      }
      if k in Keys(canon) {
        var i :| 0 <= i < |canon| && Keys(canon)[i] == k;
        assert ks[i] == k;
      }
    }
    forall k | k in ks ensures At(canon, k) == Canon(At(v.fields, k)) {
      assert canon[Find(canon, k)].key == ks[Find(canon, k)];
    }
  }

  /**
   Two values have the same canonical text exactly when they are equal as JSON
   values, object key order aside.
   */
  lemma EqualTextExactly(v: Value, w: Value)
    requires WellFormed(v) && WellFormed(w) && v != Undefined && w != Undefined
    ensures Serialize(v) == Serialize(w) <==> Meaning(v) == Meaning(w)
  {
    SerializePrintsCanon(v);
    SerializePrintsCanon(w);
    if Serialize(v) == Serialize(w) {
      DecodesCanon(v);
      DecodesCanon(w);
      CanonKeepsMeaning(v);
      CanonKeepsMeaning(w);
    }
    if Meaning(v) == Meaning(w) {
      SameMeaningSameCanon(v, w);
    }
  }

  /** The canonical text decodes to the canonical form: nothing but key order is lost. */
  lemma DecodesCanon(v: Value)
    requires v != Undefined
    ensures DecodeValue(Serialize(v)) == Some((Canon(v), []))
  {
    CanonIsClean(v);
    RoundTrip(Canon(v), []);
    SerializePrintsCanon(v);
    assert Print(Canon(v)) + [] == Print(Canon(v));
  }

  // ---------------------------------------------------------------------
  // No control characters
  // ---------------------------------------------------------------------

  ghost predicate Printable(t: Text) { forall u | u in t :: u >= 0x20 }

  lemma PrintableConcat(a: Text, b: Text)
    requires Printable(a) && Printable(b)
    ensures Printable(a + b)
  {}

  lemma {:induction false} EscapePrintable(s: Text)
    ensures Printable(Escape(s))
    decreases |s|
  {
    if |s| >= 2 && IsHigh(s[0]) && IsLow(s[1]) {
      EscapePrintable(s[2..]);
      PrintableConcat(s[..2], Escape(s[2..]));
    } else if s != [] {
      EscapePrintable(s[1..]);
      PrintableConcat(EscapeUnit(s[0]), Escape(s[1..]));
    }
  }

  lemma QuotePrintable(s: Text)
    ensures Printable(Quote(s))
  {
    EscapePrintable(s);
    PrintableConcat([QUOTE], Escape(s));
    PrintableConcat([QUOTE] + Escape(s), [QUOTE]);
  }

  lemma {:induction false} JoinPrintable(parts: seq<Text>)
    requires forall i | 0 <= i < |parts| :: Printable(parts[i])
    ensures Printable(Join(parts))
    decreases |parts|
  {
    if |parts| > 1 {
      JoinPrintable(parts[1..]);
      PrintableConcat(parts[0], [COMMA]);
      PrintableConcat(parts[0] + [COMMA], Join(parts[1..]));
    }
  }

  lemma BracketsPrintable(open: Unit, parts: seq<Text>, close: Unit)
    requires open >= 0x20 && close >= 0x20
    requires forall i | 0 <= i < |parts| :: Printable(parts[i])
    ensures Printable([open] + Join(parts) + [close])
  {
    JoinPrintable(parts);
    PrintableConcat([open], Join(parts));
    PrintableConcat([open] + Join(parts), [close]);
  }

  /** Canonical text never holds a raw control character -- no NUL in particular. */
  lemma {:induction false} SerializePrintable(v: Value)
    ensures Printable(Serialize(v))
    decreases v, 1
  {
    match v
    case Str(s) => QuotePrintable(s);
    case Opaque(shown) => QuotePrintable(shown);
    case Arr(items) =>
      forall i | 0 <= i < |items| ensures Printable(SerializeItem(items[i])) { SerializePrintable(items[i]); }
      BracketsPrintable(OPEN_BRACKET, SerializeItems(items), CLOSE_BRACKET);
    case Obj(fields) =>
      var ks := PresentKeys(fields);
      forall i | 0 <= i < |ks| ensures Printable(SerializeEntries(v, ks)[i]) {
        assert ks[i] in ks;
        EntryPrintable(v, ks[i]);
      }
      BracketsPrintable(OPEN_BRACE, SerializeEntries(v, ks), CLOSE_BRACE);
    case _ =>
  }

  lemma {:induction false} EntryPrintable(v: Value, k: Text)
    requires v.Obj? && k in Keys(v.fields)
    ensures Printable(Quote(k) + [COLON] + Serialize(At(v.fields, k)))
    decreases v, 0
  {
    QuotePrintable(k);
    SerializePrintable(v.fields[Find(v.fields, k)].value);
    PrintableConcat(Quote(k), [COLON]);
    PrintableConcat(Quote(k) + [COLON], Serialize(At(v.fields, k)));
  }

  // ---------------------------------------------------------------------
  // Through the wire: JSON.parse(JSON.stringify(v))
  // ---------------------------------------------------------------------

  /** What `JSON.stringify` keeps of a value, in the value's own field order. */
  function Kept(v: Value): Value
    decreases v, 0
  {
    match v
    case Undefined => Null
    case NonFinite => Null
    case Opaque(_) => Null
    case Arr(items) => Arr(KeptItems(items))
    case Obj(fields) => Obj(KeptFields(fields))
    case _ => v
  }

  function KeptItems(items: seq<Value>): (r: seq<Value>)
    ensures |r| == |items| && forall i | 0 <= i < |items| :: r[i] == Kept(items[i])
    decreases items, 0
  {
    if items == [] then [] else [Kept(items[0])] + KeptItems(items[1..])
  }

  predicate Skipped(v: Value) { v.Undefined? || v.Opaque? }

  function KeptFields(fields: seq<Field>): seq<Field>
    decreases fields, 0
  {
    if fields == [] then []
    else
      (if Skipped(fields[0].value) then [] else [Field(fields[0].key, Kept(fields[0].value))])
      + KeptFields(fields[1..])
  }

  /** `JSON.stringify(v)`; `None` where it answers `undefined`. */
  function Stringify(v: Value): Option<Text> {
    if Skipped(v) then None else Some(Print(Kept(v)))
  }

  /** `JSON.parse` of a text that `JSON.stringify` printed. */
  function Parse(t: Text): Option<Value> {
    var r := DecodeValue(t);
    if r.Some? && r.value.1 == [] then Some(r.value.0) else None
  }

  /** Nothing in the value is a function or a symbol. */
  ghost predicate NoOpaque(v: Value) {
    match v
    case Opaque(_) => false
    case Arr(items) => forall i | 0 <= i < |items| :: NoOpaque(items[i])
    case Obj(fields) => forall i | 0 <= i < |fields| :: NoOpaque(fields[i].value)
    case _ => true
  }

  lemma {:induction false} KeptIsClean(v: Value)
    ensures Clean(Kept(v))
    decreases v, 1
  {
    match v
    case Arr(items) =>
      forall i | 0 <= i < |items| ensures Clean(Kept(items[i])) { KeptIsClean(items[i]); }
    case Obj(fields) => KeptFieldsClean(fields);
    case _ =>
  }

  lemma {:induction false} KeptFieldsClean(fields: seq<Field>)
    ensures forall f | f in KeptFields(fields) :: Clean(f.value)
    decreases fields, 0
  {
    if fields != [] {
      KeptIsClean(fields[0].value);
      KeptFieldsClean(fields[1..]);
    }
  }

  lemma Travels(v: Value)
    requires !Skipped(v)
    ensures Stringify(v).Some? && Parse(Stringify(v).value) == Some(Kept(v))
  {
    KeptIsClean(v);
    RoundTrip(Kept(v), []);
    assert Print(Kept(v)) + [] == Print(Kept(v));
  }

  lemma AtCons(fields: seq<Field>)
    requires fields != [] && DistinctKeys(fields)
    ensures DistinctKeys(fields[1..])
    ensures fields[0].key in Keys(fields) && At(fields, fields[0].key) == fields[0].value
    ensures fields[0].key !in Keys(fields[1..])
    ensures forall k | k in Keys(fields[1..]) :: k in Keys(fields) && At(fields, k) == At(fields[1..], k)
    ensures forall k | k in Keys(fields) :: k == fields[0].key || k in Keys(fields[1..])
  {}

  /** `r` holds the kept fields of `fields`: none is lost, none is invented. */
  ghost predicate IsKept(fields: seq<Field>, r: seq<Field>) {
    && DistinctKeys(r)
    && (forall k :: k in Keys(r) <==> k in Keys(fields) && !Skipped(At(fields, k)))
    && (forall k | k in Keys(r) :: At(r, k) == Kept(At(fields, k)))
  }

  lemma KeptSkip(fields: seq<Field>, r: seq<Field>)
    requires fields != [] && DistinctKeys(fields) && Skipped(fields[0].value) && IsKept(fields[1..], r)
    ensures IsKept(fields, r)
  {}

  lemma KeptMore(fields: seq<Field>, r: seq<Field>)
    requires fields != [] && DistinctKeys(fields) && !Skipped(fields[0].value)
    requires r != [] && r[0] == Field(fields[0].key, Kept(fields[0].value)) && IsKept(fields[1..], r[1..])
    ensures IsKept(fields, r)
  {
    AtCons(fields);
    var tail := r[1..];
    forall i, j | 0 <= i < j < |r| ensures r[i].key != r[j].key {
      assert r[j].key == tail[j-1].key == Keys(tail)[j-1];
      if i > 0 { assert r[i].key == tail[i-1].key; }
    }
    AtCons(r);
  }

  lemma {:induction false} KeptFieldsAre(fields: seq<Field>)
    requires DistinctKeys(fields)
    ensures IsKept(fields, KeptFields(fields))
    decreases |fields|
  {
    if fields != [] {
      AtCons(fields);
      KeptFieldsAre(fields[1..]);
      if Skipped(fields[0].value) {
        assert KeptFields(fields) == KeptFields(fields[1..]);
        KeptSkip(fields, KeptFields(fields));
      } else {
        assert KeptFields(fields)[1..] == KeptFields(fields[1..]);
        KeptMore(fields, KeptFields(fields));
      }
    }
  }

  lemma {:induction false} KeptWellFormed(v: Value)
    requires WellFormed(v)
    ensures WellFormed(Kept(v))
    decreases v
  {
    match v
    case Arr(items) =>
      forall i | 0 <= i < |items| ensures WellFormed(Kept(items[i])) { KeptWellFormed(items[i]); }
    case Obj(fields) =>
      KeptFieldsAre(fields);
      var r := KeptFields(fields);
      forall i | 0 <= i < |r| ensures WellFormed(r[i].value) {
        var k := r[i].key;
        assert Keys(r)[i] == k;
        assert Find(r, k) == i;
        KeptWellFormed(fields[Find(fields, k)].value);
      }
    case _ =>
  }

  /** The trip keeps the meaning exactly of the values without functions and symbols. */
  lemma {:induction false} TripMeaning(v: Value)
    requires WellFormed(v)
    ensures Meaning(Kept(v)) == Meaning(v) <==> NoOpaque(v)
    decreases v, 1
  {
    match v
    case Arr(items) =>
      forall i | 0 <= i < |items| ensures Meaning(Kept(items[i])) == Meaning(items[i]) <==> NoOpaque(items[i]) {
        TripMeaning(items[i]);
      }
      var m, n := Meaning(v).items, Meaning(Kept(v)).items;
      assert |m| == |n| == |items|;
      assert forall i | 0 <= i < |items| :: m[i] == Meaning(items[i]) && n[i] == Meaning(Kept(items[i]));
      if m == n {
        forall i | 0 <= i < |items| ensures NoOpaque(items[i]) { assert m[i] == n[i]; }
      }
    case Obj(fields) => ObjTripMeaning(v);
    case _ =>
  }

  /** ... and `n` the meaning of what the trip keeps of it. */
  ghost predicate KeptMembersOf(n: map<Text, Json>, fields: seq<Field>) {
    && (forall k :: k in n <==> k in Keys(fields) && !Skipped(At(fields, k)))
    && (forall k | k in n :: n[k] == Meaning(Kept(At(fields, k))))
  }

  lemma TripMembers(fields: seq<Field>)
    requires DistinctKeys(fields)
    ensures KeptMembersOf(Meaning(Obj(KeptFields(fields))).members, fields)
  {
    KeptFieldsAre(fields);
    MeaningMembers(KeptFields(fields));
    KeptMembers(Meaning(Obj(KeptFields(fields))).members, fields, KeptFields(fields));
  }

  lemma KeptMembers(n: map<Text, Json>, fields: seq<Field>, r: seq<Field>)
    requires IsKept(fields, r) && MembersOf(n, r)
    ensures KeptMembersOf(n, fields)
  {
    forall k | k in Keys(r) ensures k in n && n[k] == Meaning(Kept(At(fields, k))) {
      assert At(r, k) == Kept(At(fields, k)) != Undefined;
    }
  }

  lemma {:induction false} ObjTripMeaning(v: Value)
    requires v.Obj? && WellFormed(v)
    ensures Meaning(Kept(v)) == Meaning(v) <==> NoOpaque(v)
    decreases v, 0
  {
    var fields := v.fields;
    MeaningMembers(fields);
    TripMembers(fields);
    forall i | 0 <= i < |fields|
      ensures Meaning(Kept(fields[i].value)) == Meaning(fields[i].value) <==> NoOpaque(fields[i].value)
    {
      TripMeaning(fields[i].value);
    }
    SameMembersExactly(fields, Meaning(v).members, Meaning(Kept(v)).members);
  }

  lemma SameMembersExactly(fields: seq<Field>, m: map<Text, Json>, n: map<Text, Json>)
    requires DistinctKeys(fields) && MembersOf(m, fields) && KeptMembersOf(n, fields)
    requires forall i | 0 <= i < |fields| ::
      Meaning(Kept(fields[i].value)) == Meaning(fields[i].value) <==> NoOpaque(fields[i].value)
    ensures m == n <==> forall i | 0 <= i < |fields| :: NoOpaque(fields[i].value)
  {
    if m == n {
      forall i | 0 <= i < |fields| ensures NoOpaque(fields[i].value) {
        var k := fields[i].key;
        assert Keys(fields)[i] == k && Find(fields, k) == i;
        if k in m { assert m[k] == n[k]; }
      }
    }
    if forall i | 0 <= i < |fields| :: NoOpaque(fields[i].value) {
      forall k | k in Keys(fields)
        ensures !At(fields, k).Opaque? && Meaning(Kept(At(fields, k))) == Meaning(At(fields, k)) {
        assert NoOpaque(fields[Find(fields, k)].value);
      }
      MembersUnique(m, n, fields);
    }
  }

  /**
   Sending a value as JSON and reading it back leaves its canonical text
   unchanged -- dropped `undefined` fields and nulled elements included -- if
   and only if it holds no function and no symbol.
   */
  lemma TripExactly(v: Value)
    requires WellFormed(v) && !Skipped(v)
    ensures
      var back := Parse(Stringify(v).value);
      back.Some? && (Serialize(back.value) == Serialize(v) <==> NoOpaque(v))
  {
    Travels(v);
    KeptWellFormed(v);
    TripMeaning(v);
    EqualTextExactly(Kept(v), v);
  }
}
