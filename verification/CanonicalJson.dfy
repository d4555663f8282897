/**
 Canonical JSON text: the equality test of the block diff.

 Two values count as equal when their texts are. `CanonicalTextIsFaithful` proves that this is equality
 up to the order of object keys, given a total order on keys, so the diff neither misses nor invents a
 change. Strings are sequences of UTF-16 code units, escaped as JSON.stringify escapes them (section 7
 of RFC 8259); a number is identified with the text JSON.stringify gives it.
 */
module CanonicalJson {
  import opened Wrappers

  type CodeUnit = c: int | 0 <= c < 0x1_0000 witness 0

  type Text = seq<CodeUnit>

  datatype Json =
    | Null
    | Bool(b: bool)
    | Number(text: Text)
    | String(s: Text)
    | Array(items: seq<Json>)
    | Object(entries: seq<Entry>)

  datatype Entry = Entry(key: Text, value: Json)

  /** What a JSON value means: the order of object keys is gone. */
  datatype Value =
    | NullValue
    | BoolValue(b: bool)
    | NumberValue(text: Text)
    | StringValue(s: Text)
    | ArrayValue(items: seq<Value>)
    | ObjectValue(fields: map<Text, Value>)

  // ---------------------------------------------------------------------------------------------
  // Text
  // ---------------------------------------------------------------------------------------------

  const QUOTE: CodeUnit := 0x22
  const BACKSLASH: CodeUnit := 0x5C
  const COMMA: CodeUnit := 0x2C
  const COLON: CodeUnit := 0x3A
  const OPEN_BRACKET: CodeUnit := 0x5B
  const CLOSE_BRACKET: CodeUnit := 0x5D
  const OPEN_BRACE: CodeUnit := 0x7B
  const CLOSE_BRACE: CodeUnit := 0x7D

  predicate IsHigh(c: CodeUnit) { 0xD800 <= c < 0xDC00 }

  predicate IsLow(c: CodeUnit) { 0xDC00 <= c < 0xE000 }

  function HexDigit(d: nat): CodeUnit
    requires d < 16
  {
    if d < 10 then 0x30 + d else 0x61 + d - 10
  }

  function HexValue(c: CodeUnit): Option<nat> {
    if 0x30 <= c <= 0x39 then Some(c - 0x30) else if 0x61 <= c <= 0x66 then Some(c - 0x61 + 10) else None
  }

  /** The letter of a two-character escape. */
  function ShortEscape(c: CodeUnit): Option<CodeUnit> {
    if c == QUOTE || c == BACKSLASH then Some(c)
    else if c == 8 then Some(0x62)
    else if c == 9 then Some(0x74)
    else if c == 10 then Some(0x6E)
    else if c == 12 then Some(0x66)
    else if c == 13 then Some(0x72)
    else None
  }

  /** One code unit on its own, in front of `rest`. */
  function WriteUnit(c: CodeUnit, rest: Text): Text {
    if ShortEscape(c).Some? then [BACKSLASH, ShortEscape(c).value] + rest
    else if c < 0x20 || IsHigh(c) || IsLow(c) then
      [BACKSLASH, 0x75, HexDigit(c / 0x1000), HexDigit(c / 0x100 % 16), HexDigit(c / 16 % 16), HexDigit(c % 16)] + rest
    else [c] + rest
  }

  /** The escaped string in front of `rest`; a surrogate pair is written as it is. */
  function Escape(s: Text, rest: Text): Text {
    if s == [] then rest
    else if |s| > 1 && IsHigh(s[0]) && IsLow(s[1]) then [s[0], s[1]] + Escape(s[2..], rest)
    else WriteUnit(s[0], Escape(s[1..], rest))
  }

  function WriteString(s: Text, rest: Text): Text {
    [QUOTE] + Escape(s, [QUOTE] + rest)
  }

  /** The canonical text of `v`, its object keys in the order given, in front of `rest`. */
  function Write(v: Json, rest: Text): Text
    decreases v
  {
    match v
    case Null => [0x6E, 0x75, 0x6C, 0x6C] + rest
    case Bool(b) => if b then [0x74, 0x72, 0x75, 0x65] + rest else [0x66, 0x61, 0x6C, 0x73, 0x65] + rest
    case Number(text) => text + rest
    case String(s) => WriteString(s, rest)
    case Array(items) => [OPEN_BRACKET] + WriteItems(items, [CLOSE_BRACKET] + rest)
    case Object(entries) => [OPEN_BRACE] + WriteEntries(entries, [CLOSE_BRACE] + rest)
  }

  function WriteItems(items: seq<Json>, rest: Text): Text
    decreases items
  {
    if items == [] then rest
    else if |items| == 1 then Write(items[0], rest)
    else Write(items[0], [COMMA] + WriteItems(items[1..], rest))
  }

  function WriteEntries(entries: seq<Entry>, rest: Text): Text
    decreases entries
  {
    if entries == [] then rest
    else
      var after := if |entries| == 1 then rest else [COMMA] + WriteEntries(entries[1..], rest);
      WriteString(entries[0].key, [COLON] + Write(entries[0].value, after))
  }

  // ---------------------------------------------------------------------------------------------
  // Reading a string back
  // ---------------------------------------------------------------------------------------------

  /** Reads an escaped string up to its closing quote, and returns what follows the quote. */
  function Unescape(text: Text): Option<(Text, Text)>
    decreases |text|
  {
    if text == [] then None
    else if text[0] == QUOTE then Some(([], text[1..]))
    else
      match UnitAt(text)
      case None => None
      case Some((c, n)) =>
        match Unescape(text[n..])
        case None => None
        case Some((s, rest)) => Some(([c] + s, rest))
  }

  /** The code unit at the start of an escaped text, and how many characters it takes. */
  function UnitAt(text: Text): (r: Option<(CodeUnit, nat)>)
    requires text != []
    ensures r.Some? ==> 0 < r.value.1 <= |text|
  {
    if text[0] != BACKSLASH then Some((text[0], 1))
    else if |text| < 2 then None
    else if text[1] == 0x75 then
      if |text| < 6 then None
      else
        match (HexValue(text[2]), HexValue(text[3]), HexValue(text[4]), HexValue(text[5]))
        case (Some(a), Some(b), Some(c), Some(d)) =>
          var unit := a * 0x1000 + b * 0x100 + c * 16 + d;
          if unit < 0x1_0000 then Some((unit, 6)) else None
        case _ => None
    else
      match text[1]
      case 0x62 => Some((8, 2))
      case 0x74 => Some((9, 2))
      case 0x6E => Some((10, 2))
      case 0x66 => Some((12, 2))
      case 0x72 => Some((13, 2))
      case c => if c == QUOTE || c == BACKSLASH then Some((c, 2)) else None
  }

  lemma HexReads(d: nat)
    requires d < 16
    ensures HexValue(HexDigit(d)) == Some(d)
  {
  }

  lemma FourDigits(c: CodeUnit)
    ensures c == c / 0x1000 * 0x1000 + c / 0x100 % 16 * 0x100 + c / 16 % 16 * 16 + c % 16
  {
    var h, g, f := c / 16, c / 0x100, c / 0x1000;
    assert g == h / 16 && f == g / 16;
    assert c == h * 16 + c % 16 && h == g * 16 + h % 16 && g == f * 16 + g % 16;
  }

  lemma EscapedUnitReads(a: nat, b: nat, c: nat, d: nat, rest: Text)
    requires a < 16 && b < 16 && c < 16 && d < 16
    ensures var text := [BACKSLASH, 0x75, HexDigit(a), HexDigit(b), HexDigit(c), HexDigit(d)] + rest;
            text[6..] == rest && UnitAt(text) == Some((a * 0x1000 + b * 0x100 + c * 16 + d, 6))
  {
    HexReads(a);
    HexReads(b);
    HexReads(c);
    HexReads(d);
  }

  lemma UnitReads(c: CodeUnit, rest: Text)
    ensures var text := WriteUnit(c, rest);
            text != [] && text[0] != QUOTE && UnitAt(text).Some?
            && UnitAt(text).value.0 == c && text[UnitAt(text).value.1..] == rest
  {
    if ShortEscape(c).None? && (c < 0x20 || IsHigh(c) || IsLow(c)) {
      hide HexDigit, HexValue;
      EscapedUnitReads(c / 0x1000, c / 0x100 % 16, c / 16 % 16, c % 16, rest);
      FourDigits(c);
    }
  }

  lemma {:induction false} RawReads(c: CodeUnit, rest: Text)
    requires c != QUOTE && c != BACKSLASH && Unescape(rest).Some?
    ensures Unescape([c] + rest) == Some(([c] + Unescape(rest).value.0, Unescape(rest).value.1))
  {
    assert ([c] + rest)[1..] == rest;
  }

  /** Reading what was written gives the string back, and the text behind it. */
  lemma {:induction false} StringReadsBack(s: Text, rest: Text)
    ensures Unescape(Escape(s, [QUOTE] + rest)) == Some((s, rest))
  {
    if s == [] {
      assert ([QUOTE] + rest)[1..] == rest;
    } else if |s| > 1 && IsHigh(s[0]) && IsLow(s[1]) {
      StringReadsBack(s[2..], rest);
      var tail := Escape(s[2..], [QUOTE] + rest);
      RawReads(s[1], tail);
      RawReads(s[0], [s[1]] + tail);
      assert [s[0], s[1]] + tail == [s[0]] + ([s[1]] + tail);
      assert [s[0]] + ([s[1]] + s[2..]) == s;
    } else {
      StringReadsBack(s[1..], rest);
      UnitReads(s[0], Escape(s[1..], [QUOTE] + rest));
      assert [s[0]] + s[1..] == s;
    }
  }

  lemma StringUnambiguous(s: Text, t: Text, x: Text, y: Text)
    requires WriteString(s, x) == WriteString(t, y)
    ensures s == t && x == y
  {
    assert WriteString(s, x)[1..] == Escape(s, [QUOTE] + x);
    assert WriteString(t, y)[1..] == Escape(t, [QUOTE] + y);
    StringReadsBack(s, x);
    StringReadsBack(t, y);
  }

  // ---------------------------------------------------------------------------------------------
  // The text determines the value
  // ---------------------------------------------------------------------------------------------

  predicate NumberUnit(c: CodeUnit) {
    0x30 <= c <= 0x39 || c == 0x2D || c == 0x2B || c == 0x2E || c == 0x65 || c == 0x45
  }

  /** The text of a number: it starts with a digit or a minus sign. */
  predicate NumberText(text: Text) {
    text != [] && (0x30 <= text[0] <= 0x39 || text[0] == 0x2D) && forall i :: 0 <= i < |text| ==> NumberUnit(text[i])
  }

  /** What may follow a value: nothing, or a comma or a closing bracket. */
  predicate Delimited(rest: Text) {
    rest == [] || rest[0] == COMMA || rest[0] == CLOSE_BRACKET || rest[0] == CLOSE_BRACE
  }

  /** Numbers are numbers and keys are unique, as in any JSON value in memory. */
  predicate WellFormed(v: Json) {
    match v
    case Number(text) => NumberText(text)
    case Array(items) => forall i :: 0 <= i < |items| ==> WellFormed(items[i])
    case Object(entries) =>
      && (forall i :: 0 <= i < |entries| ==> WellFormed(entries[i].value))
      && (forall i, j :: 0 <= i < j < |entries| ==> entries[i].key != entries[j].key)
    case _ => true
  }

  lemma {:induction false} NumberUnambiguous(s: Text, t: Text, x: Text, y: Text)
    requires forall i :: 0 <= i < |s| ==> NumberUnit(s[i])
    requires forall i :: 0 <= i < |t| ==> NumberUnit(t[i])
    requires Delimited(x) && Delimited(y) && s + x == t + y
    ensures s == t && x == y
  {
    var whole := s + x;
    assert s == [] ==> whole == x;
    assert t == [] ==> whole == y;
    if s != [] && t != [] {
      assert s[0] == whole[0] == t[0];
      assert s[1..] + x == whole[1..] == t[1..] + y;
      NumberUnambiguous(s[1..], t[1..], x, y);
      assert s == [s[0]] + s[1..] && t == [t[0]] + t[1..];
    }
  }

  /** The first character tells what kind of value is written. */
  lemma FirstUnit(v: Json, rest: Text)
    requires WellFormed(v)
    ensures var text := Write(v, rest);
            && text != []
            && (v.Null? <==> text[0] == 0x6E)
            && (v.Bool? <==> text[0] == 0x74 || text[0] == 0x66)
            && (v.Number? <==> 0x30 <= text[0] <= 0x39 || text[0] == 0x2D)
            && (v.String? <==> text[0] == QUOTE)
            && (v.Array? <==> text[0] == OPEN_BRACKET)
            && (v.Object? <==> text[0] == OPEN_BRACE)
            && (v.Bool? ==> (v.b <==> text[0] == 0x74))
  {
  }

  lemma {:induction false} WriteUnambiguous(v: Json, w: Json, x: Text, y: Text)
    requires WellFormed(v) && WellFormed(w) && Delimited(x) && Delimited(y) && Write(v, x) == Write(w, y)
    ensures v == w && x == y
    decreases v
  {
    FirstUnit(v, x);
    FirstUnit(w, y);
    match v {
      case Null => assert Write(v, x)[4..] == x && Write(w, y)[4..] == y;
      case Bool(b) =>
        var n := if b then 4 else 5;
        assert Write(v, x)[n..] == x && Write(w, y)[n..] == y;
      case Number(text) => NumberUnambiguous(text, w.text, x, y);
      case String(s) => StringUnambiguous(s, w.s, x, y);
      case Array(items) =>
        assert Write(v, x)[1..] == WriteItems(items, [CLOSE_BRACKET] + x);
        assert Write(w, y)[1..] == WriteItems(w.items, [CLOSE_BRACKET] + y);
        ItemsUnambiguous(items, w.items, x, y);
      case Object(entries) =>
        assert Write(v, x)[1..] == WriteEntries(entries, [CLOSE_BRACE] + x);
        assert Write(w, y)[1..] == WriteEntries(w.entries, [CLOSE_BRACE] + y);
        EntriesUnambiguous(entries, w.entries, x, y);
    }
  }

  lemma {:induction false} ItemsUnambiguous(vs: seq<Json>, ws: seq<Json>, x: Text, y: Text)
    requires forall i :: 0 <= i < |vs| ==> WellFormed(vs[i])
    requires forall i :: 0 <= i < |ws| ==> WellFormed(ws[i])
    requires WriteItems(vs, [CLOSE_BRACKET] + x) == WriteItems(ws, [CLOSE_BRACKET] + y)
    ensures vs == ws && x == y
    decreases vs
  {
    var endX, endY := [CLOSE_BRACKET] + x, [CLOSE_BRACKET] + y;
    var restX := if |vs| <= 1 then endX else [COMMA] + WriteItems(vs[1..], endX);
    var restY := if |ws| <= 1 then endY else [COMMA] + WriteItems(ws[1..], endY);
    if vs != [] {
      FirstUnit(vs[0], restX);
    }
    if ws != [] {
      FirstUnit(ws[0], restY);
    }
    if vs == [] || ws == [] {
      assert endX[1..] == x && endY[1..] == y;
    } else {
      WriteUnambiguous(vs[0], ws[0], restX, restY);
      assert |vs| == 1 <==> |ws| == 1;
      assert restX[1..] == restY[1..];
      if |vs| == 1 {
        assert restX[1..] == x && restY[1..] == y;
      } else {
        assert restX[1..] == WriteItems(vs[1..], endX) && restY[1..] == WriteItems(ws[1..], endY);
        ItemsUnambiguous(vs[1..], ws[1..], x, y);
      }
      assert vs == [vs[0]] + vs[1..] && ws == [ws[0]] + ws[1..];
    }
  }

  lemma {:induction false} EntriesUnambiguous(vs: seq<Entry>, ws: seq<Entry>, x: Text, y: Text)
    requires forall i :: 0 <= i < |vs| ==> WellFormed(vs[i].value)
    requires forall i :: 0 <= i < |ws| ==> WellFormed(ws[i].value)
    requires WriteEntries(vs, [CLOSE_BRACE] + x) == WriteEntries(ws, [CLOSE_BRACE] + y)
    ensures vs == ws && x == y
    decreases vs
  {
    hide Write, Escape;
    var endX, endY := [CLOSE_BRACE] + x, [CLOSE_BRACE] + y;
    var restX := if |vs| <= 1 then endX else [COMMA] + WriteEntries(vs[1..], endX);
    var restY := if |ws| <= 1 then endY else [COMMA] + WriteEntries(ws[1..], endY);
    if vs == [] || ws == [] {
      assert endX[1..] == x && endY[1..] == y;
    } else {
      var valueX, valueY := Write(vs[0].value, restX), Write(ws[0].value, restY);
      StringUnambiguous(vs[0].key, ws[0].key, [COLON] + valueX, [COLON] + valueY);
      assert ([COLON] + valueX)[1..] == valueX && ([COLON] + valueY)[1..] == valueY;
      WriteUnambiguous(vs[0].value, ws[0].value, restX, restY);
      assert restX[1..] == restY[1..];
      if |vs| == 1 {
        assert restX[1..] == x && restY[1..] == y;
      } else {
        assert restX[1..] == WriteEntries(vs[1..], endX) && restY[1..] == WriteEntries(ws[1..], endY);
        EntriesUnambiguous(vs[1..], ws[1..], x, y);
      }
      assert vs == [vs[0]] + vs[1..] && ws == [ws[0]] + ws[1..];
    }
  }

  // ---------------------------------------------------------------------------------------------
  // Sorting the keys
  // ---------------------------------------------------------------------------------------------

  /** A comparison of keys: negative, zero or positive, as localeCompare answers. */
  type Compare = (Text, Text) -> int

  /** Puts an entry in front of the first one that is not smaller; equal keys keep their order. */
  function Insert(e: Entry, sorted: seq<Entry>, compare: Compare): (r: seq<Entry>)
    ensures |r| == |sorted| + 1
    ensures forall x :: x in r <==> x == e || x in sorted
  {
    if sorted == [] || compare(e.key, sorted[0].key) <= 0 then [e] + sorted
    else [sorted[0]] + Insert(e, sorted[1..], compare)
  }

  function SortEntries(entries: seq<Entry>, compare: Compare): (r: seq<Entry>)
    ensures |r| == |entries|
    ensures forall x :: x in r <==> x in entries
  {
    if entries == [] then [] else Insert(entries[0], SortEntries(entries[1..], compare), compare)
  }

  /** The value with all object keys in order. */
  function Sorted(v: Json, compare: Compare): Json
    decreases v
  {
    match v
    case Array(items) => Array(seq(|items|, i requires 0 <= i < |items| => Sorted(items[i], compare)))
    case Object(entries) => Object(SortEntries(SortedValues(entries, compare), compare))
    case _ => v
  }

  function SortedValues(entries: seq<Entry>, compare: Compare): (r: seq<Entry>)
    ensures |r| == |entries|
    ensures forall i :: 0 <= i < |entries| ==> r[i] == Entry(entries[i].key, Sorted(entries[i].value, compare))
    decreases entries
  {
    seq(|entries|, i requires 0 <= i < |entries| => Entry(entries[i].key, Sorted(entries[i].value, compare)))
  }

  function CanonicalText(v: Json, compare: Compare): Text {
    Write(Sorted(v, compare), [])
  }

  // ---------------------------------------------------------------------------------------------
  // Meaning
  // ---------------------------------------------------------------------------------------------

  function Meaning(v: Json): Value
    decreases v
  {
    match v
    case Null => NullValue
    case Bool(b) => BoolValue(b)
    case Number(text) => NumberValue(text)
    case String(s) => StringValue(s)
    case Array(items) => ArrayValue(seq(|items|, i requires 0 <= i < |items| => Meaning(items[i])))
    case Object(entries) => ObjectValue(Fields(entries))
  }

  /** The fields of an object; the first of two entries with one key counts. */
  function Fields(entries: seq<Entry>): map<Text, Value>
    decreases entries
  {
    if entries == [] then map[]
    else Fields(entries[1..])[entries[0].key := Meaning(entries[0].value)]
  }

  predicate UniqueKeys(entries: seq<Entry>) {
    forall i, j :: 0 <= i < j < |entries| ==> entries[i].key != entries[j].key
  }

  ghost predicate HasKey(entries: seq<Entry>, key: Text) {
    exists e :: e in entries && e.key == key
  }

  lemma {:induction false} FieldsOfEntries(entries: seq<Entry>)
    requires UniqueKeys(entries)
    ensures forall e :: e in entries ==> e.key in Fields(entries) && Fields(entries)[e.key] == Meaning(e.value)
    ensures forall key :: key in Fields(entries) ==> HasKey(entries, key)
  {
    if entries != [] {
      FieldsOfEntries(entries[1..]);
      forall key | key in Fields(entries)
        ensures HasKey(entries, key)
      {
        if key != entries[0].key {
          var e :| e in entries[1..] && e.key == key;
          assert e in entries;
        } else {
          assert entries[0] in entries;
        }
      }
    }
  }

  lemma {:induction false} InsertUnique(e: Entry, sorted: seq<Entry>, compare: Compare)
    requires UniqueKeys(sorted) && !HasKey(sorted, e.key)
    ensures UniqueKeys(Insert(e, sorted, compare))
  {
    assert forall i :: 0 <= i < |sorted| ==> sorted[i] in sorted;
    if sorted != [] && compare(e.key, sorted[0].key) > 0 {
      InsertUnique(e, sorted[1..], compare);
      var rest := Insert(e, sorted[1..], compare);
      forall j | 0 <= j < |rest|
        ensures rest[j].key != sorted[0].key
      {
        assert rest[j] in rest;
      }
    }
  }

  lemma {:induction false} SortUnique(entries: seq<Entry>, compare: Compare)
    requires UniqueKeys(entries)
    ensures UniqueKeys(SortEntries(entries, compare))
  {
    if entries != [] {
      SortUnique(entries[1..], compare);
      InsertUnique(entries[0], SortEntries(entries[1..], compare), compare);
    }
  }

  /** Sorting the keys, at every depth, keeps the meaning. */
  lemma {:induction false} SortedMeaning(v: Json, compare: Compare)
    requires WellFormed(v)
    ensures WellFormed(Sorted(v, compare)) && Meaning(Sorted(v, compare)) == Meaning(v)
    decreases v
  {
    match v {
      case Array(items) =>
        forall i | 0 <= i < |items|
          ensures WellFormed(Sorted(items[i], compare)) && Meaning(Sorted(items[i], compare)) == Meaning(items[i])
        {
          SortedMeaning(items[i], compare);
        }
      case Object(entries) =>
        forall i | 0 <= i < |entries|
          ensures WellFormed(Sorted(entries[i].value, compare))
          ensures Meaning(Sorted(entries[i].value, compare)) == Meaning(entries[i].value)
        {
          SortedMeaning(entries[i].value, compare);
        }
        SortedFields(entries, compare);
      case _ =>
    }
  }

  ghost predicate HasField(entries: seq<Entry>, key: Text, value: Value) {
    exists e :: e in entries && e.key == key && Meaning(e.value) == value
  }

  lemma {:induction false} FieldsAgree(es: seq<Entry>, fs: seq<Entry>)
    requires UniqueKeys(es) && UniqueKeys(fs)
    requires forall e :: e in es ==> HasField(fs, e.key, Meaning(e.value))
    requires forall f :: f in fs ==> HasField(es, f.key, Meaning(f.value))
    ensures Fields(es) == Fields(fs)
  {
    FieldsOfEntries(es);
    FieldsOfEntries(fs);
    hide Fields, Meaning, UniqueKeys;
    forall key | key in Fields(es)
      ensures key in Fields(fs) && Fields(fs)[key] == Fields(es)[key]
    {
      var e :| e in es && e.key == key;
      assert HasField(fs, key, Meaning(e.value));
    }
    forall key | key in Fields(fs)
      ensures key in Fields(es)
    {
      var f :| f in fs && f.key == key;
      assert HasField(es, key, Meaning(f.value));
    }
  }

  lemma {:induction false} SortedFields(entries: seq<Entry>, compare: Compare)
    requires UniqueKeys(entries)
    requires forall i :: 0 <= i < |entries| ==> WellFormed(Sorted(entries[i].value, compare))
    requires forall i :: 0 <= i < |entries| ==> Meaning(Sorted(entries[i].value, compare)) == Meaning(entries[i].value)
    ensures var sorted := SortEntries(SortedValues(entries, compare), compare);
            && Fields(sorted) == Fields(entries)
            && WellFormed(Object(sorted))
  {
    var values := SortedValues(entries, compare);
    var sorted := SortEntries(values, compare);
    SortUnique(values, compare);
    forall i | 0 <= i < |sorted|
      ensures WellFormed(sorted[i].value)
    {
      assert sorted[i] in values;
    }
    SortedAgree(entries, values, sorted);
  }

  lemma {:induction false} SortedAgree(entries: seq<Entry>, values: seq<Entry>, sorted: seq<Entry>)
    requires UniqueKeys(entries) && UniqueKeys(sorted) && |values| == |entries|
    requires forall i :: 0 <= i < |entries| ==> values[i].key == entries[i].key && Meaning(values[i].value) == Meaning(entries[i].value)
    requires forall e :: e in sorted <==> e in values
    ensures Fields(sorted) == Fields(entries)
  {
    hide Meaning, UniqueKeys;
    forall e | e in entries
      ensures HasField(sorted, e.key, Meaning(e.value))
    {
      var i :| 0 <= i < |entries| && entries[i] == e;
      assert values[i] in sorted;
    }
    forall f | f in sorted
      ensures HasField(entries, f.key, Meaning(f.value))
    {
      var i :| 0 <= i < |values| && values[i] == f;
      assert entries[i] in entries;
    }
    FieldsAgree(sorted, entries);
  }

  /** With any comparison of keys: two values with one text mean the same. */
  lemma {:induction false} EqualTextEqualMeaning(v: Json, w: Json, compare: Compare)
    requires WellFormed(v) && WellFormed(w) && CanonicalText(v, compare) == CanonicalText(w, compare)
    ensures Meaning(v) == Meaning(w)
  {
    SortedMeaning(v, compare);
    SortedMeaning(w, compare);
    WriteUnambiguous(Sorted(v, compare), Sorted(w, compare), [], []);
  }

  // ---------------------------------------------------------------------------------------------
  // The meaning determines the text, when keys are totally ordered
  // ---------------------------------------------------------------------------------------------

  ghost predicate TotalOrder(compare: Compare) {
    && (forall x, y :: compare(x, y) == 0 <==> x == y)
    && (forall x, y :: compare(x, y) < 0 <==> compare(y, x) > 0)
    && (forall x, y, z :: compare(x, y) < 0 && compare(y, z) < 0 ==> compare(x, z) < 0)
  }

  lemma Smaller(compare: Compare, x: Text, y: Text, z: Text)
    requires TotalOrder(compare) && compare(x, y) < 0 && compare(y, z) < 0
    ensures compare(x, z) < 0
  {
  }

  lemma Flip(compare: Compare, x: Text, y: Text)
    requires TotalOrder(compare) && x != y
    ensures compare(x, y) < 0 <==> compare(y, x) > 0
    ensures compare(x, y) != 0
  {
  }

  ghost predicate Below(key: Text, entries: seq<Entry>, compare: Compare) {
    forall e :: e in entries ==> compare(key, e.key) < 0
  }

  ghost predicate Ascending(entries: seq<Entry>, compare: Compare) {
    entries == [] || (Below(entries[0].key, entries[1..], compare) && Ascending(entries[1..], compare))
  }

  lemma {:induction false} InsertAscending(e: Entry, sorted: seq<Entry>, compare: Compare)
    requires TotalOrder(compare) && Ascending(sorted, compare) && !HasKey(sorted, e.key)
    ensures Ascending(Insert(e, sorted, compare), compare)
  {
    hide TotalOrder;
    if sorted != [] {
      assert sorted[0] in sorted;
      Flip(compare, e.key, sorted[0].key);
      if compare(e.key, sorted[0].key) <= 0 {
        forall x | x in sorted[1..]
          ensures compare(e.key, x.key) < 0
        {
          Smaller(compare, e.key, sorted[0].key, x.key);
        }
        assert ([e] + sorted)[1..] == sorted;
      } else {
        Flip(compare, sorted[0].key, e.key);
        assert forall x :: x in sorted[1..] ==> x in sorted;
        InsertAscending(e, sorted[1..], compare);
        assert ([sorted[0]] + Insert(e, sorted[1..], compare))[1..] == Insert(e, sorted[1..], compare);
      }
    }
  }

  lemma {:induction false} SortAscending(entries: seq<Entry>, compare: Compare)
    requires TotalOrder(compare) && UniqueKeys(entries)
    ensures Ascending(SortEntries(entries, compare), compare)
  {
    if entries != [] {
      SortAscending(entries[1..], compare);
      InsertAscending(entries[0], SortEntries(entries[1..], compare), compare);
    }
  }

  /** Ascending lists with the same elements are the same list. */
  lemma {:induction false} AscendingIsUnique(es: seq<Entry>, fs: seq<Entry>, compare: Compare)
    requires TotalOrder(compare) && Ascending(es, compare) && Ascending(fs, compare)
    requires forall e :: e in es <==> e in fs
    ensures es == fs
  {
    hide TotalOrder;
    assert es != [] ==> es[0] in es;
    assert fs != [] ==> fs[0] in fs;
    if es != [] && fs != [] {
      if es[0] != fs[0] {
        assert es[0] in fs[1..] && fs[0] in es[1..];
        Irreflexive(compare, es[0].key, fs[0].key);
      }
      TailOfAscending(es, compare);
      TailOfAscending(fs, compare);
      AscendingIsUnique(es[1..], fs[1..], compare);
      assert es == [es[0]] + es[1..] && fs == [fs[0]] + fs[1..];
    }
  }

  lemma Irreflexive(compare: Compare, x: Text, y: Text)
    requires TotalOrder(compare)
    ensures !(compare(x, y) < 0 && compare(y, x) < 0) && compare(x, x) == 0
  {
  }

  lemma TailOfAscending(es: seq<Entry>, compare: Compare)
    requires TotalOrder(compare) && Ascending(es, compare) && es != []
    ensures forall e :: e in es[1..] <==> e in es && e != es[0]
  {
    Irreflexive(compare, es[0].key, es[0].key);
  }

  lemma {:induction false} EqualMeaningEqualSorted(v: Json, w: Json, compare: Compare)
    requires WellFormed(v) && WellFormed(w) && TotalOrder(compare) && Meaning(v) == Meaning(w)
    ensures Sorted(v, compare) == Sorted(w, compare)
    decreases v
  {
    hide TotalOrder;
    match v {
      case Array(items) =>
        assert Meaning(w).items == Meaning(v).items;
        assert |items| == |w.items|;
        forall i | 0 <= i < |items|
          ensures Sorted(items[i], compare) == Sorted(w.items[i], compare)
        {
          assert Meaning(v).items[i] == Meaning(w).items[i];
          EqualMeaningEqualSorted(items[i], w.items[i], compare);
        }
      case Object(entries) =>
        EqualFieldsSubset(entries, w.entries, compare);
        EqualFieldsSuperset(entries, w.entries, compare);
        SortAscending(SortedValues(entries, compare), compare);
        SortAscending(SortedValues(w.entries, compare), compare);
        AscendingIsUnique(SortEntries(SortedValues(entries, compare), compare),
                          SortEntries(SortedValues(w.entries, compare), compare), compare);
      case _ =>
    }
  }

  lemma {:induction false} EqualFieldsSubset(es: seq<Entry>, fs: seq<Entry>, compare: Compare)
    requires WellFormed(Object(es)) && WellFormed(Object(fs)) && TotalOrder(compare) && Fields(es) == Fields(fs)
    ensures forall e :: e in SortedValues(es, compare) ==> e in SortedValues(fs, compare)
    decreases es, 0
  {
    FieldsOfEntries(es);
    FieldsOfEntries(fs);
    hide TotalOrder, Fields;
    forall i | 0 <= i < |es|
      ensures SortedValues(es, compare)[i] in SortedValues(fs, compare)
    {
      var j := SameField(es, fs, i);
      EqualMeaningEqualSorted(es[i].value, fs[j].value, compare);
      assert SortedValues(fs, compare)[j] == SortedValues(es, compare)[i];
    }
  }

  lemma {:induction false} EqualFieldsSuperset(es: seq<Entry>, fs: seq<Entry>, compare: Compare)
    requires WellFormed(Object(es)) && WellFormed(Object(fs)) && TotalOrder(compare) && Fields(es) == Fields(fs)
    ensures forall f :: f in SortedValues(fs, compare) ==> f in SortedValues(es, compare)
    decreases es, 0
  {
    FieldsOfEntries(es);
    FieldsOfEntries(fs);
    hide TotalOrder, Fields;
    forall j | 0 <= j < |fs|
      ensures SortedValues(fs, compare)[j] in SortedValues(es, compare)
    {
      var i := SameField(fs, es, j);
      EqualMeaningEqualSorted(es[i].value, fs[j].value, compare);
      assert SortedValues(es, compare)[i] == SortedValues(fs, compare)[j];
    }
  }

  /** Where the other list has the same field. */
  lemma SameField(es: seq<Entry>, fs: seq<Entry>, i: nat) returns (j: nat)
    requires UniqueKeys(es) && UniqueKeys(fs) && Fields(es) == Fields(fs) && i < |es|
    ensures j < |fs| && fs[j].key == es[i].key && Meaning(fs[j].value) == Meaning(es[i].value)
  {
    FieldsOfEntries(es);
    FieldsOfEntries(fs);
    assert es[i] in es && HasKey(fs, es[i].key);
    var f :| f in fs && f.key == es[i].key;
    j :| 0 <= j < |fs| && fs[j] == f;
  }

  /** Given a total order on keys, two values have the same text exactly when they mean the same. */
  lemma CanonicalTextIsFaithful(v: Json, w: Json, compare: Compare)
    requires WellFormed(v) && WellFormed(w) && TotalOrder(compare)
    ensures CanonicalText(v, compare) == CanonicalText(w, compare) <==> Meaning(v) == Meaning(w)
  {
    if CanonicalText(v, compare) == CanonicalText(w, compare) {
      EqualTextEqualMeaning(v, w, compare);
    } else if Meaning(v) == Meaning(w) {
      EqualMeaningEqualSorted(v, w, compare);
    }
  }

  lemma TiedPair(compare: Compare, a: Entry, b: Entry)
    requires a.value == Null && b.value == Null && a.key != b.key && compare(a.key, b.key) == 0
    ensures Sorted(Object([a, b]), compare) == Object([a, b])
    ensures Fields([a, b]) == map[a.key := NullValue, b.key := NullValue]
  {
    var entries := [a, b];
    assert entries[1..] == [b] && [b][1..] == [];
    assert SortedValues(entries, compare) == entries;
    assert SortEntries([b], compare) == [b];
    assert SortEntries(entries, compare) == Insert(a, [b], compare) == entries;
    assert Fields([b]) == map[b.key := NullValue];
  }

  /** When two different keys compare as equal, the order of the entries shows in the text. */
  lemma TiedKeysInventAChange(compare: Compare, j: Text, k: Text)
    requires j != k && compare(j, k) == 0 && compare(k, j) == 0
    ensures var v, w := Object([Entry(j, Null), Entry(k, Null)]), Object([Entry(k, Null), Entry(j, Null)]);
            Meaning(v) == Meaning(w) && CanonicalText(v, compare) != CanonicalText(w, compare)
  {
    var a, b := Entry(j, Null), Entry(k, Null);
    TiedPair(compare, a, b);
    TiedPair(compare, b, a);
    assert [a, b][0] != [b, a][0];
    if CanonicalText(Object([a, b]), compare) == CanonicalText(Object([b, a]), compare) {
      WriteUnambiguous(Object([a, b]), Object([b, a]), [], []);
    }
  }
}
