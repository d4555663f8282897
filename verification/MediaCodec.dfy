/**
 The hypotheses about JSON in `DurableMedia` hold of the text JSON.stringify writes (section 25.5.2 of ECMA-262).

 `Encode` is that text, given the texts of finite numbers. `EncodeUnambiguous` proves that it determines what was
 written, so a decoding that reads it back exists: `LawfulIsPossible`.
 */
module MediaCodec {
  import opened Wrappers
  import opened DurableMedia
  import BlockDocument

  // ---------------------------------------------------------------------------------------------
  // The text
  // ---------------------------------------------------------------------------------------------

  function HexDigit(d: nat): char
    requires d < 16
  {
    "0123456789abcdef"[d]
  }

  /** A character inside a string. A Dafny character is never a lone surrogate. */
  function EscapeChar(c: char): (s: string)
    ensures 1 <= |s|
  {
    match c
    case '\U{0008}' => "\\b"
    case '\t' => "\\t"
    case '\n' => "\\n"
    case '\U{000C}' => "\\f"
    case '\r' => "\\r"
    case '\"' => "\\\""
    case '\\' => "\\\\"
    case _ =>
      if c < ' ' then "\\u00" + [HexDigit(c as int / 16), HexDigit(c as int % 16)] else [c]
  }

  function Quote(text: string, rest: string): string {
    if text == "" then "\"" + rest else EscapeChar(text[0]) + Quote(text[1..], rest)
  }

  function Encode(value: Value, rest: string): string
    decreases value, 0
  {
    match value
    case Bool(b) => (if b then "true" else "false") + rest
    case Number(text) => text + rest
    case Str(text) => "\"" + Quote(text, rest)
    case Items(items) => "[" + if items == [] then "]" + rest else Encode(items[0], EncodeItems(items[1..], rest))
    case Record(entries) => "{" + if entries == [] then "}" + rest else EncodeEntry(entries[0], EncodeEntries(entries[1..], rest))
    case _ => "null" + rest
  }

  /** The items after the first. */
  function EncodeItems(items: seq<Value>, rest: string): string
    decreases items
  {
    if items == [] then "]" + rest else "," + Encode(items[0], EncodeItems(items[1..], rest))
  }

  function EncodeEntry(entry: Entry, rest: string): string
    decreases entry, 1
  {
    "\"" + Quote(entry.field, ":" + Encode(entry.value, rest))
  }

  function EncodeEntries(entries: seq<Entry>, rest: string): string
    decreases entries
  {
    if entries == [] then "}" + rest else "," + EncodeEntry(entries[0], EncodeEntries(entries[1..], rest))
  }

  predicate StartsNumber(c: char) {
    c == '-' || '0' <= c <= '9'
  }

  predicate InNumber(c: char) {
    StartsNumber(c) || c == '+' || c == '.' || c == 'e'
  }

  predicate IsNumberText(text: string) {
    text != "" && StartsNumber(text[0]) && forall c | c in text :: InNumber(c)
  }

  predicate EndsValue(c: char) {
    c == ',' || c == ']' || c == '}'
  }

  /** What may come after a value. */
  predicate Follows(rest: string) {
    rest == "" || EndsValue(rest[0])
  }

  // ---------------------------------------------------------------------------------------------
  // Strings and numbers read back
  // ---------------------------------------------------------------------------------------------

  lemma HexDigitsDiffer(a: nat, b: nat)
    requires a < 16 && b < 16 && HexDigit(a) == HexDigit(b)
    ensures a == b
  {
  }

  predicate IsPlain(c: char) {
    c >= ' ' && c != '\"' && c != '\\'
  }

  lemma EscapeShape(c: char)
    ensures IsPlain(c) ==> EscapeChar(c) == [c]
    ensures !IsPlain(c) ==> |EscapeChar(c)| >= 2 && EscapeChar(c)[0] == '\\'
    ensures !IsPlain(c) && EscapeChar(c)[1] != 'u' ==> |EscapeChar(c)| == 2
    ensures !IsPlain(c) && EscapeChar(c)[1] == 'u' ==>
              c < ' ' && EscapeChar(c) == "\\u00" + [HexDigit(c as int / 16), HexDigit(c as int % 16)]
  {
  }

  lemma ShortEscapesDiffer(c: char, d: char)
    requires !IsPlain(c) && !IsPlain(d) && EscapeChar(c) == EscapeChar(d) && |EscapeChar(c)| == 2
    ensures c == d
  {
  }

  lemma LongEscapesDiffer(c: char, d: char)
    requires c < ' ' && d < ' '
    requires HexDigit(c as int / 16) == HexDigit(d as int / 16) && HexDigit(c as int % 16) == HexDigit(d as int % 16)
    ensures c == d
  {
    HexDigitsDiffer(c as int / 16, d as int / 16);
    HexDigitsDiffer(c as int % 16, d as int % 16);
    assert c as int == d as int;
  }

  lemma PrefixAt(a: string, x: string, b: string, y: string, n: nat)
    requires a + x == b + y && n <= |a| && n <= |b|
    ensures a[..n] == b[..n]
    ensures |a| == |b| == n ==> a == b && x == y
  {
    assert (a + x)[..n] == a[..n] && (b + y)[..n] == b[..n];
    if |a| == |b| == n {
      assert (a + x)[n..] == x && (b + y)[n..] == y;
    }
  }

  lemma EscapeUnambiguous(c: char, d: char, x: string, y: string)
    requires EscapeChar(c) + x == EscapeChar(d) + y
    ensures c == d && x == y
  {
    var a, b := EscapeChar(c), EscapeChar(d);
    EscapeShape(c);
    EscapeShape(d);
    PrefixAt(a, x, b, y, 1);
    assert a[..1][0] == a[0] && b[..1][0] == b[0];
    hide EscapeChar, HexDigit;
    if !IsPlain(c) && !IsPlain(d) {
      PrefixAt(a, x, b, y, 2);
      assert a[..2][1] == a[1] && b[..2][1] == b[1];
      if a[1] == 'u' {
        PrefixAt(a, x, b, y, 6);
        assert a[4] == HexDigit(c as int / 16) && b[4] == HexDigit(d as int / 16);
        assert a[5] == HexDigit(c as int % 16) && b[5] == HexDigit(d as int % 16);
        LongEscapesDiffer(c, d);
      } else {
        PrefixAt(a, x, b, y, 2);
        ShortEscapesDiffer(c, d);
      }
    } else {
      PrefixAt(a, x, b, y, 1);
    }
  }

  lemma {:induction false} QuoteStart(text: string, rest: string)
    ensures Quote(text, rest) != "" && (text == "" <==> Quote(text, rest)[0] == '\"')
  {
    if text != "" {
      EscapeShape(text[0]);
    }
  }

  lemma {:induction false} QuoteUnambiguous(s: string, t: string, x: string, y: string)
    requires Quote(s, x) == Quote(t, y)
    ensures s == t && x == y
  {
    QuoteStart(s, x);
    QuoteStart(t, y);
    if s != "" && t != "" {
      EscapeUnambiguous(s[0], t[0], Quote(s[1..], x), Quote(t[1..], y));
      QuoteUnambiguous(s[1..], t[1..], x, y);
      assert s == [s[0]] + s[1..] && t == [t[0]] + t[1..];
    } else {
      assert Quote("", x)[1..] == x && Quote("", y)[1..] == y;
    }
  }

  /** How far the characters of numbers go. */
  function NumberLength(text: string): nat {
    if text == "" || !InNumber(text[0]) then 0 else 1 + NumberLength(text[1..])
  }

  lemma {:induction false} NumberEnds(s: string, x: string)
    requires Follows(x) && forall c | c in s :: InNumber(c)
    ensures NumberLength(s + x) == |s|
  {
    if s == "" {
      assert s + x == x;
    } else {
      assert (s + x)[1..] == s[1..] + x;
      NumberEnds(s[1..], x);
    }
  }

  lemma NumberUnambiguous(s: string, t: string, x: string, y: string)
    requires IsNumberText(s) && IsNumberText(t) && Follows(x) && Follows(y) && s + x == t + y
    ensures s == t && x == y
  {
    NumberEnds(s, x);
    NumberEnds(t, y);
    PrefixAt(s, x, t, y, |s|);
  }

  // ---------------------------------------------------------------------------------------------
  // Values read back
  // ---------------------------------------------------------------------------------------------

  datatype Kind = IsNull | IsTrue | IsFalse | IsNumber | IsString | IsItems | IsRecord

  /** What the first character tells. */
  function KindOf(value: Value): Kind {
    match value
    case Bool(b) => if b then IsTrue else IsFalse
    case Number(_) => IsNumber
    case Str(_) => IsString
    case Items(_) => IsItems
    case Record(_) => IsRecord
    case _ => IsNull
  }

  function KindBy(c: char): Kind {
    match c
    case 't' => IsTrue
    case 'f' => IsFalse
    case '\"' => IsString
    case '[' => IsItems
    case '{' => IsRecord
    case 'n' => IsNull
    case _ => IsNumber
  }

  ghost predicate NumberTexts(number: string -> bool) {
    forall text {:trigger number(text)} :: number(text) ==> IsNumberText(text)
  }

  /** The first character of the text of a value. */
  function First(value: Value): char {
    match value
    case Bool(b) => if b then 't' else 'f'
    case Number(text) => if text == "" then '0' else text[0]
    case Str(_) => '\"'
    case Items(_) => '['
    case Record(_) => '{'
    case _ => 'n'
  }

  lemma {:induction false} FirstOfText(value: Value, rest: string)
    requires value.Number? ==> value.text != ""
    ensures Encode(value, rest) != "" && Encode(value, rest)[0] == First(value)
  {
    hide Quote, EncodeItems, EncodeEntries, EncodeEntry;
    if value.Items? || value.Record? {
      assert Encode(value, rest)[0] == First(value);
    }
  }

  lemma FirstOfNumber(number: string -> bool, value: Value)
    requires NumberTexts(number) && IsJson(number, value)
    ensures value.Number? ==> IsNumberText(value.text)
  {
  }

  lemma {:induction false} FirstCharacter(number: string -> bool, value: Value, rest: string)
    requires NumberTexts(number) && IsJson(number, value)
    ensures Encode(value, rest) != "" && KindBy(Encode(value, rest)[0]) == KindOf(value)
    ensures !EndsValue(Encode(value, rest)[0]) && !BlockDocument.IsWhitespace(Encode(value, rest)[0])
  {
    FirstOfNumber(number, value);
    FirstOfText(value, rest);
    hide Encode, IsJson, BlockDocument.IsWhitespace;
    FirstIsNoSpace(First(value));
  }

  lemma FirstIsNoSpace(c: char)
    ensures StartsNumber(c) || c == 't' || c == 'f' || c == 'n' || c == '\"' || c == '[' || c == '{'
            ==> !BlockDocument.IsWhitespace(c)
  {
  }

  lemma ItemsFollow(items: seq<Value>, rest: string)
    ensures Follows(EncodeItems(items, rest))
  {
  }

  lemma EntriesFollow(entries: seq<Entry>, rest: string)
    ensures Follows(EncodeEntries(entries, rest))
  {
  }

  /** The text of a JSON value, with what follows it, determines what was written and what follows. */
  lemma {:induction false} EncodeUnambiguous(number: string -> bool, v: Value, w: Value, x: string, y: string)
    requires NumberTexts(number) && IsJson(number, v) && IsJson(number, w) && Follows(x) && Follows(y)
    requires Encode(v, x) == Encode(w, y)
    ensures Written(v) == Written(w) && x == y
    decreases v, 0
  {
    FirstCharacter(number, v, x);
    FirstCharacter(number, w, y);
    match v {
      case Number(s) => NumberUnambiguous(s, w.text, x, y);
      case Str(s) =>
        PrefixAt("\"", Quote(s, x), "\"", Quote(w.text, y), 1);
        QuoteUnambiguous(s, w.text, x, y);
      case Items(vs) => ItemsUnambiguous(number, vs, w.items, x, y);
      case Record(es) => RecordsUnambiguous(number, es, w.entries, x, y);
      case Bool(b) => PrefixAt(if b then "true" else "false", x, if b then "true" else "false", y, if b then 4 else 5);
      case Null => PrefixAt("null", x, "null", y, 4);
      case NonFinite(_) => PrefixAt("null", x, "null", y, 4);
      case _ =>
    }
  }

  lemma {:induction false} ItemsUnambiguous(number: string -> bool, vs: seq<Value>, ws: seq<Value>, x: string, y: string)
    requires NumberTexts(number) && AllJson(number, vs, |vs|) && AllJson(number, ws, |ws|)
    requires Encode(Items(vs), x) == Encode(Items(ws), y)
    ensures WrittenItems(vs, |vs|) == WrittenItems(ws, |ws|) && x == y
    decreases vs, 1
  {
    var a := if vs == [] then "]" + x else Encode(vs[0], EncodeItems(vs[1..], x));
    var b := if ws == [] then "]" + y else Encode(ws[0], EncodeItems(ws[1..], y));
    PrefixAt("[", a, "[", b, 1);
    if vs != [] {
      RestIsJson(number, vs);
      FirstCharacter(number, vs[0], EncodeItems(vs[1..], x));
    }
    if ws != [] {
      RestIsJson(number, ws);
      FirstCharacter(number, ws[0], EncodeItems(ws[1..], y));
    }
    if vs != [] && ws != [] {
      ItemsFollow(vs[1..], x);
      ItemsFollow(ws[1..], y);
      EncodeUnambiguous(number, vs[0], ws[0], EncodeItems(vs[1..], x), EncodeItems(ws[1..], y));
      MoreItemsUnambiguous(number, vs[1..], ws[1..], x, y);
      WrittenItemsFront(vs, |vs|);
      WrittenItemsFront(ws, |ws|);
    } else {
      assert vs == [] && ws == [];
      PrefixAt("]", x, "]", y, 1);
    }
  }

  lemma {:induction false} MoreItemsUnambiguous(number: string -> bool, vs: seq<Value>, ws: seq<Value>, x: string, y: string)
    requires NumberTexts(number) && AllJson(number, vs, |vs|) && AllJson(number, ws, |ws|)
    requires EncodeItems(vs, x) == EncodeItems(ws, y)
    ensures WrittenItems(vs, |vs|) == WrittenItems(ws, |ws|) && x == y
    decreases vs, 1
  {
    assert vs == [] <==> EncodeItems(vs, x)[0] == ']';
    assert ws == [] <==> EncodeItems(ws, y)[0] == ']';
    if vs != [] {
      RestIsJson(number, vs);
      RestIsJson(number, ws);
      ItemsFollow(vs[1..], x);
      ItemsFollow(ws[1..], y);
      PrefixAt(",", Encode(vs[0], EncodeItems(vs[1..], x)), ",", Encode(ws[0], EncodeItems(ws[1..], y)), 1);
      EncodeUnambiguous(number, vs[0], ws[0], EncodeItems(vs[1..], x), EncodeItems(ws[1..], y));
      MoreItemsUnambiguous(number, vs[1..], ws[1..], x, y);
      WrittenItemsFront(vs, |vs|);
      WrittenItemsFront(ws, |ws|);
    } else {
      PrefixAt("]", x, "]", y, 1);
    }
  }

  lemma {:induction false} EntryUnambiguous(number: string -> bool, e: Entry, f: Entry, x: string, y: string)
    requires NumberTexts(number) && IsJson(number, e.value) && IsJson(number, f.value) && Follows(x) && Follows(y)
    requires EncodeEntry(e, x) == EncodeEntry(f, y)
    ensures e.field == f.field && Written(e.value) == Written(f.value) && x == y
    decreases e, 1
  {
    PrefixAt("\"", Quote(e.field, ":" + Encode(e.value, x)), "\"", Quote(f.field, ":" + Encode(f.value, y)), 1);
    QuoteUnambiguous(e.field, f.field, ":" + Encode(e.value, x), ":" + Encode(f.value, y));
    PrefixAt(":", Encode(e.value, x), ":", Encode(f.value, y), 1);
    EncodeUnambiguous(number, e.value, f.value, x, y);
  }

  lemma {:induction false} RecordsUnambiguous(number: string -> bool, es: seq<Entry>, fs: seq<Entry>, x: string, y: string)
    requires NumberTexts(number) && AllJsonFields(number, es, |es|) && AllJsonFields(number, fs, |fs|)
    requires Encode(Record(es), x) == Encode(Record(fs), y)
    ensures WrittenEntries(es, |es|) == WrittenEntries(fs, |fs|) && x == y
    decreases es, 1
  {
    var a := if es == [] then "}" + x else EncodeEntry(es[0], EncodeEntries(es[1..], x));
    var b := if fs == [] then "}" + y else EncodeEntry(fs[0], EncodeEntries(fs[1..], y));
    PrefixAt("{", a, "{", b, 1);
    assert a != "" && b != "" && (es == [] <==> a[0] == '}') && (fs == [] <==> b[0] == '}');
    if es != [] {
      RestEntriesAreJson(number, es);
      RestEntriesAreJson(number, fs);
      EntriesFollow(es[1..], x);
      EntriesFollow(fs[1..], y);
      EntryUnambiguous(number, es[0], fs[0], EncodeEntries(es[1..], x), EncodeEntries(fs[1..], y));
      MoreEntriesUnambiguous(number, es[1..], fs[1..], x, y);
      WrittenEntriesFront(es, |es|);
      WrittenEntriesFront(fs, |fs|);
    } else {
      PrefixAt("}", x, "}", y, 1);
    }
  }

  lemma {:induction false} MoreEntriesUnambiguous(number: string -> bool, es: seq<Entry>, fs: seq<Entry>, x: string, y: string)
    requires NumberTexts(number) && AllJsonFields(number, es, |es|) && AllJsonFields(number, fs, |fs|)
    requires EncodeEntries(es, x) == EncodeEntries(fs, y)
    ensures WrittenEntries(es, |es|) == WrittenEntries(fs, |fs|) && x == y
    decreases es, 1
  {
    assert es == [] <==> EncodeEntries(es, x)[0] == '}';
    assert fs == [] <==> EncodeEntries(fs, y)[0] == '}';
    if es != [] {
      RestEntriesAreJson(number, es);
      RestEntriesAreJson(number, fs);
      EntriesFollow(es[1..], x);
      EntriesFollow(fs[1..], y);
      PrefixAt(",", EncodeEntry(es[0], EncodeEntries(es[1..], x)), ",", EncodeEntry(fs[0], EncodeEntries(fs[1..], y)), 1);
      EntryUnambiguous(number, es[0], fs[0], EncodeEntries(es[1..], x), EncodeEntries(fs[1..], y));
      MoreEntriesUnambiguous(number, es[1..], fs[1..], x, y);
      WrittenEntriesFront(es, |es|);
      WrittenEntriesFront(fs, |fs|);
    } else {
      PrefixAt("}", x, "}", y, 1);
    }
  }

  // ---------------------------------------------------------------------------------------------
  // Lists from the front
  // ---------------------------------------------------------------------------------------------

  lemma {:induction false} AllJsonItems(number: string -> bool, items: seq<Value>, n: nat)
    requires n <= |items|
    ensures AllJson(number, items, n) <==> forall k | 0 <= k < n :: IsJson(number, items[k])
  {
    if n > 0 {
      AllJsonItems(number, items, n - 1);
    }
  }

  lemma {:induction false} AllJsonEntries(number: string -> bool, entries: seq<Entry>, n: nat)
    requires n <= |entries|
    ensures AllJsonFields(number, entries, n) <==> forall k | 0 <= k < n :: IsJson(number, entries[k].value)
  {
    if n > 0 {
      AllJsonEntries(number, entries, n - 1);
    }
  }

  lemma {:induction false} RestIsJson(number: string -> bool, items: seq<Value>)
    requires items != [] && AllJson(number, items, |items|)
    ensures IsJson(number, items[0]) && AllJson(number, items[1..], |items| - 1)
  {
    AllJsonItems(number, items, |items|);
    AllJsonItems(number, items[1..], |items| - 1);
    hide IsJson;
  }

  lemma {:induction false} RestEntriesAreJson(number: string -> bool, entries: seq<Entry>)
    requires entries != [] && AllJsonFields(number, entries, |entries|)
    ensures IsJson(number, entries[0].value) && AllJsonFields(number, entries[1..], |entries| - 1)
  {
    AllJsonEntries(number, entries, |entries|);
    AllJsonEntries(number, entries[1..], |entries| - 1);
    hide IsJson;
  }

  lemma WrittenItemsFront(items: seq<Value>, n: nat)
    requires 0 < n <= |items|
    ensures WrittenItems(items, n) == [Written(items[0])] + WrittenItems(items[1..], n - 1)
  {
    hide Written;
    if n > 1 {
      WrittenItemsFront(items, n - 1);
    }
  }

  lemma WrittenEntriesFront(entries: seq<Entry>, n: nat)
    requires 0 < n <= |entries|
    ensures WrittenEntries(entries, n)
            == [Entry(entries[0].field, Written(entries[0].value))] + WrittenEntries(entries[1..], n - 1)
  {
    hide Written;
    if n > 1 {
      WrittenEntriesFront(entries, n - 1);
    }
  }

  lemma ItemsWeightFront(items: seq<Value>, n: nat)
    requires 0 < n <= |items|
    ensures ItemsWeight(items, n) == Weight(items[0]) + ItemsWeight(items[1..], n - 1)
  {
    if n > 1 {
      ItemsWeightFront(items, n - 1);
    }
  }

  lemma EntriesWeightFront(entries: seq<Entry>, n: nat)
    requires 0 < n <= |entries|
    ensures EntriesWeight(entries, n) == 1 + Weight(entries[0].value) + EntriesWeight(entries[1..], n - 1)
  {
    if n > 1 {
      EntriesWeightFront(entries, n - 1);
    }
  }

  // ---------------------------------------------------------------------------------------------
  // What was written is JSON no heavier than its text
  // ---------------------------------------------------------------------------------------------

  lemma QuoteLength(text: string, rest: string)
    ensures |Quote(text, rest)| >= |text| + 1 + |rest|
  {
    hide EscapeChar;
    if text != "" {
      QuoteLength(text[1..], rest);
    }
  }

  lemma {:induction false} EncodeIsLong(number: string -> bool, v: Value, rest: string)
    requires NumberTexts(number) && IsJson(number, v)
    ensures |Encode(v, rest)| >= Weight(v) + |rest|
    decreases v, 0
  {
    match v {
      case Number(text) => assert IsNumberText(text);
      case Str(text) => QuoteLength(text, rest);
      case Items(items) =>
        if items != [] {
          RestIsJson(number, items);
          ItemsAreLong(number, items[1..], rest);
          EncodeIsLong(number, items[0], EncodeItems(items[1..], rest));
          ItemsWeightFront(items, |items|);
        }
      case Record(entries) =>
        if entries != [] {
          RestEntriesAreJson(number, entries);
          EntriesAreLong(number, entries[1..], rest);
          EntryIsLong(number, entries[0], EncodeEntries(entries[1..], rest));
          EntriesWeightFront(entries, |entries|);
        }
      case _ =>
    }
  }

  lemma {:induction false} ItemsAreLong(number: string -> bool, items: seq<Value>, rest: string)
    requires NumberTexts(number) && AllJson(number, items, |items|)
    ensures |EncodeItems(items, rest)| >= ItemsWeight(items, |items|) + |rest| + 1
    decreases items, 1
  {
    if items != [] {
      RestIsJson(number, items);
      ItemsAreLong(number, items[1..], rest);
      EncodeIsLong(number, items[0], EncodeItems(items[1..], rest));
      ItemsWeightFront(items, |items|);
    }
  }

  lemma {:induction false} EntryIsLong(number: string -> bool, entry: Entry, rest: string)
    requires NumberTexts(number) && IsJson(number, entry.value)
    ensures |EncodeEntry(entry, rest)| >= 1 + Weight(entry.value) + |rest|
    decreases entry, 1
  {
    EncodeIsLong(number, entry.value, rest);
    QuoteLength(entry.field, ":" + Encode(entry.value, rest));
  }

  lemma {:induction false} EntriesAreLong(number: string -> bool, entries: seq<Entry>, rest: string)
    requires NumberTexts(number) && AllJsonFields(number, entries, |entries|)
    ensures |EncodeEntries(entries, rest)| >= EntriesWeight(entries, |entries|) + |rest| + 1
    decreases entries, 1
  {
    if entries != [] {
      RestEntriesAreJson(number, entries);
      EntriesAreLong(number, entries[1..], rest);
      EntryIsLong(number, entries[0], EncodeEntries(entries[1..], rest));
      EntriesWeightFront(entries, |entries|);
    }
  }

  lemma {:induction false} WrittenItemAt(items: seq<Value>, n: nat, k: nat)
    requires k < n <= |items|
    ensures WrittenItems(items, n)[k] == Written(items[k])
  {
    if k < n - 1 {
      WrittenItemAt(items, n - 1, k);
    }
  }

  lemma {:induction false} WrittenIsJson(number: string -> bool, v: Value)
    requires IsJson(number, v)
    ensures IsJson(number, Written(v))
    decreases v
  {
    match v {
      case Items(items) =>
        AllJsonItems(number, items, |items|);
        forall k | 0 <= k < |items|
          ensures IsJson(number, WrittenItems(items, |items|)[k])
        {
          WrittenIsJson(number, items[k]);
          WrittenItemAt(items, |items|, k);
        }
        AllJsonItems(number, WrittenItems(items, |items|), |items|);
      case Record(entries) =>
        AllJsonEntries(number, entries, |entries|);
        forall k | 0 <= k < |entries|
          ensures WrittenEntries(entries, |entries|)[k].field == entries[k].field
          ensures IsJson(number, WrittenEntries(entries, |entries|)[k].value)
        {
          WrittenIsJson(number, entries[k].value);
          WrittenEntryAt(entries, |entries|, k);
        }
        AllJsonEntries(number, WrittenEntries(entries, |entries|), |entries|);
        SameFields(entries, WrittenEntries(entries, |entries|));
      case _ =>
    }
  }

  lemma SameFields(a: seq<Entry>, b: seq<Entry>)
    requires |a| == |b| && forall k | 0 <= k < |a| :: b[k].field == a[k].field
    requires UniqueFields(a) && InOrder(a)
    ensures UniqueFields(b) && InOrder(b)
  {
    hide MayPrecede;
  }

  lemma {:induction false} WrittenItemsWeight(items: seq<Value>, n: nat)
    requires n <= |items|
    ensures ItemsWeight(WrittenItems(items, n), n) <= ItemsWeight(items, n)
    decreases items, n
  {
    if n > 0 {
      WrittenItemsWeight(items, n - 1);
      WrittenWeight(items[n - 1]);
      hide Weight, Written;
      ItemsWeightOfPrefix(WrittenItems(items, n - 1), WrittenItems(items, n), n - 1);
    }
  }

  lemma ItemsWeightOfPrefix(a: seq<Value>, b: seq<Value>, n: nat)
    requires n <= |a| && n <= |b| && forall k | 0 <= k < n :: a[k] == b[k]
    ensures ItemsWeight(a, n) == ItemsWeight(b, n)
  {
    hide Weight;
    if n > 0 {
      ItemsWeightOfPrefix(a, b, n - 1);
    }
  }

  lemma {:induction false} WrittenEntriesWeight(entries: seq<Entry>, n: nat)
    requires n <= |entries|
    ensures EntriesWeight(WrittenEntries(entries, n), n) <= EntriesWeight(entries, n)
    decreases entries, n
  {
    if n > 0 {
      WrittenEntriesWeight(entries, n - 1);
      WrittenWeight(entries[n - 1].value);
      hide Weight, Written;
      EntriesWeightOfPrefix(WrittenEntries(entries, n - 1), WrittenEntries(entries, n), n - 1);
    }
  }

  lemma EntriesWeightOfPrefix(a: seq<Entry>, b: seq<Entry>, n: nat)
    requires n <= |a| && n <= |b| && forall k | 0 <= k < n :: a[k] == b[k]
    ensures EntriesWeight(a, n) == EntriesWeight(b, n)
  {
    hide Weight;
    if n > 0 {
      EntriesWeightOfPrefix(a, b, n - 1);
    }
  }

  lemma {:induction false} WrittenWeight(v: Value)
    ensures Weight(Written(v)) <= Weight(v)
    decreases v
  {
    match v {
      case Items(items) => WrittenItemsWeight(items, |items|);
      case Record(entries) => WrittenEntriesWeight(entries, |entries|);
      case _ =>
    }
  }

  // ---------------------------------------------------------------------------------------------
  // Decoding
  // ---------------------------------------------------------------------------------------------

  ghost predicate Spells(number: string -> bool, v: Value, text: string) {
    IsJson(number, v) && Encode(v, "") == text
  }

  /** What was written, if the text is that of a value. */
  ghost function Decode(number: string -> bool, text: string): (value: Option<Value>)
    ensures value.Some? ==> exists v :: Spells(number, v, text) && value == Some(Written(v))
    ensures value.None? ==> forall v :: !Spells(number, v, text)
  {
    if exists v :: Spells(number, v, text) then
      var v :| Spells(number, v, text);
      Some(Written(v))
    else None
  }

  lemma DecodedIsSmall(number: string -> bool, text: string)
    requires NumberTexts(number) && Decode(number, text).Some?
    ensures IsJson(number, Decode(number, text).value) && Weight(Decode(number, text).value) <= |text|
  {
    var v :| Spells(number, v, text) && Decode(number, text) == Some(Written(v));
    WrittenIsJson(number, v);
    WrittenWeight(v);
    EncodeIsLong(number, v, "");
  }

  lemma {:induction false} DecodesEncoded(number: string -> bool, value: Value)
    requires NumberTexts(number) && IsJson(number, value)
    ensures Decode(number, Encode(value, "")) == Some(Written(value)) && !BlockDocument.Blank(Encode(value, ""))
  {
    var text := Encode(value, "");
    assert Spells(number, value, text);
    assert Decode(number, text).Some?;
    var v :| Spells(number, v, text) && Decode(number, text) == Some(Written(v));
    EncodeUnambiguous(number, v, value, "", "");
    FirstCharacter(number, value, "");
    hide BlockDocument.IsWhitespace, Encode, Decode, IsJson;
    assert text[0] in text;
  }

  /**
   What is asked of JSON holds of the text JSON.stringify writes, whatever texts finite numbers have and whatever
   counts as a managed reference: there is a decoding that reads it back.
   */
  lemma LawfulIsPossible(number: string -> bool, managed: string -> bool)
    requires NumberTexts(number)
    ensures exists env: Env :: env.number == number && env.managed == managed && Lawful(env)
                               && forall value {:trigger env.stringify(value)} :: env.stringify(value) == Encode(value, "")
  {
    var env := Env((text: string) => Decode(number, text), (value: Value) => Encode(value, ""), number, managed);
    hide Encode, Decode, IsJson, Weight, Written, BlockDocument.Blank;
    forall text {:trigger env.parse(text)} | env.parse(text).Some?
      ensures IsJson(env.number, env.parse(text).value) && Weight(env.parse(text).value) <= |text|
    {
      DecodedIsSmall(number, text);
    }
    forall value {:trigger env.stringify(value)} | IsJson(env.number, value)
      ensures env.parse(env.stringify(value)) == Some(Written(value)) && !BlockDocument.Blank(env.stringify(value))
    {
      DecodesEncoded(number, value);
    }
    assert Lawful(env);
  }
}
