/**
 Durable media: taking managed media fields out of stored documents, and finding those that are left.

 The sanitizer rewrites a value and counts the fields it removes; the scanner walks the same value and reports each
 field that should not be there. Both look into JSON held in strings. `CountsAgree` proves that they count the same,
 `SanitizedScansClean` that nothing is reported afterwards, and `SanitizingSettles` that sanitizing again changes
 nothing, for plain values and for shared maps and arrays.
 */
module DurableMedia {
  import opened Wrappers
  import BlockDocument

  // ---------------------------------------------------------------------------------------------
  // Values
  // ---------------------------------------------------------------------------------------------

  datatype Entry = Entry(field: string, value: Value)

  /**
   A finite number is identified with the text JSON.stringify gives it, which is the same for zero of either sign;
   the others, which an overlong number in JSON decodes to, are written as null.
   */
  datatype Value =
    | Undefined
    | Null
    | Bool(bool)
    | Number(text: string)
    | NonFinite(name: string)
    | Bytes(seq<bv8>)
    | Str(text: string)
    | Items(items: seq<Value>)
    | Record(entries: seq<Entry>)

  function ItemsWeight(items: seq<Value>, n: nat): nat
    requires n <= |items|
    decreases items, n
  {
    if n == 0 then 0 else ItemsWeight(items, n - 1) + Weight(items[n - 1])
  }

  function EntriesWeight(entries: seq<Entry>, n: nat): nat
    requires n <= |entries|
    decreases entries, n
  {
    if n == 0 then 0 else EntriesWeight(entries, n - 1) + 1 + Weight(entries[n - 1].value)
  }

  /** A measure of a value no larger than its JSON text. */
  function Weight(value: Value): (w: nat)
    ensures w >= 1
    decreases value
  {
    match value
    case Str(text) => 1 + |text|
    case Items(items) => 1 + ItemsWeight(items, |items|)
    case Record(entries) => 1 + EntriesWeight(entries, |entries|)
    case _ => 1
  }

  predicate UniqueFields(entries: seq<Entry>) {
    forall i, j | 0 <= i < j < |entries| :: entries[i].field != entries[j].field
  }

  /** The field is an array index of JavaScript, which an object lists before its other fields. */
  predicate IsIndex(field: string, index: nat) {
    index < 0xFFFF_FFFF && field == BlockDocument.Decimal(index)
  }

  /** `a` may stand before `b`: indices come first and ascend (section 10.1.11.1 of ECMA-262). */
  ghost predicate MayPrecede(a: string, b: string) {
    forall n: nat | IsIndex(b, n) :: exists m: nat | m < n :: IsIndex(a, m)
  }

  ghost predicate InOrder(entries: seq<Entry>) {
    forall i, j | 0 <= i < j < |entries| :: MayPrecede(entries[i].field, entries[j].field)
  }

  /**
   Decoding and encoding of JSON, the texts of finite numbers, and what text is a reference to managed media.
   */
  datatype Env = Env(parse: string -> Option<Value>, stringify: Value -> string, number: string -> bool,
                     managed: string -> bool)

  /** What decoding JSON can give. */
  ghost predicate IsJson(number: string -> bool, value: Value)
    decreases value
  {
    match value
    case Undefined => false
    case Bytes(_) => false
    case Number(text) => number(text)
    case Items(items) => AllJson(number, items, |items|)
    case Record(entries) => UniqueFields(entries) && InOrder(entries) && AllJsonFields(number, entries, |entries|)
    case _ => true
  }

  ghost predicate AllJson(number: string -> bool, items: seq<Value>, n: nat)
    requires n <= |items|
    decreases items, n
  {
    n == 0 || (AllJson(number, items, n - 1) && IsJson(number, items[n - 1]))
  }

  ghost predicate AllJsonFields(number: string -> bool, entries: seq<Entry>, n: nat)
    requires n <= |entries|
    decreases entries, n
  {
    n == 0 || (AllJsonFields(number, entries, n - 1) && IsJson(number, entries[n - 1].value))
  }

  /** What is left of a value when it is written as JSON: numbers that are not finite become null. */
  function Written(value: Value): Value
    decreases value
  {
    match value
    case NonFinite(_) => Null
    case Items(items) => Items(WrittenItems(items, |items|))
    case Record(entries) => Record(WrittenEntries(entries, |entries|))
    case _ => value
  }

  function WrittenItems(items: seq<Value>, n: nat): (written: seq<Value>)
    requires n <= |items|
    ensures |written| == n
    decreases items, n
  {
    if n == 0 then [] else WrittenItems(items, n - 1) + [Written(items[n - 1])]
  }

  function WrittenEntries(entries: seq<Entry>, n: nat): (written: seq<Entry>)
    requires n <= |entries|
    ensures |written| == n
    decreases entries, n
  {
    if n == 0 then [] else WrittenEntries(entries, n - 1) + [Entry(entries[n - 1].field, Written(entries[n - 1].value))]
  }

  /** Decoding gives JSON no larger than its text, and encoded JSON decodes to what was written. */
  ghost predicate Lawful(env: Env) {
    && (forall text {:trigger env.parse(text)} ::
          env.parse(text).Some? ==> IsJson(env.number, env.parse(text).value) && Weight(env.parse(text).value) <= |text|)
    && (forall value {:trigger env.stringify(value)} ::
          IsJson(env.number, value) ==>
            env.parse(env.stringify(value)) == Some(Written(value)) && !BlockDocument.Blank(env.stringify(value)))
  }

  // ---------------------------------------------------------------------------------------------
  // Which fields are forbidden
  // ---------------------------------------------------------------------------------------------

  const MEDIA_BLOCK_TYPES := {"image", "audio", "video", "attachment", "file"}

  const FORBIDDEN_MANAGED_MEDIA_FIELDS := {
    "featuredImageUrl", "imageUrl", "imageLightUrl", "imageDarkUrl", "logoUrl", "logoLightUrl", "logoDarkUrl",
    "faviconUrl", "loaderUrl", "originalUrl", "hlsUrl", "waveformUrl", "spectrogramUrl", "thumbnailUrl", "meshUrl",
    "meshOptimizationUrl", "textureUrl", "darkTextureUrl", "playbackUrl", "posterUrl", "downloadUrl", "signedUrl",
    "publicUrl", "allowOriginalDownload", "allow_original_download", "fileKey", "objectKey", "sourceKey", "outputKey",
    "ogKey", "siteOgKey", "hlsManifestKey", "waveformKey", "spectrogramKey", "thumbnailKey", "file_key", "object_key",
    "source_key", "output_key", "og_key", "site_og_key", "hls_manifest_key", "waveform_key", "spectrogram_key",
    "thumbnail_key"
  }

  const FORBIDDEN_MEDIA_BLOCK_FIELDS := {
    "title", "url", "_tempUrl", "pendingUploadFileId", "mediaSlotId", "mediaAttemptId", "processingStatus",
    "processingProgress", "uploadStage", "entityType", "entityId", "mimeType", "size", "duration", "clientThumbnail"
  }

  predicate IsJsonStringField(field: string) {
    (|field| >= 4 && field[|field| - 4..] == "Json") || field == "tracks"
  }

  predicate HasPersistedValue(value: Value) {
    !value.Undefined? && !value.Null? && value != Str("")
  }

  /** `reference` tells whether the value is a text that refers to managed media. */
  predicate IsForbidden(field: string, media: bool, persisted: bool, reference: bool) {
    || (media && field == "title")
    || (persisted
        && (field in FORBIDDEN_MANAGED_MEDIA_FIELDS || (media && field in FORBIDDEN_MEDIA_BLOCK_FIELDS) || reference))
  }

  predicate IsForbiddenField(env: Env, field: string, value: Value, media: bool) {
    IsForbidden(field, media, HasPersistedValue(value), value.Str? && env.managed(value.text))
  }

  /** The record is a media block by its type, or inside one. */
  predicate IsMediaRecord(entries: seq<Entry>, inherited: bool) {
    inherited
    || exists k :: 0 <= k < |entries| && entries[k].field == "type" && entries[k].value.Str?
                   && entries[k].value.text in MEDIA_BLOCK_TYPES
  }

  /** The value a JSON field holds; none when it is not one, is blank or is malformed. */
  function Decoded(env: Env, field: string, value: Value): Option<Value> {
    if value.Str? && IsJsonStringField(field) && !BlockDocument.Blank(value.text) then env.parse(value.text) else None
  }

  // ---------------------------------------------------------------------------------------------
  // Sanitizing plain values
  // ---------------------------------------------------------------------------------------------

  datatype Outcome<T> = Outcome(value: T, changed: bool, removed: nat)

  function SanitizeItems(env: Env, items: seq<Value>, n: nat, media: bool): Outcome<seq<Value>>
    requires Lawful(env) && n <= |items|
    decreases ItemsWeight(items, n), 1, n
  {
    if n == 0 then Outcome([], false, 0)
    else
      var before := SanitizeItems(env, items, n - 1, media);
      var item := SanitizeValue(env, items[n - 1], media);
      Outcome(before.value + [item.value], before.changed || item.changed, before.removed + item.removed)
  }

  /** What becomes of a field; none when it is removed. */
  function SanitizeField(env: Env, field: string, value: Value, media: bool): Outcome<Option<Value>>
    requires Lawful(env)
    decreases Weight(value), 1, 0
  {
    match Decoded(env, field, value)
    case Some(decoded) =>
      var result := SanitizeValue(env, decoded, media);
      Outcome(Some(if result.changed then Str(env.stringify(result.value)) else value), result.changed, result.removed)
    case None =>
      if IsForbiddenField(env, field, value, media) then Outcome(None, true, 1)
      else
        var result := SanitizeValue(env, value, media);
        Outcome(Some(result.value), result.changed, result.removed)
  }

  function SanitizeEntries(env: Env, entries: seq<Entry>, n: nat, media: bool): Outcome<seq<Entry>>
    requires Lawful(env) && n <= |entries|
    decreases EntriesWeight(entries, n), 1, n
  {
    if n == 0 then Outcome([], false, 0)
    else
      var before := SanitizeEntries(env, entries, n - 1, media);
      var field := SanitizeField(env, entries[n - 1].field, entries[n - 1].value, media);
      var kept := if field.value.Some? then [Entry(entries[n - 1].field, field.value.value)] else [];
      Outcome(before.value + kept, before.changed || field.changed, before.removed + field.removed)
  }

  function SanitizeValue(env: Env, value: Value, inherited: bool): Outcome<Value>
    requires Lawful(env)
    decreases Weight(value), 0, 0
  {
    match value
    case Items(items) =>
      var next := SanitizeItems(env, items, |items|, inherited);
      Outcome(if next.changed then Items(next.value) else value, next.changed, next.removed)
    case Record(entries) =>
      var next := SanitizeEntries(env, entries, |entries|, IsMediaRecord(entries, inherited));
      Outcome(if next.changed then Record(next.value) else value, next.changed, next.removed)
    case _ => Outcome(value, false, 0)
  }

  // ---------------------------------------------------------------------------------------------
  // Scanning plain values
  // ---------------------------------------------------------------------------------------------

  datatype Violation = Violation(path: string, field: string)

  function IndexPath(path: string, index: nat): string {
    path + "[" + BlockDocument.Decimal(index) + "]"
  }

  function FieldPath(path: string, field: string): string {
    path + "." + field
  }

  function ItemViolations(env: Env, items: seq<Value>, n: nat, path: string, media: bool): seq<Violation>
    requires Lawful(env) && n <= |items|
    decreases ItemsWeight(items, n), 1, n
  {
    if n == 0 then []
    else ItemViolations(env, items, n - 1, path, media) + Violations(env, items[n - 1], IndexPath(path, n - 1), media)
  }

  function FieldViolations(env: Env, field: string, value: Value, path: string, media: bool): seq<Violation>
    requires Lawful(env)
    decreases Weight(value), 1, 0
  {
    match Decoded(env, field, value)
    case Some(decoded) => Violations(env, decoded, path, media)
    case None =>
      if IsForbiddenField(env, field, value, media) then [Violation(path, field)] else Violations(env, value, path, media)
  }

  function EntryViolations(env: Env, entries: seq<Entry>, n: nat, path: string, media: bool): seq<Violation>
    requires Lawful(env) && n <= |entries|
    decreases EntriesWeight(entries, n), 1, n
  {
    if n == 0 then []
    else
      EntryViolations(env, entries, n - 1, path, media)
      + FieldViolations(env, entries[n - 1].field, entries[n - 1].value, FieldPath(path, entries[n - 1].field), media)
  }

  function Violations(env: Env, value: Value, path: string, inherited: bool): seq<Violation>
    requires Lawful(env)
    decreases Weight(value), 0, 0
  {
    match value
    case Items(items) => ItemViolations(env, items, |items|, path, inherited)
    case Record(entries) => EntryViolations(env, entries, |entries|, path, IsMediaRecord(entries, inherited))
    case _ => []
  }

  // ---------------------------------------------------------------------------------------------
  // The counts agree
  // ---------------------------------------------------------------------------------------------

  lemma {:induction false} ItemCountsAgree(env: Env, items: seq<Value>, n: nat, path: string, media: bool)
    requires Lawful(env) && n <= |items|
    ensures SanitizeItems(env, items, n, media).removed == |ItemViolations(env, items, n, path, media)|
    decreases ItemsWeight(items, n), 1, n
  {
    if n > 0 {
      ItemCountsAgree(env, items, n - 1, path, media);
      CountsAgree(env, items[n - 1], IndexPath(path, n - 1), media);
      hide SanitizeValue, Violations, Lawful;
    }
  }

  lemma {:induction false} FieldCountsAgree(env: Env, field: string, value: Value, path: string, media: bool)
    requires Lawful(env)
    ensures SanitizeField(env, field, value, media).removed == |FieldViolations(env, field, value, path, media)|
    decreases Weight(value), 1, 0
  {
    var decoded := Decoded(env, field, value);
    CountsAgree(env, if decoded.Some? then decoded.value else value, path, media);
    hide SanitizeValue, Violations, Lawful;
  }

  lemma {:induction false} EntryCountsAgree(env: Env, entries: seq<Entry>, n: nat, path: string, media: bool)
    requires Lawful(env) && n <= |entries|
    ensures SanitizeEntries(env, entries, n, media).removed == |EntryViolations(env, entries, n, path, media)|
    decreases EntriesWeight(entries, n), 1, n
  {
    if n > 0 {
      EntryCountsAgree(env, entries, n - 1, path, media);
      FieldCountsAgree(env, entries[n - 1].field, entries[n - 1].value, FieldPath(path, entries[n - 1].field), media);
      hide SanitizeField, FieldViolations, Lawful;
    }
  }

  /** The sanitizer removes as many fields of a value as the scanner reports. */
  lemma {:induction false} CountsAgree(env: Env, value: Value, path: string, media: bool)
    requires Lawful(env)
    ensures SanitizeValue(env, value, media).removed == |Violations(env, value, path, media)|
    decreases Weight(value), 0, 0
  {
    match value {
      case Items(items) => ItemCountsAgree(env, items, |items|, path, media);
      case Record(entries) => EntryCountsAgree(env, entries, |entries|, path, IsMediaRecord(entries, media));
      case _ =>
    }
  }

  // ---------------------------------------------------------------------------------------------
  // What is changed
  // ---------------------------------------------------------------------------------------------

  lemma {:induction false} ItemsChangeWhenRemoved(env: Env, items: seq<Value>, n: nat, media: bool)
    requires Lawful(env) && n <= |items|
    ensures var next := SanitizeItems(env, items, n, media);
            (next.changed <==> next.removed > 0) && |next.value| == n && (!next.changed ==> next.value == items[..n])
    decreases ItemsWeight(items, n), 1, n
  {
    if n > 0 {
      ItemsChangeWhenRemoved(env, items, n - 1, media);
      ChangesWhenRemoved(env, items[n - 1], media);
      hide SanitizeValue, Lawful;
      assert items[..n] == items[..n - 1] + [items[n - 1]];
    }
  }

  lemma {:induction false} FieldChangesWhenRemoved(env: Env, field: string, value: Value, media: bool)
    requires Lawful(env)
    ensures var next := SanitizeField(env, field, value, media);
            (next.changed <==> next.removed > 0) && (!next.changed ==> next.value == Some(value))
    decreases Weight(value), 1, 0
  {
    var decoded := Decoded(env, field, value);
    ChangesWhenRemoved(env, if decoded.Some? then decoded.value else value, media);
    hide SanitizeValue, Lawful;
  }

  lemma {:induction false} EntriesChangeWhenRemoved(env: Env, entries: seq<Entry>, n: nat, media: bool)
    requires Lawful(env) && n <= |entries|
    ensures var next := SanitizeEntries(env, entries, n, media);
            (next.changed <==> next.removed > 0) && (!next.changed ==> next.value == entries[..n])
    decreases EntriesWeight(entries, n), 1, n
  {
    if n > 0 {
      EntriesChangeWhenRemoved(env, entries, n - 1, media);
      FieldChangesWhenRemoved(env, entries[n - 1].field, entries[n - 1].value, media);
      hide SanitizeField, Lawful;
      assert entries[..n] == entries[..n - 1] + [entries[n - 1]];
    }
  }

  /** The value changes exactly when a field is removed. */
  lemma {:induction false} ChangesWhenRemoved(env: Env, value: Value, media: bool)
    requires Lawful(env)
    ensures var next := SanitizeValue(env, value, media);
            (next.changed <==> next.removed > 0) && (!next.changed ==> next.value == value)
    decreases Weight(value), 0, 0
  {
    match value {
      case Items(items) => ItemsChangeWhenRemoved(env, items, |items|, media);
      case Record(entries) => EntriesChangeWhenRemoved(env, entries, |entries|, IsMediaRecord(entries, media));
      case _ =>
    }
  }

  // ---------------------------------------------------------------------------------------------
  // What is left is clean
  // ---------------------------------------------------------------------------------------------

  lemma {:induction false} TypeIsKept(env: Env, value: Value, media: bool)
    requires Lawful(env)
    ensures var kept := SanitizeField(env, "type", value, media).value;
            kept.Some? && kept.value.Str? ==> kept.value == value
  {
    SameKind(env, value, media);
    assert "type"[0] != "Json"[0];
    hide SanitizeValue, Lawful;
  }

  /** What became of the first `n` fields comes from them, and a text under `type` is as it was. */
  lemma {:induction false} KeptComesFrom(env: Env, entries: seq<Entry>, n: nat, media: bool, k: nat) returns (j: nat)
    requires Lawful(env) && n <= |entries| && k < |SanitizeEntries(env, entries, n, media).value|
    ensures j < n && SanitizeEntries(env, entries, n, media).value[k].field == entries[j].field
    ensures var kept := SanitizeEntries(env, entries, n, media).value[k];
            kept.field == "type" && kept.value.Str? ==> kept.value == entries[j].value
  {
    var before := SanitizeEntries(env, entries, n - 1, media);
    if k < |before.value| {
      j := KeptComesFrom(env, entries, n - 1, media, k);
    } else {
      j := n - 1;
      TypeIsKept(env, entries[j].value, media);
      hide Lawful, SanitizeField;
    }
  }

  lemma MediaStaysMedia(env: Env, entries: seq<Entry>, inherited: bool, weaker: bool, media: bool)
    requires Lawful(env) && (weaker ==> inherited)
    ensures IsMediaRecord(SanitizeEntries(env, entries, |entries|, media).value, weaker) ==> IsMediaRecord(entries, inherited)
  {
    var next := SanitizeEntries(env, entries, |entries|, media).value;
    if IsMediaRecord(next, weaker) && !weaker {
      var k :| 0 <= k < |next| && next[k].field == "type" && next[k].value.Str? && next[k].value.text in MEDIA_BLOCK_TYPES;
      var j := KeptComesFrom(env, entries, |entries|, media, k);
    }
  }

  lemma {:induction false} FieldsStayUnique(env: Env, entries: seq<Entry>, n: nat, media: bool)
    requires Lawful(env) && n <= |entries| && UniqueFields(entries)
    ensures UniqueFields(SanitizeEntries(env, entries, n, media).value)
  {
    if n > 0 {
      FieldsStayUnique(env, entries, n - 1, media);
      var before := SanitizeEntries(env, entries, n - 1, media).value;
      forall k | 0 <= k < |before|
        ensures before[k].field != entries[n - 1].field
      {
        var j := KeptComesFrom(env, entries, n - 1, media, k);
      }
      hide SanitizeField, Lawful;
    }
  }

  lemma InOrderSnoc(entries: seq<Entry>, entry: Entry)
    requires InOrder(entries) && forall k | 0 <= k < |entries| :: MayPrecede(entries[k].field, entry.field)
    ensures InOrder(entries + [entry])
  {
    hide MayPrecede;
  }

  lemma OrderedBefore(entries: seq<Entry>, n: nat)
    requires InOrder(entries) && n < |entries|
    ensures forall j | 0 <= j < n :: MayPrecede(entries[j].field, entries[n].field)
  {
    hide MayPrecede;
  }

  lemma {:induction false} KeptPrecede(env: Env, entries: seq<Entry>, n: nat, media: bool)
    requires Lawful(env) && n < |entries| && forall j | 0 <= j < n :: MayPrecede(entries[j].field, entries[n].field)
    ensures var before := SanitizeEntries(env, entries, n, media).value;
            forall k | 0 <= k < |before| :: MayPrecede(before[k].field, entries[n].field)
  {
    hide *;
    var before := SanitizeEntries(env, entries, n, media).value;
    forall k | 0 <= k < |before|
      ensures MayPrecede(before[k].field, entries[n].field)
    {
      var j := KeptComesFrom(env, entries, n, media, k);
    }
  }

  lemma {:induction false} NoEntries(env: Env, entries: seq<Entry>, media: bool)
    requires Lawful(env)
    ensures SanitizeEntries(env, entries, 0, media).value == [] && InOrder([])
  {
    hide Lawful, MayPrecede;
  }

  lemma {:induction false} FieldsStayInOrder(env: Env, entries: seq<Entry>, n: nat, media: bool)
    requires Lawful(env) && n <= |entries| && InOrder(entries)
    ensures InOrder(SanitizeEntries(env, entries, n, media).value)
  {
    hide *;
    if n == 0 {
      NoEntries(env, entries, media);
    } else {
      FieldsStayInOrder(env, entries, n - 1, media);
      SanitizeEntriesNext(env, entries, n, media);
      OrderedBefore(entries, n - 1);
      KeptPrecede(env, entries, n - 1, media);
      var kept := SanitizeField(env, entries[n - 1].field, entries[n - 1].value, media).value;
      if kept.Some? {
        InOrderSnoc(SanitizeEntries(env, entries, n - 1, media).value, Entry(entries[n - 1].field, kept.value));
      }
    }
  }

  lemma {:induction false} SanitizeEntriesNext(env: Env, entries: seq<Entry>, n: nat, media: bool)
    requires Lawful(env) && 0 < n <= |entries|
    ensures var before := SanitizeEntries(env, entries, n - 1, media).value;
            var field := SanitizeField(env, entries[n - 1].field, entries[n - 1].value, media).value;
            SanitizeEntries(env, entries, n, media).value
            == if field.Some? then before + [Entry(entries[n - 1].field, field.value)] else before
  {
    hide SanitizeField, Lawful;
  }

  lemma {:induction false} AllJsonOfPrefix(number: string -> bool, a: seq<Value>, b: seq<Value>, n: nat)
    requires n <= |a| && n <= |b| && forall k | 0 <= k < n :: a[k] == b[k]
    ensures AllJson(number, a, n) == AllJson(number, b, n)
  {
    if n > 0 {
      AllJsonOfPrefix(number, a, b, n - 1);
      hide IsJson;
    }
  }

  lemma {:induction false} AllJsonFieldsOfPrefix(number: string -> bool, a: seq<Entry>, b: seq<Entry>, n: nat)
    requires n <= |a| && n <= |b| && forall k | 0 <= k < n :: a[k] == b[k]
    ensures AllJsonFields(number, a, n) == AllJsonFields(number, b, n)
  {
    if n > 0 {
      AllJsonFieldsOfPrefix(number, a, b, n - 1);
      hide IsJson;
    }
  }

  lemma {:induction false} AllJsonSnoc(number: string -> bool, items: seq<Value>, item: Value)
    requires AllJson(number, items, |items|) && IsJson(number, item)
    ensures AllJson(number, items + [item], |items| + 1)
  {
    AllJsonOfPrefix(number, items, items + [item], |items|);
    hide IsJson;
  }

  lemma {:induction false} AllJsonFieldsSnoc(number: string -> bool, entries: seq<Entry>, entry: Entry)
    requires AllJsonFields(number, entries, |entries|) && IsJson(number, entry.value)
    ensures AllJsonFields(number, entries + [entry], |entries| + 1)
  {
    AllJsonFieldsOfPrefix(number, entries, entries + [entry], |entries|);
    hide IsJson;
  }

  lemma {:induction false} JsonItemsStay(env: Env, items: seq<Value>, n: nat, media: bool)
    requires Lawful(env) && n <= |items| && AllJson(env.number, items, n)
    ensures var next := SanitizeItems(env, items, n, media).value;
            AllJson(env.number, next, |next|)
    decreases ItemsWeight(items, n), 1, n
  {
    if n > 0 {
      JsonItemsStay(env, items, n - 1, media);
      JsonStaysJson(env, items[n - 1], media);
      hide SanitizeValue, IsJson, Lawful;
      AllJsonSnoc(env.number, SanitizeItems(env, items, n - 1, media).value, SanitizeValue(env, items[n - 1], media).value);
    }
  }

  lemma {:induction false} JsonFieldStays(env: Env, field: string, value: Value, media: bool)
    requires Lawful(env) && IsJson(env.number, value)
    ensures var kept := SanitizeField(env, field, value, media).value;
            kept.Some? ==> IsJson(env.number, kept.value)
    decreases Weight(value), 1, 0
  {
    JsonStaysJson(env, value, media);
    hide SanitizeValue, Lawful;
  }

  lemma {:induction false} JsonEntriesStay(env: Env, entries: seq<Entry>, n: nat, media: bool)
    requires Lawful(env) && n <= |entries| && AllJsonFields(env.number, entries, n)
    ensures var next := SanitizeEntries(env, entries, n, media).value;
            AllJsonFields(env.number, next, |next|)
    decreases EntriesWeight(entries, n), 1, n
  {
    if n > 0 {
      JsonEntriesStay(env, entries, n - 1, media);
      JsonFieldStays(env, entries[n - 1].field, entries[n - 1].value, media);
      SanitizeEntriesNext(env, entries, n, media);
      hide *;
      var before := SanitizeEntries(env, entries, n - 1, media).value;
      var field := SanitizeField(env, entries[n - 1].field, entries[n - 1].value, media).value;
      if field.Some? {
        AllJsonFieldsSnoc(env.number, before, Entry(entries[n - 1].field, field.value));
      }
    }
  }

  lemma {:induction false} JsonStaysJson(env: Env, value: Value, media: bool)
    requires Lawful(env) && IsJson(env.number, value)
    ensures IsJson(env.number, SanitizeValue(env, value, media).value)
    decreases Weight(value), 0, 0
  {
    match value {
      case Items(items) => JsonItemsStay(env, items, |items|, media);
      case Record(entries) =>
        FieldsStayUnique(env, entries, |entries|, IsMediaRecord(entries, media));
        FieldsStayInOrder(env, entries, |entries|, IsMediaRecord(entries, media));
        JsonEntriesStay(env, entries, |entries|, IsMediaRecord(entries, media));
      case _ =>
    }
  }

  lemma {:induction false} ItemViolationsOfPrefix(env: Env, a: seq<Value>, b: seq<Value>, n: nat, path: string, media: bool)
    requires Lawful(env) && n <= |a| && n <= |b| && forall k | 0 <= k < n :: a[k] == b[k]
    ensures ItemViolations(env, a, n, path, media) == ItemViolations(env, b, n, path, media)
  {
    if n > 0 {
      ItemViolationsOfPrefix(env, a, b, n - 1, path, media);
      hide Violations, Lawful;
    }
  }

  lemma {:induction false} EntryViolationsOfPrefix(env: Env, a: seq<Entry>, b: seq<Entry>, n: nat, path: string, media: bool)
    requires Lawful(env) && n <= |a| && n <= |b| && forall k | 0 <= k < n :: a[k] == b[k]
    ensures EntryViolations(env, a, n, path, media) == EntryViolations(env, b, n, path, media)
  {
    if n > 0 {
      EntryViolationsOfPrefix(env, a, b, n - 1, path, media);
      hide FieldViolations, Lawful;
    }
  }

  lemma {:induction false} WrittenItemsScanClean(env: Env, items: seq<Value>, n: nat, path: string, media: bool)
    requires Lawful(env) && n <= |items| && ItemViolations(env, items, n, path, media) == []
    ensures ItemViolations(env, WrittenItems(items, n), n, path, media) == []
    decreases items, n
  {
    if n > 0 {
      WrittenItemsScanClean(env, items, n - 1, path, media);
      WrittenScansClean(env, items[n - 1], IndexPath(path, n - 1), media);
      hide Violations, Lawful, Written, IndexPath;
      ItemViolationsOfPrefix(env, WrittenItems(items, n - 1), WrittenItems(items, n), n - 1, path, media);
    }
  }

  lemma {:induction false} WrittenFieldScansClean(env: Env, field: string, value: Value, path: string, media: bool)
    requires Lawful(env) && FieldViolations(env, field, value, path, media) == []
    ensures FieldViolations(env, field, Written(value), path, media) == []
    decreases value, 1
  {
    if !value.Str? {
      assert Decoded(env, field, value).None? && Decoded(env, field, Written(value)).None?;
      WrittenScansClean(env, value, path, media);
      assert HasPersistedValue(Written(value)) ==> HasPersistedValue(value);
      hide Violations, Lawful;
    }
  }

  lemma {:induction false} WrittenEntriesScanClean(env: Env, entries: seq<Entry>, n: nat, path: string, media: bool)
    requires Lawful(env) && n <= |entries| && EntryViolations(env, entries, n, path, media) == []
    ensures EntryViolations(env, WrittenEntries(entries, n), n, path, media) == []
    decreases entries, n
  {
    if n > 0 {
      WrittenEntriesScanClean(env, entries, n - 1, path, media);
      WrittenFieldScansClean(env, entries[n - 1].field, entries[n - 1].value, FieldPath(path, entries[n - 1].field), media);
      hide FieldViolations, Lawful, Written, FieldPath;
      EntryViolationsOfPrefix(env, WrittenEntries(entries, n - 1), WrittenEntries(entries, n), n - 1, path, media);
    }
  }

  lemma {:induction false} WrittenEntryAt(entries: seq<Entry>, n: nat, k: nat)
    requires k < n <= |entries|
    ensures WrittenEntries(entries, n)[k] == Entry(entries[k].field, Written(entries[k].value))
  {
    if k < n - 1 {
      WrittenEntryAt(entries, n - 1, k);
    }
  }

  lemma {:induction false} WrittenIsMedia(entries: seq<Entry>, inherited: bool)
    ensures IsMediaRecord(WrittenEntries(entries, |entries|), inherited) <==> IsMediaRecord(entries, inherited)
  {
    forall k | 0 <= k < |entries|
      ensures WrittenEntries(entries, |entries|)[k] == Entry(entries[k].field, Written(entries[k].value))
    {
      WrittenEntryAt(entries, |entries|, k);
    }
    hide WrittenEntries;
    assert forall value: Value :: Written(value).Str? <==> value.Str?;
    assert forall value: Value :: value.Str? ==> Written(value) == value;
  }

  /** Writing a value as JSON brings no violation. */
  lemma {:induction false} WrittenScansClean(env: Env, value: Value, path: string, media: bool)
    requires Lawful(env) && Violations(env, value, path, media) == []
    ensures Violations(env, Written(value), path, media) == []
    decreases value, 0
  {
    match value {
      case Items(items) => WrittenItemsScanClean(env, items, |items|, path, media);
      case Record(entries) =>
        WrittenEntriesScanClean(env, entries, |entries|, path, IsMediaRecord(entries, media));
        WrittenIsMedia(entries, media);
      case _ =>
    }
  }

  lemma {:induction false} SanitizedItemsScanClean(env: Env, items: seq<Value>, n: nat, media: bool, path: string, weaker: bool)
    requires Lawful(env) && n <= |items| && (weaker ==> media)
    ensures var next := SanitizeItems(env, items, n, media).value;
            ItemViolations(env, next, |next|, path, weaker) == []
    decreases ItemsWeight(items, n), 1, n
  {
    if n > 0 {
      SanitizedItemsScanClean(env, items, n - 1, media, path, weaker);
      var before := SanitizeItems(env, items, n - 1, media).value;
      SanitizedScansClean(env, items[n - 1], media, IndexPath(path, |before|), weaker);
      hide SanitizeValue, Violations, Lawful, IndexPath;
      var next := SanitizeItems(env, items, n, media).value;
      assert next[|before|] == SanitizeValue(env, items[n - 1], media).value && |next| == |before| + 1;
      ItemViolationsOfPrefix(env, before, next, |before|, path, weaker);
    }
  }

  lemma {:induction false} SanitizedFieldScansClean(env: Env, field: string, value: Value, media: bool, path: string, weaker: bool)
    requires Lawful(env) && (weaker ==> media)
    ensures var kept := SanitizeField(env, field, value, media).value;
            kept.Some? ==> FieldViolations(env, field, kept.value, path, weaker) == []
    decreases Weight(value), 1, 0
  {
    match Decoded(env, field, value) {
      case Some(decoded) =>
        SanitizedScansClean(env, decoded, media, path, weaker);
        ChangesWhenRemoved(env, decoded, media);
        JsonStaysJson(env, decoded, media);
        WrittenScansClean(env, SanitizeValue(env, decoded, media).value, path, weaker);
        hide SanitizeValue, Violations, Written;
      case None =>
        SanitizedScansClean(env, value, media, path, weaker);
        SameKind(env, value, media);
        hide SanitizeValue, Violations, Lawful;
    }
  }

  lemma {:induction false} SameKind(env: Env, value: Value, media: bool)
    requires Lawful(env)
    ensures var next := SanitizeValue(env, value, media).value;
            (next.Items? <==> value.Items?) && (next.Record? <==> value.Record?)
            && (!value.Items? && !value.Record? ==> next == value)
  {
  }

  lemma {:induction false} EntryViolationsSnoc(env: Env, entries: seq<Entry>, entry: Entry, path: string, media: bool)
    requires Lawful(env) && EntryViolations(env, entries, |entries|, path, media) == []
    requires FieldViolations(env, entry.field, entry.value, FieldPath(path, entry.field), media) == []
    ensures EntryViolations(env, entries + [entry], |entries + [entry]|, path, media) == []
  {
    EntryViolationsOfPrefix(env, entries, entries + [entry], |entries|, path, media);
    hide FieldViolations, Lawful, FieldPath;
  }

  lemma {:induction false} SanitizedEntriesScanClean(env: Env, entries: seq<Entry>, n: nat, media: bool, path: string, weaker: bool)
    requires Lawful(env) && n <= |entries| && (weaker ==> media)
    ensures var next := SanitizeEntries(env, entries, n, media).value;
            EntryViolations(env, next, |next|, path, weaker) == []
    decreases EntriesWeight(entries, n), 1, n
  {
    if n > 0 {
      SanitizedEntriesScanClean(env, entries, n - 1, media, path, weaker);
      var field, value := entries[n - 1].field, entries[n - 1].value;
      SanitizedFieldScansClean(env, field, value, media, FieldPath(path, field), weaker);
      SanitizeEntriesNext(env, entries, n, media);
      hide *;
      var kept := SanitizeField(env, field, value, media).value;
      if kept.Some? {
        EntryViolationsSnoc(env, SanitizeEntries(env, entries, n - 1, media).value, Entry(field, kept.value), path, weaker);
      }
    }
  }

  /** The scanner reports nothing of a sanitized value, nor of one that is less of a media record. */
  lemma {:induction false} SanitizedScansClean(env: Env, value: Value, media: bool, path: string, weaker: bool)
    requires Lawful(env) && (weaker ==> media)
    ensures Violations(env, SanitizeValue(env, value, media).value, path, weaker) == []
    decreases Weight(value), 0, 0
  {
    match value {
      case Items(items) =>
        SanitizedItemsScanClean(env, items, |items|, media, path, weaker);
        ItemsChangeWhenRemoved(env, items, |items|, media);
        assert items[..|items|] == items;
      case Record(entries) =>
        var inner := IsMediaRecord(entries, media);
        var next := SanitizeEntries(env, entries, |entries|, inner).value;
        MediaStaysMedia(env, entries, media, weaker, inner);
        SanitizedEntriesScanClean(env, entries, |entries|, inner, path, IsMediaRecord(next, weaker));
        EntriesChangeWhenRemoved(env, entries, |entries|, inner);
        assert entries[..|entries|] == entries;
      case _ =>
    }
  }

  /** Sanitizing again changes nothing, and a value of which nothing is reported is left as it is. */
  lemma {:induction false} SanitizingSettles(env: Env, value: Value, media: bool, path: string)
    requires Lawful(env)
    ensures var once := SanitizeValue(env, value, media).value;
            SanitizeValue(env, once, media) == Outcome(once, false, 0)
    ensures Violations(env, value, path, media) == [] <==> SanitizeValue(env, value, media) == Outcome(value, false, 0)
  {
    var once := SanitizeValue(env, value, media).value;
    SanitizedScansClean(env, value, media, path, media);
    CountsAgree(env, once, path, media);
    ChangesWhenRemoved(env, once, media);
    CountsAgree(env, value, path, media);
    ChangesWhenRemoved(env, value, media);
    hide *;
  }

  // ---------------------------------------------------------------------------------------------
  // What cleanness means
  // ---------------------------------------------------------------------------------------------

  /** The value a field leads to: the one its JSON holds, or its own. */
  function Inner(env: Env, field: string, value: Value): Value {
    var decoded := Decoded(env, field, value);
    if decoded.Some? then decoded.value else value
  }

  lemma {:induction false} ItemBound(items: seq<Value>, n: nat, i: nat)
    requires i < n <= |items|
    ensures Weight(items[i]) <= ItemsWeight(items, n)
  {
    if i < n - 1 {
      ItemBound(items, n - 1, i);
    }
  }

  lemma {:induction false} EntryBound(entries: seq<Entry>, n: nat, i: nat)
    requires i < n <= |entries|
    ensures Weight(entries[i].value) < EntriesWeight(entries, n)
  {
    if i < n - 1 {
      EntryBound(entries, n - 1, i);
    }
  }

  lemma ItemLighter(items: seq<Value>, k: nat)
    requires k < |items|
    ensures Weight(items[k]) < Weight(Items(items))
  {
    ItemBound(items, |items|, k);
  }

  lemma InnerLighter(env: Env, entries: seq<Entry>, k: nat)
    requires Lawful(env) && k < |entries|
    ensures Weight(Inner(env, entries[k].field, entries[k].value)) < Weight(Record(entries))
  {
    EntryBound(entries, |entries|, k);
  }

  /** A record that occurs in `value`, inside JSON held in strings too, and whether it counts as media there. */
  ghost predicate Occurs(env: Env, value: Value, media: bool, entries: seq<Entry>, asMedia: bool)
    requires Lawful(env)
    decreases Weight(value)
  {
    match value
    case Items(items) =>
      exists k | 0 <= k < |items| :: (ItemLighter(items, k); Occurs(env, items[k], media, entries, asMedia))
    case Record(own) =>
      || (entries == own && asMedia == IsMediaRecord(own, media))
      || exists k | 0 <= k < |own| ::
           (InnerLighter(env, own, k);
            Occurs(env, Inner(env, own[k].field, own[k].value), IsMediaRecord(own, media), entries, asMedia))
    case _ => false
  }

  lemma {:induction false} NoItemViolations(env: Env, items: seq<Value>, n: nat, path: string, media: bool, k: nat)
    requires Lawful(env) && k < n <= |items| && ItemViolations(env, items, n, path, media) == []
    ensures Violations(env, items[k], IndexPath(path, k), media) == []
  {
    if k < n - 1 {
      NoItemViolations(env, items, n - 1, path, media, k);
    }
  }

  lemma {:induction false} NoEntryViolations(env: Env, entries: seq<Entry>, n: nat, path: string, media: bool, k: nat)
    requires Lawful(env) && k < n <= |entries| && EntryViolations(env, entries, n, path, media) == []
    ensures FieldViolations(env, entries[k].field, entries[k].value, FieldPath(path, entries[k].field), media) == []
  {
    if k < n - 1 {
      NoEntryViolations(env, entries, n - 1, path, media, k);
    }
  }

  /** A field that may stay: not a title of media, not a managed field with a value, not a managed reference. */
  predicate MayStay(env: Env, entry: Entry, asMedia: bool) {
    && (asMedia ==> entry.field != "title")
    && (HasPersistedValue(entry.value) ==> entry.field !in FORBIDDEN_MANAGED_MEDIA_FIELDS)
    && (asMedia && HasPersistedValue(entry.value) ==> entry.field !in FORBIDDEN_MEDIA_BLOCK_FIELDS)
    && (entry.value.Str? && entry.value.text != "" ==> !env.managed(entry.value.text))
  }

  /** When nothing is reported of a value, every field of every record in it holds JSON or may stay. */
  lemma {:induction false} CleanMeansFree(env: Env, value: Value, path: string, media: bool, entries: seq<Entry>, asMedia: bool,
                                          k: nat)
    requires Lawful(env) && Violations(env, value, path, media) == []
    requires Occurs(env, value, media, entries, asMedia) && k < |entries|
    ensures Decoded(env, entries[k].field, entries[k].value).Some? || MayStay(env, entries[k], asMedia)
    decreases Weight(value)
  {
    match value {
      case Items(items) =>
        var i :| 0 <= i < |items| && (ItemLighter(items, i); Occurs(env, items[i], media, entries, asMedia));
        ItemLighter(items, i);
        NoItemViolations(env, items, |items|, path, media, i);
        CleanMeansFree(env, items[i], IndexPath(path, i), media, entries, asMedia, k);
      case Record(own) =>
        var inner := IsMediaRecord(own, media);
        if entries == own && asMedia == inner {
          NoEntryViolations(env, own, |own|, path, inner, k);
        } else {
          var i :| 0 <= i < |own| && (InnerLighter(env, own, i);
                                      Occurs(env, Inner(env, own[i].field, own[i].value), inner, entries, asMedia));
          InnerLighter(env, own, i);
          NoEntryViolations(env, own, |own|, path, inner, i);
          CleanMeansFree(env, Inner(env, own[i].field, own[i].value), FieldPath(path, own[i].field), inner, entries, asMedia, k);
        }
    }
  }

  /** In a sanitized value, also inside JSON held in strings, no record has a field that should not be there. */
  lemma {:induction false} SanitizedHoldsNothingManaged(env: Env, value: Value, media: bool, entries: seq<Entry>, asMedia: bool, k: nat)
    requires Lawful(env) && k < |entries|
    requires Occurs(env, SanitizeValue(env, value, media).value, media, entries, asMedia)
    ensures Decoded(env, entries[k].field, entries[k].value).Some? || MayStay(env, entries[k], asMedia)
  {
    SanitizedScansClean(env, value, media, "", media);
    CleanMeansFree(env, SanitizeValue(env, value, media).value, "", media, entries, asMedia, k);
  }

  /** A field that holds JSON or may stay is kept, and the kept fields stay in order. */
  lemma {:induction false} OnlyForbiddenFieldsGo(env: Env, entries: seq<Entry>, n: nat, media: bool, k: nat) returns (j: nat)
    requires Lawful(env) && k < n <= |entries|
    requires Decoded(env, entries[k].field, entries[k].value).Some? || MayStay(env, entries[k], media)
    ensures j <= k && j < |SanitizeEntries(env, entries, n, media).value|
    ensures SanitizeEntries(env, entries, n, media).value[j].field == entries[k].field
  {
    var before := SanitizeEntries(env, entries, n - 1, media).value;
    if k < n - 1 {
      j := OnlyForbiddenFieldsGo(env, entries, n - 1, media, k);
    } else {
      j := |before|;
      KeptNoMore(env, entries, n - 1, media);
    }
  }

  lemma {:induction false} KeptNoMore(env: Env, entries: seq<Entry>, n: nat, media: bool)
    requires Lawful(env) && n <= |entries|
    ensures |SanitizeEntries(env, entries, n, media).value| <= n
  {
    if n > 0 {
      KeptNoMore(env, entries, n - 1, media);
    }
  }

  // ---------------------------------------------------------------------------------------------
  // Shared maps and arrays
  // ---------------------------------------------------------------------------------------------

  datatype Item = Plain(value: Value) | Nested(shared: Shared)

  datatype SharedField = SharedField(field: string, item: Item)

  datatype Shared = SharedMap(fields: seq<SharedField>) | SharedArray(elements: seq<Item>)

  datatype Cleaned<T> = Cleaned(value: T, removed: nat)

  predicate IsMediaMap(fields: seq<SharedField>, inherited: bool) {
    inherited
    || exists k :: 0 <= k < |fields| && fields[k].field == "type" && fields[k].item.Plain? && fields[k].item.value.Str?
                   && fields[k].item.value.text in MEDIA_BLOCK_TYPES
  }

  function SanitizeItem(env: Env, item: Item, media: bool): Cleaned<Item>
    requires Lawful(env)
    decreases item, 0
  {
    match item
    case Plain(value) =>
      var result := SanitizeValue(env, value, media);
      Cleaned(Plain(result.value), result.removed)
    case Nested(shared) =>
      var result := SanitizeShared(env, shared, media);
      Cleaned(Nested(result.value), result.removed)
  }

  function SanitizeElements(env: Env, elements: seq<Item>, n: nat, media: bool): Cleaned<seq<Item>>
    requires Lawful(env) && n <= |elements|
    decreases elements, n
  {
    if n == 0 then Cleaned([], 0)
    else
      var before := SanitizeElements(env, elements, n - 1, media);
      var item := SanitizeItem(env, elements[n - 1], media);
      Cleaned(before.value + [item.value], before.removed + item.removed)
  }

  /** A shared value is there and is no text. */
  function SanitizeSharedField(env: Env, field: string, item: Item, media: bool): Cleaned<Option<Item>>
    requires Lawful(env)
    decreases item, 1
  {
    match item
    case Plain(value) =>
      var result := SanitizeField(env, field, value, media);
      Cleaned(if result.value.Some? then Some(Plain(result.value.value)) else None, result.removed)
    case Nested(_) =>
      if IsForbidden(field, media, true, false) then Cleaned(None, 1)
      else
        var result := SanitizeItem(env, item, media);
        Cleaned(Some(result.value), result.removed)
  }

  function SanitizeFields(env: Env, fields: seq<SharedField>, n: nat, media: bool): Cleaned<seq<SharedField>>
    requires Lawful(env) && n <= |fields|
    decreases fields, n
  {
    if n == 0 then Cleaned([], 0)
    else
      var before := SanitizeFields(env, fields, n - 1, media);
      var field := SanitizeSharedField(env, fields[n - 1].field, fields[n - 1].item, media);
      var kept := if field.value.Some? then [SharedField(fields[n - 1].field, field.value.value)] else [];
      Cleaned(before.value + kept, before.removed + field.removed)
  }

  function SanitizeShared(env: Env, shared: Shared, inherited: bool): Cleaned<Shared>
    requires Lawful(env)
    decreases shared
  {
    match shared
    case SharedMap(fields) =>
      var next := SanitizeFields(env, fields, |fields|, IsMediaMap(fields, inherited));
      Cleaned(SharedMap(next.value), next.removed)
    case SharedArray(elements) =>
      var next := SanitizeElements(env, elements, |elements|, inherited);
      Cleaned(SharedArray(next.value), next.removed)
  }

  function ElementViolations(env: Env, elements: seq<Item>, n: nat, path: string, media: bool): seq<Violation>
    requires Lawful(env) && n <= |elements|
    decreases elements, n
  {
    if n == 0 then []
    else
      ElementViolations(env, elements, n - 1, path, media)
      + SharedItemViolations(env, elements[n - 1], IndexPath(path, n - 1), media)
  }

  function SharedFieldViolations(env: Env, field: string, item: Item, path: string, media: bool): seq<Violation>
    requires Lawful(env)
    decreases item, 1
  {
    match item
    case Plain(value) => FieldViolations(env, field, value, path, media)
    case Nested(_) =>
      if IsForbidden(field, media, true, false) then [Violation(path, field)] else SharedItemViolations(env, item, path, media)
  }

  function FieldsViolations(env: Env, fields: seq<SharedField>, n: nat, path: string, media: bool): seq<Violation>
    requires Lawful(env) && n <= |fields|
    decreases fields, n
  {
    if n == 0 then []
    else
      FieldsViolations(env, fields, n - 1, path, media)
      + SharedFieldViolations(env, fields[n - 1].field, fields[n - 1].item, FieldPath(path, fields[n - 1].field), media)
  }

  function SharedItemViolations(env: Env, item: Item, path: string, media: bool): seq<Violation>
    requires Lawful(env)
    decreases item, 0
  {
    match item
    case Plain(value) => Violations(env, value, path, media)
    case Nested(shared) => SharedViolations(env, shared, path, media)
  }

  function SharedViolations(env: Env, shared: Shared, path: string, inherited: bool): seq<Violation>
    requires Lawful(env)
    decreases shared
  {
    match shared
    case SharedMap(fields) => FieldsViolations(env, fields, |fields|, path, IsMediaMap(fields, inherited))
    case SharedArray(elements) => ElementViolations(env, elements, |elements|, path, inherited)
  }

  lemma {:induction false} ItemAgrees(env: Env, item: Item, path: string, media: bool)
    requires Lawful(env)
    ensures SanitizeItem(env, item, media).removed == |SharedItemViolations(env, item, path, media)|
    ensures SanitizeItem(env, item, media).removed == 0 ==> SanitizeItem(env, item, media).value == item
    decreases item, 0
  {
    match item {
      case Plain(value) =>
        CountsAgree(env, value, path, media);
        ChangesWhenRemoved(env, value, media);
      case Nested(shared) => SharedCountsAgree(env, shared, path, media);
    }
  }

  lemma {:induction false} ElementsAgree(env: Env, elements: seq<Item>, n: nat, path: string, media: bool)
    requires Lawful(env) && n <= |elements|
    ensures var next := SanitizeElements(env, elements, n, media);
            next.removed == |ElementViolations(env, elements, n, path, media)| && (next.removed == 0 ==> next.value == elements[..n])
    decreases elements, n
  {
    if n > 0 {
      ElementsAgree(env, elements, n - 1, path, media);
      ItemAgrees(env, elements[n - 1], IndexPath(path, n - 1), media);
      hide SanitizeItem, SharedItemViolations, Lawful;
      assert elements[..n] == elements[..n - 1] + [elements[n - 1]];
    }
  }

  lemma {:induction false} SharedFieldAgrees(env: Env, field: string, item: Item, path: string, media: bool)
    requires Lawful(env)
    ensures var next := SanitizeSharedField(env, field, item, media);
            && next.removed == |SharedFieldViolations(env, field, item, path, media)|
            && (next.removed == 0 ==> next.value == Some(item))
    decreases item, 1
  {
    match item {
      case Plain(value) =>
        FieldCountsAgree(env, field, value, path, media);
        FieldChangesWhenRemoved(env, field, value, media);
        hide SanitizeField, FieldViolations;
      case Nested(_) => ItemAgrees(env, item, path, media);
    }
  }

  lemma {:induction false} FieldsAgree(env: Env, fields: seq<SharedField>, n: nat, path: string, media: bool)
    requires Lawful(env) && n <= |fields|
    ensures var next := SanitizeFields(env, fields, n, media);
            next.removed == |FieldsViolations(env, fields, n, path, media)| && (next.removed == 0 ==> next.value == fields[..n])
    decreases fields, n
  {
    if n > 0 {
      FieldsAgree(env, fields, n - 1, path, media);
      SharedFieldAgrees(env, fields[n - 1].field, fields[n - 1].item, FieldPath(path, fields[n - 1].field), media);
      hide SanitizeSharedField, SharedFieldViolations, Lawful;
      assert fields[..n] == fields[..n - 1] + [fields[n - 1]];
    }
  }

  /** The counts agree on shared maps and arrays too, and nothing changes unless a field is removed. */
  lemma {:induction false} SharedCountsAgree(env: Env, shared: Shared, path: string, media: bool)
    requires Lawful(env)
    ensures SanitizeShared(env, shared, media).removed == |SharedViolations(env, shared, path, media)|
    ensures SanitizeShared(env, shared, media).removed == 0 ==> SanitizeShared(env, shared, media).value == shared
    decreases shared
  {
    match shared {
      case SharedMap(fields) =>
        FieldsAgree(env, fields, |fields|, path, IsMediaMap(fields, media));
        assert fields[..|fields|] == fields;
      case SharedArray(elements) =>
        ElementsAgree(env, elements, |elements|, path, media);
        assert elements[..|elements|] == elements;
    }
  }

  lemma {:induction false} ElementViolationsOfPrefix(env: Env, a: seq<Item>, b: seq<Item>, n: nat, path: string, media: bool)
    requires Lawful(env) && n <= |a| && n <= |b| && forall k | 0 <= k < n :: a[k] == b[k]
    ensures ElementViolations(env, a, n, path, media) == ElementViolations(env, b, n, path, media)
  {
    if n > 0 {
      ElementViolationsOfPrefix(env, a, b, n - 1, path, media);
      hide SharedItemViolations, Lawful;
    }
  }

  lemma {:induction false} FieldsViolationsOfPrefix(env: Env, a: seq<SharedField>, b: seq<SharedField>, n: nat, path: string, media: bool)
    requires Lawful(env) && n <= |a| && n <= |b| && forall k | 0 <= k < n :: a[k] == b[k]
    ensures FieldsViolations(env, a, n, path, media) == FieldsViolations(env, b, n, path, media)
  {
    if n > 0 {
      FieldsViolationsOfPrefix(env, a, b, n - 1, path, media);
      hide SharedFieldViolations, Lawful;
    }
  }

  lemma {:induction false} KeptFieldComesFrom(env: Env, fields: seq<SharedField>, n: nat, media: bool, k: nat) returns (j: nat)
    requires Lawful(env) && n <= |fields| && k < |SanitizeFields(env, fields, n, media).value|
    ensures j < n
    ensures var kept := SanitizeFields(env, fields, n, media).value[k];
            && kept.field == fields[j].field
            && (kept.field == "type" && kept.item.Plain? && kept.item.value.Str? ==> kept.item == fields[j].item)
  {
    var before := SanitizeFields(env, fields, n - 1, media);
    if k < |before.value| {
      j := KeptFieldComesFrom(env, fields, n - 1, media, k);
    } else {
      j := n - 1;
      if fields[j].item.Plain? {
        TypeIsKept(env, fields[j].item.value, media);
      } else {
        assert SanitizeItem(env, fields[j].item, media).value.Nested?;
      }
      hide Lawful, SanitizeField, SanitizeShared;
    }
  }

  lemma {:induction false} MediaMapStaysMedia(env: Env, fields: seq<SharedField>, inherited: bool, weaker: bool, media: bool)
    requires Lawful(env) && (weaker ==> inherited)
    ensures IsMediaMap(SanitizeFields(env, fields, |fields|, media).value, weaker) ==> IsMediaMap(fields, inherited)
  {
    var next := SanitizeFields(env, fields, |fields|, media).value;
    if IsMediaMap(next, weaker) && !weaker {
      var k :| 0 <= k < |next| && next[k].field == "type" && next[k].item.Plain? && next[k].item.value.Str?
               && next[k].item.value.text in MEDIA_BLOCK_TYPES;
      var j := KeptFieldComesFrom(env, fields, |fields|, media, k);
    }
  }

  lemma {:induction false} SanitizedItemScansClean(env: Env, item: Item, media: bool, path: string, weaker: bool)
    requires Lawful(env) && (weaker ==> media)
    ensures SharedItemViolations(env, SanitizeItem(env, item, media).value, path, weaker) == []
    decreases item, 0
  {
    match item {
      case Plain(value) => SanitizedScansClean(env, value, media, path, weaker);
      case Nested(shared) => SharedScansClean(env, shared, media, path, weaker);
    }
  }

  lemma {:induction false} SanitizedElementsScanClean(env: Env, elements: seq<Item>, n: nat, media: bool, path: string, weaker: bool)
    requires Lawful(env) && n <= |elements| && (weaker ==> media)
    ensures var next := SanitizeElements(env, elements, n, media).value;
            ElementViolations(env, next, |next|, path, weaker) == []
    decreases elements, n
  {
    if n > 0 {
      SanitizedElementsScanClean(env, elements, n - 1, media, path, weaker);
      var before := SanitizeElements(env, elements, n - 1, media).value;
      SanitizedItemScansClean(env, elements[n - 1], media, IndexPath(path, |before|), weaker);
      hide SanitizeItem, SharedItemViolations, Lawful, IndexPath;
      var next := SanitizeElements(env, elements, n, media).value;
      assert next[|before|] == SanitizeItem(env, elements[n - 1], media).value && |next| == |before| + 1;
      ElementViolationsOfPrefix(env, before, next, |before|, path, weaker);
    }
  }

  lemma {:induction false} SanitizedSharedFieldScansClean(env: Env, field: string, item: Item, media: bool, path: string,
                                                          weaker: bool)
    requires Lawful(env) && (weaker ==> media)
    ensures var kept := SanitizeSharedField(env, field, item, media).value;
            kept.Some? ==> SharedFieldViolations(env, field, kept.value, path, weaker) == []
    decreases item, 1
  {
    match item {
      case Plain(value) =>
        SanitizedFieldScansClean(env, field, value, media, path, weaker);
        hide SanitizeField, FieldViolations, Lawful;
      case Nested(_) =>
        SanitizedItemScansClean(env, item, media, path, weaker);
        hide SanitizeShared, Lawful;
    }
  }

  lemma {:induction false} SanitizedFieldsScanClean(env: Env, fields: seq<SharedField>, n: nat, media: bool, path: string,
                                                    weaker: bool)
    requires Lawful(env) && n <= |fields| && (weaker ==> media)
    ensures var next := SanitizeFields(env, fields, n, media).value;
            FieldsViolations(env, next, |next|, path, weaker) == []
    decreases fields, n
  {
    if n > 0 {
      SanitizedFieldsScanClean(env, fields, n - 1, media, path, weaker);
      var field := fields[n - 1].field;
      SanitizedSharedFieldScansClean(env, field, fields[n - 1].item, media, FieldPath(path, field), weaker);
      hide SanitizeSharedField, SharedFieldViolations, Lawful, FieldPath;
      var before := SanitizeFields(env, fields, n - 1, media).value;
      var next := SanitizeFields(env, fields, n, media).value;
      FieldsViolationsOfPrefix(env, before, next, |before|, path, weaker);
      assert next == before || next[|before|].field == field;
    }
  }

  lemma {:induction false} SharedScansClean(env: Env, shared: Shared, media: bool, path: string, weaker: bool)
    requires Lawful(env) && (weaker ==> media)
    ensures SharedViolations(env, SanitizeShared(env, shared, media).value, path, weaker) == []
    decreases shared
  {
    match shared {
      case SharedMap(fields) =>
        var inner := IsMediaMap(fields, media);
        var next := SanitizeFields(env, fields, |fields|, inner).value;
        MediaMapStaysMedia(env, fields, media, weaker, inner);
        SanitizedFieldsScanClean(env, fields, |fields|, inner, path, IsMediaMap(next, weaker));
      case SharedArray(elements) =>
        SanitizedElementsScanClean(env, elements, |elements|, media, path, weaker);
    }
  }

  /** A sanitized shared map or array scans clean, and sanitizing again changes nothing. */
  lemma {:induction false} SharedSettles(env: Env, shared: Shared, media: bool, path: string)
    requires Lawful(env)
    ensures var once := SanitizeShared(env, shared, media).value;
            SharedViolations(env, once, path, media) == [] && SanitizeShared(env, once, media) == Cleaned(once, 0)
    ensures SharedViolations(env, shared, path, media) == [] <==> SanitizeShared(env, shared, media) == Cleaned(shared, 0)
  {
    var once := SanitizeShared(env, shared, media).value;
    SharedScansClean(env, shared, media, path, media);
    SharedCountsAgree(env, once, path, media);
    SharedCountsAgree(env, shared, path, media);
    hide *;
  }

  // ---------------------------------------------------------------------------------------------
  // The loops
  // ---------------------------------------------------------------------------------------------

  method SanitizePlainValue(env: Env, value: Value, inherited: bool) returns (r: Outcome<Value>)
    requires Lawful(env)
    ensures r == SanitizeValue(env, value, inherited)
    decreases Weight(value), 1
  {
    match value {
      case Items(items) => r := SanitizePlainArray(env, items, inherited);
      case Record(entries) => r := SanitizePlainRecord(env, entries, inherited);
      case _ => r := Outcome(value, false, 0);
    }
  }

  method SanitizePlainArray(env: Env, items: seq<Value>, inherited: bool) returns (r: Outcome<Value>)
    requires Lawful(env)
    ensures r == SanitizeValue(env, Items(items), inherited)
    decreases Weight(Items(items)), 0
  {
    var changed, next := false, [];
    var removed: nat := 0;
    for i := 0 to |items|
      invariant SanitizeItems(env, items, i, inherited) == Outcome(next, changed, removed)
    {
      ItemBound(items, |items|, i);
      var result := SanitizePlainValue(env, items[i], inherited);
      changed, removed, next := changed || result.changed, removed + result.removed, next + [result.value];
    }
    r := Outcome(if changed then Items(next) else Items(items), changed, removed);
  }

  /** Not handled when the field holds no JSON, or malformed JSON. */
  method SanitizePlainJsonField(env: Env, field: string, value: Value, media: bool)
    returns (handled: bool, r: Outcome<Value>)
    requires Lawful(env)
    ensures handled <==> Decoded(env, field, value).Some?
    ensures handled ==> SanitizeField(env, field, value, media) == Outcome(Some(r.value), r.changed, r.removed)
    decreases Weight(value), 2
  {
    r := Outcome(Undefined, false, 0);
    if !value.Str? || !IsJsonStringField(field) || BlockDocument.Blank(value.text) {
      return false, r;
    }
    var parsed := env.parse(value.text);
    if parsed.None? {
      return false, r;
    }
    var result := SanitizePlainValue(env, parsed.value, media);
    return true, Outcome(if result.changed then Str(env.stringify(result.value)) else value, result.changed, result.removed);
  }

  method SanitizePlainRecord(env: Env, entries: seq<Entry>, inherited: bool) returns (r: Outcome<Value>)
    requires Lawful(env)
    ensures r == SanitizeValue(env, Record(entries), inherited)
    decreases Weight(Record(entries)), 0
  {
    var media := IsMediaRecord(entries, inherited);
    var changed, next := false, [];
    var removed: nat := 0;
    for i := 0 to |entries|
      invariant SanitizeEntries(env, entries, i, media) == Outcome(next, changed, removed)
    {
      EntryBound(entries, |entries|, i);
      var entry := entries[i];
      var kept := SanitizePlainField(env, entry.field, entry.value, media);
      next := next + (if kept.value.Some? then [Entry(entry.field, kept.value.value)] else []);
      changed, removed := changed || kept.changed, removed + kept.removed;
    }
    r := Outcome(if changed then Record(next) else Record(entries), changed, removed);
  }

  method SanitizePlainField(env: Env, field: string, value: Value, media: bool) returns (r: Outcome<Option<Value>>)
    requires Lawful(env)
    ensures r == SanitizeField(env, field, value, media)
    decreases Weight(value), 3
  {
    var handled, json := SanitizePlainJsonField(env, field, value, media);
    if handled {
      return Outcome(Some(json.value), json.changed, json.removed);
    }
    if IsForbiddenField(env, field, value, media) {
      return Outcome(None, true, 1);
    }
    var result := SanitizePlainValue(env, value, media);
    return Outcome(Some(result.value), result.changed, result.removed);
  }

  /** What the fields of a shared map become. */
  method SanitizeYMap(env: Env, fields: seq<SharedField>, inherited: bool) returns (next: seq<SharedField>, removed: nat)
    requires Lawful(env)
    ensures SanitizeShared(env, SharedMap(fields), inherited) == Cleaned(SharedMap(next), removed)
    decreases SharedMap(fields), 0
  {
    var media := IsMediaMap(fields, inherited);
    next, removed := [], 0;
    for i := 0 to |fields|
      invariant SanitizeFields(env, fields, i, media) == Cleaned(next, removed)
    {
      var kept, count := SanitizeYField(env, fields[i].field, fields[i].item, media);
      next := next + (if kept.Some? then [SharedField(fields[i].field, kept.value)] else []);
      removed := removed + count;
    }
  }

  method SanitizeYField(env: Env, field: string, item: Item, media: bool) returns (kept: Option<Item>, removed: nat)
    requires Lawful(env)
    ensures SanitizeSharedField(env, field, item, media) == Cleaned(kept, removed)
    decreases item, 2
  {
    match item {
      case Plain(value) =>
        var result := SanitizePlainField(env, field, value, media);
        return if result.value.Some? then Some(Plain(result.value.value)) else None, result.removed;
      case Nested(shared) =>
        if IsForbidden(field, media, true, false) {
          return None, 1;
        }
        var nested, count := SanitizeYType(env, shared, media);
        return Some(Nested(nested)), count;
    }
  }

  /** Goes through the elements from the last to the first, replacing each where it is. */
  method SanitizeYArray(env: Env, elements: seq<Item>, inherited: bool) returns (next: seq<Item>, removed: nat)
    requires Lawful(env)
    ensures SanitizeShared(env, SharedArray(elements), inherited) == Cleaned(SharedArray(next), removed)
    decreases SharedArray(elements), 0
  {
    hide Lawful, SanitizeValue;
    next, removed := elements, 0;
    ghost var all := SanitizeElements(env, elements, |elements|, inherited);
    ElementsInPlace(env, elements, |elements|, inherited);
    for i := |elements| downto 0
      invariant |next| == |elements| == |all.value|
      invariant removed + SanitizeElements(env, elements, i, inherited).removed == all.removed
      invariant forall k | 0 <= k < i :: next[k] == elements[k]
      invariant forall k | i <= k < |elements| :: next[k] == all.value[k]
    {
      var item := next[i];
      if item.Plain? {
        var result := SanitizePlainValue(env, item.value, inherited);
        next, removed := next[i := Plain(result.value)], removed + result.removed;
      } else {
        var nested, count := SanitizeYType(env, item.shared, inherited);
        next, removed := next[i := Nested(nested)], removed + count;
      }
    }
    assert next == all.value;
  }

  lemma {:induction false} ElementsInPlace(env: Env, elements: seq<Item>, n: nat, media: bool)
    requires Lawful(env) && n <= |elements|
    ensures var next := SanitizeElements(env, elements, n, media).value;
            |next| == n && forall k | 0 <= k < n :: next[k] == SanitizeItem(env, elements[k], media).value
  {
    if n > 0 {
      ElementsInPlace(env, elements, n - 1, media);
      hide SanitizeItem, Lawful;
    }
  }

  method SanitizeYType(env: Env, shared: Shared, inherited: bool) returns (next: Shared, removed: nat)
    requires Lawful(env)
    ensures SanitizeShared(env, shared, inherited) == Cleaned(next, removed)
    decreases shared, 1
  {
    match shared {
      case SharedMap(fields) =>
        var kept, count := SanitizeYMap(env, fields, inherited);
        return SharedMap(kept), count;
      case SharedArray(elements) =>
        var kept, count := SanitizeYArray(env, elements, inherited);
        return SharedArray(kept), count;
    }
  }

  /** The scanner's walk pushes what it finds onto one list. */
  class DurableMediaScan {
    var violations: seq<Violation>

    constructor ()
      ensures violations == []
    {
      violations := [];
    }

    method ScanValue(env: Env, value: Value, path: string, inherited: bool)
      requires Lawful(env)
      modifies this
      ensures violations == old(violations) + Violations(env, value, path, inherited)
      decreases Weight(value), 1
    {
      match value {
        case Items(items) => ScanItems(env, items, path, inherited);
        case Record(entries) => ScanRecord(env, entries, path, inherited);
        case _ =>
      }
    }

    method ScanItems(env: Env, items: seq<Value>, path: string, inherited: bool)
      requires Lawful(env)
      modifies this
      ensures violations == old(violations) + Violations(env, Items(items), path, inherited)
      decreases Weight(Items(items)), 0
    {
      hide Lawful, IndexPath;
      for i := 0 to |items|
        invariant violations == old(violations) + ItemViolations(env, items, i, path, inherited)
      {
        ItemBound(items, |items|, i);
        ScanValue(env, items[i], IndexPath(path, i), inherited);
      }
    }

    method ScanRecord(env: Env, entries: seq<Entry>, path: string, inherited: bool)
      requires Lawful(env)
      modifies this
      ensures violations == old(violations) + Violations(env, Record(entries), path, inherited)
      decreases Weight(Record(entries)), 0
    {
      var media := IsMediaRecord(entries, inherited);
      hide Lawful, FieldViolations, IsMediaRecord, FieldPath;
      for i := 0 to |entries|
        invariant violations == old(violations) + EntryViolations(env, entries, i, path, media)
      {
        EntryBound(entries, |entries|, i);
        ScanField(env, entries[i].field, entries[i].value, FieldPath(path, entries[i].field), media);
      }
    }

    method ScanField(env: Env, field: string, value: Value, path: string, media: bool)
      requires Lawful(env)
      modifies this
      ensures violations == old(violations) + FieldViolations(env, field, value, path, media)
      decreases Weight(value), 2
    {
      if value.Str? && IsJsonStringField(field) && !BlockDocument.Blank(value.text) {
        var parsed := env.parse(value.text);
        if parsed.Some? {
          ScanValue(env, parsed.value, path, media);
          return;
        }
      }
      if IsForbiddenField(env, field, value, media) {
        violations := violations + [Violation(path, field)];
        return;
      }
      ScanValue(env, value, path, media);
    }

    method ScanYType(env: Env, shared: Shared, path: string, inherited: bool)
      requires Lawful(env)
      modifies this
      ensures violations == old(violations) + SharedViolations(env, shared, path, inherited)
      decreases shared, 1
    {
      match shared {
        case SharedMap(fields) => ScanYMap(env, fields, path, inherited);
        case SharedArray(elements) => ScanYArray(env, elements, path, inherited);
      }
    }

    method ScanYMap(env: Env, fields: seq<SharedField>, path: string, inherited: bool)
      requires Lawful(env)
      modifies this
      ensures violations == old(violations) + SharedViolations(env, SharedMap(fields), path, inherited)
      decreases SharedMap(fields), 0
    {
      var media := IsMediaMap(fields, inherited);
      hide Lawful, SharedFieldViolations, IsMediaMap, FieldPath;
      for i := 0 to |fields|
        invariant violations == old(violations) + FieldsViolations(env, fields, i, path, media)
      {
        ScanYField(env, fields[i].field, fields[i].item, FieldPath(path, fields[i].field), media);
      }
    }

    method ScanYArray(env: Env, elements: seq<Item>, path: string, inherited: bool)
      requires Lawful(env)
      modifies this
      ensures violations == old(violations) + SharedViolations(env, SharedArray(elements), path, inherited)
      decreases SharedArray(elements), 0
    {
      hide Lawful, SharedItemViolations, IndexPath;
      for i := 0 to |elements|
        invariant violations == old(violations) + ElementViolations(env, elements, i, path, inherited)
      {
        ScanItem(env, elements[i], IndexPath(path, i), inherited);
      }
    }

    method ScanYField(env: Env, field: string, item: Item, path: string, media: bool)
      requires Lawful(env)
      modifies this
      ensures violations == old(violations) + SharedFieldViolations(env, field, item, path, media)
      decreases item, 1
    {
      if item.Plain? {
        ScanField(env, field, item.value, path, media);
      } else if IsForbidden(field, media, true, false) {
        violations := violations + [Violation(path, field)];
      } else {
        ScanItem(env, item, path, media);
      }
    }

    method ScanItem(env: Env, item: Item, path: string, media: bool)
      requires Lawful(env)
      modifies this
      ensures violations == old(violations) + SharedItemViolations(env, item, path, media)
      decreases item, 0
    {
      match item {
        case Plain(value) => ScanValue(env, value, path, media);
        case Nested(shared) => ScanYType(env, shared, path, media);
      }
    }
  }

  // ---------------------------------------------------------------------------------------------
  // The client id of the sanitizer
  // ---------------------------------------------------------------------------------------------

  predicate Ascending(ids: seq<nat>) {
    forall i, j | 0 <= i < j < |ids| :: ids[i] < ids[j]
  }

  function InsertId(id: nat, sorted: seq<nat>): (r: seq<nat>)
    requires Ascending(sorted) && id !in sorted
    ensures Ascending(r) && forall x :: x in r <==> x == id || x in sorted
  {
    if sorted == [] || id < sorted[0] then [id] + sorted
    else
      var rest := InsertId(id, sorted[1..]);
      assert forall i | 0 <= i < |rest| :: rest[i] in rest;
      [sorted[0]] + rest
  }

  /** The ids in ascending order; each client has its own. */
  function SortedIds(clients: seq<nat>): (r: seq<nat>)
    requires forall i, j | 0 <= i < j < |clients| :: clients[i] != clients[j]
    ensures Ascending(r) && forall x :: x in r <==> x in clients
  {
    if clients == [] then [] else InsertId(clients[0], SortedIds(clients[1..]))
  }

  /** The smallest id no client has. */
  method DeterministicSanitizerClientId(clients: seq<nat>) returns (candidate: nat)
    requires forall i, j | 0 <= i < j < |clients| :: clients[i] != clients[j]
    ensures candidate !in clients && forall id: nat | id < candidate :: id in clients
  {
    var sorted := SortedIds(clients);
    candidate := 0;
    for i := 0 to |sorted|
      invariant candidate == i && forall k | 0 <= k < i :: sorted[k] == k
      invariant forall id: nat | id < candidate :: id in sorted
    {
      if sorted[i] != candidate {
        assert i > 0 ==> sorted[i - 1] < sorted[i];
        return candidate;
      }
      assert sorted[i] in sorted;
      candidate := candidate + 1;
    }
  }
}
