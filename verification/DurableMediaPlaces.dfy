/**
 Durable media, told by places.

 A place in a document is a walk from the top: which item of a list, which field of a record, and on into the JSON
 a field holds. `ReportsForbiddenPlaces` proves that the scanner reports exactly the forbidden places, each once, in
 document order and under its path written out; `KeepsTheRest` that the sanitizer takes exactly those fields away and
 leaves everything else as it was. Plain values and shared maps and arrays are the same here.
 */
module DurableMediaPlaces {
  import opened Wrappers
  import opened DurableMedia
  import BlockDocument

  // ---------------------------------------------------------------------------------------------
  // Parts of a document
  // ---------------------------------------------------------------------------------------------

  predicate IsList(item: Item) {
    match item
    case Plain(value) => value.Items?
    case Nested(shared) => shared.SharedArray?
  }

  predicate IsRecord(item: Item) {
    match item
    case Plain(value) => value.Record?
    case Nested(shared) => shared.SharedMap?
  }

  function Size(item: Item): nat {
    match item
    case Plain(Items(items)) => |items|
    case Plain(Record(entries)) => |entries|
    case Plain(_) => 0
    case Nested(SharedArray(elements)) => |elements|
    case Nested(SharedMap(fields)) => |fields|
  }

  function Part(item: Item, k: nat): Item
    requires k < Size(item)
  {
    match item
    case Plain(Items(items)) => Plain(items[k])
    case Plain(Record(entries)) => Plain(entries[k].value)
    case Nested(SharedArray(elements)) => elements[k]
    case Nested(SharedMap(fields)) => fields[k].item
  }

  function FieldName(item: Item, k: nat): string
    requires IsRecord(item) && k < Size(item)
  {
    match item
    case Plain(Record(entries)) => entries[k].field
    case Nested(SharedMap(fields)) => fields[k].field
  }

  /** The record says itself that it is a media block. */
  ghost predicate SaysMedia(item: Item)
    requires IsRecord(item)
  {
    exists k: nat | k < Size(item) ::
      && FieldName(item, k) == "type" && Part(item, k).Plain? && Part(item, k).value.Str?
      && Part(item, k).value.text in MEDIA_BLOCK_TYPES
  }

  // ---------------------------------------------------------------------------------------------
  // Which fields stay
  // ---------------------------------------------------------------------------------------------

  ghost predicate HoldsJson(env: Env, field: string, item: Item) {
    && (field == "tracks" || exists stem: string :: field == stem + "Json")
    && item.Plain? && item.value.Str? && !BlockDocument.Blank(item.value.text) && env.parse(item.value.text).Some?
  }

  /** What a walk goes into at a field: the value its JSON holds, or its own. */
  ghost function Inside(env: Env, field: string, item: Item): Item {
    if HoldsJson(env, field, item) then Plain(env.parse(item.value.text).value) else item
  }

  ghost predicate IsEmpty(item: Item) {
    item == Plain(Undefined) || item == Plain(Null) || item == Plain(Str(""))
  }

  /** Media has no title, and a field with a value is not one of managed media nor a reference to it. */
  ghost predicate Stays(env: Env, field: string, item: Item, media: bool) {
    || HoldsJson(env, field, item)
    || (&& !(media && field == "title")
        && (IsEmpty(item)
            || (&& field !in FORBIDDEN_MANAGED_MEDIA_FIELDS
                && !(media && field in FORBIDDEN_MEDIA_BLOCK_FIELDS)
                && !(item.Plain? && item.value.Str? && env.managed(item.value.text)))))
  }

  lemma DecodedMeans(env: Env, field: string, value: Value)
    ensures Decoded(env, field, value).Some? <==> HoldsJson(env, field, Plain(value))
    ensures Inside(env, field, Plain(value)) == Plain(Inner(env, field, value))
  {
    if IsJsonStringField(field) && field != "tracks" {
      assert field == field[..|field| - 4] + "Json";
    }
    forall stem: string | field == stem + "Json"
      ensures IsJsonStringField(field)
    {
      assert field[|field| - 4..] == "Json";
    }
  }

  lemma FieldStays(env: Env, field: string, value: Value, media: bool)
    requires Decoded(env, field, value).None?
    ensures IsForbiddenField(env, field, value, media) <==> !Stays(env, field, Plain(value), media)
  {
    DecodedMeans(env, field, value);
    hide Decoded;
  }

  lemma RecordSaysMedia(entries: seq<Entry>, media: bool)
    ensures IsMediaRecord(entries, media) <==> media || SaysMedia(Plain(Record(entries)))
  {
    var item := Plain(Record(entries));
    if IsMediaRecord(entries, media) && !media {
      var k: nat :| k < |entries| && entries[k].field == "type" && entries[k].value.Str?
                    && entries[k].value.text in MEDIA_BLOCK_TYPES;
      assert FieldName(item, k) == "type";
    }
    if SaysMedia(item) {
      var k: nat :| k < Size(item) && FieldName(item, k) == "type" && Part(item, k).Plain? && Part(item, k).value.Str?
                    && Part(item, k).value.text in MEDIA_BLOCK_TYPES;
      assert entries[k].field == "type";
    }
  }

  lemma MapSaysMedia(fields: seq<SharedField>, media: bool)
    ensures IsMediaMap(fields, media) <==> media || SaysMedia(Nested(SharedMap(fields)))
  {
    var item := Nested(SharedMap(fields));
    if IsMediaMap(fields, media) && !media {
      var k: nat :| k < |fields| && fields[k].field == "type" && fields[k].item.Plain? && fields[k].item.value.Str?
                    && fields[k].item.value.text in MEDIA_BLOCK_TYPES;
      assert FieldName(item, k) == "type";
    }
    if SaysMedia(item) {
      var k: nat :| k < Size(item) && FieldName(item, k) == "type" && Part(item, k).Plain? && Part(item, k).value.Str?
                    && Part(item, k).value.text in MEDIA_BLOCK_TYPES;
      assert fields[k].field == "type";
    }
  }

  // ---------------------------------------------------------------------------------------------
  // What the scanner reports
  // ---------------------------------------------------------------------------------------------

  /**
   `walk` leads to a field that may not stay, which `v` names, and its path is the one so far with a field written
   after a dot and an index in brackets.
   */
  ghost predicate Reported(env: Env, item: Item, media: bool, walk: seq<nat>, path: string, v: Violation)
    decreases |walk|
  {
    && walk != [] && walk[0] < Size(item)
    && if IsRecord(item) then
         var field := FieldName(item, walk[0]);
         var inner := media || SaysMedia(item);
         if Stays(env, field, Part(item, walk[0]), inner) then
           Reported(env, Inside(env, field, Part(item, walk[0])), inner, walk[1..], path + "." + field, v)
         else walk[1..] == [] && v == Violation(path + "." + field, field)
       else
         Reported(env, Part(item, walk[0]), media, walk[1..], path + "[" + BlockDocument.Decimal(walk[0]) + "]", v)
  }

  /** The order of places in a document. */
  predicate Before(a: seq<nat>, b: seq<nat>)
    decreases |a|
  {
    a != [] && b != [] && (a[0] < b[0] || (a[0] == b[0] && Before(a[1..], b[1..])))
  }

  ghost predicate Sorted(walks: seq<seq<nat>>) {
    forall i, j | 0 <= i < j < |walks| :: Before(walks[i], walks[j])
  }

  /** Every walk leads to what is to be reported of it. */
  ghost predicate AllReported(env: Env, item: Item, media: bool, path: string, walks: seq<seq<nat>>, vs: seq<Violation>) {
    |walks| == |vs| && forall i | 0 <= i < |walks| :: Reported(env, item, media, walks[i], path, vs[i])
  }

  ghost predicate AllBelow(walks: seq<seq<nat>>, n: nat) {
    forall i | 0 <= i < |walks| :: walks[i] != [] && walks[i][0] < n
  }

  /** No place in the first `n` parts is missing. */
  ghost predicate NoneMissing(env: Env, item: Item, media: bool, path: string, n: nat, walks: seq<seq<nat>>) {
    forall walk, v | Reported(env, item, media, walk, path, v) && walk != [] && walk[0] < n :: walk in walks
  }

  /** `walks` are the forbidden places in the first `n` parts, in order, and `vs` what is to be reported of each. */
  ghost predicate Reports(env: Env, item: Item, media: bool, path: string, n: nat, walks: seq<seq<nat>>, vs: seq<Violation>) {
    && AllReported(env, item, media, path, walks, vs) && AllBelow(walks, n) && Sorted(walks)
    && NoneMissing(env, item, media, path, n, walks)
  }

  function Prefixed(k: nat, tails: seq<seq<nat>>): (walks: seq<seq<nat>>)
    ensures |walks| == |tails| && forall i | 0 <= i < |tails| :: walks[i] == [k] + tails[i]
  {
    seq(|tails|, i requires 0 <= i < |tails| => [k] + tails[i])
  }

  /** The same of part `k` alone, for what follows the first step of each walk. */
  ghost predicate PartReports(env: Env, item: Item, media: bool, path: string, k: nat, tails: seq<seq<nat>>, vs: seq<Violation>) {
    && AllReported(env, item, media, path, Prefixed(k, tails), vs) && Sorted(tails)
    && (forall tail, v | Reported(env, item, media, [k] + tail, path, v) :: tail in tails)
  }

  lemma JoinedSorted(walks: seq<seq<nat>>, k: nat, tails: seq<seq<nat>>)
    requires Sorted(walks) && AllBelow(walks, k) && Sorted(tails)
    ensures Sorted(walks + Prefixed(k, tails)) && AllBelow(walks + Prefixed(k, tails), k + 1)
  {
    var all := walks + Prefixed(k, tails);
    forall i, j | 0 <= i < j < |all|
      ensures Before(all[i], all[j])
    {
      if |walks| <= i {
        assert all[i][1..] == tails[i - |walks|] && all[j][1..] == tails[j - |walks|];
      }
    }
  }

  lemma JoinedReported(env: Env, item: Item, media: bool, path: string, walks: seq<seq<nat>>, vs: seq<Violation>,
                       more: seq<seq<nat>>, moreVs: seq<Violation>)
    requires AllReported(env, item, media, path, walks, vs) && AllReported(env, item, media, path, more, moreVs)
    ensures AllReported(env, item, media, path, walks + more, vs + moreVs)
  {
    hide Reported;
  }

  lemma JoinedMissNone(env: Env, item: Item, media: bool, path: string, k: nat, walks: seq<seq<nat>>, tails: seq<seq<nat>>)
    requires NoneMissing(env, item, media, path, k, walks)
    requires forall tail, v | Reported(env, item, media, [k] + tail, path, v) :: tail in tails
    ensures NoneMissing(env, item, media, path, k + 1, walks + Prefixed(k, tails))
  {
    hide Reported;
    forall walk, v | Reported(env, item, media, walk, path, v) && walk != [] && walk[0] < k + 1
      ensures walk in walks + Prefixed(k, tails)
    {
      if walk[0] == k {
        assert walk == [k] + walk[1..];
        var i :| 0 <= i < |tails| && tails[i] == walk[1..];
        assert Prefixed(k, tails)[i] == walk;
      }
    }
  }

  lemma OnePartMore(env: Env, item: Item, media: bool, path: string, k: nat, walks: seq<seq<nat>>, vs: seq<Violation>,
                    tails: seq<seq<nat>>, more: seq<Violation>)
    requires Reports(env, item, media, path, k, walks, vs) && PartReports(env, item, media, path, k, tails, more)
    ensures Reports(env, item, media, path, k + 1, walks + Prefixed(k, tails), vs + more)
  {
    JoinedSorted(walks, k, tails);
    JoinedReported(env, item, media, path, walks, vs, Prefixed(k, tails), more);
    JoinedMissNone(env, item, media, path, k, walks, tails);
    hide Reported, Sorted, AllBelow, AllReported, NoneMissing, Before;
  }

  lemma NoPartsYet(env: Env, item: Item, media: bool, path: string)
    ensures Reports(env, item, media, path, 0, [], [])
  {
    hide Reported;
  }

  lemma FirstStep(env: Env, item: Item, media: bool, walk: seq<nat>, path: string, v: Violation)
    requires Reported(env, item, media, walk, path, v)
    ensures walk != [] && walk[0] < Size(item)
  {
  }

  // ---------------------------------------------------------------------------------------------
  // One part
  // ---------------------------------------------------------------------------------------------

  /** A part of a list reports what is reported inside it. */
  lemma ListPartReports(env: Env, item: Item, media: bool, path: string, k: nat, walks: seq<seq<nat>>, vs: seq<Violation>)
    requires !IsRecord(item) && k < Size(item)
    requires var part := Part(item, k); Reports(env, part, media, IndexPath(path, k), Size(part), walks, vs)
    ensures PartReports(env, item, media, path, k, walks, vs)
  {
    ListStep(env, item, media, path, k);
    PartIsInside(env, item, media, path, k, Part(item, k), media, IndexPath(path, k), walks, vs);
    hide *;
  }

  lemma ListStep(env: Env, item: Item, media: bool, path: string, k: nat)
    requires !IsRecord(item) && k < Size(item)
    ensures forall tail, v :: Reported(env, item, media, [k] + tail, path, v)
                              <==> Reported(env, Part(item, k), media, tail, IndexPath(path, k), v)
  {
    forall tail: seq<nat>, v
      ensures Reported(env, item, media, [k] + tail, path, v) <==> Reported(env, Part(item, k), media, tail, IndexPath(path, k), v)
    {
      assert ([k] + tail)[1..] == tail;
      assert path + "[" + BlockDocument.Decimal(k) + "]" == IndexPath(path, k);
    }
  }

  lemma FieldStep(env: Env, item: Item, media: bool, path: string, k: nat)
    requires IsRecord(item) && k < Size(item)
    requires Stays(env, FieldName(item, k), Part(item, k), media || SaysMedia(item))
    ensures var field := FieldName(item, k);
            forall tail, v :: Reported(env, item, media, [k] + tail, path, v)
                              <==> Reported(env, Inside(env, field, Part(item, k)), media || SaysMedia(item), tail,
                                            FieldPath(path, field), v)
  {
    var field := FieldName(item, k);
    hide SaysMedia, Stays, Inside;
    forall tail: seq<nat>, v
      ensures Reported(env, item, media, [k] + tail, path, v)
              <==> Reported(env, Inside(env, field, Part(item, k)), media || SaysMedia(item), tail, FieldPath(path, field), v)
    {
      assert ([k] + tail)[1..] == tail;
    }
  }

  lemma PartIsInside(env: Env, item: Item, media: bool, path: string, k: nat, inside: Item, inner: bool, here: string,
                     walks: seq<seq<nat>>, vs: seq<Violation>)
    requires Reports(env, inside, inner, here, Size(inside), walks, vs)
    requires forall tail, v :: Reported(env, item, media, [k] + tail, path, v) <==> Reported(env, inside, inner, tail, here, v)
    ensures PartReports(env, item, media, path, k, walks, vs)
  {
    forall tail, v | Reported(env, inside, inner, tail, here, v)
      ensures tail in walks
    {
      FirstStep(env, inside, inner, tail, here, v);
    }
    hide Reported, Size, Sorted, AllBelow;
    forall i | 0 <= i < |walks|
      ensures Reported(env, item, media, Prefixed(k, walks)[i], path, vs[i])
    {
      assert Reported(env, inside, inner, walks[i], here, vs[i]);
    }
  }

  /** A field that stays reports what is reported inside it. */
  lemma KeptPartReports(env: Env, item: Item, media: bool, path: string, k: nat, walks: seq<seq<nat>>, vs: seq<Violation>)
    requires IsRecord(item) && k < Size(item)
    requires var inner, field := media || SaysMedia(item), FieldName(item, k);
             var inside := Inside(env, field, Part(item, k));
             Stays(env, field, Part(item, k), inner) && Reports(env, inside, inner, FieldPath(path, field), Size(inside), walks, vs)
    ensures PartReports(env, item, media, path, k, walks, vs)
  {
    var inner, field := media || SaysMedia(item), FieldName(item, k);
    FieldStep(env, item, media, path, k);
    PartIsInside(env, item, media, path, k, Inside(env, field, Part(item, k)), inner, FieldPath(path, field), walks, vs);
    hide *;
  }

  /** A field that may not stay is reported itself. */
  lemma ForbiddenPartReports(env: Env, item: Item, media: bool, path: string, k: nat)
    requires IsRecord(item) && k < Size(item)
    requires !Stays(env, FieldName(item, k), Part(item, k), media || SaysMedia(item))
    ensures PartReports(env, item, media, path, k, [[]], [Violation(FieldPath(path, FieldName(item, k)), FieldName(item, k))])
  {
    hide SaysMedia, Stays;
    var v := Violation(FieldPath(path, FieldName(item, k)), FieldName(item, k));
    assert Prefixed(k, [[]])[0] == [k];
    assert Reported(env, item, media, [k], path, v);
    forall tail: seq<nat>, w | Reported(env, item, media, [k] + tail, path, w)
      ensures tail in [[]]
    {
      assert ([k] + tail)[1..] == tail;
    }
  }

  // ---------------------------------------------------------------------------------------------
  // The scanner reports the forbidden places
  // ---------------------------------------------------------------------------------------------

  lemma {:induction false} ItemsReport(env: Env, items: seq<Value>, n: nat, path: string, media: bool)
    returns (walks: seq<seq<nat>>)
    requires Lawful(env) && n <= |items|
    ensures Reports(env, Plain(Items(items)), media, path, n, walks, ItemViolations(env, items, n, path, media))
    decreases ItemsWeight(items, n), 1, n
  {
    hide Reports, PartReports, Violations, Lawful;
    var item := Plain(Items(items));
    if n == 0 {
      walks := [];
      NoPartsYet(env, item, media, path);
    } else {
      var before := ItemsReport(env, items, n - 1, path, media);
      var inside := ValueReports(env, items[n - 1], IndexPath(path, n - 1), media);
      ListPartReports(env, item, media, path, n - 1, inside, Violations(env, items[n - 1], IndexPath(path, n - 1), media));
      OnePartMore(env, item, media, path, n - 1, before, ItemViolations(env, items, n - 1, path, media),
                  inside, Violations(env, items[n - 1], IndexPath(path, n - 1), media));
      walks := before + Prefixed(n - 1, inside);
    }
  }

  /** A field with a plain value, of a record or a shared map. */
  lemma {:induction false} FieldReports(env: Env, item: Item, k: nat, value: Value, path: string, media: bool, inner: bool)
    returns (tails: seq<seq<nat>>)
    requires Lawful(env) && IsRecord(item) && k < Size(item) && Part(item, k) == Plain(value)
    requires inner == (media || SaysMedia(item))
    ensures var field := FieldName(item, k);
            PartReports(env, item, media, path, k, tails, FieldViolations(env, field, value, FieldPath(path, field), inner))
    decreases Weight(value), 1, 0
  {
    var field := FieldName(item, k);
    var decoded := Decoded(env, field, value);
    var here := FieldPath(path, field);
    DecodedMeans(env, field, value);
    if decoded.None? {
      FieldStays(env, field, value, inner);
    }
    if decoded.None? && IsForbiddenField(env, field, value, inner) {
      tails := [[]];
      ForbiddenPartReports(env, item, media, path, k);
    } else {
      tails := ValueReports(env, if decoded.Some? then decoded.value else value, here, inner);
      hide Reports, PartReports, Violations, Lawful, SaysMedia;
      KeptPartReports(env, item, media, path, k, tails, FieldViolations(env, field, value, here, inner));
    }
  }

  lemma {:induction false} EntriesReport(env: Env, entries: seq<Entry>, n: nat, path: string, media: bool, inner: bool)
    returns (walks: seq<seq<nat>>)
    requires Lawful(env) && n <= |entries| && inner == (media || SaysMedia(Plain(Record(entries))))
    ensures Reports(env, Plain(Record(entries)), media, path, n, walks, EntryViolations(env, entries, n, path, inner))
    decreases EntriesWeight(entries, n), 1, n
  {
    hide Reports, PartReports, FieldViolations, Lawful, SaysMedia;
    var item := Plain(Record(entries));
    if n == 0 {
      walks := [];
      NoPartsYet(env, item, media, path);
    } else {
      var before := EntriesReport(env, entries, n - 1, path, media, inner);
      var field, value := entries[n - 1].field, entries[n - 1].value;
      var tails := FieldReports(env, item, n - 1, value, path, media, inner);
      OnePartMore(env, item, media, path, n - 1, before, EntryViolations(env, entries, n - 1, path, inner),
                  tails, FieldViolations(env, field, value, FieldPath(path, field), inner));
      walks := before + Prefixed(n - 1, tails);
    }
  }

  lemma {:induction false} ValueReports(env: Env, value: Value, path: string, media: bool) returns (walks: seq<seq<nat>>)
    requires Lawful(env)
    ensures Reports(env, Plain(value), media, path, Size(Plain(value)), walks, Violations(env, value, path, media))
    decreases Weight(value), 0, 0
  {
    match value {
      case Items(items) => walks := ItemsReport(env, items, |items|, path, media);
      case Record(entries) =>
        RecordSaysMedia(entries, media);
        walks := EntriesReport(env, entries, |entries|, path, media, IsMediaRecord(entries, media));
      case _ =>
        walks := [];
        NoPartsYet(env, Plain(value), media, path);
    }
  }

  lemma {:induction false} ElementsReport(env: Env, elements: seq<Item>, n: nat, path: string, media: bool)
    returns (walks: seq<seq<nat>>)
    requires Lawful(env) && n <= |elements|
    ensures Reports(env, Nested(SharedArray(elements)), media, path, n, walks, ElementViolations(env, elements, n, path, media))
    decreases elements, n
  {
    hide Reports, PartReports, SharedItemViolations, Lawful;
    var item := Nested(SharedArray(elements));
    if n == 0 {
      walks := [];
      NoPartsYet(env, item, media, path);
    } else {
      var before := ElementsReport(env, elements, n - 1, path, media);
      var inside := ReportsForbiddenPlaces(env, elements[n - 1], IndexPath(path, n - 1), media);
      ListPartReports(env, item, media, path, n - 1, inside,
                      SharedItemViolations(env, elements[n - 1], IndexPath(path, n - 1), media));
      OnePartMore(env, item, media, path, n - 1, before, ElementViolations(env, elements, n - 1, path, media),
                  inside, SharedItemViolations(env, elements[n - 1], IndexPath(path, n - 1), media));
      walks := before + Prefixed(n - 1, inside);
    }
  }

  lemma {:induction false} SharedFieldReports(env: Env, fields: seq<SharedField>, k: nat, path: string, media: bool, inner: bool)
    returns (tails: seq<seq<nat>>)
    requires Lawful(env) && k < |fields| && inner == (media || SaysMedia(Nested(SharedMap(fields))))
    ensures var field := fields[k].field;
            PartReports(env, Nested(SharedMap(fields)), media, path, k, tails,
                        SharedFieldViolations(env, field, fields[k].item, FieldPath(path, field), inner))
    decreases fields[k], 1
  {
    var item, field := Nested(SharedMap(fields)), fields[k].field;
    match fields[k].item {
      case Plain(value) => tails := FieldReports(env, item, k, value, path, media, inner);
      case Nested(_) =>
        assert Stays(env, field, fields[k].item, inner) <==> !IsForbidden(field, inner, true, false);
        if IsForbidden(field, inner, true, false) {
          tails := [[]];
          ForbiddenPartReports(env, item, media, path, k);
        } else {
          tails := ReportsForbiddenPlaces(env, fields[k].item, FieldPath(path, field), inner);
          hide Reports, PartReports, SharedItemViolations, Lawful, SaysMedia;
          KeptPartReports(env, item, media, path, k, tails,
                          SharedItemViolations(env, fields[k].item, FieldPath(path, field), inner));
        }
    }
  }

  lemma {:induction false} FieldsReport(env: Env, fields: seq<SharedField>, n: nat, path: string, media: bool, inner: bool)
    returns (walks: seq<seq<nat>>)
    requires Lawful(env) && n <= |fields| && inner == (media || SaysMedia(Nested(SharedMap(fields))))
    ensures Reports(env, Nested(SharedMap(fields)), media, path, n, walks, FieldsViolations(env, fields, n, path, inner))
    decreases fields, n
  {
    hide Reports, PartReports, SharedFieldViolations, Lawful, SaysMedia;
    var item := Nested(SharedMap(fields));
    if n == 0 {
      walks := [];
      NoPartsYet(env, item, media, path);
    } else {
      var before := FieldsReport(env, fields, n - 1, path, media, inner);
      var field := fields[n - 1].field;
      var tails := SharedFieldReports(env, fields, n - 1, path, media, inner);
      OnePartMore(env, item, media, path, n - 1, before, FieldsViolations(env, fields, n - 1, path, inner),
                  tails, SharedFieldViolations(env, field, fields[n - 1].item, FieldPath(path, field), inner));
      walks := before + Prefixed(n - 1, tails);
    }
  }

  /**
   The scanner reports exactly the forbidden places of a document, plain or shared and also inside the JSON its
   fields hold: each once, in document order, under its field name and the path that leads there.
   */
  lemma {:induction false} ReportsForbiddenPlaces(env: Env, item: Item, path: string, media: bool) returns (walks: seq<seq<nat>>)
    requires Lawful(env)
    ensures Reports(env, item, media, path, Size(item), walks, SharedItemViolations(env, item, path, media))
    decreases item, 0
  {
    match item {
      case Plain(value) => walks := ValueReports(env, value, path, media);
      case Nested(SharedArray(elements)) => walks := ElementsReport(env, elements, |elements|, path, media);
      case Nested(SharedMap(fields)) =>
        MapSaysMedia(fields, media);
        walks := FieldsReport(env, fields, |fields|, path, media, IsMediaMap(fields, media));
    }
  }

  // ---------------------------------------------------------------------------------------------
  // What the sanitizer leaves
  // ---------------------------------------------------------------------------------------------

  function ElementsMass(elements: seq<Item>, n: nat): nat
    requires n <= |elements|
    decreases elements, n
  {
    if n == 0 then 0 else ElementsMass(elements, n - 1) + Mass(elements[n - 1])
  }

  function FieldsMass(fields: seq<SharedField>, n: nat): nat
    requires n <= |fields|
    decreases fields, n
  {
    if n == 0 then 0 else FieldsMass(fields, n - 1) + Mass(fields[n - 1].item)
  }

  function Mass(item: Item): nat
    decreases item
  {
    match item
    case Plain(value) => Weight(value)
    case Nested(SharedArray(elements)) => 1 + ElementsMass(elements, |elements|)
    case Nested(SharedMap(fields)) => 1 + FieldsMass(fields, |fields|)
  }

  lemma {:induction false} ElementMass(elements: seq<Item>, n: nat, k: nat)
    requires k < n <= |elements|
    ensures Mass(elements[k]) <= ElementsMass(elements, n)
  {
    if k < n - 1 {
      ElementMass(elements, n - 1, k);
    }
  }

  lemma {:induction false} FieldMass(fields: seq<SharedField>, n: nat, k: nat)
    requires k < n <= |fields|
    ensures Mass(fields[k].item) <= FieldsMass(fields, n)
  {
    if k < n - 1 {
      FieldMass(fields, n - 1, k);
    }
  }

  lemma PartLighter(item: Item, k: nat)
    requires k < Size(item)
    ensures Mass(Part(item, k)) < Mass(item)
  {
    match item {
      case Plain(Items(items)) => ItemBound(items, |items|, k);
      case Plain(Record(entries)) => EntryBound(entries, |entries|, k);
      case Nested(SharedArray(elements)) => ElementMass(elements, |elements|, k);
      case Nested(SharedMap(fields)) => FieldMass(fields, |fields|, k);
    }
  }

  lemma InsideNotHeavier(env: Env, field: string, item: Item)
    requires Lawful(env)
    ensures Mass(Inside(env, field, item)) <= Mass(item)
  {
  }

  /** The fields that stay among the first `n`, in their order. */
  ghost function Kept(env: Env, item: Item, n: nat, media: bool): (kept: seq<nat>)
    requires IsRecord(item) && n <= Size(item)
    ensures forall i | 0 <= i < |kept| :: kept[i] < n
  {
    if n == 0 then []
    else
      Kept(env, item, n - 1, media) + if Stays(env, FieldName(item, n - 1), Part(item, n - 1), media) then [n - 1] else []
  }

  /** Some place in the item is forbidden. */
  ghost predicate HasForbidden(env: Env, item: Item, media: bool) {
    exists walk, v :: Reported(env, item, media, walk, "", v)
  }

  predicate SameShape(a: Item, b: Item) {
    (a.Plain? <==> b.Plain?) && (IsList(a) <==> IsList(b)) && (IsRecord(a) <==> IsRecord(b))
  }

  /**
   `after` is `before` without its forbidden fields: lists keep all their parts, records the fields that stay, in
   order, and JSON in which something is forbidden is written anew without it. All else is the same.
   */
  ghost predicate Trimmed(env: Env, before: Item, after: Item, media: bool)
    requires Lawful(env)
    decreases Mass(before), 0
  {
    if IsList(before) then
      && SameShape(before, after) && Size(after) == Size(before)
      && forall k: nat | k < Size(before) :: (PartLighter(before, k); Trimmed(env, Part(before, k), Part(after, k), media))
    else if IsRecord(before) then
      var inner := media || SaysMedia(before);
      var kept := Kept(env, before, Size(before), inner);
      && SameShape(before, after) && Size(after) == |kept|
      && forall i: nat | i < |kept| ::
           && FieldName(after, i) == FieldName(before, kept[i])
           && (PartLighter(before, kept[i]);
               TrimmedField(env, FieldName(before, kept[i]), Part(before, kept[i]), Part(after, i), inner))
    else after == before
  }

  ghost predicate TrimmedField(env: Env, field: string, before: Item, after: Item, media: bool)
    requires Lawful(env)
    decreases Mass(before), 1
  {
    InsideNotHeavier(env, field, before);
    if !HoldsJson(env, field, before) then Trimmed(env, before, after, media)
    else if HasForbidden(env, Inside(env, field, before), media) then
      exists value: Value ::
        after == Plain(Str(env.stringify(value))) && Trimmed(env, Inside(env, field, before), Plain(value), media)
    else after == before
  }

  lemma {:induction false} KeptNext(env: Env, item: Item, n: nat, media: bool)
    requires IsRecord(item) && 0 < n <= Size(item)
    ensures Kept(env, item, n, media)
            == Kept(env, item, n - 1, media) + if Stays(env, FieldName(item, n - 1), Part(item, n - 1), media) then [n - 1] else []
  {
    hide Stays;
  }

  /** `next` is what becomes of the entries at `kept`. */
  ghost predicate EntriesAre(env: Env, entries: seq<Entry>, kept: seq<nat>, next: seq<Entry>, media: bool)
    requires Lawful(env)
  {
    && |next| == |kept|
    && forall i | 0 <= i < |kept| ::
         && kept[i] < |entries| && next[i].field == entries[kept[i]].field
         && SanitizeField(env, entries[kept[i]].field, entries[kept[i]].value, media).value == Some(next[i].value)
  }

  lemma EntriesSnoc(env: Env, entries: seq<Entry>, kept: seq<nat>, next: seq<Entry>, media: bool, k: nat, value: Value)
    requires Lawful(env) && EntriesAre(env, entries, kept, next, media) && k < |entries|
    requires SanitizeField(env, entries[k].field, entries[k].value, media).value == Some(value)
    ensures EntriesAre(env, entries, kept + [k], next + [Entry(entries[k].field, value)], media)
  {
    hide SanitizeField, Lawful;
  }

  lemma {:induction false} NoEntriesKept(env: Env, entries: seq<Entry>, media: bool)
    requires Lawful(env)
    ensures EntriesAre(env, entries, Kept(env, Plain(Record(entries)), 0, media), SanitizeEntries(env, entries, 0, media).value, media)
  {
    hide Lawful, Stays, SanitizeField;
  }

  lemma {:induction false} KeptEntries(env: Env, entries: seq<Entry>, n: nat, media: bool)
    requires Lawful(env) && n <= |entries|
    ensures EntriesAre(env, entries, Kept(env, Plain(Record(entries)), n, media), SanitizeEntries(env, entries, n, media).value, media)
  {
    hide SanitizeField, SanitizeEntries, Lawful, Stays, EntriesAre, Kept;
    if n == 0 {
      NoEntriesKept(env, entries, media);
    } else {
      KeptEntries(env, entries, n - 1, media);
      var item, kept := Plain(Record(entries)), SanitizeField(env, entries[n - 1].field, entries[n - 1].value, media).value;
      KeptNext(env, item, n, media);
      SanitizeEntriesNext(env, entries, n, media);
      FieldKeptExactly(env, entries[n - 1].field, entries[n - 1].value, media);
      if kept.Some? {
        EntriesSnoc(env, entries, Kept(env, item, n - 1, media), SanitizeEntries(env, entries, n - 1, media).value, media,
                    n - 1, kept.value);
      } else {
        assert Kept(env, item, n, media) == Kept(env, item, n - 1, media);
      }
    }
  }

  lemma FieldKeptExactly(env: Env, field: string, value: Value, media: bool)
    requires Lawful(env)
    ensures SanitizeField(env, field, value, media).value.Some? <==> Stays(env, field, Plain(value), media)
  {
    DecodedMeans(env, field, value);
    if Decoded(env, field, value).None? {
      FieldStays(env, field, value, media);
    }
    hide Lawful, Decoded, HoldsJson, IsForbiddenField;
  }

  /** The items of a sanitized list are the sanitized items. */
  lemma {:induction false} SanitizedItems(env: Env, items: seq<Value>, n: nat, media: bool)
    requires Lawful(env) && n <= |items|
    ensures var next := SanitizeItems(env, items, n, media).value;
            |next| == n && forall k | 0 <= k < n :: next[k] == SanitizeValue(env, items[k], media).value
  {
    if n > 0 {
      SanitizedItems(env, items, n - 1, media);
      hide SanitizeValue, Lawful;
    }
  }

  lemma {:induction false} ListIsTrimmed(env: Env, items: seq<Value>, media: bool)
    requires Lawful(env)
    requires forall k | 0 <= k < |items| :: Trimmed(env, Plain(items[k]), Plain(SanitizeValue(env, items[k], media).value), media)
    ensures Trimmed(env, Plain(Items(items)), Plain(SanitizeValue(env, Items(items), media).value), media)
  {
    SanitizedItems(env, items, |items|, media);
    ItemsChangeWhenRemoved(env, items, |items|, media);
    assert items[..|items|] == items;
    assert SanitizeValue(env, Items(items), media).value == Items(SanitizeItems(env, items, |items|, media).value);
    hide SanitizeValue, SanitizeItems, Lawful;
  }

  lemma {:induction false} RecordValue(env: Env, entries: seq<Entry>, media: bool)
    requires Lawful(env)
    ensures SanitizeValue(env, Record(entries), media).value
            == Record(SanitizeEntries(env, entries, |entries|, IsMediaRecord(entries, media)).value)
  {
    EntriesChangeWhenRemoved(env, entries, |entries|, IsMediaRecord(entries, media));
    assert entries[..|entries|] == entries;
    hide SanitizeEntries, Lawful, IsMediaRecord;
  }

  /** What has the fields that stay, each as it should become, is trimmed. */
  lemma {:induction false} TrimmedByFields(env: Env, before: Item, after: Item, media: bool, inner: bool)
    requires Lawful(env) && IsRecord(before) && SameShape(before, after) && inner == (media || SaysMedia(before))
    requires Size(after) == |Kept(env, before, Size(before), inner)|
    requires forall i: nat | i < Size(after) ::
               var k := Kept(env, before, Size(before), inner)[i];
               && FieldName(after, i) == FieldName(before, k)
               && TrimmedField(env, FieldName(before, k), Part(before, k), Part(after, i), inner)
    ensures Trimmed(env, before, after, media)
  {
    hide TrimmedField, Kept, SaysMedia, Lawful, Mass, FieldName, Part, Size;
  }

  lemma {:induction false} RecordIsTrimmed(env: Env, entries: seq<Entry>, media: bool)
    requires Lawful(env)
    requires var item := Plain(Record(entries)); var inner := media || SaysMedia(item);
             forall k | 0 <= k < |entries| && Stays(env, entries[k].field, Plain(entries[k].value), inner) ::
               var kept := SanitizeField(env, entries[k].field, entries[k].value, inner).value;
               kept.Some? && TrimmedField(env, entries[k].field, Plain(entries[k].value), Plain(kept.value), inner)
    ensures Trimmed(env, Plain(Record(entries)), Plain(SanitizeValue(env, Record(entries), media).value), media)
  {
    hide SanitizeValue, SanitizeEntries, SanitizeField, Lawful, SaysMedia, IsMediaRecord, Stays, TrimmedField, Trimmed, Kept;
    var inner := IsMediaRecord(entries, media);
    var before, after := Plain(Record(entries)), Plain(Record(SanitizeEntries(env, entries, |entries|, inner).value));
    RecordSaysMedia(entries, media);
    RecordValue(env, entries, media);
    KeptEntries(env, entries, |entries|, inner);
    KeptStay(env, before, |entries|, inner);
    TrimmedByFields(env, before, after, media, inner);
  }

  lemma {:induction false} KeptStay(env: Env, item: Item, n: nat, media: bool)
    requires IsRecord(item) && n <= Size(item)
    ensures forall i | 0 <= i < |Kept(env, item, n, media)| ::
              var k := Kept(env, item, n, media)[i]; Stays(env, FieldName(item, k), Part(item, k), media)
  {
    if n > 0 {
      KeptStay(env, item, n - 1, media);
      hide Stays;
    }
  }

  /** A value changes exactly when some place in it is forbidden. */
  lemma ChangesExactly(env: Env, value: Value, media: bool)
    requires Lawful(env)
    ensures SanitizeValue(env, value, media).changed <==> HasForbidden(env, Plain(value), media)
  {
    var walks := ValueReports(env, value, "", media);
    ChangesWhenRemoved(env, value, media);
    CountsAgree(env, value, "", media);
    hide SanitizeValue, Violations, Lawful, Sorted, AllBelow;
    if walks != [] {
      assert Reported(env, Plain(value), media, walks[0], "", Violations(env, value, "", media)[0]);
    }
    if HasForbidden(env, Plain(value), media) {
      var walk, v :| Reported(env, Plain(value), media, walk, "", v);
      FirstStep(env, Plain(value), media, walk, "", v);
    }
  }

  lemma {:induction false} FieldIsTrimmed(env: Env, field: string, value: Value, media: bool)
    requires Lawful(env) && Stays(env, field, Plain(value), media)
    ensures var kept := SanitizeField(env, field, value, media).value;
            kept.Some? && TrimmedField(env, field, Plain(value), Plain(kept.value), media)
    decreases Weight(value), 1
  {
    var inside := Inner(env, field, value);
    FieldKeptExactly(env, field, value, media);
    DecodedMeans(env, field, value);
    ValueIsTrimmed(env, inside, media);
    ChangesExactly(env, inside, media);
    hide SanitizeValue, Trimmed, HasForbidden, Lawful, Stays, HoldsJson, Inside;
  }

  lemma {:induction false} ValueIsTrimmed(env: Env, value: Value, media: bool)
    requires Lawful(env)
    ensures Trimmed(env, Plain(value), Plain(SanitizeValue(env, value, media).value), media)
    decreases Weight(value), 0
  {
    match value {
      case Items(items) =>
        forall k | 0 <= k < |items|
          ensures Trimmed(env, Plain(items[k]), Plain(SanitizeValue(env, items[k], media).value), media)
        {
          ItemBound(items, |items|, k);
          ValueIsTrimmed(env, items[k], media);
        }
        ListIsTrimmed(env, items, media);
      case Record(entries) =>
        var inner := media || SaysMedia(Plain(Record(entries)));
        forall k | 0 <= k < |entries| && Stays(env, entries[k].field, Plain(entries[k].value), inner)
          ensures var kept := SanitizeField(env, entries[k].field, entries[k].value, inner).value;
                  kept.Some? && TrimmedField(env, entries[k].field, Plain(entries[k].value), Plain(kept.value), inner)
        {
          EntryBound(entries, |entries|, k);
          FieldIsTrimmed(env, entries[k].field, entries[k].value, inner);
        }
        RecordIsTrimmed(env, entries, media);
      case _ =>
    }
  }

  ghost predicate FieldsAre(env: Env, fields: seq<SharedField>, kept: seq<nat>, next: seq<SharedField>, media: bool)
    requires Lawful(env)
  {
    && |next| == |kept|
    && forall i | 0 <= i < |kept| ::
         && kept[i] < |fields| && next[i].field == fields[kept[i]].field
         && SanitizeSharedField(env, fields[kept[i]].field, fields[kept[i]].item, media).value == Some(next[i].item)
  }

  lemma FieldsSnoc(env: Env, fields: seq<SharedField>, kept: seq<nat>, next: seq<SharedField>, media: bool, k: nat, item: Item)
    requires Lawful(env) && FieldsAre(env, fields, kept, next, media) && k < |fields|
    requires SanitizeSharedField(env, fields[k].field, fields[k].item, media).value == Some(item)
    ensures FieldsAre(env, fields, kept + [k], next + [SharedField(fields[k].field, item)], media)
  {
    hide SanitizeSharedField, Lawful;
  }

  lemma {:induction false} SanitizeFieldsNext(env: Env, fields: seq<SharedField>, n: nat, media: bool)
    requires Lawful(env) && 0 < n <= |fields|
    ensures var before := SanitizeFields(env, fields, n - 1, media).value;
            var kept := SanitizeSharedField(env, fields[n - 1].field, fields[n - 1].item, media).value;
            SanitizeFields(env, fields, n, media).value
            == if kept.Some? then before + [SharedField(fields[n - 1].field, kept.value)] else before
  {
    hide SanitizeSharedField, Lawful;
  }

  lemma {:induction false} NoFieldsKept(env: Env, fields: seq<SharedField>, media: bool)
    requires Lawful(env)
    ensures FieldsAre(env, fields, Kept(env, Nested(SharedMap(fields)), 0, media), SanitizeFields(env, fields, 0, media).value, media)
  {
    hide Lawful, Stays, SanitizeSharedField;
  }

  lemma {:induction false} KeptFields(env: Env, fields: seq<SharedField>, n: nat, media: bool)
    requires Lawful(env) && n <= |fields|
    ensures FieldsAre(env, fields, Kept(env, Nested(SharedMap(fields)), n, media), SanitizeFields(env, fields, n, media).value, media)
  {
    hide SanitizeSharedField, SanitizeFields, Lawful, Stays, FieldsAre, Kept;
    if n == 0 {
      NoFieldsKept(env, fields, media);
    } else {
      KeptFields(env, fields, n - 1, media);
      var item, kept := Nested(SharedMap(fields)), SanitizeSharedField(env, fields[n - 1].field, fields[n - 1].item, media).value;
      KeptNext(env, item, n, media);
      SanitizeFieldsNext(env, fields, n, media);
      SharedFieldKeptExactly(env, fields[n - 1].field, fields[n - 1].item, media);
      if kept.Some? {
        FieldsSnoc(env, fields, Kept(env, item, n - 1, media), SanitizeFields(env, fields, n - 1, media).value, media,
                   n - 1, kept.value);
      } else {
        assert Kept(env, item, n, media) == Kept(env, item, n - 1, media);
      }
    }
  }

  lemma SharedFieldKeptExactly(env: Env, field: string, item: Item, media: bool)
    requires Lawful(env)
    ensures SanitizeSharedField(env, field, item, media).value.Some? <==> Stays(env, field, item, media)
  {
    if item.Plain? {
      FieldKeptExactly(env, field, item.value, media);
      hide SanitizeField, Stays;
    }
    hide Lawful;
  }

  lemma {:induction false} SharedFieldIsTrimmed(env: Env, field: string, item: Item, media: bool)
    requires Lawful(env) && Stays(env, field, item, media)
    requires item.Nested? ==> Trimmed(env, item, SanitizeItem(env, item, media).value, media)
    ensures var kept := SanitizeSharedField(env, field, item, media).value;
            kept.Some? && TrimmedField(env, field, item, kept.value, media)
  {
    match item {
      case Plain(value) =>
        FieldIsTrimmed(env, field, value, media);
        hide SanitizeField, TrimmedField, Lawful, Stays;
      case Nested(_) =>
        hide Trimmed, SanitizeItem, Lawful;
    }
  }

  lemma {:induction false} ArrayIsTrimmed(env: Env, elements: seq<Item>, media: bool)
    requires Lawful(env)
    requires forall k | 0 <= k < |elements| :: Trimmed(env, elements[k], SanitizeItem(env, elements[k], media).value, media)
    ensures Trimmed(env, Nested(SharedArray(elements)), SanitizeItem(env, Nested(SharedArray(elements)), media).value, media)
  {
    ElementsInPlace(env, elements, |elements|, media);
    var next := SanitizeElements(env, elements, |elements|, media).value;
    assert SanitizeItem(env, Nested(SharedArray(elements)), media).value == Nested(SharedArray(next));
    hide SanitizeItem, SanitizeElements, Lawful;
  }

  lemma {:induction false} MapIsTrimmed(env: Env, fields: seq<SharedField>, media: bool)
    requires Lawful(env)
    requires var inner := media || SaysMedia(Nested(SharedMap(fields)));
             forall k | 0 <= k < |fields| && Stays(env, fields[k].field, fields[k].item, inner) ::
               var kept := SanitizeSharedField(env, fields[k].field, fields[k].item, inner).value;
               kept.Some? && TrimmedField(env, fields[k].field, fields[k].item, kept.value, inner)
    ensures Trimmed(env, Nested(SharedMap(fields)), SanitizeItem(env, Nested(SharedMap(fields)), media).value, media)
  {
    var inner := IsMediaMap(fields, media);
    var before := Nested(SharedMap(fields));
    var after := Nested(SharedMap(SanitizeFields(env, fields, |fields|, inner).value));
    assert SanitizeItem(env, before, media).value == after;
    hide SanitizeItem, SanitizeFields, SanitizeSharedField, Lawful, SaysMedia, IsMediaMap, Stays, TrimmedField, Trimmed, Kept;
    MapSaysMedia(fields, media);
    KeptFields(env, fields, |fields|, inner);
    KeptStay(env, before, |fields|, inner);
    TrimmedByFields(env, before, after, media, inner);
  }

  lemma {:induction false} ItemIsTrimmed(env: Env, item: Item, media: bool)
    requires Lawful(env)
    ensures Trimmed(env, item, SanitizeItem(env, item, media).value, media)
    decreases item
  {
    match item {
      case Plain(value) => ValueIsTrimmed(env, value, media);
      case Nested(SharedArray(elements)) =>
        forall k | 0 <= k < |elements|
          ensures Trimmed(env, elements[k], SanitizeItem(env, elements[k], media).value, media)
        {
          ItemIsTrimmed(env, elements[k], media);
        }
        ArrayIsTrimmed(env, elements, media);
      case Nested(SharedMap(fields)) =>
        var inner := media || SaysMedia(item);
        forall k | 0 <= k < |fields| && Stays(env, fields[k].field, fields[k].item, inner)
          ensures var kept := SanitizeSharedField(env, fields[k].field, fields[k].item, inner).value;
                  kept.Some? && TrimmedField(env, fields[k].field, fields[k].item, kept.value, inner)
        {
          ItemIsTrimmed(env, fields[k].item, inner);
          SharedFieldIsTrimmed(env, fields[k].field, fields[k].item, inner);
        }
        MapIsTrimmed(env, fields, media);
    }
  }

  // ---------------------------------------------------------------------------------------------
  // Nothing else is trimmed
  // ---------------------------------------------------------------------------------------------

  lemma SameParts(a: Item, b: Item)
    requires SameShape(a, b) && (IsList(a) || IsRecord(a)) && Size(a) == Size(b)
    requires forall k: nat | k < Size(a) :: Part(a, k) == Part(b, k)
    requires IsRecord(a) ==> forall k: nat | k < Size(a) :: FieldName(a, k) == FieldName(b, k)
    ensures a == b
  {
    match a {
      case Plain(Items(items)) =>
        assert forall k: nat | k < |items| :: Part(a, k) == Part(b, k) ==> items[k] == b.value.items[k];
      case Plain(Record(entries)) =>
        assert forall k: nat | k < |entries| ::
          Part(a, k) == Part(b, k) && FieldName(a, k) == FieldName(b, k) ==> entries[k] == b.value.entries[k];
      case Nested(SharedArray(elements)) =>
        assert forall k: nat | k < |elements| :: Part(a, k) == Part(b, k) ==> elements[k] == b.shared.elements[k];
      case Nested(SharedMap(fields)) =>
        assert forall k: nat | k < |fields| ::
          Part(a, k) == Part(b, k) && FieldName(a, k) == FieldName(b, k) ==> fields[k] == b.shared.fields[k];
    }
  }

  lemma {:induction false} TrimmedOnce(env: Env, before: Item, a: Item, b: Item, media: bool)
    requires Lawful(env) && Trimmed(env, before, a, media) && Trimmed(env, before, b, media)
    ensures a == b
    decreases Mass(before), 0
  {
    if IsList(before) {
      forall k: nat | k < Size(a)
        ensures Part(a, k) == Part(b, k)
      {
        PartLighter(before, k);
        TrimmedOnce(env, Part(before, k), Part(a, k), Part(b, k), media);
      }
      SameParts(a, b);
    } else if IsRecord(before) {
      var inner := media || SaysMedia(before);
      var kept := Kept(env, before, Size(before), inner);
      forall i: nat | i < Size(a)
        ensures Part(a, i) == Part(b, i)
      {
        PartLighter(before, kept[i]);
        TrimmedFieldOnce(env, FieldName(before, kept[i]), Part(before, kept[i]), Part(a, i), Part(b, i), inner);
      }
      SameParts(a, b);
    }
  }

  lemma {:induction false} TrimmedFieldOnce(env: Env, field: string, before: Item, a: Item, b: Item, media: bool)
    requires Lawful(env) && TrimmedField(env, field, before, a, media) && TrimmedField(env, field, before, b, media)
    ensures a == b
    decreases Mass(before), 1
  {
    InsideNotHeavier(env, field, before);
    var inside := Inside(env, field, before);
    if !HoldsJson(env, field, before) {
      TrimmedOnce(env, before, a, b, media);
    } else if HasForbidden(env, inside, media) {
      hide Trimmed, HasForbidden, HoldsJson, Inside, Lawful;
      var x :| a == Plain(Str(env.stringify(x))) && Trimmed(env, inside, Plain(x), media);
      var y :| b == Plain(Str(env.stringify(y))) && Trimmed(env, inside, Plain(y), media);
      TrimmedOnce(env, inside, Plain(x), Plain(y), media);
    }
  }

  /** The sanitizer's result is the one value that is the document without its forbidden fields. */
  lemma KeepsTheRest(env: Env, item: Item, after: Item, media: bool)
    requires Lawful(env)
    ensures Trimmed(env, item, after, media) <==> after == SanitizeItem(env, item, media).value
  {
    ItemIsTrimmed(env, item, media);
    if Trimmed(env, item, after, media) {
      TrimmedOnce(env, item, after, SanitizeItem(env, item, media).value, media);
    }
    hide *;
  }
}
