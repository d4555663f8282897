/**
 The three-way merge of metadata: an author's changes, from what was observed to what is desired, applied to the
 current value.

 `ListMembers` says what a merged list of ids holds, and `ListsConverge` that the changes of two authors who observed
 the same list lead to the same ids in either order. For records `RecordsConvergeExactly` gives the exact condition:
 the order does not matter if and only if the two change no key differently.
 */
module MetadataMerge {
  import opened Wrappers

  datatype Json = Null | Bool(bool) | Number(real) | Str(text: string) | List(items: seq<Json>) | Record(fields: map<string, Json>)

  datatype MergeError = ObservedIdListRequired | CurrentIdListRequired | ObservedCollectionRequired

  // ---------------------------------------------------------------------------------------------
  // Lists of ids
  // ---------------------------------------------------------------------------------------------

  predicate IsStringList(value: Json) {
    value.List? && forall k | 0 <= k < |value.items| :: value.items[k].Str?
  }

  function Strings(value: Json): seq<string>
    requires IsStringList(value)
  {
    seq(|value.items|, k requires 0 <= k < |value.items| => value.items[k].text)
  }

  function ListOf(ids: seq<string>): Json {
    List(seq(|ids|, k requires 0 <= k < |ids| => Str(ids[k])))
  }

  predicate RemovedByAuthor(observed: seq<string>, desired: seq<string>, id: string) {
    id in observed && id !in desired
  }

  predicate AddedByAuthor(observed: seq<string>, desired: seq<string>, id: string) {
    id in desired && id !in observed
  }

  /** The first `n` of the current ids without those the author removed. */
  function Kept(current: seq<string>, observed: seq<string>, desired: seq<string>, n: nat): seq<string>
    requires n <= |current|
  {
    if n == 0 then []
    else
      Kept(current, observed, desired, n - 1)
      + if RemovedByAuthor(observed, desired, current[n - 1]) then [] else [current[n - 1]]
  }

  /** Pushes those of the first `n` desired ids that the author added, unless they are there. */
  function Pushed(kept: seq<string>, observed: seq<string>, desired: seq<string>, n: nat): seq<string>
    requires n <= |desired|
  {
    if n == 0 then kept
    else
      var before := Pushed(kept, observed, desired, n - 1);
      if desired[n - 1] !in observed && desired[n - 1] !in before then before + [desired[n - 1]] else before
  }

  function MergedList(current: seq<string>, observed: seq<string>, desired: seq<string>): seq<string> {
    Pushed(Kept(current, observed, desired, |current|), observed, desired, |desired|)
  }

  method MergeStringLists(current: seq<string>, observed: seq<string>, desired: seq<string>) returns (result: seq<string>)
    ensures result == MergedList(current, observed, desired)
  {
    result := [];
    for k := 0 to |current|
      invariant result == Kept(current, observed, desired, k)
    {
      result := result + if current[k] in observed && current[k] !in desired then [] else [current[k]];
    }
    for k := 0 to |desired|
      invariant result == Pushed(Kept(current, observed, desired, |current|), observed, desired, k)
    {
      if desired[k] !in observed && desired[k] !in result {
        result := result + [desired[k]];
      }
    }
  }

  lemma {:induction false} KeptMembers(current: seq<string>, observed: seq<string>, desired: seq<string>, n: nat)
    requires n <= |current|
    ensures forall id :: id in Kept(current, observed, desired, n)
                         <==> id in current[..n] && !RemovedByAuthor(observed, desired, id)
  {
    if n > 0 {
      KeptMembers(current, observed, desired, n - 1);
      assert current[..n] == current[..n - 1] + [current[n - 1]];
    }
  }

  /** What is pushed goes to the end, and is not there twice. */
  lemma {:induction false} PushedMembers(kept: seq<string>, observed: seq<string>, desired: seq<string>, n: nat)
    requires n <= |desired|
    ensures kept <= Pushed(kept, observed, desired, n)
    ensures forall id :: id in Pushed(kept, observed, desired, n)
                         <==> id in kept || (id in desired[..n] && id !in observed)
    ensures forall i, j | 0 <= i < j < |Pushed(kept, observed, desired, n)| && j >= |kept| ::
              Pushed(kept, observed, desired, n)[i] != Pushed(kept, observed, desired, n)[j]
  {
    if n > 0 {
      PushedMembers(kept, observed, desired, n - 1);
      assert desired[..n] == desired[..n - 1] + [desired[n - 1]];
    }
  }

  /**
   The merged list holds the current ids the author did not remove, in their order, and then, once each, the ids
   the author added that were not among them.
   */
  lemma {:induction false} ListMembers(current: seq<string>, observed: seq<string>, desired: seq<string>)
    ensures forall id :: id in MergedList(current, observed, desired)
                         <==> (id in current && !RemovedByAuthor(observed, desired, id)) || AddedByAuthor(observed, desired, id)
    ensures var kept := Kept(current, observed, desired, |current|);
            && kept <= MergedList(current, observed, desired)
            && forall i, j | 0 <= i < j < |MergedList(current, observed, desired)| && j >= |kept| ::
                 MergedList(current, observed, desired)[i] != MergedList(current, observed, desired)[j]
  {
    KeptMembers(current, observed, desired, |current|);
    PushedMembers(Kept(current, observed, desired, |current|), observed, desired, |desired|);
    assert current[..|current|] == current && desired[..|desired|] == desired;
  }

  /** Two authors who observed the same list: the ids are the same whoever comes first. */
  lemma ListsConverge(current: seq<string>, observed: seq<string>, mine: seq<string>, theirs: seq<string>)
    ensures forall id :: id in MergedList(MergedList(current, observed, mine), observed, theirs)
                         <==> id in MergedList(MergedList(current, observed, theirs), observed, mine)
  {
    ListMembers(current, observed, mine);
    ListMembers(current, observed, theirs);
    ListMembers(MergedList(current, observed, mine), observed, theirs);
    ListMembers(MergedList(current, observed, theirs), observed, mine);
    hide MergedList;
  }

  lemma {:induction false} KeptAll(current: seq<string>, observed: seq<string>, desired: seq<string>, n: nat)
    requires n <= |current| && forall id | id in current :: !RemovedByAuthor(observed, desired, id)
    ensures Kept(current, observed, desired, n) == current[..n]
  {
    if n > 0 {
      KeptAll(current, observed, desired, n - 1);
      assert current[..n] == current[..n - 1] + [current[n - 1]];
    }
  }

  lemma NothingPushed(kept: seq<string>, observed: seq<string>, desired: seq<string>, n: nat)
    requires n <= |desired| && forall id | id in desired && id !in observed :: id in kept
    ensures Pushed(kept, observed, desired, n) == kept
  {
    if n > 0 {
      NothingPushed(kept, observed, desired, n - 1);
    }
  }

  /** Merging the same changes again changes nothing, and an author who changed nothing leaves the list as it is. */
  lemma ListMergeSettles(current: seq<string>, observed: seq<string>, desired: seq<string>)
    ensures var once := MergedList(current, observed, desired);
            MergedList(once, observed, desired) == once
    ensures MergedList(current, observed, observed) == current
  {
    var once := MergedList(current, observed, desired);
    ListMembers(current, observed, desired);
    KeptAll(once, observed, desired, |once|);
    assert once[..|once|] == once && current[..|current|] == current;
    NothingPushed(once, observed, desired, |desired|);
    KeptAll(current, observed, observed, |current|);
    NothingPushed(current, observed, observed, |observed|);
  }

  // ---------------------------------------------------------------------------------------------
  // Records
  // ---------------------------------------------------------------------------------------------

  /** Values are compared by identity: lists and records that were read separately are never the same. */
  predicate SameValue(a: Json, b: Json) {
    a == b && !a.List? && !a.Record?
  }

  datatype Change = Keep | Delete | Put(value: Json)

  /** What the author did to a key. */
  function ChangeOf(observed: map<string, Json>, desired: map<string, Json>, key: string): Change {
    if key in desired then
      if key !in observed || !SameValue(observed[key], desired[key]) then Put(desired[key]) else Keep
    else if key in observed then Delete
    else Keep
  }

  function After(change: Change, current: map<string, Json>, key: string): Option<Json> {
    match change
    case Keep => if key in current then Some(current[key]) else None
    case Delete => None
    case Put(value) => Some(value)
  }

  function MergedRecord(current: map<string, Json>, observed: map<string, Json>, desired: map<string, Json>): map<string, Json> {
    map key | key in current.Keys + desired.Keys && After(ChangeOf(observed, desired, key), current, key).Some?
      :: After(ChangeOf(observed, desired, key), current, key).value
  }

  method MergeRecords(current: map<string, Json>, observed: map<string, Json>, desired: map<string, Json>)
    returns (result: map<string, Json>)
    ensures result == MergedRecord(current, observed, desired)
  {
    var kept := DeleteRemovedKeys(current, observed, desired);
    result := ApplyChangedKeys(kept, observed, desired);
    MergedAt(current, observed, desired);
    forall key
      ensures key in result <==> key in MergedRecord(current, observed, desired)
      ensures key in result ==> result[key] == MergedRecord(current, observed, desired)[key]
    {
    }
    assert result == MergedRecord(current, observed, desired);
  }

  method DeleteRemovedKeys(current: map<string, Json>, observed: map<string, Json>, desired: map<string, Json>)
    returns (result: map<string, Json>)
    ensures result == map key | key in current && !(key in observed && key !in desired) :: current[key]
  {
    result := current;
    var pending := observed.Keys;
    while pending != {}
      invariant pending <= observed.Keys
      invariant result == map key | key in current && !(key in observed && key !in pending && key !in desired) :: current[key]
      decreases pending
    {
      var key :| key in pending;
      pending := pending - {key};
      if key !in desired {
        result := result - {key};
      }
    }
  }

  method ApplyChangedKeys(current: map<string, Json>, observed: map<string, Json>, desired: map<string, Json>)
    returns (result: map<string, Json>)
    ensures result == map key | key in current.Keys + desired.Keys && (key in current || ChangeOf(observed, desired, key).Put?)
                        :: if ChangeOf(observed, desired, key).Put? then desired[key] else current[key]
  {
    result := current;
    var pending := desired.Keys;
    while pending != {}
      invariant pending <= desired.Keys
      invariant result == map key | key in current.Keys + desired.Keys
                                    && (key in current || (key !in pending && ChangeOf(observed, desired, key).Put?))
                            :: if key !in pending && ChangeOf(observed, desired, key).Put? then desired[key] else current[key]
      decreases pending
    {
      var key :| key in pending;
      pending := pending - {key};
      if key !in observed || !SameValue(observed[key], desired[key]) {
        result := result[key := desired[key]];
      }
    }
  }

  /** Key by key, a merged record is what the author did to the current one. */
  lemma MergedAt(current: map<string, Json>, observed: map<string, Json>, desired: map<string, Json>)
    ensures forall key :: After(Keep, MergedRecord(current, observed, desired), key)
                          == After(ChangeOf(observed, desired, key), current, key)
  {
  }

  /**
   A key the author added or gave another value has the author's value, one the author removed is gone, and every
   other key is as it was, there or not. A list or record counts as another value.
   */
  lemma MergedKeys(current: map<string, Json>, observed: map<string, Json>, desired: map<string, Json>, key: string)
    ensures var merged := MergedRecord(current, observed, desired);
            if key in desired && (key !in observed || desired[key] != observed[key] || desired[key].List? || desired[key].Record?)
            then key in merged && merged[key] == desired[key]
            else if key in observed && key !in desired then key !in merged
            else (key in merged <==> key in current) && (key in merged ==> merged[key] == current[key])
  {
  }

  lemma SameRecords(a: map<string, Json>, b: map<string, Json>)
    ensures a == b <==> forall key :: After(Keep, a, key) == After(Keep, b, key)
  {
    if forall key :: After(Keep, a, key) == After(Keep, b, key) {
      forall key
        ensures key in a <==> key in b
        ensures key in a ==> a[key] == b[key]
      {
        assert After(Keep, a, key) == After(Keep, b, key);
      }
    }
  }

  /** Two authors do not change a key to different ends. */
  predicate Compatible(observed: map<string, Json>, mine: map<string, Json>, theirs: map<string, Json>, key: string) {
    || ChangeOf(observed, mine, key).Keep?
    || ChangeOf(observed, theirs, key).Keep?
    || ChangeOf(observed, mine, key) == ChangeOf(observed, theirs, key)
  }

  lemma CompatibleConverge(current: map<string, Json>, observed: map<string, Json>, mine: map<string, Json>,
                           theirs: map<string, Json>)
    requires forall key :: Compatible(observed, mine, theirs, key)
    ensures MergedRecord(MergedRecord(current, observed, mine), observed, theirs)
            == MergedRecord(MergedRecord(current, observed, theirs), observed, mine)
  {
    var a := MergedRecord(MergedRecord(current, observed, mine), observed, theirs);
    var b := MergedRecord(MergedRecord(current, observed, theirs), observed, mine);
    TwiceMerged(current, observed, mine, theirs);
    TwiceMerged(current, observed, theirs, mine);
    forall key
      ensures After(Keep, a, key) == After(Keep, b, key)
    {
      assert Compatible(observed, mine, theirs, key);
    }
    SameRecords(a, b);
  }

  /**
   Two authors who observed the same record: whoever comes first, the result is the same for every current record,
   exactly when there is no key they change differently. When there is one, the later author wins it.
   */
  lemma RecordsConvergeExactly(observed: map<string, Json>, mine: map<string, Json>, theirs: map<string, Json>)
    ensures (forall key :: Compatible(observed, mine, theirs, key))
            <==> forall current :: MergedRecord(MergedRecord(current, observed, mine), observed, theirs)
                                   == MergedRecord(MergedRecord(current, observed, theirs), observed, mine)
  {
    if forall key :: Compatible(observed, mine, theirs, key) {
      forall current
        ensures MergedRecord(MergedRecord(current, observed, mine), observed, theirs)
                == MergedRecord(MergedRecord(current, observed, theirs), observed, mine)
      {
        CompatibleConverge(current, observed, mine, theirs);
      }
    } else {
      var key :| !Compatible(observed, mine, theirs, key);
      TwiceMerged(map[], observed, mine, theirs);
      TwiceMerged(map[], observed, theirs, mine);
      SameRecords(MergedRecord(MergedRecord(map[], observed, mine), observed, theirs),
                  MergedRecord(MergedRecord(map[], observed, theirs), observed, mine));
    }
  }

  lemma TwiceMerged(current: map<string, Json>, observed: map<string, Json>, first: map<string, Json>, second: map<string, Json>)
    ensures forall key :: After(Keep, MergedRecord(MergedRecord(current, observed, first), observed, second), key)
                          == if ChangeOf(observed, second, key).Keep? then After(ChangeOf(observed, first, key), current, key)
                             else After(ChangeOf(observed, second, key), current, key)
  {
    MergedAt(current, observed, first);
    MergedAt(MergedRecord(current, observed, first), observed, second);
    hide MergedRecord;
  }

  // ---------------------------------------------------------------------------------------------
  // The merge of a value
  // ---------------------------------------------------------------------------------------------

  function Fields(current: Option<Json>): map<string, Json> {
    if current.Some? && current.value.Record? then current.value.fields else map[]
  }

  /** Two lists of ids or two records are merged; anything else is refused. */
  method MergeMetadataValue(current: Option<Json>, observed: Json, desired: Json) returns (r: Result<Json, MergeError>)
    ensures observed.Record? && desired.Record? ==> r == Ok(Record(MergedRecord(Fields(current), observed.fields, desired.fields)))
    ensures observed.List? && desired.List? && !(IsStringList(observed) && IsStringList(desired)) ==> r == Err(ObservedIdListRequired)
    ensures IsStringList(observed) && IsStringList(desired) ==>
              if current.Some? && !IsStringList(current.value) then r == Err(CurrentIdListRequired)
              else r == Ok(ListOf(MergedList(if current.Some? then Strings(current.value) else [],
                                             Strings(observed), Strings(desired))))
    ensures !(observed.Record? && desired.Record?) && !(observed.List? && desired.List?) ==> r == Err(ObservedCollectionRequired)
  {
    if observed.List? && desired.List? {
      if !IsStringList(observed) || !IsStringList(desired) {
        return Err(ObservedIdListRequired);
      }
      if current.Some? && !IsStringList(current.value) {
        return Err(CurrentIdListRequired);
      }
      var ids := MergeStringLists(if current.Some? then Strings(current.value) else [], Strings(observed), Strings(desired));
      return Ok(ListOf(ids));
    }
    if observed.Record? && desired.Record? {
      var fields := MergeRecords(Fields(current), observed.fields, desired.fields);
      return Ok(Record(fields));
    }
    return Err(ObservedCollectionRequired);
  }
}
