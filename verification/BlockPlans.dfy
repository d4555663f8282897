/**
 Block mutation plans: the difference between two block maps, as base and locale mutations.

 A plan is a patch. `PlanIsPatch` gives it its meaning: applied to what the store holds for the old
 blocks, it gives what the store must hold for the acknowledged blocks, exactly when the change set
 names every kept block whose locale data changed.
 */
module BlockPlans {
  import opened Wrappers
  import opened BlockDocument

  datatype BaseMutation =
    | UpsertBase(blockId: string, parentBlockId: Option<string>, containerSlot: string, position: int, kind: string,
                 baseData: Json, adapterData: Option<Json>)
    | MoveBase(blockId: string, parentBlockId: Option<string>, containerSlot: string, position: int, kind: string,
               adapterData: Option<Json>)
    | DeleteBase(blockId: string, kind: string, adapterData: Option<Json>)

  datatype LocaleMutation =
    | UpsertLocale(blockId: string, data: Json, kind: string, adapterData: Option<Json>)
    | DeleteLocale(blockId: string, kind: string, adapterData: Option<Json>)

  /** Every block is filed under its own id. */
  ghost predicate Keyed(blocks: BlockMap) {
    forall id :: id in blocks ==> blocks[id].blockId == id
  }

  // ---------------------------------------------------------------------------------------------
  // What the store holds, and what a mutation means
  // ---------------------------------------------------------------------------------------------

  /** A stored block. Adapter data is context for encoding a mutation, not part of the document. */
  datatype Stored = Stored(parentBlockId: Option<string>, containerSlot: string, position: int, kind: string,
                           baseData: Json, localeData: Option<Json>)

  type Store = map<string, Stored>

  function StoredOf(b: Block): Stored {
    Stored(b.parentBlockId, b.containerSlot, b.position, b.kind, b.baseData, b.localeData)
  }

  function StoreOf(blocks: BlockMap): Store {
    map id | id in blocks :: StoredOf(blocks[id])
  }

  function At(store: Store, id: string): Option<Stored> {
    if id in store then Some(store[id]) else None
  }

  /** Whether the store forgets the locale data of a block whose kind changes. The plans allow for both. */
  datatype KindRule = KeepsLocale | DropsLocale

  function BaseEffect(rule: KindRule, m: BaseMutation, before: Option<Stored>): Option<Stored> {
    match m
    case UpsertBase(_, parent, slot, position, kind, data, _) =>
      var locale := if before.Some? && (before.value.kind == kind || rule.KeepsLocale?) then before.value.localeData else None;
      Some(Stored(parent, slot, position, kind, data, locale))
    case MoveBase(_, parent, slot, position, _, _) =>
      if before.None? then None
      else Some(before.value.(parentBlockId := parent, containerSlot := slot, position := position))
    case DeleteBase(_, _, _) => None
  }

  function LocaleEffect(m: LocaleMutation, before: Option<Stored>): Option<Stored> {
    if before.None? then None
    else Some(before.value.(localeData := if m.UpsertLocale? then Some(m.data) else None))
  }

  function Put(store: Store, id: string, cell: Option<Stored>): Store {
    if cell.Some? then store[id := cell.value] else store - {id}
  }

  /** The store after the first `k` base mutations. */
  function ApplyBase(rule: KindRule, store: Store, ms: seq<BaseMutation>, k: nat): Store
    requires k <= |ms|
  {
    if k == 0 then store
    else
      var before := ApplyBase(rule, store, ms, k - 1);
      Put(before, ms[k - 1].blockId, BaseEffect(rule, ms[k - 1], At(before, ms[k - 1].blockId)))
  }

  function ApplyLocale(store: Store, ms: seq<LocaleMutation>, k: nat): Store
    requires k <= |ms|
  {
    if k == 0 then store
    else
      var before := ApplyLocale(store, ms, k - 1);
      Put(before, ms[k - 1].blockId, LocaleEffect(ms[k - 1], At(before, ms[k - 1].blockId)))
  }

  function Apply(rule: KindRule, store: Store, base: seq<BaseMutation>, locale: seq<LocaleMutation>): Store {
    ApplyLocale(ApplyBase(rule, store, base, |base|), locale, |locale|)
  }

  /** Whatever the order, the one base mutation of a block decides what the store holds for it. */
  lemma {:induction false} BaseCell(rule: KindRule, store: Store, ms: seq<BaseMutation>, k: nat, id: string,
                                    only: Option<BaseMutation>)
    requires k <= |ms|
    requires forall i :: 0 <= i < k && ms[i].blockId == id ==> only == Some(ms[i])
    ensures At(ApplyBase(rule, store, ms, k), id)
            == if exists i :: 0 <= i < k && ms[i].blockId == id then BaseEffect(rule, only.value, At(store, id))
               else At(store, id)
  {
    if k > 0 {
      BaseCell(rule, store, ms, k - 1, id, only);
    }
  }

  lemma {:induction false} LocaleCell(store: Store, ms: seq<LocaleMutation>, k: nat, id: string, only: Option<LocaleMutation>)
    requires k <= |ms|
    requires forall i :: 0 <= i < k && ms[i].blockId == id ==> only == Some(ms[i])
    ensures At(ApplyLocale(store, ms, k), id)
            == if exists i :: 0 <= i < k && ms[i].blockId == id then LocaleEffect(only.value, At(store, id))
               else At(store, id)
  {
    if k > 0 {
      LocaleCell(store, ms, k - 1, id, only);
    }
  }

  // ---------------------------------------------------------------------------------------------
  // The plan for one block
  // ---------------------------------------------------------------------------------------------

  function KindChanged(current: BlockMap, previous: BlockMap, id: string): bool {
    id in current && (id in previous ==> previous[id].kind != current[id].kind)
  }

  function BaseFor(current: BlockMap, previous: BlockMap, id: string): Option<BaseMutation> {
    if id !in current then
      if id in previous then Some(DeleteBase(id, previous[id].kind, previous[id].adapterData)) else None
    else
      var b := current[id];
      if id !in previous || KindChanged(current, previous, id) || previous[id].baseData != b.baseData then
        Some(UpsertBase(b.blockId, b.parentBlockId, b.containerSlot, b.position, b.kind, b.baseData, b.adapterData))
      else if Place(previous[id]) != Place(b) then
        Some(MoveBase(b.blockId, b.parentBlockId, b.containerSlot, b.position, b.kind, b.adapterData))
      else None
  }

  function LocaleMutationOf(b: Block): LocaleMutation {
    match b.localeData
    case None => DeleteLocale(b.blockId, b.kind, b.adapterData)
    case Some(data) => UpsertLocale(b.blockId, data, b.kind, b.adapterData)
  }

  function KindChangeLocale(current: BlockMap, previous: BlockMap, id: string): Option<LocaleMutation> {
    if id !in current || (current[id].localeData.None? && (id in previous ==> previous[id].localeData.None?)) then None
    else Some(LocaleMutationOf(current[id]))
  }

  function ChangedLocale(current: BlockMap, previous: BlockMap, changedKinds: set<string>, id: string): Option<LocaleMutation> {
    if id in changedKinds || id !in current || id !in previous || previous[id].localeData == current[id].localeData then None
    else Some(LocaleMutationOf(current[id]))
  }

  function IfSome<T>(o: Option<T>): seq<T> {
    if o.Some? then [o.value] else []
  }

  // ---------------------------------------------------------------------------------------------
  // The plan for a change set
  // ---------------------------------------------------------------------------------------------

  /** The unsorted base mutations of the first `k` affected blocks. */
  function BaseMutations(affected: seq<string>, current: BlockMap, previous: BlockMap, k: nat): seq<BaseMutation>
    requires k <= |affected|
  {
    if k == 0 then []
    else BaseMutations(affected, current, previous, k - 1) + IfSome(BaseFor(current, previous, affected[k - 1]))
  }

  function ChangedKinds(affected: seq<string>, current: BlockMap, previous: BlockMap): set<string> {
    set id | id in affected && KindChanged(current, previous, id)
  }

  function KindChangeLocales(affected: seq<string>, current: BlockMap, previous: BlockMap, k: nat): seq<LocaleMutation>
    requires k <= |affected|
  {
    if k == 0 then []
    else
      KindChangeLocales(affected, current, previous, k - 1)
      + if KindChanged(current, previous, affected[k - 1])
        then IfSome(KindChangeLocale(current, previous, affected[k - 1])) else []
  }

  function ChangedLocales(affected: seq<string>, current: BlockMap, previous: BlockMap, changedKinds: set<string>, k: nat)
    : seq<LocaleMutation>
    requires k <= |affected|
  {
    if k == 0 then []
    else
      ChangedLocales(affected, current, previous, changedKinds, k - 1)
      + IfSome(ChangedLocale(current, previous, changedKinds, affected[k - 1]))
  }

  /** The distinct elements of a list, in the order they first occur: a Set built from it. */
  function WithoutDuplicates(ids: seq<string>): (r: seq<string>)
    ensures forall id :: id in r <==> id in ids
    ensures forall i, j :: 0 <= i < j < |r| ==> r[i] != r[j]
  {
    if ids == [] then []
    else
      var init := WithoutDuplicates(ids[..|ids| - 1]);
      assert ids == ids[..|ids| - 1] + [ids[|ids| - 1]];
      if ids[|ids| - 1] in init then init else init + [ids[|ids| - 1]]
  }

  /** The mutations that satisfy `keep`, in order. */
  function Filter<T(==)>(ms: seq<T>, keep: T -> bool, k: nat): (r: seq<T>)
    requires k <= |ms|
  {
    if k == 0 then []
    else Filter(ms, keep, k - 1) + if keep(ms[k - 1]) then [ms[k - 1]] else []
  }

  /** Sorted by operation: moves, then upserts, then deletes, each group in its old order. */
  function ByOperation(ms: seq<BaseMutation>): seq<BaseMutation> {
    Filter(ms, (m: BaseMutation) => m.MoveBase?, |ms|)
    + Filter(ms, (m: BaseMutation) => m.UpsertBase?, |ms|)
    + Filter(ms, (m: BaseMutation) => m.DeleteBase?, |ms|)
  }

  type CompareIds = (string, string) -> int

  function InsertById(m: LocaleMutation, sorted: seq<LocaleMutation>, compare: CompareIds): (r: seq<LocaleMutation>)
    ensures |r| == |sorted| + 1
    ensures forall x :: x in r <==> x == m || x in sorted
  {
    if sorted == [] || compare(m.blockId, sorted[0].blockId) <= 0 then [m] + sorted
    else [sorted[0]] + InsertById(m, sorted[1..], compare)
  }

  /** Sorted by block id under `compare`, equal ids in their old order. */
  function ByBlockId(ms: seq<LocaleMutation>, compare: CompareIds): (r: seq<LocaleMutation>)
    ensures |r| == |ms|
    ensures forall x :: x in r <==> x in ms
  {
    if ms == [] then [] else InsertById(ms[0], ByBlockId(ms[1..], compare), compare)
  }

  function PlannedBase(affected: seq<string>, current: BlockMap, previous: BlockMap): seq<BaseMutation> {
    ByOperation(BaseMutations(affected, current, previous, |affected|))
  }

  function PlannedLocale(affectedBase: seq<string>, affectedLocale: seq<string>, current: BlockMap, previous: BlockMap,
                         compare: CompareIds): seq<LocaleMutation>
  {
    var kinds, ids := ChangedKinds(affectedBase, current, previous), WithoutDuplicates(affectedLocale);
    ByBlockId(KindChangeLocales(affectedBase, current, previous, |affectedBase|)
              + ChangedLocales(ids, current, previous, kinds, |ids|), compare)
  }

  method PlanBasePlacementMutations(affected: seq<string>, current: BlockMap, previous: BlockMap)
    returns (mutations: seq<BaseMutation>, changedKinds: set<string>)
    ensures mutations == PlannedBase(affected, current, previous)
    ensures changedKinds == ChangedKinds(affected, current, previous)
  {
    mutations, changedKinds := [], {};
    for k := 0 to |affected|
      invariant mutations == BaseMutations(affected, current, previous, k)
      invariant changedKinds == set id | id in affected[..k] && KindChanged(current, previous, id)
    {
      var id := affected[k];
      var planned := BaseFor(current, previous, id);
      if planned.Some? {
        mutations := mutations + [planned.value];
      }
      if KindChanged(current, previous, id) {
        changedKinds := changedKinds + {id};
      }
      assert affected[..k + 1] == affected[..k] + [id];
    }
    assert affected[..|affected|] == affected;
    mutations := ByOperation(mutations);
  }

  method PlanLocaleMutations(affectedBase: seq<string>, affectedLocale: seq<string>, changedKinds: set<string>,
                             current: BlockMap, previous: BlockMap, compare: CompareIds)
    returns (mutations: seq<LocaleMutation>)
    requires changedKinds == ChangedKinds(affectedBase, current, previous)
    ensures mutations == PlannedLocale(affectedBase, affectedLocale, current, previous, compare)
  {
    mutations := [];
    for k := 0 to |affectedBase|
      invariant mutations == KindChangeLocales(affectedBase, current, previous, k)
    {
      if affectedBase[k] in changedKinds {
        mutations := mutations + IfSome(KindChangeLocale(current, previous, affectedBase[k]));
      }
    }
    ghost var forKinds := mutations;
    var ids := WithoutDuplicates(affectedLocale);
    for k := 0 to |ids|
      invariant mutations == forKinds + ChangedLocales(ids, current, previous, changedKinds, k)
    {
      var mutation := ChangedLocale(current, previous, changedKinds, ids[k]);
      if mutation.Some? {
        mutations := mutations + [mutation.value];
      }
    }
    mutations := ByBlockId(mutations, compare);
  }

  // ---------------------------------------------------------------------------------------------
  // What a plan contains
  // ---------------------------------------------------------------------------------------------

  lemma {:induction false} FilterMembers<T>(ms: seq<T>, keep: T -> bool, k: nat)
    requires k <= |ms|
    ensures forall m :: m in Filter(ms, keep, k) <==> m in ms[..k] && keep(m)
  {
    if k > 0 {
      FilterMembers(ms, keep, k - 1);
      assert ms[..k] == ms[..k - 1] + [ms[k - 1]];
    }
  }

  lemma ByOperationMembers(ms: seq<BaseMutation>)
    ensures forall m :: m in ByOperation(ms) <==> m in ms
  {
    FilterMembers(ms, (m: BaseMutation) => m.MoveBase?, |ms|);
    FilterMembers(ms, (m: BaseMutation) => m.UpsertBase?, |ms|);
    FilterMembers(ms, (m: BaseMutation) => m.DeleteBase?, |ms|);
    assert ms[..|ms|] == ms;
  }

  lemma {:induction false} BaseMutationsMembers(affected: seq<string>, current: BlockMap, previous: BlockMap, k: nat)
    requires k <= |affected| && Keyed(current)
    ensures forall m :: m in BaseMutations(affected, current, previous, k) <==>
                        m.blockId in affected[..k] && BaseFor(current, previous, m.blockId) == Some(m)
  {
    if k > 0 {
      BaseMutationsMembers(affected, current, previous, k - 1);
      assert affected[..k] == affected[..k - 1] + [affected[k - 1]];
    }
  }

  /** A plan holds exactly the base mutations of the affected blocks. */
  lemma PlannedBaseMembers(affected: seq<string>, current: BlockMap, previous: BlockMap)
    requires Keyed(current)
    ensures forall m :: m in PlannedBase(affected, current, previous) <==>
                        m.blockId in affected && BaseFor(current, previous, m.blockId) == Some(m)
  {
    BaseMutationsMembers(affected, current, previous, |affected|);
    ByOperationMembers(BaseMutations(affected, current, previous, |affected|));
    assert affected[..|affected|] == affected;
  }

  /** The locale mutation of a block, if the plan has one. */
  function LocaleFor(affectedBase: seq<string>, affectedLocale: seq<string>, current: BlockMap, previous: BlockMap,
                     id: string): Option<LocaleMutation>
  {
    var kinds := ChangedKinds(affectedBase, current, previous);
    if id in kinds then KindChangeLocale(current, previous, id)
    else if id in affectedLocale then ChangedLocale(current, previous, kinds, id)
    else None
  }

  lemma {:induction false} KindChangeLocalesMembers(affected: seq<string>, current: BlockMap, previous: BlockMap, k: nat)
    requires k <= |affected| && Keyed(current)
    ensures forall m :: m in KindChangeLocales(affected, current, previous, k) <==>
                        && m.blockId in affected[..k] && KindChanged(current, previous, m.blockId)
                        && KindChangeLocale(current, previous, m.blockId) == Some(m)
  {
    if k > 0 {
      KindChangeLocalesMembers(affected, current, previous, k - 1);
      assert affected[..k] == affected[..k - 1] + [affected[k - 1]];
    }
  }

  lemma {:induction false} ChangedLocalesMembers(affected: seq<string>, current: BlockMap, previous: BlockMap,
                                                 changedKinds: set<string>, k: nat)
    requires k <= |affected| && Keyed(current)
    ensures forall m :: m in ChangedLocales(affected, current, previous, changedKinds, k) <==>
                        m.blockId in affected[..k] && ChangedLocale(current, previous, changedKinds, m.blockId) == Some(m)
  {
    if k > 0 {
      ChangedLocalesMembers(affected, current, previous, changedKinds, k - 1);
      assert affected[..k] == affected[..k - 1] + [affected[k - 1]];
    }
  }

  lemma PlannedLocaleMembers(affectedBase: seq<string>, affectedLocale: seq<string>, current: BlockMap,
                             previous: BlockMap, compare: CompareIds)
    requires Keyed(current)
    ensures forall m :: m in PlannedLocale(affectedBase, affectedLocale, current, previous, compare) <==>
                        LocaleFor(affectedBase, affectedLocale, current, previous, m.blockId) == Some(m)
  {
    var kinds, ids := ChangedKinds(affectedBase, current, previous), WithoutDuplicates(affectedLocale);
    KindChangeLocalesMembers(affectedBase, current, previous, |affectedBase|);
    ChangedLocalesMembers(ids, current, previous, kinds, |ids|);
    assert affectedBase[..|affectedBase|] == affectedBase && ids[..|ids|] == ids;
  }

  lemma LocaleForIsOfBlock(affectedBase: seq<string>, affectedLocale: seq<string>, current: BlockMap, previous: BlockMap, id: string)
    requires Keyed(current)
    ensures var m := LocaleFor(affectedBase, affectedLocale, current, previous, id); m.Some? ==> m.value.blockId == id
    ensures var m := BaseFor(current, previous, id); m.Some? ==> m.value.blockId == id
  {
  }

  /** The block a mutation is about: as it is now, or as it was if it is gone. */
  function Subject(current: BlockMap, previous: BlockMap, id: string): Option<Block> {
    if id in current then Some(current[id]) else if id in previous then Some(previous[id]) else None
  }

  /** Every mutation says the kind of its block and brings the adapter data the store needs to encode it. */
  lemma MutationsCarryTheirBlock(affectedBase: seq<string>, affectedLocale: seq<string>, current: BlockMap, previous: BlockMap,
                                 compare: CompareIds)
    requires Keyed(current)
    ensures forall m :: m in PlannedBase(affectedBase, current, previous) ==>
              var b := Subject(current, previous, m.blockId);
              b.Some? && m.kind == b.value.kind && m.adapterData == b.value.adapterData
    ensures forall m :: m in PlannedLocale(affectedBase, affectedLocale, current, previous, compare) ==>
              m.blockId in current && m.kind == current[m.blockId].kind && m.adapterData == current[m.blockId].adapterData
  {
    PlannedBaseMembers(affectedBase, current, previous);
    PlannedLocaleMembers(affectedBase, affectedLocale, current, previous, compare);
    hide PlannedBase, PlannedLocale, Keyed;
  }

  // ---------------------------------------------------------------------------------------------
  // The order of a plan
  // ---------------------------------------------------------------------------------------------

  /** Moves, then upserts, then deletes. */
  function OperationRank(m: BaseMutation): nat {
    match m
    case MoveBase(_, _, _, _, _, _) => 0
    case UpsertBase(_, _, _, _, _, _, _) => 1
    case DeleteBase(_, _, _) => 2
  }

  /** The one id stands before the other in the list. */
  ghost predicate StandsBefore(ids: seq<string>, first: string, second: string) {
    exists a, b :: 0 <= a < b < |ids| && ids[a] == first && ids[b] == second
  }

  ghost predicate InListOrder(ids: seq<string>, ms: seq<BaseMutation>) {
    forall i, j :: 0 <= i < j < |ms| ==> StandsBefore(ids, ms[i].blockId, ms[j].blockId)
  }

  lemma {:induction false} BaseMutationsInOrder(affected: seq<string>, current: BlockMap, previous: BlockMap, k: nat)
    requires k <= |affected| && Keyed(current)
    ensures InListOrder(affected, BaseMutations(affected, current, previous, k))
  {
    if k > 0 {
      BaseMutationsInOrder(affected, current, previous, k - 1);
      BaseMutationsMembers(affected, current, previous, k - 1);
      var before, mutation := BaseMutations(affected, current, previous, k - 1), BaseFor(current, previous, affected[k - 1]);
      if mutation.Some? {
        LocaleForIsOfBlock(affected, [], current, previous, affected[k - 1]);
        forall i | 0 <= i < |before|
          ensures StandsBefore(affected, before[i].blockId, mutation.value.blockId)
        {
          assert before[i] in before;
          var a :| 0 <= a < k - 1 && affected[..k - 1][a] == before[i].blockId;
          assert affected[a] == before[i].blockId;
        }
      }
      hide StandsBefore, BaseFor;
    }
  }

  lemma {:induction false} FilterInOrder(ids: seq<string>, ms: seq<BaseMutation>, keep: BaseMutation -> bool, k: nat)
    requires k <= |ms| && InListOrder(ids, ms)
    ensures InListOrder(ids, Filter(ms, keep, k))
  {
    if k > 0 {
      var before := Filter(ms, keep, k - 1);
      FilterInOrder(ids, ms, keep, k - 1);
      FilterMembers(ms, keep, k - 1);
      hide StandsBefore;
      forall i | 0 <= i < |before|
        ensures StandsBefore(ids, before[i].blockId, ms[k - 1].blockId)
      {
        assert before[i] in before;
        var a :| 0 <= a < k - 1 && ms[..k - 1][a] == before[i];
        assert ms[a] == before[i];
      }
    }
  }

  lemma RanksOf(ms: seq<BaseMutation>, rank: nat)
    requires rank < 3
    ensures var part := Filter(ms, (m: BaseMutation) => OperationRank(m) == rank, |ms|);
            forall i :: 0 <= i < |part| ==> OperationRank(part[i]) == rank
  {
    var part := Filter(ms, (m: BaseMutation) => OperationRank(m) == rank, |ms|);
    FilterMembers(ms, (m: BaseMutation) => OperationRank(m) == rank, |ms|);
    assert forall i :: 0 <= i < |part| ==> part[i] in part;
  }

  lemma {:induction false} SameFilter(ms: seq<BaseMutation>, a: BaseMutation -> bool, b: BaseMutation -> bool, k: nat)
    requires k <= |ms| && forall m :: a(m) == b(m)
    ensures Filter(ms, a, k) == Filter(ms, b, k)
  {
    if k > 0 {
      SameFilter(ms, a, b, k - 1);
    }
  }

  /** One part follows another. */
  lemma PartsInOrder(ids: seq<string>, parts: seq<BaseMutation>, part: seq<BaseMutation>, rank: nat)
    requires Ordered(ids, parts) && InListOrder(ids, part)
    requires forall i :: 0 <= i < |parts| ==> OperationRank(parts[i]) < rank
    requires forall i :: 0 <= i < |part| ==> OperationRank(part[i]) == rank
    ensures Ordered(ids, parts + part)
  {
    hide StandsBefore, OperationRank;
  }

  /** By operation, and those of one operation in the order of the list. */
  ghost predicate Ordered(ids: seq<string>, ms: seq<BaseMutation>) {
    forall i, j :: 0 <= i < j < |ms| ==>
      OperationRank(ms[i]) < OperationRank(ms[j])
      || (OperationRank(ms[i]) == OperationRank(ms[j]) && StandsBefore(ids, ms[i].blockId, ms[j].blockId))
  }

  /** A plan moves, then upserts, then deletes, each in the order of the affected ids. */
  lemma {:induction false} OperationsInOrder(affected: seq<string>, current: BlockMap, previous: BlockMap)
    requires Keyed(current)
    ensures Ordered(affected, PlannedBase(affected, current, previous))
  {
    var ms := BaseMutations(affected, current, previous, |affected|);
    BaseMutationsInOrder(affected, current, previous, |affected|);
    var moves := Filter(ms, (m: BaseMutation) => OperationRank(m) == 0, |ms|);
    var upserts := Filter(ms, (m: BaseMutation) => OperationRank(m) == 1, |ms|);
    var deletes := Filter(ms, (m: BaseMutation) => OperationRank(m) == 2, |ms|);
    SameFilter(ms, (m: BaseMutation) => m.MoveBase?, (m: BaseMutation) => OperationRank(m) == 0, |ms|);
    SameFilter(ms, (m: BaseMutation) => m.UpsertBase?, (m: BaseMutation) => OperationRank(m) == 1, |ms|);
    SameFilter(ms, (m: BaseMutation) => m.DeleteBase?, (m: BaseMutation) => OperationRank(m) == 2, |ms|);
    assert ByOperation(ms) == [] + moves + upserts + deletes;
    hide ByOperation, BaseMutations, InListOrder, Ordered, StandsBefore;
    AddRank(affected, ms, [], 0);
    AddRank(affected, ms, [] + moves, 1);
    AddRank(affected, ms, [] + moves + upserts, 2);
  }

  lemma AddRank(ids: seq<string>, ms: seq<BaseMutation>, before: seq<BaseMutation>, rank: nat)
    requires rank < 3 && InListOrder(ids, ms)
    requires Ordered(ids, before) && forall i :: 0 <= i < |before| ==> OperationRank(before[i]) < rank
    ensures var after := before + Filter(ms, (m: BaseMutation) => OperationRank(m) == rank, |ms|);
            Ordered(ids, after) && forall i :: 0 <= i < |after| ==> OperationRank(after[i]) < rank + 1
  {
    hide Ordered, InListOrder, OperationRank, Filter;
    FilterInOrder(ids, ms, (m: BaseMutation) => OperationRank(m) == rank, |ms|);
    RanksOf(ms, rank);
    PartsInOrder(ids, before, Filter(ms, (m: BaseMutation) => OperationRank(m) == rank, |ms|), rank);
  }

  /** `compare` puts any two ids in an order, and orders chains of them. */
  ghost predicate OrdersIds(compare: CompareIds) {
    && (forall x, y {:trigger compare(x, y)} :: compare(x, y) <= 0 || compare(y, x) <= 0)
    && (forall x, y, z {:trigger compare(x, y), compare(y, z)} :: compare(x, y) <= 0 && compare(y, z) <= 0 ==> compare(x, z) <= 0)
  }

  ghost predicate SortedById(ms: seq<LocaleMutation>, compare: CompareIds) {
    forall i, j :: 0 <= i < j < |ms| ==> compare(ms[i].blockId, ms[j].blockId) <= 0
  }

  lemma SortedFront(m: LocaleMutation, rest: seq<LocaleMutation>, compare: CompareIds)
    requires SortedById(rest, compare) && forall x :: x in rest ==> compare(m.blockId, x.blockId) <= 0
    ensures SortedById([m] + rest, compare)
  {
    assert forall j :: 0 <= j < |rest| ==> rest[j] in rest;
  }

  lemma SortedRest(sorted: seq<LocaleMutation>, compare: CompareIds)
    requires sorted != [] && SortedById(sorted, compare)
    ensures SortedById(sorted[1..], compare)
    ensures forall x :: x in sorted[1..] ==> compare(sorted[0].blockId, x.blockId) <= 0
  {
  }

  /** What orders after the head of a list orders after what comes before the head. */
  lemma BeforeAll(m: LocaleMutation, sorted: seq<LocaleMutation>, compare: CompareIds)
    requires OrdersIds(compare) && SortedById(sorted, compare)
    requires sorted != [] ==> compare(m.blockId, sorted[0].blockId) <= 0
    ensures forall x :: x in sorted ==> compare(m.blockId, x.blockId) <= 0
  {
    if sorted != [] {
      SortedRest(sorted, compare);
      assert sorted == [sorted[0]] + sorted[1..];
      hide SortedById;
    }
  }

  lemma Before(compare: CompareIds, x: string, y: string)
    requires OrdersIds(compare) && compare(x, y) > 0
    ensures compare(y, x) <= 0
  {
  }

  lemma {:induction false} InsertSorted(m: LocaleMutation, sorted: seq<LocaleMutation>, compare: CompareIds)
    requires OrdersIds(compare) && SortedById(sorted, compare)
    ensures SortedById(InsertById(m, sorted, compare), compare)
  {
    hide SortedById, OrdersIds;
    if sorted == [] || compare(m.blockId, sorted[0].blockId) <= 0 {
      BeforeAll(m, sorted, compare);
      SortedFront(m, sorted, compare);
    } else {
      SortedRest(sorted, compare);
      InsertSorted(m, sorted[1..], compare);
      Before(compare, m.blockId, sorted[0].blockId);
      SortedFront(sorted[0], InsertById(m, sorted[1..], compare), compare);
    }
  }

  lemma {:induction false} InsertKeepsAll(m: LocaleMutation, sorted: seq<LocaleMutation>, compare: CompareIds)
    ensures multiset(InsertById(m, sorted, compare)) == multiset(sorted) + multiset{m}
  {
    if sorted != [] && compare(m.blockId, sorted[0].blockId) > 0 {
      InsertKeepsAll(m, sorted[1..], compare);
      assert sorted == [sorted[0]] + sorted[1..];
    }
  }

  lemma {:induction false} ByBlockIdSorts(ms: seq<LocaleMutation>, compare: CompareIds)
    requires OrdersIds(compare)
    ensures SortedById(ByBlockId(ms, compare), compare)
  {
    if ms != [] {
      ByBlockIdSorts(ms[1..], compare);
      InsertSorted(ms[0], ByBlockId(ms[1..], compare), compare);
      hide SortedById, OrdersIds;
    }
  }

  lemma {:induction false} ByBlockIdKeepsAll(ms: seq<LocaleMutation>, compare: CompareIds)
    ensures multiset(ByBlockId(ms, compare)) == multiset(ms)
  {
    if ms != [] {
      ByBlockIdKeepsAll(ms[1..], compare);
      InsertKeepsAll(ms[0], ByBlockId(ms[1..], compare), compare);
      assert ms == [ms[0]] + ms[1..];
    }
  }

  /** The locale mutations come in the order of their ids; sorting neither drops nor repeats one. */
  lemma {:induction false} LocalesInOrder(affectedBase: seq<string>, affectedLocale: seq<string>, current: BlockMap, previous: BlockMap,
                                          compare: CompareIds)
    requires OrdersIds(compare)
    ensures SortedById(PlannedLocale(affectedBase, affectedLocale, current, previous, compare), compare)
    ensures var kinds, ids := ChangedKinds(affectedBase, current, previous), WithoutDuplicates(affectedLocale);
            multiset(PlannedLocale(affectedBase, affectedLocale, current, previous, compare))
            == multiset(KindChangeLocales(affectedBase, current, previous, |affectedBase|)
                        + ChangedLocales(ids, current, previous, kinds, |ids|))
  {
    var kinds, ids := ChangedKinds(affectedBase, current, previous), WithoutDuplicates(affectedLocale);
    var unsorted := KindChangeLocales(affectedBase, current, previous, |affectedBase|)
                    + ChangedLocales(ids, current, previous, kinds, |ids|);
    ByBlockIdSorts(unsorted, compare);
    ByBlockIdKeepsAll(unsorted, compare);
    hide SortedById;
  }

  /** The one id occurs before the other first does. */
  ghost predicate OccursFirst(ids: seq<string>, first: string, second: string) {
    exists a :: 0 <= a < |ids| && ids[a] == first && second !in ids[..a + 1]
  }

  lemma OccursFirstLonger(ids: seq<string>, id: string, first: string, second: string)
    requires OccursFirst(ids, first, second)
    ensures OccursFirst(ids + [id], first, second)
  {
    var a :| 0 <= a < |ids| && ids[a] == first && second !in ids[..a + 1];
    assert (ids + [id])[..a + 1] == ids[..a + 1];
  }

  lemma OccursWhenNew(ids: seq<string>, first: string, second: string)
    requires first in ids && second !in ids
    ensures OccursFirst(ids, first, second)
  {
    var a: nat :| 0 <= a < |ids| && ids[a] == first;
    assert forall x :: x in ids[..a + 1] ==> x in ids;
  }

  ghost predicate ByFirstOccurrence(ids: seq<string>, r: seq<string>) {
    forall i, j :: 0 <= i < j < |r| ==> OccursFirst(ids, r[i], r[j])
  }

  lemma OccurrencesLonger(ids: seq<string>, id: string, r: seq<string>)
    requires ByFirstOccurrence(ids, r) && forall x :: x in r <==> x in ids
    ensures ByFirstOccurrence(ids + [id], r)
    ensures id !in ids ==> ByFirstOccurrence(ids + [id], r + [id])
  {
    forall i, j | 0 <= i < j < |r|
      ensures OccursFirst(ids + [id], r[i], r[j])
    {
      OccursFirstLonger(ids, id, r[i], r[j]);
    }
    if id !in ids {
      forall i | 0 <= i < |r|
        ensures OccursFirst(ids + [id], r[i], id)
      {
        assert r[i] in r;
        OccursWhenNew(ids, r[i], id);
        OccursFirstLonger(ids, id, r[i], id);
      }
    }
    hide OccursFirst;
  }

  /** Without duplicates the ids stand in the order in which each first occurs. */
  lemma {:induction false} FirstOccurrences(ids: seq<string>)
    ensures ByFirstOccurrence(ids, WithoutDuplicates(ids))
  {
    if ids != [] {
      FirstOccurrences(ids[..|ids| - 1]);
      OccurrencesLonger(ids[..|ids| - 1], ids[|ids| - 1], WithoutDuplicates(ids[..|ids| - 1]));
      assert ids == ids[..|ids| - 1] + [ids[|ids| - 1]];
      hide ByFirstOccurrence;
    }
  }

  // ---------------------------------------------------------------------------------------------
  // A plan is a patch
  // ---------------------------------------------------------------------------------------------

  /** What the baseline holds once the change set is acknowledged. */
  function Acknowledged(blocks: BlockMap, affectedBase: seq<string>, affectedLocale: seq<string>, current: BlockMap): BlockMap {
    map id | id in blocks.Keys + current.Keys && (if id in affectedBase then id in current else id in blocks) ::
      if id in affectedBase then current[id]
      else if id in affectedLocale && id in current then blocks[id].(localeData := current[id].localeData)
      else blocks[id]
  }

  /** The change set names every kept block whose locale data changed. */
  predicate LocaleCovered(blocks: BlockMap, affectedBase: seq<string>, affectedLocale: seq<string>, current: BlockMap) {
    forall id | id in affectedBase ::
      id in blocks && id in current && blocks[id].kind == current[id].kind && blocks[id].localeData != current[id].localeData
      ==> id in affectedLocale
  }

  /** What the plan leaves of one block. */
  function CellAfter(rule: KindRule, affectedBase: seq<string>, affectedLocale: seq<string>, current: BlockMap,
                     previous: BlockMap, id: string): Option<Stored>
  {
    var before := At(StoreOf(previous), id);
    var base := if id in affectedBase then BaseFor(current, previous, id) else None;
    var middle := if base.Some? then BaseEffect(rule, base.value, before) else before;
    var locale := LocaleFor(affectedBase, affectedLocale, current, previous, id);
    if locale.Some? then LocaleEffect(locale.value, middle) else middle
  }

  lemma PlanCell(rule: KindRule, affectedBase: seq<string>, affectedLocale: seq<string>, current: BlockMap,
                 previous: BlockMap, compare: CompareIds, id: string)
    requires Keyed(current)
    ensures At(Apply(rule, StoreOf(previous), PlannedBase(affectedBase, current, previous),
                     PlannedLocale(affectedBase, affectedLocale, current, previous, compare)), id)
            == CellAfter(rule, affectedBase, affectedLocale, current, previous, id)
  {
    var base := PlannedBase(affectedBase, current, previous);
    var locale := PlannedLocale(affectedBase, affectedLocale, current, previous, compare);
    var baseOnly := if id in affectedBase then BaseFor(current, previous, id) else None;
    var localeOnly := LocaleFor(affectedBase, affectedLocale, current, previous, id);
    PlannedBaseMembers(affectedBase, current, previous);
    PlannedLocaleMembers(affectedBase, affectedLocale, current, previous, compare);
    LocaleForIsOfBlock(affectedBase, affectedLocale, current, previous, id);
    hide BaseFor, LocaleFor, PlannedBase, PlannedLocale, BaseEffect, LocaleEffect, Keyed, StoreOf;
    var store := StoreOf(previous);
    OnlyOne(base, baseOnly, id);
    BaseCell(rule, store, base, |base|, id, baseOnly);
    OnlyOneLocale(locale, localeOnly, id);
    LocaleCell(ApplyBase(rule, store, base, |base|), locale, |locale|, id, localeOnly);
  }

  lemma OnlyOne(ms: seq<BaseMutation>, only: Option<BaseMutation>, id: string)
    requires forall m :: m in ms && m.blockId == id ==> only == Some(m)
    requires only.Some? ==> only.value in ms && only.value.blockId == id
    ensures forall i :: 0 <= i < |ms| && ms[i].blockId == id ==> only == Some(ms[i])
    ensures (exists i :: 0 <= i < |ms| && ms[i].blockId == id) <==> only.Some?
  {
    assert forall i :: 0 <= i < |ms| ==> ms[i] in ms;
    if only.Some? {
      var i :| 0 <= i < |ms| && ms[i] == only.value;
    }
  }

  lemma OnlyOneLocale(ms: seq<LocaleMutation>, only: Option<LocaleMutation>, id: string)
    requires forall m :: m in ms && m.blockId == id ==> only == Some(m)
    requires only.Some? ==> only.value in ms && only.value.blockId == id
    ensures forall i :: 0 <= i < |ms| && ms[i].blockId == id ==> only == Some(ms[i])
    ensures (exists i :: 0 <= i < |ms| && ms[i].blockId == id) <==> only.Some?
  {
    assert forall i :: 0 <= i < |ms| ==> ms[i] in ms;
    if only.Some? {
      var i :| 0 <= i < |ms| && ms[i] == only.value;
    }
  }

  /** For one block: the plan gives what is acknowledged, unless its locale data changed unnamed. */
  lemma CellIsAcknowledged(rule: KindRule, affectedBase: seq<string>, affectedLocale: seq<string>, current: BlockMap,
                           previous: BlockMap, id: string)
    requires Keyed(current)
    ensures CellAfter(rule, affectedBase, affectedLocale, current, previous, id)
            == At(StoreOf(Acknowledged(previous, affectedBase, affectedLocale, current)), id)
            <==> !(&& id in affectedBase && id !in affectedLocale && id in previous && id in current
                   && previous[id].kind == current[id].kind && previous[id].localeData != current[id].localeData)
  {
  }

  lemma StoresEqual(a: Store, b: Store)
    ensures a == b <==> forall id :: At(a, id) == At(b, id)
  {
    if forall id :: At(a, id) == At(b, id) {
      forall id
        ensures id in a <==> id in b
        ensures id in a ==> a[id] == b[id]
      {
        assert At(a, id) == At(b, id);
      }
      assert a == b;
    }
  }

  /**
   Applied to what the store holds for the old blocks, the plan gives what the store must hold for the
   acknowledged ones: exactly when the change set names every kept block whose locale data changed.
   */
  lemma PlanIsPatch(rule: KindRule, affectedBase: seq<string>, affectedLocale: seq<string>, current: BlockMap,
                    previous: BlockMap, compare: CompareIds)
    requires Keyed(current)
    ensures Apply(rule, StoreOf(previous), PlannedBase(affectedBase, current, previous),
                  PlannedLocale(affectedBase, affectedLocale, current, previous, compare))
            == StoreOf(Acknowledged(previous, affectedBase, affectedLocale, current))
            <==> LocaleCovered(previous, affectedBase, affectedLocale, current)
  {
    var after := Apply(rule, StoreOf(previous), PlannedBase(affectedBase, current, previous),
                       PlannedLocale(affectedBase, affectedLocale, current, previous, compare));
    var expected := StoreOf(Acknowledged(previous, affectedBase, affectedLocale, current));
    StoresEqual(after, expected);
    forall id
      ensures At(after, id) == At(expected, id)
              <==> !(&& id in affectedBase && id !in affectedLocale && id in previous && id in current
                     && previous[id].kind == current[id].kind && previous[id].localeData != current[id].localeData)
    {
      PlanCell(rule, affectedBase, affectedLocale, current, previous, compare, id);
      CellIsAcknowledged(rule, affectedBase, affectedLocale, current, previous, id);
    }
  }

  // ---------------------------------------------------------------------------------------------
  // A plan is small
  // ---------------------------------------------------------------------------------------------

  /** A block has a base mutation exactly when its base data, kind, place or presence changed. */
  lemma BaseMutationMeansChange(current: BlockMap, previous: BlockMap, id: string)
    ensures BaseFor(current, previous, id).None?
            <==> (id in current <==> id in previous)
                 && (id in current ==> StoredOf(current[id]).(localeData := None) == StoredOf(previous[id]).(localeData := None))
  {
  }

  /** A named block of unchanged kind has a locale mutation exactly when its locale data changed. */
  lemma LocaleMutationMeansChange(affectedBase: seq<string>, affectedLocale: seq<string>, current: BlockMap,
                                  previous: BlockMap, id: string)
    requires id in current && id in previous && previous[id].kind == current[id].kind && id in affectedLocale
    ensures LocaleFor(affectedBase, affectedLocale, current, previous, id).None?
            <==> current[id].localeData == previous[id].localeData
  {
  }

  /** A new block, or one of another kind, has a locale mutation exactly when it has or had locale data. */
  lemma LocaleMutationOfNewKind(affectedBase: seq<string>, affectedLocale: seq<string>, current: BlockMap,
                                previous: BlockMap, id: string)
    requires id in current && id in affectedBase && (id in previous ==> previous[id].kind != current[id].kind)
    ensures LocaleFor(affectedBase, affectedLocale, current, previous, id).Some?
            <==> current[id].localeData.Some? || (id in previous && previous[id].localeData.Some?)
  {
  }

  ghost predicate OneEach(ms: seq<BaseMutation>) {
    forall i, j :: 0 <= i < j < |ms| ==> ms[i].blockId != ms[j].blockId
  }

  lemma OneEachSnoc(ms: seq<BaseMutation>, m: BaseMutation)
    requires OneEach(ms) && forall x :: x in ms ==> x.blockId != m.blockId
    ensures OneEach(ms + [m])
  {
    assert forall i :: 0 <= i < |ms| ==> ms[i] in ms;
  }

  lemma {:induction false} BaseMutationsOneEach(affected: seq<string>, current: BlockMap, previous: BlockMap, k: nat)
    requires k <= |affected| && Keyed(current)
    requires forall i, j :: 0 <= i < j < |affected| ==> affected[i] != affected[j]
    ensures OneEach(BaseMutations(affected, current, previous, k))
  {
    if k > 0 {
      var before, mutation := BaseMutations(affected, current, previous, k - 1), BaseFor(current, previous, affected[k - 1]);
      BaseMutationsOneEach(affected, current, previous, k - 1);
      BaseMutationsMembers(affected, current, previous, k - 1);
      if mutation.Some? {
        LocaleForIsOfBlock(affected, [], current, previous, affected[k - 1]);
        hide OneEach, Keyed, BaseFor;
        OneEachSnoc(before, mutation.value);
      }
    }
  }

  lemma {:induction false} FilterOneEach(ms: seq<BaseMutation>, keep: BaseMutation -> bool, k: nat)
    requires k <= |ms| && OneEach(ms)
    ensures OneEach(Filter(ms, keep, k))
  {
    if k > 0 {
      var before := Filter(ms, keep, k - 1);
      FilterOneEach(ms, keep, k - 1);
      FilterMembers(ms, keep, k - 1);
      forall i | 0 <= i < |before|
        ensures before[i].blockId != ms[k - 1].blockId
      {
        assert before[i] in before;
      }
    }
  }

  lemma OneEachConcat(ms: seq<BaseMutation>, a: seq<BaseMutation>, b: seq<BaseMutation>)
    requires OneEach(ms) && OneEach(a) && OneEach(b)
    requires forall m :: m in a || m in b ==> m in ms
    requires forall m :: m in a ==> m !in b
    ensures OneEach(a + b)
  {
    forall i, j | 0 <= i < |a| && 0 <= j < |b|
      ensures a[i].blockId != b[j].blockId
    {
      assert a[i] in a && b[j] in b;
      var x :| 0 <= x < |ms| && ms[x] == a[i];
      var y :| 0 <= y < |ms| && ms[y] == b[j];
    }
  }

  lemma AtMostOneBaseMutation(affected: seq<string>, current: BlockMap, previous: BlockMap)
    requires Keyed(current)
    requires forall i, j :: 0 <= i < j < |affected| ==> affected[i] != affected[j]
    ensures OneEach(PlannedBase(affected, current, previous))
  {
    var ms := BaseMutations(affected, current, previous, |affected|);
    var isMove, isUpsert, isDelete := (m: BaseMutation) => m.MoveBase?, (m: BaseMutation) => m.UpsertBase?, (m: BaseMutation) => m.DeleteBase?;
    BaseMutationsOneEach(affected, current, previous, |affected|);
    FilterOneEach(ms, isMove, |ms|);
    FilterOneEach(ms, isUpsert, |ms|);
    FilterOneEach(ms, isDelete, |ms|);
    FilterMembers(ms, isMove, |ms|);
    FilterMembers(ms, isUpsert, |ms|);
    FilterMembers(ms, isDelete, |ms|);
    assert ms[..|ms|] == ms;
    var moves, upserts, deletes := Filter(ms, isMove, |ms|), Filter(ms, isUpsert, |ms|), Filter(ms, isDelete, |ms|);
    assert ByOperation(ms) == moves + upserts + deletes;
    hide Filter, OneEach, BaseMutations;
    OneEachConcat(ms, moves, upserts);
    OneEachConcat(ms, moves + upserts, deletes);
  }

  ghost predicate LocaleOneEach(ms: seq<LocaleMutation>) {
    forall i, j :: 0 <= i < j < |ms| ==> ms[i].blockId != ms[j].blockId
  }

  lemma LocaleSnoc(ms: seq<LocaleMutation>, m: LocaleMutation)
    requires LocaleOneEach(ms) && forall x :: x in ms ==> x.blockId != m.blockId
    ensures LocaleOneEach(ms + [m])
  {
    assert forall i :: 0 <= i < |ms| ==> ms[i] in ms;
  }

  lemma {:induction false} KindChangeLocalesOneEach(affected: seq<string>, current: BlockMap, previous: BlockMap, k: nat)
    requires k <= |affected| && Keyed(current)
    requires forall i, j :: 0 <= i < j < |affected| ==> affected[i] != affected[j]
    ensures LocaleOneEach(KindChangeLocales(affected, current, previous, k))
  {
    if k > 0 {
      KindChangeLocalesOneEach(affected, current, previous, k - 1);
      KindChangeLocalesMembers(affected, current, previous, k - 1);
      var mutation := KindChangeLocale(current, previous, affected[k - 1]);
      if KindChanged(current, previous, affected[k - 1]) && mutation.Some? {
        LocaleSnoc(KindChangeLocales(affected, current, previous, k - 1), mutation.value);
      }
    }
  }

  lemma {:induction false} AllLocalesOneEach(kindLocales: seq<LocaleMutation>, ids: seq<string>, current: BlockMap,
                                             previous: BlockMap, changedKinds: set<string>, k: nat)
    requires k <= |ids| && Keyed(current) && LocaleOneEach(kindLocales)
    requires forall i, j :: 0 <= i < j < |ids| ==> ids[i] != ids[j]
    requires forall m :: m in kindLocales ==> m.blockId in changedKinds
    ensures LocaleOneEach(kindLocales + ChangedLocales(ids, current, previous, changedKinds, k))
  {
    if k == 0 {
      assert kindLocales + ChangedLocales(ids, current, previous, changedKinds, 0) == kindLocales;
    } else {
      AllLocalesOneEach(kindLocales, ids, current, previous, changedKinds, k - 1);
      ChangedLocalesMembers(ids, current, previous, changedKinds, k - 1);
      var before := kindLocales + ChangedLocales(ids, current, previous, changedKinds, k - 1);
      var mutation := ChangedLocale(current, previous, changedKinds, ids[k - 1]);
      assert kindLocales + ChangedLocales(ids, current, previous, changedKinds, k) == before + IfSome(mutation);
      if mutation.Some? {
        LocaleSnoc(before, mutation.value);
      } else {
        assert before + IfSome(mutation) == before;
      }
    }
  }

  lemma {:induction false} InsertOneEach(m: LocaleMutation, sorted: seq<LocaleMutation>, compare: CompareIds)
    requires LocaleOneEach(sorted) && forall x :: x in sorted ==> x.blockId != m.blockId
    ensures LocaleOneEach(InsertById(m, sorted, compare))
  {
    assert forall i :: 0 <= i < |sorted| ==> sorted[i] in sorted;
    if sorted != [] && compare(m.blockId, sorted[0].blockId) > 0 {
      InsertOneEach(m, sorted[1..], compare);
      var rest := InsertById(m, sorted[1..], compare);
      forall j | 0 <= j < |rest|
        ensures rest[j].blockId != sorted[0].blockId
      {
        assert rest[j] in rest;
      }
    }
  }

  lemma {:induction false} SortOneEach(ms: seq<LocaleMutation>, compare: CompareIds)
    requires LocaleOneEach(ms)
    ensures LocaleOneEach(ByBlockId(ms, compare))
  {
    if ms != [] {
      SortOneEach(ms[1..], compare);
      InsertOneEach(ms[0], ByBlockId(ms[1..], compare), compare);
    }
  }

  lemma AtMostOneLocaleMutation(affectedBase: seq<string>, affectedLocale: seq<string>, current: BlockMap,
                                previous: BlockMap, compare: CompareIds)
    requires Keyed(current)
    requires forall i, j :: 0 <= i < j < |affectedBase| ==> affectedBase[i] != affectedBase[j]
    ensures LocaleOneEach(PlannedLocale(affectedBase, affectedLocale, current, previous, compare))
  {
    var kinds, ids := ChangedKinds(affectedBase, current, previous), WithoutDuplicates(affectedLocale);
    var kindLocales := KindChangeLocales(affectedBase, current, previous, |affectedBase|);
    KindChangeLocalesOneEach(affectedBase, current, previous, |affectedBase|);
    KindChangeLocalesMembers(affectedBase, current, previous, |affectedBase|);
    AllLocalesOneEach(kindLocales, ids, current, previous, kinds, |ids|);
    SortOneEach(kindLocales + ChangedLocales(ids, current, previous, kinds, |ids|), compare);
  }

  // ---------------------------------------------------------------------------------------------
  // A full plan
  // ---------------------------------------------------------------------------------------------

  /** The ids of both block maps, each once. */
  ghost predicate AllIds(ids: seq<string>, previous: BlockMap, current: BlockMap) {
    forall id :: id in ids <==> id in previous || id in current
  }

  lemma AllAcknowledged(affectedBase: seq<string>, affectedLocale: seq<string>, current: BlockMap, previous: BlockMap)
    requires AllIds(affectedBase, previous, current)
    ensures Acknowledged(previous, affectedBase, affectedLocale, current) == current
  {
  }

  /** A full plan turns the stored old blocks into the stored new ones, and acknowledges exactly those. */
  lemma FullPlanReplaces(rule: KindRule, affectedBase: seq<string>, affectedLocale: seq<string>, current: BlockMap,
                         previous: BlockMap, compare: CompareIds)
    requires Keyed(current) && AllIds(affectedBase, previous, current) && AllIds(affectedLocale, previous, current)
    ensures Apply(rule, StoreOf(previous), PlannedBase(affectedBase, current, previous),
                  PlannedLocale(affectedBase, affectedLocale, current, previous, compare)) == StoreOf(current)
    ensures Acknowledged(previous, affectedBase, affectedLocale, current) == current
  {
    AllAcknowledged(affectedBase, affectedLocale, current, previous);
    PlanIsPatch(rule, affectedBase, affectedLocale, current, previous, compare);
  }

  // ---------------------------------------------------------------------------------------------
  // Deletes come last
  // ---------------------------------------------------------------------------------------------

  /** The store holds this block where it belongs, with its kind and base data. */
  predicate InPlace(store: Store, blocks: BlockMap, id: string) {
    id in store && id in blocks && store[id].(localeData := None) == StoredOf(blocks[id]).(localeData := None)
  }

  /** From mutation `k` on the plan only deletes. */
  ghost predicate OnlyDeletesFrom(ms: seq<BaseMutation>, k: nat) {
    k <= |ms| && forall i :: k <= i < |ms| ==> ms[i].DeleteBase?
  }

  /**
   From the moment no move or upsert is left, every block that stays is in its final place, whatever part
   of the deletes is done; in a forest its parent is present too.
   */
  lemma {:induction false} KeptBlocksStayPlaced(rule: KindRule, affectedBase: seq<string>, affectedLocale: seq<string>, current: BlockMap,
                             previous: BlockMap, k: nat, id: string)
    requires Keyed(current) && OnlyDeletesFrom(PlannedBase(affectedBase, current, previous), k)
    requires id in Acknowledged(previous, affectedBase, affectedLocale, current)
    ensures var store, after := ApplyBase(rule, StoreOf(previous), PlannedBase(affectedBase, current, previous), k),
                                Acknowledged(previous, affectedBase, affectedLocale, current);
            && InPlace(store, after, id)
            && (forall rank :: Ranked(after, rank) && after[id].parentBlockId.Some? ==> InPlace(store, after, after[id].parentBlockId.value))
  {
    var after := Acknowledged(previous, affectedBase, affectedLocale, current);
    KeptBlockPlaced(rule, affectedBase, affectedLocale, current, previous, k, id);
    if after[id].parentBlockId.Some? && after[id].parentBlockId.value in after {
      KeptBlockPlaced(rule, affectedBase, affectedLocale, current, previous, k, after[id].parentBlockId.value);
    }
    hide Acknowledged, ApplyBase, PlannedBase, InPlace;
  }

  lemma {:induction false} KeptBlockPlaced(rule: KindRule, affectedBase: seq<string>, affectedLocale: seq<string>, current: BlockMap,
                        previous: BlockMap, k: nat, id: string)
    requires Keyed(current) && OnlyDeletesFrom(PlannedBase(affectedBase, current, previous), k)
    requires id in Acknowledged(previous, affectedBase, affectedLocale, current)
    ensures InPlace(ApplyBase(rule, StoreOf(previous), PlannedBase(affectedBase, current, previous), k),
                    Acknowledged(previous, affectedBase, affectedLocale, current), id)
  {
    var ms := PlannedBase(affectedBase, current, previous);
    var only := if id in affectedBase then BaseFor(current, previous, id) else None;
    PlannedBaseMembers(affectedBase, current, previous);
    LocaleForIsOfBlock(affectedBase, affectedLocale, current, previous, id);
    OnlyOne(ms, only, id);
    BaseCell(rule, StoreOf(previous), ms, k, id, only);
    hide PlannedBase, ApplyBase;
    if only.Some? {
      var i :| 0 <= i < |ms| && ms[i].blockId == id;
      assert !ms[i].DeleteBase? && i < k;
    }
  }

  /** A full save keeps every block of the new document placed while the old ones are deleted. */
  lemma {:induction false} FullPlanKeepsBlocksPlaced(rule: KindRule, ids: seq<string>, current: BlockMap, previous: BlockMap, k: nat, id: string)
    requires Keyed(current) && AllIds(ids, previous, current) && OnlyDeletesFrom(PlannedBase(ids, current, previous), k)
    requires id in current
    ensures InPlace(ApplyBase(rule, StoreOf(previous), PlannedBase(ids, current, previous), k), current, id)
  {
    AllAcknowledged(ids, ids, current, previous);
    KeptBlocksStayPlaced(rule, ids, ids, current, previous, k, id);
  }

  /** In a plan the deletes are a suffix. */
  lemma DeletesComeLast(affected: seq<string>, current: BlockMap, previous: BlockMap)
    ensures var ms := PlannedBase(affected, current, previous);
            forall i, j :: 0 <= i < j < |ms| && ms[i].DeleteBase? ==> ms[j].DeleteBase?
  {
    var ms := BaseMutations(affected, current, previous, |affected|);
    var isMove, isUpsert, isDelete := (m: BaseMutation) => m.MoveBase?, (m: BaseMutation) => m.UpsertBase?, (m: BaseMutation) => m.DeleteBase?;
    FilterMembers(ms, isMove, |ms|);
    FilterMembers(ms, isUpsert, |ms|);
    FilterMembers(ms, isDelete, |ms|);
    var front := Filter(ms, isMove, |ms|) + Filter(ms, isUpsert, |ms|);
    var deletes := Filter(ms, isDelete, |ms|);
    forall i | 0 <= i < |front|
      ensures !front[i].DeleteBase?
    {
      assert front[i] in front;
    }
    forall i | 0 <= i < |deletes|
      ensures deletes[i].DeleteBase?
    {
      assert deletes[i] in deletes;
    }
    assert ByOperation(ms) == front + deletes;
  }

  // ---------------------------------------------------------------------------------------------
  // A plan is empty exactly when nothing changed
  // ---------------------------------------------------------------------------------------------

  lemma PlanForOneBlock(affectedBase: seq<string>, affectedLocale: seq<string>, current: BlockMap, previous: BlockMap, id: string)
    requires LocaleCovered(previous, affectedBase, affectedLocale, current)
    ensures (id in affectedBase ==> BaseFor(current, previous, id).None?)
            && LocaleFor(affectedBase, affectedLocale, current, previous, id).None?
            <==> At(StoreOf(Acknowledged(previous, affectedBase, affectedLocale, current)), id) == At(StoreOf(previous), id)
  {
  }

  lemma EmptyPlanMeansUnchanged(affectedBase: seq<string>, affectedLocale: seq<string>, current: BlockMap, previous: BlockMap,
                                compare: CompareIds)
    requires Keyed(current) && LocaleCovered(previous, affectedBase, affectedLocale, current)
    ensures PlannedBase(affectedBase, current, previous) == []
            && PlannedLocale(affectedBase, affectedLocale, current, previous, compare) == []
            <==> StoreOf(Acknowledged(previous, affectedBase, affectedLocale, current)) == StoreOf(previous)
  {
    var base, locale := PlannedBase(affectedBase, current, previous), PlannedLocale(affectedBase, affectedLocale, current, previous, compare);
    var after, before := StoreOf(Acknowledged(previous, affectedBase, affectedLocale, current)), StoreOf(previous);
    PlannedBaseMembers(affectedBase, current, previous);
    PlannedLocaleMembers(affectedBase, affectedLocale, current, previous, compare);
    StoresEqual(after, before);
    forall id
      ensures (id in affectedBase ==> BaseFor(current, previous, id).None?)
              && LocaleFor(affectedBase, affectedLocale, current, previous, id).None?
              <==> At(after, id) == At(before, id)
      ensures var m := LocaleFor(affectedBase, affectedLocale, current, previous, id); m.Some? ==> m.value in locale
      ensures var m := BaseFor(current, previous, id); m.Some? && id in affectedBase ==> m.value in base
    {
      PlanForOneBlock(affectedBase, affectedLocale, current, previous, id);
      LocaleForIsOfBlock(affectedBase, affectedLocale, current, previous, id);
    }
    hide PlannedBase, PlannedLocale, BaseFor, LocaleFor, StoreOf, Acknowledged, At, LocaleCovered;
    if base != [] {
      assert base[0] in base;
      assert At(after, base[0].blockId) != At(before, base[0].blockId);
    } else if locale != [] {
      assert locale[0] in locale;
      assert At(after, locale[0].blockId) != At(before, locale[0].blockId);
    }
  }
}
