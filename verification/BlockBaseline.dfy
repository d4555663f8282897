/**
 The baseline of a room: the block map the store last acknowledged, and at most one pending batch.

 A pending batch is handed out unchanged until it is acknowledged. While it is pending neither the
 blocks nor the revisions it was planned from change, so a retry sends what the store can still accept.
 */
module BlockBaseline {
  import opened Wrappers
  import opened BlockDocument
  import opened BlockPlans

  datatype Header = Header(fingerprint: string, sourceLocale: string, locale: string) {
    predicate IsTarget() {
      locale != sourceLocale
    }
  }

  /** The affected blocks of a room as they are now; ids of deleted blocks have no block. */
  datatype Changes = Changes(locale: string, blocks: seq<Block>, affectedBase: seq<string>, affectedLocale: seq<string>,
                             valueTargets: seq<string>)

  datatype Batch = Batch(expectedDocumentRevision: string, expectedTargetRevision: Option<string>, fingerprint: string,
                         baseMutations: seq<BaseMutation>, locale: string, localeMutations: seq<LocaleMutation>,
                         valueTargets: seq<string>, contributors: set<string>)
  {
    predicate IsEmpty() {
      baseMutations == [] && localeMutations == []
    }
  }

  datatype Pending = Pending(batch: Batch, changes: Changes)

  datatype Ack = Ack(documentRevision: string, targetRevision: Option<string>)

  datatype BaselineError =
    | LocaleChanged | InvalidBlock(error: DocumentError) | InvalidSnapshot(error: DocumentError)
    | MissingTargetRevision | TargetStructureForbidden
    | AckWithoutRequest | AckMissingAuthority | TargetDocumentRevisionChanged | SourceTargetRevisionForbidden
    | AdvancePending | AdvanceStale | AdvanceMissing

  /** Some block is only in one of the maps, or differs in place, kind or base data. */
  ghost predicate BasesDiffer(current: BlockMap, previous: BlockMap) {
    exists id :: BaseFor(current, previous, id).Some?
  }

  /** The snapshot is a forest of valid blocks under a valid header. */
  ghost predicate Loads(snapshot: Document) {
    HeaderError(snapshot).None? && IsForest(snapshot.blocks)
  }

  // ---------------------------------------------------------------------------------------------
  // The baseline as a value
  // ---------------------------------------------------------------------------------------------

  datatype Baseline = Baseline(header: Header, blocks: BlockMap, documentRevision: string, targetRevision: Option<string>,
                               pending: Option<Pending>)
  {
    function Plan(changes: Changes, contributors: set<string>, compare: CompareIds): Batch {
      var current, affected := ById(changes.blocks), WithoutDuplicates(changes.affectedBase);
      Batch(documentRevision, targetRevision, header.fingerprint, PlannedBase(affected, current, blocks), header.locale,
            PlannedLocale(affected, changes.affectedLocale, current, blocks, compare), changes.valueTargets, contributors)
    }

    function PrepareError(changes: Changes, batch: Batch): Option<BaselineError> {
      if header.IsTarget() && targetRevision.None? then Some(MissingTargetRevision)
      else if header.IsTarget() && batch.baseMutations != [] then Some(TargetStructureForbidden)
      else None
    }

    function Prepared(changes: Changes, batch: Batch): Baseline {
      if batch.IsEmpty() then this else this.(pending := Some(Pending(batch, changes)))
    }

    /** Why a full save of a well-formed snapshot fails, if it does. */
    ghost function FullError(snapshot: Document): Option<BaselineError> {
      if snapshot.locale != header.locale then Some(LocaleChanged)
      else if header.IsTarget() && targetRevision.None? then Some(MissingTargetRevision)
      else if header.IsTarget() && BasesDiffer(ById(snapshot.blocks), blocks) then Some(TargetStructureForbidden)
      else None
    }

    function AckError(ack: Ack): Option<BaselineError> {
      if pending.None? then Some(AckWithoutRequest)
      else if ack.documentRevision == "" then Some(AckMissingAuthority)
      else if header.IsTarget() && ack.documentRevision != documentRevision then Some(TargetDocumentRevisionChanged)
      else if !header.IsTarget() && ack.targetRevision.Some? then Some(SourceTargetRevisionForbidden)
      else None
    }

    /** The blocks once the pending changes are acknowledged. */
    function BlocksAfter(changes: Changes): BlockMap {
      BlockPlans.Acknowledged(blocks, changes.affectedBase, changes.affectedLocale, ById(changes.blocks))
    }

    function Acknowledged(ack: Ack): Baseline {
      if AckError(ack).Some? then this
      else Baseline(header, BlocksAfter(pending.value.changes), ack.documentRevision, ack.targetRevision, None)
    }

    function AdvanceDocumentError(expected: string, revision: string): Option<BaselineError> {
      if pending.Some? then Some(AdvancePending)
      else if documentRevision != expected then Some(AdvanceStale)
      else if revision == "" then Some(AdvanceMissing)
      else None
    }

    function AdvanceTargetError(revision: Option<string>): Option<BaselineError> {
      if pending.Some? then Some(AdvancePending)
      else if !header.IsTarget() && revision.Some? then Some(SourceTargetRevisionForbidden)
      else None
    }

    /** A pending batch is the plan of its changes against the baseline, revisions included. */
    ghost predicate Consistent(compare: CompareIds) {
      && Keyed(blocks)
      && (pending.Some? ==>
            var p := pending.value;
            && p.batch == Plan(p.changes, p.batch.contributors, compare)
            && !p.batch.IsEmpty()
            && PrepareError(p.changes, p.batch).None?)
    }
  }

  lemma {:induction false} ByIdKeyed(blocks: seq<Block>)
    ensures Keyed(ById(blocks))
  {
    if blocks != [] {
      ByIdKeyed(blocks[..|blocks| - 1]);
    }
  }

  lemma DistinctSameMembers(b: Baseline, changes: Changes)
    ensures b.BlocksAfter(changes)
            == BlockPlans.Acknowledged(b.blocks, WithoutDuplicates(changes.affectedBase), changes.affectedLocale, ById(changes.blocks))
  {
  }

  /** The change set names every kept block whose locale data changed. */
  predicate Covered(blocks: BlockMap, changes: Changes) {
    LocaleCovered(blocks, changes.affectedBase, changes.affectedLocale, ById(changes.blocks))
  }

  /** What the store holds after a pending batch is what the baseline holds after its acknowledgement. */
  lemma PendingBatchIsPatch(rule: KindRule, b: Baseline, compare: CompareIds)
    requires b.Consistent(compare) && b.pending.Some?
    ensures Apply(rule, StoreOf(b.blocks), b.pending.value.batch.baseMutations, b.pending.value.batch.localeMutations)
            == StoreOf(b.BlocksAfter(b.pending.value.changes))
            <==> Covered(b.blocks, b.pending.value.changes)
  {
    var changes := b.pending.value.changes;
    ByIdKeyed(changes.blocks);
    DistinctSameMembers(b, changes);
    PlanIsPatch(rule, WithoutDuplicates(changes.affectedBase), changes.affectedLocale, ById(changes.blocks), b.blocks, compare);
  }

  /** A plan is empty exactly when it has nothing to change in the store. */
  lemma EmptyPlanIsUnchanged(b: Baseline, changes: Changes, contributors: set<string>, compare: CompareIds)
    requires Covered(b.blocks, changes)
    ensures b.Plan(changes, contributors, compare).IsEmpty() <==> StoreOf(b.BlocksAfter(changes)) == StoreOf(b.blocks)
  {
    ByIdKeyed(changes.blocks);
    DistinctSameMembers(b, changes);
    EmptyPlanMeansUnchanged(WithoutDuplicates(changes.affectedBase), changes.affectedLocale, ById(changes.blocks), b.blocks, compare);
  }

  /**
   While a pending batch only deletes, every block of the document to be is in its place in the store, and
   so is its parent when that document is a forest: for a partial change set as for a full one.
   */
  lemma {:induction false} PendingBatchKeepsBlocksPlaced(rule: KindRule, b: Baseline, compare: CompareIds, k: nat, id: string)
    requires b.Consistent(compare) && b.pending.Some?
    requires OnlyDeletesFrom(b.pending.value.batch.baseMutations, k)
    requires id in b.BlocksAfter(b.pending.value.changes)
    ensures var store, after := ApplyBase(rule, StoreOf(b.blocks), b.pending.value.batch.baseMutations, k),
                                b.BlocksAfter(b.pending.value.changes);
            && InPlace(store, after, id)
            && (forall rank :: Ranked(after, rank) && after[id].parentBlockId.Some? ==> InPlace(store, after, after[id].parentBlockId.value))
  {
    var changes := b.pending.value.changes;
    ByIdKeyed(changes.blocks);
    DistinctSameMembers(b, changes);
    KeptBlocksStayPlaced(rule, WithoutDuplicates(changes.affectedBase), changes.affectedLocale, ById(changes.blocks), b.blocks, k, id);
  }

  lemma PrepareConsistent(b: Baseline, changes: Changes, contributors: set<string>, compare: CompareIds)
    requires b.Consistent(compare) && b.pending.None?
    requires b.PrepareError(changes, b.Plan(changes, contributors, compare)).None?
    ensures b.Prepared(changes, b.Plan(changes, contributors, compare)).Consistent(compare)
  {
  }

  lemma AcknowledgeConsistent(b: Baseline, ack: Ack, compare: CompareIds)
    requires b.Consistent(compare)
    ensures b.Acknowledged(ack).Consistent(compare)
  {
    if b.AckError(ack).None? {
      ByIdKeyed(b.pending.value.changes.blocks);
    }
  }

  /** The revisions a pending batch expects are the revisions of the baseline. */
  lemma PendingExpectsBaseline(b: Baseline, compare: CompareIds)
    requires b.Consistent(compare) && b.pending.Some?
    ensures b.pending.value.batch.expectedDocumentRevision == b.documentRevision
    ensures b.pending.value.batch.expectedTargetRevision == b.targetRevision
    ensures b.header.IsTarget() ==> b.pending.value.batch.baseMutations == [] && b.targetRevision.Some?
  {
  }

  // ---------------------------------------------------------------------------------------------
  // Runs of one baseline
  // ---------------------------------------------------------------------------------------------

  datatype Op =
    | Prepare(changes: Changes, contributors: set<string>)
    | Acknowledge(ack: Ack)
    | AdvanceDocument(expected: string, revision: string)
    | AdvanceTarget(target: Option<string>)

  /** One call on the baseline; a call that fails leaves it as it was. */
  function Step(b: Baseline, op: Op, compare: CompareIds): Baseline {
    match op
    case Prepare(changes, contributors) =>
      var batch := b.Plan(changes, contributors, compare);
      if b.pending.Some? || changes.locale != b.header.locale || b.PrepareError(changes, batch).Some? then b
      else b.Prepared(changes, batch)
    case Acknowledge(ack) => b.Acknowledged(ack)
    case AdvanceDocument(expected, revision) =>
      if b.AdvanceDocumentError(expected, revision).Some? then b else b.(documentRevision := revision)
    case AdvanceTarget(target) => if b.AdvanceTargetError(target).Some? then b else b.(targetRevision := target)
  }

  function Run(b: Baseline, ops: seq<Op>, compare: CompareIds): Baseline
    decreases |ops|
  {
    if ops == [] then b else Run(Step(b, ops[0], compare), ops[1..], compare)
  }

  /** A batch says whom it credits, what it is for and what it was planned from. */
  predicate Carries(batch: Batch, b: Baseline, valueTargets: seq<string>, contributors: set<string>) {
    && batch.contributors == contributors && batch.valueTargets == valueTargets
    && batch.fingerprint == b.header.fingerprint && batch.locale == b.header.locale
    && batch.expectedDocumentRevision == b.documentRevision && batch.expectedTargetRevision == b.targetRevision
  }

  lemma PlanCarries(b: Baseline, changes: Changes, contributors: set<string>, compare: CompareIds)
    ensures Carries(b.Plan(changes, contributors, compare), b, changes.valueTargets, contributors)
  {
  }

  /** What is pending was pending before, or comes from one of the calls and carries what that call gave. */
  ghost predicate FromCalls(b: Baseline, after: Baseline, ops: seq<Op>) {
    after.pending.Some? && after.pending != b.pending ==>
      exists op :: op in ops && op.Prepare? && op.changes == after.pending.value.changes
                   && Carries(after.pending.value.batch, after, op.changes.valueTargets, op.contributors)
  }

  /** What every run keeps, given whether it advances the document revision and whether it acknowledges. */
  ghost predicate Kept(b: Baseline, after: Baseline, advances: bool, acknowledges: bool) {
    && after.header == b.header
    && (b.header.locale == b.header.sourceLocale && b.targetRevision.None? ==> after.targetRevision.None?)
    && (b.header.locale != b.header.sourceLocale && !advances ==> after.documentRevision == b.documentRevision)
    && (b.documentRevision != "" ==> after.documentRevision != "")
    && (b.pending.Some? && !acknowledges ==> after == b)
  }

  lemma StepKeeps(b: Baseline, op: Op, compare: CompareIds)
    requires b.Consistent(compare)
    ensures Step(b, op, compare).Consistent(compare)
    ensures Kept(b, Step(b, op, compare), op.AdvanceDocument?, op.Acknowledge?)
    ensures FromCalls(b, Step(b, op, compare), [op])
  {
    match op {
      case Acknowledge(ack) => AcknowledgeConsistent(b, ack, compare);
      case Prepare(changes, contributors) =>
        if b.pending.None? && b.PrepareError(changes, b.Plan(changes, contributors, compare)).None? {
          PrepareConsistent(b, changes, contributors, compare);
          PlanCarries(b, changes, contributors, compare);
          assert op in [op];
        }
      case _ =>
    }
    hide Baseline.Plan, Baseline.BlocksAfter, Keyed;
  }

  /**
   What each call does when it does not fail. What is prepared becomes pending exactly when acknowledging it would
   change what is stored; an acknowledgement makes the stored blocks the baseline at its revisions; an advance moves
   its revision alone.
   */
  lemma CallsTakeEffect(b: Baseline, op: Op, compare: CompareIds)
    requires b.Consistent(compare)
    requires op.Prepare? ==> Covered(b.blocks, op.changes)
    ensures var after := Step(b, op, compare);
            match op
            case Prepare(changes, contributors) =>
              && after == b.(pending := after.pending)
              && (b.pending.None? && changes.locale == b.header.locale
                  && b.PrepareError(changes, b.Plan(changes, contributors, compare)).None? ==>
                    (after.pending.Some? <==> StoreOf(b.BlocksAfter(changes)) != StoreOf(b.blocks)))
            case Acknowledge(ack) =>
              b.AckError(ack).None? ==>
                && after.blocks == b.BlocksAfter(b.pending.value.changes) && after.pending.None?
                && after.documentRevision == ack.documentRevision && after.targetRevision == ack.targetRevision
            case AdvanceDocument(expected, revision) =>
              if b.pending.None? && b.documentRevision == expected && revision != ""
              then after == b.(documentRevision := revision) else after == b
            case AdvanceTarget(target) =>
              if b.pending.None? && (b.header.locale == b.header.sourceLocale ==> target.None?)
              then after == b.(targetRevision := target) else after == b
  {
    if op.Prepare? {
      EmptyPlanIsUnchanged(b, op.changes, op.contributors, compare);
    }
    hide Baseline.Plan, Baseline.BlocksAfter, Baseline.PrepareError, StoreOf, Covered, Keyed;
  }

  /**
   In every run: the baseline stays consistent, a source room never gains a target revision, a target
   room changes its document revision only by an advance, no document revision becomes empty, and a pending batch
   stays as it is until an acknowledgement. A batch that is pending in the end carries the contributors, value
   targets, header and revisions of the call that planned it.
   */
  lemma {:induction false} RunKeeps(b: Baseline, ops: seq<Op>, compare: CompareIds)
    requires b.Consistent(compare)
    ensures Run(b, ops, compare).Consistent(compare)
    ensures Kept(b, Run(b, ops, compare), exists op :: op in ops && op.AdvanceDocument?, exists op :: op in ops && op.Acknowledge?)
    ensures FromCalls(b, Run(b, ops, compare), ops)
    decreases |ops|
  {
    if ops != [] {
      var op, next := ops[0], Step(b, ops[0], compare);
      assert op in ops && forall o :: o in ops[1..] ==> o in ops;
      StepKeeps(b, op, compare);
      RunKeeps(next, ops[1..], compare);
      CallsAdd(b, next, Run(b, ops, compare), ops, compare);
      hide Baseline.Consistent, Step, FromCalls;
    }
  }

  /** A batch pending after the first call stays, carrying what it carried, or another one takes its place. */
  lemma CallsAdd(b: Baseline, next: Baseline, after: Baseline, ops: seq<Op>, compare: CompareIds)
    requires ops != [] && FromCalls(b, next, [ops[0]]) && FromCalls(next, after, ops[1..])
    requires next.Consistent(compare) && after.Consistent(compare) && after.header == next.header
    ensures FromCalls(b, after, ops)
  {
    assert ops[0] in ops && forall o :: o in ops[1..] ==> o in ops;
    if after.pending.Some? && after.pending == next.pending {
      PendingExpectsBaseline(next, compare);
      PendingExpectsBaseline(after, compare);
    }
    hide Baseline.Consistent, Baseline.Plan;
  }

  // ---------------------------------------------------------------------------------------------
  // The baseline class
  // ---------------------------------------------------------------------------------------------

  class BlockMutationBaseline {
    const header: Header
    const compare: CompareIds
    var blocks: BlockMap
    var pending: Option<Pending>
    var documentRevision: string
    var targetRevision: Option<string>

    function State(): Baseline
      reads this
    {
      Baseline(header, blocks, documentRevision, targetRevision, pending)
    }

    /** Loads accepted blocks; `FromSnapshot` is the way in. */
    constructor (header: Header, blocks: BlockMap, documentRevision: string, targetRevision: Option<string>, compare: CompareIds)
      ensures State() == Baseline(header, blocks, documentRevision, targetRevision, None) && this.compare == compare
    {
      this.header, this.compare, this.blocks := header, compare, blocks;
      this.documentRevision, this.targetRevision, this.pending := documentRevision, targetRevision, None;
    }

    static method FromSnapshot(snapshot: Document, documentRevision: string, targetRevision: Option<string>, compare: CompareIds)
      returns (r: Result<BlockMutationBaseline, DocumentError>)
      ensures r.Ok? <==> Loads(snapshot)
      ensures r.Ok? ==>
                && fresh(r.value) && r.value.compare == compare && r.value.State().Consistent(compare)
                && r.value.State() == Baseline(Header(snapshot.fingerprint, snapshot.sourceLocale, snapshot.locale),
                                               ById(snapshot.blocks), documentRevision, targetRevision, None)
    {
      var loaded := InitialBlocks(snapshot);
      if loaded.Err? {
        return Err(loaded.error);
      }
      ByIdKeyed(snapshot.blocks);
      var header := Header(snapshot.fingerprint, snapshot.sourceLocale, snapshot.locale);
      var baseline := new BlockMutationBaseline(header, loaded.value, documentRevision, targetRevision, compare);
      return Ok(baseline);
    }

    method PrepareAffected(changes: Changes, contributors: set<string>) returns (r: Result<Batch, BaselineError>)
      modifies `pending
      ensures old(pending).Some? ==> r == Ok(old(pending).value.batch) && State() == old(State())
      ensures r.Err? ==> State() == old(State())
      ensures old(pending).None? && r.Ok? ==>
                && r.value == old(State()).Plan(changes, contributors, compare)
                && State() == old(State()).Prepared(changes, r.value)
      ensures old(pending).None? && r.Ok? ==> Carries(r.value, old(State()), changes.valueTargets, contributors)
      ensures old(pending).None? ==>
                (r.Ok? <==>
                  && changes.locale == header.locale
                  && (forall b :: b in changes.blocks ==> IdentityError(b).None?)
                  && old(State()).PrepareError(changes, old(State()).Plan(changes, contributors, compare)).None?)
      ensures old(pending).None? && r.Err? ==>
                if changes.locale != header.locale then r.error == LocaleChanged
                else if exists b :: b in changes.blocks && IdentityError(b).Some? then r.error.InvalidBlock?
                else Some(r.error) == old(State()).PrepareError(changes, old(State()).Plan(changes, contributors, compare))
    {
      if pending.Some? {
        return Ok(pending.value.batch);
      }
      if changes.locale != header.locale {
        return Err(LocaleChanged);
      }
      var current: BlockMap := map[];
      for k := 0 to |changes.blocks|
        invariant forall i :: 0 <= i < k ==> IdentityError(changes.blocks[i]).None?
        invariant current == ById(changes.blocks[..k])
      {
        var block := changes.blocks[k];
        if IdentityError(block).Some? {
          return Err(InvalidBlock(IdentityError(block).value));
        }
        current := current[block.blockId := block];
        assert changes.blocks[..k + 1][..k] == changes.blocks[..k];
      }
      assert changes.blocks[..|changes.blocks|] == changes.blocks;
      var affected := WithoutDuplicates(changes.affectedBase);
      var base, changedKinds := PlanBasePlacementMutations(affected, current, blocks);
      var locale := PlanLocaleMutations(affected, changes.affectedLocale, changedKinds, current, blocks, compare);
      var batch := Batch(documentRevision, targetRevision, header.fingerprint, base, header.locale, locale,
                         changes.valueTargets, contributors);
      if header.IsTarget() && targetRevision.None? {
        return Err(MissingTargetRevision);
      }
      if header.IsTarget() && base != [] {
        return Err(TargetStructureForbidden);
      }
      if base != [] || locale != [] {
        pending := Some(Pending(batch, changes));
      }
      return Ok(batch);
    }

    /** The ids of both maps, each once, in some order. */
    static method ListIds(previous: BlockMap, current: BlockMap) returns (ids: seq<string>)
      ensures AllIds(ids, previous, current)
      ensures forall i, j :: 0 <= i < j < |ids| ==> ids[i] != ids[j]
    {
      ids := [];
      var rest := previous.Keys + current.Keys;
      while rest != {}
        invariant forall id :: id in ids || id in rest <==> id in previous || id in current
        invariant forall id :: id in rest ==> id !in ids
        invariant forall i, j :: 0 <= i < j < |ids| ==> ids[i] != ids[j]
        decreases |rest|
      {
        var id :| id in rest;
        rest := rest - {id};
        ids := ids + [id];
      }
    }

    /** The changes that replace everything by a snapshot. */
    static method FullChanges(previous: BlockMap, snapshot: Document, valueTargets: seq<string>)
      returns (r: Result<Changes, BaselineError>)
      ensures r.Ok? <==> Loads(snapshot)
      ensures r.Err? ==> r.error.InvalidSnapshot?
      ensures r.Ok? ==>
                && r.value.locale == snapshot.locale && r.value.valueTargets == valueTargets
                && r.value.blocks == snapshot.blocks
                && AllIds(r.value.affectedBase, previous, ById(snapshot.blocks))
                && r.value.affectedLocale == r.value.affectedBase
    {
      var current := InitialBlocks(snapshot);
      if current.Err? {
        return Err(InvalidSnapshot(current.error));
      }
      var ids := ListIds(previous, current.value);
      return Ok(Changes(snapshot.locale, snapshot.blocks, ids, ids, valueTargets));
    }

    /**
     A full save: the batch that turns the acknowledged blocks into those of the snapshot. Without a pending batch
     it fails exactly as `FullError` says.
     */
    method PrepareFull(snapshot: Document, contributors: set<string>, valueTargets: seq<string>)
      returns (r: Result<Batch, BaselineError>)
      requires State().Consistent(compare)
      modifies `pending
      ensures State().Consistent(compare)
      ensures r.Err? ==> State() == old(State())
      ensures old(pending).Some? && r.Ok? ==> r == Ok(old(pending).value.batch) && State() == old(State())
      ensures old(pending).None? && r.Ok? ==>
                && State() == old(State()).(pending := pending)
                && Carries(r.value, old(State()), valueTargets, contributors)
                && (pending.None? <==> r.value.IsEmpty())
                && (forall rule :: Apply(rule, StoreOf(blocks), r.value.baseMutations, r.value.localeMutations)
                                   == StoreOf(ById(snapshot.blocks)))
                && (pending.Some? ==> pending.value.batch == r.value && State().BlocksAfter(pending.value.changes) == ById(snapshot.blocks))
      ensures !Loads(snapshot) ==> r.Err? && r.error.InvalidSnapshot?
      ensures old(pending).Some? && Loads(snapshot) ==> r.Ok?
      ensures old(pending).None? && Loads(snapshot) ==> (if r.Err? then Some(r.error) else None) == old(State()).FullError(snapshot)
    {
      var changes := FullChanges(blocks, snapshot, valueTargets);
      if changes.Err? {
        return Err(changes.error);
      }
      r := PrepareAffected(changes.value, contributors);
      if old(pending).None? {
        FullPlanIsSnapshot(old(State()), changes.value, contributors, compare);
        FullPrepareError(old(State()), snapshot, changes.value, contributors, compare);
        ForestIsIdentified(snapshot);
      }
    }

    method Acknowledge(ack: Ack) returns (r: Option<BaselineError>)
      modifies this
      ensures r == old(State()).AckError(ack)
      ensures State() == old(State()).Acknowledged(ack)
      ensures r.None? <==>
                && old(pending).Some? && ack.documentRevision != ""
                && (if header.IsTarget() then ack.documentRevision == old(documentRevision) else ack.targetRevision.None?)
      ensures r.None? ==> pending.None? && documentRevision == ack.documentRevision && targetRevision == ack.targetRevision
    {
      if pending.None? {
        return Some(AckWithoutRequest);
      }
      if ack.documentRevision == "" {
        return Some(AckMissingAuthority);
      }
      if header.IsTarget() && ack.documentRevision != documentRevision {
        return Some(TargetDocumentRevisionChanged);
      }
      if !header.IsTarget() && ack.targetRevision.Some? {
        return Some(SourceTargetRevisionForbidden);
      }
      var changes := pending.value.changes;
      var current := ById(changes.blocks);
      blocks := AcknowledgeBase(blocks, changes.affectedBase, current);
      blocks := AcknowledgeLocale(blocks, changes.affectedBase, changes.affectedLocale, current);
      assert blocks == old(State()).BlocksAfter(changes);
      documentRevision, targetRevision, pending := ack.documentRevision, ack.targetRevision, None;
      return None;
    }

    static method AcknowledgeBase(blocks: BlockMap, affected: seq<string>, current: BlockMap) returns (after: BlockMap)
      ensures after == BlockPlans.Acknowledged(blocks, affected, [], current)
    {
      after := blocks;
      for k := 0 to |affected|
        invariant after == BlockPlans.Acknowledged(blocks, affected[..k], [], current)
      {
        var id := affected[k];
        assert affected[..k + 1] == affected[..k] + [id];
        after := if id in current then after[id := current[id]] else after - {id};
      }
      assert affected[..|affected|] == affected;
    }

    static method AcknowledgeLocale(blocks: BlockMap, affectedBase: seq<string>, affectedLocale: seq<string>, current: BlockMap)
      returns (after: BlockMap)
      ensures after == map id | id in blocks ::
                         if id !in affectedBase && id in affectedLocale && id in current
                         then blocks[id].(localeData := current[id].localeData) else blocks[id]
    {
      after := blocks;
      for k := 0 to |affectedLocale|
        invariant after == map id | id in blocks ::
                             if id !in affectedBase && id in affectedLocale[..k] && id in current
                             then blocks[id].(localeData := current[id].localeData) else blocks[id]
      {
        var id := affectedLocale[k];
        assert affectedLocale[..k + 1] == affectedLocale[..k] + [id];
        if id !in affectedBase && id in after && id in current {
          after := after[id := after[id].(localeData := current[id].localeData)];
        }
      }
      assert affectedLocale[..|affectedLocale|] == affectedLocale;
    }

    method AdvanceDocumentRevision(expected: string, revision: string) returns (r: Option<BaselineError>)
      modifies `documentRevision
      ensures r == old(State()).AdvanceDocumentError(expected, revision)
      ensures State() == if r.Some? then old(State()) else old(State()).(documentRevision := revision)
      ensures r.None? <==> pending.None? && old(documentRevision) == expected && revision != ""
    {
      if pending.Some? {
        return Some(AdvancePending);
      }
      if documentRevision != expected {
        return Some(AdvanceStale);
      }
      if revision == "" {
        return Some(AdvanceMissing);
      }
      documentRevision := revision;
      return None;
    }

    method AdvanceTargetRevision(revision: Option<string>) returns (r: Option<BaselineError>)
      modifies `targetRevision
      ensures r == old(State()).AdvanceTargetError(revision)
      ensures State() == if r.Some? then old(State()) else old(State()).(targetRevision := revision)
      ensures r.None? <==> pending.None? && (header.IsTarget() || revision.None?)
    {
      if pending.Some? {
        return Some(AdvancePending);
      }
      if !header.IsTarget() && revision.Some? {
        return Some(SourceTargetRevisionForbidden);
      }
      targetRevision := revision;
      return None;
    }
  }

  /** Planned from all ids, the batch stores exactly the snapshot, and so does its acknowledgement. */
  lemma FullPlanIsSnapshot(b: Baseline, changes: Changes, contributors: set<string>, compare: CompareIds)
    requires changes.affectedLocale == changes.affectedBase
    requires AllIds(changes.affectedBase, b.blocks, ById(changes.blocks))
    ensures var batch := b.Plan(changes, contributors, compare);
            && (forall rule :: Apply(rule, StoreOf(b.blocks), batch.baseMutations, batch.localeMutations)
                               == StoreOf(ById(changes.blocks)))
            && b.BlocksAfter(changes) == ById(changes.blocks)
  {
    var current, ids := ById(changes.blocks), WithoutDuplicates(changes.affectedBase);
    ByIdKeyed(changes.blocks);
    DistinctSameMembers(b, changes);
    forall rule {:trigger Apply(rule, StoreOf(b.blocks), b.Plan(changes, contributors, compare).baseMutations,
                                b.Plan(changes, contributors, compare).localeMutations)}
      ensures Apply(rule, StoreOf(b.blocks), b.Plan(changes, contributors, compare).baseMutations,
                    b.Plan(changes, contributors, compare).localeMutations) == StoreOf(current)
    {
      hide Apply, PlannedBase, PlannedLocale, StoreOf, Keyed;
      FullPlanReplaces(rule, ids, changes.affectedLocale, current, b.blocks, compare);
    }
    AllAcknowledged(ids, changes.affectedLocale, current, b.blocks);
  }

  lemma ForestIsIdentified(snapshot: Document)
    requires Loads(snapshot)
    ensures forall b | b in snapshot.blocks :: IdentityError(b).None?
  {
  }

  /** Planned from all ids, preparing fails for the same reason in whatever order the ids come. */
  lemma FullPrepareError(b: Baseline, snapshot: Document, changes: Changes, contributors: set<string>, compare: CompareIds)
    requires changes.blocks == snapshot.blocks && changes.locale == snapshot.locale
    requires AllIds(changes.affectedBase, b.blocks, ById(changes.blocks))
    ensures changes.locale == b.header.locale ==>
              b.PrepareError(changes, b.Plan(changes, contributors, compare)) == b.FullError(snapshot)
  {
    var ids, current := WithoutDuplicates(changes.affectedBase), ById(changes.blocks);
    ByIdKeyed(changes.blocks);
    PlannedBaseMembers(ids, current, b.blocks);
    var planned := PlannedBase(ids, current, b.blocks);
    if planned != [] {
      assert planned[0] in planned;
      assert BaseFor(current, b.blocks, planned[0].blockId).Some?;
    }
    if id :| BaseFor(current, b.blocks, id).Some? {
      LocaleForIsOfBlock(ids, [], current, b.blocks, id);
      assert BaseFor(current, b.blocks, id).value in planned;
    }
    assert planned == [] <==> !BasesDiffer(current, b.blocks);
    hide PlannedBase, BaseFor, BasesDiffer, PlannedLocale;
  }
}
