/**
 Resident block persistence: the save protocol of one room.

 A room drains its change set into a batch, sends it, and retries it unchanged until the store
 acknowledges it; edits go on at every wait. The store applies a batch only when its expected revision
 is the current one, and may refuse it, or apply it and lose the reply. `RunIsSafe` proves for every run
 that the store's version at the baseline's revision is exactly the baseline, and that what a persist
 returns is a revision at which the store holds the room as it stood when it was drained.
 */
module ResidentPersistence {
  import opened Wrappers
  import opened BlockDocument
  import opened BlockPlans
  import opened BlockBaseline

  /** The ids an observer saw change. */
  datatype ChangeSet = ChangeSet(base: set<string>, locale: set<string>, requiresFullDecode: bool, valueTargets: seq<string>)

  function MergeChangeSets(old_: Option<ChangeSet>, new_: ChangeSet): ChangeSet {
    match old_
    case None => new_
    case Some(o) => ChangeSet(o.base + new_.base, o.locale + new_.locale, o.requiresFullDecode || new_.requiresFullDecode,
                              o.valueTargets + new_.valueTargets)
  }

  datatype PersistError =
    | BaselineFailure(error: BaselineError) | TargetLocaleDeleted | ActorRequired | ActorMixed
    | UncommittedChanges | DocumentRevisionChanged | TargetRevisionChanged

  // ---------------------------------------------------------------------------------------------
  // The room as a value
  // ---------------------------------------------------------------------------------------------

  datatype Room = Room(baseline: BlockBaseline.Baseline, changed: Option<ChangeSet>, origins: nat, localeExists: bool) {
    function Record(changes: ChangeSet, observed: bool): Room {
      this.(changed := Some(MergeChangeSets(changed, changes)), origins := if observed then origins + 1 else origins)
    }

    /** A save is acknowledged; a target room without a target revision has lost its locale. */
    function Acknowledge(ack: Ack): Room {
      if baseline.AckError(ack).Some? then this
      else this.(baseline := baseline.Acknowledged(ack),
                 localeExists := localeExists && !(baseline.header.IsTarget() && LosesLocale(ack)))
    }

    predicate LosesLocale(ack: Ack) {
      ack.targetRevision.None? || ack.targetRevision.value == ""
    }

    function AcknowledgeError(ack: Ack): Option<PersistError> {
      if baseline.AckError(ack).Some? then Some(BaselineFailure(baseline.AckError(ack).value))
      else if baseline.header.IsTarget() && LosesLocale(ack) then Some(TargetLocaleDeleted)
      else None
    }

    /** Takes the change set and plans it. The change set is gone even when planning fails. */
    function Drain(changes: Changes, contributors: set<string>, compare: CompareIds): Room {
      var batch := baseline.Plan(changes, contributors, compare);
      this.(changed := None, origins := 0,
            baseline := if DrainError(changes, contributors, compare).Some? then baseline else baseline.Prepared(changes, batch))
    }

    function DrainError(changes: Changes, contributors: set<string>, compare: CompareIds): Option<BaselineError> {
      if changes.locale != baseline.header.locale then Some(LocaleChanged)
      else if exists b | b in changes.blocks :: IdentityError(b).Some? then Some(InvalidBlock(InvalidStructure))
      else baseline.PrepareError(changes, baseline.Plan(changes, contributors, compare))
    }

    function ExternalError(expected: Revision): Option<PersistError> {
      if changed.Some? || origins > 0 then Some(UncommittedChanges)
      else if baseline.documentRevision != expected.document then Some(DocumentRevisionChanged)
      else if baseline.targetRevision != expected.target then Some(TargetRevisionChanged)
      else None
    }

    /** The baseline is replaced by what the room holds; a pending batch goes with it. */
    function AcceptExternal(blocks: BlockMap, accepted: Revision): Room {
      this.(baseline := BlockBaseline.Baseline(baseline.header, blocks, accepted.document, accepted.target, None),
            localeExists := !baseline.header.IsTarget() || accepted.target.Some?)
    }
  }

  datatype Revision = Revision(document: string, target: Option<string>)

  function RevisionOf(b: BlockBaseline.Baseline): Revision {
    Revision(b.documentRevision, b.targetRevision)
  }

  function RevisionOfAck(ack: Ack): Revision {
    Revision(ack.documentRevision, ack.targetRevision)
  }

  // ---------------------------------------------------------------------------------------------
  // What a change set leaves unnamed is unchanged
  // ---------------------------------------------------------------------------------------------

  /** What a block map holds for an id, locale data aside. */
  function BaseAt(blocks: BlockMap, id: string): Option<Stored> {
    if id in blocks then Some(StoredOf(blocks[id]).(localeData := None)) else None
  }

  function LocaleAt(blocks: BlockMap, id: string): Option<Json> {
    if id in blocks then blocks[id].localeData else None
  }

  /** The two maps agree on all that the change set does not name. */
  ghost predicate Agree(a: BlockMap, b: BlockMap, changed: Option<ChangeSet>) {
    (changed.Some? && changed.value.requiresFullDecode)
    || ((forall id :: changed.None? || id !in changed.value.base ==> BaseAt(a, id) == BaseAt(b, id))
        && (forall id :: changed.None? || id !in changed.value.locale ==> LocaleAt(a, id) == LocaleAt(b, id)))
  }

  lemma AgreeIsEqual(a: BlockMap, b: BlockMap)
    ensures Agree(a, b, None) <==> StoreOf(a) == StoreOf(b)
  {
    StoresEqual(StoreOf(a), StoreOf(b));
    if Agree(a, b, None) {
      forall id
        ensures At(StoreOf(a), id) == At(StoreOf(b), id)
      {
        assert BaseAt(a, id) == BaseAt(b, id) && LocaleAt(a, id) == LocaleAt(b, id);
      }
    }
    if StoreOf(a) == StoreOf(b) {
      forall id
        ensures BaseAt(a, id) == BaseAt(b, id) && LocaleAt(a, id) == LocaleAt(b, id)
      {
        assert At(StoreOf(a), id) == At(StoreOf(b), id);
      }
    }
  }

  /** Edits add up: what neither change set names is still unchanged. */
  lemma AgreeAfterEdit(before: BlockMap, content: BlockMap, edited: BlockMap, changed: Option<ChangeSet>, edit: ChangeSet)
    requires Agree(content, before, changed) && Agree(edited, content, Some(edit))
    ensures Agree(edited, before, Some(MergeChangeSets(changed, edit)))
  {
  }

  /** The decoded changes are the named blocks as the room holds them. */
  ghost predicate Decodes(content: BlockMap, changed: ChangeSet, changes: Changes) {
    && (forall id :: id in changes.affectedBase <==> id in changed.base)
    && (forall id :: id in changes.affectedLocale <==> id in changed.locale)
    && (forall id :: id in changed.base || id in changed.locale ==>
          (id in ById(changes.blocks) <==> id in content) && (id in content ==> ById(changes.blocks)[id] == content[id]))
  }

  /** The full decode is the whole room. */
  ghost predicate DecodesFull(blocks: BlockMap, content: BlockMap, changes: Changes) {
    && ById(changes.blocks) == content
    && changes.affectedLocale == changes.affectedBase
    && AllIds(changes.affectedBase, blocks, content)
  }

  /** Acknowledging the changes makes the baseline the room, and the plan says all of it. */
  ghost predicate Captures(b: BlockBaseline.Baseline, content: BlockMap, changes: Changes) {
    Covered(b.blocks, changes) && StoreOf(b.BlocksAfter(changes)) == StoreOf(content)
  }

  lemma DecodedCell(b: BlockBaseline.Baseline, content: BlockMap, changed: ChangeSet, changes: Changes, id: string)
    requires Agree(content, b.blocks, Some(changed)) && !changed.requiresFullDecode && Decodes(content, changed, changes)
    ensures BaseAt(b.BlocksAfter(changes), id) == BaseAt(content, id)
    ensures LocaleAt(b.BlocksAfter(changes), id) == LocaleAt(content, id)
  {
    assert id !in changed.base ==> BaseAt(content, id) == BaseAt(b.blocks, id);
    assert id !in changed.locale ==> LocaleAt(content, id) == LocaleAt(b.blocks, id);
  }

  lemma DecodedCaptures(b: BlockBaseline.Baseline, content: BlockMap, changed: ChangeSet, changes: Changes)
    requires Agree(content, b.blocks, Some(changed)) && !changed.requiresFullDecode && Decodes(content, changed, changes)
    ensures Captures(b, content, changes)
  {
    forall id
      ensures BaseAt(b.BlocksAfter(changes), id) == BaseAt(content, id)
      ensures LocaleAt(b.BlocksAfter(changes), id) == LocaleAt(content, id)
    {
      DecodedCell(b, content, changed, changes, id);
    }
    AgreeIsEqual(b.BlocksAfter(changes), content);
    forall id | id in changes.affectedBase && id in b.blocks && id in ById(changes.blocks) && id !in changes.affectedLocale
      ensures b.blocks[id].localeData == ById(changes.blocks)[id].localeData
    {
      assert LocaleAt(content, id) == LocaleAt(b.blocks, id);
    }
  }

  lemma FullDecodeCaptures(b: BlockBaseline.Baseline, content: BlockMap, changes: Changes)
    requires DecodesFull(b.blocks, content, changes)
    ensures Captures(b, content, changes)
  {
    AllAcknowledged(changes.affectedBase, changes.affectedLocale, ById(changes.blocks), b.blocks);
  }

  // ---------------------------------------------------------------------------------------------
  // The protocol
  // ---------------------------------------------------------------------------------------------

  datatype Reply = InFlight | Applied(ack: Ack)

  /** The persist call under way: waiting for a retry, or for the save of a drained batch. */
  datatype Call = Idle | Retrying(reply: Reply) | Saving(reply: Reply, drained: BlockMap)

  /** What the last successful persist returned, and the room as it stood when it was drained. */
  datatype Returned = Returned(revision: Revision, drained: BlockMap)

  /** The room, its live content, every version the store ever had, and the persist call under way. */
  datatype System = System(room: Room, content: BlockMap, versions: map<Revision, Store>, current: Revision, call: Call,
                           returned: Option<Returned>)

  datatype DrainInput = DrainInput(changes: Changes, contributors: set<string>)

  datatype Event =
    | Edit(edited: BlockMap, edit: ChangeSet, observed: bool)
    | PersistStarts(input: DrainInput)
    | StoreApplies(ack: Ack)
    | CallFails
    | ReplyArrives(input: DrainInput)
    | OtherWriter(revision: Revision, store: Store)
    | MetadataSaved(revision: Revision)
    | ExternalAccepted(blocks: BlockMap, revision: Revision)

  /** The part of persist after a retry, up to its next wait. */
  function Drained(s: System, input: DrainInput, compare: CompareIds): System {
    if s.room.changed.None? then
      s.(call := Idle, returned := Some(Returned(RevisionOf(s.room.baseline), s.content)))
    else if |input.contributors| != 1 then s.(call := Idle)
    else
      var next := s.room.Drain(input.changes, input.contributors, compare);
      if s.room.DrainError(input.changes, input.contributors, compare).Some? then s.(room := next, call := Idle)
      else if next.baseline.pending.None? then
        s.(room := next, call := Idle, returned := Some(Returned(RevisionOf(next.baseline), s.content)))
      else s.(room := next, call := Saving(InFlight, s.content))
  }

  function Acknowledged(s: System, input: DrainInput, compare: CompareIds): System
    requires (s.call.Retrying? || s.call.Saving?) && s.call.reply.Applied?
  {
    var room := s.room.Acknowledge(s.call.reply.ack);
    if s.room.AcknowledgeError(s.call.reply.ack).Some? then s.(room := room, call := Idle)
    else if s.call.Retrying? then Drained(s.(room := room), input, compare)
    else s.(room := room, call := Idle, returned := Some(Returned(RevisionOf(room.baseline), s.call.drained)))
  }

  function WithReply(call: Call, ack: Ack): Call
    requires !call.Idle?
  {
    if call.Retrying? then Retrying(Applied(ack)) else Saving(Applied(ack), call.drained)
  }

  predicate Waiting(s: System, replied: bool) {
    !s.call.Idle? && s.room.baseline.pending.Some? && (s.call.reply.Applied? <==> replied)
  }

  /** The decode is faithful and does not throw, and neither does the planning. */
  ghost predicate CanDrain(s: System, input: DrainInput, compare: CompareIds) {
    s.room.changed.Some? ==>
      && (if s.room.changed.value.requiresFullDecode then DecodesFull(s.room.baseline.blocks, s.content, input.changes)
          else Decodes(s.content, s.room.changed.value, input.changes))
      && s.room.DrainError(input.changes, input.contributors, compare).None?
  }

  /** What the environment may do: change sets name every change, revisions are fresh, the store compares revisions. */
  ghost predicate Can(s: System, e: Event, compare: CompareIds) {
    match e
    case Edit(edited, edit, _) => Agree(edited, s.content, Some(edit))
    case PersistStarts(input) => s.call.Idle? && (s.room.baseline.pending.None? ==> CanDrain(s, input, compare))
    case StoreApplies(ack) =>
      && Waiting(s, false)
      && s.room.baseline.pending.value.batch.expectedDocumentRevision == s.current.document
      && s.room.baseline.pending.value.batch.expectedTargetRevision == s.current.target
      && RevisionOfAck(ack) !in s.versions && s.room.baseline.AckError(ack).None?
    case CallFails => !s.call.Idle?
    case ReplyArrives(input) =>
      && Waiting(s, true)
      && (s.call.Retrying? ==> CanDrain(s.(room := s.room.Acknowledge(s.call.reply.ack)), input, compare))
    case OtherWriter(revision, _) => revision !in s.versions
    case MetadataSaved(revision) =>
      && s.call.Idle? && s.current == RevisionOf(s.room.baseline) && revision !in s.versions
      && s.room.baseline.AdvanceDocumentError(s.current.document, revision.document).None?
      && s.room.baseline.AdvanceTargetError(revision.target).None?
      && (s.room.baseline.header.IsTarget() ==> revision.document == s.current.document)
    case ExternalAccepted(blocks, revision) =>
      && s.call.Idle? && s.room.ExternalError(s.current).None? && s.room.baseline.pending.None?
      && revision !in s.versions && Keyed(blocks)
  }

  function Step(s: System, e: Event, rule: KindRule, compare: CompareIds): System
    requires e.StoreApplies? ==> Waiting(s, false) && s.current in s.versions
    requires e.ReplyArrives? ==> Waiting(s, true)
    requires e.MetadataSaved? ==> s.current in s.versions
  {
    match e
    case Edit(edited, edit, observed) => s.(content := edited, room := s.room.Record(edit, observed))
    case PersistStarts(input) =>
      if s.room.baseline.pending.Some? then s.(call := Retrying(InFlight)) else Drained(s, input, compare)
    case StoreApplies(ack) =>
      var batch := s.room.baseline.pending.value.batch;
      var store := Apply(rule, s.versions[s.current], batch.baseMutations, batch.localeMutations);
      s.(versions := s.versions[RevisionOfAck(ack) := store], current := RevisionOfAck(ack), call := WithReply(s.call, ack))
    case CallFails => s.(call := Idle)
    case ReplyArrives(input) => Acknowledged(s, input, compare)
    case OtherWriter(revision, store) => s.(versions := s.versions[revision := store], current := revision)
    case MetadataSaved(revision) =>
      s.(versions := s.versions[revision := s.versions[s.current]], current := revision,
         room := s.room.(baseline := s.room.baseline.(documentRevision := revision.document, targetRevision := revision.target)))
    case ExternalAccepted(blocks, revision) =>
      s.(versions := s.versions[revision := StoreOf(blocks)], current := revision, content := blocks,
         room := s.room.AcceptExternal(blocks, revision))
  }

  // ---------------------------------------------------------------------------------------------
  // Safety
  // ---------------------------------------------------------------------------------------------

  /** The blocks the baseline holds, or will hold once its pending batch is acknowledged. */
  function Expected(b: BlockBaseline.Baseline): BlockMap {
    if b.pending.Some? then b.BlocksAfter(b.pending.value.changes) else b.blocks
  }

  ghost predicate VersionIs(s: System, revision: Revision, blocks: BlockMap) {
    revision in s.versions && s.versions[revision] == StoreOf(blocks)
  }

  /** The store's version at the baseline's revision is the baseline. */
  ghost predicate BaselineStored(s: System) {
    VersionIs(s, RevisionOf(s.room.baseline), s.room.baseline.blocks)
  }

  ghost predicate Safe(s: System, compare: CompareIds) {
    var b := s.room.baseline;
    && b.Consistent(compare)
    && BaselineStored(s)
    && s.current in s.versions
    && (b.pending.Some? ==> Covered(b.blocks, b.pending.value.changes))
    && Agree(s.content, Expected(b), s.room.changed)
    && CallSafe(s)
    && (s.returned.Some? ==> VersionIs(s, s.returned.value.revision, s.returned.value.drained))
  }

  /** While a call waits, its batch is pending; once applied, the store holds what it acknowledges. */
  ghost predicate CallSafe(s: System) {
    s.call.Idle? ||
    (&& s.room.baseline.pending.Some?
     && (s.call.reply.Applied? ==>
           && s.room.baseline.AckError(s.call.reply.ack).None?
           && VersionIs(s, RevisionOfAck(s.call.reply.ack), Expected(s.room.baseline)))
     && (s.call.Saving? ==> StoreOf(Expected(s.room.baseline)) == StoreOf(s.call.drained)))
  }

  lemma PlannedIsExpected(b: BlockBaseline.Baseline, content: BlockMap, changes: Changes, contributors: set<string>,
                          compare: CompareIds)
    requires b.Consistent(compare) && b.pending.None? && Captures(b, content, changes)
    requires b.PrepareError(changes, b.Plan(changes, contributors, compare)).None?
    ensures var next := b.Prepared(changes, b.Plan(changes, contributors, compare));
            && next.Consistent(compare) && next.blocks == b.blocks
            && StoreOf(Expected(next)) == StoreOf(content)
            && (next.pending.Some? ==> Covered(next.blocks, next.pending.value.changes))
  {
    PrepareConsistent(b, changes, contributors, compare);
    if b.Plan(changes, contributors, compare).IsEmpty() {
      EmptyPlanIsUnchanged(b, changes, contributors, compare);
    } else {
      assert b.Prepared(changes, b.Plan(changes, contributors, compare)).BlocksAfter(changes) == b.BlocksAfter(changes);
    }
  }

  lemma DrainCaptures(s: System, input: DrainInput, compare: CompareIds)
    requires CanDrain(s, input, compare) && s.room.changed.Some?
    requires Agree(s.content, s.room.baseline.blocks, s.room.changed)
    ensures Captures(s.room.baseline, s.content, input.changes)
    ensures s.room.baseline.PrepareError(input.changes, s.room.baseline.Plan(input.changes, input.contributors, compare)).None?
    ensures s.room.DrainError(input.changes, input.contributors, compare).None?
  {
    if s.room.changed.value.requiresFullDecode {
      FullDecodeCaptures(s.room.baseline, s.content, input.changes);
    } else {
      DecodedCaptures(s.room.baseline, s.content, s.room.changed.value, input.changes);
    }
  }

  /** Draining captures the room: what is returned, or what will be acknowledged, is the room as it stands. */
  lemma DrainIsSafe(s: System, input: DrainInput, compare: CompareIds)
    requires Safe(s.(call := Idle), compare) && s.room.baseline.pending.None? && CanDrain(s, input, compare)
    ensures Safe(Drained(s, input, compare), compare)
  {
    hide Agree, Baseline.Consistent, Captures, Covered, Baseline.Plan, Baseline.BlocksAfter, CanDrain, Room.DrainError, StoreOf;
    var b := s.room.baseline;
    if s.room.changed.None? {
      AgreeIsEqual(s.content, b.blocks);
    } else if |input.contributors| == 1 {
      DrainCaptures(s, input, compare);
      PlannedIsExpected(b, s.content, input.changes, input.contributors, compare);
      var next := Drained(s, input, compare);
      AgreeIsEqual(s.content, Expected(next.room.baseline));
    }
  }

  lemma AcknowledgeIsSafe(s: System, compare: CompareIds)
    requires Safe(s, compare) && Waiting(s, true)
    ensures var room := s.room.Acknowledge(s.call.reply.ack);
            && room.baseline.pending.None? && room.changed == s.room.changed
            && Safe(s.(room := room, call := Idle), compare)
            && (s.call.Saving? ==> VersionIs(s, RevisionOf(room.baseline), s.call.drained))
  {
    AcknowledgeConsistent(s.room.baseline, s.call.reply.ack, compare);
  }

  lemma ReplyIsSafe(s: System, input: DrainInput, compare: CompareIds)
    requires Safe(s, compare) && Can(s, ReplyArrives(input), compare)
    ensures Safe(Acknowledged(s, input, compare), compare)
  {
    hide Agree, Baseline.Consistent, Covered, CanDrain, Drained, StoreOf, Baseline.BlocksAfter;
    AcknowledgeIsSafe(s, compare);
    var next := s.(room := s.room.Acknowledge(s.call.reply.ack));
    if s.call.Retrying? && s.room.AcknowledgeError(s.call.reply.ack).None? {
      DrainIsSafe(next, input, compare);
    }
  }

  /** A fresh version leaves the old ones as they are. */
  lemma FreshVersion(s: System, compare: CompareIds, revision: Revision, store: Store)
    requires Safe(s, compare) && revision !in s.versions
    ensures Safe(s.(versions := s.versions[revision := store], current := revision), compare)
  {
    hide Agree, Baseline.Consistent, Covered, StoreOf;
  }

  lemma StoreAppliesIsSafe(s: System, ack: Ack, rule: KindRule, compare: CompareIds)
    requires Safe(s, compare) && Can(s, StoreApplies(ack), compare)
    ensures Safe(Step(s, StoreApplies(ack), rule, compare), compare)
  {
    var b := s.room.baseline;
    PendingExpectsBaseline(b, compare);
    PendingBatchIsPatch(rule, b, compare);
    hide Agree, Baseline.Consistent, Covered, StoreOf, Apply, Baseline.BlocksAfter, Baseline.AckError;
    var store := Apply(rule, s.versions[s.current], b.pending.value.batch.baseMutations, b.pending.value.batch.localeMutations);
    FreshVersion(s, compare, RevisionOfAck(ack), store);
  }

  lemma MetadataIsSafe(s: System, revision: Revision, rule: KindRule, compare: CompareIds)
    requires Safe(s, compare) && Can(s, MetadataSaved(revision), compare)
    ensures Safe(Step(s, MetadataSaved(revision), rule, compare), compare)
  {
    hide Agree, StoreOf;
    FreshVersion(s, compare, revision, s.versions[s.current]);
  }

  lemma ExternalIsSafe(s: System, blocks: BlockMap, revision: Revision, rule: KindRule, compare: CompareIds)
    requires Safe(s, compare) && Can(s, ExternalAccepted(blocks, revision), compare)
    ensures Safe(Step(s, ExternalAccepted(blocks, revision), rule, compare), compare)
  {
    FreshVersion(s, compare, revision, StoreOf(blocks));
    AgreeIsEqual(blocks, blocks);
  }

  /** Every step of the room, the store and their environment keeps the protocol safe. */
  lemma StepIsSafe(s: System, e: Event, rule: KindRule, compare: CompareIds)
    requires Safe(s, compare) && Can(s, e, compare)
    ensures Safe(Step(s, e, rule, compare), compare)
  {
    match e {
      case Edit(edited, edit, _) => AgreeAfterEdit(Expected(s.room.baseline), s.content, edited, s.room.changed, edit);
      case PersistStarts(input) =>
        if s.room.baseline.pending.None? {
          DrainIsSafe(s, input, compare);
        }
      case StoreApplies(ack) => StoreAppliesIsSafe(s, ack, rule, compare);
      case CallFails =>
      case ReplyArrives(input) => ReplyIsSafe(s, input, compare);
      case OtherWriter(revision, store) => FreshVersion(s, compare, revision, store);
      case MetadataSaved(revision) => MetadataIsSafe(s, revision, rule, compare);
      case ExternalAccepted(blocks, revision) => ExternalIsSafe(s, blocks, revision, rule, compare);
    }
  }

  // ---------------------------------------------------------------------------------------------
  // What a persist reports
  // ---------------------------------------------------------------------------------------------

  /** A persist call goes on to drain: it starts with nothing pending, or its retry is acknowledged. */
  predicate Drains(s: System, e: Event) {
    match e
    case PersistStarts(_) => s.room.baseline.pending.None?
    case ReplyArrives(_) => s.call.Retrying? && s.call.reply.Applied? && s.room.AcknowledgeError(s.call.reply.ack).None?
    case _ => false
  }

  /** Where a draining call stands: the revision that was acknowledged last. */
  function DrainRevision(s: System, e: Event): Revision
    requires Drains(s, e)
  {
    if e.PersistStarts? then RevisionOf(s.room.baseline) else RevisionOfAck(s.call.reply.ack)
  }

  /**
   What is returned newly, and what is sent newly, is the room as it stands at a drain, with nothing left to save,
   or the room as it stood when the batch that is now acknowledged was drained.
   */
  ghost predicate ReportsDrained(s: System, e: Event, after: System) {
    && (after.returned != s.returned ==>
          && after.call.Idle? && after.returned.Some? && after.returned.value.revision == RevisionOf(after.room.baseline)
          && (if s.call.Saving? then after.returned.value.drained == s.call.drained
              else Drains(s, e) && after.returned.value.drained == s.content && after.room.changed.None?))
    && (after.call.Saving? ==>
          if s.call.Saving? then after.call.drained == s.call.drained
          else Drains(s, e) && after.call.drained == s.content && after.room.changed.None?
               && after.room.baseline.pending.Some?)
  }

  /** A call that drains sends what there is to save, crediting its one contributor, or returns success. */
  ghost predicate DrainAnswers(s: System, e: Event, after: System) {
    Drains(s, e) ==>
      var input := e.input;
      var success := Some(Returned(DrainRevision(s, e), s.content));
      if s.room.changed.None? then after.call.Idle? && after.returned == success
      else if |input.contributors| != 1 then after.call.Idle? && after.returned == s.returned && after.room.changed == s.room.changed
      else
        && after.room.changed.None?
        && (if after.room.baseline.pending.None? then after.call.Idle? && after.returned == success
            else after.call == Saving(InFlight, s.content)
                 && after.room.baseline.pending.value.batch.contributors == input.contributors)
  }

  /** A call whose save is acknowledged returns the acknowledged revision with what was drained. */
  ghost predicate SaveAnswers(s: System, e: Event, after: System) {
    e.ReplyArrives? && s.call.Saving? && s.call.reply.Applied? && s.room.AcknowledgeError(s.call.reply.ack).None? ==>
      after.call.Idle? && after.returned == Some(Returned(RevisionOfAck(s.call.reply.ack), s.call.drained))
  }

  lemma DrainedReports(s: System, input: DrainInput, compare: CompareIds)
    requires CanDrain(s, input, compare) && s.room.baseline.pending.None?
    ensures var after := Drained(s, input, compare);
            var success := Some(Returned(RevisionOf(s.room.baseline), s.content));
            if s.room.changed.None? then after.call.Idle? && after.returned == success && after.room == s.room
            else if |input.contributors| != 1 then after == s.(call := Idle)
            else
              && after.room.changed.None?
              && (if after.room.baseline.pending.None? then after.call.Idle? && after.returned == success
                       && RevisionOf(after.room.baseline) == RevisionOf(s.room.baseline)
                  else after.call == Saving(InFlight, s.content) && after.returned == s.returned
                       && after.room.baseline.pending.value.batch.contributors == input.contributors)
  {
    hide Decodes, DecodesFull, Baseline.Consistent;
  }

  ghost predicate Reports(s: System, e: Event, after: System) {
    ReportsDrained(s, e, after) && DrainAnswers(s, e, after) && SaveAnswers(s, e, after)
  }

  lemma StartReports(s: System, input: DrainInput, rule: KindRule, compare: CompareIds)
    requires Can(s, PersistStarts(input), compare)
    ensures Reports(s, PersistStarts(input), Step(s, PersistStarts(input), rule, compare))
  {
    hide Can, CanDrain, Drained, Room.Drain, Room.DrainError, Baseline.Plan;
    StartDrains(s, input, compare);
    if s.room.baseline.pending.None? {
      DrainedReports(s, input, compare);
    }
  }

  lemma StartDrains(s: System, input: DrainInput, compare: CompareIds)
    requires Can(s, PersistStarts(input), compare)
    ensures s.call.Idle? && (s.room.baseline.pending.None? ==> CanDrain(s, input, compare))
  {
    hide CanDrain;
  }

  lemma ReplyReports(s: System, input: DrainInput, rule: KindRule, compare: CompareIds)
    requires Can(s, ReplyArrives(input), compare)
    ensures Reports(s, ReplyArrives(input), Step(s, ReplyArrives(input), rule, compare))
  {
    hide CanDrain, Drained, Room.Drain, Room.DrainError, Baseline.BlocksAfter;
    if Drains(s, ReplyArrives(input)) {
      DrainedReports(s.(room := s.room.Acknowledge(s.call.reply.ack)), input, compare);
    }
  }

  lemma OtherReports(s: System, e: Event, rule: KindRule, compare: CompareIds)
    requires Can(s, e, compare) && (e.MetadataSaved? || e.StoreApplies? ==> s.current in s.versions)
    requires !e.PersistStarts? && !e.ReplyArrives?
    ensures Reports(s, e, Step(s, e, rule, compare))
  {
    hide Agree, Apply, StoreOf, Room.Record, Room.AcceptExternal, Baseline.AdvanceDocumentError, Baseline.AdvanceTargetError, Baseline.AckError, Room.ExternalError;
  }

  /** Every event reports truly, and drains and saves do answer. */
  lemma StepReports(s: System, e: Event, rule: KindRule, compare: CompareIds)
    requires Safe(s, compare) && Can(s, e, compare)
    ensures Reports(s, e, Step(s, e, rule, compare))
  {
    hide Reports;
    match e {
      case PersistStarts(input) => StartReports(s, input, rule, compare);
      case ReplyArrives(input) => ReplyReports(s, input, rule, compare);
      case _ => OtherReports(s, e, rule, compare);
    }
  }

  /** A run: every event is possible where it happens. */
  ghost predicate Possible(s: System, events: seq<Event>, rule: KindRule, compare: CompareIds)
    requires Safe(s, compare)
    decreases |events|
  {
    events == [] ||
    (&& Can(s, events[0], compare)
     && (StepIsSafe(s, events[0], rule, compare);
         Possible(Step(s, events[0], rule, compare), events[1..], rule, compare)))
  }

  ghost function Run(s: System, events: seq<Event>, rule: KindRule, compare: CompareIds): System
    requires Safe(s, compare) && Possible(s, events, rule, compare)
    decreases |events|
  {
    if events == [] then s
    else
      StepIsSafe(s, events[0], rule, compare);
      Run(Step(s, events[0], rule, compare), events[1..], rule, compare)
  }

  /** Somewhere in the run a call drained the room when it held these blocks, and left nothing to save. */
  ghost predicate DrainedInRun(s: System, events: seq<Event>, drained: BlockMap, rule: KindRule, compare: CompareIds)
    requires Safe(s, compare) && Possible(s, events, rule, compare)
    decreases |events|
  {
    events != [] &&
    (StepIsSafe(s, events[0], rule, compare);
     || (Drains(s, events[0]) && s.content == drained && Step(s, events[0], rule, compare).room.changed.None?)
     || DrainedInRun(Step(s, events[0], rule, compare), events[1..], drained, rule, compare))
  }

  /** These blocks were drained in the run, or before it by the save that is under way at its start. */
  ghost predicate WasDrained(s: System, events: seq<Event>, drained: BlockMap, rule: KindRule, compare: CompareIds)
    requires Safe(s, compare) && Possible(s, events, rule, compare)
  {
    (s.call.Saving? && drained == s.call.drained) || DrainedInRun(s, events, drained, rule, compare)
  }

  lemma {:induction false} DrainedLater(s: System, events: seq<Event>, drained: BlockMap, rule: KindRule, compare: CompareIds)
    requires Safe(s, compare) && events != [] && Possible(s, events, rule, compare)
    requires Can(s, events[0], compare) && Safe(Step(s, events[0], rule, compare), compare)
    requires Possible(Step(s, events[0], rule, compare), events[1..], rule, compare)
    requires WasDrained(Step(s, events[0], rule, compare), events[1..], drained, rule, compare)
    ensures WasDrained(s, events, drained, rule, compare)
  {
    StepReports(s, events[0], rule, compare);
    hide Safe, Step, Can, DrainAnswers, SaveAnswers, Possible;
  }

  lemma {:induction false} ReturnedNow(s: System, events: seq<Event>, rule: KindRule, compare: CompareIds)
    requires Safe(s, compare) && events != [] && Possible(s, events, rule, compare)
    requires Can(s, events[0], compare) && Step(s, events[0], rule, compare).returned != s.returned
    ensures var next := Step(s, events[0], rule, compare);
            next.returned.Some? && WasDrained(s, events, next.returned.value.drained, rule, compare)
  {
    StepReports(s, events[0], rule, compare);
    hide Safe, Step, Can, DrainAnswers, SaveAnswers, Possible;
  }

  /** In every run what is returned newly, and what is being saved, was drained from the room as it then stood. */
  lemma {:induction false} RunReports(s: System, events: seq<Event>, rule: KindRule, compare: CompareIds)
    requires Safe(s, compare) && Possible(s, events, rule, compare)
    ensures var after := Run(s, events, rule, compare);
            && (after.returned != s.returned ==>
                  after.returned.Some? && WasDrained(s, events, after.returned.value.drained, rule, compare))
            && (after.call.Saving? ==> WasDrained(s, events, after.call.drained, rule, compare))
    decreases |events|
  {
    hide Step, WasDrained, DrainedInRun;
    if events == [] {
      SavingAtStart(s, rule, compare);
    } else {
      StepIsSafe(s, events[0], rule, compare);
      var next, after := Step(s, events[0], rule, compare), Run(s, events, rule, compare);
      RunReports(next, events[1..], rule, compare);
      if after.call.Saving? {
        DrainedLater(s, events, after.call.drained, rule, compare);
      }
      if after.returned != next.returned {
        DrainedLater(s, events, after.returned.value.drained, rule, compare);
      } else if next.returned != s.returned {
        ReturnedNow(s, events, rule, compare);
      }
    }
  }

  lemma SavingAtStart(s: System, rule: KindRule, compare: CompareIds)
    requires Safe(s, compare)
    ensures Possible(s, [], rule, compare)
    ensures s.call.Saving? ==> WasDrained(s, [], s.call.drained, rule, compare)
  {
    hide Safe;
  }

  /** A room registered from a snapshot the store holds at the loaded revision. */
  ghost predicate Registered(s: System, compare: CompareIds) {
    && s.room.baseline.pending.None? && s.room.changed.None? && s.call.Idle? && s.returned.None?
    && Keyed(s.room.baseline.blocks) && s.content == s.room.baseline.blocks
    && BaselineStored(s) && s.current in s.versions
  }

  /**
   In every run of edits, refused saves, lost replies, retries and acknowledged saves: whenever the
   baseline's revision is the store's, their blocks are equal, and what the last successful persist
   returned is a revision at which the store holds the room as it was drained. A value that is returned in the
   run was drained by a call of the run, or by the save under way when it began, from the room as it stood then.
   */
  lemma {:induction false} RunIsSafe(s: System, events: seq<Event>, rule: KindRule, compare: CompareIds)
    requires Safe(s, compare) && Possible(s, events, rule, compare)
    ensures var after := Run(s, events, rule, compare);
            && Safe(after, compare)
            && (RevisionOf(after.room.baseline) == after.current ==>
                  after.versions[after.current] == StoreOf(after.room.baseline.blocks))
            && (after.returned.Some? ==>
                  after.versions[after.returned.value.revision] == StoreOf(after.returned.value.drained))
            && (after.returned != s.returned ==>
                  after.returned.Some? && WasDrained(s, events, after.returned.value.drained, rule, compare))
    decreases |events|
  {
    hide Step, WasDrained;
    RunReports(s, events, rule, compare);
    if events != [] {
      StepIsSafe(s, events[0], rule, compare);
      RunIsSafe(Step(s, events[0], rule, compare), events[1..], rule, compare);
    }
  }

  // ---------------------------------------------------------------------------------------------
  // Saves go through
  // ---------------------------------------------------------------------------------------------

  /** The store is at the revision the room goes by, or at the one a reply on its way brings. */
  predicate InStep(s: System) {
    s.current == if !s.call.Idle? && s.call.reply.Applied? then RevisionOfAck(s.call.reply.ack) else RevisionOf(s.room.baseline)
  }

  /** No one else writes, and no reply of an applied batch is lost. */
  predicate Undisturbed(s: System, e: Event) {
    !e.OtherWriter? && !(e.CallFails? && !s.call.Idle? && s.call.reply.Applied?)
  }

  lemma DrainStaysInStep(s: System, input: DrainInput, compare: CompareIds)
    requires CanDrain(s, input, compare) && s.room.baseline.pending.None? && s.current == RevisionOf(s.room.baseline)
    ensures InStep(Drained(s, input, compare))
  {
    hide CanDrain, Baseline.Plan;
  }

  lemma ReplyStaysInStep(s: System, input: DrainInput, compare: CompareIds)
    requires Safe(s, compare) && Can(s, ReplyArrives(input), compare) && InStep(s)
    ensures InStep(Acknowledged(s, input, compare))
  {
    hide CanDrain, Drained, Agree, Baseline.BlocksAfter, Baseline.Consistent, Covered, StoreOf;
    var next := s.(room := s.room.Acknowledge(s.call.reply.ack));
    assert RevisionOf(next.room.baseline) == s.current && next.room.baseline.pending.None?;
    if s.call.Retrying? && s.room.AcknowledgeError(s.call.reply.ack).None? {
      DrainStaysInStep(next, input, compare);
    }
  }

  lemma StepStaysInStep(s: System, e: Event, rule: KindRule, compare: CompareIds)
    requires Safe(s, compare) && Can(s, e, compare) && InStep(s) && Undisturbed(s, e)
    ensures InStep(Step(s, e, rule, compare))
  {
    match e {
      case PersistStarts(input) =>
        if s.room.baseline.pending.None? {
          StartDrains(s, input, compare);
          DrainStaysInStep(s, input, compare);
        }
      case ReplyArrives(input) => ReplyStaysInStep(s, input, compare);
      case _ =>
    }
    hide Safe, Agree, Apply, StoreOf, CanDrain, Drained, Acknowledged, Room.Record, Baseline.AckError, Room.ExternalError;
  }

  ghost predicate UndisturbedRun(s: System, events: seq<Event>, rule: KindRule, compare: CompareIds)
    requires Safe(s, compare) && Possible(s, events, rule, compare)
    decreases |events|
  {
    events == [] ||
    (&& Undisturbed(s, events[0])
     && (StepIsSafe(s, events[0], rule, compare);
         UndisturbedRun(Step(s, events[0], rule, compare), events[1..], rule, compare)))
  }

  /**
   As long as no one else writes and no reply is lost, the room stays in step: at rest the store is at its revision
   and holds its acknowledged blocks.
   */
  lemma {:induction false} RunStaysInStep(s: System, events: seq<Event>, rule: KindRule, compare: CompareIds)
    requires Safe(s, compare) && Possible(s, events, rule, compare) && UndisturbedRun(s, events, rule, compare) && InStep(s)
    ensures var after := Run(s, events, rule, compare);
            && InStep(after) && Safe(after, compare)
            && (after.call.Idle? ==> after.current in after.versions
                                     && after.versions[after.current] == StoreOf(after.room.baseline.blocks))
    decreases |events|
  {
    if events == [] {
      RestsInStep(s, compare);
    } else {
      StepIsSafe(s, events[0], rule, compare);
      StepStaysInStep(s, events[0], rule, compare);
      hide Step, Safe, InStep, Can;
      RunStaysInStep(Step(s, events[0], rule, compare), events[1..], rule, compare);
    }
  }

  lemma RestsInStep(s: System, compare: CompareIds)
    requires Safe(s, compare) && InStep(s)
    ensures s.call.Idle? ==> s.current in s.versions && s.versions[s.current] == StoreOf(s.room.baseline.blocks)
  {
    hide Agree, StoreOf, Baseline.Consistent, Covered;
  }

  /**
   A save that the store applies and answers goes through: the persist returns the acknowledged revision with the room
   it drained, the store holds that room at that revision, and the room is in step with nothing pending.
   */
  lemma SaveGoesThrough(s: System, ack: Ack, input: DrainInput, rule: KindRule, compare: CompareIds)
    requires Safe(s, compare) && InStep(s) && s.call.Saving? && Can(s, StoreApplies(ack), compare)
    ensures var applied := Step(s, StoreApplies(ack), rule, compare);
            && Safe(applied, compare) && Can(applied, ReplyArrives(input), compare)
            && var after := Step(applied, ReplyArrives(input), rule, compare);
               && after.call.Idle? && after.room.baseline.pending.None? && InStep(after)
               && after.current == RevisionOfAck(ack) && VersionIs(after, after.current, s.call.drained)
               && after.content == s.content && after.room.changed == s.room.changed
               && after.returned == (if s.room.AcknowledgeError(ack).None? then Some(Returned(after.current, s.call.drained))
                                     else s.returned)
  {
    var applied := Step(s, StoreApplies(ack), rule, compare);
    StepIsSafe(s, StoreApplies(ack), rule, compare);
    StepStaysInStep(s, StoreApplies(ack), rule, compare);
    ReplyIsNext(s, ack, input, rule, compare);
    StepStaysInStep(applied, ReplyArrives(input), rule, compare);
    AcknowledgeIsSafe(applied, compare);
    hide Safe, Agree, Apply, StoreOf, CanDrain, Drained, Baseline.BlocksAfter, Baseline.AckError;
  }

  lemma ReplyIsNext(s: System, ack: Ack, input: DrainInput, rule: KindRule, compare: CompareIds)
    requires Safe(s, compare) && s.call.Saving? && Can(s, StoreApplies(ack), compare)
    ensures var applied := Step(s, StoreApplies(ack), rule, compare);
            && Can(applied, ReplyArrives(input), compare) && applied.call == Saving(Applied(ack), s.call.drained)
            && applied.room == s.room && applied.content == s.content && applied.returned == s.returned
            && applied.current == RevisionOfAck(ack)
  {
    hide Agree, Apply, StoreOf, CanDrain, Baseline.Consistent, Covered, Baseline.BlocksAfter, Baseline.AckError;
  }

  /**
   What else happens does take effect: an edit waits to be saved, another writer moves the store alone, and a metadata
   save or an accepted external mutation moves the store and the room to one new revision.
   */
  lemma EventsTakeEffect(s: System, e: Event, rule: KindRule, compare: CompareIds)
    requires Safe(s, compare) && Can(s, e, compare)
    ensures var after := Step(s, e, rule, compare);
            match e
            case Edit(edited, _, _) =>
              && after.content == edited && after.room.changed.Some? && after.room.baseline == s.room.baseline
              && after.current == s.current && after.versions == s.versions && after.call == s.call
            case OtherWriter(revision, store) =>
              && after.current == revision && after.versions == s.versions[revision := store]
              && after.room == s.room && after.content == s.content && after.call == s.call
            case MetadataSaved(revision) =>
              && after.current == revision == RevisionOf(after.room.baseline)
              && after.versions == s.versions[revision := s.versions[s.current]]
              && after.content == s.content && after.room.changed == s.room.changed
              && after.room.baseline.blocks == s.room.baseline.blocks
            case ExternalAccepted(blocks, revision) =>
              && after.current == revision == RevisionOf(after.room.baseline)
              && VersionIs(after, revision, blocks) && after.content == blocks == after.room.baseline.blocks
              && after.room.changed.None? && after.room.baseline.pending.None?
            case _ => true
  {
    hide Agree, Apply, StoreOf, CanDrain, Drained, Acknowledged, Baseline.Consistent, Covered, Baseline.BlocksAfter, Baseline.AckError;
  }

  /** A drain that throws returns nothing and takes the change set, but leaves the baseline alone. */
  lemma ThrowingDrainReturnsNothing(s: System, input: DrainInput, compare: CompareIds)
    requires s.room.changed.Some? && |input.contributors| == 1
    requires s.room.DrainError(input.changes, input.contributors, compare).Some?
    ensures var after := Drained(s, input, compare);
            && after.call.Idle? && after.returned == s.returned && after.content == s.content
            && after.room.baseline == s.room.baseline && after.room.changed.None? && after.room.origins == 0
  {
    hide Room.DrainError, Baseline.Plan;
  }

  lemma RegisteredIsSafe(s: System, compare: CompareIds)
    requires Registered(s, compare)
    ensures Safe(s, compare)
  {
    AgreeIsEqual(s.content, s.room.baseline.blocks);
  }

  // ---------------------------------------------------------------------------------------------
  // Where the hypotheses are needed
  // ---------------------------------------------------------------------------------------------

  /** What an external mutation writes: a block for each id, or none. */
  type Mutation = map<string, Option<Stored>>

  function Mutate(store: Store, mutation: Mutation): Store {
    map id | id in store.Keys + mutation.Keys && (id in mutation ==> mutation[id].Some?) ::
      if id in mutation then mutation[id].value else store[id]
  }

  /** An external mutation of the store and the room, accepted with the blocks the room then holds. */
  function Accepted(s: System, mutation: Mutation, blocks: BlockMap, revision: Revision): System
    requires s.current in s.versions
  {
    s.(versions := s.versions[revision := Mutate(s.versions[s.current], mutation)], current := revision, content := blocks,
       room := s.room.AcceptExternal(blocks, revision))
  }

  lemma MutatedAt(store: Store, mutation: Mutation, id: string)
    ensures At(Mutate(store, mutation), id) == if id in mutation then mutation[id] else At(store, id)
  {
  }

  /**
   Accepting an external mutation tests the change set but not the pending batch, and drops it. The new baseline is
   what the store holds exactly when the mutation writes every block the pending batch would have changed: for a
   mutation that writes none of them, exactly when no batch was pending.
   */
  lemma ExternalNeedsNoPendingBatch(s: System, mutation: Mutation, blocks: BlockMap, revision: Revision, compare: CompareIds)
    requires Safe(s, compare) && s.call.Idle? && s.room.ExternalError(s.current).None? && revision !in s.versions
    requires StoreOf(blocks) == Mutate(StoreOf(s.content), mutation)
    ensures var b := s.room.baseline;
            && (BaselineStored(Accepted(s, mutation, blocks, revision))
                <==> forall id :: At(StoreOf(b.blocks), id) != At(StoreOf(Expected(b)), id) ==> id in mutation)
            && ((forall id :: At(StoreOf(b.blocks), id) == At(StoreOf(Expected(b)), id)) <==> b.pending.None?)
  {
    var b := s.room.baseline;
    RoomIsExpected(s, compare);
    PendingChangesStore(b, compare);
    AcceptedStored(s, mutation, blocks, revision);
    hide *;
    StoresEqual(StoreOf(b.blocks), StoreOf(Expected(b)));
    MutationsEqual(StoreOf(b.blocks), StoreOf(Expected(b)), mutation);
  }

  /** Without unsaved changes the room holds what the baseline holds, or will hold once its batch is acknowledged. */
  lemma RoomIsExpected(s: System, compare: CompareIds)
    requires Safe(s, compare) && s.room.ExternalError(s.current).None?
    ensures s.current in s.versions && s.versions[s.current] == StoreOf(s.room.baseline.blocks)
    ensures StoreOf(s.content) == StoreOf(Expected(s.room.baseline))
  {
    hide StoreOf, Agree, Expected, Baseline.Consistent;
    assert s.current == RevisionOf(s.room.baseline);
    AgreeIsEqual(s.content, Expected(s.room.baseline));
  }

  lemma PendingChangesStore(b: BlockBaseline.Baseline, compare: CompareIds)
    requires b.Consistent(compare) && (b.pending.Some? ==> Covered(b.blocks, b.pending.value.changes))
    ensures StoreOf(b.blocks) == StoreOf(Expected(b)) <==> b.pending.None?
  {
    hide StoreOf, Covered, Baseline.Plan, Baseline.BlocksAfter;
    if b.pending.Some? {
      EmptyPlanIsUnchanged(b, b.pending.value.changes, b.pending.value.batch.contributors, compare);
    }
  }

  lemma AcceptedStored(s: System, mutation: Mutation, blocks: BlockMap, revision: Revision)
    requires s.current in s.versions && StoreOf(blocks) == Mutate(StoreOf(s.content), mutation)
    ensures BaselineStored(Accepted(s, mutation, blocks, revision))
            <==> Mutate(s.versions[s.current], mutation) == Mutate(StoreOf(s.content), mutation)
  {
    hide StoreOf, Mutate;
  }

  lemma MutationsEqual(a: Store, b: Store, mutation: Mutation)
    ensures Mutate(a, mutation) == Mutate(b, mutation) <==> forall id :: At(a, id) != At(b, id) ==> id in mutation
  {
    StoresEqual(Mutate(a, mutation), Mutate(b, mutation));
    forall id
      ensures At(Mutate(a, mutation), id) == At(Mutate(b, mutation), id) <==> (At(a, id) != At(b, id) ==> id in mutation)
    {
      MutatedAt(a, mutation, id);
      MutatedAt(b, mutation, id);
    }
    hide Mutate, At;
  }

  /**
   The change set is cleared before the decode and the planning, so one that throws forgets it: the room
   stays safe exactly when there was nothing to save.
   */
  lemma ThrowingDrainForgetsChanges(s: System, input: DrainInput, compare: CompareIds)
    requires Safe(s, compare) && s.call.Idle? && s.room.baseline.pending.None? && s.room.changed.Some?
    requires |input.contributors| == 1 && s.room.DrainError(input.changes, input.contributors, compare).Some?
    ensures Safe(Drained(s, input, compare), compare) <==> StoreOf(s.content) == StoreOf(s.room.baseline.blocks)
  {
    AgreeIsEqual(s.content, s.room.baseline.blocks);
  }

  // ---------------------------------------------------------------------------------------------
  // Runs that reach them
  // ---------------------------------------------------------------------------------------------

  /** A room registered without any block. */
  function EmptyRoom(header: Header, revision: Revision): System {
    System(Room(BlockBaseline.Baseline(header, map[], revision.document, revision.target, None), None, 0, true), map[],
           map[revision := map[]], revision, Idle, None)
  }

  /** One block is inserted, and the change set names it. */
  function Inserts(block: Block): Event {
    Edit(map[block.blockId := block], ChangeSet({block.blockId}, {block.blockId}, false, []), false)
  }

  function InsertedInput(header: Header, block: Block, member: string): DrainInput {
    DrainInput(Changes(header.locale, [block], [block.blockId], [block.blockId], []), {member})
  }

  lemma EmptyRoomIsSafe(header: Header, revision: Revision, compare: CompareIds)
    ensures Safe(EmptyRoom(header, revision), compare)
  {
    RegisteredIsSafe(EmptyRoom(header, revision), compare);
  }

  /** The plan of the inserted block writes it. */
  lemma InsertIsPlanned(header: Header, revision: Revision, block: Block, member: string, compare: CompareIds)
    ensures var input := InsertedInput(header, block, member);
            EmptyRoom(header, revision).room.baseline.Plan(input.changes, input.contributors, compare).baseMutations != []
    ensures ById([block]) == map[block.blockId := block]
  {
    var current := ById([block]);
    assert [block][..0] == [] && ById([]) == map[];
    assert current == map[block.blockId := block];
    PlannedBaseMembers(WithoutDuplicates([block.blockId]), current, map[]);
    LocaleForIsOfBlock([block.blockId], [], current, map[], block.blockId);
    assert block.blockId in [block.blockId];
    assert BaseFor(current, map[], block.blockId).value in PlannedBase(WithoutDuplicates([block.blockId]), current, map[]);
  }

  /**
   An inserted block is recorded, and the drain that should save it throws, as the block fails the identity test or
   the room is a target room: the room is not safe any more.
   */
  lemma RefusedInsertIsForgotten(header: Header, revision: Revision, block: Block, member: string, rule: KindRule, compare: CompareIds)
    requires IdentityError(block).Some? || (header.IsTarget() && revision.target.Some?)
    ensures var start := EmptyRoom(header, revision);
            && Safe(start, compare) && Can(start, Inserts(block), compare)
            && var s, input := Step(start, Inserts(block), rule, compare), InsertedInput(header, block, member);
               && Safe(s, compare)
               && s.room.DrainError(input.changes, input.contributors, compare).Some?
               && !Safe(Drained(s, input, compare), compare)
  {
    var start := EmptyRoom(header, revision);
    EmptyRoomIsSafe(header, revision, compare);
    StepIsSafe(start, Inserts(block), rule, compare);
    var s, input := Step(start, Inserts(block), rule, compare), InsertedInput(header, block, member);
    InsertIsPlanned(header, revision, block, member, compare);
    assert block in input.changes.blocks;
    assert s.room.DrainError(input.changes, input.contributors, compare).Some?;
    ThrowingDrainForgetsChanges(s, input, compare);
    assert block.blockId in StoreOf(s.content) && block.blockId !in StoreOf(s.room.baseline.blocks);
    hide Safe;
  }

  /** After an edit, a drain and a failed call, a batch is pending, and the room still takes an external mutation. */
  lemma FailedSaveAcceptsExternal(header: Header, revision: Revision, block: Block, member: string, rule: KindRule, compare: CompareIds)
    requires !header.IsTarget() && IdentityError(block).None?
    ensures var start, input := EmptyRoom(header, revision), InsertedInput(header, block, member);
            && Safe(start, compare) && Can(start, Inserts(block), compare)
            && var edited := Step(start, Inserts(block), rule, compare);
               && Can(edited, PersistStarts(input), compare)
               && var sent := Step(edited, PersistStarts(input), rule, compare);
                  && Can(sent, CallFails, compare)
                  && var s := Step(sent, CallFails, rule, compare);
                     && Safe(s, compare) && s.call.Idle? && s.room.ExternalError(s.current).None?
                     && s.room.baseline.pending.Some?
  {
    var start, input := EmptyRoom(header, revision), InsertedInput(header, block, member);
    EmptyRoomIsSafe(header, revision, compare);
    StepIsSafe(start, Inserts(block), rule, compare);
    var edited := Step(start, Inserts(block), rule, compare);
    InsertIsSent(header, revision, block, member, rule, compare);
    StepIsSafe(edited, PersistStarts(input), rule, compare);
    var sent := Step(edited, PersistStarts(input), rule, compare);
    hide Safe, Baseline.Plan, EmptyRoom, InsertedInput, CanDrain, Drained;
    StepIsSafe(sent, CallFails, rule, compare);
  }

  lemma InsertIsSent(header: Header, revision: Revision, block: Block, member: string, rule: KindRule, compare: CompareIds)
    requires !header.IsTarget() && IdentityError(block).None?
    ensures var edited, input := Step(EmptyRoom(header, revision), Inserts(block), rule, compare), InsertedInput(header, block, member);
            && Can(edited, PersistStarts(input), compare)
            && var sent := Step(edited, PersistStarts(input), rule, compare);
               && !sent.call.Idle? && sent.room.ExternalError(sent.current).None? && sent.room.baseline.pending.Some?
  {
    var edited, input := Step(EmptyRoom(header, revision), Inserts(block), rule, compare), InsertedInput(header, block, member);
    InsertIsPlanned(header, revision, block, member, compare);
    hide Baseline.Plan, ById, IdentityError, StoreOf;
    assert edited.room.DrainError(input.changes, input.contributors, compare).None?;
    assert Decodes(edited.content, edited.room.changed.value, input.changes);
  }

  // ---------------------------------------------------------------------------------------------
  // The room class: the steps of persist between its waits
  // ---------------------------------------------------------------------------------------------

  class ResidentRoom {
    const compare: CompareIds
    var baseline: BlockMutationBaseline
    var pendingChangeSet: Option<ChangeSet>
    var pendingOrigins: nat
    var localeExists: bool

    function State(): Room
      reads this, baseline
    {
      Room(baseline.State(), pendingChangeSet, pendingOrigins, localeExists)
    }

    ghost predicate Valid()
      reads this, baseline
    {
      baseline.compare == compare && baseline.State().Consistent(compare)
    }

    constructor (baseline: BlockMutationBaseline, localeExists: bool)
      requires baseline.State().Consistent(baseline.compare)
      ensures Valid() && this.baseline == baseline && compare == baseline.compare
      ensures State() == Room(baseline.State(), None, 0, localeExists)
    {
      this.baseline, this.localeExists, this.compare := baseline, localeExists, baseline.compare;
      pendingChangeSet, pendingOrigins := None, 0;
    }

    method RecordChange(changes: ChangeSet, observed: bool)
      requires Valid()
      modifies `pendingChangeSet, `pendingOrigins
      ensures Valid() && baseline == old(baseline) && State() == old(State()).Record(changes, observed)
      ensures pendingChangeSet.Some? && pendingOrigins == old(pendingOrigins) + (if observed then 1 else 0)
      ensures var before := if old(pendingChangeSet).Some? then old(pendingChangeSet).value.valueTargets else [];
              pendingChangeSet.value.valueTargets == before + changes.valueTargets
    {
      pendingChangeSet := Some(MergeChangeSets(pendingChangeSet, changes));
      if observed {
        pendingOrigins := pendingOrigins + 1;
      }
    }

    method AcknowledgeSave(ack: Ack) returns (r: Option<PersistError>)
      requires Valid()
      modifies this, baseline
      ensures Valid() && baseline == old(baseline)
      ensures State() == old(State()).Acknowledge(ack) && r == old(State()).AcknowledgeError(ack)
      ensures r == Some(TargetLocaleDeleted) <==>
                && old(baseline.State()).AckError(ack).None? && baseline.header.IsTarget()
                && (ack.targetRevision.None? || ack.targetRevision == Some(""))
      ensures localeExists <==> old(localeExists) && r != Some(TargetLocaleDeleted)
      ensures r.None? || r == Some(TargetLocaleDeleted) ==>
                baseline.pending.None? && RevisionOf(baseline.State()) == RevisionOfAck(ack)
    {
      AcknowledgeConsistent(baseline.State(), ack, compare);
      var failure := baseline.Acknowledge(ack);
      if failure.Some? {
        return Some(BaselineFailure(failure.value));
      }
      if !baseline.header.IsTarget() || (ack.targetRevision.Some? && ack.targetRevision.value != "") {
        return None;
      }
      localeExists := false;
      return Some(TargetLocaleDeleted);
    }

    /** Takes the change set and plans the decoded changes; without a single actor it throws before taking it. */
    method DrainAffected(changes: Changes, contributors: set<string>) returns (r: Result<Batch, PersistError>)
      requires Valid() && baseline.pending.None? && pendingChangeSet.Some? && !pendingChangeSet.value.requiresFullDecode
      modifies this, baseline
      ensures Valid() && baseline == old(baseline)
      ensures |contributors| != 1 ==> State() == old(State()) && r == Err(if contributors == {} then ActorRequired else ActorMixed)
      ensures |contributors| == 1 ==>
                && State() == old(State()).Drain(changes, contributors, compare)
                && (r.Ok? <==> old(State()).DrainError(changes, contributors, compare).None?)
                && (r.Ok? ==> r.value == old(State()).baseline.Plan(changes, contributors, compare))
      ensures |contributors| == 1 ==> pendingChangeSet.None? && pendingOrigins == 0 && baseline.blocks == old(baseline.blocks)
      ensures |contributors| == 1 && changes.locale != old(baseline.header.locale) ==> r == Err(BaselineFailure(LocaleChanged))
      ensures |contributors| == 1 && r.Err? ==> baseline.State() == old(baseline.State())
    {
      hide Baseline.Plan, Keyed, IdentityError;
      if contributors == {} {
        return Err(ActorRequired);
      }
      if |contributors| != 1 {
        return Err(ActorMixed);
      }
      pendingChangeSet, pendingOrigins := None, 0;
      if baseline.State().PrepareError(changes, baseline.State().Plan(changes, contributors, compare)).None? {
        PrepareConsistent(baseline.State(), changes, contributors, compare);
      }
      var batch := baseline.PrepareAffected(changes, contributors);
      return if batch.Ok? then Ok(batch.value) else Err(BaselineFailure(batch.error));
    }

    /** As DrainAffected, from a decode of the whole room. */
    method DrainFull(snapshot: Document, contributors: set<string>) returns (r: Result<Batch, PersistError>)
      requires Valid() && baseline.pending.None? && pendingChangeSet.Some? && pendingChangeSet.value.requiresFullDecode
      modifies this, baseline
      ensures Valid() && baseline == old(baseline)
      ensures |contributors| != 1 ==> State() == old(State()) && r == Err(if contributors == {} then ActorRequired else ActorMixed)
      ensures |contributors| == 1 ==> pendingChangeSet.None? && pendingOrigins == 0 && baseline.blocks == old(baseline.blocks)
      ensures r.Ok? ==>
                && (baseline.pending.None? <==> r.value.IsEmpty())
                && (forall rule :: Apply(rule, StoreOf(baseline.blocks), r.value.baseMutations, r.value.localeMutations)
                                   == StoreOf(ById(snapshot.blocks)))
                && (baseline.pending.Some? ==> Expected(baseline.State()) == ById(snapshot.blocks))
      ensures |contributors| == 1 && r.Err? ==> baseline.State() == old(baseline.State())
      ensures |contributors| == 1 && !Loads(snapshot) ==> r.Err? && r.error.BaselineFailure? && r.error.error.InvalidSnapshot?
      ensures |contributors| == 1 && Loads(snapshot) ==>
                (if r.Err? then Some(r.error) else None)
                == (match old(baseline.State()).FullError(snapshot) case None => None case Some(e) => Some(BaselineFailure(e)))
    {
      if contributors == {} {
        return Err(ActorRequired);
      }
      if |contributors| != 1 {
        return Err(ActorMixed);
      }
      var valueTargets := pendingChangeSet.value.valueTargets;
      pendingChangeSet, pendingOrigins := None, 0;
      var batch := baseline.PrepareFull(snapshot, contributors, valueTargets);
      return if batch.Ok? then Ok(batch.value) else Err(BaselineFailure(batch.error));
    }

    /** The room becomes the baseline at the accepted revision, unless changes are waiting or a revision moved. */
    method AcceptExternalMutation(snapshot: Document, expected: Revision, accepted: Revision)
      returns (r: Option<PersistError>)
      requires Valid()
      requires Header(snapshot.fingerprint, snapshot.sourceLocale, snapshot.locale) == baseline.header
      modifies this
      ensures Valid()
      ensures old(State()).ExternalError(expected).Some? ==> r == old(State()).ExternalError(expected)
      ensures r.Some? ==> State() == old(State())
      ensures r.None? ==> State() == old(State()).AcceptExternal(ById(snapshot.blocks), accepted)
      ensures r.None? ==>
                && old(pendingChangeSet).None? && old(pendingOrigins) == 0 && old(RevisionOf(baseline.State())) == expected
                && pendingChangeSet.None? && RevisionOf(baseline.State()) == accepted
                && baseline.blocks == ById(snapshot.blocks) && baseline.pending.None?
                && (localeExists <==> !baseline.header.IsTarget() || accepted.target.Some?)
      ensures r.None? <==> old(State()).ExternalError(expected).None? && Loads(snapshot)
    {
      if pendingChangeSet.Some? || pendingOrigins > 0 {
        return Some(UncommittedChanges);
      }
      if baseline.documentRevision != expected.document {
        return Some(DocumentRevisionChanged);
      }
      if baseline.targetRevision != expected.target {
        return Some(TargetRevisionChanged);
      }
      var loaded := BlockMutationBaseline.FromSnapshot(snapshot, accepted.document, accepted.target, compare);
      if loaded.Err? {
        return Some(BaselineFailure(InvalidSnapshot(loaded.error)));
      }
      baseline := loaded.value;
      localeExists := !baseline.header.IsTarget() || accepted.target.Some?;
      return None;
    }

    /** A metadata save moved the revisions; the blocks stay. */
    method AcknowledgeMetadataRevision(expected: string, accepted: Revision) returns (r: Option<PersistError>)
      requires Valid()
      modifies this, baseline
      ensures Valid() && baseline == old(baseline)
      ensures r.None? || r == Some(TargetLocaleDeleted) ==>
                && baseline.State() == old(baseline.State()).(documentRevision := accepted.document, targetRevision := accepted.target)
                && old(baseline.documentRevision) == expected && old(baseline.pending).None?
                && (baseline.header.IsTarget() ==> accepted.document == expected)
                && (!baseline.header.IsTarget() ==> accepted.target.None?)
      ensures r.Some? && r != Some(TargetLocaleDeleted) ==> State() == old(State())
      ensures State() == old(State()).(baseline := baseline.State(), localeExists := localeExists)
      ensures localeExists <==> old(localeExists) && r != Some(TargetLocaleDeleted)
      ensures r == Some(TargetLocaleDeleted) ==>
                baseline.header.IsTarget() && (accepted.target.None? || accepted.target == Some(""))
      ensures r.None? && baseline.header.IsTarget() ==> accepted.target.Some? && accepted.target != Some("")
    {
      if baseline.header.IsTarget() && accepted.document != expected {
        return Some(BaselineFailure(TargetDocumentRevisionChanged));
      }
      if !baseline.header.IsTarget() && accepted.target.Some? {
        return Some(BaselineFailure(SourceTargetRevisionForbidden));
      }
      var failure := baseline.AdvanceDocumentRevision(expected, accepted.document);
      if failure.Some? {
        return Some(BaselineFailure(failure.value));
      }
      failure := baseline.AdvanceTargetRevision(accepted.target);
      assert failure.None?;
      if baseline.header.IsTarget() && (accepted.target.None? || accepted.target.value == "") {
        localeExists := false;
        return Some(TargetLocaleDeleted);
      }
      return None;
    }
  }
}
