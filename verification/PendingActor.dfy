/**
 The pending mutation actor of each document: whose edits the next save will be attributed to.

 A document's entry maps its actor to the sequence number of the actor's last edit. A save remembers the
 entry it started with and clears the actor when the number has not moved. `RunKeepsActors` proves for every
 run, with any number of saves under way, that a document has an entry exactly when it has an edit that no
 finished save covers, and that the entry then names the member of its last edit alone.
 */
module PendingActor {
  import opened Wrappers

  type Entry = map<string, nat>

  datatype MarkError = MixedActor

  // ---------------------------------------------------------------------------------------------
  // The entries
  // ---------------------------------------------------------------------------------------------

  datatype Tracker = Tracker(pending: map<string, Entry>, sequence: nat) {
    function At(document: string): Entry {
      if document in pending then pending[document] else map[]
    }

    /** Fails when another member's edits are pending. */
    function Mark(document: string, member: string): Result<Tracker, MarkError> {
      if At(document) != map[] && member !in At(document) then Err(MixedActor)
      else Ok(Tracker(pending[document := At(document)[member := sequence + 1]], sequence + 1))
    }

    /** A save that started with `snapshot` succeeded: the members without a later edit are covered. */
    function Advance(document: string, snapshot: Entry): Tracker {
      if document !in pending then this
      else
        var left := Left(pending[document], snapshot);
        if left == map[] then Drop(document) else this.(pending := pending[document := left])
    }

    function Drop(document: string): Tracker {
      this.(pending := pending - {document})
    }
  }

  function Left(entry: Entry, snapshot: Entry): Entry {
    map m | m in entry && !(m in snapshot && snapshot[m] == entry[m]) :: entry[m]
  }

  // ---------------------------------------------------------------------------------------------
  // Runs
  // ---------------------------------------------------------------------------------------------

  datatype Mutation = Mutation(document: string, member: string)

  /** A save of a document, the entry it started with and how many edits had been accepted by then. */
  datatype Save = Save(document: string, snapshot: Entry, position: nat)

  /**
   `log` is every accepted edit, `saves` every save begun, and `settled` how many edits of a document's past
   are saved or given up.
   */
  datatype State = State(tracker: Tracker, log: seq<Mutation>, saves: seq<Save>, settled: map<string, nat>) {
    function SettledAt(document: string): nat {
      if document in settled then settled[document] else 0
    }
  }

  datatype Event =
    | Edit(document: string, member: string)
    | SaveBegins(document: string)
    | SaveSucceeds(save: nat)
    | Dropped(document: string)

  predicate Can(s: State, e: Event) {
    e.SaveSucceeds? ==> e.save < |s.saves|
  }

  function Max(a: nat, b: nat): nat {
    if a < b then b else a
  }

  function Step(s: State, e: Event): State
    requires Can(s, e)
  {
    match e
    case Edit(document, member) =>
      (match s.tracker.Mark(document, member)
       case Ok(marked) => s.(tracker := marked, log := s.log + [Mutation(document, member)])
       case Err(_) => s)
    case SaveBegins(document) => s.(saves := s.saves + [Save(document, s.tracker.At(document), |s.log|)])
    case SaveSucceeds(i) =>
      var save := s.saves[i];
      s.(tracker := s.tracker.Advance(save.document, save.snapshot),
         settled := s.settled[save.document := Max(s.SettledAt(save.document), save.position)])
    case Dropped(document) =>
      s.(tracker := s.tracker.Drop(document), settled := s.settled[document := |s.log|])
  }

  const START := State(Tracker(map[], 0), [], [], map[])

  function Run(s: State, events: seq<Event>): Option<State>
    decreases |events|
  {
    if events == [] then Some(s) else if !Can(s, events[0]) then None else Run(Step(s, events[0]), events[1..])
  }

  /** A run goes on with exactly the events that can happen next. */
  lemma {:induction false} RunGoesOn(s: State, events: seq<Event>, e: Event)
    ensures Run(s, []) == Some(s)
    ensures Run(s, events + [e])
            == var before := Run(s, events);
               if before.Some? && Can(before.value, e) then Some(Step(before.value, e)) else None
    decreases |events|
  {
    hide Step, Can;
    if events == [] {
      assert [e][1..] == [];
    } else {
      assert (events + [e])[1..] == events[1..] + [e];
      if Can(s, events[0]) {
        RunGoesOn(Step(s, events[0]), events[1..], e);
      }
    }
  }

  // ---------------------------------------------------------------------------------------------
  // What the entries stand for
  // ---------------------------------------------------------------------------------------------

  /** Where the last edit of `document` among the first `n` is. */
  function LastEdit(log: seq<Mutation>, document: string, n: nat): (last: Option<nat>)
    requires n <= |log|
    ensures last.Some? ==> last.value < n && log[last.value].document == document
    ensures forall k | 0 <= k < n && log[k].document == document :: last.Some? && k <= last.value
  {
    if n == 0 then None else if log[n - 1].document == document then Some(n - 1) else LastEdit(log, document, n - 1)
  }

  /** The entry a document should have when its first `n` edits are in and the first `settled` of all are settled. */
  function EntryOf(log: seq<Mutation>, document: string, n: nat, settled: nat): Entry
    requires n <= |log|
  {
    match LastEdit(log, document, n)
    case None => map[]
    case Some(last) => if last < settled then map[] else map[log[last].member := last + 1]
  }

  ghost predicate EntryAgrees(s: State, document: string) {
    && s.tracker.At(document) == EntryOf(s.log, document, |s.log|, s.SettledAt(document))
    && (document in s.tracker.pending ==> s.tracker.pending[document] != map[])
    && s.SettledAt(document) <= |s.log|
  }

  ghost predicate SaveAgrees(s: State, save: Save) {
    && save.position <= |s.log|
    && (|| save.snapshot == EntryOf(s.log, save.document, save.position, 0)
        || (save.snapshot == map[]
            && EntryOf(s.log, save.document, save.position, s.SettledAt(save.document)) == map[]))
  }

  ghost predicate Agrees(s: State) {
    && s.tracker.sequence == |s.log|
    && (forall document :: EntryAgrees(s, document))
    && (forall i | 0 <= i < |s.saves| :: SaveAgrees(s, s.saves[i]))
  }

  /** Dropping a document forgets its actor, as given up, and no other one. */
  lemma DroppedIsForgotten(s: State, document: string)
    ensures var after := Step(s, Dropped(document));
            && document !in after.tracker.pending && after.SettledAt(document) == |s.log| && after.log == s.log
            && forall d | d != document ::
                 after.tracker.At(d) == s.tracker.At(d) && after.SettledAt(d) == s.SettledAt(d)
  {
    var after := Step(s, Dropped(document));
    forall d | d != document
      ensures after.tracker.At(d) == s.tracker.At(d)
    {
      assert d in after.tracker.pending <==> d in s.tracker.pending;
    }
  }

  lemma {:induction false} LastEditOfPrefix(log: seq<Mutation>, edit: Mutation, document: string, n: nat)
    requires n <= |log|
    ensures LastEdit(log + [edit], document, n) == LastEdit(log, document, n)
  {
    if n > 0 {
      LastEditOfPrefix(log, edit, document, n - 1);
    }
  }

  lemma EditedEntry(s: State, document: string, member: string)
    requires EntryAgrees(s, document) && s.tracker.sequence == |s.log| && s.tracker.Mark(document, member).Ok?
    ensures EntryAgrees(Step(s, Edit(document, member)), document)
  {
    var entry := s.tracker.At(document);
    assert entry == map[] || entry.Keys == {member};
    assert entry[member := |s.log| + 1] == map[member := |s.log| + 1];
    assert member in entry[member := |s.log| + 1];
  }

  lemma OtherEntry(s: State, document: string, member: string, other: string)
    requires EntryAgrees(s, other) && other != document && s.tracker.Mark(document, member).Ok?
    ensures EntryAgrees(Step(s, Edit(document, member)), other)
  {
    LastEditOfPrefix(s.log, Mutation(document, member), other, |s.log|);
  }

  lemma EditAgrees(s: State, document: string, member: string)
    requires Agrees(s)
    ensures Agrees(Step(s, Edit(document, member)))
  {
    assert EntryAgrees(s, document);
    if s.tracker.Mark(document, member).Ok? {
      var after := Step(s, Edit(document, member));
      forall d
        ensures EntryAgrees(after, d)
      {
        assert EntryAgrees(s, d);
        hide EntryAgrees;
        if d == document {
          EditedEntry(s, document, member);
        } else {
          OtherEntry(s, document, member, d);
        }
      }
      forall i | 0 <= i < |after.saves|
        ensures SaveAgrees(after, after.saves[i])
      {
        assert SaveAgrees(s, s.saves[i]);
        LastEditOfPrefix(s.log, Mutation(document, member), s.saves[i].document, s.saves[i].position);
      }
    }
  }

  lemma SaveBeginsAgrees(s: State, document: string)
    requires Agrees(s)
    ensures Agrees(Step(s, SaveBegins(document)))
  {
    var after := Step(s, SaveBegins(document));
    forall d
      ensures EntryAgrees(after, d)
    {
      assert EntryAgrees(s, d);
    }
    forall i | 0 <= i < |after.saves|
      ensures SaveAgrees(after, after.saves[i])
    {
      if i < |s.saves| {
        assert SaveAgrees(s, s.saves[i]);
      } else {
        assert EntryAgrees(s, document);
      }
    }
  }

  /** The last edit overall is the last up to an earlier position, or comes after it. */
  lemma {:induction false} LastEditGrows(log: seq<Mutation>, document: string, m: nat, n: nat)
    requires m <= n <= |log|
    ensures LastEdit(log, document, n) == LastEdit(log, document, m)
            || (LastEdit(log, document, n).Some? && m <= LastEdit(log, document, n).value)
  {
    if m < n {
      LastEditGrows(log, document, m, n - 1);
    }
  }

  lemma AdvanceAgrees(s: State, i: nat)
    requires Agrees(s) && i < |s.saves|
    ensures EntryAgrees(Step(s, SaveSucceeds(i)), s.saves[i].document)
  {
    var save := s.saves[i];
    var after := Step(s, SaveSucceeds(i));
    assert EntryAgrees(s, save.document) && SaveAgrees(s, save);
    LastEditGrows(s.log, save.document, save.position, |s.log|);
    var left := Left(s.tracker.At(save.document), save.snapshot);
    assert left == EntryOf(s.log, save.document, |s.log|, Max(s.SettledAt(save.document), save.position));
  }

  /** Settling more of a document leaves the other documents and all snapshots as they should be. */
  lemma SettledAgrees(s: State, after: State, document: string)
    requires Agrees(s) && after.log == s.log && after.saves == s.saves && after.tracker.sequence == s.tracker.sequence
    requires after.settled == s.settled[document := after.SettledAt(document)]
    requires s.SettledAt(document) <= after.SettledAt(document)
    requires forall d | d != document :: d in after.tracker.pending <==> d in s.tracker.pending
    requires forall d | d != document && d in s.tracker.pending :: after.tracker.pending[d] == s.tracker.pending[d]
    requires EntryAgrees(after, document)
    ensures Agrees(after)
  {
    forall d
      ensures EntryAgrees(after, d)
    {
      assert EntryAgrees(s, d);
    }
    forall i | 0 <= i < |after.saves|
      ensures SaveAgrees(after, after.saves[i])
    {
      assert SaveAgrees(s, s.saves[i]);
    }
  }

  lemma StepAgrees(s: State, e: Event)
    requires Agrees(s) && Can(s, e)
    ensures Agrees(Step(s, e))
  {
    match e {
      case Edit(document, member) => EditAgrees(s, document, member);
      case SaveBegins(document) => SaveBeginsAgrees(s, document);
      case SaveSucceeds(i) =>
        AdvanceAgrees(s, i);
        SettledAgrees(s, Step(s, e), s.saves[i].document);
      case Dropped(document) =>
        assert EntryAgrees(s, document);
        SettledAgrees(s, Step(s, e), document);
    }
  }

  /**
   At every point of every run, a document has a pending actor exactly when one of its edits is not settled;
   the actor is then one member, the one of its last edit, and no unsettled edit of the document is by
   anyone else.
   */
  lemma {:induction false} RunKeepsActors(s: State, events: seq<Event>, document: string)
    requires Agrees(s) && SoleActor(s, document) && Run(s, events).Some?
    ensures var after := Run(s, events).value;
            Agrees(after) && SoleActor(after, document)
    decreases |events|
  {
    if events != [] {
      StepAgrees(s, events[0]);
      StepKeepsSole(s, events[0], document);
      hide Step, Agrees, SoleActor;
      RunKeepsActors(Step(s, events[0]), events[1..], document);
    }
  }

  lemma NothingPendingAtStart(document: string)
    ensures Agrees(START) && SoleActor(START, document)
  {
    assert forall d :: EntryAgrees(START, d);
  }

  ghost predicate SoleActor(s: State, document: string) {
    && (document in s.tracker.pending <==>
          exists k :: s.SettledAt(document) <= k < |s.log| && s.log[k].document == document)
    && (forall k | s.SettledAt(document) <= k < |s.log| && s.log[k].document == document ::
          s.tracker.At(document).Keys == {s.log[k].member})
  }

  lemma StepKeepsSole(s: State, e: Event, document: string)
    requires Agrees(s) && Can(s, e) && SoleActor(s, document)
    ensures SoleActor(Step(s, e), document)
  {
    var after := Step(s, e);
    StepAgrees(s, e);
    assert EntryAgrees(s, document) && EntryAgrees(after, document);
    hide Agrees, SaveAgrees;
    assert after.tracker.At(document).Keys != s.tracker.At(document).Keys ==>
        after.tracker.At(document) == map[] || s.tracker.At(document) == map[];
  }

  /**
   A save that succeeds clears the actor exactly when the document got no edit after the save began, other
   than edits settled since.
   */
  lemma SaveClearsExactly(s: State, i: nat)
    requires Agrees(s) && i < |s.saves|
    ensures var save := s.saves[i];
            save.document !in Step(s, SaveSucceeds(i)).tracker.pending
            <==> forall k | save.position <= k < |s.log| && s.log[k].document == save.document :: k < s.SettledAt(save.document)
  {
    AdvanceAgrees(s, i);
    var save := s.saves[i];
    var after := Step(s, SaveSucceeds(i));
    assert EntryAgrees(after, save.document);
    var last := LastEdit(s.log, save.document, |s.log|);
    if save.document in after.tracker.pending {
      assert save.position <= last.value && s.log[last.value].document == save.document;
    } else {
      assert after.tracker.At(save.document) == map[];
      assert last.Some? ==> s.log[last.value].member !in after.tracker.At(save.document);
    }
  }

  // ---------------------------------------------------------------------------------------------
  // The inbound lane
  // ---------------------------------------------------------------------------------------------

  predicate NoEditOf(events: seq<Event>, document: string) {
    forall e | e in events :: !(e.Edit? && e.document == document)
  }

  lemma {:induction false} RunWithoutEdit(s: State, events: seq<Event>, document: string, i: nat)
    requires Agrees(s) && Run(s, events).Some? && NoEditOf(events, document) && i < |s.saves|
    requires forall k | s.saves[i].position <= k < |s.log| :: s.log[k].document != document
    ensures var after := Run(s, events).value;
            && Agrees(after) && i < |after.saves| && after.saves[i] == s.saves[i]
            && forall k | s.saves[i].position <= k < |after.log| :: after.log[k].document != document
    decreases |events|
  {
    if events != [] {
      var e := events[0];
      assert e in events && forall x :: x in events[1..] ==> x in events;
      StepAgrees(s, e);
      hide Agrees;
      RunWithoutEdit(Step(s, e), events[1..], document, i);
    }
  }

  /**
   The lane of a document lets the next member in only after a save of the edits before it. Whatever
   else happens during that save, other than an edit of the document, once it succeeds nothing is pending:
   the flush is never incomplete, and the mark that follows never fails.
   */
  lemma {:induction false} FlushLeavesNoActor(s: State, document: string, during: seq<Event>, member: string)
    requires Agrees(s) && NoEditOf(during, document)
    requires Run(Step(s, SaveBegins(document)), during).Some?
    ensures var before := Run(Step(s, SaveBegins(document)), during).value;
            && Can(before, SaveSucceeds(|s.saves|))
            && var after := Step(before, SaveSucceeds(|s.saves|));
               && document !in after.tracker.pending
               && after.tracker.Mark(document, member).Ok?
  {
    var begun := Step(s, SaveBegins(document));
    StepAgrees(s, SaveBegins(document));
    RunWithoutEdit(begun, during, document, |s.saves|);
    var before := Run(begun, during).value;
    SaveClearsExactly(before, |s.saves|);
  }

  /**
   Where the lane of a document is: free, at the save before an edit by `member`, or past it. An edit waits its
   turn before its lane takes it.
   */
  datatype Lane = Free | Flushing(member: string, save: nat) | Cleared(member: string)

  datatype Lanes = Lanes(base: State, lanes: map<string, Lane>) {
    function At(document: string): Lane {
      if document in lanes then lanes[document] else Free
    }
  }

  datatype LaneEvent =
    | Takes(document: string, member: string)
    | Flushed(document: string)
    | Rejected(document: string)
    | Applied(document: string)
    | Other(event: Event)

  /** Edits come only through the lane of their document; saves and unloads come as they like. */
  predicate CanLane(s: Lanes, e: LaneEvent) {
    match e
    case Takes(document, _) => s.At(document).Free?
    case Flushed(document) => s.At(document).Flushing? && s.At(document).save < |s.base.saves|
    case Rejected(document) => !s.At(document).Free?
    case Applied(document) => s.At(document).Cleared?
    case Other(event) => !event.Edit? && Can(s.base, event)
  }

  function LaneStep(s: Lanes, e: LaneEvent): Lanes
    requires CanLane(s, e)
  {
    match e
    case Takes(document, member) =>
      var entry := s.base.tracker.At(document);
      if |entry| > 1 then s
      else if entry == map[] || entry.Keys == {member} then s.(lanes := s.lanes[document := Cleared(member)])
      else Lanes(Step(s.base, SaveBegins(document)), s.lanes[document := Flushing(member, |s.base.saves|)])
    case Flushed(document) =>
      var base := Step(s.base, SaveSucceeds(s.At(document).save));
      Lanes(base, s.lanes[document := if base.tracker.At(document) == map[] then Cleared(s.At(document).member) else Free])
    case Rejected(document) => s.(lanes := s.lanes[document := Free])
    case Applied(document) => Lanes(Step(s.base, Edit(document, s.At(document).member)), s.lanes[document := Free])
    case Other(event) => s.(base := Step(s.base, event))
  }

  function LaneRun(s: Lanes, events: seq<LaneEvent>): Option<Lanes>
    decreases |events|
  {
    if events == [] then Some(s) else if !CanLane(s, events[0]) then None else LaneRun(LaneStep(s, events[0]), events[1..])
  }

  /** A run of the lanes goes on with exactly the events that can happen next. */
  lemma {:induction false} LaneRunGoesOn(s: Lanes, events: seq<LaneEvent>, e: LaneEvent)
    ensures LaneRun(s, []) == Some(s)
    ensures LaneRun(s, events + [e])
            == var before := LaneRun(s, events);
               if before.Some? && CanLane(before.value, e) then Some(LaneStep(before.value, e)) else None
    decreases |events|
  {
    hide LaneStep, CanLane;
    if events == [] {
      assert [e][1..] == [];
    } else {
      assert (events + [e])[1..] == events[1..] + [e];
      if CanLane(s, events[0]) {
        LaneRunGoesOn(LaneStep(s, events[0]), events[1..], e);
      }
    }
  }

  /**
   No actor is mixed and no flush is incomplete: an edit waits for a save exactly when another member's edits are
   pending, which are gone afterwards, and every edit that is applied is marked and logged under its author.
   */
  predicate Succeeds(s: Lanes, e: LaneEvent)
    requires CanLane(s, e)
  {
    var after := LaneStep(s, e);
    match e
    case Takes(document, member) =>
      if s.base.tracker.At(document).Keys <= {member} then after.At(document) == Cleared(member) && after.base == s.base
      else && after.At(document) == Flushing(member, |s.base.saves|)
           && after.base.saves == s.base.saves + [Save(document, s.base.tracker.At(document), |s.base.log|)]
    case Flushed(document) =>
      after.At(document) == Cleared(s.At(document).member) && document !in after.base.tracker.pending
    case Applied(document) =>
      && s.base.tracker.Mark(document, s.At(document).member).Ok?
      && after.base.log == s.base.log + [Mutation(document, s.At(document).member)]
      && document in after.base.tracker.pending && after.At(document).Free?
    case Rejected(document) => after.base == s.base && after.At(document).Free?
    case Other(event) => after == s.(base := Step(s.base, event))
  }

  predicate AllSucceed(s: Lanes, events: seq<LaneEvent>)
    decreases |events|
  {
    events != [] && CanLane(s, events[0]) ==> Succeeds(s, events[0]) && AllSucceed(LaneStep(s, events[0]), events[1..])
  }

  /** Since the flush of a lane began its document got no edit; past it no other actor is pending. */
  ghost predicate LaneSafe(s: Lanes, document: string) {
    match s.At(document)
    case Free => true
    case Flushing(_, i) =>
      && i < |s.base.saves| && s.base.saves[i].document == document
      && forall k | s.base.saves[i].position <= k < |s.base.log| :: s.base.log[k].document != document
    case Cleared(member) => s.base.tracker.At(document).Keys <= {member}
  }

  ghost predicate LanesSafe(s: Lanes) {
    Agrees(s.base) && forall document :: LaneSafe(s, document)
  }

  lemma EntryIsSmall(s: State, document: string)
    requires EntryAgrees(s, document)
    ensures s.tracker.At(document) == map[] || exists m :: s.tracker.At(document).Keys == {m}
    ensures |s.tracker.At(document)| <= 1
  {
    var entry := s.tracker.At(document);
    if entry != map[] {
      var m :| m in entry;
      assert entry.Keys == {m};
      assert |entry| == |entry.Keys| == 1;
    } else {
      assert |entry| == 0;
    }
  }

  /** A finished flush leaves nothing pending. */
  lemma FlushedIsCleared(s: Lanes, document: string)
    requires LanesSafe(s) && CanLane(s, Flushed(document))
    ensures document !in Step(s.base, SaveSucceeds(s.At(document).save)).tracker.pending
  {
    assert LaneSafe(s, document);
    SaveClearsExactly(s.base, s.At(document).save);
  }

  lemma LaneNeverFails(s: Lanes, e: LaneEvent)
    requires LanesSafe(s) && CanLane(s, e)
    ensures Succeeds(s, e)
  {
    match e {
      case Takes(document, _) =>
        assert EntryAgrees(s.base, document);
        EntryIsSmall(s.base, document);
      case Flushed(document) => FlushedIsCleared(s, document);
      case Applied(document) =>
        assert LaneSafe(s, document);
      case _ =>
    }
  }

  lemma OtherLaneSafe(s: Lanes, e: LaneEvent, document: string)
    requires LanesSafe(s) && CanLane(s, e) && Agrees(LaneStep(s, e).base)
    requires e.Other? || e.document != document
    ensures LaneSafe(LaneStep(s, e), document)
  {
    assert LaneSafe(s, document);
    hide Agrees;
    if e.Applied? || e.Flushed? || e.Takes? {
      assert s.base.tracker.At(document) == LaneStep(s, e).base.tracker.At(document) || e.Flushed?;
    }
  }

  lemma OwnLaneSafe(s: Lanes, e: LaneEvent)
    requires LanesSafe(s) && CanLane(s, e) && !e.Other?
    ensures LaneSafe(LaneStep(s, e), e.document)
  {
    if e.Flushed? {
      FlushedIsCleared(s, e.document);
    }
    hide Agrees;
  }

  lemma BaseAgrees(s: Lanes, e: LaneEvent)
    requires LanesSafe(s) && CanLane(s, e)
    ensures Agrees(LaneStep(s, e).base)
  {
    match e {
      case Takes(document, _) => StepAgrees(s.base, SaveBegins(document));
      case Flushed(document) => StepAgrees(s.base, SaveSucceeds(s.At(document).save));
      case Applied(document) => StepAgrees(s.base, Edit(document, s.At(document).member));
      case Other(event) => StepAgrees(s.base, event);
      case Rejected(_) =>
    }
    hide Agrees, Step, LaneSafe;
  }

  lemma LaneStepSafe(s: Lanes, e: LaneEvent)
    requires LanesSafe(s) && CanLane(s, e)
    ensures LanesSafe(LaneStep(s, e))
  {
    BaseAgrees(s, e);
    forall document
      ensures LaneSafe(LaneStep(s, e), document)
    {
      if e.Other? || e.document != document {
        OtherLaneSafe(s, e, document);
      } else {
        OwnLaneSafe(s, e);
      }
      hide *;
    }
  }

  /**
   When edits come only through the lanes, in every run no lane meets a mixed actor, no flush is incomplete and
   marking the author of an applied edit never fails, whatever saves and unloads happen in between.
   */
  lemma {:induction false} LanesNeverFail(s: Lanes, events: seq<LaneEvent>)
    requires LanesSafe(s) && LaneRun(s, events).Some?
    ensures AllSucceed(s, events) && LanesSafe(LaneRun(s, events).value)
    decreases |events|
  {
    if events != [] {
      LaneNeverFails(s, events[0]);
      LaneStepSafe(s, events[0]);
      hide LaneStep, LanesSafe, Succeeds;
      LanesNeverFail(LaneStep(s, events[0]), events[1..]);
    }
  }

  lemma LanesSafeAtStart()
    ensures LanesSafe(Lanes(START, map[]))
  {
    NothingPendingAtStart("");
  }

  // ---------------------------------------------------------------------------------------------
  // In place
  // ---------------------------------------------------------------------------------------------

  /** The part of the tracker that knows the pending actors. */
  class PendingContributors {
    var pendingContributors: map<string, Entry>
    var mutationSequence: nat

    ghost function Value(): Tracker
      reads this
    {
      Tracker(pendingContributors, mutationSequence)
    }

    constructor ()
      ensures Value() == START.tracker
    {
      pendingContributors, mutationSequence := map[], 0;
    }

    /** What a save starts with. */
    method Snapshot(document: string) returns (snapshot: Entry)
      ensures snapshot == Value().At(document)
    {
      snapshot := if document in pendingContributors then pendingContributors[document] else map[];
    }

    method MarkPendingContributor(document: string, member: string) returns (failure: Option<MarkError>)
      modifies this
      ensures failure == (match old(Value()).Mark(document, member) case Ok(_) => None case Err(e) => Some(e))
      ensures failure.None? ==> old(Value()).Mark(document, member) == Ok(Value())
      ensures failure.Some? ==> Value() == old(Value())
    {
      if document !in pendingContributors {
        pendingContributors := pendingContributors[document := map[]];
      }
      var pending := pendingContributors[document];
      if |pending| > 0 && member !in pending {
        return Some(MixedActor);
      }
      mutationSequence := mutationSequence + 1;
      assert pendingContributors[document := pending[member := mutationSequence]]
             == old(pendingContributors)[document := pending[member := mutationSequence]];
      pendingContributors := pendingContributors[document := pending[member := mutationSequence]];
      return None;
    }

    method AdvancePendingContributors(document: string, snapshot: Entry)
      modifies this`pendingContributors
      ensures Value() == old(Value()).Advance(document, snapshot)
      ensures forall m :: m in Value().At(document) <==>
                            m in old(Value()).At(document) && !(m in snapshot && snapshot[m] == old(Value()).At(document)[m])
    {
      if document !in pendingContributors {
        return;
      }
      var current, rest := pendingContributors[document], snapshot.Keys;
      while rest != {}
        invariant rest <= snapshot.Keys
        invariant current == Left(pendingContributors[document],
                                  map m | m in snapshot && m !in rest :: snapshot[m])
        decreases rest
      {
        var member :| member in rest;
        if member in current && current[member] == snapshot[member] {
          current := current - {member};
        }
        rest := rest - {member};
      }
      assert (map m | m in snapshot && m !in rest :: snapshot[m]) == snapshot;
      if |current| == 0 {
        pendingContributors := pendingContributors - {document};
      } else {
        pendingContributors := pendingContributors[document := current];
      }
    }

    method DocumentUnloaded(document: string)
      modifies this`pendingContributors
      ensures Value() == old(Value()).Drop(document)
    {
      pendingContributors := pendingContributors - {document};
    }
  }
}
