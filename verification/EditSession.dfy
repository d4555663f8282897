/**
 Edit sessions: who has edits that no version checkpoint covers yet.

 A session collects contributors and checkpoints them when a timer fires. Edits accepted during a
 checkpoint go to the next set; a failed checkpoint merges the two again. `RunKeepsContributors` proves
 for every run that the two sets together are exactly the members with an edit not yet covered by a
 successful version checkpoint.
 */
module EditSession {
  import opened Wrappers

  const EDIT_SESSION_MAX_RETRIES: nat := 3

  datatype Mode = ActiveWindow | RoomClose

  // ---------------------------------------------------------------------------------------------
  // One session
  // ---------------------------------------------------------------------------------------------

  datatype Session = Session(contributors: set<string>, nextContributors: set<string>, finalizing: bool, generation: nat,
                             retryAttempts: nat, timer: Option<Mode>)
  {
    /** No timer is set once shutdown began, or over another one. */
    function Schedule(mode: Mode, stopping: bool): Session {
      if stopping || timer.Some? then this else this.(timer := Some(mode))
    }

    function CancelTimer(): Session {
      this.(timer := None)
    }

    function CancelRoomClose(): Session {
      if timer == Some(RoomClose) then CancelTimer() else this
    }

    function ScheduleIfIdle(stopping: bool): Session {
      if finalizing || timer.Some? then this else Schedule(ActiveWindow, stopping)
    }

    function Recorded(member: string, stopping: bool): Session {
      var s := CancelRoomClose().(generation := generation + 1, retryAttempts := 0);
      var added := if finalizing then s.(nextContributors := nextContributors + {member})
                   else s.(contributors := contributors + {member});
      added.ScheduleIfIdle(stopping)
    }

    function Connected(stopping: bool): Session {
      CancelRoomClose().(retryAttempts := 0).ScheduleIfIdle(stopping)
    }

    function Disconnected(editorConnected: bool, stopping: bool): Session {
      if finalizing || retryAttempts > EDIT_SESSION_MAX_RETRIES || editorConnected then this
      else CancelTimer().Schedule(RoomClose, stopping)
    }

    function Merged(): Session {
      this.(contributors := contributors + nextContributors, nextContributors := {}, finalizing := false)
    }

    function RetryMode(editorConnected: bool): Mode {
      if editorConnected then ActiveWindow else RoomClose
    }

    /** The checkpoint is put off: something changed since it started. */
    function PutOff(editorConnected: bool, stopping: bool): Session {
      Merged().Schedule(RetryMode(editorConnected), stopping)
    }

    function Failed(): Session {
      Merged().(retryAttempts := retryAttempts + 1)
    }

    /** The checkpoint succeeded, and the next one is for those who edited meanwhile. */
    function Continued(editorConnected: bool, stopping: bool): Session {
      this.(contributors := nextContributors, nextContributors := {}, finalizing := false)
          .Schedule(RetryMode(editorConnected), stopping)
    }
  }

  const NEW_SESSION := Session({}, {}, false, 0, 0, None)

  // ---------------------------------------------------------------------------------------------
  // The life of the session of one entity
  // ---------------------------------------------------------------------------------------------

  /** Where a finalization waits: for its turn, for the save before the checkpoint, for the checkpoint. */
  datatype Stage = Queued | Saving | Checkpointing(issuedAt: nat)

  datatype Job = Job(generation: nat, members: set<string>, ignoreConnections: bool, throwOnFailure: bool, stage: Stage)

  /**
   `log` is the members of all edits accepted in this session, in order, and `covered` how many of them a
   successful version checkpoint covers: those accepted before it was issued. `settling` counts the
   conflicts whose handler is still running.
   */
  datatype State = State(session: Option<Session>, job: Option<Job>, settling: nat, stopping: bool,
                         log: seq<string>, covered: nat)

  datatype Failure = Plain | Conflict

  datatype Event =
    | Edit(member: string)
    | Connect
    | Disconnect(editorConnected: bool)
    | TimerFires(editorConnected: bool)
    | TurnComes(editorConnected: bool)
    | SaveDone(editorConnected: bool)
    | CheckpointDone(editorConnected: bool)
    | JobFails(failure: Failure, editorConnected: bool)
    | ConflictSettled
    | Discarded
    | BeginShutdown
    | DrainPass

  function Gone(s: State): State {
    s.(session := None, job := None, settling := 0, log := [], covered := 0)
  }

  function StartJob(s: State, session: Session, ignoreConnections: bool, throwOnFailure: bool): State {
    s.(session := Some(session.(finalizing := true)),
       job := Some(Job(session.generation, session.contributors, ignoreConnections, throwOnFailure, Queued)))
  }

  predicate CanContinue(session: Session, job: Job, editorConnected: bool) {
    session.generation == job.generation && session.nextContributors == {} && (job.ignoreConnections || !editorConnected)
  }

  /**
   What can happen next. The server stops tracking edit sessions and stops admitting connections in one
   stretch, and from then on a connected hook returns before it reaches the session.
   */
  predicate Can(s: State, e: Event) {
    match e
    case Connect => !s.stopping
    case TimerFires(_) => s.session.Some? && s.session.value.timer.Some?
    case TurnComes(_) => s.session.Some? && s.job.Some? && s.job.value.stage.Queued?
    case SaveDone(_) => s.session.Some? && s.job.Some? && s.job.value.stage.Saving?
    case CheckpointDone(_) => s.session.Some? && s.job.Some? && s.job.value.stage.Checkpointing?
    case JobFails(_, _) => s.session.Some? && s.job.Some?
    case ConflictSettled => s.session.Some? && s.settling > 0
    case BeginShutdown => !s.stopping
    case DrainPass => s.stopping && s.job.None? && s.settling == 0
    case _ => true
  }

  /** Checks that nothing changed and goes on to `stage`, or puts the checkpoint off. */
  function Proceed(s: State, stage: Stage, editorConnected: bool): State
    requires s.session.Some? && s.job.Some?
  {
    if CanContinue(s.session.value, s.job.value, editorConnected) then s.(job := Some(s.job.value.(stage := stage)))
    else s.(session := Some(s.session.value.PutOff(editorConnected, s.stopping)), job := None)
  }

  /** What a connection does to the session, if there is one. */
  function AfterConnect(s: State): State {
    if s.session.None? then s else s.(session := Some(s.session.value.Connected(s.stopping)))
  }

  function Step(s: State, e: Event): State
    requires Can(s, e)
  {
    match e
    case Edit(member) =>
      var session := if s.session.Some? then s.session.value else NEW_SESSION;
      s.(session := Some(session.Recorded(member, s.stopping)), log := s.log + [member])
    case Connect => AfterConnect(s)
    case Disconnect(editorConnected) =>
      if s.session.None? then s else s.(session := Some(s.session.value.Disconnected(editorConnected, s.stopping)))
    case TimerFires(editorConnected) =>
      var ignoreConnections := s.session.value.timer == Some(ActiveWindow);
      var session := s.session.value.CancelTimer();
      if !ignoreConnections && editorConnected then s.(session := Some(session.Schedule(ActiveWindow, s.stopping)))
      else StartJob(s, session, ignoreConnections, false)
    case TurnComes(editorConnected) => Proceed(s, Saving, editorConnected)
    case SaveDone(editorConnected) => Proceed(s, Checkpointing(|s.log|), editorConnected)
    case CheckpointDone(editorConnected) =>
      if s.session.value.nextContributors == {} then Gone(s)
      else s.(session := Some(s.session.value.Continued(editorConnected, s.stopping)), job := None,
              covered := s.job.value.stage.issuedAt)
    case JobFails(failure, editorConnected) =>
      var session := s.session.value.Failed();
      if failure.Conflict? then s.(session := Some(session), job := None, settling := s.settling + 1)
      else if session.retryAttempts > EDIT_SESSION_MAX_RETRIES then Gone(s)
      else if s.job.value.throwOnFailure then s.(session := Some(session), job := None)
      else s.(session := Some(session.Schedule(session.RetryMode(editorConnected), s.stopping)), job := None)
    case ConflictSettled => Gone(s)
    case Discarded => Gone(s)
    case BeginShutdown =>
      s.(stopping := true, session := if s.session.Some? then Some(s.session.value.CancelTimer()) else None)
    case DrainPass => if s.session.None? then s else StartJob(s, s.session.value, true, true)
  }

  const START := State(None, None, 0, false, [], 0)

  function Run(s: State, events: seq<Event>): Option<State>
    decreases |events|
  {
    if events == [] then Some(s) else if !Can(s, events[0]) then None else Run(Step(s, events[0]), events[1..])
  }

  /** A run goes on with exactly the events that can happen next. */
  lemma {:induction false} RunGoesOn(s: State, events: seq<Event>, e: Event)
    ensures Run(s, []) == Some(s)
    ensures Run(s, events + [e])
            == var before := Run(s, events);
               if before.Some? && Can(before.value, e) then Some(Step(before.value, e)) else None
    decreases |events|
  {
    hide Step, Can;
    if events == [] {
      assert [e][1..] == [];
    } else {
      assert (events + [e])[1..] == events[1..] + [e];
      if Can(s, events[0]) {
        RunGoesOn(Step(s, events[0]), events[1..], e);
      }
    }
  }

  // ---------------------------------------------------------------------------------------------
  // Contributors
  // ---------------------------------------------------------------------------------------------

  function Members(log: seq<string>, from: nat, to: nat): set<string>
    requires from <= to <= |log|
  {
    set i | from <= i < to :: log[i]
  }

  /** The members with an accepted edit no successful version checkpoint covers. */
  function Uncovered(s: State): set<string>
    requires s.covered <= |s.log|
  {
    Members(s.log, s.covered, |s.log|)
  }

  /** How many edits were accepted when the job under way started: the generation counts them. */
  function StartedAt(s: State): int
    requires s.session.Some? && s.job.Some?
  {
    |s.log| - (s.session.value.generation - s.job.value.generation)
  }

  ghost predicate Accounted(s: State) {
    s.covered <= |s.log| &&
    (match s.session
     case None => s.job.None? && s.settling == 0 && s.log == []
     case Some(x) =>
       (s.stopping ==> x.timer.None?) && (s.settling == 0 ==> x.retryAttempts <= EDIT_SESSION_MAX_RETRIES) &&
       (match s.job
        case None => !x.finalizing && x.nextContributors == {} && x.contributors == Uncovered(s)
        case Some(j) =>
          && x.finalizing && x.timer.None? && (j.throwOnFailure ==> s.stopping)
          && j.generation <= x.generation && s.covered <= StartedAt(s) <= |s.log|
          && x.contributors == j.members == Members(s.log, s.covered, StartedAt(s))
          && x.nextContributors == Members(s.log, StartedAt(s), |s.log|)
          && (j.stage.Checkpointing? ==> j.stage.issuedAt == StartedAt(s))))
  }

  lemma SplitMembers(log: seq<string>, from: nat, mid: nat, to: nat)
    requires from <= mid <= to <= |log|
    ensures Members(log, from, to) == Members(log, from, mid) + Members(log, mid, to)
  {
  }

  lemma MembersOfPrefix(log: seq<string>, member: string, from: nat, to: nat)
    requires from <= to <= |log|
    ensures Members(log + [member], from, to) == Members(log, from, to)
  {
    forall i | from <= i < to
      ensures log[i] in Members(log + [member], from, to)
    {
      assert (log + [member])[i] == log[i];
    }
  }

  lemma MembersSnoc(log: seq<string>, from: nat, member: string)
    requires from <= |log|
    ensures Members(log + [member], from, |log| + 1) == Members(log, from, |log|) + {member}
  {
    var longer := log + [member];
    SplitMembers(longer, from, |log|, |log| + 1);
    MembersOfPrefix(log, member, from, |log|);
    assert longer[|log|] in Members(longer, |log|, |log| + 1);
    assert Members(longer, |log|, |log| + 1) == {member};
  }

  lemma EditAccounted(s: State, member: string)
    requires Accounted(s)
    ensures Accounted(Step(s, Edit(member)))
  {
    MembersSnoc(s.log, s.covered, member);
    if s.job.Some? {
      MembersOfPrefix(s.log, member, s.covered, StartedAt(s));
      MembersSnoc(s.log, StartedAt(s), member);
    }
  }

  lemma StartAccounted(s: State, session: Session, ignoreConnections: bool, throwOnFailure: bool)
    requires Accounted(s) && s.session.Some? && s.job.None?
    requires session.contributors == s.session.value.contributors && session.nextContributors == {} && session.timer.None?
    requires session.retryAttempts == s.session.value.retryAttempts && (throwOnFailure ==> s.stopping)
    ensures Accounted(StartJob(s, session, ignoreConnections, throwOnFailure))
  {
    assert Members(s.log, |s.log|, |s.log|) == {};
  }

  lemma JobEndAccounted(s: State, e: Event)
    requires Accounted(s) && Can(s, e) && (e.TurnComes? || e.SaveDone? || e.CheckpointDone? || e.JobFails?)
    ensures Accounted(Step(s, e))
  {
    SplitMembers(s.log, s.covered, StartedAt(s), |s.log|);
    if s.session.value.generation == s.job.value.generation {
      assert Members(s.log, |s.log|, |s.log|) == {};
    }
  }

  lemma StepAccounted(s: State, e: Event)
    requires Accounted(s) && Can(s, e)
    ensures Accounted(Step(s, e))
  {
    match e {
      case Edit(member) => EditAccounted(s, member);
      case TimerFires(_) =>
        StartAccounted(s, s.session.value.CancelTimer(), s.session.value.timer == Some(ActiveWindow), false);
      case DrainPass =>
        if s.session.Some? {
          StartAccounted(s, s.session.value, true, true);
        }
      case Connect =>
      case Disconnect(_) =>
      case ConflictSettled =>
      case Discarded =>
      case BeginShutdown =>
      case _ => JobEndAccounted(s, e);
    }
  }

  lemma NothingUncoveredAtStart()
    ensures Accounted(START) && Attended(START)
  {
  }

  /**
   At every point of every run, the contributors of a live session, present and next, are exactly the
   members with an accepted edit not yet covered; and a checkpoint under way names exactly the members of
   the edits it will cover.
   */
  lemma {:induction false} RunKeepsContributors(s: State, events: seq<Event>)
    requires Accounted(s) && Run(s, events).Some?
    ensures var after := Run(s, events).value;
            && Accounted(after)
            && (after.session.Some? ==>
                  after.session.value.contributors + after.session.value.nextContributors == Uncovered(after))
            && (after.job.Some? && after.job.value.stage.Checkpointing? ==>
                  var issuedAt := after.job.value.stage.issuedAt;
                  after.covered <= issuedAt <= |after.log|
                  && after.job.value.members == Members(after.log, after.covered, issuedAt))
    decreases |events|
  {
    if events != [] {
      StepAccounted(s, events[0]);
      hide Step;
      RunKeepsContributors(Step(s, events[0]), events[1..]);
    } else if s.session.Some? && s.job.Some? {
      SplitMembers(s.log, s.covered, StartedAt(s), |s.log|);
    }
  }

  // ---------------------------------------------------------------------------------------------
  // How sessions end
  // ---------------------------------------------------------------------------------------------

  /** The session goes with what it owes: retries are exhausted, a conflict is settled, the entity is discarded. */
  predicate GivesUp(s: State, e: Event) {
    match e
    case JobFails(failure, _) => failure.Plain? && s.session.Some? && s.session.value.retryAttempts + 1 > EDIT_SESSION_MAX_RETRIES
    case ConflictSettled => true
    case Discarded => true
    case _ => false
  }

  /**
   A session ends by giving up, or by a successful checkpoint during which no edit came, and in no other way. Such
   a checkpoint names every member with an edit not yet covered.
   */
  lemma SessionEndsExactly(s: State, e: Event)
    requires Accounted(s) && Can(s, e) && s.session.Some?
    ensures Step(s, e).session.None? <==> GivesUp(s, e) || (e.CheckpointDone? && StartedAt(s) == |s.log|)
    ensures Step(s, e).session.None? && e.CheckpointDone? ==> s.job.value.members == Uncovered(s)
  {
    if e.CheckpointDone? && StartedAt(s) < |s.log| {
      assert s.log[StartedAt(s)] in Members(s.log, StartedAt(s), |s.log|);
    }
  }

  /** Some checkpoint of the run succeeds that was issued after edit `i` and names its member. */
  predicate CoveredIn(s: State, events: seq<Event>, i: nat)
    decreases |events|
  {
    events != [] && Can(s, events[0])
    && (|| (events[0].CheckpointDone? && i < s.job.value.stage.issuedAt && i < |s.log| && s.log[i] in s.job.value.members)
        || CoveredIn(Step(s, events[0]), events[1..], i))
  }

  predicate NeverGivesUp(s: State, events: seq<Event>)
    decreases |events|
  {
    events != [] && Can(s, events[0]) ==> !GivesUp(s, events[0]) && NeverGivesUp(Step(s, events[0]), events[1..])
  }

  /** Edit `i` by this member is not yet covered. */
  predicate Owes(s: State, i: nat, member: string) {
    s.session.Some? && s.covered <= i < |s.log| && s.log[i] == member
  }

  lemma StepOwes(s: State, e: Event, i: nat, member: string)
    requires Accounted(s) && Can(s, e) && !GivesUp(s, e) && Owes(s, i, member)
    ensures Owes(Step(s, e), i, member)
            || (e.CheckpointDone? && i < s.job.value.stage.issuedAt && s.log[i] in s.job.value.members)
  {
    SessionEndsExactly(s, e);
    if e.CheckpointDone? && i < StartedAt(s) {
      assert s.log[i] in Members(s.log, s.covered, StartedAt(s));
    }
    hide Members;
  }

  /** An accepted edit is owed at once. */
  lemma EditIsOwed(s: State, member: string)
    requires Accounted(s)
    ensures Owes(Step(s, Edit(member)), |s.log|, member)
  {
  }

  /**
   No edit is lost: in every run in which no session is given up, an edit that is owed is covered by a successful
   checkpoint of the run that was issued after it and names its member, or it is still owed at the end.
   */
  lemma {:induction false} NoEditIsLost(s: State, events: seq<Event>, i: nat, member: string)
    requires Accounted(s) && Run(s, events).Some? && NeverGivesUp(s, events) && Owes(s, i, member)
    ensures CoveredIn(s, events, i) || Owes(Run(s, events).value, i, member)
    decreases |events|
  {
    if events != [] {
      StepAccounted(s, events[0]);
      StepOwes(s, events[0], i, member);
      hide Step, Accounted;
      if Owes(Step(s, events[0]), i, member) {
        NoEditIsLost(Step(s, events[0]), events[1..], i, member);
      }
    }
  }

  const UNDISTURBED := [TimerFires(false), TurnComes(false), SaveDone(false), CheckpointDone(false)]

  lemma UndisturbedSteps(s: State)
    requires Accounted(s) && s.session.Some? && s.session.value.timer.Some?
    ensures var started := StartJob(s, s.session.value.CancelTimer(), s.session.value.timer == Some(ActiveWindow), false);
            && Can(s, UNDISTURBED[0]) && Step(s, UNDISTURBED[0]) == started
            && Can(started, UNDISTURBED[1]) && Step(started, UNDISTURBED[1]) == started.(job := Some(started.job.value.(stage := Saving)))
    ensures var started := StartJob(s, s.session.value.CancelTimer(), s.session.value.timer == Some(ActiveWindow), false);
            var saving := started.(job := Some(started.job.value.(stage := Saving)));
            var checkpointing := started.(job := Some(started.job.value.(stage := Checkpointing(|s.log|))));
            && Can(saving, UNDISTURBED[2]) && Step(saving, UNDISTURBED[2]) == checkpointing
            && Can(checkpointing, UNDISTURBED[3]) && Step(checkpointing, UNDISTURBED[3]).session.None?
            && checkpointing.job.value.members == Uncovered(s)
  {
    hide Members;
  }

  /** Left alone, a timed session is checkpointed: every edit not yet covered is covered then, and the session ends. */
  lemma {:induction false} CheckpointGoesThrough(s: State, i: nat)
    requires Accounted(s) && s.session.Some? && s.session.value.timer.Some? && s.covered <= i < |s.log|
    ensures Run(s, UNDISTURBED).Some? && Run(s, UNDISTURBED).value.session.None?
    ensures CoveredIn(s, UNDISTURBED, i)
  {
    var a := Step(s, UNDISTURBED[0]);
    UndisturbedSteps(s);
    var b := Step(a, UNDISTURBED[1]);
    var c := Step(b, UNDISTURBED[2]);
    var d := Step(c, UNDISTURBED[3]);
    assert UNDISTURBED[1..][1..][1..][1..] == [];
    assert s.log[i] in Uncovered(s);
    hide Step, Can, Members;
    assert Run(d, []) == Some(d);
    assert Run(c, UNDISTURBED[1..][1..][1..]) == Some(d);
    assert Run(b, UNDISTURBED[1..][1..]) == Some(d);
    assert Run(a, UNDISTURBED[1..]) == Some(d);
    assert CoveredIn(c, UNDISTURBED[1..][1..][1..], i);
    assert CoveredIn(b, UNDISTURBED[1..][1..], i);
    assert CoveredIn(a, UNDISTURBED[1..], i);
  }

  // ---------------------------------------------------------------------------------------------
  // When a checkpoint is made
  // ---------------------------------------------------------------------------------------------

  /** A timer starts a finalization, or a new timer when it waited for the room to close and an editor is there again. */
  lemma TimerStartsExactly(s: State, editorConnected: bool)
    requires Accounted(s) && Can(s, TimerFires(editorConnected))
    ensures var after, mode := Step(s, TimerFires(editorConnected)), s.session.value.timer.value;
            && (after.job.Some? <==> mode == ActiveWindow || !editorConnected)
            && (after.job.Some? ==> (after.job.value.ignoreConnections <==> mode == ActiveWindow) && !after.job.value.throwOnFailure)
            && (after.job.None? ==> after.session.value.timer == Some(ActiveWindow))
  {
  }

  /** The last editor leaving replaces any timer by one that waits for the room to close, unless retries are used up. */
  lemma DisconnectExactly(s: State, editorConnected: bool)
    requires Accounted(s) && s.session.Some?
    ensures var after := Step(s, Disconnect(editorConnected));
            if s.job.None? && !editorConnected && s.session.value.retryAttempts <= EDIT_SESSION_MAX_RETRIES
            then after == s.(session := Some(s.session.value.(timer := if s.stopping then None else Some(RoomClose))))
            else after == s
  {
    hide Members;
  }

  /** A finalization goes on only when no edit came since it began, and no editor either if it waited for none. */
  lemma ProceedsExactly(s: State, e: Event)
    requires Accounted(s) && Can(s, e) && (e.TurnComes? || e.SaveDone?)
    ensures Step(s, e).job.Some? <==> StartedAt(s) == |s.log| && (s.job.value.ignoreConnections || !e.editorConnected)
    ensures Step(s, e).job.Some? ==> Step(s, e).job.value.stage == if e.TurnComes? then Saving else Checkpointing(|s.log|)
  {
    if StartedAt(s) == |s.log| {
      assert Members(s.log, |s.log|, |s.log|) == {};
    }
  }

  /**
   A timer that is newly set waits for the active window after an edit, a connection or a retry with an editor
   connected, and for the room to close after the last editor left or a retry without one.
   */
  lemma TimerModes(s: State, e: Event)
    requires Accounted(s) && Can(s, e)
    requires Step(s, e).session.Some? && Step(s, e).session.value.timer.Some?
    requires s.session.Some? ==> Step(s, e).session.value.timer != s.session.value.timer
    ensures var mode := Step(s, e).session.value.timer.value;
            match e
            case Edit(_) => mode == ActiveWindow
            case Connect => mode == ActiveWindow
            case Disconnect(editorConnected) => mode == RoomClose && !editorConnected
            case TimerFires(editorConnected) => mode == ActiveWindow && editorConnected
            case TurnComes(editorConnected) => mode == ActiveWindow <==> editorConnected
            case SaveDone(editorConnected) => mode == ActiveWindow <==> editorConnected
            case CheckpointDone(editorConnected) => mode == ActiveWindow <==> editorConnected
            case JobFails(_, editorConnected) => mode == ActiveWindow <==> editorConnected
            case _ => false
  {
    hide Members;
  }

  /** A connection gives the session its retries back and leaves no room-close timer; an edit does so too. */
  lemma RetriesRestored(s: State, e: Event)
    requires Accounted(s) && Can(s, e) && s.session.Some? && (e.Edit? || e.Connect?)
    ensures var after := Step(s, e).session;
            after.Some? && after.value.retryAttempts == 0 && after.value.timer != Some(RoomClose)
  {
    hide Members;
  }

  /** A failure that ends no session costs it one retry, and only failures do. */
  lemma RetriesSpent(s: State, e: Event)
    requires Accounted(s) && Can(s, e) && s.session.Some? && Step(s, e).session.Some? && !e.Edit? && !e.Connect?
    ensures Step(s, e).session.value.retryAttempts == s.session.value.retryAttempts + if e.JobFails? then 1 else 0
  {
    hide Members;
  }

  // ---------------------------------------------------------------------------------------------
  // Timers
  // ---------------------------------------------------------------------------------------------

  /** Before shutdown a live session has a timer or is finalizing, and not both. */
  ghost predicate Minded(s: State) {
    s.session.Some? && !s.stopping ==> (s.session.value.finalizing <==> s.session.value.timer.None?)
  }

  ghost predicate Attended(s: State) {
    s.settling == 0 ==> Minded(s)
  }

  /** Of all events only a conflict takes that away, and before shutdown it always does. */
  lemma MindedLostExactly(s: State, e: Event)
    requires Accounted(s) && Minded(s) && Can(s, e)
    ensures Minded(Step(s, e)) <==> !(e.JobFails? && e.failure.Conflict? && !s.stopping)
  {
    hide Members;
  }

  /**
   In every run, before shutdown, a live session is finalizing or has a timer, and never both, as long as
   no conflict handler is running.
   */
  lemma {:induction false} RunKeepsAttended(s: State, events: seq<Event>)
    requires Accounted(s) && Attended(s) && Run(s, events).Some?
    ensures Accounted(Run(s, events).value) && Attended(Run(s, events).value)
    decreases |events|
  {
    if events != [] {
      StepAccounted(s, events[0]);
      StepAttended(s, events[0]);
      hide Step, Accounted, Attended;
      RunKeepsAttended(Step(s, events[0]), events[1..]);
    }
  }

  lemma StepAttended(s: State, e: Event)
    requires Accounted(s) && Attended(s) && Can(s, e)
    ensures Attended(Step(s, e))
  {
    hide Members;
  }

  /**
   While a conflict handler runs the session is live with neither, and an edit accepted in that window is
   dropped with it: the exception above is real.
   */
  lemma ConflictLeavesSessionUnattended(member: string, late: string)
    ensures var events := [Edit(member), TimerFires(true), JobFails(Conflict, true)];
            && Run(START, events).Some?
            && var s := Run(START, events).value;
               && s.session.Some? && !s.session.value.finalizing && s.session.value.timer.None?
               && Run(s, [Edit(late), ConflictSettled]) == Some(START)
  {
    var a := Step(START, Edit(member));
    var b := Step(a, TimerFires(true));
    var c := Step(b, JobFails(Conflict, true));
    assert Run(c, []) == Some(c);
    assert Run(b, [JobFails(Conflict, true)]) == Some(c);
    assert [TimerFires(true), JobFails(Conflict, true)][1..] == [JobFails(Conflict, true)];
    assert Run(a, [TimerFires(true), JobFails(Conflict, true)]) == Some(c);
    assert [Edit(member), TimerFires(true), JobFails(Conflict, true)][1..] == [TimerFires(true), JobFails(Conflict, true)];
    var d := Step(c, Edit(late));
    assert [ConflictSettled][1..] == [] && Run(Step(d, ConflictSettled), []) == Some(START);
    assert [Edit(late), ConflictSettled][1..] == [ConflictSettled];
    assert Run(d, [ConflictSettled]) == Some(START);
  }

  // ---------------------------------------------------------------------------------------------
  // The shutdown drain
  // ---------------------------------------------------------------------------------------------

  /** No edit is accepted. */
  predicate Quiet(events: seq<Event>) {
    forall e | e in events :: !e.Edit?
  }

  function Passes(events: seq<Event>): nat
    decreases |events|
  {
    if events == [] then 0 else (if events[0].DrainPass? then 1 else 0) + Passes(events[1..])
  }

  /** After `passes` passes a session that is still live has failed as often, not counting a job under way. */
  ghost predicate Draining(s: State, passes: nat) {
    && Accounted(s) && s.stopping
    && (s.session.Some? && passes > 0 ==>
          && s.session.value.retryAttempts + (if s.job.Some? then 1 else 0) >= passes
          && (s.job.Some? ==> s.job.value.ignoreConnections && s.job.value.generation == s.session.value.generation
                              && s.job.value.throwOnFailure && s.session.value.nextContributors == {}))
  }

  lemma StepDraining(s: State, e: Event, passes: nat)
    requires Draining(s, passes) && Can(s, e) && !e.Edit?
    ensures Draining(Step(s, e), if e.DrainPass? then passes + 1 else passes)
  {
    StepAccounted(s, e);
    hide Members;
  }

  lemma {:induction false} RunDraining(s: State, events: seq<Event>, passes: nat)
    requires Draining(s, passes) && Run(s, events).Some? && Quiet(events)
    ensures Draining(Run(s, events).value, passes + Passes(events))
    decreases |events|
  {
    if events != [] {
      var e := events[0];
      assert e in events && forall x :: x in events[1..] ==> x in events;
      StepDraining(s, e, passes);
      hide Step, Draining;
      RunDraining(Step(s, e), events[1..], if e.DrainPass? then passes + 1 else passes);
    }
  }

  /**
   From any point of a shutdown on, without new edits, the drain leaves no session once
   EDIT_SESSION_MAX_RETRIES + 1 passes have run their course, whatever fails.
   */
  lemma {:induction false} DrainEmpties(s: State, events: seq<Event>)
    requires Accounted(s) && s.stopping && Run(s, events).Some? && Quiet(events)
    requires Passes(events) > EDIT_SESSION_MAX_RETRIES
    ensures var after := Run(s, events).value;
            after.job.None? && after.settling == 0 ==> after.session.None?
  {
    RunDraining(s, events, 0);
  }

  /** A session of `edits` edits by `member` between two passes of the drain, after `attempts` failures. */
  function Drained(member: string, edits: nat, attempts: nat): State {
    State(Some(Session({member}, {}, false, edits, attempts, None)), None, 0, true, seq(edits, _ => member), 0)
  }

  const FAILED_PASS := [DrainPass, JobFails(Plain, false)]

  lemma {:induction false} FailedPass(member: string, edits: nat, attempts: nat, rest: seq<Event>)
    requires attempts < EDIT_SESSION_MAX_RETRIES
    ensures Run(Drained(member, edits, attempts), FAILED_PASS + rest) == Run(Drained(member, edits, attempts + 1), rest)
    ensures Passes(FAILED_PASS + rest) == 1 + Passes(rest)
  {
    var events := FAILED_PASS + rest;
    assert events[1..] == [JobFails(Plain, false)] + rest && events[1..][1..] == rest;
    assert {member} + {} == {member};
    assert Step(Step(Drained(member, edits, attempts), DrainPass), JobFails(Plain, false)) == Drained(member, edits, attempts + 1);
  }

  lemma Edited(member: string, edits: nat, attempts: nat, rest: seq<Event>)
    ensures Run(Drained(member, edits, attempts), [Edit(member)] + rest) == Run(Drained(member, edits + 1, 0), rest)
    ensures Passes([Edit(member)] + rest) == Passes(rest)
  {
    assert ([Edit(member)] + rest)[1..] == rest && {member} + {member} == {member};
    assert seq(edits, _ => member) + [member] == seq(edits + 1, _ => member);
    assert Step(Drained(member, edits, attempts), Edit(member)) == Drained(member, edits + 1, 0);
  }

  lemma ShutdownAfterEdit(member: string)
    ensures Run(START, [Edit(member), BeginShutdown]) == Some(Drained(member, 1, 0))
  {
    var edited := Step(START, Edit(member));
    assert [Edit(member), BeginShutdown][1..] == [BeginShutdown] && [BeginShutdown][1..] == [];
    assert {} + {member} == {member} && [] + [member] == seq(1, _ => member);
    assert Step(edited, BeginShutdown) == Drained(member, 1, 0);
    assert Run(edited, [BeginShutdown]) == Some(Drained(member, 1, 0));
  }

  /** The bound needs that no edit comes: one during the drain gives the session its retries back. */
  lemma EditOutlastsDrain(member: string)
    ensures var s := Run(START, [Edit(member), BeginShutdown]);
            var events := FAILED_PASS + ([Edit(member)] + (FAILED_PASS + (FAILED_PASS + (FAILED_PASS + []))));
            && Passes(events) == EDIT_SESSION_MAX_RETRIES + 1
            && s.Some? && Run(s.value, events) == Some(Drained(member, 2, EDIT_SESSION_MAX_RETRIES))
  {
    var last := FAILED_PASS + [];
    ShutdownAfterEdit(member);
    FailedPass(member, 2, 2, []);
    FailedPass(member, 2, 1, last);
    FailedPass(member, 2, 0, FAILED_PASS + last);
    Edited(member, 1, 1, FAILED_PASS + (FAILED_PASS + last));
    FailedPass(member, 1, 0, [Edit(member)] + (FAILED_PASS + (FAILED_PASS + last)));
    assert Run(Drained(member, 2, 3), []) == Some(Drained(member, 2, 3)) && Passes([]) == 0;
    hide Run, Passes, Step, Can;
  }

  // ---------------------------------------------------------------------------------------------
  // In place
  // ---------------------------------------------------------------------------------------------

  /** The record of a live session. */
  class EditSessionState {
    var contributors: set<string>
    var nextContributors: set<string>
    var finalizing: bool
    var generation: nat
    var retryAttempts: nat
    var timer: Option<Mode>

    ghost function Value(): Session
      reads this
    {
      Session(contributors, nextContributors, finalizing, generation, retryAttempts, timer)
    }

    constructor ()
      ensures Value() == NEW_SESSION
    {
      contributors, nextContributors, finalizing, generation, retryAttempts, timer := {}, {}, false, 0, 0, None;
    }

    method CancelTimer()
      modifies this
      ensures Value() == old(Value()).CancelTimer()
    {
      if timer.Some? {
        timer := None;
      }
    }

    method Schedule(mode: Mode, stopping: bool)
      modifies this
      ensures Value() == old(Value()).Schedule(mode, stopping)
    {
      if stopping || timer.Some? {
        return;
      }
      timer := Some(mode);
    }

    method ScheduleIfIdle(stopping: bool)
      modifies this
      ensures Value() == old(Value()).ScheduleIfIdle(stopping)
    {
      if !finalizing && timer.None? {
        Schedule(ActiveWindow, stopping);
      }
    }

    method ScheduleRetry(editorConnected: bool, stopping: bool)
      modifies this
      ensures Value() == old(Value()).Schedule(old(Value()).RetryMode(editorConnected), stopping)
    {
      Schedule(if editorConnected then ActiveWindow else RoomClose, stopping);
    }

    /** The next contributors join the present ones again. */
    method Merge()
      modifies this
      ensures Value() == old(Value()).Merged()
    {
      var rest := nextContributors;
      while rest != {}
        invariant rest <= nextContributors
        invariant contributors + rest == old(contributors) + nextContributors
        invariant unchanged(`nextContributors, `finalizing, `generation, `retryAttempts, `timer)
        decreases rest
      {
        var member :| member in rest;
        contributors, rest := contributors + {member}, rest - {member};
      }
      nextContributors, finalizing := {}, false;
    }

    method Record(member: string, stopping: bool)
      modifies this
      ensures Value() == old(Value()).Recorded(member, stopping)
    {
      if timer == Some(RoomClose) {
        CancelTimer();
      }
      generation, retryAttempts := generation + 1, 0;
      if finalizing {
        nextContributors := nextContributors + {member};
      } else {
        contributors := contributors + {member};
      }
      ScheduleIfIdle(stopping);
    }

    method Connect(stopping: bool)
      modifies this
      ensures Value() == old(Value()).Connected(stopping)
    {
      if timer == Some(RoomClose) {
        CancelTimer();
      }
      retryAttempts := 0;
      ScheduleIfIdle(stopping);
    }

    method Disconnect(editorConnected: bool, stopping: bool)
      modifies this
      ensures Value() == old(Value()).Disconnected(editorConnected, stopping)
    {
      if finalizing || retryAttempts > EDIT_SESSION_MAX_RETRIES || editorConnected {
        return;
      }
      CancelTimer();
      Schedule(RoomClose, stopping);
    }
  }

  /**
   The sessions map, for one entity. `job` is the finalization under way, whose locals its methods take as
   parameters; `log` and `covered` record what happened. Each method is one event of `Step`.
   */
  class EditSessionLifecycle {
    var session: EditSessionState?
    var shuttingDown: bool
    ghost var job: Option<Job>
    ghost var settling: nat
    ghost var log: seq<string>
    ghost var covered: nat

    ghost function View(): State
      reads this, session
    {
      State(if session == null then None else Some(session.Value()), job, settling, shuttingDown, log, covered)
    }

    constructor ()
      ensures View() == START
    {
      session, shuttingDown, job, settling, log, covered := null, false, None, 0, [], 0;
    }

    method RecordCheckpointContributor(member: string)
      modifies this, session
      ensures View() == Step(old(View()), Edit(member))
    {
      if session == null {
        session := new EditSessionState();
      }
      session.Record(member, shuttingDown);
      log := log + [member];
    }

    method Connected()
      modifies session
      ensures View() == AfterConnect(old(View()))
    {
      if session != null {
        session.Connect(shuttingDown);
      }
    }

    method Disconnected(editorConnected: bool)
      modifies session
      ensures View() == Step(old(View()), Disconnect(editorConnected))
    {
      if session != null {
        session.Disconnect(editorConnected, shuttingDown);
      }
    }

    /** What the timer set by `Schedule` runs when it fires. */
    method TimerFired(editorConnected: bool)
      requires Can(View(), TimerFires(editorConnected))
      modifies this, session
      ensures View() == Step(old(View()), TimerFires(editorConnected))
    {
      var ignoreConnections := session.timer == Some(ActiveWindow);
      session.timer := None;
      if !ignoreConnections && editorConnected {
        session.Schedule(ActiveWindow, shuttingDown);
        return;
      }
      var generation, members := Start(ignoreConnections, false);
    }

    /** Begins a finalization of the live session, and gives what it must remember. */
    method Start(ignoreConnections: bool, throwOnFailure: bool) returns (generation: nat, members: set<string>)
      requires session != null
      modifies this, session
      ensures View() == StartJob(old(View()), old(session.Value()), ignoreConnections, throwOnFailure)
      ensures job == Some(Job(generation, members, ignoreConnections, throwOnFailure, Queued))
      ensures session == old(session)
    {
      session.finalizing := true;
      generation, members := session.generation, session.contributors;
      job := Some(Job(generation, members, ignoreConnections, throwOnFailure, Queued));
    }

    /** Asked when its turn comes in the queue and again after the save, with what `Start` gave. */
    method MayContinue(generation: nat, ignoreConnections: bool, editorConnected: bool) returns (ok: bool)
      requires session != null && job.Some? && !job.value.stage.Checkpointing?
      requires job.value.generation == generation && job.value.ignoreConnections == ignoreConnections
      modifies this, session
      ensures old(job.value.stage.Queued?) ==> View() == Step(old(View()), TurnComes(editorConnected))
      ensures old(job.value.stage.Saving?) ==> View() == Step(old(View()), SaveDone(editorConnected))
      ensures ok <==> job.Some?
    {
      if session.generation == generation && session.nextContributors == {} && (ignoreConnections || !editorConnected) {
        job := Some(job.value.(stage := if job.value.stage.Queued? then Saving else Checkpointing(|log|)));
        return true;
      }
      session.Merge();
      session.ScheduleRetry(editorConnected, shuttingDown);
      job := None;
      return false;
    }

    method Complete(editorConnected: bool) returns (settled: bool)
      requires session != null && job.Some? && job.value.stage.Checkpointing?
      modifies this, session
      ensures View() == Step(old(View()), CheckpointDone(editorConnected))
      ensures settled <==> session == null
      ensures settled <==> old(session.nextContributors) == {}
      ensures !settled ==> session == old(session) && !session.finalizing && session.nextContributors == {}
                           && session.contributors == old(session.nextContributors)
    {
      if session.nextContributors == {} {
        Remove();
        return true;
      }
      session.contributors, session.nextContributors := session.nextContributors, {};
      session.finalizing := false;
      session.ScheduleRetry(editorConnected, shuttingDown);
      covered, job := job.value.stage.issuedAt, None;
      return false;
    }

    /** Gives whether the failure is thrown on. */
    method HandleFailure(failure: Failure, throwOnFailure: bool, editorConnected: bool) returns (thrown: bool)
      requires session != null && job.Some? && job.value.throwOnFailure == throwOnFailure
      modifies this, session
      ensures View() == Step(old(View()), JobFails(failure, editorConnected))
      ensures thrown <==> failure.Plain? && throwOnFailure && session != null
    {
      session.Merge();
      session.retryAttempts := session.retryAttempts + 1;
      if failure.Conflict? {
        job, settling := None, settling + 1;
        return false;
      }
      if session.retryAttempts > EDIT_SESSION_MAX_RETRIES {
        Remove();
        return false;
      }
      job := None;
      if throwOnFailure {
        return true;
      }
      session.ScheduleRetry(editorConnected, shuttingDown);
      return false;
    }

    /** The session goes, with all that is known about it: settled, given up, or of a deleted entity. */
    method Remove()
      modifies this
      ensures View() == Gone(old(View()))
    {
      session, job, settling, log, covered := null, None, 0, [], 0;
    }

    method StartShutdown()
      requires !shuttingDown
      modifies this, session
      ensures View() == Step(old(View()), BeginShutdown)
    {
      shuttingDown := true;
      if session != null {
        session.CancelTimer();
      }
    }

    method StartDrainPass()
      requires Can(View(), DrainPass) && Accounted(View())
      modifies this, session
      ensures View() == Step(old(View()), DrainPass)
    {
      if session != null {
        session.finalizing := false;
        var generation, members := Start(true, true);
      }
    }
  }
}
