/**
 The books of the shutdown drain: how many connections are tracked under a key, and how many are open.

 A close makes the drain forget the oldest connection under its key, whichever closed. `RunSurplus` keeps the
 account of every run, with no condition on who closes. From it follows exactly when the drain resolves early
 (`CoveredExactlyUnlessOvertaken`, `ResolvesOnlyWhenGone`), with a run in which it does (`RefusedCloseResolvesEarly`),
 and exactly when it is emptied (`DrainsExactlyWhenPaid`, `DrainsExactlyUnlessForgotten`).
 */
module DrainBalance {
  import opened Wrappers
  import opened ShutdownDrain

  /** How many connections are tracked under a key beyond those that are open. */
  function Surplus(s: State, key: string): int {
    |s.drain.At(key)| - |OpenAt(s.open, key)|
  }

  /** A connection that is not tracked although it is open, or has closed: forgotten, or late. */
  predicate Stale(s: State, c: Connection) {
    c !in s.drain.At(KeyOf(c)) && (c in s.open || c in s.closed)
  }

  /** How many of the found connections are under this key and stale, each counted once. */
  function StaleFound(s: State, found: seq<Connection>, n: nat, key: string): nat
    requires n <= |found|
  {
    if n == 0 then 0
    else
      var c := found[n - 1];
      StaleFound(s, found, n - 1, key) + if KeyOf(c) == key && Stale(s, c) && c !in found[..n - 1] then 1 else 0
  }

  /** The stale connections an event tracks under a key. */
  function TracksStale(s: State, e: Event, key: string): nat {
    match e
    case Connected(c, admission) => if !s.drain.Refuses(c, admission) && KeyOf(c) == key && Stale(s, c) then 1 else 0
    case Begin(found) => if s.drain.promise == NotBegun then StaleFound(s, found, |found|, key) else 0
    case _ => 0
  }

  /** A connection that is not open closes, and the drain forgets another one under its key. */
  predicate Takes(s: State, e: Event, key: string) {
    e.Disconnected? && KeyOf(e.connection) == key && e.connection !in s.open && s.drain.At(key) != []
  }

  /** An open connection closes, and none is left under its key to forget. */
  predicate Misses(s: State, e: Event, key: string) {
    e.Disconnected? && KeyOf(e.connection) == key && e.connection in s.open && s.drain.At(key) == []
  }

  function Change(s: State, e: Event, key: string): int {
    TracksStale(s, e, key) + (if Misses(s, e, key) then 1 else 0) - if Takes(s, e, key) then 1 else 0
  }

  /** What a run adds to the surplus of a key. */
  function Changes(s: State, events: seq<Event>, key: string): int
    decreases |events|
  {
    if events == [] || !Can(s, events[0]) then 0
    else Change(s, events[0], key) + Changes(Step(s, events[0]), events[1..], key)
  }

  // ---------------------------------------------------------------------------------------------
  // The account
  // ---------------------------------------------------------------------------------------------

  lemma AddSurplus(s: State, c: Connection, key: string)
    requires KnownAt(s, KeyOf(c))
    ensures Surplus(s.Opened(c).(drain := s.drain.Add(c)), key)
            == Surplus(s, key) + if key == KeyOf(c) && Stale(s, c) then 1 else 0
  {
    OpenAtSnoc(s.open, c, key);
  }

  /** The first `n` of the found connections tracked, and opened unless they have closed. */
  function Found(s: State, found: seq<Connection>, n: nat): State
    requires n <= |found|
  {
    s.OpenedAll(found, n).(drain := s.drain.AddAll(found, n))
  }

  lemma {:induction false} FoundNext(s: State, found: seq<Connection>, n: nat)
    requires 0 < n <= |found|
    ensures var before, c := Found(s, found, n - 1), found[n - 1];
            Found(s, found, n) == before.Opened(c).(drain := before.drain.Add(c))
  {
  }

  lemma {:induction false} FoundStale(s: State, found: seq<Connection>, n: nat)
    requires 0 < n <= |found|
    ensures Stale(Found(s, found, n - 1), found[n - 1]) <==> Stale(s, found[n - 1]) && found[n - 1] !in found[..n - 1]
  {
    AddAllFacts(s, found, n - 1, found[n - 1]);
    hide Drain.AddAll, State.OpenedAll, KeyOf;
  }

  lemma {:induction false} NextAddSurplus(s: State, found: seq<Connection>, n: nat, key: string)
    requires Known(s) && 0 < n <= |found|
    ensures var c := found[n - 1];
            Surplus(Found(s, found, n), key)
            == Surplus(Found(s, found, n - 1), key) + if KeyOf(c) == key && Stale(s, c) && c !in found[..n - 1] then 1 else 0
  {
    var before, c := Found(s, found, n - 1), found[n - 1];
    AddAllKnown(s, found, n - 1);
    assert KnownAt(before, KeyOf(c));
    hide *;
    FoundNext(s, found, n);
    FoundStale(s, found, n);
    AddSurplus(before, c, key);
  }

  lemma {:induction false} StaleFoundNext(s: State, found: seq<Connection>, n: nat, key: string)
    requires 0 < n <= |found|
    ensures var c := found[n - 1];
            StaleFound(s, found, n, key)
            == StaleFound(s, found, n - 1, key) + if KeyOf(c) == key && Stale(s, c) && c !in found[..n - 1] then 1 else 0
  {
    hide Stale, KeyOf;
  }

  lemma {:induction false} AddAllSurplus(s: State, found: seq<Connection>, n: nat, key: string)
    requires Known(s) && n <= |found|
    ensures Surplus(Found(s, found, n), key) == Surplus(s, key) + StaleFound(s, found, n, key)
  {
    hide *;
    if n == 0 {
      NoneFound(s, found, key);
    } else {
      AddAllSurplus(s, found, n - 1, key);
      NextAddSurplus(s, found, n, key);
      StaleFoundNext(s, found, n, key);
    }
  }

  lemma NoneFound(s: State, found: seq<Connection>, key: string)
    ensures Found(s, found, 0) == s && StaleFound(s, found, 0, key) == 0
  {
  }

  lemma {:induction false} WithoutCount(open: seq<Connection>, c: Connection)
    requires Distinct(open)
    ensures |Without(open, c)| == |open| - if c in open then 1 else 0
  {
    if open != [] {
      var rest, last := open[..|open| - 1], open[|open| - 1];
      assert open == rest + [last] && last !in rest;
      WithoutCount(rest, c);
    }
  }

  lemma DisconnectedSurplus(s: State, c: Connection, key: string)
    requires Known(s)
    ensures Surplus(Step(s, Disconnected(c)), key) == Surplus(s, key) + Change(s, Disconnected(c), key)
  {
    DisconnectedAt(s, c, key);
    WithoutOpen(s.open, key, c);
    DistinctAt(s.open, key);
    WithoutCount(OpenAt(s.open, key), c);
    OpenAtHolds(s.open, key, c);
    hide OpenAt, Without, Known, Step;
  }

  lemma SurplusIgnoresRest(s: State, after: State, key: string)
    requires after.drain.connections == s.drain.connections && after.open == s.open
    ensures Surplus(after, key) == Surplus(s, key)
  {
  }

  /** What one event does to the surplus of a key. */
  lemma StepSurplus(s: State, e: Event, key: string)
    requires Known(s) && Can(s, e)
    ensures Surplus(Step(s, e), key) == Surplus(s, key) + Change(s, e, key)
  {
    var after := Step(s, e);
    match e {
      case Connected(c, admission) =>
        assert KnownAt(s, KeyOf(c));
        AddSurplus(s, c, key);
        SurplusIgnoresRest(if s.drain.Refuses(c, admission) then s else s.Opened(c).(drain := s.drain.Add(c)), after, key);
      case Disconnected(c) => DisconnectedSurplus(s, c, key);
      case Begin(found) => BeginSurplus(s, found, key);
      case BeginAdmission(_, _) => SurplusIgnoresRest(s, after, key);
      case Release(_) => SurplusIgnoresRest(s, after, key);
      case CheckRuns => SurplusIgnoresRest(s, after, key);
    }
  }

  lemma {:induction false} BeginSurplus(s: State, found: seq<Connection>, key: string)
    requires Known(s)
    ensures Surplus(Step(s, Begin(found)), key) == Surplus(s, key) + Change(s, Begin(found), key)
  {
    if s.drain.promise == NotBegun {
      BeginAddsAll(s, found);
      AddAllSurplus(s, found, |found|, key);
      SurplusIgnoresRest(Found(s, found, |found|), Step(s, Begin(found)), key);
      hide Surplus, Known, Step, StaleFound, State.OpenedAll, Drain.AddAll;
    }
  }

  /**
   The account of a run: the surplus of a key grows by the stale connections tracked and the closes that missed,
   and shrinks by the closes that took another connection.
   */
  lemma {:induction false} RunSurplus(s: State, events: seq<Event>, key: string)
    requires Known(s) && Run(s, events).Some?
    ensures Surplus(Run(s, events).value, key) == Surplus(s, key) + Changes(s, events, key)
    decreases |events|
  {
    if events != [] {
      StepSurplus(s, events[0], key);
      StepKnown(s, events[0]);
      hide Step, Known, Surplus, Change;
      RunSurplus(Step(s, events[0]), events[1..], key);
    }
  }

  // ---------------------------------------------------------------------------------------------
  // Resolving early
  // ---------------------------------------------------------------------------------------------

  /** Under each key at least as many connections are tracked as are open. */
  ghost predicate Covered(s: State) {
    forall key :: Surplus(s, key) >= 0
  }

  ghost predicate CoveredThroughout(s: State, events: seq<Event>)
    decreases |events|
  {
    Covered(s) && (events != [] && Can(s, events[0]) ==> CoveredThroughout(Step(s, events[0]), events[1..]))
  }

  /** A connection that is not open closes beside one that is, and none is tracked under their key to spare. */
  predicate Overtakes(s: State, e: Event) {
    e.Disconnected? && e.connection !in s.open
    && OpenAt(s.open, KeyOf(e.connection)) != [] && Surplus(s, KeyOf(e.connection)) == 0
  }

  predicate EverOvertakes(s: State, events: seq<Event>)
    decreases |events|
  {
    events != [] && Can(s, events[0]) && (Overtakes(s, events[0]) || EverOvertakes(Step(s, events[0]), events[1..]))
  }

  lemma ChangeIsLoss(s: State, e: Event, key: string)
    requires Surplus(s, key) >= 0
    ensures Surplus(s, key) + Change(s, e, key) < 0 <==> Overtakes(s, e) && key == KeyOf(e.connection)
  {
  }

  lemma StepCovered(s: State, e: Event)
    requires Known(s) && Covered(s) && Can(s, e)
    ensures Covered(Step(s, e)) <==> !Overtakes(s, e)
  {
    forall key
      ensures Surplus(Step(s, e), key) < 0 <==> Overtakes(s, e) && key == KeyOf(e.connection)
    {
      assert Surplus(s, key) >= 0;
      StepSurplus(s, e, key);
      ChangeIsLoss(s, e, key);
      hide Step, Known, Surplus, Change, Overtakes, Covered;
    }
    hide Step, Surplus, Known;
    if Overtakes(s, e) {
      assert Surplus(Step(s, e), KeyOf(e.connection)) < 0;
    }
  }

  /**
   At every point of a run at least as many connections are tracked under each key as are open, if and only if no
   connection that is not open ever closes beside one that is without one to spare.
   */
  lemma {:induction false} CoveredExactlyUnlessOvertaken(s: State, events: seq<Event>)
    requires Known(s) && Covered(s) && Run(s, events).Some?
    ensures CoveredThroughout(s, events) <==> !EverOvertakes(s, events)
    ensures !EverOvertakes(s, events) ==> Covered(Run(s, events).value)
    decreases |events|
  {
    if events != [] {
      StepCovered(s, events[0]);
      StepKnown(s, events[0]);
      hide Step, Known, Covered, Overtakes;
      if !Overtakes(s, events[0]) {
        CoveredExactlyUnlessOvertaken(Step(s, events[0]), events[1..]);
      }
    }
  }

  lemma {:induction false} AccountFromStart(events: seq<Event>, key: string)
    requires Run(START, events).Some?
    ensures Surplus(Run(START, events).value, key) == Changes(START, events, key)
  {
    SoundAtStart();
    RunSurplus(START, events, key);
    assert Surplus(START, key) == 0;
  }

  /** In every run each key is covered exactly when what the run adds to it is not a loss. */
  lemma CoveredExactlyByAccount(events: seq<Event>)
    requires Run(START, events).Some?
    ensures Covered(Run(START, events).value) <==> forall key :: Changes(START, events, key) >= 0
  {
    var after := Run(START, events).value;
    hide Surplus;
    if Covered(after) {
      forall key
        ensures Changes(START, events, key) >= 0
      {
        AccountFromStart(events, key);
        assert Surplus(after, key) >= 0;
      }
    } else {
      var key :| Surplus(after, key) < 0;
      AccountFromStart(events, key);
      assert Changes(START, events, key) < 0;
    }
  }

  lemma NothingTrackedCovers(s: State)
    requires s.drain.connections == map[]
    ensures Covered(s) <==> s.open == []
  {
    assert forall key :: Surplus(s, key) == -|OpenAt(s.open, key)|;
    if s.open != [] {
      OpenAtHolds(s.open, KeyOf(s.open[0]), s.open[0]);
      assert Surplus(s, KeyOf(s.open[0])) < 0;
    }
  }

  /**
   The promise resolves only in the check, when no admission is pending; and then no connection is open, exactly
   when every key is covered.
   */
  lemma ResolvesOnlyWhenGone(s: State, e: Event)
    requires Sound(s) && Can(s, e) && s.drain.promise != Resolved
    requires Step(s, e).drain.promise == Resolved
    ensures e.CheckRuns? && s.drain.pending == {} && s.granted == s.handed + s.released
    ensures s.open == [] <==> Covered(s)
  {
    OnlyCheckResolves(s, e);
    NothingTrackedCovers(s);
  }

  /** From the start: a run without such a close never resolves while a connection is open. */
  lemma {:induction false} NeverResolvesEarly(events: seq<Event>, e: Event)
    requires Run(START, events).Some? && Can(Run(START, events).value, e)
    requires Run(START, events).value.drain.promise != Resolved && Step(Run(START, events).value, e).drain.promise == Resolved
    ensures var s := Run(START, events).value;
            && e.CheckRuns? && s.drain.pending == {} && s.granted == s.handed + s.released
            && (s.open == [] <==> forall key :: Changes(START, events, key) >= 0)
            && (!EverOvertakes(START, events) ==> s.open == [])
  {
    SoundAtStart();
    BalancedAtStart();
    RunKeepsSound(START, events);
    ResolvesOnlyWhenGone(Run(START, events).value, e);
    CoveredExactlyByAccount(events);
    CoveredExactlyUnlessOvertaken(START, events);
    hide *;
  }

  // ---------------------------------------------------------------------------------------------
  // A run that resolves early
  // ---------------------------------------------------------------------------------------------

  function FirstOf(c: Connection): Admission {
    Admission(c.document, c.socketId, 0)
  }

  function SecondOf(c: Connection): Admission {
    Admission(c.document, c.socketId, 1)
  }

  /** Two admissions under the key of `c`, of which the first was handed to it and the second given up. */
  function OneOpen(c: Connection): State {
    State(Drain(map[KeyOf(c) := [c]], {}, 2, false, NotBegun, false),
          {FirstOf(c), SecondOf(c)}, {FirstOf(c)}, {SecondOf(c)}, [c], {})
  }

  lemma OneOpens(c: Connection, rest: seq<Event>)
    ensures Run(START, [BeginAdmission(c.document, c.socketId)] + ([BeginAdmission(c.document, c.socketId)]
                       + ([Connected(c, Some(FirstOf(c)))] + ([Release(Some(SecondOf(c)))] + rest))))
            == Run(OneOpen(c), rest)
  {
    var begin, connected, release := BeginAdmission(c.document, c.socketId), Connected(c, Some(FirstOf(c))), Release(Some(SecondOf(c)));
    var one, two := Step(START, begin), Step(Step(START, begin), begin);
    assert two.drain == Drain(map[], {FirstOf(c), SecondOf(c)}, 2, false, NotBegun, false);
    assert {FirstOf(c), SecondOf(c)} - {FirstOf(c)} == {SecondOf(c)};
    assert {SecondOf(c)} - {SecondOf(c)} == {} && [] + [c] == [c] && map[][KeyOf(c) := [c]] == map[KeyOf(c) := [c]];
    var three := Step(two, connected);
    assert three.drain == Drain(map[KeyOf(c) := [c]], {SecondOf(c)}, 2, false, NotBegun, false);
    assert Step(three, release) == OneOpen(c);
    hide Step, Run, OneOpen, FirstOf, SecondOf;
    RunStep(START, begin, [begin] + ([connected] + ([release] + rest)));
    RunStep(one, begin, [connected] + ([release] + rest));
    RunStep(two, connected, [release] + rest);
    RunStep(three, release, rest);
  }

  /** The refused connection `late` changes nothing when it connects, and shutdown finds `c`. */
  lemma {:induction false} RefusedAndBegun(c: Connection, late: Connection, rest: seq<Event>)
    requires late.document == c.document && late.socketId == c.socketId
    ensures Run(OneOpen(c), [Connected(late, Some(SecondOf(c)))] + ([Begin([c])] + rest))
            == Run(OneOpen(c).(drain := OneOpen(c).drain.(stopping := true, promise := Unresolved)), rest)
  {
    var s, refused := OneOpen(c), Connected(late, Some(SecondOf(c)));
    assert s.drain.pending - {SecondOf(c)} == {} && Step(s, refused) == s;
    var begun := s.drain.(stopping := true);
    assert s.OpenedAll([c], 0) == s && s.OpenedAll([c], 1) == s.Opened(c) == s;
    assert begun.AddAll([c], 0) == begun && begun.AddAll([c], 1) == begun.Add(c) == begun;
    assert !begun.Empty() by { assert KeyOf(c) in begun.connections; }
    assert Step(s, Begin([c])) == s.(drain := begun.(promise := Unresolved));
    hide Step, Run, OneOpen;
    RunStep(s, refused, [Begin([c])] + rest);
    RunStep(s, Begin([c]), rest);
  }

  lemma LateCloses(c: Connection, late: Connection)
    requires late.document == c.document && late.socketId == c.socketId && late != c
    ensures var s := Run(OneOpen(c).(drain := OneOpen(c).drain.(stopping := true, promise := Unresolved)), [Disconnected(late)] + ([CheckRuns] + []));
            s.Some? && s.value.drain.promise == Resolved && s.value.open == [c]
  {
    var s := OneOpen(c).(drain := OneOpen(c).drain.(stopping := true, promise := Unresolved));
    var closed := Step(s, Disconnected(late));
    assert s.drain.At(KeyOf(c)) == [c] && map[KeyOf(c) := [c]] - {KeyOf(c)} == map[];
    assert closed.drain == Drain(map[], {}, 2, true, Unresolved, true);
    assert [c][..0] == [] && Without([c], late) == Without([], late) + [c] == [c];
    RunStep(s, Disconnected(late), [CheckRuns] + []);
    RunStep(closed, CheckRuns, []);
  }

  /**
   Of two admissions under one key the second is released while its connection is still on its way. That one is
   refused, and when it closes the drain forgets the first connection, and resolves while that one is open.
   */
  lemma RefusedCloseResolvesEarly(c: Connection, late: Connection)
    requires late.document == c.document && late.socketId == c.socketId && late != c
    ensures var begin := BeginAdmission(c.document, c.socketId);
            var s := Run(START, [begin, begin, Connected(c, Some(FirstOf(c))), Release(Some(SecondOf(c))),
                                 Connected(late, Some(SecondOf(c))), Begin([c]), Disconnected(late), CheckRuns]);
            s.Some? && s.value.drain.promise == Resolved && s.value.open == [c]
  {
    var begin, connected, release := BeginAdmission(c.document, c.socketId), Connected(c, Some(FirstOf(c))), Release(Some(SecondOf(c)));
    var last := [Disconnected(late)] + ([CheckRuns] + []);
    var after := [Connected(late, Some(SecondOf(c)))] + ([Begin([c])] + last);
    assert [begin] + ([begin] + ([connected] + ([release] + after)))
           == [begin, begin, connected, release, Connected(late, Some(SecondOf(c))), Begin([c]), Disconnected(late), CheckRuns];
    hide Run, FirstOf, SecondOf, OneOpen;
    OneOpens(c, after);
    RefusedAndBegun(c, late, last);
    LateCloses(c, late);
  }

  // ---------------------------------------------------------------------------------------------
  // Emptying the drain
  // ---------------------------------------------------------------------------------------------

  /** As many connections are tracked under each key as are open. */
  ghost predicate Balanced(s: State) {
    forall key :: Surplus(s, key) == 0
  }

  lemma BalancedIsEmpty(s: State)
    requires Known(s) && s.open == []
    ensures Balanced(s) <==> s.drain.connections == map[]
  {
    forall key
      ensures Surplus(s, key) == 0 <==> key !in s.drain.connections
    {
      assert KnownAt(s, key);
    }
    if Balanced(s) {
      assert forall key :: Surplus(s, key) == 0;
      assert s.drain.connections == map[];
    }
  }

  lemma BalancedAtStart()
    ensures Balanced(START) && Covered(START)
  {
    assert forall key :: Surplus(START, key) == 0;
  }

  /**
   Once all connections of a run are gone nothing is tracked, if and only if under every key the closes that took
   another connection make up for the stale connections tracked and the closes that missed. Otherwise the drain
   never resolves.
   */
  lemma {:induction false} DrainsExactlyWhenPaid(events: seq<Event>)
    requires Run(START, events).Some? && Run(START, events).value.open == []
    ensures Run(START, events).value.drain.connections == map[] <==> forall key :: Changes(START, events, key) == 0
  {
    var after := Run(START, events).value;
    SoundAtStart();
    RunKeepsSound(START, events);
    BalancedIsEmpty(after);
    hide Surplus, Known;
    if Balanced(after) {
      forall key
        ensures Changes(START, events, key) == 0
      {
        AccountFromStart(events, key);
        assert Surplus(after, key) == 0;
      }
    } else {
      var key :| Surplus(after, key) != 0;
      AccountFromStart(events, key);
      assert Changes(START, events, key) != 0;
    }
  }

  ghost predicate TracksAnyStale(s: State, e: Event) {
    exists key :: TracksStale(s, e, key) > 0
  }

  ghost predicate EverTracksStale(s: State, events: seq<Event>)
    decreases |events|
  {
    events != [] && Can(s, events[0])
    && (TracksAnyStale(s, events[0]) || EverTracksStale(Step(s, events[0]), events[1..]))
  }

  /** No close makes the drain forget a connection while the one that closed was not open. */
  predicate NothingTaken(s: State, events: seq<Event>)
    decreases |events|
  {
    events != [] && Can(s, events[0]) ==>
      (events[0].Disconnected? ==> !Takes(s, events[0], KeyOf(events[0].connection))) && NothingTaken(Step(s, events[0]), events[1..])
  }

  lemma StepBalanced(s: State, e: Event)
    requires Known(s) && Covered(s) && Can(s, e) && (e.Disconnected? ==> !Takes(s, e, KeyOf(e.connection)))
    ensures Covered(Step(s, e))
    ensures Balanced(Step(s, e)) <==> Balanced(s) && !TracksAnyStale(s, e)
  {
    forall key
      ensures Surplus(s, key) >= 0
      ensures Surplus(Step(s, e), key) == Surplus(s, key) + TracksStale(s, e, key)
    {
      assert Surplus(s, key) >= 0;
      StepSurplus(s, e, key);
      NothingMissed(s, e, key);
      hide Step, Surplus, Known, TracksStale, Takes, Misses, Covered;
    }
    hide Step, Surplus, Known, TracksStale, Takes, Misses;
  }

  lemma NothingMissed(s: State, e: Event, key: string)
    requires Surplus(s, key) >= 0 && Can(s, e)
    ensures !Misses(s, e, key)
    ensures Takes(s, e, key) ==> e.Disconnected? && key == KeyOf(e.connection)
  {
    if e.Disconnected? {
      OpenAtHolds(s.open, key, e.connection);
    }
  }

  /**
   In a run in which nothing is taken, so in every run in which only tracked connections close, the tracked
   connections are as many as the open ones exactly when no stale connection was ever tracked. Then, and only then,
   the drain is empty once all connections are gone.
   */
  lemma {:induction false} DrainsExactlyUnlessForgotten(s: State, events: seq<Event>)
    requires Known(s) && Covered(s) && Run(s, events).Some? && NothingTaken(s, events)
    ensures var after := Run(s, events).value;
            && (Balanced(after) <==> Balanced(s) && !EverTracksStale(s, events))
            && (after.open == [] ==> (after.drain.connections == map[] <==> Balanced(s) && !EverTracksStale(s, events)))
    decreases |events|
  {
    if events == [] {
      if s.open == [] {
        BalancedIsEmpty(s);
      }
    } else {
      StepBalanced(s, events[0]);
      StepKnown(s, events[0]);
      hide Step, Known, Balanced, Covered, TracksAnyStale, Takes;
      DrainsExactlyUnlessForgotten(Step(s, events[0]), events[1..]);
    }
  }
}
