/**
 The shutdown drain: waiting until every admission in flight and every connection is gone.

 The drain counts admissions, from authentication to establishment, and tracked connections, and resolves
 through a check that is scheduled when both are gone. `RunKeepsSound` proves for every run that no admission is
 lost or counted twice and that the drain never misses its wake-up. `ExactWhileInTurn` says when exactly the open
 connections are tracked, and `OutOfTurnCloseBlocksDrain` is a run after which the drain never resolves. The module
 `DrainBalance` says exactly when it resolves early and exactly when it never does.
 */
module ShutdownDrain {
  import opened Wrappers

  datatype Connection = Connection(id: nat, document: string, socketId: string)

  datatype Admission = Admission(document: string, socketId: string, token: nat)

  /** Not injective when names contain NUL: what follows does not need it to be. */
  function Key(document: string, socketId: string): string {
    document + "\0" + socketId
  }

  function KeyOf(c: Connection): string {
    Key(c.document, c.socketId)
  }

  datatype Promise = NotBegun | Unresolved | Resolved

  // ---------------------------------------------------------------------------------------------
  // The drain
  // ---------------------------------------------------------------------------------------------

  datatype Drain = Drain(connections: map<string, seq<Connection>>, pending: set<Admission>, tokens: nat, stopping: bool,
                         promise: Promise, check: bool)
  {
    predicate Empty() {
      pending == {} && connections == map[]
    }

    /** The connections under `key`, oldest first. */
    function At(key: string): seq<Connection> {
      if key in connections then connections[key] else []
    }

    function ScheduleCheck(): Drain {
      if stopping && Empty() then this.(check := true) else this
    }

    function NextAdmission(document: string, socketId: string): Option<Admission> {
      if stopping then None else Some(Admission(document, socketId, tokens))
    }

    function BeginAdmission(document: string, socketId: string): Drain {
      if stopping then this
      else this.(pending := pending + {Admission(document, socketId, tokens)}, tokens := tokens + 1)
    }

    function Release(admission: Option<Admission>): Drain {
      if admission.None? then this else this.(pending := pending - {admission.value}).ScheduleCheck()
    }

    /** Whether an admission that was presented is not one of this connection, or not pending any more. */
    predicate Refuses(c: Connection, admission: Option<Admission>) {
      admission.Some?
      && (admission.value.document != c.document || admission.value.socketId != c.socketId || admission.value !in pending)
    }

    function Connected(c: Connection, admission: Option<Admission>): Drain {
      if Refuses(c, admission) then Release(admission) else Add(c).Release(admission)
    }

    function Add(c: Connection): Drain {
      if c in At(KeyOf(c)) then this else this.(connections := connections[KeyOf(c) := At(KeyOf(c)) + [c]])
    }

    /** Forgets the oldest connection under the key, whichever closed. */
    function Disconnected(document: string, socketId: string): Drain {
      var key := Key(document, socketId);
      var left := if At(key) == [] then this
                  else if |At(key)| == 1 then this.(connections := connections - {key})
                  else this.(connections := connections[key := At(key)[1..]]);
      left.ScheduleCheck()
    }

    function AddAll(found: seq<Connection>, n: nat): Drain
      requires n <= |found|
    {
      if n == 0 then this else AddAll(found, n - 1).Add(found[n - 1])
    }

    function Begin(found: seq<Connection>): Drain {
      if promise != NotBegun then this
      else this.(stopping := true).AddAll(found, |found|).(promise := Unresolved).ScheduleCheck()
    }

    function RunCheck(): Drain {
      this.(check := false, promise := if Empty() && promise == Unresolved then Resolved else promise)
    }
  }

  const NEW_DRAIN := Drain(map[], {}, 0, false, NotBegun, false)

  // ---------------------------------------------------------------------------------------------
  // Runs
  // ---------------------------------------------------------------------------------------------

  /**
   `open` is the connections that were tracked, as accepted or as found at shutdown, and have not closed, oldest
   first; `closed` is all that closed, tracked or refused. Every admission granted was then handed to a connection,
   released, or is pending.
   */
  datatype State = State(drain: Drain, granted: set<Admission>, handed: set<Admission>, released: set<Admission>,
                         open: seq<Connection>, closed: set<Connection>)
  {
    function Opened(c: Connection): State {
      this.(open := if c in open || c in closed then open else open + [c])
    }

    function OpenedAll(found: seq<Connection>, n: nat): State
      requires n <= |found|
    {
      if n == 0 then this else OpenedAll(found, n - 1).Opened(found[n - 1])
    }

    function GaveUp(admission: Option<Admission>): State {
      if admission.Some? && admission.value in drain.pending then this.(released := released + {admission.value}) else this
    }

    function Handed(admission: Option<Admission>): State {
      if admission.Some? then this.(handed := handed + {admission.value}) else this
    }
  }

  datatype Event =
    | BeginAdmission(document: string, socketId: string)
    | Release(admission: Option<Admission>)
    | Connected(connection: Connection, admission: Option<Admission>)
    | Disconnected(connection: Connection)
    | Begin(found: seq<Connection>)
    | CheckRuns

  function OpenAt(open: seq<Connection>, key: string): seq<Connection> {
    if open == [] then []
    else if KeyOf(open[|open| - 1]) == key then OpenAt(open[..|open| - 1], key) + [open[|open| - 1]]
    else OpenAt(open[..|open| - 1], key)
  }

  function Without(open: seq<Connection>, c: Connection): seq<Connection> {
    if open == [] then []
    else if open[|open| - 1] == c then Without(open[..|open| - 1], c)
    else Without(open[..|open| - 1], c) + [open[|open| - 1]]
  }

  /**
   An admission that is presented was granted, and the check runs when it was scheduled. A connection may close
   whether it was tracked or refused, whatever else is open, and its connected hook may come after that.
   */
  predicate Can(s: State, e: Event) {
    match e
    case Connected(_, admission) => admission.Some? ==> admission.value in s.granted
    case CheckRuns => s.drain.check
    case _ => true
  }

  function Step(s: State, e: Event): State
    requires Can(s, e)
  {
    match e
    case BeginAdmission(document, socketId) =>
      var next := s.drain.NextAdmission(document, socketId);
      s.(drain := s.drain.BeginAdmission(document, socketId),
         granted := if next.Some? then s.granted + {next.value} else s.granted)
    case Release(admission) => s.GaveUp(admission).(drain := s.drain.Release(admission))
    case Connected(c, admission) =>
      if s.drain.Refuses(c, admission) then s.GaveUp(admission).(drain := s.drain.Connected(c, admission))
      else s.Opened(c).Handed(admission).(drain := s.drain.Connected(c, admission))
    case Disconnected(c) =>
      s.(drain := s.drain.Disconnected(c.document, c.socketId),
         open := Without(s.open, c), closed := s.closed + {c})
    case Begin(found) =>
      if s.drain.promise != NotBegun then s
      else s.OpenedAll(found, |found|).(drain := s.drain.Begin(found))
    case CheckRuns => s.(drain := s.drain.RunCheck())
  }

  const START := State(NEW_DRAIN, {}, {}, {}, [], {})

  function Run(s: State, events: seq<Event>): Option<State>
    decreases |events|
  {
    if events == [] then Some(s) else if !Can(s, events[0]) then None else Run(Step(s, events[0]), events[1..])
  }

  /** A run goes on with exactly the events that can happen next. */
  lemma {:induction false} RunGoesOn(s: State, events: seq<Event>, e: Event)
    ensures Run(s, []) == Some(s)
    ensures Run(s, events + [e])
            == var before := Run(s, events);
               if before.Some? && Can(before.value, e) then Some(Step(before.value, e)) else None
    decreases |events|
  {
    hide Step, Can;
    if events == [] {
      assert [e][1..] == [];
    } else {
      assert (events + [e])[1..] == events[1..] + [e];
      if Can(s, events[0]) {
        RunGoesOn(Step(s, events[0]), events[1..], e);
      }
    }
  }

  // ---------------------------------------------------------------------------------------------
  // What every run keeps
  // ---------------------------------------------------------------------------------------------

  /** Every admission granted is in exactly one place. */
  ghost predicate Placed(s: State) {
    && s.granted == s.drain.pending + s.handed + s.released
    && s.drain.pending !! s.handed !! s.released
    && (forall a | a in s.granted :: a.token < s.drain.tokens)
  }

  /** Every tracked connection is open or has closed, and no key is kept for none. */
  ghost predicate KnownAt(s: State, key: string) {
    && (key in s.drain.connections ==> s.drain.connections[key] != [])
    && (forall c | c in s.drain.At(key) :: c in s.open || c in s.closed)
  }

  ghost predicate Known(s: State) {
    && (forall key :: KnownAt(s, key))
    && Distinct(s.open)
    && (forall c | c in s.open :: c !in s.closed)
  }

  predicate Distinct(open: seq<Connection>) {
    forall i, j | 0 <= i < j < |open| :: open[i] != open[j]
  }

  /** When nothing is left after shutdown began, a check is scheduled or the promise is resolved. */
  ghost predicate Awake(d: Drain) {
    && (d.stopping <==> d.promise != NotBegun)
    && (d.check ==> d.stopping)
    && (d.stopping && d.Empty() ==> d.check || d.promise == Resolved)
  }

  ghost predicate Sound(s: State) {
    Placed(s) && Known(s) && Awake(s.drain)
  }

  lemma OpenAtSnoc(open: seq<Connection>, c: Connection, key: string)
    ensures OpenAt(open + [c], key) == if KeyOf(c) == key then OpenAt(open, key) + [c] else OpenAt(open, key)
  {
    assert (open + [c])[..|open|] == open;
  }

  lemma {:induction false} OpenAtHolds(open: seq<Connection>, key: string, c: Connection)
    ensures c in OpenAt(open, key) <==> c in open && KeyOf(c) == key
  {
    if open != [] {
      OpenAtHolds(open[..|open| - 1], key, c);
    }
  }

  lemma {:induction false} WithoutOpen(open: seq<Connection>, key: string, c: Connection)
    ensures OpenAt(Without(open, c), key) == Without(OpenAt(open, key), c)
  {
    if open != [] {
      var last := open[|open| - 1];
      var rest := open[..|open| - 1];
      WithoutOpen(rest, key, c);
      OpenAtSnoc(Without(rest, c), last, key);
      assert (OpenAt(rest, key) + [last])[..|OpenAt(rest, key)|] == OpenAt(rest, key);
    }
  }

  lemma {:induction false} WithoutShrinks(open: seq<Connection>, c: Connection)
    ensures |Without(open, c)| <= |open|
    ensures c in open ==> |Without(open, c)| < |open|
    ensures c !in open ==> Without(open, c) == open
    ensures forall x :: x in Without(open, c) <==> x in open && x != c
  {
    if open != [] {
      WithoutShrinks(open[..|open| - 1], c);
      assert open == open[..|open| - 1] + [open[|open| - 1]];
    }
  }

  lemma {:induction false} DistinctAt(open: seq<Connection>, key: string)
    requires Distinct(open)
    ensures Distinct(OpenAt(open, key))
  {
    if open != [] {
      var rest := open[..|open| - 1];
      DistinctAt(rest, key);
      OpenAtHolds(rest, key, open[|open| - 1]);
    }
  }

  lemma {:induction false} DistinctWithout(open: seq<Connection>, c: Connection)
    requires Distinct(open)
    ensures Distinct(Without(open, c))
  {
    if open != [] {
      var rest := open[..|open| - 1];
      DistinctWithout(rest, c);
      WithoutShrinks(rest, c);
      assert open[|open| - 1] !in rest;
    }
  }

  lemma AddKnown(s: State, c: Connection)
    requires Known(s)
    ensures Known(s.Opened(c).(drain := s.drain.Add(c)))
  {
    var after := s.Opened(c).(drain := s.drain.Add(c));
    forall key
      ensures KnownAt(after, key)
    {
      assert KnownAt(s, key);
    }
  }

  lemma {:induction false} AddAllKnown(s: State, found: seq<Connection>, n: nat)
    requires Known(s) && n <= |found|
    ensures Known(s.OpenedAll(found, n).(drain := s.drain.AddAll(found, n)))
  {
    if n > 0 {
      AddAllKnown(s, found, n - 1);
      AddKnown(s.OpenedAll(found, n - 1).(drain := s.drain.AddAll(found, n - 1)), found[n - 1]);
    }
  }

  /** Only the tracked connections matter to `Known`. */
  lemma SameStaysKnown(s: State, after: State)
    requires Known(s) && after.drain.connections == s.drain.connections
    requires after.open == s.open && after.closed == s.closed
    ensures Known(after)
  {
    forall key
      ensures KnownAt(after, key)
    {
      assert KnownAt(s, key);
    }
  }

  lemma {:induction false} OpenedIgnoresDrain(s: State, d: Drain, found: seq<Connection>, n: nat)
    requires n <= |found|
    ensures s.(drain := d).OpenedAll(found, n) == s.OpenedAll(found, n).(drain := d)
  {
    if n > 0 {
      OpenedIgnoresDrain(s, d, found, n - 1);
    }
  }

  /** Beginning the drain tracks what was found, and changes no tracked connection besides. */
  lemma {:induction false} BeginAddsAll(s: State, found: seq<Connection>)
    requires s.drain.promise == NotBegun
    ensures var all, after := s.OpenedAll(found, |found|).(drain := s.drain.AddAll(found, |found|)), Step(s, Begin(found));
            after.drain.connections == all.drain.connections && after.open == all.open && after.closed == all.closed
  {
    BeginConnections(s.drain, found);
    hide Drain.AddAll, State.OpenedAll, Drain.Begin;
  }

  lemma {:induction false} BeginConnections(d: Drain, found: seq<Connection>)
    requires d.promise == NotBegun
    ensures d.Begin(found).connections == d.AddAll(found, |found|).connections
  {
    AddAllIgnoresStopping(d, found, |found|);
    ScheduleKeepsConnections(d.(stopping := true).AddAll(found, |found|).(promise := Unresolved));
    hide Drain.AddAll, Drain.ScheduleCheck;
  }

  lemma ScheduleKeepsConnections(d: Drain)
    ensures d.ScheduleCheck().connections == d.connections
  {
  }

  lemma {:induction false} AddAllIgnoresStopping(d: Drain, found: seq<Connection>, n: nat)
    requires n <= |found|
    ensures d.(stopping := true).AddAll(found, n) == d.AddAll(found, n).(stopping := true)
  {
    if n > 0 {
      AddAllIgnoresStopping(d, found, n - 1);
    }
  }

  lemma DisconnectedKnown(s: State, c: Connection)
    requires Known(s)
    ensures Known(Step(s, Disconnected(c)))
  {
    var after := Step(s, Disconnected(c));
    WithoutShrinks(s.open, c);
    DistinctWithout(s.open, c);
    forall key
      ensures KnownAt(after, key)
    {
      assert KnownAt(s, key);
    }
  }

  lemma StepKnown(s: State, e: Event)
    requires Known(s) && Can(s, e)
    ensures Known(Step(s, e))
  {
    var after := Step(s, e);
    match e {
      case Connected(c, admission) =>
        AddKnown(s, c);
        SameStaysKnown(if s.drain.Refuses(c, admission) then s else s.Opened(c).(drain := s.drain.Add(c)), after);
      case Disconnected(c) => DisconnectedKnown(s, c);
      case Begin(found) =>
        if s.drain.promise == NotBegun {
          AddAllKnown(s, found, |found|);
          BeginAddsAll(s, found);
          SameStaysKnown(s.OpenedAll(found, |found|).(drain := s.drain.AddAll(found, |found|)), after);
        }
      case BeginAdmission(_, _) => SameStaysKnown(s, after);
      case Release(_) => SameStaysKnown(s, after);
      case CheckRuns => SameStaysKnown(s, after);
    }
  }

  lemma AddAllKeepsRest(d: Drain, found: seq<Connection>, n: nat)
    requires n <= |found|
    ensures d.AddAll(found, n) == d.(connections := d.AddAll(found, n).connections)
  {
    if n > 0 {
      AddAllKeepsRest(d, found, n - 1);
    }
  }

  lemma {:induction false} OpenedKeepsRest(s: State, found: seq<Connection>, n: nat)
    requires n <= |found|
    ensures s.OpenedAll(found, n) == s.(open := s.OpenedAll(found, n).open)
  {
    if n > 0 {
      OpenedKeepsRest(s, found, n - 1);
    }
  }

  lemma ConnectedPlaced(s: State, c: Connection, admission: Option<Admission>)
    requires Placed(s) && Can(s, Connected(c, admission))
    ensures Placed(Step(s, Connected(c, admission)))
  {
    var after := Step(s, Connected(c, admission));
    assert after.granted == s.granted && after.drain.tokens == s.drain.tokens;
    if admission.Some? {
      assert after.drain.pending == s.drain.pending - {admission.value};
    }
  }

  lemma StepPlaced(s: State, e: Event)
    requires Placed(s) && Can(s, e)
    ensures Placed(Step(s, e))
  {
    match e {
      case Connected(c, admission) => ConnectedPlaced(s, c, admission);
      case Begin(found) =>
        AddAllKeepsRest(s.drain.(stopping := true), found, |found|);
        OpenedKeepsRest(s, found, |found|);
      case BeginAdmission(_, _) =>
      case Release(_) =>
      case Disconnected(_) =>
      case CheckRuns =>
    }
  }

  lemma StepAwake(s: State, e: Event)
    requires Awake(s.drain) && Can(s, e)
    ensures Awake(Step(s, e).drain)
  {
    if e.Begin? {
      AddAllKeepsRest(s.drain.(stopping := true), e.found, |e.found|);
    }
  }

  /**
   In every run, an admission granted is pending, handed to a connection or released, and only one of these;
   every tracked connection is open or has closed; and once shutdown began, when nothing is left, a check is
   scheduled or the promise is resolved.
   */
  lemma {:induction false} RunKeepsSound(s: State, events: seq<Event>)
    requires Sound(s) && Run(s, events).Some?
    ensures Sound(Run(s, events).value)
    decreases |events|
  {
    if events != [] {
      StepSound(s, events[0]);
      hide Step, Sound;
      RunKeepsSound(Step(s, events[0]), events[1..]);
    }
  }

  lemma StepSound(s: State, e: Event)
    requires Sound(s) && Can(s, e)
    ensures Sound(Step(s, e))
  {
    StepPlaced(s, e);
    StepKnown(s, e);
    StepAwake(s, e);
    hide Step, Placed, Known, Awake;
  }

  lemma OnlyCheckResolves(s: State, e: Event)
    requires Can(s, e)
    ensures s.drain.promise != Resolved && Step(s, e).drain.promise == Resolved ==> e.CheckRuns? && s.drain.Empty()
  {
    if e.Begin? {
      AddAllKeepsRest(s.drain.(stopping := true), e.found, |e.found|);
    }
  }

  /** The promise is resolved and nothing is tracked or open. */
  ghost predicate Finished(s: State) {
    s.drain.promise == Resolved && s.drain.stopping && s.drain.Empty() && s.open == []
  }

  ghost predicate FinishedThroughout(s: State, events: seq<Event>)
    decreases |events|
  {
    Finished(s) && (events != [] && Can(s, events[0]) ==> FinishedThroughout(Step(s, events[0]), events[1..]))
  }

  /** Every connection presents an admission. */
  predicate AllPresent(events: seq<Event>) {
    forall e | e in events && e.Connected? :: e.admission.Some?
  }

  /**
   Once resolved with nothing left, nothing is tracked again exactly while every connection presents an
   admission: none is granted any more, and one without is tracked as ever.
   */
  lemma {:induction false} ResolvedStaysEmpty(s: State, events: seq<Event>)
    requires Finished(s) && Run(s, events).Some?
    ensures FinishedThroughout(s, events) <==> AllPresent(events)
    ensures Run(s, events).value.drain.promise == Resolved
    decreases |events|
  {
    ResolvedForGood(s, events);
    if events != [] {
      var e := events[0];
      StepFinished(s, e);
      assert events == [e] + events[1..];
      hide Step, Finished;
      if !e.Connected? || e.admission.Some? {
        ResolvedStaysEmpty(Step(s, e), events[1..]);
      }
    }
  }

  lemma StepFinished(s: State, e: Event)
    requires Finished(s) && Can(s, e)
    ensures Finished(Step(s, e)) <==> !(e.Connected? && e.admission.None?)
  {
  }

  lemma {:induction false} ResolvedForGood(s: State, events: seq<Event>)
    requires s.drain.promise == Resolved && Run(s, events).Some?
    ensures Run(s, events).value.drain.promise == Resolved
    decreases |events|
  {
    if events != [] {
      ResolvedForGood(Step(s, events[0]), events[1..]);
    }
  }

  // ---------------------------------------------------------------------------------------------
  // When the drain does resolve
  // ---------------------------------------------------------------------------------------------

  /** What is tracked under each key is what is open, in the same order. */
  ghost predicate Exact(s: State) {
    forall key :: ExactAt(s, key)
  }

  predicate ExactAt(s: State, key: string) {
    s.drain.At(key) == OpenAt(s.open, key)
  }

  ghost predicate ExactThroughout(s: State, events: seq<Event>)
    decreases |events|
  {
    Exact(s) && (events != [] && Can(s, events[0]) ==> ExactThroughout(Step(s, events[0]), events[1..]))
  }

  /**
   What closes is the oldest open connection under its key, or nothing is open there; and what is tracked has not
   closed.
   */
  predicate InTurn(s: State, e: Event) {
    match e
    case Disconnected(c) =>
      var here := OpenAt(s.open, KeyOf(c));
      here == [] || here[0] == c
    case Connected(c, admission) => s.drain.Refuses(c, admission) || c !in s.closed
    case Begin(found) => s.drain.promise == NotBegun ==> forall c | c in found :: c !in s.closed
    case _ => true
  }

  predicate AllInTurn(s: State, events: seq<Event>)
    decreases |events|
  {
    events != [] && Can(s, events[0]) ==> InTurn(s, events[0]) && AllInTurn(Step(s, events[0]), events[1..])
  }

  lemma {:induction false} WithoutFirst(open: seq<Connection>)
    requires open != [] && Distinct(open)
    ensures Without(open, open[0]) == open[1..]
  {
    if |open| > 1 {
      var rest := open[..|open| - 1];
      WithoutFirst(rest);
      assert open[1..] == rest[1..] + [open[|open| - 1]];
    }
  }

  /** Tracking a connection that has not closed keeps the order; tracking one that has does not. */
  lemma AddExact(s: State, c: Connection)
    requires Known(s) && Exact(s)
    ensures Exact(s.Opened(c).(drain := s.drain.Add(c))) <==> c !in s.closed
  {
    var after := s.Opened(c).(drain := s.drain.Add(c));
    assert ExactAt(s, KeyOf(c));
    OpenAtHolds(s.open, KeyOf(c), c);
    if c in s.closed {
      assert !ExactAt(after, KeyOf(c));
    } else {
      forall key
        ensures ExactAt(after, key)
      {
        assert ExactAt(s, key);
        OpenAtSnoc(s.open, c, key);
      }
    }
  }

  lemma {:induction false} AddAllFacts(s: State, found: seq<Connection>, n: nat, c: Connection)
    requires n <= |found|
    ensures s.OpenedAll(found, n).closed == s.closed
    ensures c in s.OpenedAll(found, n).open <==> c in s.open || (c in found[..n] && c !in s.closed)
    ensures c in s.drain.AddAll(found, n).At(KeyOf(c)) <==> c in s.drain.At(KeyOf(c)) || c in found[..n]
  {
    if n > 0 {
      AddAllFacts(s, found, n - 1, c);
      assert found[..n] == found[..n - 1] + [found[n - 1]];
    }
  }

  lemma {:induction false} AddAllExact(s: State, found: seq<Connection>, n: nat)
    requires Known(s) && Exact(s) && n <= |found| && forall c | c in found :: c !in s.closed
    ensures Exact(s.OpenedAll(found, n).(drain := s.drain.AddAll(found, n)))
  {
    if n > 0 {
      AddAllExact(s, found, n - 1);
      AddAllKnown(s, found, n - 1);
      AddAllFacts(s, found, n - 1, found[n - 1]);
      AddExact(s.OpenedAll(found, n - 1).(drain := s.drain.AddAll(found, n - 1)), found[n - 1]);
    }
  }

  lemma {:induction false} ClosedIsNotExact(s: State, found: seq<Connection>, c: Connection)
    requires Known(s) && c in found && c in s.closed
    ensures !Exact(s.OpenedAll(found, |found|).(drain := s.drain.AddAll(found, |found|)))
  {
    var after := s.OpenedAll(found, |found|).(drain := s.drain.AddAll(found, |found|));
    assert found[..|found|] == found;
    AddAllFacts(s, found, |found|, c);
    OpenAtHolds(after.open, KeyOf(c), c);
    assert !ExactAt(after, KeyOf(c));
  }

  lemma SameExact(s: State, after: State)
    requires after.drain.connections == s.drain.connections && after.open == s.open
    ensures Exact(after) <==> Exact(s)
  {
    assert forall key :: ExactAt(after, key) <==> ExactAt(s, key);
  }

  /** At one key: the oldest tracked goes, and the one that closed. */
  lemma {:induction false} DisconnectedExactAt(s: State, c: Connection, key: string)
    requires Known(s) && ExactAt(s, key)
    ensures ExactAt(Step(s, Disconnected(c)), key)
            <==> (key == KeyOf(c) ==> OpenAt(s.open, key) == [] || OpenAt(s.open, key)[0] == c)
  {
    DisconnectedAt(s, c, key);
    WithoutOpen(s.open, key, c);
    DistinctAt(s.open, key);
    OpenAtHolds(s.open, key, c);
    hide OpenAt, Without, Known, Step, KeyOf;
    WithoutOneOrFirst(OpenAt(s.open, key), c);
  }

  /** What a close leaves tracked under a key, and open. */
  lemma DisconnectedAt(s: State, c: Connection, key: string)
    requires Known(s)
    ensures var here, after := s.drain.At(key), Step(s, Disconnected(c));
            && after.drain.At(key) == (if key == KeyOf(c) && here != [] then here[1..] else here)
            && after.open == Without(s.open, c)
  {
    assert KnownAt(s, key);
  }

  lemma {:induction false} WithoutOneOrFirst(here: seq<Connection>, c: Connection)
    requires Distinct(here)
    ensures c !in here ==> Without(here, c) == here
    ensures here != [] ==> (Without(here, c) == here[1..] <==> here[0] == c)
  {
    WithoutShrinks(here, c);
    if here != [] {
      if here[0] == c {
        WithoutFirst(here);
      } else {
        assert here[0] in Without(here, c) && here[0] !in here[1..];
      }
    }
  }

  lemma DisconnectedExact(s: State, c: Connection)
    requires Known(s) && Exact(s)
    ensures Exact(Step(s, Disconnected(c))) <==> InTurn(s, Disconnected(c))
  {
    var after := Step(s, Disconnected(c));
    forall key
      ensures ExactAt(after, key) <==> (key == KeyOf(c) ==> InTurn(s, Disconnected(c)))
    {
      assert ExactAt(s, key);
      DisconnectedExactAt(s, c, key);
      hide ExactAt, OpenAt, Known;
    }
    assert ExactAt(after, KeyOf(c)) <==> InTurn(s, Disconnected(c));
  }

  lemma StepExact(s: State, e: Event)
    requires Known(s) && Exact(s) && Can(s, e)
    ensures Exact(Step(s, e)) <==> InTurn(s, e)
  {
    var after := Step(s, e);
    match e {
      case Connected(c, admission) =>
        AddExact(s, c);
        SameExact(if s.drain.Refuses(c, admission) then s else s.Opened(c).(drain := s.drain.Add(c)), after);
      case Disconnected(c) => DisconnectedExact(s, c);
      case Begin(found) => BeginExact(s, found);
      case BeginAdmission(_, _) => SameExact(s, after);
      case Release(_) => SameExact(s, after);
      case CheckRuns => SameExact(s, after);
    }
  }

  lemma BeginExact(s: State, found: seq<Connection>)
    requires Known(s) && Exact(s)
    ensures Exact(Step(s, Begin(found))) <==> InTurn(s, Begin(found))
  {
    if s.drain.promise == NotBegun {
      BeginAddsAll(s, found);
      SameExact(s.OpenedAll(found, |found|).(drain := s.drain.AddAll(found, |found|)), Step(s, Begin(found)));
      hide Known, Exact, Step;
      if c :| c in found && c in s.closed {
        ClosedIsNotExact(s, found, c);
      } else {
        AddAllExact(s, found, |found|);
      }
    }
  }

  /**
   Exactly the open connections are tracked, in the order they opened, at every point of a run, if and only if
   connections under one key close in that order, none that was refused closes beside one that is open, and none
   is tracked once it has closed.
   */
  lemma {:induction false} ExactWhileInTurn(s: State, events: seq<Event>)
    requires Known(s) && Exact(s) && Run(s, events).Some?
    ensures ExactThroughout(s, events) <==> AllInTurn(s, events)
    ensures AllInTurn(s, events) ==> Exact(Run(s, events).value)
    decreases |events|
  {
    if events != [] {
      StepExact(s, events[0]);
      StepKnown(s, events[0]);
      hide Step, Known, Exact;
      if InTurn(s, events[0]) {
        ExactWhileInTurn(Step(s, events[0]), events[1..]);
      }
    }
  }

  /** In such a run, once all connections and admissions are gone, the drain has resolved or its next check resolves it. */
  lemma {:induction false} RunInTurnIsExact(s: State, events: seq<Event>)
    requires Sound(s) && Exact(s) && Run(s, events).Some? && AllInTurn(s, events)
    ensures var after := Run(s, events).value;
            && Sound(after) && Exact(after)
            && (after.drain.stopping && after.open == [] && after.granted == after.handed + after.released ==>
                  || after.drain.promise == Resolved
                  || (Can(after, CheckRuns) && Step(after, CheckRuns).drain.promise == Resolved))
  {
    var after := Run(s, events).value;
    RunKeepsSound(s, events);
    ExactWhileInTurn(s, events);
    if after.open == [] {
      NothingTracked(after);
    }
  }

  lemma NothingTracked(s: State)
    requires Known(s) && Exact(s) && s.open == []
    ensures s.drain.connections == map[]
  {
    forall key
      ensures key !in s.drain.connections
    {
      assert ExactAt(s, key) && KnownAt(s, key);
    }
  }

  lemma SoundAtStart()
    ensures Sound(START) && Exact(START)
  {
    assert forall key :: KnownAt(START, key) && ExactAt(START, key);
  }

  /** The state when all that happened concerned one key and no admission. */
  function Only(key: string, tracked: seq<Connection>, stopping: bool, open: seq<Connection>, closed: set<Connection>): State {
    var connections := if tracked == [] then map[] else map[key := tracked];
    START.(drain := Drain(connections, {}, 0, stopping, if stopping then Unresolved else NotBegun, false),
           open := open, closed := closed)
  }

  lemma ConnectedOnly(key: string, tracked: seq<Connection>, open: seq<Connection>, c: Connection)
    requires KeyOf(c) == key && c !in tracked && c !in open
    ensures Step(Only(key, tracked, false, open, {}), Connected(c, None)) == Only(key, tracked + [c], false, open + [c], {})
  {
    var s := Only(key, tracked, false, open, {});
    assert s.drain.At(key) == tracked;
    assert s.drain.connections[key := tracked + [c]] == map[key := tracked + [c]];
  }

  lemma {:induction false} DisconnectedOnly(key: string, tracked: seq<Connection>, stopping: bool, open: seq<Connection>,
                         closed: set<Connection>, c: Connection)
    requires KeyOf(c) == key && |tracked| > 1 && c in open
    ensures Step(Only(key, tracked, stopping, open, closed), Disconnected(c))
            == Only(key, tracked[1..], stopping, Without(open, c), closed + {c})
  {
    var s := Only(key, tracked, stopping, open, closed);
    var left := s.drain.(connections := map[key := tracked[1..]]);
    assert s.drain.At(key) == tracked && tracked[1..] != [];
    assert map[key := tracked][key := tracked[1..]] == map[key := tracked[1..]];
    assert key in left.connections && !left.Empty();
    assert s.drain.Disconnected(c.document, c.socketId) == left;
  }

  lemma BeginOnly(key: string, tracked: seq<Connection>, open: seq<Connection>, closed: set<Connection>, c: Connection)
    requires KeyOf(c) == key && tracked != [] && c !in tracked && c in open
    ensures Step(Only(key, tracked, false, open, closed), Begin([c])) == Only(key, tracked + [c], true, open, closed)
  {
    var s := Only(key, tracked, false, open, closed);
    var stopping := s.drain.(stopping := true);
    assert s.OpenedAll([c], 0) == s && s.OpenedAll([c], 1) == s.Opened(c) == s;
    assert stopping.AddAll([c], 0) == stopping && stopping.AddAll([c], 1) == stopping.Add(c);
    assert stopping.At(key) == tracked && |[c]| == 1;
    assert map[key := tracked][key := tracked + [c]] == map[key := tracked + [c]];
    assert stopping.Add(c).connections == map[key := tracked + [c]];
    assert key in stopping.Add(c).connections && !stopping.Add(c).Empty();
    assert s.drain.Begin([c]) == stopping.Add(c).(promise := Unresolved);
    assert Step(s, Begin([c])) == s.(drain := s.drain.Begin([c]));
  }

  lemma BothConnect(older: Connection, younger: Connection, rest: seq<Event>)
    requires KeyOf(older) == KeyOf(younger) && older != younger
    ensures Run(START, [Connected(older, None)] + ([Connected(younger, None)] + rest))
            == Run(Only(KeyOf(older), [older, younger], false, [older, younger], {}), rest)
  {
    var key := KeyOf(older);
    assert Only(key, [], false, [], {}) == START;
    ConnectedOnly(key, [], [], older);
    ConnectedOnly(key, [older], [older], younger);
    assert [] + [older] == [older] && [older] + [younger] == [older, younger];
    hide *;
    RunStep(START, Connected(older, None), [Connected(younger, None)] + rest);
    RunStep(Only(key, [older], false, [older], {}), Connected(younger, None), rest);
  }

  lemma YoungerCloses(older: Connection, younger: Connection, rest: seq<Event>)
    requires KeyOf(older) == KeyOf(younger) && older != younger
    ensures Run(Only(KeyOf(older), [older, younger], false, [older, younger], {}), [Disconnected(younger)] + ([Begin([older])] + rest))
            == Run(Only(KeyOf(older), [younger, older], true, [older], {younger}), rest)
  {
    var key := KeyOf(older);
    WithoutPair(older, younger);
    DisconnectedOnly(key, [older, younger], false, [older, younger], {}, younger);
    BeginOnly(key, [younger], [older], {younger}, older);
    assert [older, younger][1..] == [younger] && [younger] + [older] == [younger, older] && {} + {younger} == {younger};
    assert Can(Only(key, [younger], false, [older], {younger}), Begin([older]));
    hide *;
    RunStep(Only(key, [older, younger], false, [older, younger], {}), Disconnected(younger), [Begin([older])] + rest);
    RunStep(Only(key, [younger], false, [older], {younger}), Begin([older]), rest);
  }

  lemma OlderCloses(older: Connection, younger: Connection)
    requires KeyOf(older) == KeyOf(younger) && older != younger
    ensures Run(Only(KeyOf(older), [younger, older], true, [older], {younger}), [Disconnected(older)] + [])
            == Some(Only(KeyOf(older), [older], true, [], {older, younger}))
  {
    var key := KeyOf(older);
    WithoutPair(older, younger);
    DisconnectedOnly(key, [younger, older], true, [older], {younger}, older);
    var last := Only(key, [older], true, [], {older, younger});
    assert Run(last, []) == Some(last);
    assert [younger, older][1..] == [older] && {younger} + {older} == {older, younger};
    hide *;
    RunStep(Only(key, [younger, older], true, [older], {younger}), Disconnected(older), []);
  }

  /**
   Two connections share a key and the younger closes first: shutdown then tracks the older one twice over,
   and after all connections are gone neither resolves nor ever checks.
   */
  lemma OutOfTurnCloseBlocksDrain(older: Connection, younger: Connection)
    requires KeyOf(older) == KeyOf(younger) && older != younger
    ensures Run(START, [Connected(older, None), Connected(younger, None), Disconnected(younger), Begin([older]), Disconnected(older)])
            == Some(Only(KeyOf(older), [older], true, [], {older, younger}))
  {
    hide *;
    var last := [Disconnected(older)] + [];
    var closes := [Disconnected(younger)] + ([Begin([older])] + last);
    BothConnect(older, younger, closes);
    YoungerCloses(older, younger, last);
    OlderCloses(older, younger);
    assert [Connected(older, None)] + ([Connected(younger, None)] + closes)
           == [Connected(older, None), Connected(younger, None), Disconnected(younger), Begin([older]), Disconnected(older)];
  }

  lemma WithoutPair(older: Connection, younger: Connection)
    requires older != younger
    ensures Without([older, younger], younger) == [older] && Without([older], older) == []
  {
    assert [older, younger][..1] == [older] && [older][..0] == [];
    assert Without([older], younger) == [older];
  }

  lemma {:induction false} RunStep(s: State, e: Event, rest: seq<Event>)
    requires Can(s, e)
    ensures Run(s, [e] + rest) == Run(Step(s, e), rest)
  {
    assert ([e] + rest)[1..] == rest;
  }

  // ---------------------------------------------------------------------------------------------
  // In place
  // ---------------------------------------------------------------------------------------------

  function Flatten(documents: seq<seq<Connection>>, n: nat): seq<Connection>
    requires n <= |documents|
  {
    if n == 0 then [] else Flatten(documents, n - 1) + documents[n - 1]
  }

  predicate StandsAt(part: seq<Connection>, all: seq<Connection>, at: nat) {
    at + |part| <= |all| && all[at..at + |part|] == part
  }

  /** What is found at shutdown is the connections of all documents and no others. */
  lemma {:induction false} FlattenHolds(documents: seq<seq<Connection>>, n: nat)
    requires n <= |documents|
    ensures forall c :: c in Flatten(documents, n) <==> exists d | 0 <= d < n :: c in documents[d]
  {
    if n > 0 {
      FlattenHolds(documents, n - 1);
    }
  }

  /** Those of one document stand together, in order. */
  lemma {:induction false} FlattenKeepsOrder(documents: seq<seq<Connection>>, n: nat, d: nat) returns (at: nat)
    requires d < n <= |documents|
    ensures StandsAt(documents[d], Flatten(documents, n), at)
  {
    if d < n - 1 {
      at := FlattenKeepsOrder(documents, n - 1, d);
      assert Flatten(documents, n)[at..at + |documents[d]|] == Flatten(documents, n - 1)[at..at + |documents[d]|];
    } else {
      at := |Flatten(documents, d)|;
    }
  }

  lemma {:induction false} AddAllSnoc(d: Drain, found: seq<Connection>, rest: seq<Connection>, n: nat)
    requires n <= |found|
    ensures d.AddAll(found + rest, n) == d.AddAll(found, n)
  {
    if n > 0 {
      AddAllSnoc(d, found, rest, n - 1);
    }
  }

  class ShutdownConnectionDrain {
    var connections: map<string, seq<Connection>>
    var pendingAdmissions: set<Admission>
    var nextToken: nat
    var stopping: bool
    var promise: Promise
    var emptyCheck: bool

    ghost function Value(): Drain
      reads this
    {
      Drain(connections, pendingAdmissions, nextToken, stopping, promise, emptyCheck)
    }

    constructor ()
      ensures Value() == NEW_DRAIN
    {
      connections, pendingAdmissions, nextToken, stopping, promise, emptyCheck := map[], {}, 0, false, NotBegun, false;
    }

    method BeginAdmission(document: string, socketId: string) returns (admission: Option<Admission>)
      modifies this
      ensures Value() == old(Value()).BeginAdmission(document, socketId)
      ensures admission == old(Value()).NextAdmission(document, socketId)
    {
      if stopping {
        return None;
      }
      admission := Some(Admission(document, socketId, nextToken));
      nextToken := nextToken + 1;
      pendingAdmissions := pendingAdmissions + {admission.value};
    }

    method ScheduleEmptyCheck()
      modifies this`emptyCheck
      ensures Value() == old(Value()).ScheduleCheck()
    {
      if !stopping || |pendingAdmissions| > 0 || |connections| > 0 || emptyCheck {
        assert stopping && pendingAdmissions == {} && connections == map[] ==> emptyCheck;
        return;
      }
      emptyCheck := true;
    }

    method ReleaseAdmission(admission: Option<Admission>)
      modifies this
      ensures Value() == old(Value()).Release(admission)
    {
      if admission.None? {
        return;
      }
      pendingAdmissions := pendingAdmissions - {admission.value};
      ScheduleEmptyCheck();
    }

    method Add(c: Connection)
      modifies this`connections
      ensures Value() == old(Value()).Add(c)
    {
      var key := Key(c.document, c.socketId);
      var here := if key in connections then connections[key] else [];
      if c !in here {
        connections := connections[key := here + [c]];
      }
    }

    method Connect(c: Connection, admission: Option<Admission>) returns (rejected: bool)
      modifies this
      ensures Value() == old(Value()).Connected(c, admission)
      ensures rejected <==> old(Value()).Refuses(c, admission) || old(stopping)
    {
      if admission.Some?
         && (admission.value.document != c.document || admission.value.socketId != c.socketId
             || admission.value !in pendingAdmissions)
      {
        ReleaseAdmission(admission);
        return true;
      }
      Add(c);
      ReleaseAdmission(admission);
      return stopping;
    }

    method Disconnect(document: string, socketId: string)
      modifies this
      ensures Value() == old(Value()).Disconnected(document, socketId)
    {
      var key := Key(document, socketId);
      if key !in connections || connections[key] == [] {
        ScheduleEmptyCheck();
        return;
      }
      var left := connections[key][1..];
      if |left| == 0 {
        connections := connections - {key};
      } else {
        connections := connections[key := left];
      }
      ScheduleEmptyCheck();
    }

    /** Takes the connections of each document. */
    method BeginDrain(documents: seq<seq<Connection>>)
      modifies this
      ensures Value() == old(Value()).Begin(Flatten(documents, |documents|))
      ensures old(promise) != NotBegun ==> Value() == old(Value())
    {
      if promise != NotBegun {
        return;
      }
      stopping := true;
      ghost var start := Value();
      for i := 0 to |documents|
        invariant Value() == start.AddAll(Flatten(documents, i), |Flatten(documents, i)|)
      {
        AddEach(documents[i], start, Flatten(documents, i));
      }
      AddAllKeepsRest(start, Flatten(documents, |documents|), |Flatten(documents, |documents|)|);
      promise := Unresolved;
      ScheduleEmptyCheck();
    }

    method AddEach(document: seq<Connection>, ghost start: Drain, ghost before: seq<Connection>)
      requires Value() == start.AddAll(before, |before|)
      modifies this`connections
      ensures Value() == start.AddAll(before + document, |before + document|)
    {
      assert before + document[..0] == before;
      for j := 0 to |document|
        invariant Value() == start.AddAll(before + document[..j], |before + document[..j]|)
      {
        assert before + document[..j + 1] == before + document[..j] + [document[j]];
        AddOne(document[j], start, before + document[..j]);
      }
      assert document[..|document|] == document;
    }

    method AddOne(c: Connection, ghost start: Drain, ghost before: seq<Connection>)
      requires Value() == start.AddAll(before, |before|)
      modifies this`connections
      ensures Value() == start.AddAll(before + [c], |before + [c]|)
    {
      AddAllSnoc(start, before, [c], |before|);
      Add(c);
    }

    /** The scheduled callback. */
    method RunEmptyCheck()
      modifies this
      ensures Value() == old(Value()).RunCheck()
      ensures !emptyCheck && Value() == old(Value()).(check := false, promise := promise)
      ensures promise != old(promise) <==> old(promise) == Unresolved && connections == map[] && pendingAdmissions == {}
      ensures promise != old(promise) ==> promise == Resolved
    {
      emptyCheck := false;
      if |pendingAdmissions| == 0 && |connections| == 0 && promise == Unresolved {
        promise := Resolved;
      }
    }
  }

  /** Nothing else that happens at the drain makes an admission of `mine` pending again. */
  lemma OthersLeaveScopeAlone(s: State, e: Event, mine: set<Admission>)
    requires Can(s, e) && forall a | a in mine :: a.token < s.drain.tokens
    ensures mine * Step(s, e).drain.pending <= mine * s.drain.pending
    ensures forall a | a in mine :: a.token < Step(s, e).drain.tokens
  {
    if e.Begin? {
      AddAllKeepsRest(s.drain.(stopping := true), e.found, |e.found|);
    }
  }

  /** The admissions begun by one socket. `mine` is all it ever began. */
  class ShutdownSocketAdmissionScope {
    const drain: ShutdownConnectionDrain
    var admissions: set<Admission>
    var closed: bool
    ghost var mine: set<Admission>

    /** It knows every one of its admissions that is pending, and none when closed. */
    ghost predicate Valid()
      reads this, drain
    {
      && admissions <= mine
      && (forall a | a in mine && a in drain.pendingAdmissions :: a in admissions)
      && (closed ==> admissions == {})
      && forall a | a in mine :: a.token < drain.nextToken
    }

    constructor (drain: ShutdownConnectionDrain)
      ensures Valid() && this.drain == drain && !closed && mine == {}
    {
      this.drain := drain;
      admissions, closed, mine := {}, false, {};
    }

    method BeginAdmission(document: string, socketId: string) returns (admission: Option<Admission>)
      requires Valid()
      modifies this, drain
      ensures Valid() && closed == old(closed)
      ensures closed ==> admission == None && drain.Value() == old(drain.Value())
      ensures !closed ==> admission == old(drain.Value()).NextAdmission(document, socketId)
                          && drain.Value() == old(drain.Value()).BeginAdmission(document, socketId)
      ensures mine == old(mine) + if admission.Some? then {admission.value} else {}
    {
      if closed {
        return None;
      }
      admission := drain.BeginAdmission(document, socketId);
      if admission.Some? {
        admissions, mine := admissions + {admission.value}, mine + {admission.value};
      }
    }

    method ReleaseAdmission(admission: Option<Admission>)
      requires Valid()
      modifies this`admissions, drain
      ensures Valid()
      ensures drain.Value() == old(drain.Value()).Release(admission)
    {
      if admission.None? {
        return;
      }
      admissions := admissions - {admission.value};
      drain.ReleaseAdmission(admission);
    }

    method Connect(c: Connection, admission: Option<Admission>) returns (rejected: bool)
      requires Valid()
      modifies this`admissions, drain
      ensures Valid()
      ensures drain.Value() == old(drain.Value()).Connected(c, admission)
      ensures rejected <==> old(drain.Value()).Refuses(c, admission) || old(drain.stopping)
    {
      if admission.Some? {
        admissions := admissions - {admission.value};
      }
      rejected := drain.Connect(c, admission);
    }

    /** When the socket closes none of its admissions is left pending, and nothing else changes. */
    method Close()
      requires Valid()
      modifies this, drain
      ensures Valid() && closed && mine == old(mine)
      ensures mine !! drain.pendingAdmissions
      ensures drain.pendingAdmissions == old(drain.pendingAdmissions) - old(admissions)
      ensures drain.Value() == old(drain.Value()).(pending := drain.pendingAdmissions, check := drain.emptyCheck)
      ensures old(Awake(drain.Value())) ==> Awake(drain.Value())
    {
      if closed {
        return;
      }
      closed := true;
      var rest := admissions;
      while rest != {}
        invariant rest <= admissions == old(admissions) && closed && mine == old(mine)
        invariant drain.pendingAdmissions == old(drain.pendingAdmissions) - (admissions - rest)
        invariant drain.Value() == old(drain.Value()).(pending := drain.pendingAdmissions, check := drain.emptyCheck)
        invariant old(Awake(drain.Value())) ==> Awake(drain.Value())
        decreases rest
      {
        var admission :| admission in rest;
        drain.ReleaseAdmission(Some(admission));
        rest := rest - {admission};
      }
      admissions := {};
    }
  }
}
