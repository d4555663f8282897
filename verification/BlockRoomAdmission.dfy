/**
 Admission to a block room: pending, issued, accepted.

 A new connection is pending, is issued a challenge with the state of the document, and is accepted when it
 acknowledges that state; a later connection may resume with an acknowledged challenge as its token. With the
 token registry under it, `RunKeepsSound` and `HonouredWasAcknowledged` prove for every run that no connection is
 honoured without an acknowledgement that dominates the issued state, and `RetiredIsNeverHonoured` that nothing
 from before a retirement is honoured after it.
 */
module BlockRoomAdmission {
  import opened Wrappers
  import opened RoomEpoch

  // ---------------------------------------------------------------------------------------------
  // State vectors
  // ---------------------------------------------------------------------------------------------

  function ClockOf(vector: StateVector, client: nat): nat {
    if client in vector then vector[client] else 0
  }

  /** `actual` has seen all that `expected` has, of every client. */
  predicate Includes(actual: StateVector, expected: StateVector) {
    forall client | client in expected :: ClockOf(actual, client) >= expected[client]
  }

  /** Including is domination: every client there is has been seen as far. So a state includes itself, and what it includes. */
  lemma IncludesDominates(actual: StateVector, expected: StateVector)
    ensures Includes(actual, expected) <==> forall client :: ClockOf(actual, client) >= ClockOf(expected, client)
  {
    if Includes(actual, expected) {
      forall client
        ensures ClockOf(actual, client) >= ClockOf(expected, client)
      {
      }
    } else {
      var client :| client in expected && ClockOf(actual, client) < expected[client];
      assert ClockOf(actual, client) < ClockOf(expected, client);
    }
  }

  method StateVectorIncludes(actual: StateVector, expected: StateVector) returns (included: bool)
    ensures included <==> Includes(actual, expected)
  {
    var pending := expected.Keys;
    while pending != {}
      invariant pending <= expected.Keys
      invariant forall client | client in expected && client !in pending :: ClockOf(actual, client) >= expected[client]
      decreases pending
    {
      var client :| client in pending;
      if ClockOf(actual, client) < expected[client] {
        return false;
      }
      pending := pending - {client};
    }
    return true;
  }

  // ---------------------------------------------------------------------------------------------
  // One connection
  // ---------------------------------------------------------------------------------------------

  datatype AdmissionState = Pending | Issued | Accepted

  datatype Context = Context(state: AdmissionState, roomEpoch: string, vector: StateVector, requiresFence: bool,
                             challenge: Option<string>)

  /** Without a token the connection is pending; with one that was acknowledged it is accepted at once. */
  function Authenticated(limits: Limits, room: Room, token: string, now: real, newEpoch: string): (Room, Option<Context>) {
    if token == "" then
      var issued := room.Issue(limits, now, newEpoch);
      (issued, Some(Context(Pending, issued.epoch.value, map[], true, None)))
    else
      match room.Validated(limits, token, now)
      case Some(resumed) =>
        (room.Validate(limits, token, now),
         if resumed.requiresFence then None
         else Some(Context(Accepted, resumed.roomEpoch, resumed.stateVector, false, Some(token))))
      case None => (room.Validate(limits, token, now), None)
  }

  /** A pending connection is issued a challenge that carries the state of the document. */
  function Connected(limits: Limits, room: Room, context: Context, fenced: bool, vector: StateVector, now: real, addedAt: real,
                     at: real, newEpoch: string, token: string): (Room, Context)
  {
    if !context.state.Pending? || fenced then (room, context)
    else
      var issued := room.IssueToken(limits, now, addedAt, newEpoch, token, vector);
      (issued.Validate(limits, token, at),
       match issued.Validated(limits, token, at)
       case Some(admission) =>
         Context(Issued, admission.roomEpoch, admission.stateVector, admission.requiresFence, Some(token))
       case None => context)
  }

  /** Whether an acknowledgement passes all that is checked before its token is marked. */
  predicate Dominates(context: Context, challenge: string, vector: Option<StateVector>, admission: Option<Admission>) {
    && context.state.Issued? && context.challenge == Some(challenge)
    && admission.Some? && vector.Some? && Includes(vector.value, admission.value.stateVector)
  }

  /** `vector` is none when it could not be decoded. */
  function Acknowledged(limits: Limits, room: Room, context: Context, challenge: string, vector: Option<StateVector>, at: real,
                        markedAt: real): (Room, Context)
  {
    var validated := room.Validate(limits, challenge, at);
    if !Dominates(context, challenge, vector, room.Validated(limits, challenge, at)) then (validated, context)
    else
      (validated.MarkSynchronized(limits, challenge, markedAt),
       if validated.Prune(limits, markedAt).Knows(challenge)
       then context.(state := Accepted, requiresFence := false) else context)
  }

  /** What the admission of a frame asks. */
  predicate Honoured(room: Room, context: Context, fenced: bool) {
    context.state.Accepted? && !fenced && context.roomEpoch != "" && room.epoch == Some(context.roomEpoch)
  }

  // ---------------------------------------------------------------------------------------------
  // Runs of one room
  // ---------------------------------------------------------------------------------------------

  datatype Challenge = Challenge(connection: nat, epoch: string, vector: StateVector)

  datatype Ack = Ack(connection: nat, vector: StateVector)

  /**
   `issued` is every challenge ever issued, `acked` every acknowledgement that was accepted, and `epochs` every id
   that was made for an epoch.
   */
  datatype State = State(room: Room, contexts: map<nat, Context>, fenced: bool, epochs: set<string>,
                         issued: map<string, Challenge>, acked: map<string, Ack>)

  datatype Event =
    | Authenticate(connection: nat, token: string, now: real, newEpoch: string)
    | Connect(connection: nat, vector: StateVector, now: real, addedAt: real, at: real, newEpoch: string, token: string)
    | Acknowledge(connection: nat, challenge: string, answer: Option<StateVector>, at: real, markedAt: real)
    | Fence(fenced: bool)
    | RetireRoom
    | UsedElsewhere(nextOrder: nat)

  /** Ids are fresh. */
  predicate Can(s: State, e: Event) {
    match e
    case Authenticate(connection, _, _, newEpoch) => connection !in s.contexts && newEpoch !in s.epochs && newEpoch != ""
    case Connect(connection, _, _, _, _, newEpoch, token) =>
      connection in s.contexts && newEpoch !in s.epochs && newEpoch != "" && token !in s.issued
    case Acknowledge(connection, _, _, _, _) => connection in s.contexts
    case _ => true
  }

  function Step(limits: Limits, s: State, e: Event): State
    requires Can(s, e)
  {
    match e
    case Authenticate(connection, token, now, newEpoch) =>
      if s.fenced then s
      else
        var (room, context) := Authenticated(limits, s.room, token, now, newEpoch);
        s.(room := room, epochs := s.epochs + {newEpoch},
           contexts := if context.Some? then s.contexts[connection := context.value] else s.contexts)
    case Connect(connection, vector, now, addedAt, at, newEpoch, token) =>
      var before := s.contexts[connection];
      if !before.state.Pending? || s.fenced then s
      else
        var (room, context) := Connected(limits, s.room, before, s.fenced, vector, now, addedAt, at, newEpoch, token);
        s.(room := room, epochs := s.epochs + {newEpoch}, contexts := s.contexts[connection := context],
           issued := s.issued[token := Challenge(connection, s.room.Issue(limits, now, newEpoch).epoch.value, vector)])
    case Acknowledge(connection, challenge, answer, at, markedAt) =>
      var before := s.contexts[connection];
      var (room, context) := Acknowledged(limits, s.room, before, challenge, answer, at, markedAt);
      s.(room := room, contexts := s.contexts[connection := context],
         acked := if context.state.Accepted? && !before.state.Accepted?
                  then s.acked[challenge := Ack(connection, answer.value)] else s.acked)
    case Fence(fenced) => s.(fenced := fenced)
    case RetireRoom => s.(room := s.room.Retire())
    case UsedElsewhere(nextOrder) => s.(room := s.room.(nextOrder := s.room.nextOrder + nextOrder))
  }

  const START := State(Room(None, map[], 0), map[], false, {}, map[], map[])

  function Run(limits: Limits, s: State, events: seq<Event>): Option<State>
    decreases |events|
  {
    if events == [] then Some(s) else if !Can(s, events[0]) then None else Run(limits, Step(limits, s, events[0]), events[1..])
  }

  /** A run goes on with exactly the events that can happen next. */
  lemma {:induction false} RunGoesOn(limits: Limits, s: State, events: seq<Event>, e: Event)
    ensures Run(limits, s, []) == Some(s)
    ensures Run(limits, s, events + [e])
            == var before := Run(limits, s, events);
               if before.Some? && Can(before.value, e) then Some(Step(limits, before.value, e)) else None
    decreases |events|
  {
    hide Step, Can;
    if events == [] {
      assert [e][1..] == [];
    } else {
      assert (events + [e])[1..] == events[1..] + [e];
      if Can(s, events[0]) {
        RunGoesOn(limits, Step(limits, s, events[0]), events[1..], e);
      }
    }
  }

  // ---------------------------------------------------------------------------------------------
  // What every run keeps
  // ---------------------------------------------------------------------------------------------

  ghost predicate EpochsKnown(s: State) {
    && (s.room.epoch.Some? ==> s.room.epoch.value in s.epochs && s.room.epoch.value != "")
    && (forall t | t in s.issued :: s.issued[t].epoch in s.epochs)
  }

  ghost predicate TokenKnown(s: State, t: string, token: Token) {
    && t in s.issued && s.issued[t].epoch == token.roomEpoch && s.issued[t].vector == token.stateVector
    && (token.synchronized ==> t in s.acked)
  }

  ghost predicate TokensKnown(s: State) {
    forall t | t in s.room.tokens :: TokenKnown(s, t, s.room.tokens[t])
  }

  /** Each acknowledgement came from the connection the challenge was issued to, and dominates what was issued. */
  ghost predicate AcksDominate(s: State) {
    forall t | t in s.acked ::
      t in s.issued && s.acked[t].connection == s.issued[t].connection && Includes(s.acked[t].vector, s.issued[t].vector)
  }

  ghost predicate ContextKnown(s: State, connection: nat, context: Context) {
    match context.state
    case Pending => true
    case Issued =>
      && context.challenge.Some? && context.challenge.value in s.issued
      && s.issued[context.challenge.value].connection == connection
      && s.issued[context.challenge.value].epoch == context.roomEpoch
    case Accepted =>
      && context.challenge.Some? && context.challenge.value in s.acked && context.challenge.value in s.issued
      && s.issued[context.challenge.value].epoch == context.roomEpoch
  }

  ghost predicate ContextsKnown(s: State) {
    forall c | c in s.contexts :: ContextKnown(s, c, s.contexts[c])
  }

  ghost predicate Sound(s: State) {
    EpochsKnown(s) && TokensKnown(s) && AcksDominate(s) && ContextsKnown(s)
  }

  /** Pruning forgets tokens and changes none. */
  lemma PruneForgets(limits: Limits, room: Room, now: real)
    ensures var pruned := room.Prune(limits, now);
            && pruned.epoch == room.epoch
            && forall t | t in pruned.tokens :: t in room.tokens && pruned.tokens[t] == room.tokens[t]
  {
  }

  /** What validation does to the tokens: none is new, and none changes but in its use. */
  lemma ValidateForgets(limits: Limits, room: Room, token: string, now: real)
    ensures var after := room.Validate(limits, token, now);
            && after.epoch == room.epoch
            && forall t | t in after.tokens :: t in room.tokens && after.tokens[t].roomEpoch == room.tokens[t].roomEpoch
                 && after.tokens[t].stateVector == room.tokens[t].stateVector
                 && after.tokens[t].synchronized == room.tokens[t].synchronized
    ensures var admission := room.Validated(limits, token, now);
            admission.Some? ==>
              && token in room.tokens && room.epoch == Some(admission.value.roomEpoch)
              && admission.value == Admission(room.tokens[token].roomEpoch, room.tokens[token].stateVector,
                                              !room.tokens[token].synchronized)
  {
    PruneForgets(limits, room, now);
    hide Pruned;
  }

  lemma MarkForgets(limits: Limits, room: Room, token: string, now: real)
    ensures var after := room.MarkSynchronized(limits, token, now);
            && after.epoch == room.epoch
            && forall t | t in after.tokens :: t in room.tokens && after.tokens[t].roomEpoch == room.tokens[t].roomEpoch
                 && after.tokens[t].stateVector == room.tokens[t].stateVector
                 && (after.tokens[t].synchronized ==> t == token || room.tokens[t].synchronized)
                 && (t == token && after.tokens[t].synchronized && !room.tokens[t].synchronized ==>
                       room.Prune(limits, now).Knows(token))
  {
    PruneForgets(limits, room, now);
    hide Pruned;
  }

  lemma IssueTokenAdds(limits: Limits, room: Room, now: real, addedAt: real, newEpoch: string, token: string, vector: StateVector)
    ensures var after := room.IssueToken(limits, now, addedAt, newEpoch, token, vector);
            && after.epoch == room.Issue(limits, now, newEpoch).epoch
            && after.epoch == (if room.Active() then room.epoch else Some(newEpoch))
            && forall t | t in after.tokens ::
                 if t == token then after.tokens[t].roomEpoch == after.epoch.value && after.tokens[t].stateVector == vector
                                    && !after.tokens[t].synchronized
                 else t in room.tokens && after.tokens[t] == room.tokens[t]
  {
    PruneForgets(limits, room, now);
    var issued := room.Issue(limits, now, newEpoch);
    var used := issued.Use(token, Token(issued.epoch.value, vector, false, addedAt, room.nextOrder));
    PruneForgets(limits, used, addedAt);
    hide Pruned;
  }

  /** Contexts and tokens stay known when more is issued and acknowledged. */
  lemma KnownGrows(s: State, after: State)
    requires Sound(s) && after.contexts == s.contexts && s.epochs <= after.epochs
    requires forall t | t in s.issued :: t in after.issued && after.issued[t] == s.issued[t]
    requires after.acked == s.acked
    ensures ContextsKnown(after) && AcksDominate(after)
  {
    forall c | c in after.contexts
      ensures ContextKnown(after, c, after.contexts[c])
    {
      assert ContextKnown(s, c, s.contexts[c]);
    }
  }

  lemma AuthenticateSound(limits: Limits, s: State, e: Event)
    requires Sound(s) && Can(s, e) && e.Authenticate? && !s.fenced
    ensures Sound(Step(limits, s, e))
  {
    var after := Step(limits, s, e);
    PruneForgets(limits, s.room, e.now);
    ValidateForgets(limits, s.room, e.token, e.now);
    forall t | t in after.room.tokens
      ensures TokenKnown(after, t, after.room.tokens[t])
    {
      assert TokenKnown(s, t, s.room.tokens[t]);
    }
    forall c | c in after.contexts
      ensures ContextKnown(after, c, after.contexts[c])
    {
      if c in s.contexts {
        assert ContextKnown(s, c, s.contexts[c]);
      } else if e.token != "" {
        assert TokenKnown(s, e.token, s.room.tokens[e.token]);
      }
    }
  }

  /** A pending connection gets the new challenge, in the epoch that is then active, and no other token is added. */
  lemma ConnectedFacts(limits: Limits, room: Room, context: Context, vector: StateVector, now: real, addedAt: real, at: real,
                       newEpoch: string, token: string)
    requires context.state.Pending?
    ensures var (after, issued) := Connected(limits, room, context, false, vector, now, addedAt, at, newEpoch, token);
            && after.epoch == room.Issue(limits, now, newEpoch).epoch
            && after.epoch == (if room.Active() then room.epoch else Some(newEpoch))
            && (forall t | t in after.tokens ::
                  if t == token then after.tokens[t].roomEpoch == after.epoch.value && after.tokens[t].stateVector == vector
                                     && !after.tokens[t].synchronized
                  else t in room.tokens && after.tokens[t].roomEpoch == room.tokens[t].roomEpoch
                       && after.tokens[t].stateVector == room.tokens[t].stateVector
                       && after.tokens[t].synchronized == room.tokens[t].synchronized)
            && (issued == context
                || (issued.state.Issued? && issued.challenge == Some(token) && Some(issued.roomEpoch) == after.epoch))
  {
    IssueTokenAdds(limits, room, now, addedAt, newEpoch, token, vector);
    ValidateForgets(limits, room.IssueToken(limits, now, addedAt, newEpoch, token, vector), token, at);
    hide Pruned, Room.IssueToken, Room.Validate, Room.Validated, Room.Issue;
  }

  lemma ConnectSound(limits: Limits, s: State, e: Event)
    requires Sound(s) && Can(s, e) && e.Connect? && s.contexts[e.connection].state.Pending? && !s.fenced
    ensures Sound(Step(limits, s, e))
  {
    hide Connected, Room.Issue, Includes;
    var after := Step(limits, s, e);
    ConnectedFacts(limits, s.room, s.contexts[e.connection], e.vector, e.now, e.addedAt, e.at, e.newEpoch, e.token);
    forall t | t in after.room.tokens
      ensures TokenKnown(after, t, after.room.tokens[t])
    {
      if t != e.token {
        assert TokenKnown(s, t, s.room.tokens[t]);
      }
    }
    KnownGrows(s, after.(contexts := s.contexts));
    forall c | c in after.contexts
      ensures ContextKnown(after, c, after.contexts[c])
    {
      assert ContextKnown(after.(contexts := s.contexts), c, s.contexts[c]);
    }
  }

  /** A token is marked only together with the acceptance of the connection it was issued to. */
  lemma AcknowledgedFacts(limits: Limits, room: Room, context: Context, challenge: string, answer: Option<StateVector>,
                          at: real, markedAt: real)
    ensures var (after, accepted) := Acknowledged(limits, room, context, challenge, answer, at, markedAt);
            && after.epoch == room.epoch
            && (forall t | t in after.tokens ::
                  && t in room.tokens && after.tokens[t].roomEpoch == room.tokens[t].roomEpoch
                  && after.tokens[t].stateVector == room.tokens[t].stateVector
                  && (after.tokens[t].synchronized ==> room.tokens[t].synchronized || (t == challenge && accepted != context)))
            && (accepted != context ==>
                  && context.state.Issued? && context.challenge == Some(challenge)
                  && accepted == context.(state := Accepted, requiresFence := false)
                  && challenge in room.tokens && answer.Some? && Includes(answer.value, room.tokens[challenge].stateVector))
  {
    ValidateForgets(limits, room, challenge, at);
    MarkForgets(limits, room.Validate(limits, challenge, at), challenge, markedAt);
    hide Pruned, Includes, Room.Validate, Room.Validated, Room.MarkSynchronized;
  }

  lemma AcknowledgeSound(limits: Limits, s: State, e: Event)
    requires Sound(s) && Can(s, e) && e.Acknowledge?
    ensures Sound(Step(limits, s, e))
  {
    hide Acknowledged, Includes;
    var after := Step(limits, s, e);
    AcknowledgedFacts(limits, s.room, s.contexts[e.connection], e.challenge, e.answer, e.at, e.markedAt);
    assert ContextKnown(s, e.connection, s.contexts[e.connection]);
    if e.challenge in s.room.tokens {
      assert TokenKnown(s, e.challenge, s.room.tokens[e.challenge]);
    }
    forall t | t in after.room.tokens
      ensures TokenKnown(after, t, after.room.tokens[t])
    {
      assert TokenKnown(s, t, s.room.tokens[t]);
    }
    forall c | c in after.contexts
      ensures ContextKnown(after, c, after.contexts[c])
    {
      assert ContextKnown(s, c, s.contexts[c]);
    }
  }

  lemma FewerTokensSound(s: State, after: State)
    requires Sound(s) && after == s.(room := after.room, fenced := after.fenced)
    requires after.room.epoch == s.room.epoch || after.room.epoch == None
    requires forall t | t in after.room.tokens :: t in s.room.tokens && after.room.tokens[t] == s.room.tokens[t]
    ensures Sound(after)
  {
    KnownGrows(s, after);
    forall t | t in after.room.tokens
      ensures TokenKnown(after, t, after.room.tokens[t])
    {
      assert TokenKnown(s, t, s.room.tokens[t]);
    }
  }

  lemma StepSound(limits: Limits, s: State, e: Event)
    requires Sound(s) && Can(s, e)
    ensures Sound(Step(limits, s, e))
  {
    var after := Step(limits, s, e);
    if after != s {
      match e {
        case Authenticate(_, _, _, _) => AuthenticateSound(limits, s, e);
        case Connect(_, _, _, _, _, _, _) => ConnectSound(limits, s, e);
        case Acknowledge(_, _, _, _, _) => AcknowledgeSound(limits, s, e);
        case _ => FewerTokensSound(s, after);
      }
    }
  }

  /**
   In every run, a token is synchronized only after an acknowledgement of it was accepted; every accepted
   acknowledgement came from the connection its challenge was issued to, and dominates the issued state vector; and
   every accepted connection has such a challenge, of its own epoch.
   */
  lemma {:induction false} RunKeepsSound(limits: Limits, s: State, events: seq<Event>)
    requires Sound(s) && Run(limits, s, events).Some?
    ensures Sound(Run(limits, s, events).value)
    decreases |events|
  {
    if events != [] {
      StepSound(limits, s, events[0]);
      hide Step, Sound;
      RunKeepsSound(limits, Step(limits, s, events[0]), events[1..]);
    }
  }

  /**
   From the start on, a connection is honoured in the active epoch only after an acknowledgement in that epoch that
   dominates what was issued, from the connection itself or from the one whose token it resumed.
   */
  lemma {:induction false} HonouredWasAcknowledged(limits: Limits, events: seq<Event>, connection: nat)
    requires Run(limits, START, events).Some?
    requires var s := Run(limits, START, events).value;
             connection in s.contexts && Honoured(s.room, s.contexts[connection], s.fenced)
    ensures var s := Run(limits, START, events).value;
            var context := s.contexts[connection];
            && context.challenge.Some?
            && var t := context.challenge.value;
               && t in s.issued && t in s.acked
               && s.room.epoch == Some(s.issued[t].epoch)
               && Includes(s.acked[t].vector, s.issued[t].vector)
               && s.acked[t].connection == s.issued[t].connection
  {
    assert Sound(START);
    RunKeepsSound(limits, START, events);
    var s := Run(limits, START, events).value;
    assert ContextKnown(s, connection, s.contexts[connection]);
  }

  // ---------------------------------------------------------------------------------------------
  // Retirement
  // ---------------------------------------------------------------------------------------------

  /** How a state after a retirement of `old` differs: another epoch, other tokens, and no admitted context touched. */
  ghost predicate Since(earlier: State, s: State) {
    && earlier.epochs <= s.epochs
    && (s.room.epoch.Some? ==> s.room.epoch.value !in earlier.epochs)
    && (forall t | t in earlier.issued :: t in s.issued && t !in s.room.tokens)
    && (forall c | c in earlier.contexts :: c in s.contexts)
    && (forall c | c in earlier.contexts && !earlier.contexts[c].state.Pending? :: s.contexts[c] == earlier.contexts[c])
  }

  lemma StepSince(limits: Limits, before: State, s: State, e: Event)
    requires Sound(before) && Since(before, s) && Can(s, e)
    ensures Since(before, Step(limits, s, e))
  {
    hide Connected, Acknowledged, Includes;
    match e {
      case Authenticate(_, token, now, _) =>
        PruneForgets(limits, s.room, now);
        ValidateForgets(limits, s.room, token, now);
      case Connect(connection, vector, now, addedAt, at, newEpoch, token) =>
        if s.contexts[connection].state.Pending? && !s.fenced {
          ConnectedFacts(limits, s.room, s.contexts[connection], vector, now, addedAt, at, newEpoch, token);
        }
      case Acknowledge(connection, challenge, answer, at, markedAt) =>
        AcknowledgedFacts(limits, s.room, s.contexts[connection], challenge, answer, at, markedAt);
        assert connection in before.contexts ==> ContextKnown(before, connection, before.contexts[connection]);
      case _ =>
    }
  }

  lemma {:induction false} RunSince(limits: Limits, before: State, s: State, events: seq<Event>)
    requires Sound(before) && Since(before, s) && Run(limits, s, events).Some?
    ensures Since(before, Run(limits, s, events).value)
    decreases |events|
  {
    if events != [] {
      StepSince(limits, before, s, events[0]);
      hide Step, Since, Sound;
      RunSince(limits, before, Step(limits, s, events[0]), events[1..]);
    }
  }

  /**
   After a retirement, whatever follows, no connection that was accepted before it is honoured again, and no
   challenge that was issued before it validates, so none can be acknowledged or resumed.
   */
  lemma {:induction false} RetiredIsNeverHonoured(limits: Limits, s: State, events: seq<Event>)
    requires Sound(s) && Run(limits, Step(limits, s, RetireRoom), events).Some?
    ensures var after := Run(limits, Step(limits, s, RetireRoom), events).value;
            && (forall c | c in s.contexts && !s.contexts[c].state.Pending? ::
                  c in after.contexts && !Honoured(after.room, after.contexts[c], after.fenced))
            && (forall t, now | t in s.issued :: after.room.Validated(limits, t, now) == None)
  {
    var retired := Step(limits, s, RetireRoom);
    RunSince(limits, s, retired, events);
    var after := Run(limits, retired, events).value;
    forall c | c in s.contexts && !s.contexts[c].state.Pending?
      ensures c in after.contexts && !Honoured(after.room, after.contexts[c], after.fenced)
    {
      assert ContextKnown(s, c, s.contexts[c]);
    }
    forall t, now: real | t in s.issued
      ensures after.room.Validated(limits, t, now) == None
    {
      PruneForgets(limits, after.room, now);
    }
  }

  // ---------------------------------------------------------------------------------------------
  // Who gets in, told from the history of the tokens
  // ---------------------------------------------------------------------------------------------

  /** The clock does not run backwards. */
  predicate InTime(e: Event, clock: real) {
    match e
    case Authenticate(_, _, now, _) => clock <= now
    case Connect(_, _, now, addedAt, at, _, _) => clock <= now <= addedAt <= at
    case Acknowledge(_, _, _, at, markedAt) => clock <= at <= markedAt
    case _ => true
  }

  function TimeAfter(e: Event, clock: real): real {
    match e
    case Authenticate(_, _, now, _) => now
    case Connect(_, _, _, _, at, _, _) => at
    case Acknowledge(_, _, _, _, markedAt) => markedAt
    case _ => clock
  }

  /** The answer reaches all that the challenge of this connection was issued with. */
  predicate Answers(log: RoomLog, context: Context, challenge: string, answer: Option<StateVector>) {
    && context.state.Issued? && context.challenge == Some(challenge)
    && answer.Some? && challenge in log.vectors && Includes(answer.value, log.vectors[challenge])
  }

  /** What an event adds to the history of the room's tokens, which forgets none. */
  function Logged(limits: Limits, log: RoomLog, s: State, e: Event): RoomLog
    requires Can(s, e)
  {
    match e
    case Authenticate(_, token, now, newEpoch) =>
      if s.fenced then log else if token == "" then log.Issue(newEpoch) else log.Validate(limits, token, now)
    case Connect(connection, vector, _, addedAt, at, newEpoch, token) =>
      if s.contexts[connection].state.Pending? && !s.fenced
      then log.IssueToken(addedAt, newEpoch, token, vector).Validate(limits, token, at) else log
    case Acknowledge(connection, challenge, answer, at, markedAt) =>
      var validated := log.Validate(limits, challenge, at);
      if Answers(log, s.contexts[connection], challenge, answer) && Live(limits, log.uses, challenge, at)
      then validated.MarkSynchronized(limits, challenge, markedAt) else validated
    case RetireRoom => NOTHING
    case _ => log
  }

  /**
   Who gets in with `e`, where `log` is the history of the tokens. Without a token a connection waits; with one it
   is accepted exactly when the token is live and was synchronized. One that waits is issued a challenge with the
   document's state exactly when the challenge does not expire meanwhile. One that was issued a challenge is
   accepted exactly when it answers that challenge while it is live and in time; a refusal changes nothing.
   */
  predicate AdmitsExactly(limits: Limits, log: RoomLog, s: State, e: Event)
    requires Can(s, e)
  {
    var after := Step(limits, s, e);
    match e
    case Authenticate(connection, token, now, newEpoch) =>
      if s.fenced then after == s
      else if token == "" then
        && after.room.epoch == log.Issue(newEpoch).epoch && after.room.epoch.Some?
        && connection in after.contexts
        && after.contexts[connection] == Context(Pending, after.room.epoch.value, map[], true, None)
      else
        && (connection in after.contexts <==>
              Live(limits, log.uses, token, now) && log.epoch.Some? && token in log.vectors && token in log.synced)
        && (connection in after.contexts ==>
              after.contexts[connection] == Context(Accepted, log.epoch.value, log.vectors[token], false, Some(token)))
    case Connect(connection, vector, _, addedAt, at, newEpoch, token) =>
      if !s.contexts[connection].state.Pending? || s.fenced then after == s
      else if at - addedAt < limits.ttl then
        after.contexts[connection] == Context(Issued, log.Issue(newEpoch).epoch.value, vector, true, Some(token))
      else after.contexts[connection] == s.contexts[connection]
    case Acknowledge(connection, challenge, answer, at, markedAt) =>
      var before := s.contexts[connection];
      if && Answers(log, before, challenge, answer) && Live(limits, log.uses, challenge, at)
         && markedAt - at < limits.ttl
      then && after.contexts[connection] == before.(state := Accepted, requiresFence := false)
           && challenge in after.acked && after.acked[challenge] == Ack(connection, answer.value)
      else after.contexts[connection] == before && after.acked == s.acked
    case Fence(fenced) => after == s.(fenced := fenced)
    case RetireRoom => after.contexts == s.contexts && after.room.epoch.None? && after.room.tokens == map[]
    case UsedElsewhere(_) => after.(room := s.room) == s && after.room.tokens == s.room.tokens && after.room.epoch == s.room.epoch
  }

  /** A token just used is live until its time is over. */
  lemma JustUsed(limits: ValidLimits, uses: seq<Use>, token: string, at: real, now: real)
    ensures Live(limits, uses + [Use(token, at)], token, now) <==> now - at < limits.ttl
  {
    LastAfterUse(uses, Use(token, at));
    assert TokensFrom(uses + [Use(token, at)], |uses| + 1) == {};
  }

  lemma AuthenticateAdmits(limits: ValidLimits, log: RoomLog, clock: real, s: State, e: Event)
    requires Agrees(limits, s.room, log, clock) && Can(s, e) && e.Authenticate? && InTime(e, clock)
    ensures AdmitsExactly(limits, log, s, e)
    ensures Agrees(limits, Step(limits, s, e).room, Logged(limits, log, s, e), e.now)
  {
    hide Agrees, Live, Pruned;
    WaitHere(limits, s.room, log, clock, e.now);
    AgreedEpoch(limits, s.room, log, clock);
    var op := if e.token == "" then RoomEpoch.Issue("", e.now, e.newEpoch) else RoomEpoch.Validate("", e.token, e.now);
    RoomEpoch.StepAgrees(limits, s.room, log, clock, op);
  }

  lemma WaitHere(limits: Limits, r: Room, log: RoomLog, clock: real, now: real)
    requires Agrees(limits, r, log, clock) && clock <= now
    ensures Agrees(limits, r, log, now)
  {
    Wait(limits, r, log, clock, now, r.nextOrder);
    assert r.(nextOrder := r.nextOrder) == r;
    hide *;
  }

  lemma AgreedEpoch(limits: Limits, r: Room, log: RoomLog, clock: real)
    requires Agrees(limits, r, log, clock)
    ensures r.epoch == log.epoch && (r.epoch.Some? ==> r.Active())
  {
  }

  lemma ConnectAdmits(limits: ValidLimits, log: RoomLog, clock: real, s: State, e: Event)
    requires Agrees(limits, s.room, log, clock) && Can(s, e) && e.Connect? && InTime(e, clock)
    ensures AdmitsExactly(limits, log, s, e)
    ensures Agrees(limits, Step(limits, s, e).room, Logged(limits, log, s, e), e.at)
  {
    hide Agrees, Live, Pruned, Room.IssueToken;
    WaitHere(limits, s.room, log, clock, e.at);
    IssueTokenAgrees(limits, s.room, log, clock, e.now, e.addedAt, e.newEpoch, e.token, e.vector);
    var issued := s.room.IssueToken(limits, e.now, e.addedAt, e.newEpoch, e.token, e.vector);
    var issuedLog := log.IssueToken(e.addedAt, e.newEpoch, e.token, e.vector);
    ValidateAgrees(limits, issued, issuedLog, e.addedAt, e.token, e.at);
    JustUsed(limits, log.uses, e.token, e.addedAt, e.at);
    hide Room.Validate, Room.Validated;
  }

  lemma AcknowledgeAdmits(limits: ValidLimits, log: RoomLog, clock: real, s: State, e: Event)
    requires Agrees(limits, s.room, log, clock) && Can(s, e) && e.Acknowledge? && InTime(e, clock)
    ensures AdmitsExactly(limits, log, s, e)
    ensures Agrees(limits, Step(limits, s, e).room, Logged(limits, log, s, e), e.markedAt)
  {
    hide Agrees, Live, Pruned, Includes;
    ValidateAgrees(limits, s.room, log, clock, e.challenge, e.at);
    var validated, validatedLog := s.room.Validate(limits, e.challenge, e.at), log.Validate(limits, e.challenge, e.at);
    WaitHere(limits, validated, validatedLog, e.at, e.markedAt);
    MarkAgrees(limits, validated, validatedLog, e.at, e.challenge, e.markedAt);
    JustUsed(limits, log.uses, e.challenge, e.at, e.markedAt);
    if Live(limits, log.uses, e.challenge, e.at) {
      LiveHasEpoch(limits, s.room, log, clock, e.challenge, e.at);
    }
    hide Room.Validate, Room.Validated, Room.MarkSynchronized, Room.Knows, Room.Prune;
  }

  /** What is live belongs to an epoch. */
  lemma LiveHasEpoch(limits: ValidLimits, r: Room, log: RoomLog, clock: real, token: string, now: real)
    requires Agrees(limits, r, log, clock) && clock <= now && Live(limits, log.uses, token, now)
    ensures log.epoch.Some? && token in log.vectors
  {
    RoomEpoch.PruneAgrees(limits, r, log, clock, now);
    KnownAdmission(limits, r.Prune(limits, now), log, now, token);
  }

  lemma StepAdmits(limits: ValidLimits, log: RoomLog, clock: real, s: State, e: Event)
    requires Agrees(limits, s.room, log, clock) && Can(s, e) && InTime(e, clock)
    ensures AdmitsExactly(limits, log, s, e)
    ensures Agrees(limits, Step(limits, s, e).room, Logged(limits, log, s, e), TimeAfter(e, clock))
  {
    match e {
      case Authenticate(_, _, _, _) => AuthenticateAdmits(limits, log, clock, s, e);
      case Connect(_, _, _, _, _, _, _) => ConnectAdmits(limits, log, clock, s, e);
      case Acknowledge(_, _, _, _, _) => AcknowledgeAdmits(limits, log, clock, s, e);
      case Fence(_) =>
      case RetireRoom => RoomEpoch.StepAgrees(limits, s.room, log, clock, RoomEpoch.Retire(""));
      case UsedElsewhere(nextOrder) => Wait(limits, s.room, log, clock, clock, s.room.nextOrder + nextOrder);
    }
  }

  predicate InTimeRun(events: seq<Event>, clock: real)
    decreases |events|
  {
    events == [] || (InTime(events[0], clock) && InTimeRun(events[1..], TimeAfter(events[0], clock)))
  }

  predicate AdmitsAll(limits: Limits, log: RoomLog, s: State, events: seq<Event>)
    decreases |events|
  {
    events != [] && Can(s, events[0]) ==>
      && AdmitsExactly(limits, log, s, events[0])
      && AdmitsAll(limits, Logged(limits, log, s, events[0]), Step(limits, s, events[0]), events[1..])
  }

  /**
   In every run, who gets in is exactly told by the history of the tokens: whoever answers a live challenge is
   accepted, whoever resumes with a live synchronized token is accepted, and no one else.
   */
  lemma {:induction false} RunAdmitsExactly(limits: ValidLimits, log: RoomLog, clock: real, s: State, events: seq<Event>)
    requires Agrees(limits, s.room, log, clock) && Run(limits, s, events).Some? && InTimeRun(events, clock)
    ensures AdmitsAll(limits, log, s, events)
    decreases |events|
  {
    if events != [] {
      var e := events[0];
      StepAdmits(limits, log, clock, s, e);
      hide Step, Logged, Agrees, AdmitsExactly;
      RunAdmitsExactly(limits, Logged(limits, log, s, e), TimeAfter(e, clock), Step(limits, s, e), events[1..]);
    }
  }

  lemma NothingLoggedAtStart(limits: ValidLimits, clock: real)
    ensures Agrees(limits, START.room, NOTHING, clock)
  {
  }

  // ---------------------------------------------------------------------------------------------
  // In place
  // ---------------------------------------------------------------------------------------------

  /** What a connection carries. */
  class CollabConnectionContext {
    var state: AdmissionState
    var roomEpoch: string
    var vector: StateVector
    var requiresFence: bool
    var challenge: Option<string>

    ghost function Value(): Context
      reads this
    {
      Context(state, roomEpoch, vector, requiresFence, challenge)
    }

    constructor (context: Context)
      ensures Value() == context
    {
      state, roomEpoch, vector := context.state, context.roomEpoch, context.vector;
      requiresFence, challenge := context.requiresFence, context.challenge;
    }
  }

  /** Storing what is stored changes nothing. */
  lemma PutSame(r: Registry, room: string)
    requires room in r.tokens ==> r.tokens[room] != map[]
    ensures r.Put(room, r.At(room)) == r
  {
    assert room in r.epochs ==> r.epochs[room := r.epochs[room]] == r.epochs;
    assert room in r.tokens ==> r.tokens[room := r.tokens[room]] == r.tokens;
  }

  class BlockRoomProtocol {
    const roomEpochs: RoomEpochRegistry

    constructor (roomEpochs: RoomEpochRegistry)
      ensures this.roomEpochs == roomEpochs
    {
      this.roomEpochs := roomEpochs;
    }

    /** None when the token is refused. */
    method Authenticate(room: string, token: string, now: real, newEpoch: string) returns (context: CollabConnectionContext?)
      requires roomEpochs.Valid()
      modifies roomEpochs
      ensures roomEpochs.Valid()
      ensures var (after, admitted) := Authenticated(roomEpochs.limits, old(roomEpochs.State()).At(room), token, now, newEpoch);
              && roomEpochs.State() == old(roomEpochs.State()).Put(room, after)
              && (admitted.Some? <==> context != null)
              && (context != null ==> fresh(context) && context.Value() == admitted.value)
    {
      hide Registry.Put, Room.Issue, Room.Validate, Room.Validated;
      context := null;
      if token == "" {
        var epoch := roomEpochs.IssueEpoch(room, now, newEpoch);
        ghost var before := old(roomEpochs.State());
        PutPut(before, room, before.At(room).Issue(roomEpochs.limits, now, newEpoch), before.At(room));
        context := new CollabConnectionContext(Context(Pending, epoch, map[], true, None));
        return;
      }
      var resumed := roomEpochs.ValidateToken(room, token, now);
      if resumed.Some? && !resumed.value.requiresFence {
        context := new CollabConnectionContext(
          Context(Accepted, resumed.value.roomEpoch, resumed.value.stateVector, false, Some(token)));
      }
    }

    method IssueChallenge(room: string, vector: StateVector, now: real, addedAt: real, at: real, newEpoch: string, token: string)
      returns (admission: Option<Admission>)
      requires roomEpochs.Valid()
      modifies roomEpochs
      ensures roomEpochs.Valid()
      ensures var issued := old(roomEpochs.State()).At(room).IssueToken(roomEpochs.limits, now, addedAt, newEpoch, token, vector);
              && roomEpochs.State() == old(roomEpochs.State()).Put(room, issued.Validate(roomEpochs.limits, token, at))
              && admission == issued.Validated(roomEpochs.limits, token, at)
    {
      ghost var before := roomEpochs.State();
      roomEpochs.IssueRoomToken(room, vector, now, addedAt, newEpoch, token);
      ghost var added := before.At(room).IssueToken(roomEpochs.limits, now, addedAt, newEpoch, token, vector);
      PutPut(before, room, added, added.Validate(roomEpochs.limits, token, at));
      hide *;
      admission := roomEpochs.ValidateToken(room, token, at);
    }

    /** Gives whether the connection is told to reload. */
    method Connect(context: CollabConnectionContext, room: string, fenced: bool, vector: StateVector, now: real, addedAt: real,
                   at: real, newEpoch: string, token: string) returns (reload: bool)
      requires roomEpochs.Valid()
      modifies context, roomEpochs
      ensures roomEpochs.Valid()
      ensures var (after, issued) := Connected(roomEpochs.limits, old(roomEpochs.State()).At(room), old(context.Value()), fenced,
                                               vector, now, addedAt, at, newEpoch, token);
              && context.Value() == issued
              && roomEpochs.State() == old(roomEpochs.State()).Put(room, after)
      ensures reload <==> !old(context.state).Accepted? && !(old(context.state).Pending? && context.state.Issued?)
      ensures !old(context.state).Pending? || fenced ==>
                context.Value() == old(context.Value())
                && roomEpochs.State() == old(roomEpochs.State()).Put(room, old(roomEpochs.State()).At(room))
    {
      hide Registry.Put, Room.IssueToken, Room.Validate, Room.Validated;
      PutSame(roomEpochs.State(), room);
      if context.state.Accepted? {
        return false;
      }
      if !context.state.Pending? || fenced {
        return true;
      }
      var admission := IssueChallenge(room, vector, now, addedAt, at, newEpoch, token);
      if admission.None? {
        return true;
      }
      context.roomEpoch, context.vector := admission.value.roomEpoch, admission.value.stateVector;
      context.requiresFence := admission.value.requiresFence;
      context.state, context.challenge := Issued, Some(token);
      return false;
    }

    /** Gives whether the connection is ready; otherwise it is told to reload. */
    method AcceptBootstrap(context: CollabConnectionContext, room: string, challenge: string, answer: Option<StateVector>,
                           at: real, markedAt: real) returns (ready: bool)
      requires roomEpochs.Valid()
      modifies context, roomEpochs
      ensures roomEpochs.Valid()
      ensures var (after, accepted) := Acknowledged(roomEpochs.limits, old(roomEpochs.State()).At(room), old(context.Value()),
                                                    challenge, answer, at, markedAt);
              && context.Value() == accepted
              && roomEpochs.State() == old(roomEpochs.State()).Put(room, after)
      ensures ready <==> old(context.state).Issued? && context.state.Accepted?
    {
      hide Registry.Put, Room.Prune, Room.Knows, Room.Validate, Room.Validated, Room.MarkSynchronized, Includes;
      ghost var before := roomEpochs.State();
      var admission := roomEpochs.ValidateToken(room, challenge, at);
      ghost var validated := before.At(room).Validate(roomEpochs.limits, challenge, at);
      if answer.None? {
        return false;
      }
      var includes := false;
      if admission.Some? {
        includes := StateVectorIncludes(answer.value, admission.value.stateVector);
      }
      if !context.state.Issued? || Some(challenge) != context.challenge || admission.None? || !includes {
        return false;
      }
      PutPut(before, room, validated, validated.MarkSynchronized(roomEpochs.limits, challenge, markedAt));
      var marked := roomEpochs.MarkTokenSynchronized(room, challenge, markedAt);
      if !marked {
        return false;
      }
      context.requiresFence := false;
      context.state := Accepted;
      return true;
    }

    method CurrentAdmission(context: CollabConnectionContext, room: string, fenced: bool) returns (honoured: bool)
      ensures honoured <==> Honoured(roomEpochs.State().At(room), context.Value(), fenced)
    {
      if !context.state.Accepted? || fenced {
        return false;
      }
      honoured := roomEpochs.ValidateAdmission(room, roomEpochs.serverInstanceId, context.roomEpoch);
    }
  }
}
