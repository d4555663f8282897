/**
 The persistence queue: operations with one key run one at a time, in the order they were queued.

 The queue of a key is a chain of promises, and the map knows only its tail; the entry goes when the tail has
 settled. `RunKeepsTurns` proves for every run that no two operations of a key are ever under way together, even
 when one is queued while the entry of a settled tail is going; `SomeOperationCanGo` that a failed operation blocks
 none after it.
 */
module PersistenceQueue {
  import opened Wrappers

  datatype Status = Waiting | Running | Settled(ok: bool)

  /** An operation waits for the one that was the tail of its queue when it was queued. */
  datatype Operation = Operation(key: string, after: Option<nat>, status: Status)

  datatype State = State(operations: seq<Operation>, queues: map<string, nat>)

  datatype Event =
    | Enqueue(key: string)
    | Start(operation: nat)
    | Settle(operation: nat, ok: bool)
    | Cleanup(operation: nat)

  predicate Can(s: State, e: Event) {
    match e
    case Enqueue(_) => true
    case Start(i) =>
      && i < |s.operations| && s.operations[i].status.Waiting?
      && var after := s.operations[i].after;
         after.Some? ==> after.value < |s.operations| && s.operations[after.value].status.Settled?
    case Settle(i, _) => i < |s.operations| && s.operations[i].status.Running?
    case Cleanup(i) => i < |s.operations| && s.operations[i].status.Settled?
  }

  function Tail(s: State, key: string): Option<nat> {
    if key in s.queues then Some(s.queues[key]) else None
  }

  function SetStatus(s: State, i: nat, status: Status): State
    requires i < |s.operations|
  {
    s.(operations := s.operations[i := s.operations[i].(status := status)])
  }

  function Step(s: State, e: Event): State
    requires Can(s, e)
  {
    match e
    case Enqueue(key) =>
      State(s.operations + [Operation(key, Tail(s, key), Waiting)], s.queues[key := |s.operations|])
    case Start(i) => SetStatus(s, i, Running)
    case Settle(i, ok) => SetStatus(s, i, Settled(ok))
    case Cleanup(i) =>
      var key := s.operations[i].key;
      if Tail(s, key) == Some(i) then s.(queues := s.queues - {key}) else s
  }

  const START := State([], map[])

  function Run(s: State, events: seq<Event>): Option<State>
    decreases |events|
  {
    if events == [] then Some(s) else if !Can(s, events[0]) then None else Run(Step(s, events[0]), events[1..])
  }

  /** A run goes on with exactly the events that can happen next. */
  lemma {:induction false} RunGoesOn(s: State, events: seq<Event>, e: Event)
    ensures Run(s, []) == Some(s)
    ensures Run(s, events + [e])
            == var before := Run(s, events);
               if before.Some? && Can(before.value, e) then Some(Step(before.value, e)) else None
    decreases |events|
  {
    hide Step, Can;
    if events == [] {
      assert [e][1..] == [];
    } else {
      assert (events + [e])[1..] == events[1..] + [e];
      if Can(s, events[0]) {
        RunGoesOn(Step(s, events[0]), events[1..], e);
      }
    }
  }

  // ---------------------------------------------------------------------------------------------
  // Turns
  // ---------------------------------------------------------------------------------------------

  /** An operation that has started comes after settled ones only. */
  ghost predicate InTurn(s: State) {
    forall i, j | 0 <= i < j < |s.operations| && s.operations[i].key == s.operations[j].key ::
      s.operations[j].status.Waiting? || s.operations[i].status.Settled?
  }

  ghost predicate AllSettled(operations: seq<Operation>, key: string, n: nat)
    requires n <= |operations|
  {
    forall i | 0 <= i < n && operations[i].key == key :: operations[i].status.Settled?
  }

  /** `tail` is the last of the first `n` operations with this key, or they are all settled and there is no tail. */
  ghost predicate IsTail(operations: seq<Operation>, key: string, n: nat, tail: Option<nat>)
    requires n <= |operations|
  {
    match tail
    case None => AllSettled(operations, key, n)
    case Some(last) =>
      last < n && operations[last].key == key && forall i | last < i < n :: operations[i].key != key
  }

  /** Each operation waits for the tail before it, and the map has the tail of each queue. */
  ghost predicate Chained(s: State) {
    && (forall j | 0 <= j < |s.operations| :: IsTail(s.operations, s.operations[j].key, j, s.operations[j].after))
    && (forall key :: IsTail(s.operations, key, |s.operations|, Tail(s, key)))
  }

  ghost predicate Orderly(s: State) {
    InTurn(s) && Chained(s)
  }

  /** Settled operations stay settled, and no operation changes its key or what it waits for. */
  ghost predicate Later(a: seq<Operation>, b: seq<Operation>) {
    && |a| <= |b|
    && forall i | 0 <= i < |a| ::
         b[i].key == a[i].key && b[i].after == a[i].after && (a[i].status.Settled? ==> b[i].status.Settled?)
  }

  lemma TailStays(a: seq<Operation>, b: seq<Operation>, key: string, n: nat, tail: Option<nat>)
    requires n <= |a| && Later(a, b) && IsTail(a, key, n, tail)
    ensures IsTail(b, key, n, tail)
  {
  }

  lemma LinksStay(s: State, after: State)
    requires Chained(s) && Later(s.operations, after.operations)
    ensures forall j | 0 <= j < |s.operations| ::
              IsTail(after.operations, after.operations[j].key, j, after.operations[j].after)
  {
    forall j | 0 <= j < |s.operations|
      ensures IsTail(after.operations, after.operations[j].key, j, after.operations[j].after)
    {
      TailStays(s.operations, after.operations, s.operations[j].key, j, s.operations[j].after);
    }
  }

  lemma EnqueueOrderly(s: State, key: string)
    requires Orderly(s)
    ensures Orderly(Step(s, Enqueue(key)))
  {
    var after := Step(s, Enqueue(key));
    LinksStay(s, after);
    forall other
      ensures IsTail(after.operations, other, |after.operations|, Tail(after, other))
    {
      TailStays(s.operations, after.operations, other, |s.operations|, Tail(s, other));
    }
  }

  /** What an operation waits for is settled, so all before it are. */
  lemma BeforeIsSettled(s: State, j: nat)
    requires Orderly(s) && Can(s, Start(j))
    ensures AllSettled(s.operations, s.operations[j].key, j)
  {
    assert IsTail(s.operations, s.operations[j].key, j, s.operations[j].after);
  }

  lemma StatusOrderly(s: State, i: nat, status: Status)
    requires Orderly(s) && i < |s.operations| && !status.Waiting? && !s.operations[i].status.Settled?
    requires AllSettled(s.operations, s.operations[i].key, i)
    ensures Orderly(SetStatus(s, i, status))
  {
    var after := SetStatus(s, i, status);
    LinksStay(s, after);
    forall key
      ensures IsTail(after.operations, key, |after.operations|, Tail(after, key))
    {
      TailStays(s.operations, after.operations, key, |s.operations|, Tail(s, key));
    }
  }

  lemma CleanupOrderly(s: State, i: nat)
    requires Orderly(s) && Can(s, Cleanup(i))
    ensures Orderly(Step(s, Cleanup(i)))
  {
    var after := Step(s, Cleanup(i));
    var key := s.operations[i].key;
    assert IsTail(s.operations, key, |s.operations|, Tail(s, key));
    forall other
      ensures IsTail(after.operations, other, |after.operations|, Tail(after, other))
    {
      assert IsTail(s.operations, other, |s.operations|, Tail(s, other));
    }
  }

  lemma StepOrderly(s: State, e: Event)
    requires Orderly(s) && Can(s, e)
    ensures Orderly(Step(s, e))
  {
    match e {
      case Enqueue(key) => EnqueueOrderly(s, key);
      case Start(i) =>
        BeforeIsSettled(s, i);
        StatusOrderly(s, i, Running);
      case Settle(i, ok) => StatusOrderly(s, i, Settled(ok));
      case Cleanup(i) => CleanupOrderly(s, i);
    }
  }

  /**
   In every run, of the operations of one key at most one is under way, and one that has started was queued after
   none that has not settled.
   */
  lemma {:induction false} RunKeepsTurns(s: State, events: seq<Event>)
    requires Orderly(s) && Run(s, events).Some?
    ensures var after := Run(s, events).value;
            && Orderly(after)
            && forall i, j | 0 <= i < j < |after.operations| && after.operations[i].key == after.operations[j].key ::
                 && (after.operations[j].status.Waiting? || after.operations[i].status.Settled?)
                 && !(after.operations[i].status.Running? && after.operations[j].status.Running?)
    decreases |events|
  {
    if events != [] {
      StepOrderly(s, events[0]);
      hide Step, Orderly;
      RunKeepsTurns(Step(s, events[0]), events[1..]);
    }
  }

  lemma OrderlyAtStart()
    ensures Orderly(START)
  {
  }

  /**
   Whatever the operations before it came to, while an operation has not settled there is one of its key, itself or
   one before it, that is under way or can start: a rejection blocks none.
   */
  lemma {:induction false} SomeOperationCanGo(s: State, j: nat) returns (i: nat)
    requires Orderly(s) && j < |s.operations| && !s.operations[j].status.Settled?
    ensures i <= j && s.operations[i].key == s.operations[j].key
    ensures s.operations[i].status.Running? || Can(s, Start(i))
  {
    if earlier: nat :| earlier < j && s.operations[earlier].key == s.operations[j].key && !s.operations[earlier].status.Settled? {
      i := SomeOperationCanGo(s, earlier);
    } else {
      i := j;
      assert IsTail(s.operations, s.operations[j].key, j, s.operations[j].after);
    }
  }

  /** Starting and settling an operation changes its status alone; a cleanup forgets the tail exactly when it is that operation. */
  lemma OperationsGoOn(s: State, e: Event)
    requires Can(s, e) && !e.Enqueue?
    ensures var after, i := Step(s, e), e.operation;
            && |after.operations| == |s.operations|
            && (forall k | 0 <= k < |s.operations| && k != i :: after.operations[k] == s.operations[k])
            && (e.Start? ==> after.operations[i] == s.operations[i].(status := Running))
            && (e.Settle? ==> after.operations[i] == s.operations[i].(status := Settled(e.ok)))
            && (!e.Cleanup? ==> after.queues == s.queues)
            && (e.Cleanup? ==>
                  && after.operations == s.operations
                  && forall key :: Tail(after, key) == if key == s.operations[i].key && Tail(s, key) == Some(i) then None else Tail(s, key))
  {
  }

  /** How many of the first `n` operations have not settled, one under way counting half. */
  function Unsettled(operations: seq<Operation>, n: nat): nat
    requires n <= |operations|
  {
    if n == 0 then 0
    else
      Unsettled(operations, n - 1)
      + match operations[n - 1].status { case Waiting => 2 case Running => 1 case Settled(_) => 0 }
  }

  lemma {:induction false} FewerUnsettled(a: seq<Operation>, b: seq<Operation>, i: nat, n: nat)
    requires n <= |a| == |b| && i < n && (forall k | 0 <= k < |a| && k != i :: a[k] == b[k])
    requires (a[i].status.Waiting? && b[i].status.Running?) || (a[i].status.Running? && b[i].status.Settled?)
    ensures Unsettled(b, n) == Unsettled(a, n) - 1
  {
    if i < n - 1 {
      FewerUnsettled(a, b, i, n - 1);
    } else {
      SameUnsettled(a, b, i);
    }
  }

  lemma {:induction false} SameUnsettled(a: seq<Operation>, b: seq<Operation>, n: nat)
    requires n <= |a| == |b| && forall k | 0 <= k < n :: a[k] == b[k]
    ensures Unsettled(a, n) == Unsettled(b, n)
  {
    if n > 0 {
      SameUnsettled(a, b, n - 1);
    }
  }

  /** While an operation has not settled, starting or settling one brings it closer. */
  lemma {:induction false} NextSettles(s: State, j: nat, ok: bool) returns (e: Event)
    requires Orderly(s) && j < |s.operations| && !s.operations[j].status.Settled?
    ensures Can(s, e) && (e.Start? || (e.Settle? && e.ok == ok))
    ensures Orderly(Step(s, e)) && j < |Step(s, e).operations|
    ensures Unsettled(Step(s, e).operations, j + 1) == Unsettled(s.operations, j + 1) - 1
  {
    var i := SomeOperationCanGo(s, j);
    e := if s.operations[i].status.Running? then Settle(i, ok) else Start(i);
    StepOrderly(s, e);
    OperationsGoOn(s, e);
    hide Orderly;
    FewerUnsettled(s.operations, Step(s, e).operations, i, j + 1);
  }

  /** Starting what can start and settling what is under way, with whatever outcome, settles every operation in the end. */
  lemma {:induction false} EveryOperationSettles(s: State, j: nat, ok: bool) returns (events: seq<Event>)
    requires Orderly(s) && j < |s.operations|
    ensures Run(s, events).Some? && j < |Run(s, events).value.operations|
    ensures Run(s, events).value.operations[j].status.Settled?
    ensures forall e | e in events :: e.Start? || (e.Settle? && e.ok == ok)
    decreases Unsettled(s.operations, j + 1)
  {
    hide Orderly, Step, Can, Unsettled;
    if s.operations[j].status.Settled? {
      events := [];
    } else {
      var e := NextSettles(s, j, ok);
      var rest := EveryOperationSettles(Step(s, e), j, ok);
      events := [e] + rest;
      assert events[1..] == rest;
    }
  }

  // ---------------------------------------------------------------------------------------------
  // In place
  // ---------------------------------------------------------------------------------------------

  /** The map of tails; `operations` stands for the promises. */
  class PersistenceQueues {
    var queues: map<string, nat>
    var operations: seq<Operation>

    ghost function Value(): State
      reads this
    {
      State(operations, queues)
    }

    constructor ()
      ensures Value() == START
    {
      queues, operations := map[], [];
    }

    method EnqueueOperation(key: string) returns (queued: nat)
      modifies this
      ensures Value() == Step(old(Value()), Enqueue(key)) && queued == |old(operations)|
      ensures |operations| == queued + 1 && operations[..queued] == old(operations)
      ensures operations[queued].key == key && operations[queued].status.Waiting? && operations[queued].after == Tail(old(Value()), key)
      ensures queues == old(queues)[key := queued]
    {
      var previous := if key in queues then Some(queues[key]) else None;
      queued := |operations|;
      operations := operations + [Operation(key, previous, Waiting)];
      queues := queues[key := queued];
    }

    /** Runs when `queued` has settled either way. */
    method CleanUp(key: string, queued: nat)
      requires Can(Value(), Cleanup(queued)) && operations[queued].key == key
      modifies this`queues
      ensures Value() == Step(old(Value()), Cleanup(queued))
      ensures queues == if key in old(queues) && old(queues)[key] == queued then old(queues) - {key} else old(queues)
    {
      if key in queues && queues[key] == queued {
        queues := queues - {key};
      }
    }
  }
}
