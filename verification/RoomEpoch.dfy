/**
 Room epoch tokens: a per-room cache with lazy expiry and least-recently-used eviction.

 The registry (the fast form) forgets tokens: it prunes expired ones on the way and evicts the least
 recently used ones when a room holds too many. The history machine (the simple form) forgets nothing:
 it logs every use of every token. `RegistryRefinesHistory` proves that the two give the same answers
 on every run, so expiry and eviction never interfere.
 */
module RoomEpoch {
  import opened Wrappers

  type StateVector = map<nat, nat>

  datatype Limits = Limits(ttl: real, maxTokens: nat)

  type ValidLimits = l: Limits | l.ttl > 0.0 && l.maxTokens > 0 witness Limits(1.0, 1)

  datatype Token = Token(roomEpoch: string, stateVector: StateVector, synchronized: bool, lastUsedAt: real,
                         lastAccessOrder: nat)

  type Tokens = map<string, Token>

  datatype Admission = Admission(roomEpoch: string, stateVector: StateVector, requiresFence: bool)

  // ---------------------------------------------------------------------------------------------
  // Pruning, as a function of the tokens of one room
  // ---------------------------------------------------------------------------------------------

  function Unexpired(tokens: Tokens, now: real, ttl: real): Tokens {
    map t | t in tokens && now - tokens[t].lastUsedAt < ttl :: tokens[t]
  }

  /** The tokens used after `t`. */
  function Later(tokens: Tokens, t: string): set<string>
    requires t in tokens
  {
    set u | u in tokens && tokens[u].lastAccessOrder > tokens[t].lastAccessOrder
  }

  /** The `max` most recently used tokens. */
  function Newest(tokens: Tokens, max: nat): Tokens {
    map t | t in tokens && |Later(tokens, t)| < max :: tokens[t]
  }

  function Pruned(tokens: Tokens, now: real, limits: Limits): Tokens {
    Newest(Unexpired(tokens, now, limits.ttl), limits.maxTokens)
  }

  ghost predicate DistinctOrders(tokens: Tokens) {
    forall t, u :: t in tokens && u in tokens && t != u ==> tokens[t].lastAccessOrder != tokens[u].lastAccessOrder
  }

  lemma SubsetSize<T>(a: set<T>, b: set<T>)
    requires a <= b
    ensures |a| <= |b|
  {
    assert b == a + (b - a);
  }

  lemma LaterSize(tokens: Tokens, t: string)
    requires t in tokens
    ensures |Later(tokens, t)| < |tokens|
  {
    SubsetSize(Later(tokens, t), tokens.Keys - {t});
    assert |tokens.Keys - {t}| == |tokens.Keys| - 1;
  }

  /** `kept` is what dropping the oldest tokens until `max` are left leaves of `tokens`. */
  ghost predicate Dropped(tokens: Tokens, kept: Tokens, max: nat) {
    && kept.Keys <= tokens.Keys && (forall t :: t in kept ==> kept[t] == tokens[t])
    && (forall t, u :: t in kept && u in tokens && u !in kept ==> tokens[u].lastAccessOrder < tokens[t].lastAccessOrder)
    && |kept| <= max && (kept.Keys != tokens.Keys ==> |kept| == max)
  }

  lemma DroppedRank(tokens: Tokens, kept: Tokens, max: nat, t: string)
    requires Dropped(tokens, kept, max) && t in tokens
    ensures t in kept <==> |Later(tokens, t)| < max
  {
    if t in kept {
      SubsetSize(Later(tokens, t), kept.Keys - {t});
      assert |kept.Keys - {t}| == |kept.Keys| - 1;
    } else {
      SubsetSize(kept.Keys, Later(tokens, t));
    }
  }

  lemma OldestDropped(tokens: Tokens, kept: Tokens, max: nat)
    requires Dropped(tokens, kept, max)
    ensures kept == Newest(tokens, max)
  {
    forall t | t in tokens
      ensures t in kept <==> |Later(tokens, t)| < max
    {
      DroppedRank(tokens, kept, max, t);
    }
  }

  lemma FewTokensStay(tokens: Tokens, max: nat)
    requires |tokens| <= max
    ensures Newest(tokens, max) == tokens
  {
    OldestDropped(tokens, tokens, max);
  }

  lemma {:induction false} Oldest(tokens: Tokens) returns (oldest: string)
    requires DistinctOrders(tokens) && tokens.Keys != {}
    ensures oldest in tokens && forall t :: t in tokens && t != oldest ==> t in Later(tokens, oldest)
    decreases |tokens.Keys|
  {
    var t :| t in tokens.Keys;
    oldest := t;
    var rest := tokens - {t};
    if rest.Keys != {} {
      assert rest.Keys == tokens.Keys - {t};
      assert forall u :: u in tokens && u != t ==> u in rest && rest[u] == tokens[u];
      var o := Oldest(rest);
      if tokens[o].lastAccessOrder < tokens[t].lastAccessOrder {
        oldest := o;
      }
    }
  }

  lemma NewestSize(tokens: Tokens, max: nat)
    requires DistinctOrders(tokens)
    ensures |Newest(tokens, max)| <= max
  {
    var newest := Newest(tokens, max);
    if newest.Keys != {} {
      var oldest := Oldest(newest);
      SubsetSize(newest.Keys - {oldest}, Later(tokens, oldest));
      assert |newest.Keys - {oldest}| == |newest.Keys| - 1;
    }
  }

  // ---------------------------------------------------------------------------------------------
  // The registry
  // ---------------------------------------------------------------------------------------------

  /** What the registry holds for one room, and the next access order. */
  datatype Room = Room(epoch: Option<string>, tokens: Tokens, nextOrder: nat) {
    /** The empty string counts as no epoch. */
    predicate Active() {
      epoch.Some? && epoch.value != ""
    }

    function Prune(limits: Limits, now: real): Room {
      this.(tokens := Pruned(tokens, now, limits))
    }

    function Issue(limits: Limits, now: real, newEpoch: string): Room {
      if Active() then Prune(limits, now) else Prune(limits, now).(epoch := Some(newEpoch))
    }

    function IssueToken(limits: Limits, now: real, addedAt: real, newEpoch: string, token: string,
                        vector: StateVector): Room
    {
      var issued := Issue(limits, now, newEpoch);
      issued.Use(token, Token(issued.epoch.value, vector, false, addedAt, nextOrder)).Prune(limits, addedAt)
    }

    function Use(token: string, used: Token): Room {
      this.(tokens := tokens[token := used], nextOrder := nextOrder + 1)
    }

    /** The token is cached under the epoch of the room. */
    predicate Knows(token: string) {
      token in tokens && epoch == Some(tokens[token].roomEpoch)
    }

    function Validate(limits: Limits, token: string, now: real): Room {
      var pruned := Prune(limits, now);
      if pruned.Active() && pruned.Knows(token)
      then pruned.Use(token, pruned.tokens[token].(lastUsedAt := now, lastAccessOrder := nextOrder))
      else pruned
    }

    function Validated(limits: Limits, token: string, now: real): Option<Admission> {
      var pruned := Prune(limits, now);
      if pruned.Active() && pruned.Knows(token)
      then
        var known := pruned.tokens[token];
        Some(Admission(known.roomEpoch, known.stateVector, !known.synchronized))
      else None
    }

    function MarkSynchronized(limits: Limits, token: string, now: real): Room {
      var pruned := Prune(limits, now);
      if pruned.Knows(token)
      then pruned.(tokens := pruned.tokens[token := pruned.tokens[token].(synchronized := true)])
      else pruned
    }

    function Retire(): Room {
      Room(None, map[], nextOrder)
    }
  }

  // ---------------------------------------------------------------------------------------------
  // The history machine
  // ---------------------------------------------------------------------------------------------

  datatype Use = Use(token: string, at: real)

  /** The index of the last use of `t`, or -1. */
  function Last(uses: seq<Use>, t: string): (i: int)
    ensures -1 <= i < |uses| && (i >= 0 ==> uses[i].token == t)
    ensures forall k :: i < k < |uses| ==> uses[k].token != t
  {
    if uses == [] then -1
    else if uses[|uses| - 1].token == t then |uses| - 1
    else Last(uses[..|uses| - 1], t)
  }

  function TokensFrom(uses: seq<Use>, i: nat): set<string> {
    set k | i <= k < |uses| :: uses[k].token
  }

  /** Less than the TTL has passed since the last use, and fewer than the limit of other tokens were used after it. */
  predicate Live(limits: Limits, uses: seq<Use>, t: string, now: real) {
    var i := Last(uses, t);
    i >= 0 && now - uses[i].at < limits.ttl && |TokensFrom(uses, i + 1)| < limits.maxTokens
  }

  datatype RoomLog = RoomLog(epoch: Option<string>, uses: seq<Use>, vectors: map<string, StateVector>,
                             synced: set<string>)
  {
    function Issue(newEpoch: string): RoomLog {
      if epoch.Some? then this else this.(epoch := Some(newEpoch))
    }

    function IssueToken(at: real, newEpoch: string, token: string, vector: StateVector): RoomLog {
      Issue(newEpoch).(uses := uses + [Use(token, at)], vectors := vectors[token := vector], synced := synced - {token})
    }

    function Validated(limits: Limits, token: string, now: real): Option<Admission> {
      if Live(limits, uses, token, now) && epoch.Some? && token in vectors
      then Some(Admission(epoch.value, vectors[token], token !in synced))
      else None
    }

    function Validate(limits: Limits, token: string, now: real): RoomLog {
      if Live(limits, uses, token, now) then this.(uses := uses + [Use(token, now)]) else this
    }

    function MarkSynchronized(limits: Limits, token: string, now: real): RoomLog {
      if Live(limits, uses, token, now) then this.(synced := synced + {token}) else this
    }
  }

  const NOTHING := RoomLog(None, [], map[], {})

  // ---------------------------------------------------------------------------------------------
  // The cache holds what is live
  // ---------------------------------------------------------------------------------------------

  /** Uses are logged in order of time. */
  ghost predicate Timed(uses: seq<Use>, clock: real) {
    && (forall i, j :: 0 <= i < j < |uses| ==> uses[i].at <= uses[j].at)
    && (forall i :: 0 <= i < |uses| ==> uses[i].at <= clock)
  }

  /** The cache holds the last uses, ordered as the log is, and no gap: all that was used after a cached token. */
  ghost predicate Recent(tokens: Tokens, uses: seq<Use>) {
    && DistinctOrders(tokens)
    && (forall t :: t in tokens ==> Last(uses, t) >= 0 && tokens[t].lastUsedAt == uses[Last(uses, t)].at)
    && (forall t, u :: t in tokens && Last(uses, t) < Last(uses, u) ==>
          u in tokens && tokens[t].lastAccessOrder < tokens[u].lastAccessOrder)
  }

  ghost predicate Complete(limits: Limits, tokens: Tokens, uses: seq<Use>, clock: real) {
    forall t :: Live(limits, uses, t, clock) ==> t in tokens
  }

  ghost predicate Bound(tokens: Tokens, log: RoomLog) {
    forall t :: t in tokens ==>
      && log.epoch == Some(tokens[t].roomEpoch) && tokens[t].roomEpoch != ""
      && t in log.vectors && tokens[t].stateVector == log.vectors[t]
      && (tokens[t].synchronized <==> t in log.synced)
  }

  /** The cached tokens of a room agree with its log; there may be too many of them. */
  ghost predicate Follows(limits: Limits, tokens: Tokens, log: RoomLog, clock: real) {
    Timed(log.uses, clock) && Recent(tokens, log.uses) && Complete(limits, tokens, log.uses, clock) && Bound(tokens, log)
  }

  /** Dropping tokens, oldest uses first, leaves a recent cache. */
  lemma {:induction false} RestrictRecent(tokens: Tokens, kept: Tokens, uses: seq<Use>)
    requires Recent(tokens, uses) && kept.Keys <= tokens.Keys && forall t :: t in kept ==> kept[t] == tokens[t]
    requires forall t, u :: t in kept && Last(uses, t) < Last(uses, u) ==> u in kept
    ensures Recent(kept, uses)
  {
  }

  /** Later uses in the log are later uses in the cache. */
  lemma {:induction false} LaterUse(tokens: Tokens, uses: seq<Use>, t: string, u: string)
    requires Recent(tokens, uses) && t in tokens && Last(uses, t) < Last(uses, u)
    ensures u in tokens && Later(tokens, u) <= Later(tokens, t) && Last(uses, t) >= 0
    ensures tokens[t].lastUsedAt == uses[Last(uses, t)].at && tokens[u].lastUsedAt == uses[Last(uses, u)].at
  {
  }

  lemma ExpireRecent(tokens: Tokens, uses: seq<Use>, clock: real, now: real, ttl: real)
    requires Recent(tokens, uses) && Timed(uses, clock)
    ensures Recent(Unexpired(tokens, now, ttl), uses)
  {
    hide Recent, Last;
    forall t, u | t in Unexpired(tokens, now, ttl) && Last(uses, t) < Last(uses, u)
      ensures u in Unexpired(tokens, now, ttl)
    {
      LaterUse(tokens, uses, t, u);
    }
    RestrictRecent(tokens, Unexpired(tokens, now, ttl), uses);
  }

  lemma Expire(limits: Limits, tokens: Tokens, log: RoomLog, clock: real, now: real)
    requires Follows(limits, tokens, log, clock) && clock <= now
    ensures Follows(limits, Unexpired(tokens, now, limits.ttl), log, now)
  {
    ExpireRecent(tokens, log.uses, clock, now, limits.ttl);
    forall t | Live(limits, log.uses, t, now)
      ensures t in Unexpired(tokens, now, limits.ttl)
    {
      assert Live(limits, log.uses, t, clock) && t in tokens;
    }
  }

  /** What was used after a cached token is what the cache holds as used later. */
  lemma {:induction false} UsedAfter(tokens: Tokens, uses: seq<Use>, t: string)
    requires Recent(tokens, uses) && t in tokens
    ensures TokensFrom(uses, Last(uses, t) + 1) == Later(tokens, t)
  {
    forall u | u in TokensFrom(uses, Last(uses, t) + 1)
      ensures u in Later(tokens, t)
    {
      var k :| Last(uses, t) + 1 <= k < |uses| && uses[k].token == u;
      assert Last(uses, u) >= k;
    }
    forall u | u in Later(tokens, t)
      ensures u in TokensFrom(uses, Last(uses, t) + 1)
    {
      var k := Last(uses, u);
      assert uses[k].token == u && uses[Last(uses, t)].token == t;
    }
  }

  /** After expiry, a room within its limit caches exactly the live tokens. */
  lemma CachedIsLive(limits: Limits, tokens: Tokens, log: RoomLog, now: real, t: string)
    requires Recent(tokens, log.uses) && Complete(limits, tokens, log.uses, now) && |tokens| <= limits.maxTokens
    requires t in tokens ==> now - tokens[t].lastUsedAt < limits.ttl
    ensures t in tokens <==> Live(limits, log.uses, t, now)
  {
    if t in tokens {
      UsedAfter(tokens, log.uses, t);
      LaterSize(tokens, t);
    }
  }

  lemma EvictRecent(tokens: Tokens, uses: seq<Use>, max: nat)
    requires Recent(tokens, uses)
    ensures Recent(Newest(tokens, max), uses)
  {
    hide Recent, Last;
    forall t, u | t in Newest(tokens, max) && Last(uses, t) < Last(uses, u)
      ensures u in Newest(tokens, max)
    {
      LaterUse(tokens, uses, t, u);
      SubsetSize(Later(tokens, u), Later(tokens, t));
    }
    RestrictRecent(tokens, Newest(tokens, max), uses);
  }

  /** Evicting the least recently used tokens drops none that is live. */
  lemma EvictComplete(limits: Limits, tokens: Tokens, uses: seq<Use>, clock: real)
    requires Recent(tokens, uses) && Complete(limits, tokens, uses, clock)
    ensures Complete(limits, Newest(tokens, limits.maxTokens), uses, clock)
  {
    forall t | Live(limits, uses, t, clock)
      ensures t in Newest(tokens, limits.maxTokens)
    {
      assert t in tokens;
      UsedAfter(tokens, uses, t);
    }
  }

  lemma Evict(limits: Limits, tokens: Tokens, log: RoomLog, clock: real)
    requires Follows(limits, tokens, log, clock)
    ensures Follows(limits, Newest(tokens, limits.maxTokens), log, clock)
    ensures |Newest(tokens, limits.maxTokens)| <= limits.maxTokens
  {
    NewestSize(tokens, limits.maxTokens);
    EvictRecent(tokens, log.uses, limits.maxTokens);
    EvictComplete(limits, tokens, log.uses, clock);
  }

  lemma {:induction false} LastAfterUse(uses: seq<Use>, use: Use)
    ensures forall t :: Last(uses + [use], t) == if t == use.token then |uses| else Last(uses, t)
  {
    assert (uses + [use])[..|uses|] == uses;
  }

  lemma LiveBeforeUse(limits: Limits, uses: seq<Use>, use: Use, t: string, clock: real)
    requires t != use.token && clock <= use.at && Live(limits, uses + [use], t, use.at)
    ensures Live(limits, uses, t, clock)
  {
    LastAfterUse(uses, use);
    var i := Last(uses, t);
    var before, after := TokensFrom(uses, i + 1), TokensFrom(uses + [use], i + 1);
    forall k | i + 1 <= k < |uses|
      ensures uses[k].token in after
    {
      assert (uses + [use])[k] == uses[k];
    }
    SubsetSize(before, after);
  }

  /** Using a token, new or cached, moves it to the end of the log and to the front of the cache. */
  lemma RefreshRecent(tokens: Tokens, uses: seq<Use>, t: string, used: Token)
    requires Recent(tokens, uses)
    requires forall u :: u in tokens ==> tokens[u].lastAccessOrder < used.lastAccessOrder
    ensures Recent(tokens[t := used], uses + [Use(t, used.lastUsedAt)])
  {
    LastAfterUse(uses, Use(t, used.lastUsedAt));
  }

  lemma RefreshComplete(limits: Limits, tokens: Tokens, uses: seq<Use>, clock: real, t: string, used: Token)
    requires Complete(limits, tokens, uses, clock) && clock <= used.lastUsedAt
    ensures Complete(limits, tokens[t := used], uses + [Use(t, used.lastUsedAt)], used.lastUsedAt)
  {
    var use := Use(t, used.lastUsedAt);
    forall u | u != t && Live(limits, uses + [use], u, used.lastUsedAt)
      ensures u in tokens
    {
      LiveBeforeUse(limits, uses, use, u, clock);
    }
  }

  lemma Refresh(limits: Limits, tokens: Tokens, log: RoomLog, clock: real, t: string, used: Token, log': RoomLog)
    requires Follows(limits, tokens, log, clock) && clock <= used.lastUsedAt
    requires forall u :: u in tokens ==> tokens[u].lastAccessOrder < used.lastAccessOrder
    requires log'.uses == log.uses + [Use(t, used.lastUsedAt)] && Bound(tokens[t := used], log')
    ensures Follows(limits, tokens[t := used], log', used.lastUsedAt)
  {
    RefreshRecent(tokens, log.uses, t, used);
    RefreshComplete(limits, tokens, log.uses, clock, t, used);
  }

  // ---------------------------------------------------------------------------------------------
  // One room of the registry against its log
  // ---------------------------------------------------------------------------------------------

  ghost predicate Agrees(limits: Limits, r: Room, log: RoomLog, clock: real) {
    && r.epoch == log.epoch && (r.epoch.Some? ==> r.Active())
    && Follows(limits, r.tokens, log, clock)
    && |r.tokens| <= limits.maxTokens
    && OrdersBelow(r.tokens, r.nextOrder)
  }

  ghost predicate OrdersBelow(tokens: Tokens, nextOrder: nat) {
    forall t :: t in tokens ==> tokens[t].lastAccessOrder < nextOrder
  }

  lemma Wait(limits: Limits, r: Room, log: RoomLog, clock: real, now: real, nextOrder: nat)
    requires Agrees(limits, r, log, clock) && clock <= now && r.nextOrder <= nextOrder
    ensures Agrees(limits, r.(nextOrder := nextOrder), log, now)
  {
    forall t | Live(limits, log.uses, t, now)
      ensures t in r.tokens
    {
      assert Live(limits, log.uses, t, clock);
    }
  }

  /** Pruning keeps the room in agreement, and what it leaves is exactly what is live. */
  lemma PruneAgrees(limits: Limits, r: Room, log: RoomLog, clock: real, now: real)
    requires Agrees(limits, r, log, clock) && clock <= now
    ensures Agrees(limits, r.Prune(limits, now), log, now)
    ensures forall t :: r.Prune(limits, now).Knows(t) <==> Live(limits, log.uses, t, now)
  {
    var kept := Unexpired(r.tokens, now, limits.ttl);
    SubsetSize(kept.Keys, r.tokens.Keys);
    FewTokensStay(kept, limits.maxTokens);
    Expire(limits, r.tokens, log, clock, now);
    forall t
      ensures t in kept <==> Live(limits, log.uses, t, now)
    {
      CachedIsLive(limits, kept, log, now, t);
    }
  }

  lemma BoundAfterUse(tokens: Tokens, log: RoomLog, token: string, used: Token, log': RoomLog)
    requires Bound(tokens, log) && used.roomEpoch != "" && log.epoch == Some(used.roomEpoch) == log'.epoch
    requires log'.vectors == log.vectors[token := used.stateVector]
    requires log'.synced == if used.synchronized then log.synced + {token} else log.synced - {token}
    ensures Bound(tokens[token := used], log')
  {
  }

  /** A new use may push the room over its limit; pruning brings it back into agreement. */
  lemma UseAgrees(limits: ValidLimits, r: Room, log: RoomLog, clock: real, token: string, used: Token, log': RoomLog)
    requires Agrees(limits, r, log, clock) && clock <= used.lastUsedAt && used.lastAccessOrder == r.nextOrder
    requires r.Active() && used.roomEpoch == r.epoch.value && log'.epoch == r.epoch
    requires log'.uses == log.uses + [Use(token, used.lastUsedAt)]
    requires log'.vectors == log.vectors[token := used.stateVector]
    requires log'.synced == if used.synchronized then log.synced + {token} else log.synced - {token}
    ensures Agrees(limits, r.Use(token, used).Prune(limits, used.lastUsedAt), log', used.lastUsedAt)
    ensures token in r.tokens ==> Agrees(limits, r.Use(token, used), log', used.lastUsedAt)
  {
    hide Follows, Unexpired, Newest, Bound, Live, OrdersBelow;
    var tokens, at := r.tokens[token := used], used.lastUsedAt;
    var kept := Unexpired(tokens, at, limits.ttl);
    OrdersBelowUse(r.tokens, r.nextOrder, token, used, at, limits);
    FollowsBound(limits, r.tokens, log, clock);
    BoundAfterUse(r.tokens, log, token, used, log');
    OrdersBelowAll(r.tokens, r.nextOrder);
    Refresh(limits, r.tokens, log, clock, token, used, log');
    Expire(limits, tokens, log', at, at);
    Evict(limits, kept, log', at);
    if token in r.tokens {
      assert tokens.Keys == r.tokens.Keys;
    }
  }

  lemma FollowsBound(limits: Limits, tokens: Tokens, log: RoomLog, clock: real)
    requires Follows(limits, tokens, log, clock)
    ensures Bound(tokens, log)
  {
  }

  lemma OrdersBelowAll(tokens: Tokens, nextOrder: nat)
    requires OrdersBelow(tokens, nextOrder)
    ensures forall t :: t in tokens ==> tokens[t].lastAccessOrder < nextOrder
  {
  }

  lemma OrdersBelowUse(tokens: Tokens, nextOrder: nat, token: string, used: Token, now: real, limits: Limits)
    requires OrdersBelow(tokens, nextOrder) && used.lastAccessOrder == nextOrder
    ensures OrdersBelow(tokens[token := used], nextOrder + 1)
    ensures OrdersBelow(Pruned(tokens[token := used], now, limits), nextOrder + 1)
  {
    var added := tokens[token := used];
    assert forall t :: t in Unexpired(added, now, limits.ttl) ==> t in added;
    assert forall t :: t in Pruned(added, now, limits) ==> t in Unexpired(added, now, limits.ttl);
  }

  lemma IssueTokenAgrees(limits: ValidLimits, r: Room, log: RoomLog, clock: real, now: real, addedAt: real,
                         newEpoch: string, token: string, vector: StateVector)
    requires Agrees(limits, r, log, clock) && clock <= now <= addedAt && newEpoch != ""
    ensures Agrees(limits, r.IssueToken(limits, now, addedAt, newEpoch, token, vector),
                   log.IssueToken(addedAt, newEpoch, token, vector), addedAt)
  {
    PruneAgrees(limits, r, log, clock, now);
    var issued := r.Issue(limits, now, newEpoch);
    assert Agrees(limits, issued, log.Issue(newEpoch), now);
    var used := Token(issued.epoch.value, vector, false, addedAt, r.nextOrder);
    UseAgrees(limits, issued, log.Issue(newEpoch), now, token, used, log.IssueToken(addedAt, newEpoch, token, vector));
  }

  lemma KnownAdmission(limits: Limits, r: Room, log: RoomLog, clock: real, token: string)
    requires Agrees(limits, r, log, clock) && r.Knows(token)
    ensures log.epoch == Some(r.tokens[token].roomEpoch) && token in log.vectors
    ensures log.vectors[token] == r.tokens[token].stateVector && (token in log.synced <==> r.tokens[token].synchronized)
  {
  }

  lemma ValidateAgrees(limits: ValidLimits, r: Room, log: RoomLog, clock: real, token: string, now: real)
    requires Agrees(limits, r, log, clock) && clock <= now
    ensures Agrees(limits, r.Validate(limits, token, now), log.Validate(limits, token, now), now)
    ensures r.Validated(limits, token, now) == log.Validated(limits, token, now)
  {
    hide Agrees, Live, Pruned;
    PruneAgrees(limits, r, log, clock, now);
    var pruned := r.Prune(limits, now);
    if pruned.Knows(token) {
      KnownAdmission(limits, pruned, log, now, token);
      var used := pruned.tokens[token].(lastUsedAt := now, lastAccessOrder := r.nextOrder);
      var log' := log.Validate(limits, token, now);
      assert log'.vectors == log.vectors[token := used.stateVector];
      assert log'.synced == if used.synchronized then log.synced + {token} else log.synced - {token};
      UseAgrees(limits, pruned, log, now, token, used, log');
    }
  }

  /** Marking a token changes neither the uses nor their order. */
  lemma MarkKnown(limits: ValidLimits, r: Room, log: RoomLog, clock: real, token: string)
    requires Agrees(limits, r, log, clock) && r.Knows(token)
    ensures Agrees(limits, r.(tokens := r.tokens[token := r.tokens[token].(synchronized := true)]),
                   log.(synced := log.synced + {token}), clock)
  {
    hide Recent, Live, Last, Timed;
    var marked := r.tokens[token := r.tokens[token].(synchronized := true)];
    assert marked.Keys == r.tokens.Keys;
    assert OrdersBelow(marked, r.nextOrder);
    MarkRecent(r.tokens, log.uses, token, marked[token]);
    MarkBound(r.tokens, log, token);
    hide Bound, OrdersBelow;
    assert Complete(limits, marked, log.uses, clock);
  }

  lemma MarkRecent(tokens: Tokens, uses: seq<Use>, token: string, marked: Token)
    requires Recent(tokens, uses) && token in tokens && marked == tokens[token].(synchronized := true)
    ensures Recent(tokens[token := marked], uses)
  {
  }

  lemma MarkBound(tokens: Tokens, log: RoomLog, token: string)
    requires Bound(tokens, log) && token in tokens
    ensures Bound(tokens[token := tokens[token].(synchronized := true)], log.(synced := log.synced + {token}))
  {
  }

  lemma MarkAgrees(limits: ValidLimits, r: Room, log: RoomLog, clock: real, token: string, now: real)
    requires Agrees(limits, r, log, clock) && clock <= now
    ensures Agrees(limits, r.MarkSynchronized(limits, token, now), log.MarkSynchronized(limits, token, now), now)
    ensures r.Prune(limits, now).Knows(token) <==> Live(limits, log.uses, token, now)
  {
    hide Agrees, Live, Pruned;
    PruneAgrees(limits, r, log, clock, now);
    if r.Prune(limits, now).Knows(token) {
      MarkKnown(limits, r.Prune(limits, now), log, now, token);
    }
  }

  // ---------------------------------------------------------------------------------------------
  // Runs over all rooms
  // ---------------------------------------------------------------------------------------------

  datatype Registry = Registry(epochs: map<string, string>, tokens: map<string, Tokens>, nextOrder: nat) {
    function At(room: string): Room {
      Room(if room in epochs then Some(epochs[room]) else None, if room in tokens then tokens[room] else map[], nextOrder)
    }

    /** A room without tokens has no entry. */
    function Put(room: string, r: Room): Registry {
      Registry(if r.epoch.Some? then epochs[room := r.epoch.value] else epochs - {room},
               if r.tokens == map[] then tokens - {room} else tokens[room := r.tokens],
               r.nextOrder)
    }
  }

  /** Replacing the tokens of a room just stored is storing the room with the new tokens. */
  lemma PutTokens(r: Registry, room: string, stored: Room, tokens: Tokens, nextOrder: nat)
    requires tokens != map[]
    ensures r.Put(room, stored).At(room) == stored
    ensures Registry(r.Put(room, stored).epochs, r.Put(room, stored).tokens[room := tokens], nextOrder)
            == r.Put(room, Room(stored.epoch, tokens, nextOrder))
  {
  }

  lemma PutElsewhere(r: Registry, room: string, stored: Room, other: string)
    requires other != room
    ensures r.Put(room, stored).At(other) == r.At(other).(nextOrder := stored.nextOrder)
  {
  }

  lemma PutPut(r: Registry, room: string, first: Room, second: Room)
    ensures r.Put(room, first).Put(room, second) == r.Put(room, second)
    ensures r.Put(room, first).At(room) == first
  {
  }

  datatype Op =
    | Issue(room: string, now: real, newEpoch: string)
    | IssueToken(room: string, now: real, addedAt: real, newEpoch: string, token: string, vector: StateVector)
    | Validate(room: string, token: string, now: real)
    | MarkSynchronized(room: string, token: string, now: real)
    | Retire(room: string)

  datatype Answer = Epoch(epoch: Option<string>) | Admitted(admission: Option<Admission>) | Marked(done: bool)

  /** The clock does not run backwards, and minted epochs are not empty. */
  predicate Timely(op: Op, clock: real) {
    match op
    case Issue(_, now, newEpoch) => clock <= now && newEpoch != ""
    case IssueToken(_, now, addedAt, newEpoch, _, _) => clock <= now <= addedAt && newEpoch != ""
    case Validate(_, _, now) => clock <= now
    case MarkSynchronized(_, _, now) => clock <= now
    case Retire(_) => true
  }

  function ClockAfter(op: Op, clock: real): real {
    match op
    case Issue(_, now, _) => now
    case IssueToken(_, _, addedAt, _, _, _) => addedAt
    case Validate(_, _, now) => now
    case MarkSynchronized(_, _, now) => now
    case Retire(_) => clock
  }

  function RoomStep(limits: Limits, r: Room, op: Op): (Room, Answer) {
    match op
    case Issue(_, now, newEpoch) =>
      var next := r.Issue(limits, now, newEpoch);
      (next, Epoch(next.epoch))
    case IssueToken(_, now, addedAt, newEpoch, token, vector) =>
      var next := r.IssueToken(limits, now, addedAt, newEpoch, token, vector);
      (next, Epoch(next.epoch))
    case Validate(_, token, now) => (r.Validate(limits, token, now), Admitted(r.Validated(limits, token, now)))
    case MarkSynchronized(_, token, now) =>
      (r.MarkSynchronized(limits, token, now), Marked(r.Prune(limits, now).Knows(token)))
    case Retire(_) => (r.Retire(), Epoch(None))
  }

  function LogStep(limits: Limits, log: RoomLog, op: Op): (RoomLog, Answer) {
    match op
    case Issue(_, now, newEpoch) =>
      var next := log.Issue(newEpoch);
      (next, Epoch(next.epoch))
    case IssueToken(_, _, addedAt, newEpoch, token, vector) =>
      var next := log.IssueToken(addedAt, newEpoch, token, vector);
      (next, Epoch(next.epoch))
    case Validate(_, token, now) => (log.Validate(limits, token, now), Admitted(log.Validated(limits, token, now)))
    case MarkSynchronized(_, token, now) =>
      (log.MarkSynchronized(limits, token, now), Marked(Live(limits, log.uses, token, now)))
    case Retire(_) => (NOTHING, Epoch(None))
  }

  lemma StepAgrees(limits: ValidLimits, r: Room, log: RoomLog, clock: real, op: Op)
    requires Agrees(limits, r, log, clock) && Timely(op, clock)
    ensures Agrees(limits, RoomStep(limits, r, op).0, LogStep(limits, log, op).0, ClockAfter(op, clock))
    ensures RoomStep(limits, r, op).1 == LogStep(limits, log, op).1
    ensures RoomStep(limits, r, op).0.nextOrder >= r.nextOrder && ClockAfter(op, clock) >= clock
  {
    match op {
      case Issue(_, now, _) => PruneAgrees(limits, r, log, clock, now);
      case IssueToken(_, now, addedAt, newEpoch, token, vector) =>
        IssueTokenAgrees(limits, r, log, clock, now, addedAt, newEpoch, token, vector);
      case Validate(_, token, now) => ValidateAgrees(limits, r, log, clock, token, now);
      case MarkSynchronized(_, token, now) => MarkAgrees(limits, r, log, clock, token, now);
      case Retire(_) =>
    }
  }

  type History = map<string, RoomLog>

  function LogOf(h: History, room: string): RoomLog {
    if room in h then h[room] else NOTHING
  }

  ghost predicate AllAgree(limits: Limits, r: Registry, h: History, clock: real) {
    forall room: string :: Agrees(limits, r.At(room), LogOf(h, room), clock)
  }

  predicate TimelyRun(ops: seq<Op>, clock: real)
    decreases |ops|
  {
    ops == [] || (Timely(ops[0], clock) && TimelyRun(ops[1..], ClockAfter(ops[0], clock)))
  }

  function RegistryRun(limits: Limits, r: Registry, ops: seq<Op>): seq<Answer>
    decreases |ops|
  {
    if ops == [] then []
    else
      var (next, answer) := RoomStep(limits, r.At(ops[0].room), ops[0]);
      [answer] + RegistryRun(limits, r.Put(ops[0].room, next), ops[1..])
  }

  function HistoryRun(limits: Limits, h: History, ops: seq<Op>): seq<Answer>
    decreases |ops|
  {
    if ops == [] then []
    else
      var (next, answer) := LogStep(limits, LogOf(h, ops[0].room), ops[0]);
      [answer] + HistoryRun(limits, h[ops[0].room := next], ops[1..])
  }

  lemma PutAgrees(limits: ValidLimits, r: Registry, h: History, clock: real, op: Op)
    requires AllAgree(limits, r, h, clock) && Timely(op, clock)
    ensures var (next, answer) := RoomStep(limits, r.At(op.room), op);
            var (log, answer') := LogStep(limits, LogOf(h, op.room), op);
            AllAgree(limits, r.Put(op.room, next), h[op.room := log], ClockAfter(op, clock)) && answer == answer'
  {
    hide Agrees, RoomStep, LogStep, Timely, ClockAfter, Registry.Put;
    var next, log := RoomStep(limits, r.At(op.room), op).0, LogStep(limits, LogOf(h, op.room), op).0;
    var now, r', h' := ClockAfter(op, clock), r.Put(op.room, next), h[op.room := log];
    assert Agrees(limits, r.At(op.room), LogOf(h, op.room), clock);
    StepAgrees(limits, r.At(op.room), LogOf(h, op.room), clock, op);
    forall room: string
      ensures Agrees(limits, r'.At(room), LogOf(h', room), now)
    {
      if room == op.room {
        PutPut(r, room, next, next);
      } else {
        assert Agrees(limits, r.At(room), LogOf(h, room), clock);
        Wait(limits, r.At(room), LogOf(h, room), clock, now, next.nextOrder);
        PutElsewhere(r, op.room, next, room);
      }
    }
  }

  lemma {:induction false} RunsAgree(limits: ValidLimits, r: Registry, h: History, clock: real, ops: seq<Op>)
    requires AllAgree(limits, r, h, clock) && TimelyRun(ops, clock)
    ensures RegistryRun(limits, r, ops) == HistoryRun(limits, h, ops)
    decreases |ops|
  {
    if ops != [] {
      var op := ops[0];
      PutAgrees(limits, r, h, clock, op);
      var next, log := RoomStep(limits, r.At(op.room), op).0, LogStep(limits, LogOf(h, op.room), op).0;
      RunsAgree(limits, r.Put(op.room, next), h[op.room := log], ClockAfter(op, clock), ops[1..]);
    }
  }

  const EMPTY := Registry(map[], map[], 0)

  /** On every run from an empty registry, the cache answers as the full history does. */
  lemma RegistryRefinesHistory(limits: ValidLimits, clock: real, ops: seq<Op>)
    requires TimelyRun(ops, clock)
    ensures RegistryRun(limits, EMPTY, ops) == HistoryRun(limits, map[], ops)
  {
    assert AllAgree(limits, EMPTY, map[], clock);
    RunsAgree(limits, EMPTY, map[], clock, ops);
  }

  lemma UnissuedStep(limits: Limits, log: RoomLog, op: Op, token: string)
    requires Last(log.uses, token) == -1 && !(op.IssueToken? && op.token == token)
    ensures Last(LogStep(limits, log, op).0.uses, token) == -1
    ensures op.Validate? && op.token == token ==> LogStep(limits, log, op).1 == Admitted(None)
    ensures op.MarkSynchronized? && op.token == token ==> LogStep(limits, log, op).1 == Marked(false)
  {
    if op.IssueToken? {
      LastAfterUse(log.uses, Use(op.token, op.addedAt));
    } else if op.Validate? {
      LastAfterUse(log.uses, Use(op.token, op.now));
    }
  }

  /** A token with no use in the log, as after a retirement, is refused until it is issued. */
  lemma {:induction false} UnissuedIsRefused(limits: Limits, h: History, ops: seq<Op>, room: string, token: string)
    requires Last(LogOf(h, room).uses, token) == -1
    requires forall k :: 0 <= k < |ops| ==> !(ops[k].IssueToken? && ops[k].room == room && ops[k].token == token)
    ensures |HistoryRun(limits, h, ops)| == |ops|
    ensures forall k :: 0 <= k < |ops| && ops[k].room == room ==>
              && (ops[k].Validate? && ops[k].token == token ==> HistoryRun(limits, h, ops)[k] == Admitted(None))
              && (ops[k].MarkSynchronized? && ops[k].token == token ==> HistoryRun(limits, h, ops)[k] == Marked(false))
    decreases |ops|
  {
    if ops != [] {
      var op := ops[0];
      var next := LogStep(limits, LogOf(h, op.room), op).0;
      if op.room == room {
        UnissuedStep(limits, LogOf(h, room), op, token);
      }
      hide LogStep, Last;
      UnissuedIsRefused(limits, h[op.room := next], ops[1..], room, token);
    }
  }

  /** Retiring a room voids its tokens for good: whatever follows, none is honoured unless issued again. */
  lemma {:induction false} RetiredTokensStayVoid(limits: ValidLimits, r: Registry, h: History, clock: real, room: string, ops: seq<Op>,
                              token: string, k: nat)
    requires AllAgree(limits, r, h, clock) && TimelyRun(ops, clock) && k < |ops|
    requires forall i :: 0 <= i < |ops| ==> !(ops[i].IssueToken? && ops[i].room == room && ops[i].token == token)
    requires ops[k].Validate? && ops[k].room == room && ops[k].token == token
    ensures var answers := RegistryRun(limits, r, [Retire(room)] + ops);
            |answers| == |ops| + 1 && answers[k + 1] == Admitted(None)
  {
    var whole := [Op.Retire(room)] + ops;
    assert whole[1..] == ops;
    RunsAgree(limits, r, h, clock, whole);
    UnissuedIsRefused(limits, h[room := NOTHING], ops, room, token);
  }

  // ---------------------------------------------------------------------------------------------
  // The registry class
  // ---------------------------------------------------------------------------------------------

  class RoomEpochRegistry {
    const limits: ValidLimits
    const serverInstanceId: string
    var roomEpochs: map<string, string>
    var tokensByRoom: map<string, Tokens>
    var nextTokenAccessOrder: nat

    function State(): Registry
      reads this
    {
      Registry(roomEpochs, tokensByRoom, nextTokenAccessOrder)
    }

    /** Access orders are handed out once, and a room without tokens has no entry. */
    ghost predicate Valid()
      reads this
    {
      forall room :: room in tokensByRoom ==>
        tokensByRoom[room] != map[] && DistinctOrders(tokensByRoom[room]) && OrdersBelow(tokensByRoom[room], nextTokenAccessOrder)
    }

    constructor (limits: ValidLimits, serverInstanceId: string)
      ensures Valid() && State() == EMPTY
      ensures this.limits == limits && this.serverInstanceId == serverInstanceId
    {
      this.limits, this.serverInstanceId := limits, serverInstanceId;
      roomEpochs, tokensByRoom, nextTokenAccessOrder := map[], map[], 0;
    }

    /** Deletes the expired tokens of a room, one by one. */
    static method DeleteExpired(tokens: Tokens, now: real, ttl: real) returns (kept: Tokens)
      ensures kept == Unexpired(tokens, now, ttl)
    {
      kept := tokens;
      var pending := tokens.Keys;
      while pending != {}
        invariant pending <= tokens.Keys
        invariant kept == map t | t in tokens && (t in pending || now - tokens[t].lastUsedAt < ttl) :: tokens[t]
        decreases |pending|
      {
        var t :| t in pending;
        pending := pending - {t};
        if now - tokens[t].lastUsedAt >= ttl {
          kept := kept - {t};
        }
      }
    }

    /** The token with the smallest access order. */
    static method FindOldest(tokens: Tokens) returns (oldest: string)
      requires tokens.Keys != {} && DistinctOrders(tokens)
      ensures oldest in tokens && forall t :: t in tokens && t != oldest ==> tokens[oldest].lastAccessOrder < tokens[t].lastAccessOrder
    {
      oldest :| oldest in tokens.Keys;
      var oldestOrder: Option<nat> := None;
      var pending := tokens.Keys;
      while pending != {}
        invariant pending <= tokens.Keys && oldest in tokens
        invariant oldestOrder.Some? ==> oldestOrder.value == tokens[oldest].lastAccessOrder
        invariant oldestOrder.None? ==> pending == tokens.Keys
        invariant forall t :: t in tokens && t !in pending ==> oldestOrder.Some? && oldestOrder.value <= tokens[t].lastAccessOrder
        decreases |pending|
      {
        var t :| t in pending;
        pending := pending - {t};
        if oldestOrder.None? || tokens[t].lastAccessOrder < oldestOrder.value {
          oldest, oldestOrder := t, Some(tokens[t].lastAccessOrder);
        }
      }
    }

    /** Deletes the least recently used tokens until no more than `max` are left. */
    static method DeleteOldest(tokens: Tokens, max: nat) returns (kept: Tokens)
      requires DistinctOrders(tokens)
      ensures kept == Newest(tokens, max)
    {
      kept := tokens;
      while |kept| > max
        invariant DistinctOrders(kept) && kept.Keys <= tokens.Keys && forall t :: t in kept ==> kept[t] == tokens[t]
        invariant forall t, u :: t in kept && u in tokens && u !in kept ==> tokens[u].lastAccessOrder < tokens[t].lastAccessOrder
        invariant kept.Keys != tokens.Keys ==> |kept| >= max
        decreases |kept|
      {
        var oldest := FindOldest(kept);
        var rest := kept - {oldest};
        assert rest.Keys == kept.Keys - {oldest};
        kept := rest;
      }
      OldestDropped(tokens, kept, max);
    }

    /** Writes the tokens of a room that was just stored. */
    method SetRoomTokens(ghost before: Registry, room: string, ghost stored: Room, roomTokens: Tokens, nextOrder: nat)
      requires Valid() && State() == before.Put(room, stored) && stored.nextOrder <= nextOrder
      requires roomTokens.Keys != {} && DistinctOrders(roomTokens) && OrdersBelow(roomTokens, nextOrder)
      modifies this
      ensures Valid() && State() == before.Put(room, Room(stored.epoch, roomTokens, nextOrder))
    {
      assert roomTokens != map[];
      PutTokens(before, room, stored, roomTokens, nextOrder);
      tokensByRoom := tokensByRoom[room := roomTokens];
      nextTokenAccessOrder := nextOrder;
    }

    method PruneTokens(room: string, now: real)
      requires Valid()
      modifies `tokensByRoom
      ensures Valid()
      ensures State() == old(State()).Put(room, old(State()).At(room).Prune(limits, now))
    {
      if room !in tokensByRoom {
        assert State().At(room).Prune(limits, now).tokens == map[];
        return;
      }
      var kept := DeleteExpired(tokensByRoom[room], now, limits.ttl);
      kept := DeleteOldest(kept, limits.maxTokens);
      tokensByRoom := if kept == map[] then tokensByRoom - {room} else tokensByRoom[room := kept];
    }

    /** The epoch of a room, minting `newEpoch` when it has none. */
    method IssueEpoch(room: string, now: real, newEpoch: string) returns (epoch: string)
      requires Valid()
      modifies this
      ensures Valid()
      ensures State() == old(State()).Put(room, old(State()).At(room).Issue(limits, now, newEpoch))
      ensures State().At(room).epoch == Some(epoch)
    {
      PruneTokens(room, now);
      if room !in roomEpochs || roomEpochs[room] == "" {
        roomEpochs := roomEpochs[room := newEpoch];
      }
      epoch := roomEpochs[room];
    }

    method IssueRoomToken(room: string, stateVector: StateVector, now: real, addedAt: real, newEpoch: string, token: string)
      requires Valid()
      modifies this
      ensures Valid()
      ensures State() == old(State()).Put(room, old(State()).At(room).IssueToken(limits, now, addedAt, newEpoch, token, stateVector))
    {
      hide Pruned, Registry.Put;
      ghost var before := State();
      var epoch := IssueEpoch(room, now, newEpoch);
      ghost var issuedRoom := before.At(room).Issue(limits, now, newEpoch);
      PutPut(before, room, issuedRoom, issuedRoom);
      var roomTokens := if room in tokensByRoom then tokensByRoom[room] else map[];
      var issued := Token(epoch, stateVector, false, addedAt, nextTokenAccessOrder);
      assert OrdersBelow(roomTokens, nextTokenAccessOrder) && DistinctOrders(roomTokens);
      var added := roomTokens[token := issued];
      assert token in added.Keys;
      SetRoomTokens(before, room, issuedRoom, added, nextTokenAccessOrder + 1);
      PutPut(before, room, issuedRoom.Use(token, issued), issuedRoom.Use(token, issued).Prune(limits, addedAt));
      PruneTokens(room, addedAt);
    }

    method ValidateToken(room: string, tokenValue: string, now: real) returns (admission: Option<Admission>)
      requires Valid()
      modifies this
      ensures Valid()
      ensures State() == old(State()).Put(room, old(State()).At(room).Validate(limits, tokenValue, now))
      ensures admission == old(State()).At(room).Validated(limits, tokenValue, now)
    {
      hide Pruned, Registry.Put;
      ghost var before := State();
      PruneTokens(room, now);
      ghost var pruned := before.At(room).Prune(limits, now);
      PutPut(before, room, pruned, pruned);
      if room !in tokensByRoom || tokenValue !in tokensByRoom[room] {
        return None;
      }
      var token := tokensByRoom[room][tokenValue];
      if room !in roomEpochs || roomEpochs[room] == "" || token.roomEpoch != roomEpochs[room] {
        return None;
      }
      var used := token.(lastUsedAt := now, lastAccessOrder := nextTokenAccessOrder);
      SetRoomTokens(before, room, pruned, tokensByRoom[room][tokenValue := used], nextTokenAccessOrder + 1);
      return Some(Admission(token.roomEpoch, token.stateVector, !token.synchronized));
    }

    method MarkTokenSynchronized(room: string, tokenValue: string, now: real) returns (done: bool)
      requires Valid()
      modifies this
      ensures Valid()
      ensures State() == old(State()).Put(room, old(State()).At(room).MarkSynchronized(limits, tokenValue, now))
      ensures done == old(State()).At(room).Prune(limits, now).Knows(tokenValue)
    {
      hide Pruned, Registry.Put;
      ghost var before := State();
      PruneTokens(room, now);
      ghost var pruned := before.At(room).Prune(limits, now);
      PutPut(before, room, pruned, pruned);
      if room !in tokensByRoom || tokenValue !in tokensByRoom[room] {
        return false;
      }
      var token := tokensByRoom[room][tokenValue];
      if room !in roomEpochs || token.roomEpoch != roomEpochs[room] {
        return false;
      }
      var marked := token.(synchronized := true);
      SetRoomTokens(before, room, pruned, tokensByRoom[room][tokenValue := marked], nextTokenAccessOrder);
      return true;
    }

    /** An admission is honoured while its epoch is the active one of this server. */
    method ValidateAdmission(room: string, server: string, epoch: string) returns (honoured: bool)
      ensures honoured <==> server == serverInstanceId && epoch != "" && State().At(room).epoch == Some(epoch)
    {
      return room in roomEpochs && roomEpochs[room] != "" && server == serverInstanceId && epoch == roomEpochs[room];
    }

    method RetireRoom(room: string)
      requires Valid()
      modifies this
      ensures Valid()
      ensures State() == old(State()).Put(room, old(State()).At(room).Retire())
    {
      roomEpochs := roomEpochs - {room};
      tokensByRoom := tokensByRoom - {room};
    }
  }
}
