/**
 * The compiled (newer) matchmaking service. Against the TypeScript variant it
 * evicts a user's earlier entries before queueing a new one, skips pairs of
 * one user, sends the time control in the match payloads, and watches each
 * new game: unless a move arrives first, an abort check fires after 30 s and
 * aborts a game still waiting for its first move.
 *
 * The persisted game rows are the `games` map; the Prisma `updateMany` guard
 * (`status: WAITING_FOR_START`) and the `findUnique` status test are
 * conditions on that map. An abort-timer firing is a call of
 * `CheckAndAbortGame`; the delay a timer was armed with is kept in
 * `abortTimers`.
 */
module MatchmakingDist {
  import opened MatchTypes
  import opened Pairing
  import opened QueueStore
  import opened Matching

  const AbortDelayMs: nat := 30000

  /** The lifecycle of a game row: only a game waiting for its first move changes status. */
  predicate StatusStep(s: GameStatus, t: GameStatus) {
    s == t || s == WaitingForStart
  }

  /** A started or aborted game keeps its status for good. */
  lemma SettledStatusIsFinal(s: GameStatus, t: GameStatus, u: GameStatus)
    requires s != WaitingForStart && StatusStep(s, t) && StatusStep(t, u)
    ensures u == s
  {
  }

  /** The abort-watch table agrees with the game rows: armed exactly for the games still waiting. */
  ghost predicate WatchOk(games: map<string, GameRecord>, abortTimers: map<string, nat>) {
    && (forall g :: g in abortTimers ==> g in games && abortTimers[g] == AbortDelayMs)
    && (forall g :: g in games ==> (games[g].status == WaitingForStart <==> g in abortTimers))
  }

  class MatchmakingService {
    const store: MemoryQueue
    /** The persisted game rows, by id. */
    var games: map<string, GameRecord>
    /** gameId -> delay of its armed abort check. */
    var abortTimers: map<string, nat>

    /** The store invariant, one entry per user, and the abort watch in step with the games. */
    ghost predicate Valid()
      reads this, store
    {
      && store.Valid()
      && UniqueBy(store.queues, UserIdKey)
      && WatchOk(games, abortTimers)
    }

    constructor ()
      ensures Valid() && fresh(store)
      ensures store.queues == map[] && store.timers == {} && games == map[] && abortTimers == map[]
    {
      store := new MemoryQueue();
      games := map[];
      abortTimers := map[];
    }

    /**
     * `joinQueue`: evict the user's queued entries, queue the new one, arm its
     * timer, try an immediate match in its pool, and ack with its window.
     */
    method JoinQueue(socketId: string, payload: JoinPayload, queueId: string, now: int, gameId: string, randomize: bool)
      returns (ack: QueuedAck, pick: Option<(nat, nat)>, found: Option<(MatchFoundPayload, MatchFoundPayload)>)
      requires Valid() && queueId !in store.timers && gameId !in games
      modifies this, store
      ensures Valid()
      ensures var evicted := IdsWhere(old(store.queues), ByUser(payload.userId));
        var e := NewEntry(socketId, payload, queueId, now);
        var q1 := Insert(DeleteAll(old(store.queues), evicted), e);
        && ack == QueuedAck(queueId, ComputeWindow(e), ExpansionIntervalMs)
        && MatchStep(q1, e.timeControl, true, pick, store.queues)
        && store.timers == old(store.timers) - evicted + {queueId} - PickedIds(PoolOf(q1, e.timeControl), pick)
        && Finalized(PoolOf(q1, e.timeControl), pick, gameId, randomize, true, old(games), games, found)
        && abortTimers == if pick.Some? then old(abortTimers)[gameId := AbortDelayMs] else old(abortTimers)
      ensures forall d :: d in Entries(store.queues) && d.userId == payload.userId ==> d.queueId == queueId
    {
      ghost var evicted := IdsWhere(store.queues, ByUser(payload.userId));
      ghost var t0 := store.timers;
      UniqueByDeleteAll(store.queues, evicted, UserIdKey);
      store.RemoveByUser(payload.userId);
      var e := NewEntry(socketId, payload, queueId, now);
      assert e.userId !in AllKeys(store.queues, UserIdKey);
      assert store.timers == t0 - evicted;
      pick, found := Enqueue(e, gameId, randomize);
      ack := QueuedAck(queueId, ComputeWindow(e), ExpansionIntervalMs);
    }

    /**
     * The part of `joinQueue` after the eviction: queue the entry of a user
     * with no queued entry, arm its timer and try a match in its pool.
     */
    method Enqueue(e: QueueEntry, gameId: string, randomize: bool)
      returns (pick: Option<(nat, nat)>, found: Option<(MatchFoundPayload, MatchFoundPayload)>)
      requires Valid() && e.queueId !in store.timers && gameId !in games && WindowOk(e)
      requires e.userId !in AllKeys(store.queues, UserIdKey)
      modifies this, store
      ensures Valid()
      ensures var q1 := Insert(old(store.queues), e);
        && MatchStep(q1, e.timeControl, true, pick, store.queues)
        && store.timers == old(store.timers) + {e.queueId} - PickedIds(PoolOf(q1, e.timeControl), pick)
        && Finalized(PoolOf(q1, e.timeControl), pick, gameId, randomize, true, old(games), games, found)
        && abortTimers == if pick.Some? then old(abortTimers)[gameId := AbortDelayMs] else old(abortTimers)
      ensures forall d :: d in Entries(store.queues) && d.userId == e.userId ==> d == e
    {
      ghost var q0 := store.queues;
      UniqueByInsert(q0, e, UserIdKey);
      store.AddToMemoryQueue(e);
      ghost var q1 := store.queues;
      store.ScheduleExpansion(e.queueId);
      pick, found := TryMatch(e.timeControl, gameId, randomize);
      MatchStepKeepsStore(q1, e.timeControl, true, pick, store.queues);
      OnlyEntryOfUser(q0, e, store.queues);
    }

    /** A store drawn from a user-free store plus the user's new entry holds no other entry of that user. */
    static lemma OnlyEntryOfUser(q0: Pools, e: QueueEntry, q: Pools)
      requires e.userId !in AllKeys(q0, UserIdKey)
      requires Entries(q) <= Entries(q0) + {e}
      ensures forall d :: d in Entries(q) && d.userId == e.userId ==> d == e
    {
      forall d | d in Entries(q) && d.userId == e.userId ensures d == e {
        assert d in Entries(q0) + {e};
      }
    }

    /**
     * `handleExpansionTick`: for an id no longer queued, nothing; for a queued
     * entry, `TickEntry`.
     */
    method HandleExpansionTick(queueId: string, now: int, gameId: string, randomize: bool)
      returns (update: Option<ProgressPayload>, pick: Option<(nat, nat)>, found: Option<(MatchFoundPayload, MatchFoundPayload)>)
      requires Valid() && gameId !in games
      modifies this, store
      ensures Valid()
      ensures Lookup(old(store.queues), queueId).None? ==>
        && update.None? && pick.None? && found.None? && games == old(games) && abortTimers == old(abortTimers)
        && store.queues == old(store.queues) && store.timers == old(store.timers)
      ensures Lookup(old(store.queues), queueId).Some? ==>
        TickOutcome(old(store.queues), old(store.timers), old(games), Lookup(old(store.queues), queueId).value,
                    true, true, now, gameId, randomize, update, pick, found, store.queues, store.timers, games)
      ensures abortTimers == if pick.Some? then old(abortTimers)[gameId := AbortDelayMs] else old(abortTimers)
    {
      var entry := store.FindEntry(queueId);
      if entry.None? {
        return None, None, None;
      }
      update, pick, found := TickEntry(entry.value, now, gameId, randomize);
    }

    /**
     * The tick body for a queued entry: widen its window in place, report the
     * new range, try a match in its pool and re-arm its timer.
     */
    method TickEntry(e: QueueEntry, now: int, gameId: string, randomize: bool)
      returns (update: Option<ProgressPayload>, pick: Option<(nat, nat)>, found: Option<(MatchFoundPayload, MatchFoundPayload)>)
      requires Valid() && gameId !in games && e in Entries(store.queues)
      modifies this, store
      ensures Valid()
      ensures TickOutcome(old(store.queues), old(store.timers), old(games), e,
                          true, true, now, gameId, randomize, update, pick, found, store.queues, store.timers, games)
      ensures abortTimers == if pick.Some? then old(abortTimers)[gameId := AbortDelayMs] else old(abortTimers)
    {
      ghost var q0 := store.queues;
      UniqueByBump(q0, e.queueId, UserIdKey);
      store.ExpandEntry(e);
      ghost var q1 := store.queues;
      assert q1 == Bump(q0, e.queueId);
      update := Some(ProgressPayload(e.queueId, ComputeWindow(Expand(e)), now - e.joinTimestamp));
      pick, found := TryMatch(e.timeControl, gameId, randomize);
      assert MatchStep(q1, e.timeControl, true, pick, store.queues);
      store.ScheduleExpansion(e.queueId);
    }

    /**
     * `tryMatch` with the same-user filter: in the pool of `tc`, pick the best
     * surviving pair, if any, and finalise it.
     */
    method TryMatch(tc: string, gameId: string, randomize: bool)
      returns (pick: Option<(nat, nat)>, found: Option<(MatchFoundPayload, MatchFoundPayload)>)
      requires Valid() && gameId !in games
      modifies this, store
      ensures Valid()
      ensures MatchStep(old(store.queues), tc, true, pick, store.queues)
      ensures store.timers == old(store.timers) - PickedIds(PoolOf(old(store.queues), tc), pick)
      ensures Finalized(PoolOf(old(store.queues), tc), pick, gameId, randomize, true, old(games), games, found)
      ensures abortTimers == if pick.Some? then old(abortTimers)[gameId := AbortDelayMs] else old(abortTimers)
    {
      var pool := if tc in store.queues then store.queues[tc] else [];
      if |pool| < 2 {
        return None, None;
      }
      var best := SelectBest(pool, true);
      if best.None? {
        return None, None;
      }
      var a, b := pool[best.value.0], pool[best.value.1];
      ghost var q0 := store.queues;
      UniqueByDeleteAll(q0, {a.queueId, b.queueId}, UserIdKey);
      var payloads := FinalizeMatch(a, b, gameId, randomize);
      pick, found := best, Some(payloads);
    }

    /**
     * `finalizeMatch`: remove both entries and their timers, write the game
     * row, build the two payloads (with the first entry's time control), and
     * arm the game's abort watch.
     */
    method FinalizeMatch(a: QueueEntry, b: QueueEntry, gameId: string, randomize: bool)
      returns (payloads: (MatchFoundPayload, MatchFoundPayload))
      requires Valid() && gameId !in games
      modifies this, store
      ensures store.Valid() && WatchOk(games, abortTimers)
      ensures store.queues == DeleteAll(old(store.queues), {a.queueId, b.queueId})
      ensures store.timers == old(store.timers) - {a.queueId, b.queueId}
      ensures games == old(games)[gameId := GameFor(a, b, randomize)]
      ensures abortTimers == old(abortTimers)[gameId := AbortDelayMs]
      ensures payloads == MatchPayloads(a, b, gameId, Some(a.timeControl))
    {
      store.RemovePair(a.queueId, b.queueId);
      games := games[gameId := GameFor(a, b, randomize)];
      payloads := MatchPayloads(a, b, gameId, Some(a.timeControl));
      ScheduleAbortCheck(gameId, AbortDelayMs);
    }

    /** Arms (or re-arms) the game's abort check. */
    method ScheduleAbortCheck(gameId: string, delayMs: nat)
      modifies this`abortTimers
      ensures abortTimers == old(abortTimers)[gameId := delayMs]
    {
      abortTimers := abortTimers[gameId := delayMs];
    }

    /**
     * `handleMove`: the first move of a watched game disarms the watch and
     * starts a waiting game; with no watch armed nothing happens.
     */
    method HandleMove(gameId: string)
      requires Valid()
      modifies this`abortTimers, this`games
      ensures Valid()
      ensures gameId !in old(abortTimers) ==> games == old(games) && abortTimers == old(abortTimers)
      ensures gameId in old(abortTimers) ==>
        && abortTimers == old(abortTimers) - {gameId}
        && games == old(games)[gameId := old(games)[gameId].(status := InProgress)]
      ensures games.Keys == old(games).Keys
      ensures forall g :: g in old(games) ==> StatusStep(old(games)[g].status, games[g].status)
    {
      if gameId in abortTimers {
        abortTimers := abortTimers - {gameId};
        if gameId in games && games[gameId].status == WaitingForStart {
          games := games[gameId := games[gameId].(status := InProgress)];
        }
      }
    }

    /**
     * `checkAndAbortGame`, run when the abort watch fires: a game that exists
     * and still waits for its first move is aborted and its watch dropped;
     * otherwise nothing happens.
     */
    method CheckAndAbortGame(gameId: string) returns (aborted: bool)
      requires Valid()
      modifies this`abortTimers, this`games
      ensures Valid()
      ensures aborted <==> gameId in old(games) && old(games)[gameId].status == WaitingForStart
      ensures aborted ==>
        && games == old(games)[gameId := old(games)[gameId].(status := Aborted)]
        && abortTimers == old(abortTimers) - {gameId}
      ensures !aborted ==> games == old(games) && abortTimers == old(abortTimers)
      ensures games.Keys == old(games).Keys
      ensures forall g :: g in old(games) ==> StatusStep(old(games)[g].status, games[g].status)
    {
      if gameId !in games || games[gameId].status != WaitingForStart {
        return false;
      }
      games := games[gameId := games[gameId].(status := Aborted)];
      abortTimers := abortTimers - {gameId};
      return true;
    }
  }
}
