/**
 * The TypeScript matchmaking service: join, expansion tick, `tryMatch` and
 * `finalizeMatch` over the shared in-memory store. Leave and disconnect are
 * the store's `LeaveQueue` and `RemoveBySocket`.
 *
 * This variant neither evicts a user's earlier entries on join nor skips
 * same-user pairs, so a user who joins twice can be matched with themself
 * (`SelfMatch.SrcPairsUserWithThemself`).
 *
 * `randomUUID()` is the `queueId`/`gameId` parameters (fresh), `Date.now()`
 * the `now` parameter and `Math.random() < 0.5` the `randomize` parameter.
 * The Redis mirror, the logger and the socket emits are not modelled; the
 * payloads a call emits are its results.
 */
module MatchmakingSrc {
  import opened MatchTypes
  import opened Pairing
  import opened QueueStore
  import opened Matching

  class MatchmakingService {
    const store: MemoryQueue
    /** The persisted game rows, by id. */
    var games: map<string, GameRecord>

    ghost predicate Valid()
      reads this, store
    {
      store.Valid()
    }

    constructor ()
      ensures Valid() && fresh(store)
      ensures store.queues == map[] && store.timers == {} && games == map[]
    {
      store := new MemoryQueue();
      games := map[];
    }

    /**
     * `joinQueue`: queue a new entry, arm its timer, try an immediate match in
     * its pool, and ack with the entry's window.
     */
    method JoinQueue(socketId: string, payload: JoinPayload, queueId: string, now: int, gameId: string, randomize: bool)
      returns (ack: QueuedAck, pick: Option<(nat, nat)>, found: Option<(MatchFoundPayload, MatchFoundPayload)>)
      requires Valid() && queueId !in store.timers && gameId !in games
      modifies this, store
      ensures Valid()
      ensures var e := NewEntry(socketId, payload, queueId, now);
        var q1 := Insert(old(store.queues), e);
        && ack == QueuedAck(queueId, ComputeWindow(e), ExpansionIntervalMs)
        && MatchStep(q1, e.timeControl, false, pick, store.queues)
        && store.timers == old(store.timers) + {queueId} - PickedIds(PoolOf(q1, e.timeControl), pick)
        && Finalized(PoolOf(q1, e.timeControl), pick, gameId, randomize, false, old(games), games, found)
    {
      var e := NewEntry(socketId, payload, queueId, now);
      store.AddToMemoryQueue(e);
      store.ScheduleExpansion(queueId);
      pick, found := TryMatch(e.timeControl, gameId, randomize);
      ack := QueuedAck(queueId, ComputeWindow(e), ExpansionIntervalMs);
    }

    /**
     * `handleExpansionTick`: for an id no longer queued, nothing; for a queued
     * entry, `TickEntry`.
     */
    method HandleExpansionTick(queueId: string, now: int, gameId: string, randomize: bool)
      returns (update: Option<ProgressPayload>, pick: Option<(nat, nat)>, found: Option<(MatchFoundPayload, MatchFoundPayload)>)
      requires Valid() && gameId !in games
      modifies this, store
      ensures Valid()
      ensures Lookup(old(store.queues), queueId).None? ==>
        && update.None? && pick.None? && found.None? && games == old(games)
        && store.queues == old(store.queues) && store.timers == old(store.timers)
      ensures Lookup(old(store.queues), queueId).Some? ==>
        TickOutcome(old(store.queues), old(store.timers), old(games), Lookup(old(store.queues), queueId).value,
                    false, false, now, gameId, randomize, update, pick, found, store.queues, store.timers, games)
    {
      var entry := store.FindEntry(queueId);
      if entry.None? {
        return None, None, None;
      }
      update, pick, found := TickEntry(entry.value, now, gameId, randomize);
    }

    /**
     * The tick body for a queued entry: widen its window in place, report the
     * new range, try a match in its pool and re-arm its timer (even when the
     * entry itself was just matched).
     */
    method TickEntry(e: QueueEntry, now: int, gameId: string, randomize: bool)
      returns (update: Option<ProgressPayload>, pick: Option<(nat, nat)>, found: Option<(MatchFoundPayload, MatchFoundPayload)>)
      requires Valid() && gameId !in games && e in Entries(store.queues)
      modifies this, store
      ensures Valid()
      ensures TickOutcome(old(store.queues), old(store.timers), old(games), e,
                          false, false, now, gameId, randomize, update, pick, found, store.queues, store.timers, games)
    {
      ghost var q0 := store.queues;
      store.ExpandEntry(e);
      ghost var q1 := store.queues;
      assert q1 == Bump(q0, e.queueId);
      update := Some(ProgressPayload(e.queueId, ComputeWindow(Expand(e)), now - e.joinTimestamp));
      pick, found := TryMatch(e.timeControl, gameId, randomize);
      assert MatchStep(q1, e.timeControl, false, pick, store.queues);
      store.ScheduleExpansion(e.queueId);
    }

    /**
     * `tryMatch`: in the pool of `tc`, pick the best surviving pair, if any,
     * and finalise it.
     */
    method TryMatch(tc: string, gameId: string, randomize: bool)
      returns (pick: Option<(nat, nat)>, found: Option<(MatchFoundPayload, MatchFoundPayload)>)
      requires Valid() && gameId !in games
      modifies this, store
      ensures Valid()
      ensures MatchStep(old(store.queues), tc, false, pick, store.queues)
      ensures store.timers == old(store.timers) - PickedIds(PoolOf(old(store.queues), tc), pick)
      ensures Finalized(PoolOf(old(store.queues), tc), pick, gameId, randomize, false, old(games), games, found)
    {
      var pool := if tc in store.queues then store.queues[tc] else [];
      if |pool| < 2 {
        return None, None;
      }
      var best := SelectBest(pool, false);
      if best.None? {
        return None, None;
      }
      var a, b := pool[best.value.0], pool[best.value.1];
      var payloads := FinalizeMatch(a, b, gameId, randomize);
      pick, found := best, Some(payloads);
    }

    /**
     * `finalizeMatch`: remove both entries and their timers, write the game
     * row, and build the two payloads.
     */
    method FinalizeMatch(a: QueueEntry, b: QueueEntry, gameId: string, randomize: bool)
      returns (payloads: (MatchFoundPayload, MatchFoundPayload))
      requires Valid()
      modifies this, store
      ensures Valid()
      ensures store.queues == DeleteAll(old(store.queues), {a.queueId, b.queueId})
      ensures store.timers == old(store.timers) - {a.queueId, b.queueId}
      ensures games == old(games)[gameId := GameFor(a, b, randomize)]
      ensures payloads == MatchPayloads(a, b, gameId, None)
    {
      store.RemovePair(a.queueId, b.queueId);
      games := games[gameId := GameFor(a, b, randomize)];
      payloads := MatchPayloads(a, b, gameId, None);
    }
  }
}
