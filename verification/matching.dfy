/**
 * What one `tryMatch` call does to the store, stated once for both service
 * variants, and the two artefacts of `finalizeMatch`: the persisted game row
 * and the two mirrored match-found payloads.
 */
module Matching {
  import opened MatchTypes
  import opened Pairing
  import opened QueueStore

  const InitialFen: string := "startpos"
  const ExpansionIntervalMs: nat := 3000

  /**
   * The entry a join creates: step 0, both windows `preferredRange ?? 75`, no
   * cooldown, the payload's rating snapshot, stamped with the join time.
   */
  function NewEntry(socketId: string, payload: JoinPayload, queueId: string, now: int): (e: QueueEntry)
    ensures WindowOk(e) && e.expansionStep == 0 && !e.antiCheatOnCooldown
    ensures e.baseWindow == payload.preferredRange.GetOr(InitialWindow)
    ensures ToRatingSnapshot(e) == payload.rating && e.latencyMs == payload.latencyMs
    ensures e.queueId == queueId && e.userId == payload.userId && e.timeControl == payload.timeControl
    ensures e.socketId == socketId && e.joinTimestamp == now
  {
    var w := payload.preferredRange.GetOr(InitialWindow);
    QueueEntry(
      queueId, payload.userId, payload.timeControl,
      payload.rating.rating, payload.rating.deviation, payload.rating.volatility,
      payload.latencyMs, now, w, w, 0, false, socketId)
  }

  /** The join ack's range is the entry's window around its rating. */
  lemma JoinRangeIsWindow(socketId: string, payload: JoinPayload, queueId: string, now: int)
    ensures var w := payload.preferredRange.GetOr(InitialWindow);
      ComputeWindow(NewEntry(socketId, payload, queueId, now))
        == RatingRange(payload.rating.rating - w, payload.rating.rating + w)
  {
  }

  /** The queueIds of the pair picked by index in a pool (empty when nothing was picked). */
  function PickedIds(p: seq<QueueEntry>, pick: Option<(nat, nat)>): set<string> {
    if pick.Some? && pick.value.0 < |p| && pick.value.1 < |p| then
      {p[pick.value.0].queueId, p[pick.value.1].queueId}
    else
      {}
  }

  /**
   * One `tryMatch(tc)` step from store q to store q': either the pool of `tc`
   * has no pair surviving the filters and nothing changes (this includes a
   * missing pool and a pool of fewer than two entries), or the head of the
   * stably sorted candidate list is picked and exactly its two entries leave
   * the store.
   */
  ghost predicate MatchStep(q: Pools, tc: string, excludeSameUser: bool, pick: Option<(nat, nat)>, q': Pools) {
    var p := PoolOf(q, tc);
    match pick
    case None => !HasCandidate(p, excludeSameUser) && q' == q
    case Some(ij) => IsFirstMinimal(p, excludeSameUser, ij.0, ij.1) && q' == DeleteAll(q, PickedIds(p, pick))
  }

  /**
   * The game row written and the payloads sent by a step that picked `pick`
   * in pool p; nothing is written or sent when nothing was picked.
   */
  ghost predicate Finalized(p: seq<QueueEntry>, pick: Option<(nat, nat)>, gameId: string, randomize: bool,
                            withTimeControl: bool, games: map<string, GameRecord>,
                            games': map<string, GameRecord>, found: Option<(MatchFoundPayload, MatchFoundPayload)>)
  {
    match pick
    case None => games' == games && found == None
    case Some(ij) =>
      && ij.0 < |p| && ij.1 < |p|
      && games' == games[gameId := GameFor(p[ij.0], p[ij.1], randomize)]
      && found == Some(MatchPayloads(p[ij.0], p[ij.1], gameId,
                                     if withTimeControl then Some(p[ij.0].timeControl) else None))
  }

  /**
   * What an expansion tick for the queued entry e does: report e's widened
   * window, run one match step in e's pool on the widened store, and re-arm
   * e's timer (even when e itself was just matched).
   */
  ghost predicate TickOutcome(q: Pools, timers: set<string>, games: map<string, GameRecord>, e: QueueEntry,
                              excludeSameUser: bool, withTimeControl: bool,
                              now: int, gameId: string, randomize: bool,
                              update: Option<ProgressPayload>, pick: Option<(nat, nat)>,
                              found: Option<(MatchFoundPayload, MatchFoundPayload)>,
                              q': Pools, timers': set<string>, games': map<string, GameRecord>)
  {
    var q1 := Bump(q, e.queueId);
    && update == Some(ProgressPayload(e.queueId, ComputeWindow(Expand(e)), now - e.joinTimestamp))
    && MatchStep(q1, e.timeControl, excludeSameUser, pick, q')
    && timers' == timers - PickedIds(PoolOf(q1, e.timeControl), pick) + {e.queueId}
    && Finalized(PoolOf(q1, e.timeControl), pick, gameId, randomize, withTimeControl, games, games', found)
  }

  /** A pool of fewer than two entries is never matched from. */
  lemma SmallPoolNoMatch(q: Pools, tc: string, excludeSameUser: bool, pick: Option<(nat, nat)>, q': Pools)
    requires |PoolOf(q, tc)| < 2 && MatchStep(q, tc, excludeSameUser, pick, q')
    ensures pick.None? && q' == q
  {
  }

  /** In a pool of two entries that may meet, the step picks those two. */
  lemma PairPoolMatches(q: Pools, tc: string, excludeSameUser: bool, pick: Option<(nat, nat)>, q': Pools)
    requires |PoolOf(q, tc)| == 2 && MatchStep(q, tc, excludeSameUser, pick, q')
    requires Candidate(PoolOf(q, tc)[0], PoolOf(q, tc)[1], excludeSameUser)
    ensures pick == Some((0, 1))
  {
    var p := PoolOf(q, tc);
    assert IsPair(p, 0, 1);
    assert HasCandidate(p, excludeSameUser);
    assert pick.Some?;
    assert IsPair(p, pick.value.0, pick.value.1);
  }

  /** The outcome of a step is determined by the store: there is one first minimal pair. */
  lemma MatchStepDeterministic(q: Pools, tc: string, excludeSameUser: bool,
                               pick1: Option<(nat, nat)>, q1: Pools, pick2: Option<(nat, nat)>, q2: Pools)
    requires MatchStep(q, tc, excludeSameUser, pick1, q1)
    requires MatchStep(q, tc, excludeSameUser, pick2, q2)
    ensures pick1 == pick2 && q1 == q2
  {
    var p := PoolOf(q, tc);
    if pick1.Some? && pick2.Some? {
      FirstMinimalUnique(p, excludeSameUser, pick1.value.0, pick1.value.1, pick2.value.0, pick2.value.1);
    }
  }

  /**
   * A step keeps the store invariant and one-entry-per-user, and the ids it
   * removes are those of the picked pair.
   */
  lemma MatchStepKeepsStore(q: Pools, tc: string, excludeSameUser: bool, pick: Option<(nat, nat)>, q': Pools)
    requires StoreOk(q) && MatchStep(q, tc, excludeSameUser, pick, q')
    ensures StoreOk(q') && Ids(q') == Ids(q) - PickedIds(PoolOf(q, tc), pick)
    ensures Entries(q') <= Entries(q)
    ensures UniqueBy(q, UserIdKey) ==> UniqueBy(q', UserIdKey)
  {
    var ids := PickedIds(PoolOf(q, tc), pick);
    if pick.Some? {
      StoreOkDeleteAll(q, ids);
      IdsDeleteAll(q, ids);
      EntriesDeleteAll(q, ids);
      if UniqueBy(q, UserIdKey) {
        UniqueByDeleteAll(q, ids, UserIdKey);
      }
    }
  }

  /** What a step that picked (i, j) gives: a pair of the pool, and the store without those two ids. */
  lemma PickedStep(q: Pools, tc: string, excludeSameUser: bool, i: nat, j: nat, q': Pools)
    requires MatchStep(q, tc, excludeSameUser, Some((i, j)), q')
    ensures tc in q && i < j < |q[tc]|
    ensures q' == DeleteAll(q, {q[tc][i].queueId, q[tc][j].queueId})
  {
    assert IsPair(PoolOf(q, tc), i, j);
  }

  /** Deleting the ids of two entries of one pool removes exactly those two entries. */
  lemma DeletePairExact(q: Pools, tc: string, i: nat, j: nat)
    requires UniqueBy(q, QueueIdKey) && tc in q && i < j < |q[tc]|
    ensures var a, b := q[tc][i], q[tc][j];
      a in Entries(q) && b in Entries(q) && a != b &&
      Entries(DeleteAll(q, {a.queueId, b.queueId})) == Entries(q) - {a, b}
  {
    var a, b := q[tc][i], q[tc][j];
    var ids := {a.queueId, b.queueId};
    EntriesInPool(q, tc, a);
    EntriesInPool(q, tc, b);
    assert Distinct(q[tc], QueueIdKey);
    assert KeyOf(a, QueueIdKey) != KeyOf(b, QueueIdKey);
    EntriesDeleteAll(q, ids);
    forall e | e in Entries(q) && e.queueId in ids ensures e == a || e == b {
      if e.queueId == a.queueId {
        UniqueEntry(q, QueueIdKey, e, a);
      } else {
        UniqueEntry(q, QueueIdKey, e, b);
      }
    }
  }

  /** A match removes exactly the two matched entries and leaves every other entry untouched. */
  lemma MatchStepRemovesPair(q: Pools, tc: string, excludeSameUser: bool, i: nat, j: nat, q': Pools)
    requires StoreOk(q) && MatchStep(q, tc, excludeSameUser, Some((i, j)), q')
    ensures var p := PoolOf(q, tc);
      p[i] in Entries(q) && p[j] in Entries(q) && p[i] != p[j] &&
      Entries(q') == Entries(q) - {p[i], p[j]}
  {
    PickedStep(q, tc, excludeSameUser, i, j, q');
    DeletePairExact(q, tc, i, j);
  }

  /** With the same-user filter on, a matched pair never belongs to one user. */
  lemma ExcludedSameUserNeverMatched(q: Pools, tc: string, i: nat, j: nat, q': Pools)
    requires MatchStep(q, tc, true, Some((i, j)), q')
    ensures PoolOf(q, tc)[i].userId != PoolOf(q, tc)[j].userId
  {
    SelectedPairIsCompatible(PoolOf(q, tc), true, i, j);
  }

  /**
   * The game row of a match. The coin flip `randomize` makes the second entry
   * white; the persisted time control is the first entry's, mapped to the
   * enum. A new game waits for its first move.
   */
  function GameFor(a: QueueEntry, b: QueueEntry, randomize: bool): (g: GameRecord)
    ensures {g.whiteUserId, g.blackUserId} == {a.userId, b.userId}
    ensures a.userId != b.userId ==> g.whiteUserId != g.blackUserId
    ensures g.timeControl == MapTimeControl(a.timeControl) && g.status == WaitingForStart
    ensures g.initialFen == InitialFen
    ensures var w := if randomize then b else a;
      (g.whiteUserId, g.whiteRating, g.whiteDeviation, g.whiteVolatility) == (w.userId, w.rating, w.deviation, w.volatility)
    ensures var k := if randomize then a else b;
      (g.blackUserId, g.blackRating, g.blackDeviation, g.blackVolatility) == (k.userId, k.rating, k.deviation, k.volatility)
  {
    var white := if randomize then b else a;
    var black := if randomize then a else b;
    GameRecord(
      MapTimeControl(a.timeControl),
      white.userId, black.userId,
      white.rating, black.rating,
      white.deviation, black.deviation,
      white.volatility, black.volatility,
      InitialFen,
      WaitingForStart)
  }

  /** The other coin flip swaps the colours and nothing else. */
  lemma CoinFlipSwapsColours(a: QueueEntry, b: QueueEntry)
    ensures GameFor(a, b, true).whiteUserId == GameFor(a, b, false).blackUserId
    ensures GameFor(a, b, true).blackUserId == GameFor(a, b, false).whiteUserId
    ensures GameFor(a, b, true).whiteRating == GameFor(a, b, false).blackRating
    ensures GameFor(a, b, true).blackRating == GameFor(a, b, false).whiteRating
    ensures GameFor(a, b, true).whiteDeviation == GameFor(a, b, false).blackDeviation
    ensures GameFor(a, b, true).blackDeviation == GameFor(a, b, false).whiteDeviation
    ensures GameFor(a, b, true).whiteVolatility == GameFor(a, b, false).blackVolatility
    ensures GameFor(a, b, true).blackVolatility == GameFor(a, b, false).whiteVolatility
    ensures GameFor(a, b, true).timeControl == GameFor(a, b, false).timeControl
  {
  }

  /** Each player's view of the opponent. */
  function OpponentView(e: QueueEntry): (o: Opponent)
    ensures o.userId == e.userId && o.latencyMs == e.latencyMs
    ensures o.rating.rating == e.rating && o.rating.deviation == e.deviation && o.rating.volatility == e.volatility
  {
    Opponent(e.userId, ToRatingSnapshot(e), e.latencyMs)
  }

  /**
   * The two match-found payloads (for a, for b). `tc` is the time control the
   * compiled variant adds to the payload; the TypeScript variant sends none.
   */
  function MatchPayloads(a: QueueEntry, b: QueueEntry, gameId: string, tc: Option<string>): (r: (MatchFoundPayload, MatchFoundPayload))
    ensures r.0.queueId == a.queueId && r.1.queueId == b.queueId
    ensures r.0.gameId == gameId && r.1.gameId == gameId
    ensures r.0.timeControl == tc && r.1.timeControl == tc
    ensures r.0.initialFen == InitialFen && r.1.initialFen == InitialFen
    ensures r.0.opponent == OpponentView(b) && r.1.opponent == OpponentView(a)
  {
    var forA := MatchFoundPayload(a.queueId, gameId, tc, OpponentView(b), InitialFen);
    (forA, forA.(queueId := b.queueId, opponent := OpponentView(a)))
  }

  /** The payloads are mirror images: swapping the players swaps the payloads. */
  lemma PayloadsMirror(a: QueueEntry, b: QueueEntry, gameId: string, tc: Option<string>)
    ensures MatchPayloads(b, a, gameId, tc) == (MatchPayloads(a, b, gameId, tc).1, MatchPayloads(a, b, gameId, tc).0)
  {
  }
}
