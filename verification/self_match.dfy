/**
 * A user who joins twice. The TypeScript service keeps both entries and
 * pairs them with each other: the game row has the same user as white and
 * black. The compiled service evicts the first entry on the second join and
 * never pairs two entries of one user.
 */
module SelfMatch {
  import opened MatchTypes
  import opened Pairing
  import opened QueueStore
  import opened Matching
  import MatchmakingSrc
  import MatchmakingDist

  /** The same join sent twice (two tabs, or a retry). */
  function TwiceSent(): JoinPayload {
    JoinPayload("u1", "blitz", RatingSnapshot(1500.0, 350.0, 0.06), 40.0, None, "fp")
  }

  /** The only store a single entry can form. */
  lemma EntriesOfOnePool(tc: string, p: seq<QueueEntry>)
    ensures forall e :: e in Entries(map[tc := p]) <==> e in p
  {
    forall e | e in p ensures e in Entries(map[tc := p]) {
      EntriesInPool(map[tc := p], tc, e);
    }
  }

  /** Evicting the user of a one-entry store empties its pool. */
  lemma EvictTheOnlyEntry(e: QueueEntry)
    ensures IdsWhere(map[e.timeControl := [e]], ByUser(e.userId)) == {e.queueId}
    ensures DeleteAll(map[e.timeControl := [e]], {e.queueId}) == map[e.timeControl := []]
  {
    EntriesOfOnePool(e.timeControl, [e]);
    assert FilterOut([e], {e.queueId}) == [];
  }

  lemma IdsOfOneEntry(e: QueueEntry)
    ensures Ids(map[e.timeControl := [e]]) == {e.queueId}
  {
    var q := map[e.timeControl := [e]];
    EntriesOfOnePool(e.timeControl, [e]);
    assert e in Entries(q) && KeyOf(e, QueueIdKey) == e.queueId;
  }

  /**
   * As written (TypeScript service): the second join of user u1 is matched
   * against u1's own first entry, and the game row names u1 as both white and
   * black.
   */
  method SrcPairsUserWithThemself() returns (game: GameRecord)
    ensures game.whiteUserId == "u1" && game.blackUserId == "u1"
  {
    var svc := new MatchmakingSrc.MatchmakingService();
    var e1 := NewEntry("s1", TwiceSent(), "q1", 0);
    var e2 := NewEntry("s2", TwiceSent(), "q2", 1000);

    var _, pick1, _ := svc.JoinQueue("s1", TwiceSent(), "q1", 0, "g1", false);
    assert PoolOf(Insert(map[], e1), "blitz") == [e1];
    SmallPoolNoMatch(Insert(map[], e1), "blitz", false, pick1, svc.store.queues);
    assert svc.store.queues == map["blitz" := [e1]];
    assert svc.store.timers == {"q1"} && svc.games == map[];

    var _, pick2, _ := svc.JoinQueue("s2", TwiceSent(), "q2", 1000, "g2", false);
    assert PoolOf(Insert(map["blitz" := [e1]], e2), "blitz") == [e1, e2];
    PairPoolMatches(Insert(map["blitz" := [e1]], e2), "blitz", false, pick2, svc.store.queues);
    assert svc.games == map["g2" := GameFor(e1, e2, false)];
    game := svc.games["g2"];
  }

  /**
   * As intended (compiled service): whatever the store, a match never puts one
   * user on both sides of the board.
   */
  lemma DistGameHasTwoPlayers(q: Pools, tc: string, pick: Option<(nat, nat)>, q': Pools,
                              gameId: string, randomize: bool, games: map<string, GameRecord>,
                              games': map<string, GameRecord>, found: Option<(MatchFoundPayload, MatchFoundPayload)>)
    requires MatchStep(q, tc, true, pick, q')
    requires Finalized(PoolOf(q, tc), pick, gameId, randomize, true, games, games', found)
    requires pick.Some?
    ensures gameId in games' && games'[gameId].whiteUserId != games'[gameId].blackUserId
    ensures found.value.0.opponent.userId != found.value.1.opponent.userId
  {
    ExcludedSameUserNeverMatched(q, tc, pick.value.0, pick.value.1, q');
  }

  /**
   * As intended, concretely: the same two joins on the compiled service leave
   * only the second entry queued and start no game.
   */
  method DistKeepsOnlyTheLatestEntry() returns (queued: set<string>, games: map<string, GameRecord>)
    ensures queued == {"q2"} && games == map[]
  {
    var svc := new MatchmakingDist.MatchmakingService();
    var e1 := NewEntry("s1", TwiceSent(), "q1", 0);
    var e2 := NewEntry("s2", TwiceSent(), "q2", 1000);

    var _, pick1, _ := svc.JoinQueue("s1", TwiceSent(), "q1", 0, "g1", false);
    assert IdsWhere(map[], ByUser("u1")) == {};
    DeleteNothing(map[]);
    assert PoolOf(Insert(map[], e1), "blitz") == [e1];
    SmallPoolNoMatch(Insert(map[], e1), "blitz", true, pick1, svc.store.queues);
    assert svc.store.queues == map["blitz" := [e1]];

    assert svc.games == map[];
    EvictTheOnlyEntry(e1);
    var _, pick2, _ := svc.JoinQueue("s2", TwiceSent(), "q2", 1000, "g2", false);
    assert PoolOf(Insert(map["blitz" := []], e2), "blitz") == [e2];
    SmallPoolNoMatch(Insert(map["blitz" := []], e2), "blitz", true, pick2, svc.store.queues);
    assert svc.store.queues == map["blitz" := [e2]];
    assert svc.games == map[];
    IdsOfOneEntry(e2);
    queued := Ids(svc.store.queues);
    games := svc.games;
  }
}
