/**
 * The two rules the socket gateways add in front of the services: the
 * matchmaking gateway refuses a join whose userId differs from the
 * authenticated user's, and the game gateway validates a join body before
 * queueing it and reports `QUEUE_NOT_FOUND` when a leave names no search.
 * Everything else the gateways do is transport.
 */
module Gateways {
  import opened MatchTypes
  import opened Pairing
  import opened QueueStore
  import opened Matching
  import opened JoinValidation
  import GameSearch
  import MatchmakingSrc

  const UserIdMismatch: string := "User ID mismatch"

  datatype GatewayError = GatewayError(code: string, message: string)

  const QueueNotFound: GatewayError := GatewayError("QUEUE_NOT_FOUND", "Unable to cancel matchmaking request.")

  /**
   * The join guard: a socket whose authenticated id is present and
   * non-empty may only join as that user; an unauthenticated socket may
   * join as anyone.
   */
  predicate JoinRefused(authenticated: Option<string>, payloadUserId: string) {
    authenticated.Some? && authenticated.value != "" && payloadUserId != authenticated.value
  }

  /** Exactly the joins that claim another user's id are refused. */
  lemma JoinRefusedIffOtherUser(authenticated: Option<string>, payloadUserId: string)
    ensures !JoinRefused(authenticated, payloadUserId) <==>
      (authenticated.None? || authenticated.value == "" || authenticated.value == payloadUserId)
    ensures JoinRefused(authenticated, payloadUserId) ==> !JoinRefused(authenticated, authenticated.value)
  {
  }

  /**
   * `handleJoin`: a refused join is an error and changes nothing; any other
   * join is the service's `joinQueue`, whose ack it returns.
   */
  method HandleJoin(svc: MatchmakingSrc.MatchmakingService, authenticated: Option<string>, socketId: string,
                    payload: JoinPayload, queueId: string, now: int, gameId: string, randomize: bool)
    returns (reply: Result<QueuedAck, string>, pick: Option<(nat, nat)>,
             found: Option<(MatchFoundPayload, MatchFoundPayload)>)
    requires svc.Valid() && queueId !in svc.store.timers && gameId !in svc.games
    modifies svc, svc.store
    ensures svc.Valid()
    ensures JoinRefused(authenticated, payload.userId) ==>
      && reply == Failure(UserIdMismatch) && pick.None? && found.None?
      && svc.store.queues == old(svc.store.queues) && svc.store.timers == old(svc.store.timers)
      && svc.games == old(svc.games)
    ensures !JoinRefused(authenticated, payload.userId) ==>
      var e := NewEntry(socketId, payload, queueId, now);
      var q1 := Insert(old(svc.store.queues), e);
      && reply == Success(QueuedAck(queueId, ComputeWindow(e), ExpansionIntervalMs))
      && MatchStep(q1, e.timeControl, false, pick, svc.store.queues)
      && svc.store.timers == old(svc.store.timers) + {queueId} - PickedIds(PoolOf(q1, e.timeControl), pick)
      && Finalized(PoolOf(q1, e.timeControl), pick, gameId, randomize, false, old(svc.games), svc.games, found)
  {
    if authenticated.Some? && authenticated.value != "" && payload.userId != authenticated.value {
      return Failure(UserIdMismatch), None, None;
    }
    var ack;
    ack, pick, found := svc.JoinQueue(socketId, payload, queueId, now, gameId, randomize);
    reply := Success(ack);
  }

  /**
   * `handleMatchmakingJoin` behind the validation pipe: an invalid body is
   * refused with its violations and queues nothing; a valid one is filed
   * as the service's `enqueue` files it, at step 0 with its initial range,
   * which is a non-empty interval about 0.
   */
  method HandleMatchmakingJoin(svc: GameSearch.GameService, payload: JoinPayload, isUuid4: string -> bool,
                               queueId: string, now: int)
    returns (reply: Result<QueuedAck, seq<Violation>>)
    requires svc.Valid() && queueId !in svc.searches
    modifies svc
    ensures svc.Valid()
    ensures reply.Failure? <==> !ValidJoin(payload, isUuid4)
    ensures reply.Failure? ==> reply.error == JoinViolations(payload, isUuid4) && svc.searches == old(svc.searches)
    ensures reply.Success? ==>
      && svc.searches == old(svc.searches)[queueId := GameSearch.Search(queueId, now, payload, GameSearch.BuildRange(payload, 0), 0)]
      && reply.value == QueuedAck(queueId, GameSearch.BuildRange(payload, 0), GameSearch.ExpansionIntervalMs)
      && reply.value.ratingRange.min < 0.0 < reply.value.ratingRange.max
  {
    var violations := JoinViolations(payload, isUuid4);
    if violations != [] {
      return Failure(violations);
    }
    var ack := svc.Enqueue(payload, queueId, now);
    reply := Success(ack);
  }

  /**
   * `handleMatchmakingLeave`: cancel the search; when nothing was
   * cancelled, the client gets `QUEUE_NOT_FOUND`.
   */
  method HandleMatchmakingLeave(svc: GameSearch.GameService, queueId: string) returns (error: Option<GatewayError>)
    requires svc.Valid()
    modifies svc
    ensures svc.Valid()
    ensures error.Some? <==> queueId !in old(svc.searches)
    ensures error.Some? ==> error.value == QueueNotFound
    ensures svc.searches == old(svc.searches) - {queueId}
  {
    var cancelled := svc.Cancel(queueId);
    error := if cancelled then None else Some(QueueNotFound);
  }

  /** Leaving the same search twice reports `QUEUE_NOT_FOUND` the second time. */
  method LeaveTwice(payload: JoinPayload, queueId: string, now: int) returns (first: Option<GatewayError>, second: Option<GatewayError>)
    ensures first.None? && second == Some(QueueNotFound)
  {
    var svc := new GameSearch.GameService();
    var _ := svc.Enqueue(payload, queueId, now);
    first := HandleMatchmakingLeave(svc, queueId);
    second := HandleMatchmakingLeave(svc, queueId);
  }
}
