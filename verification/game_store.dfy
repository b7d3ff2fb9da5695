/**
 * The client's queue state (a zustand store): idle -> searching -> matched.
 * Every action overwrites some fields of the store record and leaves the
 * others as they are; `Snapshot` is the whole record, so each action's
 * contract says which fields it sets.
 *
 * The async `joinQueue` is split at its `await`: `JoinQueueStart` is the
 * synchronous first `set`, `JoinQueueSettle` the `set` after the ack arrives
 * or the join fails (the socket wait, the 8 s race and the emit are the
 * outcome parameter). Other actions may run in between.
 */
module GameStore {
  import opened MatchTypes

  datatype QueueStatus = Idle | Searching | Matched

  datatype Side = White | Black

  datatype DiffMove = DiffMove(moveId: string, san: string, player: Side, captured: Option<string>)

  datatype GameStateDiff = GameStateDiff(fen: string, moves: seq<DiffMove>, whiteMs: int, blackMs: int, turn: Side)

  /** How the awaited join ended: with an ack, or with an error (whose message, if it is an `Error`). */
  datatype JoinOutcome = Acked(ack: QueuedAck) | Failed(message: Option<string>)

  const DefaultJoinError: string := "Unable to join queue"

  /** The store record. */
  datatype StoreState = StoreState(
    status: QueueStatus,
    queueId: Option<string>,
    ratingRange: Option<RatingRange>,
    nextExpansionInMs: Option<int>,
    queueError: Option<string>,
    searchElapsedMs: Option<int>,
    currentMatch: Option<MatchFoundPayload>,
    latestDiff: Option<GameStateDiff>)

  /** A queue event is for this client exactly when it names the held queueId. */
  predicate ForHeldQueue(held: Option<string>, queueId: string) {
    held == Some(queueId)
  }

  /** `if (queueId)`: a leave is sent only for a held, non-empty queueId. */
  function LeaveRequest(held: Option<string>): (r: Option<string>)
    ensures r.Some? <==> held.Some? && held.value != ""
    ensures r.Some? ==> r == held
  {
    match held
    case Some(id) => if id != "" then Some(id) else None
    case None => None
  }

  class GameStoreState {
    var status: QueueStatus
    var queueId: Option<string>
    var ratingRange: Option<RatingRange>
    var nextExpansionInMs: Option<int>
    var queueError: Option<string>
    var searchElapsedMs: Option<int>
    var currentMatch: Option<MatchFoundPayload>
    var latestDiff: Option<GameStateDiff>

    function Snapshot(): StoreState
      reads this
    {
      StoreState(status, queueId, ratingRange, nextExpansionInMs, queueError, searchElapsedMs, currentMatch, latestDiff)
    }

    /** Matched is only ever entered together with the match payload. */
    ghost predicate Valid()
      reads this
    {
      status == Matched ==> currentMatch.Some?
    }

    constructor ()
      ensures Valid() && Snapshot() == StoreState(Idle, None, None, None, None, None, None, None)
    {
      status := Idle;
      queueId := None;
      ratingRange := None;
      nextExpansionInMs := None;
      queueError := None;
      searchElapsedMs := None;
      currentMatch := None;
      latestDiff := None;
    }

    /**
     * The first `set` of `joinQueue`: searching, error and range cleared,
     * elapsed 0. The held queueId is not cleared here.
     */
    method JoinQueueStart()
      requires Valid()
      modifies this
      ensures Valid()
      ensures Snapshot() == old(Snapshot()).(status := Searching, queueError := None, ratingRange := None, searchElapsedMs := Some(0))
    {
      status := Searching;
      queueError := None;
      ratingRange := None;
      searchElapsedMs := Some(0);
    }

    /**
     * The `set` after the awaited join: an ack stores its queueId, range and
     * next expansion; a failure returns to idle with the error's message.
     */
    method JoinQueueSettle(outcome: JoinOutcome)
      requires Valid()
      modifies this
      ensures Valid()
      ensures outcome.Acked? ==>
        Snapshot() == old(Snapshot()).(queueId := Some(outcome.ack.queueId),
                                       ratingRange := Some(outcome.ack.ratingRange),
                                       nextExpansionInMs := Some(outcome.ack.nextExpansionInMs))
      ensures outcome.Failed? ==>
        Snapshot() == old(Snapshot()).(status := Idle, queueError := Some(outcome.message.GetOr(DefaultJoinError)))
    {
      match outcome
      case Acked(ack) =>
        queueId := Some(ack.queueId);
        ratingRange := Some(ack.ratingRange);
        nextExpansionInMs := Some(ack.nextExpansionInMs);
      case Failed(message) =>
        status := Idle;
        queueError := Some(message.GetOr(DefaultJoinError));
    }

    /**
     * `cancelQueue`: send a leave for the held queueId (if any, and
     * non-empty), then go idle with the queue fields cleared. The error, the
     * match and the last diff stay.
     */
    method CancelQueue() returns (leave: Option<string>)
      requires Valid()
      modifies this
      ensures Valid()
      ensures leave == LeaveRequest(old(queueId))
      ensures Snapshot() == old(Snapshot()).(status := Idle, queueId := None, ratingRange := None,
                                             nextExpansionInMs := None, searchElapsedMs := None)
    {
      leave := if queueId.Some? && queueId.value != "" then queueId else None;
      status := Idle;
      queueId := None;
      ratingRange := None;
      nextExpansionInMs := None;
      searchElapsedMs := None;
    }

    /** `handleUpdate`: for the held queueId, take the new range and elapsed time; otherwise ignore. */
    method HandleUpdate(payload: ProgressPayload)
      requires Valid()
      modifies this
      ensures Valid()
      ensures !ForHeldQueue(old(queueId), payload.queueId) ==> Snapshot() == old(Snapshot())
      ensures ForHeldQueue(old(queueId), payload.queueId) ==>
        Snapshot() == old(Snapshot()).(ratingRange := Some(payload.ratingRange), searchElapsedMs := Some(payload.elapsedMs))
    {
      if Some(payload.queueId) != queueId {
        return;
      }
      ratingRange := Some(payload.ratingRange);
      searchElapsedMs := Some(payload.elapsedMs);
    }

    /** `setMatched`: for the held queueId, go matched with the payload; otherwise ignore. */
    method SetMatched(payload: MatchFoundPayload)
      requires Valid()
      modifies this
      ensures Valid()
      ensures !ForHeldQueue(old(queueId), payload.queueId) ==> Snapshot() == old(Snapshot())
      ensures ForHeldQueue(old(queueId), payload.queueId) ==>
        Snapshot() == old(Snapshot()).(status := Matched, currentMatch := Some(payload))
    {
      if Some(payload.queueId) != queueId {
        return;
      }
      status := Matched;
      currentMatch := Some(payload);
    }

    /** `handleDiff`: keep a diff only when it is for the current match's game. */
    method HandleDiff(diff: GameStateDiff, gameId: string)
      requires Valid()
      modifies this
      ensures Valid()
      ensures old(currentMatch).Some? && old(currentMatch).value.gameId == gameId ==>
        Snapshot() == old(Snapshot()).(latestDiff := Some(diff))
      ensures !(old(currentMatch).Some? && old(currentMatch).value.gameId == gameId) ==> Snapshot() == old(Snapshot())
    {
      if currentMatch.None? || currentMatch.value.gameId != gameId {
        return;
      }
      latestDiff := Some(diff);
    }
  }

  /**
   * A search that is joined, acked and cancelled ignores the update and the
   * match notification that arrive for it afterwards, and the leave names it.
   */
  method LateEventsAfterCancel(ack: QueuedAck, update: ProgressPayload, found: MatchFoundPayload)
    returns (leave: Option<string>, afterCancel: StoreState, afterEvents: StoreState)
    requires update.queueId == ack.queueId && found.queueId == ack.queueId
    ensures leave == LeaveRequest(Some(ack.queueId))
    ensures afterEvents == afterCancel && afterEvents.status == Idle && afterEvents.currentMatch.None?
  {
    var s := new GameStoreState();
    s.JoinQueueStart();
    s.JoinQueueSettle(Acked(ack));
    leave := s.CancelQueue();
    afterCancel := s.Snapshot();
    s.HandleUpdate(update);
    s.SetMatched(found);
    afterEvents := s.Snapshot();
  }
}
