/**
 * Record shapes shared by the matchmaking services, the older search service
 * and the client store: the wire contracts (join payload, acks, progress and
 * match-found payloads) and the in-memory queue entry.
 *
 * JavaScript numbers that are only compared, added and subtracted (ratings,
 * deviations, volatilities, latencies, windows) are `real`; millisecond
 * timestamps are `int`; the expansion step is a `nat`.
 */
module MatchTypes {

  datatype Option<+T> = None | Some(value: T) {
    /** The `??` operator: the value when present, the default otherwise. */
    function GetOr(default: T): T {
      match this
      case Some(v) => v
      case None => default
    }
  }

  datatype Result<+R, +E> = Success(value: R) | Failure(error: E)

  /** The four time controls of the contracts package. */
  const ContractTimeControls: set<string> := {"bullet", "blitz", "rapid", "classical"}

  datatype RatingSnapshot = RatingSnapshot(rating: real, deviation: real, volatility: real)

  datatype RatingRange = RatingRange(min: real, max: real)

  /** `queue.join` payload; the time control is whatever string the client sent. */
  datatype JoinPayload = JoinPayload(
    userId: string,
    timeControl: string,
    rating: RatingSnapshot,
    latencyMs: real,
    preferredRange: Option<real>,
    deviceFingerprint: string)

  datatype QueuedAck = QueuedAck(queueId: string, ratingRange: RatingRange, nextExpansionInMs: nat)

  /** `queue.update` payload (also the older service's progress payload). */
  datatype ProgressPayload = ProgressPayload(queueId: string, ratingRange: RatingRange, elapsedMs: int)

  datatype Opponent = Opponent(userId: string, rating: RatingSnapshot, latencyMs: real)

  /** `queue.matchFound` payload; `timeControl` is only sent by the compiled variant. */
  datatype MatchFoundPayload = MatchFoundPayload(
    queueId: string,
    gameId: string,
    timeControl: Option<string>,
    opponent: Opponent,
    initialFen: string)

  /** One active search in a matchmaking pool. */
  datatype QueueEntry = QueueEntry(
    queueId: string,
    userId: string,
    timeControl: string,
    rating: real,
    deviation: real,
    volatility: real,
    latencyMs: real,
    joinTimestamp: int,
    baseWindow: real,
    currentWindow: real,
    expansionStep: nat,
    antiCheatOnCooldown: bool,
    socketId: string)

  /** The persisted game's time-control enum. */
  datatype GameTimeControl = Bullet | Blitz | Rapid | Classical

  /** The persisted game's lifecycle. */
  datatype GameStatus = WaitingForStart | InProgress | Aborted

  /** The game row written at match finalisation. */
  datatype GameRecord = GameRecord(
    timeControl: GameTimeControl,
    whiteUserId: string,
    blackUserId: string,
    whiteRating: real,
    blackRating: real,
    whiteDeviation: real,
    blackDeviation: real,
    whiteVolatility: real,
    blackVolatility: real,
    initialFen: string,
    status: GameStatus)

  /** The lowercase contract name of a persisted time control. */
  function ContractName(g: GameTimeControl): string {
    match g
    case Bullet => "bullet"
    case Blitz => "blitz"
    case Rapid => "rapid"
    case Classical => "classical"
  }

  /**
   * `mapTimeControl`: the contract name to the persisted enum; anything that
   * is not one of the four names falls back to BLITZ.
   */
  function MapTimeControl(tc: string): (g: GameTimeControl)
    ensures tc in ContractTimeControls ==> ContractName(g) == tc
    ensures tc !in ContractTimeControls ==> g == Blitz
  {
    if tc == "bullet" then Bullet
    else if tc == "blitz" then Blitz
    else if tc == "rapid" then Rapid
    else if tc == "classical" then Classical
    else Blitz
  }

  /** The opponent's public rating snapshot, as sent in a match-found payload. */
  function ToRatingSnapshot(e: QueueEntry): RatingSnapshot
  {
    RatingSnapshot(e.rating, e.deviation, e.volatility)
  }
}
