/**
 * The `queue.join` body as class-validator checks it before the older queue
 * service sees it. Fields arrive already typed (the `IsNumber`/`IsString`
 * type checks are the types of `JoinPayload`); the UUID check is the
 * `isUuid4` parameter. An absent or null `preferredRange` is `None`, which
 * `IsOptional` lets through unchecked.
 */
module JoinValidation {
  import opened MatchTypes
  import opened Pairing
  import opened QueueStore
  import opened Matching

  const MinRating: real := 100.0
  const MaxRating: real := 4000.0

  /** One failed decorator, in property declaration order. */
  datatype Violation =
    | UserIdNotUuid4
    | TimeControlNotAllowed
    | RatingBelowMin
    | RatingAboveMax
    | DeviationNotPositive
    | VolatilityNotPositive
    | LatencyNotPositive
    | PreferredRangeNotPositive

  /** The declarative rules, one conjunct per decorator. */
  predicate ValidSnapshot(r: RatingSnapshot) {
    MinRating <= r.rating <= MaxRating && r.deviation > 0.0 && r.volatility > 0.0
  }

  predicate ValidJoin(p: JoinPayload, isUuid4: string -> bool) {
    && isUuid4(p.userId)
    && p.timeControl in ContractTimeControls
    && ValidSnapshot(p.rating)
    && p.latencyMs > 0.0
    && (p.preferredRange.Some? ==> p.preferredRange.value > 0.0)
  }

  function Check(ok: bool, v: Violation): seq<Violation> {
    if ok then [] else [v]
  }

  /** The nested `RatingSnapshotDto` errors. */
  function SnapshotViolations(r: RatingSnapshot): (v: seq<Violation>)
    ensures v == [] <==> ValidSnapshot(r)
    ensures RatingBelowMin in v <==> r.rating < MinRating
    ensures RatingAboveMax in v <==> r.rating > MaxRating
    ensures DeviationNotPositive in v <==> r.deviation <= 0.0
    ensures VolatilityNotPositive in v <==> r.volatility <= 0.0
  {
    Check(r.rating >= MinRating, RatingBelowMin)
      + Check(r.rating <= MaxRating, RatingAboveMax)
      + Check(r.deviation > 0.0, DeviationNotPositive)
      + Check(r.volatility > 0.0, VolatilityNotPositive)
  }

  /**
   * The errors the validation pipe reports for a join body; the body is
   * accepted exactly when there are none.
   */
  function JoinViolations(p: JoinPayload, isUuid4: string -> bool): (v: seq<Violation>)
    ensures v == [] <==> ValidJoin(p, isUuid4)
    ensures UserIdNotUuid4 in v <==> !isUuid4(p.userId)
    ensures TimeControlNotAllowed in v <==> p.timeControl !in ContractTimeControls
    ensures LatencyNotPositive in v <==> p.latencyMs <= 0.0
    ensures PreferredRangeNotPositive in v <==> p.preferredRange.Some? && p.preferredRange.value <= 0.0
    ensures forall x :: x in SnapshotViolations(p.rating) ==> x in v
  {
    Check(isUuid4(p.userId), UserIdNotUuid4)
      + Check(p.timeControl in ContractTimeControls, TimeControlNotAllowed)
      + SnapshotViolations(p.rating)
      + Check(p.latencyMs > 0.0, LatencyNotPositive)
      + Check(p.preferredRange.None? || p.preferredRange.value > 0.0, PreferredRangeNotPositive)
  }

  /**
   * A body that passes validation names a game time control of its own
   * (not the blitz fallback for unknown names), and the entry it becomes
   * opens a window strictly around its rating. Without a preferred range
   * that window is the rating plus or minus 75, so it lies within
   * [25, 4075].
   */
  lemma ValidJoinOpensWindow(p: JoinPayload, isUuid4: string -> bool, socketId: string, queueId: string, now: int)
    requires ValidJoin(p, isUuid4)
    ensures ContractName(MapTimeControl(p.timeControl)) == p.timeControl
    ensures var w := ComputeWindow(NewEntry(socketId, p, queueId, now));
      w.min < p.rating.rating < w.max
    ensures p.preferredRange.None? ==>
      var w := ComputeWindow(NewEntry(socketId, p, queueId, now));
      && w == RatingRange(p.rating.rating - InitialWindow, p.rating.rating + InitialWindow)
      && MinRating - InitialWindow <= w.min && w.max <= MaxRating + InitialWindow
  {
  }
}
