/**
 * The older queue service: one map of searches, no pairing. Each search
 * widens a range symmetric about 0 every 5 s and reports it through the
 * caller's progress callback; `cancel` drops a search and its timer.
 *
 * Every search has its own pending timeout while it is in the map; the
 * model keeps the ids with a pending timeout in `armed`. A timeout firing is
 * a call of `ExpansionTick`, whose result is what the callback receives.
 */
module GameSearch {
  import opened MatchTypes

  const BaseRange: real := 75.0
  const RangeDelta: real := 25.0
  const ExpansionIntervalMs: nat := 5000

  datatype Search = Search(
    queueId: string,
    createdAt: int,
    payload: JoinPayload,
    ratingRange: RatingRange,
    expansionStep: nat)

  /**
   * `buildRange`: the range after `step` expansions, from the preferred
   * range (75 when absent), as a range about 0.
   */
  function BuildRange(payload: JoinPayload, step: nat): (r: RatingRange)
    ensures r.min == -r.max
    ensures r.max == payload.preferredRange.GetOr(BaseRange) + (step as real) * RangeDelta
  {
    var total := payload.preferredRange.GetOr(BaseRange) + (step as real) * RangeDelta;
    RatingRange(-total, total)
  }

  function Width(r: RatingRange): real {
    r.max - r.min
  }

  /** Each expansion widens the range by 50 (25 on each side). */
  lemma ExpansionWidens(payload: JoinPayload, step: nat)
    ensures Width(BuildRange(payload, step + 1)) == Width(BuildRange(payload, step)) + 2.0 * RangeDelta
  {
  }

  /** The range never narrows as the step grows. */
  lemma {:induction false} WidthMonotone(payload: JoinPayload, s1: nat, s2: nat)
    requires s1 <= s2
    ensures Width(BuildRange(payload, s1)) <= Width(BuildRange(payload, s2))
    decreases s2 - s1
  {
    if s1 < s2 {
      ExpansionWidens(payload, s1);
      WidthMonotone(payload, s1 + 1, s2);
    }
  }

  class GameService {
    var searches: map<string, Search>
    /** Ids with a pending expansion timeout. */
    var armed: set<string>

    /** Each search is filed under its own id, carries the range of its step, and has a pending timeout. */
    ghost predicate Valid()
      reads this
    {
      && armed == searches.Keys
      && (forall id :: id in searches ==>
            searches[id].queueId == id
            && searches[id].ratingRange == BuildRange(searches[id].payload, searches[id].expansionStep))
    }

    constructor ()
      ensures Valid() && searches == map[]
    {
      searches := map[];
      armed := {};
    }

    /** `enqueue`: file a new search at step 0 with its initial range and arm its timeout. */
    method Enqueue(payload: JoinPayload, queueId: string, now: int) returns (ack: QueuedAck)
      requires Valid() && queueId !in searches
      modifies this
      ensures Valid()
      ensures searches == old(searches)[queueId := Search(queueId, now, payload, BuildRange(payload, 0), 0)]
      ensures ack == QueuedAck(queueId, BuildRange(payload, 0), ExpansionIntervalMs)
    {
      var initialRange := BuildRange(payload, 0);
      searches := searches[queueId := Search(queueId, now, payload, initialRange, 0)];
      armed := armed + {queueId};
      ack := QueuedAck(queueId, initialRange, ExpansionIntervalMs);
    }

    /**
     * `cancel`: false and no change for an unknown id; otherwise the search
     * and its timeout are dropped and the result is true, so cancelling the
     * same id again yields false.
     */
    method Cancel(queueId: string) returns (cancelled: bool)
      requires Valid()
      modifies this
      ensures Valid()
      ensures cancelled <==> queueId in old(searches)
      ensures searches == old(searches) - {queueId} && queueId !in searches
      ensures !cancelled ==> searches == old(searches) && armed == old(armed)
    {
      if queueId !in searches {
        return false;
      }
      armed := armed - {queueId};
      searches := searches - {queueId};
      return true;
    }

    /**
     * A timeout firing: nothing for a search no longer in the map; otherwise
     * its step goes up by one, its range is rebuilt and reported with the
     * elapsed time, and the timeout is re-armed.
     */
    method ExpansionTick(queueId: string, now: int) returns (progress: Option<ProgressPayload>)
      requires Valid()
      modifies this
      ensures Valid()
      ensures queueId !in old(searches) ==> progress.None? && searches == old(searches)
      ensures queueId in old(searches) ==>
        var s := old(searches)[queueId];
        var s' := s.(expansionStep := s.expansionStep + 1, ratingRange := BuildRange(s.payload, s.expansionStep + 1));
        && searches == old(searches)[queueId := s']
        && progress == Some(ProgressPayload(queueId, s'.ratingRange, now - s.createdAt))
        && Width(s'.ratingRange) == Width(s.ratingRange) + 2.0 * RangeDelta
      ensures searches.Keys == old(searches).Keys
    {
      if queueId !in searches {
        return None;
      }
      var s := searches[queueId];
      var step := s.expansionStep + 1;
      var updated := BuildRange(s.payload, step);
      ExpansionWidens(s.payload, s.expansionStep);
      searches := searches[queueId := s.(expansionStep := step, ratingRange := updated)];
      progress := Some(ProgressPayload(s.queueId, updated, now - s.createdAt));
    }
  }
}
