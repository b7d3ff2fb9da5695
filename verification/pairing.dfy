/**
 * The pairing engine shared by both matchmaking services: the rating window
 * of an entry, the filter a pair must pass, the score that ranks surviving
 * pairs, and the scan that picks the pair `tryMatch` finalises.
 *
 * `tryMatch` collects every surviving pair (i, j), i < j, in enumeration
 * order and sorts them with a stable sort by (ratingDiff, volatilityDiff,
 * latencyDiff, earliest join); the pair it finalises is the first element.
 * Under a stable sort that is the FIRST pair, in enumeration order, whose
 * score is minimal: `IsFirstMinimal` below.
 */
module Pairing {
  import opened MatchTypes

  /** Hard ceiling on the rating gap of a pair, whatever the windows say. */
  const MaxRatingGap: real := 350.0

  function Abs(x: real): real {
    if x < 0.0 then -x else x
  }

  /** `computeWindow`: the rating interval an entry currently accepts. */
  function ComputeWindow(e: QueueEntry): (r: RatingRange)
    ensures r.max - r.min == 2.0 * e.currentWindow
    ensures r.min + r.max == 2.0 * e.rating
  {
    RatingRange(e.rating - e.currentWindow, e.rating + e.currentWindow)
  }

  predicate Overlap(a: QueueEntry, b: QueueEntry) {
    var wa := ComputeWindow(a);
    var wb := ComputeWindow(b);
    wa.min <= wb.max && wb.min <= wa.max
  }

  /** Two windows overlap exactly when the rating gap is at most the sum of the half-widths. */
  lemma OverlapIffWithinWindows(a: QueueEntry, b: QueueEntry)
    ensures Overlap(a, b) <==> Abs(a.rating - b.rating) <= a.currentWindow + b.currentWindow
  {
  }

  /**
   * The filter of the pair loop. `excludeSameUser` is the compiled variant's
   * extra `a.userId === b.userId` check; the TypeScript variant runs without it.
   */
  predicate Candidate(a: QueueEntry, b: QueueEntry, excludeSameUser: bool) {
    && !a.antiCheatOnCooldown
    && !b.antiCheatOnCooldown
    && (excludeSameUser ==> a.userId != b.userId)
    && Overlap(a, b)
    && Abs(a.rating - b.rating) <= MaxRatingGap
  }

  /** The ranking key of a candidate pair. */
  datatype Score = Score(ratingDiff: real, volatilityDiff: real, latencyDiff: real, earliestJoin: int)

  function ScoreOf(a: QueueEntry, b: QueueEntry): Score {
    Score(
      Abs(a.rating - b.rating),
      Abs(a.volatility - b.volatility),
      Abs(a.latencyMs - b.latencyMs),
      if a.joinTimestamp <= b.joinTimestamp then a.joinTimestamp else b.joinTimestamp)
  }

  /** The sort comparator's "strictly before": lexicographic on the four keys. */
  predicate Better(s: Score, t: Score) {
    || s.ratingDiff < t.ratingDiff
    || (s.ratingDiff == t.ratingDiff && s.volatilityDiff < t.volatilityDiff)
    || (s.ratingDiff == t.ratingDiff && s.volatilityDiff == t.volatilityDiff && s.latencyDiff < t.latencyDiff)
    || (s.ratingDiff == t.ratingDiff && s.volatilityDiff == t.volatilityDiff && s.latencyDiff == t.latencyDiff
        && s.earliestJoin < t.earliestJoin)
  }

  /** x strictly before y, y not strictly after z ... : x is strictly before z. */
  lemma BetterThenNotBetter(x: Score, y: Score, z: Score)
    requires Better(x, y) && !Better(z, y)
    ensures Better(x, z)
  {
  }

  /** (k, l) comes before (i, j) in the loop's enumeration order. */
  predicate EnumeratedBefore(k: int, l: int, i: int, j: int) {
    k < i || (k == i && l < j)
  }

  predicate IsPair(pool: seq<QueueEntry>, i: int, j: int) {
    0 <= i < j < |pool|
  }

  ghost predicate HasCandidate(pool: seq<QueueEntry>, excludeSameUser: bool) {
    exists i, j :: IsPair(pool, i, j) && Candidate(pool[i], pool[j], excludeSameUser)
  }

  /**
   * (i, j) is a candidate, no candidate has a strictly better score, and every
   * candidate enumerated before it has a strictly worse score: the head of the
   * stably sorted candidate list.
   */
  ghost predicate IsFirstMinimal(pool: seq<QueueEntry>, excludeSameUser: bool, i: int, j: int) {
    && IsPair(pool, i, j)
    && Candidate(pool[i], pool[j], excludeSameUser)
    && (forall k, l :: IsPair(pool, k, l) && Candidate(pool[k], pool[l], excludeSameUser) ==>
          !Better(ScoreOf(pool[k], pool[l]), ScoreOf(pool[i], pool[j])))
    && (forall k, l ::
          (IsPair(pool, k, l) && Candidate(pool[k], pool[l], excludeSameUser) && EnumeratedBefore(k, l, i, j)) ==>
          Better(ScoreOf(pool[i], pool[j]), ScoreOf(pool[k], pool[l])))
  }

  /** The loop invariant of `SelectBest`: `IsFirstMinimal` among the pairs enumerated before (i, j). */
  ghost predicate FirstMinimalSoFar(pool: seq<QueueEntry>, excludeSameUser: bool, bi: int, bj: int, i: int, j: int) {
    && IsPair(pool, bi, bj)
    && EnumeratedBefore(bi, bj, i, j)
    && Candidate(pool[bi], pool[bj], excludeSameUser)
    && (forall k, l ::
          (IsPair(pool, k, l) && Candidate(pool[k], pool[l], excludeSameUser) && EnumeratedBefore(k, l, i, j)) ==>
          !Better(ScoreOf(pool[k], pool[l]), ScoreOf(pool[bi], pool[bj])))
    && (forall k, l ::
          (IsPair(pool, k, l) && Candidate(pool[k], pool[l], excludeSameUser) && EnumeratedBefore(k, l, bi, bj)) ==>
          Better(ScoreOf(pool[bi], pool[bj]), ScoreOf(pool[k], pool[l])))
  }

  ghost predicate NoCandidateBefore(pool: seq<QueueEntry>, excludeSameUser: bool, i: int, j: int) {
    forall k, l :: IsPair(pool, k, l) && EnumeratedBefore(k, l, i, j) ==> !Candidate(pool[k], pool[l], excludeSameUser)
  }

  /** Moving past a pair that is not a candidate keeps "no candidate so far". */
  lemma PassNone(pool: seq<QueueEntry>, excludeSameUser: bool, i: int, j: int)
    requires NoCandidateBefore(pool, excludeSameUser, i, j)
    requires IsPair(pool, i, j) ==> !Candidate(pool[i], pool[j], excludeSameUser)
    ensures NoCandidateBefore(pool, excludeSameUser, i, j + 1)
  {
  }

  /** The first candidate met is the best so far. */
  lemma TakeFirst(pool: seq<QueueEntry>, excludeSameUser: bool, i: int, j: int)
    requires NoCandidateBefore(pool, excludeSameUser, i, j)
    requires IsPair(pool, i, j) && Candidate(pool[i], pool[j], excludeSameUser)
    ensures FirstMinimalSoFar(pool, excludeSameUser, i, j, i, j + 1)
  {
  }

  /** A pair that is no candidate, or not strictly better, leaves the best so far in place. */
  lemma Keep(pool: seq<QueueEntry>, excludeSameUser: bool, bi: int, bj: int, i: int, j: int)
    requires FirstMinimalSoFar(pool, excludeSameUser, bi, bj, i, j)
    requires IsPair(pool, i, j) && Candidate(pool[i], pool[j], excludeSameUser) ==>
             !Better(ScoreOf(pool[i], pool[j]), ScoreOf(pool[bi], pool[bj]))
    ensures FirstMinimalSoFar(pool, excludeSameUser, bi, bj, i, j + 1)
  {
  }

  /** A strictly better candidate replaces the best so far. */
  lemma Replace(pool: seq<QueueEntry>, excludeSameUser: bool, bi: int, bj: int, i: int, j: int)
    requires FirstMinimalSoFar(pool, excludeSameUser, bi, bj, i, j)
    requires IsPair(pool, i, j) && Candidate(pool[i], pool[j], excludeSameUser)
    requires Better(ScoreOf(pool[i], pool[j]), ScoreOf(pool[bi], pool[bj]))
    ensures FirstMinimalSoFar(pool, excludeSameUser, i, j, i, j + 1)
  {
    forall k, l | IsPair(pool, k, l) && Candidate(pool[k], pool[l], excludeSameUser) && EnumeratedBefore(k, l, i, j)
      ensures Better(ScoreOf(pool[i], pool[j]), ScoreOf(pool[k], pool[l]))
    {
      BetterThenNotBetter(ScoreOf(pool[i], pool[j]), ScoreOf(pool[bi], pool[bj]), ScoreOf(pool[k], pool[l]));
    }
  }

  /** The pairs enumerated before (i, |pool|) are those enumerated before (i + 1, i + 2). */
  lemma NextRow(pool: seq<QueueEntry>, excludeSameUser: bool, best: Option<(nat, nat)>, i: int)
    requires 0 <= i < |pool|
    requires best.None? ==> NoCandidateBefore(pool, excludeSameUser, i, |pool|)
    requires best.Some? ==> FirstMinimalSoFar(pool, excludeSameUser, best.value.0, best.value.1, i, |pool|)
    ensures best.None? ==> NoCandidateBefore(pool, excludeSameUser, i + 1, i + 2)
    ensures best.Some? ==> FirstMinimalSoFar(pool, excludeSameUser, best.value.0, best.value.1, i + 1, i + 2)
  {
  }

  /**
   * The pair loop and the sort of `tryMatch`: scans all pairs i < j and keeps
   * the first one with a strictly better score than the best so far.
   */
  method SelectBest(pool: seq<QueueEntry>, excludeSameUser: bool) returns (best: Option<(nat, nat)>)
    ensures best.None? <==> !HasCandidate(pool, excludeSameUser)
    ensures best.Some? ==> IsFirstMinimal(pool, excludeSameUser, best.value.0, best.value.1)
  {
    best := None;
    for i := 0 to |pool|
      invariant best.None? ==> NoCandidateBefore(pool, excludeSameUser, i, i + 1)
      invariant best.Some? ==> FirstMinimalSoFar(pool, excludeSameUser, best.value.0, best.value.1, i, i + 1)
    {
      best := ScanRow(pool, excludeSameUser, i, best);
      NextRow(pool, excludeSameUser, best, i);
    }
    if best.None? {
      NoneAtEnd(pool, excludeSameUser);
    } else {
      SomeAtEnd(pool, excludeSameUser, best.value.0, best.value.1);
    }
  }

  /** The inner loop of `SelectBest`: the pairs (i, j) for j from i + 1 on. */
  method ScanRow(pool: seq<QueueEntry>, excludeSameUser: bool, i: nat, best0: Option<(nat, nat)>)
    returns (best: Option<(nat, nat)>)
    requires i < |pool|
    requires best0.None? ==> NoCandidateBefore(pool, excludeSameUser, i, i + 1)
    requires best0.Some? ==> FirstMinimalSoFar(pool, excludeSameUser, best0.value.0, best0.value.1, i, i + 1)
    ensures best.None? ==> NoCandidateBefore(pool, excludeSameUser, i, |pool|)
    ensures best.Some? ==> FirstMinimalSoFar(pool, excludeSameUser, best.value.0, best.value.1, i, |pool|)
  {
    best := best0;
    for j := i + 1 to |pool|
      invariant best.None? ==> NoCandidateBefore(pool, excludeSameUser, i, j)
      invariant best.Some? ==> FirstMinimalSoFar(pool, excludeSameUser, best.value.0, best.value.1, i, j)
    {
      if Candidate(pool[i], pool[j], excludeSameUser) {
        if best.None? {
          TakeFirst(pool, excludeSameUser, i, j);
          best := Some((i, j));
        } else {
          var bi, bj := best.value.0, best.value.1;
          if Better(ScoreOf(pool[i], pool[j]), ScoreOf(pool[bi], pool[bj])) {
            Replace(pool, excludeSameUser, bi, bj, i, j);
            best := Some((i, j));
          } else {
            Keep(pool, excludeSameUser, bi, bj, i, j);
          }
        }
      } else if best.None? {
        PassNone(pool, excludeSameUser, i, j);
      } else {
        Keep(pool, excludeSameUser, best.value.0, best.value.1, i, j);
      }
    }
  }

  /** With every pair enumerated and no candidate met, the pool has none. */
  lemma NoneAtEnd(pool: seq<QueueEntry>, excludeSameUser: bool)
    requires NoCandidateBefore(pool, excludeSameUser, |pool|, |pool| + 1)
    ensures !HasCandidate(pool, excludeSameUser)
  {
    forall k, l | IsPair(pool, k, l)
      ensures !Candidate(pool[k], pool[l], excludeSameUser)
    {
      assert EnumeratedBefore(k, l, |pool|, |pool| + 1);
    }
  }

  /** With every pair enumerated, the best so far is the head of the sorted list. */
  lemma SomeAtEnd(pool: seq<QueueEntry>, excludeSameUser: bool, bi: int, bj: int)
    requires FirstMinimalSoFar(pool, excludeSameUser, bi, bj, |pool|, |pool| + 1)
    ensures IsFirstMinimal(pool, excludeSameUser, bi, bj)
  {
    forall k, l | IsPair(pool, k, l) && Candidate(pool[k], pool[l], excludeSameUser)
      ensures !Better(ScoreOf(pool[k], pool[l]), ScoreOf(pool[bi], pool[bj]))
    {
      assert EnumeratedBefore(k, l, |pool|, |pool| + 1);
    }
  }

  /** At most one pair is the head of the sorted list: the selection is deterministic. */
  lemma FirstMinimalUnique(pool: seq<QueueEntry>, excludeSameUser: bool, i: int, j: int, k: int, l: int)
    requires IsFirstMinimal(pool, excludeSameUser, i, j)
    requires IsFirstMinimal(pool, excludeSameUser, k, l)
    ensures i == k && j == l
  {
  }

  /** A pool whose only surviving pair is (i, j) is matched as exactly that pair. */
  lemma OnlyCandidateIsSelected(pool: seq<QueueEntry>, excludeSameUser: bool, i: int, j: int)
    requires IsPair(pool, i, j) && Candidate(pool[i], pool[j], excludeSameUser)
    requires forall k, l :: IsPair(pool, k, l) && Candidate(pool[k], pool[l], excludeSameUser) ==> k == i && l == j
    ensures IsFirstMinimal(pool, excludeSameUser, i, j)
  {
  }

  /**
   * Fairness under exact ties: of two candidates equal on the three differences,
   * the one holding the earlier-joined entry wins, wherever it is enumerated.
   */
  lemma EarliestJoinBreaksTies(pool: seq<QueueEntry>, excludeSameUser: bool, i: int, j: int, k: int, l: int)
    requires IsFirstMinimal(pool, excludeSameUser, i, j)
    requires IsPair(pool, k, l) && Candidate(pool[k], pool[l], excludeSameUser)
    requires ScoreOf(pool[k], pool[l]).ratingDiff == ScoreOf(pool[i], pool[j]).ratingDiff
    requires ScoreOf(pool[k], pool[l]).volatilityDiff == ScoreOf(pool[i], pool[j]).volatilityDiff
    requires ScoreOf(pool[k], pool[l]).latencyDiff == ScoreOf(pool[i], pool[j]).latencyDiff
    ensures ScoreOf(pool[i], pool[j]).earliestJoin <= ScoreOf(pool[k], pool[l]).earliestJoin
  {
  }

  /** Every selected pair passes the filter: no cooldown, overlapping windows, gap at most 350. */
  lemma SelectedPairIsCompatible(pool: seq<QueueEntry>, excludeSameUser: bool, i: int, j: int)
    requires IsFirstMinimal(pool, excludeSameUser, i, j)
    ensures !pool[i].antiCheatOnCooldown && !pool[j].antiCheatOnCooldown
    ensures Abs(pool[i].rating - pool[j].rating) <= pool[i].currentWindow + pool[j].currentWindow
    ensures Abs(pool[i].rating - pool[j].rating) <= MaxRatingGap
    ensures excludeSameUser ==> pool[i].userId != pool[j].userId
  {
    OverlapIffWithinWindows(pool[i], pool[j]);
  }
}
