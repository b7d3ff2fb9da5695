# fluxchess matchmaking, modelled in Dafny

This project models the matchmaking core of fluxchess, a chess server with a web client:

- **The rating-window matchmaking service.** It comes in two variants: the TypeScript source (`MatchmakingSrc`) and the compiled JavaScript that is actually deployed (`MatchmakingDist`). Each time control has a pool of queue entries. Each entry has a rating window that widens by 25 points on every 3-second expansion tick. `tryMatch` looks at every pair in a pool and keeps the pairs that pass the filters:
  - neither entry is on anti-cheat cooldown;
  - the two windows overlap;
  - the rating gap is at most 350;
  - in the compiled variant only, the two entries belong to different users.

  Among the remaining pairs it picks the smallest by rating gap, then volatility gap, then latency gap, then earliest join. That pair leaves the queue and becomes a game row. The compiled variant also evicts a user's earlier entries when the user joins again. It also aborts a game that has no move within 30 seconds.
- **The older search service** (`GameSearch`). It keeps a map of searches whose range, centred on 0, widens every 5 seconds. It has no pairing.
- **The client's queue state** (`GameStore`). The states are idle, searching and matched. The store ignores events for a queue id it no longer holds.
- **The input validators.**
  - `JoinValidation` checks the join body.
  - `RegisterValidation` checks registration.
  - `EnvValidation` checks the server environment.
- **The two gateway rules** (`Gateways`): a join whose user id differs from the authenticated user's is refused, and a leave that cancels nothing is reported as `QUEUE_NOT_FOUND`.

Modules:

| module | file |
|---|---|
| `MatchTypes` | `match_types.dfy`: the wire records, the queue entry, the game row, `mapTimeControl` |
| `Pairing` | `pairing.dfy`: windows, the candidate filter, the score order, the pair scan `SelectBest` |
| `QueueStore` | `queue_store.dfy`: the pools (`map<timeControl, seq<QueueEntry>>`), the class `MemoryQueue` over pools and timers |
| `Matching` | `matching.dfy`: entry creation, one `tryMatch` step as a relation, the game row and the payloads |
| `MatchmakingSrc` | `matchmaking_src.dfy`: the TypeScript service |
| `MatchmakingDist` | `matchmaking_dist.dfy`: the compiled service, with user eviction, the same-user filter and the abort watch |
| `SelfMatch` | `self_match.dfy`: the self-match of the TypeScript variant, and its absence in the compiled one |
| `GameSearch` | `game_search.dfy`: the older search service |
| `GameStore` | `game_store.dfy`: the client store |
| `JoinValidation`, `RegisterValidation`, `EnvValidation` | the validators |
| `Gateways` | `gateways.dfy`: the two gateway rules and their handlers |

How the model represents the source's state and the outside world:

- A JavaScript `Map` keeps insertion order, so a pool is a sequence in insertion order. Removing an entry filters it out by queue id.
- The two services keep their timers in a `Map`. The model keeps the set of ids with a pending timer, and a timer firing is a call of the tick method.
- Fresh `randomUUID()` values are parameters that the caller guarantees are unused.
- `Date.now()` is the `now` parameter.
- `Math.random() < 0.5` is the `randomize` parameter.
- The payloads emitted to sockets are method results.

## Model

| member | source | states |
|---|---|---|
| MatchTypes.MapTimeControl | apps/backend/src/matchmaking/matchmaking.service.ts:377-390 | each of the four contract names maps to the enum value of the same name; any other string maps to BLITZ |
| Pairing.ComputeWindow | apps/backend/src/matchmaking/matchmaking.service.ts:186-191 | the window is centred on the rating and is twice the current half-width wide |
| Pairing.OverlapIffWithinWindows | apps/backend/src/matchmaking/matchmaking.service.ts:243-249 | two windows overlap exactly when the rating gap is at most the sum of the two half-widths |
| Pairing.SelectBest | apps/backend/src/matchmaking/matchmaking.service.ts:232-283 | the nested i<j scan returns nothing exactly when no pair passes the filters; otherwise it returns the pair a stable sort by (rating gap, volatility gap, latency gap, earliest join) puts first: a minimal pair with no equal-scored pair enumerated before it |
| Pairing.ScanRow | apps/backend/src/matchmaking/matchmaking.service.ts:237-258 | one pass of the inner loop over (i, j), j > i, extends "no candidate yet" or "the kept pair is first-minimal among the pairs seen" to the whole row |
| Pairing.FirstMinimalUnique | apps/backend/src/matchmaking/matchmaking.service.ts:265-283 | the head of the sorted candidate list is unique |
| Pairing.OnlyCandidateIsSelected | apps/backend/src/matchmaking/matchmaking.service.ts:261-285 | a pool with a single passing pair matches that pair |
| Pairing.EarliestJoinBreaksTies | apps/backend/src/matchmaking/matchmaking.service.ts:278-280 | among pairs with equal gaps, the selected pair has the earliest join time |
| Pairing.SelectedPairIsCompatible | apps/backend/dist/src/matchmaking/matchmaking.service.js:189-200 | a selected pair has no cooldown, overlapping windows, a gap of at most 350 and, with the same-user filter on, two different users |
| QueueStore.IndexOf | apps/backend/src/matchmaking/matchmaking.service.ts:126 | a found index holds the id; no index means the id is not in the pool |
| QueueStore.FilterOut | apps/backend/src/matchmaking/matchmaking.service.ts:128 | the pool keeps exactly the entries whose id is not removed |
| QueueStore.FilterOutDistinct | apps/backend/src/matchmaking/matchmaking.service.ts:121-128 | removing entries keeps a pool's keys distinct |
| QueueStore.FilterOutAppended | apps/backend/src/matchmaking/matchmaking.service.ts:121-128 | removing an entry that was just added restores the pool |
| QueueStore.FilterOutTwice | apps/backend/src/matchmaking/matchmaking.service.ts:294-295 | two removals equal one removal of both ids |
| QueueStore.EntriesDeleteAll | apps/backend/src/matchmaking/matchmaking.service.ts:124-134 | after deletion the store holds exactly the old entries whose id was not deleted |
| QueueStore.IdsDeleteAll | apps/backend/src/matchmaking/matchmaking.service.ts:124-134 | deletion removes exactly the deleted ids |
| QueueStore.StoreOkDeleteAll | apps/backend/src/matchmaking/matchmaking.service.ts:124-134 | deletion keeps ids unique, entries in the pool of their own time control, and windows consistent |
| QueueStore.DeleteAbsent | apps/backend/src/matchmaking/matchmaking.service.ts:124-134 | deleting an id that is not queued changes no pool |
| QueueStore.StoreOkInsert | apps/backend/src/matchmaking/matchmaking.service.ts:113-122 | adding an entry with a fresh id keeps the store invariant and adds exactly that entry |
| QueueStore.InsertThenDelete | apps/backend/src/matchmaking/matchmaking.service.ts:113-134 | adding then removing a fresh entry restores every pool (the pool of its time control now exists) |
| QueueStore.DeleteWhereExact | apps/backend/src/matchmaking/matchmaking.service.ts:103-111 | removing the ids selected by socket (or user) leaves exactly the entries not selected |
| QueueStore.Expand | apps/backend/src/matchmaking/matchmaking.service.ts:209-211 | a tick raises the step by one and sets the window to the base plus 25 per step, which widens a consistent window by exactly 25 and changes nothing else |
| QueueStore.WindowAfterTicks | apps/backend/src/matchmaking/matchmaking.service.ts:209-211 | after k ticks the step has grown by k and the window by 25·k |
| QueueStore.WindowNeverShrinks | apps/backend/src/matchmaking/matchmaking.service.ts:209-211 | more ticks never give a narrower window |
| QueueStore.StoreOkBump | apps/backend/src/matchmaking/matchmaking.service.ts:203-211 | widening an entry in place keeps the store invariant and the set of ids |
| QueueStore.LookupBump | apps/backend/src/matchmaking/matchmaking.service.ts:203-211 | after widening, the id finds the widened entry |
| QueueStore.MemoryQueue.AddToMemoryQueue | apps/backend/src/matchmaking/matchmaking.service.ts:113-122 | the entry is appended to its time control's pool, which is created when missing |
| QueueStore.MemoryQueue.RemoveFromMemoryQueue | apps/backend/src/matchmaking/matchmaking.service.ts:124-134 | returns the entry with that id, or nothing; the entry leaves its pool and everything else stays |
| QueueStore.MemoryQueue.FindEntry | apps/backend/src/matchmaking/matchmaking.service.ts:175-184 | returns the queued entry with that id, or nothing |
| QueueStore.MemoryQueue.ExpandEntry | apps/backend/src/matchmaking/matchmaking.service.ts:209-211 | the entry is widened in place; the ids are unchanged |
| QueueStore.MemoryQueue.ClearTimer | apps/backend/src/matchmaking/matchmaking.service.ts:166-173 | the id's timer is gone; clearing a missing timer changes nothing |
| QueueStore.MemoryQueue.ScheduleExpansion | apps/backend/src/matchmaking/matchmaking.service.ts:156-164 | the id has exactly one pending timer |
| QueueStore.MemoryQueue.LeaveQueue | apps/backend/src/matchmaking/matchmaking.service.ts:88-101 | the entry and its timer are removed; an unknown id leaves every pool unchanged |
| QueueStore.MemoryQueue.RemovePair | apps/backend/src/matchmaking/matchmaking.service.ts:294-297 | both entries leave their pools (every other entry stays, in order) and both timers are cleared; the store invariant holds afterwards |
| QueueStore.MemoryQueue.RemoveBySocket | apps/backend/src/matchmaking/matchmaking.service.ts:103-111 | every entry of the socket and its timer are removed, and nothing else |
| QueueStore.MemoryQueue.RemoveByUser | apps/backend/dist/src/matchmaking/matchmaking.service.js:70-73 | every entry of the user and its timer are removed, and nothing else |
| Matching.NewEntry | apps/backend/src/matchmaking/matchmaking.service.ts:57-71 | a new entry copies the payload, starts at step 0 off cooldown, with a base and current window equal to the preferred range (75 when absent) |
| Matching.JoinRangeIsWindow | apps/backend/src/matchmaking/matchmaking.service.ts:81-85 | the join ack's range is rating ± the initial window |
| Matching.SmallPoolNoMatch | apps/backend/src/matchmaking/matchmaking.service.ts:227-230 | a missing pool or one of fewer than two entries is never matched from |
| Matching.PairPoolMatches | apps/backend/src/matchmaking/matchmaking.service.ts:236-285 | a pool of two entries that pass the filters always yields that one pair |
| Matching.MatchStepDeterministic | apps/backend/src/matchmaking/matchmaking.service.ts:226-286 | one `tryMatch` step has a single outcome for a given store |
| Matching.MatchStepKeepsStore | apps/backend/src/matchmaking/matchmaking.service.ts:226-297 | a step keeps the store invariant (and one entry per user, when that held), and removes exactly the picked pair's ids |
| Matching.MatchStepRemovesPair | apps/backend/src/matchmaking/matchmaking.service.ts:294-297 | a match removes the two matched entries, which are distinct, and no other |
| Matching.PickedStep | apps/backend/src/matchmaking/matchmaking.service.ts:282-297 | a step that picked (i, j) picked a pair of the pool and removed exactly those two queueIds |
| Matching.DeletePairExact | apps/backend/src/matchmaking/matchmaking.service.ts:294-297 | with unique queueIds, removing two entries of one pool by id removes those two entries and no other |
| Matching.ExcludedSameUserNeverMatched | apps/backend/dist/src/matchmaking/matchmaking.service.js:191-192 | with the same-user filter, the matched entries belong to different users |
| Matching.GameFor | apps/backend/src/matchmaking/matchmaking.service.ts:309-334 | the game row seats the two users, one per colour (distinct when the users differ), each colour carrying the id, rating, deviation and volatility of the entry the coin flip put there; its time control is the first entry's, mapped; it starts waiting at the start position |
| Matching.CoinFlipSwapsColours | apps/backend/src/matchmaking/matchmaking.service.ts:312-314 | the coin flip swaps the colours together with their ratings, deviations and volatilities, and keeps the time control |
| Matching.OpponentView | apps/backend/src/matchmaking/matchmaking.service.ts:342-349 | a player's view of the opponent carries the opponent's id, rating snapshot and latency |
| Matching.MatchPayloads | apps/backend/src/matchmaking/matchmaking.service.ts:336-359 | each player gets their own queue id, the shared game id and start position, and the other player as opponent |
| Matching.PayloadsMirror | apps/backend/src/matchmaking/matchmaking.service.ts:342-359 | swapping the players swaps the two payloads |
| MatchmakingSrc.MatchmakingService.JoinQueue | apps/backend/src/matchmaking/matchmaking.service.ts:50-86 | the new entry is queued with a timer, one match step runs in its pool, any match is written as a game, and the ack carries the new entry's window and the 3 s interval |
| MatchmakingSrc.MatchmakingService.HandleExpansionTick | apps/backend/src/matchmaking/matchmaking.service.ts:202-224 | an unknown id changes nothing; a queued entry is widened and reported, a match step runs, and its timer is re-armed |
| MatchmakingSrc.MatchmakingService.TryMatch | apps/backend/src/matchmaking/matchmaking.service.ts:226-286 | the store moves by exactly one match step without the same-user filter; the picked ids lose their timers, and the game and payloads are those of the picked pair |
| MatchmakingSrc.MatchmakingService.FinalizeMatch | apps/backend/src/matchmaking/matchmaking.service.ts:288-367 | both entries and their timers are removed, the game row is written, and the two payloads are built without a time control |
| MatchmakingDist.MatchmakingService.JoinQueue | apps/backend/dist/src/matchmaking/matchmaking.service.js:41-69 | the user's earlier entries are evicted first; afterwards the new entry is the user's only one, one match step with the same-user filter runs, and a match arms a 30 s abort check |
| MatchmakingDist.MatchmakingService.HandleExpansionTick | apps/backend/dist/src/matchmaking/matchmaking.service.js:160-177 | as in the TypeScript variant, with the same-user filter and the abort check for a match |
| MatchmakingDist.MatchmakingService.TryMatch | apps/backend/dist/src/matchmaking/matchmaking.service.js:178-225 | one match step with the same-user filter; a match arms an abort check for its game |
| MatchmakingDist.MatchmakingService.FinalizeMatch | apps/backend/dist/src/matchmaking/matchmaking.service.js:226-299 | as in the TypeScript variant, with the time control in both payloads and a 30 s abort check armed |
| MatchmakingDist.MatchmakingService.ScheduleAbortCheck | apps/backend/dist/src/matchmaking/matchmaking.service.js:301-306 | the game has an abort check with that delay |
| MatchmakingDist.MatchmakingService.HandleMove | apps/backend/dist/src/matchmaking/matchmaking.service.js:307-323 | with an abort check pending, the check is dropped and a waiting game starts; otherwise nothing changes; no game goes back to waiting |
| MatchmakingDist.MatchmakingService.CheckAndAbortGame | apps/backend/dist/src/matchmaking/matchmaking.service.js:324-342 | only a game still waiting is aborted, and its check dropped; any other call changes nothing |
| MatchmakingDist.SettledStatusIsFinal | apps/backend/dist/src/matchmaking/matchmaking.service.js:312-337 | once a game has started or been aborted, neither a move nor an abort check changes its status |
| SelfMatch.SrcPairsUserWithThemself | apps/backend/src/matchmaking/matchmaking.service.ts:50-86 | one user joining twice with the same body is matched against themself: white and black are the same user |
| SelfMatch.DistGameHasTwoPlayers | apps/backend/dist/src/matchmaking/matchmaking.service.js:191-192 | in the compiled variant a match never seats one user on both sides, and each payload names the other user |
| SelfMatch.DistKeepsOnlyTheLatestEntry | apps/backend/dist/src/matchmaking/matchmaking.service.js:41-73 | the same two joins on the compiled variant leave only the second entry queued and start no game |
| GameSearch.BuildRange | apps/backend/src/game/game.service.ts:103-114 | the range is centred on 0, with half-width equal to the preferred range (75 when absent) plus 25 per step |
| GameSearch.WidthMonotone | apps/backend/src/game/game.service.ts:103-114 | the range never narrows as the step grows |
| GameSearch.GameService.Enqueue | apps/backend/src/game/game.service.ts:30-58 | a fresh search is filed at step 0 with the initial range and an armed timeout; the ack repeats the range and the 5 s interval |
| GameSearch.GameService.Cancel | apps/backend/dist/src/game/game.service.js:40-51 | the result is true exactly when the id was searching; afterwards it is not; an unknown id changes nothing |
| GameSearch.GameService.ExpansionTick | apps/backend/src/game/game.service.ts:81-100 | a cancelled search yields nothing; otherwise the step rises by one, the range widens by 50 and is reported with the elapsed time |
| GameStore.LeaveRequest | apps/frontend/src/state/game/store.ts:76-80 | a leave is sent exactly when a non-empty queue id is held, and it names that id |
| GameStore.GameStoreState.constructor | apps/frontend/src/state/game/store.ts:32 | the store starts idle with nothing held |
| GameStore.GameStoreState.JoinQueueStart | apps/frontend/src/state/game/store.ts:36-41 | searching, error and range cleared, elapsed 0; every other field kept |
| GameStore.GameStoreState.JoinQueueSettle | apps/frontend/src/state/game/store.ts:62-72 | an ack stores its queue id, range and next expansion; a failure returns to idle with the error's message, or "Unable to join queue" |
| GameStore.GameStoreState.CancelQueue | apps/frontend/src/state/game/store.ts:74-89 | the leave is the held id's (if any); the store goes idle with queue id, range, next expansion and elapsed cleared |
| GameStore.GameStoreState.HandleUpdate | apps/frontend/src/state/game/store.ts:90-98 | an update for another queue id changes nothing; otherwise only the range and the elapsed time change |
| GameStore.GameStoreState.SetMatched | apps/frontend/src/state/game/store.ts:100-108 | a match for another queue id changes nothing; otherwise the store is matched with that payload |
| GameStore.GameStoreState.HandleDiff | apps/frontend/src/state/game/store.ts:110-116 | a diff is kept only for the current match's game |
| GameStore.LateEventsAfterCancel | apps/frontend/src/state/game/store.ts:82-108 | after a cancel, the update and match notification for the cancelled queue id change nothing |
| JoinValidation.SnapshotViolations | apps/backend/src/game/dto/matchmaking.dto.ts:19-32 | a snapshot is accepted exactly when the rating lies in [100, 4000] and the deviation and volatility are positive |
| JoinValidation.JoinViolations | apps/backend/src/game/dto/matchmaking.dto.ts:34-56 | a body is accepted exactly when the user id is a v4 UUID, the time control is one of the four names, the snapshot is valid, the latency is positive and a present preferred range is positive |
| JoinValidation.ValidJoinOpensWindow | apps/backend/src/game/dto/matchmaking.dto.ts:38-52 | a valid body names one of the four time controls by its own name, and the entry it becomes opens a window strictly around its rating; with no preferred range that window is rating ± 75, within [25, 4075] |
| RegisterValidation.MatchesWordRun | apps/backend/src/auth/dto/register.dto.ts:17-19 | a username matches exactly when it is non-empty and all letters, digits and underscores |
| RegisterValidation.ScanForFinds | apps/backend/src/auth/dto/register.dto.ts:25-28 | the left-to-right scan succeeds exactly when a lookahead `.*[C]` finds the class from the start |
| RegisterValidation.ScanStopsAt | apps/backend/src/auth/dto/register.dto.ts:25-28 | a line terminator before any character of the class makes the lookahead fail |
| RegisterValidation.FirstLine | apps/backend/src/auth/dto/register.dto.ts:25-28 | the first line is the longest prefix without a line terminator |
| RegisterValidation.LookaheadIsFirstLine | apps/backend/src/auth/dto/register.dto.ts:25-28 | a lookahead finds its class exactly when the class occurs in the first line |
| RegisterValidation.RegisterViolations | apps/backend/src/auth/dto/register.dto.ts:9-30 | a body is accepted exactly when the email is non-empty and well formed, the username has 3 or more word characters, and the password has 8 or more characters and passes the pattern |
| RegisterValidation.ValidPasswordHasClasses | apps/backend/src/auth/dto/register.dto.ts:22-28 | an accepted password has a lowercase letter, an uppercase letter and a digit in its first line |
| RegisterValidation.EmptyUsernameViolations | apps/backend/src/auth/dto/register.dto.ts:14-19 | the empty username fails the non-empty, minimum-length and pattern rules together |
| RegisterValidation.SecondLineDoesNotCount | apps/backend/src/auth/dto/register.dto.ts:25-28 | "abcdefg\nA1" is refused: its uppercase letter and digit are on the second line |
| RegisterValidation.OneLineCounts | apps/backend/src/auth/dto/register.dto.ts:22-28 | "abcdefgA1" is accepted |
| EnvValidation.ParseNodeEnv | apps/backend/src/config/env.validation.ts:4-6 | NODE_ENV is accepted exactly when it is one of the three names; when absent it is development |
| EnvValidation.ParseBounded | apps/backend/src/config/env.validation.ts:7 | a number field is accepted exactly when it (or its default, when absent) is a number within bounds; the result is that number |
| EnvValidation.ParseUrl | apps/backend/src/config/env.validation.ts:8 | FRONTEND_ORIGIN, or its default, is accepted exactly when it is a URL |
| EnvValidation.Utf16Length | apps/backend/src/config/env.validation.ts:9-12 | the code-unit length lies between the character count and twice it |
| EnvValidation.ParseRequired | apps/backend/src/config/env.validation.ts:9-12 | a required string is accepted exactly when present and at least n UTF-16 code units long (JavaScript's `length`); a missing one is reported as required |
| EnvValidation.SixteenEmojiSecretAccepted | apps/backend/src/config/env.validation.ts:11-12 | a secret of sixteen U+1F600 is 32 code units long and so meets `.min(32)` |
| EnvValidation.ParseAll | apps/backend/dist/src/config/env.validation.js:5-18 | every field's parse (with defaults fed through the field's own checks) succeeds exactly when the configuration meets all ten rules; the compiled schema has the same rules as the TypeScript one |
| EnvValidation.EnvIssues | apps/backend/src/config/env.validation.ts:23-29 | the collected issues are empty exactly when every field parsed; each issue is under a schema key; a missing DATABASE_URL is reported as required |
| EnvValidation.ValidateEnv | apps/backend/src/config/env.validation.ts:20-31 | the result is success exactly when every rule holds; success carries a port in [1000, 65535], rounds in [8, 15], secrets of 32+ UTF-16 code units and non-empty URLs; failure carries at least one issue, each under a schema key; the compiled `validateEnv` (env.validation.js:19-25) is the same function |
| EnvValidation.DefaultsFillAbsent | apps/backend/src/config/env.validation.ts:4-15 | an accepted configuration keeps each supplied value and fills NODE_ENV, PORT, FRONTEND_ORIGIN, both expirations and BCRYPT_ROUNDS with their defaults when absent |
| EnvValidation.UnknownKeysIgnored | apps/backend/src/config/env.validation.ts:3-16 | variables the schema does not name make no difference |
| EnvValidation.EmptyEnvNeedsFour | apps/backend/src/config/env.validation.ts:9-12 | an empty environment fails on exactly DATABASE_URL, REDIS_URL and the two JWT secrets |
| Gateways.JoinRefusedIffOtherUser | apps/backend/src/matchmaking/matchmaking.gateway.ts:67-71 | a join is refused exactly when an authenticated, non-empty user id differs from the body's |
| Gateways.HandleJoin | apps/backend/src/matchmaking/matchmaking.gateway.ts:58-80 | a refused join is an error that changes nothing; any other join is `joinQueue`: the ack carries the entry's window, the store moves by one match step from the store with the entry added, the timers and game rows follow the pick |
| Gateways.HandleMatchmakingJoin | apps/backend/src/game/game.gateway.ts:48-62 | an invalid body is refused with its violations and queues nothing; a valid one is `enqueue`: the search is filed at step 0 with the initial range, the ack repeats that range and the 5 s interval, and the range is a non-empty interval about 0 |
| Gateways.HandleMatchmakingLeave | apps/backend/src/game/game.gateway.ts:64-78 | `QUEUE_NOT_FOUND` is reported exactly when the id was not searching; the search is gone afterwards |
| Gateways.LeaveTwice | apps/backend/src/game/game.gateway.ts:69-76 | a second leave of the same search reports `QUEUE_NOT_FOUND` |

## Left out

- Redis mirror writes (`persistEntry`, `updateWindowInRedis`, the queue and active-game keys) and `redis.service`: network I/O, not modelled.
- Prisma calls become an in-model map of game rows. Game-row fields the core does not read (`startedAt`, `abortedAt`) are not kept.
- The compiled variant's opponent `username` and `flair` come from a database lookup and are left out of `Opponent`. The socket-room join and the emits are results, not effects.
- Timers: a pending `setTimeout` is a member of a set (or, for abort checks, a map holding the delay). Firing is a method call. Real time is not modelled.
- Async interleaving is not modelled: each handler runs atomically, and overlapping ticks or a `joinQueue` racing a tick are not modelled. In the client store, `joinQueue` is split at its `await` into `JoinQueueStart` and `JoinQueueSettle`, so other actions may run in between.
- The eviction in `MatchmakingDist.MatchmakingService.JoinQueue` (`removeByUser`) runs the leaves one after another. The source runs them concurrently with `Promise.all`; with atomic handlers the final state is the same.
- `QueueStore.MemoryQueue.LeaveQueue`: the `socketId` argument is only logged, so the method does not take it.
- The email format check, the UUID v4 check, `Number(...)` coercion and zod's URL check are library code. They are the parameters `isEmail`, `isUuid4`, `toNumber` and `isUrl`.
- The join body's JSON type checks (`IsNumber`, `IsString`, `ValidateNested` on a non-object) are not modelled: bodies arrive as typed values. The validation pipe's whitelist stripping of unknown properties is not modelled either.
- zod's error text and the thrown `Error` message are not modelled; a failure carries the list of issues (variable and rule).
- RegisterValidation.RegisterViolations: the length rules count Unicode scalar values, and a surrogate pair is counted once. Whether the validation library also leaves out the variation selectors U+FE0E and U+FE0F depends on its version, which is not part of this model. A JavaScript string can hold a lone surrogate; a Dafny string cannot, so such passwords are not modelled.
- The decorators' custom message texts are not modelled. A violation is identified by its kind.
- JavaScript numbers are exact reals or integers. NaN appears only through `toNumber`, and IEEE rounding is not modelled.
- The client's socket wait (5 s), the 8 s join timeout and the socket plumbing are not modelled; the outcome of a join is a parameter of `JoinQueueSettle`.
- `GameSearch.GameService.ExpansionTick` models one firing. The callback it reports to and the timeout handle are not kept.

## Findings

| source | as written | input that shows it | evidently intended | confidence | as-written member | corrected member |
|---|---|---|---|---|---|---|
| apps/backend/src/matchmaking/matchmaking.service.ts:50-86, 236-257 | `joinQueue` queues a second entry for a user who is already queued, and `tryMatch` does not skip pairs of one user, so both of a user's entries can be matched into one game | user u1 joins blitz twice (two tabs, or a retry) with the same body: the second join matches the first, and the game row has u1 as both white and black | one entry per user, and never one user on both sides; the compiled variant evicts earlier entries on join and skips same-user pairs | not executed | SelfMatch.SrcPairsUserWithThemself | SelfMatch.DistGameHasTwoPlayers |
