/**
 * The in-memory queue store of the matchmaking service: a map from time
 * control to a pool, each pool an insertion-ordered map from queueId to
 * entry (a JavaScript Map), plus the map of armed expansion timers.
 *
 * A pool is modelled as the sequence of its entries in insertion order,
 * which is the order `tryMatch` enumerates them in. Deleting a key from a
 * JavaScript Map keeps the order of the others; under the store invariant
 * (queueIds are unique) that is `FilterOut` below. A timer is modelled by
 * the id it is armed for.
 *
 * The helpers in class `MemoryQueue` are the same code in the TypeScript
 * service and in its compiled variant; both service models use this class.
 */
module QueueStore {
  import opened MatchTypes

  const InitialWindow: real := 75.0
  const ExpansionDelta: real := 25.0

  type Pools = map<string, seq<QueueEntry>>

  /** Which identity a uniqueness statement is about. */
  datatype Key = QueueIdKey | UserIdKey

  function KeyOf(e: QueueEntry, k: Key): string {
    match k
    case QueueIdKey => e.queueId
    case UserIdKey => e.userId
  }

  /** Which entries a bulk removal targets: by socket (disconnect) or by user (re-join). */
  datatype Selector = BySocket(socketId: string) | ByUser(userId: string)

  predicate Selects(sel: Selector, e: QueueEntry) {
    match sel
    case BySocket(s) => e.socketId == s
    case ByUser(u) => e.userId == u
  }

  function PoolOf(q: Pools, tc: string): seq<QueueEntry> {
    if tc in q then q[tc] else []
  }

  /** The window invariant: `currentWindow = baseWindow + expansionStep * 25`. */
  predicate WindowOk(e: QueueEntry) {
    e.currentWindow == e.baseWindow + (e.expansionStep as real) * ExpansionDelta
  }

  function Keys(p: seq<QueueEntry>, k: Key): set<string> {
    set e | e in p :: KeyOf(e, k)
  }

  ghost predicate Distinct(p: seq<QueueEntry>, k: Key) {
    forall i, j :: 0 <= i < j < |p| ==> KeyOf(p[i], k) != KeyOf(p[j], k)
  }

  /** Every entry of every pool. */
  function Entries(q: Pools): set<QueueEntry> {
    set tc, e | tc in q && e in q[tc] :: e
  }

  function AllKeys(q: Pools, k: Key): set<string> {
    set e | e in Entries(q) :: KeyOf(e, k)
  }

  /** The queueIds present in the store. */
  function Ids(q: Pools): set<string> {
    AllKeys(q, QueueIdKey)
  }

  /** No two entries of the store share the key: not within a pool, not across pools. */
  ghost predicate UniqueBy(q: Pools, k: Key) {
    && (forall tc :: tc in q ==> Distinct(q[tc], k))
    && (forall t, u :: t in q && u in q && t != u ==> Keys(q[t], k) !! Keys(q[u], k))
  }

  /**
   * The store invariant: each entry sits in the pool of its own time control,
   * its window is consistent with its step, and a queueId is in at most one
   * place.
   */
  ghost predicate StoreOk(q: Pools) {
    && (forall tc, e :: tc in q && e in q[tc] ==> e.timeControl == tc && WindowOk(e))
    && UniqueBy(q, QueueIdKey)
  }

  /** The entry with that queueId, if any (unique under `StoreOk`). */
  ghost function Lookup(q: Pools, id: string): Option<QueueEntry> {
    if id in Ids(q) then
      Some(var e :| e in Entries(q) && e.queueId == id; e)
    else
      None
  }

  /** The ids of the entries a bulk removal targets. */
  function IdsWhere(q: Pools, sel: Selector): set<string> {
    set e | e in Entries(q) && Selects(sel, e) :: e.queueId
  }

  // ---------------------------------------------------------------- pools

  /** Position of the entry with that queueId in a pool (`pool.get`). */
  function IndexOf(p: seq<QueueEntry>, id: string): (r: Option<nat>)
    ensures r.Some? ==> r.value < |p| && p[r.value].queueId == id
    ensures r.None? ==> id !in Keys(p, QueueIdKey)
  {
    if p == [] then None
    else if p[0].queueId == id then Some(0)
    else match IndexOf(p[1..], id)
      case None => None
      case Some(k) => Some(k + 1)
  }

  /** The pool without the entries whose queueId is in `ids`, order kept. */
  function FilterOut(p: seq<QueueEntry>, ids: set<string>): (r: seq<QueueEntry>)
    ensures forall e :: e in r <==> e in p && e.queueId !in ids
  {
    if p == [] then []
    else if p[0].queueId in ids then FilterOut(p[1..], ids)
    else [p[0]] + FilterOut(p[1..], ids)
  }

  lemma {:induction false} FilterOutDistinct(p: seq<QueueEntry>, ids: set<string>, k: Key)
    requires Distinct(p, k)
    ensures Distinct(FilterOut(p, ids), k)
  {
    if p != [] {
      assert Distinct(p[1..], k);
      FilterOutDistinct(p[1..], ids, k);
      if p[0].queueId !in ids {
        var r := FilterOut(p[1..], ids);
        forall i | 0 <= i < |r| ensures KeyOf(r[i], k) != KeyOf(p[0], k) {
          assert r[i] in p[1..];
          var j :| 0 <= j < |p[1..]| && p[1..][j] == r[i];
          assert p[j + 1] == r[i];
        }
      }
    }
  }

  /** Removing ids the pool does not hold changes nothing. */
  lemma {:induction false} FilterOutNothing(p: seq<QueueEntry>, ids: set<string>)
    requires Keys(p, QueueIdKey) !! ids
    ensures FilterOut(p, ids) == p
  {
    if p != [] {
      assert p[0] in p;
      assert Keys(p[1..], QueueIdKey) <= Keys(p, QueueIdKey) by {
        forall x | x in Keys(p[1..], QueueIdKey) ensures x in Keys(p, QueueIdKey) {
          var e :| e in p[1..] && e.queueId == x;
          assert e in p;
        }
      }
      FilterOutNothing(p[1..], ids);
      assert p == [p[0]] + p[1..];
    }
  }

  lemma {:induction false} FilterOutTwice(p: seq<QueueEntry>, s: set<string>, t: set<string>)
    ensures FilterOut(FilterOut(p, s), t) == FilterOut(p, s + t)
  {
    if p != [] {
      FilterOutTwice(p[1..], s, t);
      if p[0].queueId !in s {
        assert FilterOut(p, s) == [p[0]] + FilterOut(p[1..], s);
        assert ([p[0]] + FilterOut(p[1..], s))[1..] == FilterOut(p[1..], s);
      }
    }
  }

  /** Adding an entry and removing it again gives the pool back. */
  lemma {:induction false} FilterOutAppended(p: seq<QueueEntry>, e: QueueEntry)
    requires e.queueId !in Keys(p, QueueIdKey)
    ensures FilterOut(p + [e], {e.queueId}) == p
  {
    if p == [] {
      assert [e][1..] == [];
    } else {
      assert p[0] in p;
      assert Keys(p[1..], QueueIdKey) <= Keys(p, QueueIdKey) by {
        forall x | x in Keys(p[1..], QueueIdKey) ensures x in Keys(p, QueueIdKey) {
          var d :| d in p[1..] && d.queueId == x;
          assert d in p;
        }
      }
      FilterOutAppended(p[1..], e);
      assert (p + [e])[1..] == p[1..] + [e];
      assert p == [p[0]] + p[1..];
    }
  }

  // ---------------------------------------------------------------- store

  /** `addToMemoryQueue`: append to the pool of the entry's time control, creating it if absent. */
  function Insert(q: Pools, e: QueueEntry): Pools {
    q[e.timeControl := PoolOf(q, e.timeControl) + [e]]
  }

  /** Remove the entries with these queueIds from every pool; the pools themselves stay. */
  function DeleteAll(q: Pools, ids: set<string>): (r: Pools)
    ensures r.Keys == q.Keys
  {
    map tc | tc in q :: FilterOut(q[tc], ids)
  }

  lemma EntriesInPool(q: Pools, tc: string, e: QueueEntry)
    requires tc in q && e in q[tc]
    ensures e in Entries(q)
  {
  }

  /** Two entries of a store that agree on a unique key are the same entry. */
  lemma UniqueEntry(q: Pools, k: Key, e1: QueueEntry, e2: QueueEntry)
    requires UniqueBy(q, k)
    requires e1 in Entries(q) && e2 in Entries(q) && KeyOf(e1, k) == KeyOf(e2, k)
    ensures e1 == e2
  {
    var t :| t in q && e1 in q[t];
    var u :| u in q && e2 in q[u];
    assert KeyOf(e1, k) in Keys(q[t], k) && KeyOf(e2, k) in Keys(q[u], k);
    var i :| 0 <= i < |q[t]| && q[t][i] == e1;
    var j :| 0 <= j < |q[u]| && q[u][j] == e2;
    assert Distinct(q[t], k);
  }

  lemma LookupFinds(q: Pools, e: QueueEntry)
    requires StoreOk(q) && e in Entries(q)
    ensures Lookup(q, e.queueId) == Some(e)
  {
    var f := Lookup(q, e.queueId).value;
    UniqueEntry(q, QueueIdKey, e, f);
  }

  lemma {:induction false} EntriesDeleteAll(q: Pools, ids: set<string>)
    ensures forall e :: e in Entries(DeleteAll(q, ids)) <==> e in Entries(q) && e.queueId !in ids
  {
    var r := DeleteAll(q, ids);
    forall e | e in Entries(q) && e.queueId !in ids ensures e in Entries(r) {
      var tc :| tc in q && e in q[tc];
      EntriesInPool(r, tc, e);
    }
  }

  lemma IdsDeleteAll(q: Pools, ids: set<string>)
    ensures Ids(DeleteAll(q, ids)) == Ids(q) - ids
  {
    EntriesDeleteAll(q, ids);
  }

  lemma UniqueByDeleteAll(q: Pools, ids: set<string>, k: Key)
    requires UniqueBy(q, k)
    ensures UniqueBy(DeleteAll(q, ids), k)
  {
    var r := DeleteAll(q, ids);
    forall tc | tc in r ensures Distinct(r[tc], k) {
      FilterOutDistinct(q[tc], ids, k);
    }
    forall t, u | t in r && u in r && t != u ensures Keys(r[t], k) !! Keys(r[u], k) {
      assert Keys(r[t], k) <= Keys(q[t], k);
      assert Keys(r[u], k) <= Keys(q[u], k);
    }
  }

  lemma StoreOkDeleteAll(q: Pools, ids: set<string>)
    requires StoreOk(q)
    ensures StoreOk(DeleteAll(q, ids))
  {
    UniqueByDeleteAll(q, ids, QueueIdKey);
  }

  /** Removing ids from the store and from the armed timers keeps every queued id armed. */
  lemma ArmedAfterDelete(q: Pools, timers: set<string>, ids: set<string>)
    requires StoreOk(q) && Ids(q) <= timers
    ensures StoreOk(DeleteAll(q, ids)) && Ids(DeleteAll(q, ids)) <= timers - ids
  {
    StoreOkDeleteAll(q, ids);
    IdsDeleteAll(q, ids);
  }

  /** Removing an id that is in no pool leaves every pool unchanged. */
  lemma DeleteAbsent(q: Pools, id: string)
    requires id !in Ids(q)
    ensures DeleteAll(q, {id}) == q
  {
    forall tc | tc in q ensures FilterOut(q[tc], {id}) == q[tc] {
      forall e | e in q[tc] ensures e.queueId != id {
        EntriesInPool(q, tc, e);
      }
      FilterOutNothing(q[tc], {id});
    }
  }

  lemma DeleteNothing(q: Pools)
    ensures DeleteAll(q, {}) == q
  {
    forall tc | tc in q ensures FilterOut(q[tc], {}) == q[tc] {
      FilterOutNothing(q[tc], {});
    }
  }

  /** Removing in two rounds is removing the union. */
  lemma DeleteAllTwice(q: Pools, s: set<string>, t: set<string>)
    ensures DeleteAll(DeleteAll(q, s), t) == DeleteAll(q, s + t)
  {
    forall tc | tc in q ensures FilterOut(FilterOut(q[tc], s), t) == FilterOut(q[tc], s + t) {
      FilterOutTwice(q[tc], s, t);
    }
  }

  /** With unique queueIds an id lives in one pool only, so deleting it touches that pool only. */
  lemma DeleteFromOnePool(q: Pools, tc: string, id: string)
    requires UniqueBy(q, QueueIdKey) && tc in q && id in Keys(q[tc], QueueIdKey)
    ensures DeleteAll(q, {id}) == q[tc := FilterOut(q[tc], {id})]
  {
    var lhs := DeleteAll(q, {id});
    var rhs := q[tc := FilterOut(q[tc], {id})];
    assert lhs.Keys == rhs.Keys;
    forall u | u in lhs ensures lhs[u] == rhs[u] {
      if u != tc {
        assert Keys(q[tc], QueueIdKey) !! Keys(q[u], QueueIdKey);
        FilterOutNothing(q[u], {id});
      }
    }
  }

  /** A pool's keys are keys of the store. */
  lemma PoolKeysInStore(q: Pools, tc: string, k: Key)
    requires tc in q
    ensures Keys(q[tc], k) <= AllKeys(q, k)
  {
    forall x | x in Keys(q[tc], k) ensures x in AllKeys(q, k) {
      var d :| d in q[tc] && KeyOf(d, k) == x;
      EntriesInPool(q, tc, d);
    }
  }

  /** Appending an entry with a fresh key keeps the pool's keys distinct. */
  lemma DistinctAppend(p: seq<QueueEntry>, e: QueueEntry, k: Key)
    requires Distinct(p, k) && KeyOf(e, k) !in Keys(p, k)
    ensures Distinct(p + [e], k)
    ensures Keys(p + [e], k) == Keys(p, k) + {KeyOf(e, k)}
  {
    var r := p + [e];
    forall i, j | 0 <= i < j < |r| ensures KeyOf(r[i], k) != KeyOf(r[j], k) {
      if j == |p| {
        assert r[i] == p[i];
        assert KeyOf(p[i], k) in Keys(p, k);
      }
    }
  }

  lemma UniqueByInsert(q: Pools, e: QueueEntry, k: Key)
    requires UniqueBy(q, k) && KeyOf(e, k) !in AllKeys(q, k)
    ensures UniqueBy(Insert(q, e), k)
  {
    var r := Insert(q, e);
    var tc := e.timeControl;
    var p := PoolOf(q, tc);
    if tc in q {
      PoolKeysInStore(q, tc, k);
    }
    DistinctAppend(p, e, k);
    forall t, u | t in r && u in r && t != u ensures Keys(r[t], k) !! Keys(r[u], k) {
      if t == tc || u == tc {
        var o := if t == tc then u else t;
        PoolKeysInStore(q, o, k);
      }
    }
  }

  lemma EntriesInsert(q: Pools, e: QueueEntry)
    ensures Entries(Insert(q, e)) == Entries(q) + {e}
  {
    var r := Insert(q, e);
    var tc := e.timeControl;
    forall d | d in Entries(q) ensures d in Entries(r) {
      var u :| u in q && d in q[u];
      if u == tc {
        assert d in r[tc];
      }
      EntriesInPool(r, u, d);
    }
    assert e in r[tc];
    EntriesInPool(r, tc, e);
    forall d | d in Entries(r) ensures d in Entries(q) || d == e {
      var u :| u in r && d in r[u];
      if u == tc && d != e {
        assert d in PoolOf(q, tc);
        EntriesInPool(q, tc, d);
      }
    }
  }

  lemma StoreOkInsert(q: Pools, e: QueueEntry)
    requires StoreOk(q) && e.queueId !in Ids(q) && WindowOk(e)
    ensures StoreOk(Insert(q, e))
    ensures Entries(Insert(q, e)) == Entries(q) + {e}
  {
    UniqueByInsert(q, e, QueueIdKey);
    EntriesInsert(q, e);
  }

  /** Join followed by leave of the same fresh id restores the store, except that the pool now exists. */
  lemma InsertThenDelete(q: Pools, e: QueueEntry)
    requires StoreOk(q) && e.queueId !in Ids(q)
    ensures DeleteAll(Insert(q, e), {e.queueId}) == q[e.timeControl := PoolOf(q, e.timeControl)]
  {
    var tc := e.timeControl;
    var lhs := DeleteAll(Insert(q, e), {e.queueId});
    var rhs := q[tc := PoolOf(q, tc)];
    forall u | u in q ensures e.queueId !in Keys(q[u], QueueIdKey) {
      forall d | d in q[u] ensures d.queueId != e.queueId {
        EntriesInPool(q, u, d);
      }
    }
    assert lhs.Keys == rhs.Keys;
    forall u | u in lhs ensures lhs[u] == rhs[u] {
      if u == tc {
        FilterOutAppended(PoolOf(q, tc), e);
      } else {
        FilterOutNothing(q[u], {e.queueId});
      }
    }
  }

  /**
   * A bulk removal by socket or by user removes exactly the entries it targets
   * and keeps every other entry.
   */
  lemma DeleteWhereExact(q: Pools, sel: Selector)
    requires StoreOk(q)
    ensures forall e :: e in Entries(DeleteAll(q, IdsWhere(q, sel))) <==> e in Entries(q) && !Selects(sel, e)
  {
    var ids := IdsWhere(q, sel);
    EntriesDeleteAll(q, ids);
    forall e | e in Entries(q) && e.queueId in ids ensures Selects(sel, e) {
      var d :| d in Entries(q) && Selects(sel, d) && d.queueId == e.queueId;
      UniqueEntry(q, QueueIdKey, d, e);
    }
  }

  // ---------------------------------------------------------------- expansion

  /**
   * One expansion tick on an entry: the step goes up by one and the window is
   * recomputed from the base; nothing else changes.
   */
  function Expand(e: QueueEntry): (r: QueueEntry)
    ensures WindowOk(r)
    ensures WindowOk(e) ==> r.currentWindow == e.currentWindow + ExpansionDelta
    ensures r.(expansionStep := e.expansionStep, currentWindow := e.currentWindow) == e
  {
    var step := e.expansionStep + 1;
    e.(expansionStep := step, currentWindow := e.baseWindow + (step as real) * ExpansionDelta)
  }

  /** k expansion ticks. */
  function ExpandTimes(e: QueueEntry, k: nat): QueueEntry {
    if k == 0 then e else Expand(ExpandTimes(e, k - 1))
  }

  /** After k ticks a joined entry's window is base + 25k: it never shrinks. */
  lemma {:induction false} WindowAfterTicks(e: QueueEntry, k: nat)
    requires WindowOk(e)
    ensures ExpandTimes(e, k).expansionStep == e.expansionStep + k
    ensures ExpandTimes(e, k).baseWindow == e.baseWindow
    ensures ExpandTimes(e, k).currentWindow == e.currentWindow + (k as real) * ExpansionDelta
  {
    if k > 0 {
      WindowAfterTicks(e, k - 1);
    }
  }

  lemma WindowNeverShrinks(e: QueueEntry, k1: nat, k2: nat)
    requires WindowOk(e) && k1 <= k2
    ensures ExpandTimes(e, k1).currentWindow <= ExpandTimes(e, k2).currentWindow
  {
    WindowAfterTicks(e, k1);
    WindowAfterTicks(e, k2);
  }

  /** The pool with the entry of that queueId expanded in place. */
  function ExpandIn(p: seq<QueueEntry>, id: string): (r: seq<QueueEntry>)
    ensures |r| == |p|
  {
    seq(|p|, i requires 0 <= i < |p| => if p[i].queueId == id then Expand(p[i]) else p[i])
  }

  /** The tick's in-place update, seen on the whole store. */
  function Bump(q: Pools, id: string): (r: Pools)
    ensures r.Keys == q.Keys
  {
    map tc | tc in q :: ExpandIn(q[tc], id)
  }

  lemma KeysExpandIn(p: seq<QueueEntry>, id: string, k: Key)
    ensures Keys(ExpandIn(p, id), k) == Keys(p, k)
  {
    var r := ExpandIn(p, id);
    forall x | x in Keys(p, k) ensures x in Keys(r, k) {
      var i :| 0 <= i < |p| && KeyOf(p[i], k) == x;
      assert r[i] in r;
    }
    forall x | x in Keys(r, k) ensures x in Keys(p, k) {
      var i :| 0 <= i < |r| && KeyOf(r[i], k) == x;
      assert p[i] in p;
    }
  }

  lemma UniqueByBump(q: Pools, id: string, k: Key)
    requires UniqueBy(q, k)
    ensures UniqueBy(Bump(q, id), k)
  {
    var r := Bump(q, id);
    forall tc | tc in r ensures Distinct(r[tc], k) {
      assert forall i :: 0 <= i < |r[tc]| ==> KeyOf(r[tc][i], k) == KeyOf(q[tc][i], k);
    }
    forall t, u | t in r && u in r && t != u ensures Keys(r[t], k) !! Keys(r[u], k) {
      KeysExpandIn(q[t], id, k);
      KeysExpandIn(q[u], id, k);
    }
  }

  lemma StoreOkBump(q: Pools, id: string)
    requires StoreOk(q)
    ensures StoreOk(Bump(q, id)) && Ids(Bump(q, id)) == Ids(q)
  {
    var r := Bump(q, id);
    UniqueByBump(q, id, QueueIdKey);
    forall tc: string, e: QueueEntry | tc in r && e in r[tc] ensures e.timeControl == tc && WindowOk(e) {
      var i :| 0 <= i < |r[tc]| && r[tc][i] == e;
      assert q[tc][i] in q[tc];
    }
    IdsBump(q, id);
  }

  /** The tick changes no queueId. */
  lemma IdsBump(q: Pools, id: string)
    ensures Ids(Bump(q, id)) == Ids(q)
  {
    var r := Bump(q, id);
    forall x | x in Ids(q) ensures x in Ids(r) {
      var e :| e in Entries(q) && e.queueId == x;
      var tc :| tc in q && e in q[tc];
      KeysExpandIn(q[tc], id, QueueIdKey);
      assert x in Keys(r[tc], QueueIdKey);
      var d: QueueEntry :| d in r[tc] && d.queueId == x;
      EntriesInPool(r, tc, d);
    }
    forall x | x in Ids(r) ensures x in Ids(q) {
      var e :| e in Entries(r) && e.queueId == x;
      var tc :| tc in r && e in r[tc];
      KeysExpandIn(q[tc], id, QueueIdKey);
      assert x in Keys(q[tc], QueueIdKey);
      var d :| d in q[tc] && d.queueId == x;
      EntriesInPool(q, tc, d);
    }
  }

  /** Under `StoreOk` the tick touches one pool: the one of the entry's own time control. */
  lemma BumpOnePool(q: Pools, e: QueueEntry)
    requires StoreOk(q) && e in Entries(q)
    ensures e.timeControl in q
    ensures Bump(q, e.queueId) == q[e.timeControl := ExpandIn(q[e.timeControl], e.queueId)]
  {
    var tc :| tc in q && e in q[tc];
    assert e.queueId in Keys(q[tc], QueueIdKey);
    forall u | u in q && u != tc ensures ExpandIn(q[u], e.queueId) == q[u] {
      assert Keys(q[tc], QueueIdKey) !! Keys(q[u], QueueIdKey);
      forall i | 0 <= i < |q[u]| ensures q[u][i].queueId != e.queueId {
        assert q[u][i] in q[u];
      }
    }
  }

  /** After the tick the entry is found again, expanded. */
  lemma LookupBump(q: Pools, e: QueueEntry)
    requires StoreOk(q) && e in Entries(q)
    ensures Lookup(Bump(q, e.queueId), e.queueId) == Some(Expand(e))
  {
    var r := Bump(q, e.queueId);
    StoreOkBump(q, e.queueId);
    var tc :| tc in q && e in q[tc];
    var i :| 0 <= i < |q[tc]| && q[tc][i] == e;
    assert r[tc][i] == Expand(e);
    EntriesInPool(r, tc, Expand(e));
    LookupFinds(r, Expand(e));
  }

  // ---------------------------------------------------------------- state

  class MemoryQueue {
    /** time control -> pool, in insertion order. */
    var queues: Pools
    /** queueIds with an armed expansion timer. */
    var timers: set<string>

    /**
     * Every queued entry has an armed timer. The converse does not hold: a tick
     * re-arms its timer after `tryMatch`, even when that call matched the
     * ticking entry itself.
     */
    ghost predicate Valid()
      reads this
    {
      StoreOk(queues) && Ids(queues) <= timers
    }

    constructor ()
      ensures Valid() && queues == map[] && timers == {}
    {
      queues := map[];
      timers := {};
    }

    method AddToMemoryQueue(e: QueueEntry)
      requires StoreOk(queues) && e.queueId !in Ids(queues) && WindowOk(e)
      modifies this`queues
      ensures queues == Insert(old(queues), e)
      ensures StoreOk(queues) && Entries(queues) == Entries(old(queues)) + {e}
    {
      StoreOkInsert(queues, e);
      var pool := if e.timeControl in queues then queues[e.timeControl] else [];
      queues := queues[e.timeControl := pool + [e]];
    }

    /** Scans the pools for the id; removes and returns the entry from the first pool holding it. */
    method RemoveFromMemoryQueue(id: string) returns (existing: Option<QueueEntry>)
      requires StoreOk(queues)
      modifies this`queues
      ensures existing == Lookup(old(queues), id)
      ensures queues == DeleteAll(old(queues), {id})
      ensures StoreOk(queues)
    {
      StoreOkDeleteAll(queues, {id});
      var rest := queues.Keys;
      while rest != {}
        invariant rest <= queues.Keys && queues == old(queues)
        invariant forall tc :: tc in queues && tc !in rest ==> id !in Keys(queues[tc], QueueIdKey)
        decreases rest
      {
        var tc :| tc in rest;
        var k := IndexOf(queues[tc], id);
        if k.Some? {
          var e := queues[tc][k.value];
          existing := Some(e);
          EntriesInPool(queues, tc, e);
          LookupFinds(queues, e);
          assert id in Keys(queues[tc], QueueIdKey);
          DeleteFromOnePool(queues, tc, id);
          queues := queues[tc := FilterOut(queues[tc], {id})];
          return;
        }
        rest := rest - {tc};
      }
      existing := None;
      forall e | e in Entries(queues) ensures e.queueId != id {
        var tc :| tc in queues && e in queues[tc];
        assert e.queueId in Keys(queues[tc], QueueIdKey);
      }
      DeleteAbsent(queues, id);
    }

    /** Scans the pools for the id, read-only. */
    method FindEntry(id: string) returns (found: Option<QueueEntry>)
      requires StoreOk(queues)
      ensures found == Lookup(queues, id)
    {
      var rest := queues.Keys;
      while rest != {}
        invariant rest <= queues.Keys
        invariant forall tc :: tc in queues && tc !in rest ==> id !in Keys(queues[tc], QueueIdKey)
        decreases rest
      {
        var tc :| tc in rest;
        var k := IndexOf(queues[tc], id);
        if k.Some? {
          var e := queues[tc][k.value];
          EntriesInPool(queues, tc, e);
          LookupFinds(queues, e);
          return Some(e);
        }
        rest := rest - {tc};
      }
      forall e | e in Entries(queues) ensures e.queueId != id {
        var tc :| tc in queues && e in queues[tc];
        assert e.queueId in Keys(queues[tc], QueueIdKey);
      }
      return None;
    }

    /**
     * The tick's in-place update of a queued entry: its step goes up by one and
     * its window is recomputed; the entry keeps its place in its pool.
     */
    method ExpandEntry(e: QueueEntry)
      requires StoreOk(queues) && e in Entries(queues)
      modifies this`queues
      ensures queues == Bump(old(queues), e.queueId)
      ensures StoreOk(queues) && Ids(queues) == Ids(old(queues))
      ensures Lookup(queues, e.queueId) == Some(Expand(e))
    {
      BumpOnePool(queues, e);
      StoreOkBump(queues, e.queueId);
      LookupBump(queues, e);
      queues := queues[e.timeControl := ExpandIn(queues[e.timeControl], e.queueId)];
    }

    /** Cancels the entry's timer, if any; a missing timer is a no-op. */
    method ClearTimer(id: string)
      modifies this`timers
      ensures timers == old(timers) - {id}
      ensures id !in old(timers) ==> timers == old(timers)
    {
      if id in timers {
        timers := timers - {id};
      }
    }

    /** Arms a fresh timer for the id, replacing any armed one. */
    method ScheduleExpansion(id: string)
      modifies this`timers
      ensures timers == old(timers) + {id}
    {
      ClearTimer(id);
      timers := timers + {id};
    }

    /**
     * `leaveQueue`: removes the entry and cancels its timer. An unknown id
     * leaves every pool as it was. The caller's socket id is only logged.
     */
    method LeaveQueue(id: string)
      requires Valid()
      modifies this
      ensures Valid()
      ensures queues == DeleteAll(old(queues), {id})
      ensures timers == old(timers) - {id}
      ensures id !in Ids(old(queues)) ==> queues == old(queues)
    {
      if id !in Ids(queues) {
        DeleteAbsent(queues, id);
      }
      var _ := RemoveFromMemoryQueue(id);
      ClearTimer(id);
      IdsDeleteAll(old(queues), {id});
    }

    /**
     * The store half of `finalizeMatch`: both entries leave their pools and
     * both timers are cleared.
     */
    method RemovePair(a: string, b: string)
      requires Valid()
      modifies this
      ensures Valid()
      ensures queues == DeleteAll(old(queues), {a, b})
      ensures timers == old(timers) - {a, b}
    {
      ghost var q0 := queues;
      ArmedAfterDelete(q0, timers, {a, b});
      DeleteAllTwice(q0, {a}, {b});
      assert {a} + {b} == {a, b};
      var _ := RemoveFromMemoryQueue(a);
      var _ := RemoveFromMemoryQueue(b);
      ClearTimer(a);
      ClearTimer(b);
    }

    /** Leaves every id of the set, one at a time. */
    method LeaveEach(ids: set<string>)
      requires Valid()
      modifies this
      ensures Valid()
      ensures queues == DeleteAll(old(queues), ids)
      ensures timers == old(timers) - ids
    {
      var rest := ids;
      ghost var done: set<string> := {};
      DeleteNothing(queues);
      while rest != {}
        invariant rest <= ids && done == ids - rest && Valid()
        invariant queues == DeleteAll(old(queues), done)
        invariant timers == old(timers) - done
        decreases rest
      {
        var id :| id in rest;
        DeleteAllTwice(old(queues), done, {id});
        LeaveQueue(id);
        rest := rest - {id};
        done := done + {id};
      }
      assert done == ids;
    }

    /** `removeBySocket`: leaves every entry of the disconnected socket. */
    method RemoveBySocket(socketId: string)
      requires Valid()
      modifies this
      ensures Valid()
      ensures queues == DeleteAll(old(queues), IdsWhere(old(queues), BySocket(socketId)))
      ensures timers == old(timers) - IdsWhere(old(queues), BySocket(socketId))
      ensures forall e :: e in Entries(queues) <==> e in Entries(old(queues)) && e.socketId != socketId
    {
      DeleteWhereExact(queues, BySocket(socketId));
      LeaveEach(IdsWhere(queues, BySocket(socketId)));
    }

    /** `removeByUser`: leaves every entry of the user (compiled variant, before a re-join). */
    method RemoveByUser(userId: string)
      requires Valid()
      modifies this
      ensures Valid()
      ensures queues == DeleteAll(old(queues), IdsWhere(old(queues), ByUser(userId)))
      ensures timers == old(timers) - IdsWhere(old(queues), ByUser(userId))
      ensures forall e :: e in Entries(queues) <==> e in Entries(old(queues)) && e.userId != userId
    {
      DeleteWhereExact(queues, ByUser(userId));
      LeaveEach(IdsWhere(queues, ByUser(userId)));
    }
  }
}
