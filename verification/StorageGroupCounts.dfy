/** The performance collector's cache of storage group counts, with its time to live. Times are
    nanoseconds of a monotone clock. */
module StorageGroupCounts {
  import opened Collections
  import opened MetricTypes

  /** Five minutes. */
  const SG_COUNT_CACHE_TTL: int := 300_000_000_000

  datatype Entry = Entry(count: nat, timestamp: int)

  /** The actions on the cache, in their order. A call looks the entry up under the read lock, when
      `read` events have happened, and decides on its age later, without the lock: it serves the
      entry it saw, or misses. After a miss the API call fails, or its count is stored under the
      write lock. */
  datatype Event =
    | Served(arrayId: string, at: int, count: nat, read: nat)
    | Missed(arrayId: string, at: int, read: nat)
    | CallFailed(arrayId: string, at: int)
    | Stored(arrayId: string, at: int, count: nat)

  /** The cache after a sequence of events. */
  function Cache(log: seq<Event>): map<string, Entry> {
    if log == [] then map[]
    else
      var before, last := Cache(log[..|log| - 1]), log[|log| - 1];
      if last.Stored? then before[last.arrayId := Entry(last.count, last.at)] else before
  }

  /** A look-up sees an entry that is young enough to serve. */
  predicate Fresh(cache: map<string, Entry>, arrayId: string, at: int) {
    arrayId in cache && at - cache[arrayId].timestamp < SG_COUNT_CACHE_TTL
  }

  /** An event is what the code does after the events before it. */
  predicate Allowed(before: seq<Event>, e: Event) {
    match e
    case Served(a, at, count, read) =>
      read <= |before| && Fresh(Cache(before[..read]), a, at) && Cache(before[..read])[a].count == count
    case Missed(a, at, read) => read <= |before| && !Fresh(Cache(before[..read]), a, at)
    case _ => true
  }

  predicate Legal(log: seq<Event>, i: nat)
    requires i < |log|
  {
    Allowed(log[..i], log[i])
  }

  predicate Monotone(log: seq<Event>) {
    forall i, j :: 0 <= i < j < |log| ==> log[i].at <= log[j].at
  }

  /** Any interleaving of calls of any arrays under a monotone clock. */
  predicate IsRun(log: seq<Event>) {
    Monotone(log) && forall i :: 0 <= i < |log| ==> Legal(log, i)
  }

  /** Calls for one array do not overlap: among the events of that array a store follows its own
      call's miss directly, and none lies between that call's look-up and its miss. */
  predicate SequentialPerArray(log: seq<Event>) {
    forall j :: 0 <= j < |log| && log[j].Stored? ==> FollowsItsMiss(log, j)
  }

  predicate FollowsItsMiss(log: seq<Event>, j: nat)
    requires j < |log|
  {
    exists i :: 0 <= i < j && IsOwnMiss(log, i, j)
  }

  predicate IsOwnMiss(log: seq<Event>, i: nat, j: nat)
    requires i < j < |log|
  {
    && log[i].Missed? && log[i].arrayId == log[j].arrayId
    && forall m :: 0 <= m < j && m != i && log[i].read <= m ==> log[m].arrayId != log[j].arrayId
  }

  /** An entry may be served for less than five minutes from when it was stored. */
  lemma FreshForFiveMinutes(cache: map<string, Entry>, arrayId: string, at: int)
    ensures Fresh(cache, arrayId, at) <==> arrayId in cache && at < cache[arrayId].timestamp + 5 * 60 * 1_000_000_000
  {
  }

  // ---------------------------------------------------------------- properties of runs

  predicate LastStore(log: seq<Event>, a: string, i: nat) {
    i < |log| && log[i].Stored? && log[i].arrayId == a
    && forall m :: i < m < |log| && log[m].Stored? ==> log[m].arrayId != a
  }

  /** An entry of the cache is the last store of its array. */
  lemma {:induction false} CacheIsLastStore(log: seq<Event>, a: string)
    ensures a in Cache(log) <==> exists i :: 0 <= i < |log| && log[i].Stored? && log[i].arrayId == a
    ensures a in Cache(log) ==>
              exists i: nat :: LastStore(log, a, i) && Cache(log)[a] == Entry(log[i].count, log[i].at)
  {
    if log != [] {
      var n := |log| - 1;
      CacheIsLastStore(log[..n], a);
      assert forall i :: 0 <= i < n ==> log[..n][i] == log[i];
      if log[n].Stored? && log[n].arrayId == a {
        assert LastStore(log, a, n);
      } else if a in Cache(log) {
        var i: nat :| LastStore(log[..n], a, i) && Cache(log[..n])[a] == Entry(log[..n][i].count, log[..n][i].at);
        assert LastStore(log, a, i);
      }
    }
  }

  /** In every interleaving a served count is one the API returned for that same array, less than
      the TTL ago, and the last one stored before the call looked it up. So no failure makes an old
      entry live on. */
  lemma ServedCountsAreFresh(log: seq<Event>, s: nat)
    requires IsRun(log) && s < |log| && log[s].Served?
    ensures log[s].read <= s
    ensures exists i: nat :: LastStore(log[..log[s].read], log[s].arrayId, i) && log[i].count == log[s].count
                     && 0 <= log[s].at - log[i].at < SG_COUNT_CACHE_TTL
  {
    assert Legal(log, s);
    var a, seen := log[s].arrayId, log[..log[s].read];
    assert log[..s][..log[s].read] == seen;
    CacheIsLastStore(seen, a);
    var i: nat :| LastStore(seen, a, i) && Cache(seen)[a] == Entry(seen[i].count, seen[i].at);
    assert seen[i] == log[i];
  }

  /** Two refreshes of one array are at least the TTL apart unless the calls overlap: unless the
      second call looked the entry up before the first refresh was stored. */
  lemma RefreshesAreApartUnlessOverlapping(log: seq<Event>, i: nat, m: nat, j: nat)
    requires IsRun(log) && i < |log| && m < j < |log|
    requires log[i].Stored? && log[m].Missed? && log[j].Stored?
    requires log[i].arrayId == log[m].arrayId == log[j].arrayId
    requires i < log[m].read
    ensures log[j].at - log[i].at >= SG_COUNT_CACHE_TTL
  {
    assert Legal(log, m);
    var a, seen := log[j].arrayId, log[..log[m].read];
    assert log[..m][..log[m].read] == seen;
    CacheIsLastStore(seen, a);
    assert seen[i] == log[i];
    var l: nat :| LastStore(seen, a, l) && Cache(seen)[a] == Entry(seen[l].count, seen[l].at);
    assert seen[l] == log[l] && i <= l;
  }

  /** When calls for one array do not overlap, two refreshes of it are at least the TTL apart. */
  lemma RefreshesAreApart(log: seq<Event>, i: nat, j: nat)
    requires IsRun(log) && SequentialPerArray(log)
    requires i < j < |log| && log[i].Stored? && log[j].Stored? && log[i].arrayId == log[j].arrayId
    ensures log[j].at - log[i].at >= SG_COUNT_CACHE_TTL
  {
    assert FollowsItsMiss(log, j);
    var m :| 0 <= m < j && IsOwnMiss(log, m, j);
    RefreshesAreApartUnlessOverlapping(log, i, m, j);
  }

  // ---------------------------------------------------------------- runs of the collector

  /** The events from `from` on are one collection's: for each array one worker makes one call, so
      there is at most a served count, or a miss and then its outcome; and the call looks the entry
      up in this collection. The workers interleave in any way. */
  predicate IsCollection(log: seq<Event>, from: nat) {
    && (forall i, j :: from <= i < j < |log| && log[i].arrayId == log[j].arrayId ==>
          log[i].Missed? && (log[j].Stored? || log[j].CallFailed?))
    && (forall i :: from <= i < |log| && (log[i].Stored? || log[i].CallFailed?) ==> HasMiss(log, from, i))
    && (forall i :: from <= i < |log| && (log[i].Served? || log[i].Missed?) ==> from <= log[i].read <= i)
  }

  predicate HasMiss(log: seq<Event>, from: nat, j: nat)
    requires j < |log|
  {
    exists i :: from <= i < j && log[i].Missed? && log[i].arrayId == log[j].arrayId
  }

  /** The collections follow one another: the loop calls an export, and the export waits for all of
      its workers. `sizes` are the numbers of events in each. */
  predicate IsCollectorRun(log: seq<Event>, sizes: seq<nat>)
    decreases |sizes|
  {
    if sizes == [] then log == []
    else
      var last := sizes[|sizes| - 1];
      && last <= |log|
      && IsCollectorRun(log[..|log| - last], sizes[..|sizes| - 1])
      && IsCollection(log, |log| - last)
  }

  lemma CollectionKeepsSequential(log: seq<Event>, from: nat)
    requires from <= |log| && SequentialPerArray(log[..from]) && IsCollection(log, from)
    ensures SequentialPerArray(log)
  {
    forall j | 0 <= j < |log| && log[j].Stored?
      ensures FollowsItsMiss(log, j)
    {
      if j < from {
        assert log[..from][j] == log[j];
        assert FollowsItsMiss(log[..from], j);
        var i :| 0 <= i < j && IsOwnMiss(log[..from], i, j);
        assert forall m :: 0 <= m < from ==> log[..from][m] == log[m];
        assert IsOwnMiss(log, i, j);
      } else {
        assert HasMiss(log, from, j);
        var i :| from <= i < j && log[i].Missed? && log[i].arrayId == log[j].arrayId;
        assert IsOwnMiss(log, i, j);
      }
    }
  }

  /** Such a run has no overlapping calls for one array. */
  lemma {:induction false} CallsAreSequential(log: seq<Event>, sizes: seq<nat>)
    requires IsCollectorRun(log, sizes)
    ensures SequentialPerArray(log)
    decreases |sizes|
  {
    if sizes != [] {
      var last := sizes[|sizes| - 1];
      CallsAreSequential(log[..|log| - last], sizes[..|sizes| - 1]);
      CollectionKeepsSequential(log, |log| - last);
    }
  }

  /** The cache alone would let overlapping calls for one array refresh it twice at once. */
  lemma OverlappingCallsRefreshTwice()
    ensures exists log: seq<Event> :: IsRun(log) && |log| == 4 && log[2].Stored? && log[3].Stored?
                       && log[2].arrayId == log[3].arrayId && log[3].at == log[2].at
  {
    var log := [Missed("a", 0, 0), Missed("a", 0, 0), Stored("a", 0, 1), Stored("a", 0, 1)];
    assert Cache(log[..0]) == map[];
    assert log[..1][..0] == log[..0] && log[..0][..0] == log[..0];
    assert Legal(log, 0) && Legal(log, 1) && Legal(log, 2) && Legal(log, 3);
    assert IsRun(log);
  }

  // ---------------------------------------------------------------- the method

  /** The collector's cache field; a nil map reads as empty and is made on the first store. */
  class CountCache {
    var sgCountCache: Option<map<string, Entry>>
    ghost var log: seq<Event>

    ghost predicate Valid()
      reads this
    {
      && IsRun(log) && SequentialPerArray(log)
      && Cache(log) == (if sgCountCache.Some? then sgCountCache.value else map[])
    }

    constructor (nilMap: bool)
      ensures Valid() && log == []
    {
      sgCountCache := if nilMap then None else Some(map[]);
      log := [];
    }

    /** The look-up under the read lock, and the decision on the age of what it saw. */
    method LookUp(arrayId: string, at: int) returns (count: Option<nat>)
      requires Valid() && forall i :: 0 <= i < |log| ==> log[i].at <= at
      modifies this`log
      ensures Valid()
      ensures var hit := Fresh(Cache(old(log)), arrayId, at);
              && count == (if hit then Some(Cache(old(log))[arrayId].count) else None)
              && log == old(log) + [if hit then Served(arrayId, at, Cache(old(log))[arrayId].count, |old(log)|)
                                    else Missed(arrayId, at, |old(log)|)]
    {
      assert log[..|log|] == log;
      if sgCountCache.Some? {
        if arrayId in sgCountCache.value {
          var entry := sgCountCache.value[arrayId];
          if at - entry.timestamp < SG_COUNT_CACHE_TTL {
            Extend(log, Served(arrayId, at, entry.count, |log|));
            log := log + [Served(arrayId, at, entry.count, |log|)];
            return Some(entry.count);
          }
        }
      }
      Extend(log, Missed(arrayId, at, |log|));
      log := log + [Missed(arrayId, at, |log|)];
      return None;
    }

    /** The store under the write lock. */
    method Store(arrayId: string, count: nat, at: int)
      requires Valid() && EndsInMissOf(log, arrayId) && forall i :: 0 <= i < |log| ==> log[i].at <= at
      modifies this
      ensures Valid() && log == old(log) + [Stored(arrayId, at, count)]
    {
      if sgCountCache.None? {
        sgCountCache := Some(map[]);
      }
      sgCountCache := Some(sgCountCache.value[arrayId := Entry(count, at)]);
      Extend(log, Stored(arrayId, at, count));
      log := log + [Stored(arrayId, at, count)];
    }

    /** One call: `checkedAt` is the clock when the age is checked, `answer` what the API returns if
        it is asked, `answeredAt` the clock then. A call that misses and is answered nil panics: it
        stores nothing, and comes to Nil. */
    method GetTotalSGCount(arrayId: string, checkedAt: int, answer: Answer<nat>, answeredAt: int)
        returns (count: Answer<nat>)
      requires Valid() && checkedAt <= answeredAt
      requires forall i :: 0 <= i < |log| ==> log[i].at <= checkedAt
      modifies this
      ensures Valid()
      ensures var hit := Fresh(Cache(old(log)), arrayId, checkedAt);
              count == if hit then Got(Cache(old(log))[arrayId].count) else answer
      ensures var hit, miss := Fresh(Cache(old(log)), arrayId, checkedAt), Missed(arrayId, checkedAt, |old(log)|);
              log == old(log) + (
                if hit then [Served(arrayId, checkedAt, Cache(old(log))[arrayId].count, |old(log)|)]
                else
                  match answer
                  case Got(n) => [miss, Stored(arrayId, answeredAt, n)]
                  case Failed => [miss, CallFailed(arrayId, answeredAt)]
                  case Nil => [miss])
    {
      var cached := LookUp(arrayId, checkedAt);
      if cached.Some? {
        return Got(cached.value);
      }
      if answer.Failed? {
        Extend(log, CallFailed(arrayId, answeredAt));
        log := log + [CallFailed(arrayId, answeredAt)];
        return Failed;
      }
      if answer.Nil? {
        return Nil;
      }
      Store(arrayId, answer.value, answeredAt);
      count := answer;
    }
  }

  /** The last event is the miss of a call for the array that has just looked the entry up. */
  predicate EndsInMissOf(log: seq<Event>, arrayId: string) {
    log != [] && var miss := log[|log| - 1]; miss.Missed? && miss.arrayId == arrayId && miss.read == |log| - 1
  }

  lemma Extend(log: seq<Event>, e: Event)
    requires IsRun(log) && SequentialPerArray(log)
    requires forall i :: 0 <= i < |log| ==> log[i].at <= e.at
    requires Allowed(log, e)
    requires e.Stored? ==> EndsInMissOf(log, e.arrayId)
    ensures IsRun(log + [e]) && SequentialPerArray(log + [e])
    ensures Cache(log + [e]) == if e.Stored? then Cache(log)[e.arrayId := Entry(e.count, e.at)] else Cache(log)
  {
    assert (log + [e])[..|log|] == log;
    ExtendRun(log, e);
    ExtendSequential(log, e);
  }

  lemma ExtendRun(log: seq<Event>, e: Event)
    requires IsRun(log) && Allowed(log, e)
    requires forall i :: 0 <= i < |log| ==> log[i].at <= e.at
    ensures IsRun(log + [e])
  {
    var log', n := log + [e], |log|;
    assert log'[..n] == log;
    forall i | 0 <= i < |log'|
      ensures Legal(log', i)
    {
      if i < n {
        assert Legal(log, i);
        assert log'[..i] == log[..i];
      }
    }
  }

  lemma ExtendSequential(log: seq<Event>, e: Event)
    requires SequentialPerArray(log)
    requires e.Stored? ==> EndsInMissOf(log, e.arrayId)
    ensures SequentialPerArray(log + [e])
  {
    var log', n := log + [e], |log|;
    forall j | 0 <= j < |log'| && log'[j].Stored?
      ensures FollowsItsMiss(log', j)
    {
      if j < n {
        assert FollowsItsMiss(log, j);
        var i :| 0 <= i < j && IsOwnMiss(log, i, j);
        assert IsOwnMiss(log', i, j);
      } else {
        assert IsOwnMiss(log', n - 1, n);
      }
    }
  }
}
