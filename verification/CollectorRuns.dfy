/** Runs of the performance collector with its cache of storage group counts: the workers of the
    pool each make one call, in steps that interleave with all the others', and one collection
    follows the other. */
module CollectorRuns {
  import opened Collections
  import opened StorageGroupCounts
  import Pool = WorkerPool

  /** Where a worker is in its call: not begun; past the look-up, when `read` events had happened;
      waiting for the API after a miss; returned. */
  datatype Call = Idle | LookedUp(read: nat) | Waiting | Returned

  /** A step of the pool, or one of a worker in its call: the look-up, the decision on the age of
      what was seen, and what the API answers, None for an error. */
  datatype Action =
    | Move(step: Pool.Step) | LookUp(arrayId: string) | Decide(arrayId: string, at: int)
    | Hear(arrayId: string, at: int, count: Option<nat>)

  /** A collection under way, and the events on the cache since the collector was made. */
  datatype Collection<T> = Collection(pool: Pool.State<T>, calls: map<string, Call>, log: seq<Event>)

  function CallOf<T>(s: Collection<T>, a: string): Call { if a in s.calls then s.calls[a] else Idle }

  predicate ClockReads(log: seq<Event>, at: int) { forall i :: 0 <= i < |log| ==> log[i].at <= at }

  /** A worker acts while it runs; within its call it neither sends nor ends. A worker without a live
      client makes no call. */
  predicate Ready<T>(c: Pool.Setup<T>, s: Collection<T>, action: Action) {
    match action
    case Move(step) =>
      && Pool.Enabled(c, s.pool, step)
      && (step.Send? || step.Done? ==> CallOf(s, step.id).Idle? || CallOf(s, step.id).Returned?)
    case LookUp(a) => a in s.pool.ctl.running && CallOf(s, a).Idle?
    case Decide(a, at) => a in s.pool.ctl.running && CallOf(s, a).LookedUp? && ClockReads(s.log, at)
    case Hear(a, at, _) => a in s.pool.ctl.running && CallOf(s, a).Waiting? && ClockReads(s.log, at)
  }

  /** What a worker does with the entry it saw. */
  function Decision(log: seq<Event>, a: string, at: int, read: nat): Event {
    var seen := Cache(if read <= |log| then log[..read] else log);
    if Fresh(seen, a, at) then Served(a, at, seen[a].count, read) else Missed(a, at, read)
  }

  function After<T>(c: Pool.Setup<T>, s: Collection<T>, action: Action): Collection<T>
    requires Ready(c, s, action)
  {
    match action
    case Move(step) => s.(pool := Pool.Apply(c, s.pool, step))
    case LookUp(a) => s.(calls := s.calls[a := LookedUp(|s.log|)])
    case Decide(a, at) =>
      var e := Decision(s.log, a, at, CallOf(s, a).read);
      s.(calls := s.calls[a := if e.Served? then Returned else Waiting], log := s.log + [e])
    case Hear(a, at, count) =>
      var e := if count.Some? then Stored(a, at, count.value) else CallFailed(a, at);
      s.(calls := s.calls[a := Returned], log := s.log + [e])
  }

  /** A collection begun after the events of `before`. */
  function Run<T>(c: Pool.Setup<T>, before: seq<Event>, actions: seq<Action>): Option<Collection<T>> {
    if actions == [] then Some(Collection(Pool.Init(c), map[], before))
    else
      var s, action := Run(c, before, actions[..|actions| - 1]), actions[|actions| - 1];
      if s.Some? && Ready(c, s.value, action) then Some(After(c, s.value, action)) else None
  }

  datatype Round<T> = Round(setup: Pool.Setup<T>, actions: seq<Action>)

  /** The events of collections that each begin when the one before has completed: the main loop
      makes one export at a time, and an export waits for its collection. */
  function Finished<T>(rounds: seq<Round<T>>): Option<seq<Event>> {
    if rounds == [] then Some([])
    else
      var before, last := Finished(rounds[..|rounds| - 1]), rounds[|rounds| - 1];
      if before.None? then None
      else
        var s := Run(last.setup, before.value, last.actions);
        if s.Some? && Pool.Final(s.value.pool) then Some(s.value.log) else None
  }

  // ---------------------------------------------------------------- the invariant

  /** What the events of this collection are for an array, by where its worker is. */
  ghost predicate CallFits<T>(s: Collection<T>, from: nat, a: string) {
    match CallOf(s, a)
    case Idle => NoEventOf(s.log, from, a)
    case LookedUp(read) => NoEventOf(s.log, from, a) && from <= read <= |s.log|
    case Waiting => OnlyMissOf(s.log, from, a)
    case Returned => true
  }

  predicate NoEventOf(log: seq<Event>, from: nat, a: string) {
    forall i :: from <= i < |log| ==> log[i].arrayId != a
  }

  predicate OnlyMissOf(log: seq<Event>, from: nat, a: string) {
    && (exists i :: from <= i < |log| && log[i].Missed? && log[i].arrayId == a)
    && (forall i :: from <= i < |log| && log[i].arrayId == a ==> log[i].Missed?)
  }

  ghost predicate Inv<T>(s: Collection<T>, before: seq<Event>) {
    && before <= s.log && IsRun(s.log) && IsCollection(s.log, |before|)
    && forall a :: CallFits(s, |before|, a)
  }

  lemma ExtendCollection(log: seq<Event>, from: nat, e: Event)
    requires IsCollection(log, from) && from <= |log|
    requires match e
             case Served(a, _, _, read) => NoEventOf(log, from, a) && from <= read <= |log|
             case Missed(a, _, read) => NoEventOf(log, from, a) && from <= read <= |log|
             case _ => OnlyMissOf(log, from, e.arrayId)
    ensures IsCollection(log + [e], from)
  {
    var log' := log + [e];
    forall i | from <= i < |log'| && (log'[i].Stored? || log'[i].CallFailed?)
      ensures HasMiss(log', from, i)
    {
      if i < |log| {
        assert HasMiss(log, from, i);
        var m :| from <= m < i && log[m].Missed? && log[m].arrayId == log[i].arrayId;
        assert log'[m] == log[m];
      } else {
        var m :| from <= m < |log| && log[m].Missed? && log[m].arrayId == e.arrayId;
        assert log'[m] == log[m];
      }
    }
  }

  lemma OthersStillFit<T>(s: Collection<T>, s': Collection<T>, e: Event, from: nat, a: string)
    requires CallFits(s, from, a) && from <= |s.log|
    requires s'.log == s.log + [e] && e.arrayId != a && CallOf(s', a) == CallOf(s, a)
    ensures CallFits(s', from, a)
  {
    if CallOf(s, a).Waiting? {
      var i :| from <= i < |s.log| && s.log[i].Missed? && s.log[i].arrayId == a;
      assert s'.log[i] == s.log[i];
    }
  }

  lemma DecideKeepsInv<T>(c: Pool.Setup<T>, s: Collection<T>, before: seq<Event>, a: string, at: int)
    requires Inv(s, before) && Ready(c, s, Decide(a, at))
    ensures Inv(After(c, s, Decide(a, at)), before)
  {
    var s', from := After(c, s, Decide(a, at)), |before|;
    assert CallFits(s, from, a);
    var e := Decision(s.log, a, at, CallOf(s, a).read);
    assert s'.log == s.log + [e];
    ExtendRun(s.log, e);
    ExtendCollection(s.log, from, e);
    forall b
      ensures CallFits(s', from, b)
    {
      assert CallFits(s, from, b);
      if b != a {
        OthersStillFit(s, s', e, from, b);
      } else {
        assert s'.log[|s.log|] == e;
      }
    }
  }

  lemma HearKeepsInv<T>(c: Pool.Setup<T>, s: Collection<T>, before: seq<Event>, a: string, at: int, count: Option<nat>)
    requires Inv(s, before) && Ready(c, s, Hear(a, at, count))
    ensures Inv(After(c, s, Hear(a, at, count)), before)
  {
    var s', from := After(c, s, Hear(a, at, count)), |before|;
    assert CallFits(s, from, a);
    var e := s'.log[|s.log|];
    assert s'.log == s.log + [e];
    ExtendRun(s.log, e);
    ExtendCollection(s.log, from, e);
    forall b
      ensures CallFits(s', from, b)
    {
      assert CallFits(s, from, b);
      if b != a {
        OthersStillFit(s, s', e, from, b);
      }
    }
  }

  lemma QuietKeepsInv<T>(c: Pool.Setup<T>, s: Collection<T>, before: seq<Event>, action: Action)
    requires Inv(s, before) && Ready(c, s, action) && (action.Move? || action.LookUp?)
    ensures Inv(After(c, s, action), before)
  {
    var s' := After(c, s, action);
    forall b
      ensures CallFits(s', |before|, b)
    {
      assert CallFits(s, |before|, b);
    }
  }

  lemma {:induction false} RunKeepsInv<T>(c: Pool.Setup<T>, before: seq<Event>, actions: seq<Action>)
    requires IsRun(before) && Run(c, before, actions).Some?
    ensures Inv(Run(c, before, actions).value, before)
  {
    if actions != [] {
      var front, action := actions[..|actions| - 1], actions[|actions| - 1];
      RunKeepsInv(c, before, front);
      var s := Run(c, before, front).value;
      match action
      case Decide(a, at) => DecideKeepsInv(c, s, before, a, at);
      case Hear(a, at, count) => HearKeepsInv(c, s, before, a, at, count);
      case _ => QuietKeepsInv(c, s, before, action);
    }
  }

  // ---------------------------------------------------------------- results

  lemma AppendCollection<T>(s: Collection<T>, before: seq<Event>, sizes: seq<nat>)
    requires IsCollectorRun(before, sizes) && Inv(s, before)
    ensures IsCollectorRun(s.log, sizes + [|s.log| - |before|])
  {
    var all := sizes + [|s.log| - |before|];
    assert all[..|all| - 1] == sizes;
    assert s.log[..|before|] == before;
  }

  lemma {:induction false} FinishedIsCollectorRun<T>(rounds: seq<Round<T>>) returns (sizes: seq<nat>)
    requires Finished(rounds).Some?
    ensures IsRun(Finished(rounds).value) && IsCollectorRun(Finished(rounds).value, sizes)
  {
    if rounds == [] {
      sizes := [];
    } else {
      var front, last := rounds[..|rounds| - 1], rounds[|rounds| - 1];
      var earlier := FinishedIsCollectorRun(front);
      var before := Finished(front).value;
      RunKeepsInv(last.setup, before, last.actions);
      var s := Run(last.setup, before, last.actions).value;
      AppendCollection(s, before, earlier);
      sizes := earlier + [|s.log| - |before|];
    }
  }

  /** In every run of the collector, in any interleaving of its workers and at any moment of a
      collection, the events on the cache are those of whole collections one after the other, and
      of this one: calls for one array do not overlap. */
  lemma CollectorRunsAreSequential<T>(rounds: seq<Round<T>>, c: Pool.Setup<T>, actions: seq<Action>)
    requires Finished(rounds).Some? && Run(c, Finished(rounds).value, actions).Some?
    ensures var log := Run(c, Finished(rounds).value, actions).value.log;
            IsRun(log) && SequentialPerArray(log) && exists sizes :: IsCollectorRun(log, sizes)
  {
    var before := Finished(rounds).value;
    var sizes := FinishedIsCollectorRun(rounds);
    RunKeepsInv(c, before, actions);
    var s := Run(c, before, actions).value;
    AppendCollection(s, before, sizes);
    CallsAreSequential(s.log, sizes + [|s.log| - |before|]);
  }

  /** So every two refreshes of one array are at least the TTL apart. */
  lemma CollectorRefreshesAreApart<T>(rounds: seq<Round<T>>, c: Pool.Setup<T>, actions: seq<Action>, i: nat, j: nat)
    requires Finished(rounds).Some? && Run(c, Finished(rounds).value, actions).Some?
    requires var log := Run(c, Finished(rounds).value, actions).value.log;
             i < j < |log| && log[i].Stored? && log[j].Stored? && log[i].arrayId == log[j].arrayId
    ensures var log := Run(c, Finished(rounds).value, actions).value.log;
            log[j].at - log[i].at >= SG_COUNT_CACHE_TTL
  {
    CollectorRunsAreSequential(rounds, c, actions);
    RefreshesAreApart(Run(c, Finished(rounds).value, actions).value.log, i, j);
  }

  // ---------------------------------------------------------------- what runs there are

  lemma GoOn<T>(c: Pool.Setup<T>, before: seq<Event>, actions: seq<Action>, action: Action)
    requires Run(c, before, actions).Some? && Ready(c, Run(c, before, actions).value, action)
    ensures Run(c, before, actions + [action]) == Some(After(c, Run(c, before, actions).value, action))
  {
    assert (actions + [action])[..|actions|] == actions;
  }

  /** A run of the pool before any call. */
  lemma {:induction false} MoveAll<T>(c: Pool.Setup<T>, before: seq<Event>, steps: seq<Pool.Step>)
      returns (actions: seq<Action>)
    requires Pool.Execute(c, steps).Some?
    ensures Run(c, before, actions) == Some(Collection(Pool.Execute(c, steps).value, map[], before))
  {
    if steps == [] {
      actions := [];
    } else {
      actions := MoveAll(c, before, steps[..|steps| - 1]);
      GoOn(c, before, actions, Move(steps[|steps| - 1]));
      actions := actions + [Move(steps[|steps| - 1])];
    }
  }

  lemma Miss<T>(c: Pool.Setup<T>, actions: seq<Action>, a: string) returns (more: seq<Action>)
    requires Run(c, [], actions).Some?
    requires var s := Run(c, [], actions).value;
             a in s.pool.ctl.running && CallOf(s, a).Idle? && ClockReads(s.log, 0) && Cache(s.log) == map[]
    ensures Run(c, [], more).Some?
    ensures var s, s' := Run(c, [], actions).value, Run(c, [], more).value;
            && s'.pool == s.pool && s'.calls == s.calls[a := Waiting]
            && ClockReads(s'.log, 0) && Cache(s'.log) == map[]
  {
    var s := Run(c, [], actions).value;
    assert s.log[..|s.log|] == s.log;
    GoOn(c, [], actions, LookUp(a));
    GoOn(c, [], actions + [LookUp(a)], Decide(a, 0));
    more := actions + [LookUp(a)] + [Decide(a, 0)];
    var e := Missed(a, 0, |s.log|);
    assert Run(c, [], more).value.log == s.log + [e];
    assert (s.log + [e])[..|s.log|] == s.log;
    assert s.calls[a := LookedUp(|s.log|)][a := Waiting] == s.calls[a := Waiting];
  }

  lemma MissAll<T>(c: Pool.Setup<T>, actions: seq<Action>, ws: set<string>) returns (more: seq<Action>)
    requires Run(c, [], actions).Some?
    requires var s := Run(c, [], actions).value;
             && ws <= s.pool.ctl.running && (forall a :: a in ws ==> CallOf(s, a).Idle?)
             && ClockReads(s.log, 0) && Cache(s.log) == map[]
    ensures Run(c, [], more).Some?
    ensures var s, s' := Run(c, [], actions).value, Run(c, [], more).value;
            && s'.pool == s.pool && (forall a :: a in ws ==> CallOf(s', a).Waiting?)
            && (forall a :: a !in ws ==> CallOf(s', a) == CallOf(s, a))
    decreases ws
  {
    if ws == {} {
      return actions;
    }
    var a :| a in ws;
    more := Miss(c, actions, a);
    more := MissAll(c, more, ws - {a});
  }

  /** The calls of different arrays are not serialized: the workers of any arrays, up to the limit,
      can be waiting for the API at once. */
  lemma AnyCallsTogether<T>(c: Pool.Setup<T>, ws: set<string>) returns (actions: seq<Action>)
    requires ws <= c.out.Keys && |ws| <= c.limit
    ensures Run(c, [], actions).Some?
    ensures var s := Run(c, [], actions).value;
            s.pool.ctl.running == ws && forall a :: a in ws ==> CallOf(s, a).Waiting?
  {
    var steps := Pool.AnyWorkersTogether(c, ws, {});
    actions := MoveAll(c, [], steps);
    actions := MissAll(c, actions, ws);
  }
}
