/** The service's main loop: leader polls, three collection tickers, the liveness probe, errors,
    cancellation and interval changes, over whole runs. Times are nanoseconds. */
module RunLoop {
  import opened Collections

  const MAXIMUM_TICK_INTERVAL: int := 86_400_000_000_000
  const MINIMUM_TICK_INTERVAL: int := 5_000_000_000

  datatype Kind = Capacity | Performance | Topology

  /** One value per kind of collection. */
  datatype PerKind<T> = PerKind(capacity: T, performance: T, topology: T) {
    function Of(k: Kind): T {
      match k
      case Capacity => capacity
      case Performance => performance
      case Topology => topology
    }

    function With(k: Kind, x: T): PerKind<T> {
      match k
      case Capacity => this.(capacity := x)
      case Performance => this.(performance := x)
      case Topology => this.(topology := x)
    }
  }

  datatype Config = Config(intervals: PerKind<int>)

  datatype ConfigError = NoConfig | IntervalOutOfRange(kind: Kind)

  predicate InRange(interval: int) { MINIMUM_TICK_INTERVAL <= interval <= MAXIMUM_TICK_INTERVAL }

  predicate AllInRange(i: PerKind<int>) { InRange(i.capacity) && InRange(i.performance) && InRange(i.topology) }

  predicate AllPositive(i: PerKind<int>) { i.capacity > 0 && i.performance > 0 && i.topology > 0 }

  function ValidateConfig(config: Option<Config>): (error: Option<ConfigError>)
    ensures error.None? <==> config.Some? && AllInRange(config.value.intervals)
    ensures error.Some? && error.value.IntervalOutOfRange? ==>
              config.Some? && !InRange(config.value.intervals.Of(error.value.kind))
  {
    if config.None? then Some(NoConfig)
    else
      var i := config.value.intervals;
      if i.capacity > MAXIMUM_TICK_INTERVAL || i.capacity < MINIMUM_TICK_INTERVAL
      then Some(IntervalOutOfRange(Capacity))
      else if i.performance > MAXIMUM_TICK_INTERVAL || i.performance < MINIMUM_TICK_INTERVAL
      then Some(IntervalOutOfRange(Performance))
      else if i.topology > MAXIMUM_TICK_INTERVAL || i.topology < MINIMUM_TICK_INTERVAL
      then Some(IntervalOutOfRange(Topology))
      else None
  }

  /** A ticker: its period, and the time before which its next tick cannot be received. */
  datatype Ticker = Ticker(period: int, due: int)

  /** time.NewTicker and Ticker.Reset: the first tick is a full period away. Since Go 1.23 no tick
      from before a Reset is received after it. */
  function Started(period: int, at: int): Ticker { Ticker(period, at + period) }

  /** A received tick: further ticks come at whole periods, late ones are dropped. */
  function Consumed(t: Ticker, at: int): Ticker
  {
    if t.period <= 0 then t else Ticker(t.period, t.due + ((at - t.due) / t.period + 1) * t.period)
  }

  /** When a cancellation is noticed between two collections of a burst. */
  datatype Cancellation = Never | AfterCapacity | AfterPerformance

  /** A branch of the select, with what the leader elector answers at each question asked in it. */
  datatype Branch =
    | LeaderPoll(isLeader: bool, leads: PerKind<bool>, cancelled: Cancellation, resetAt: PerKind<int>)
    | Tick(kind: Kind, leading: bool)
    | LivenessProbe
    | ErrorReceived(fatal: bool)
    | ContextDone

  /** One turn of the loop: a branch taken at a time, the enable flags as it finds them, and the
      intervals read at its end. The reload writes all of these fields without the lock, so any
      values can be read. */
  datatype Turn = Turn(at: int, branch: Branch, enabled: PerKind<bool>, endAt: int, read: PerKind<int>)

  datatype Entry =
    | BurstStarted | LeaderChecked(kind: Kind, leader: bool)
    | FlagRead(kind: Kind, enabled: bool) | Exported(kind: Kind)

  datatype Outcome = Running | Rejected(error: ConfigError) | Cancelled | Failed | Panicked

  datatype Loop = Loop(
    local: PerKind<int>,       // the local copies of the intervals
    tickers: PerKind<Ticker>,
    wasLeader: bool,
    collectedOnLeaderAcquired: bool,
    log: seq<Entry>,
    outcome: Outcome
  )

  function Init(config: Config, startedAt: PerKind<int>): Loop {
    var i := config.intervals;
    Loop(i, PerKind(Started(i.capacity, startedAt.capacity), Started(i.performance, startedAt.performance),
                    Started(i.topology, startedAt.topology)), false, false, [], Running)
  }

  /** collectCapacityMetrics and its two siblings. */
  function Collect(k: Kind, leader: bool, enabled: bool): seq<Entry> {
    if !leader then [LeaderChecked(k, false)]
    else if !enabled then [LeaderChecked(k, true), FlagRead(k, false)]
    else [LeaderChecked(k, true), FlagRead(k, true), Exported(k)]
  }

  /** The log after the immediate collections, as far as a cancellation lets them go. */
  function BurstLog(enabled: PerKind<bool>, log: seq<Entry>, b: Branch): seq<Entry>
    requires b.LeaderPoll?
  {
    var log1 := log + [BurstStarted] + Collect(Capacity, b.leads.capacity, enabled.capacity);
    if b.cancelled.AfterCapacity? then log1
    else
      var log2 := log1 + Collect(Performance, b.leads.performance, enabled.performance);
      if b.cancelled.AfterPerformance? then log2
      else log2 + Collect(Topology, b.leads.topology, enabled.topology)
  }

  function AfterPoll(enabled: PerKind<bool>, s: Loop, b: Branch): Loop
    requires b.LeaderPoll?
  {
    var lost := s.wasLeader && !b.isLeader;
    var s1 := if lost then s.(wasLeader := false, collectedOnLeaderAcquired := false) else s;
    if s1.collectedOnLeaderAcquired || !b.isLeader then s1
    else
      var s2 := s1.(wasLeader := true, log := BurstLog(enabled, s1.log, b));
      if !b.cancelled.Never? then s2.(outcome := Cancelled)
      else s2.(collectedOnLeaderAcquired := true,
               tickers := PerKind(Started(s.local.capacity, b.resetAt.capacity),
                                  Started(s.local.performance, b.resetAt.performance),
                                  Started(s.local.topology, b.resetAt.topology)))
  }

  /** A performance tick is taken off its channel and nothing else happens. */
  function AfterTick(enabled: PerKind<bool>, s: Loop, k: Kind, leader: bool, at: int): Loop {
    var s1 := s.(tickers := s.tickers.With(k, Consumed(s.tickers.Of(k), at)));
    if k.Performance? then s1 else s1.(log := s1.log + Collect(k, leader, enabled.Of(k)))
  }

  function AfterBranch(s: Loop, t: Turn): Loop {
    match t.branch
    case LeaderPoll(_, _, _, _) => AfterPoll(t.enabled, s, t.branch)
    case Tick(k, leader) => AfterTick(t.enabled, s, k, leader, t.at)
    case LivenessProbe => s
    case ErrorReceived(fatal) => if fatal then s.(outcome := Failed) else s
    case ContextDone => s.(outcome := Cancelled)
  }

  /** A changed interval gets a new ticker; NewTicker panics on one that is not positive. */
  function Reloaded(s: Loop, k: Kind, interval: int, at: int): Loop {
    if !s.outcome.Running? || s.local.Of(k) == interval then s
    else if interval <= 0 then s.(outcome := Panicked, local := s.local.With(k, interval))
    else s.(local := s.local.With(k, interval), tickers := s.tickers.With(k, Started(interval, at)))
  }

  function ReloadedAll(s: Loop, read: PerKind<int>, at: int): Loop {
    var s1 := Reloaded(s, Capacity, read.capacity, at);
    var s2 := Reloaded(s1, Performance, read.performance, at);
    Reloaded(s2, Topology, read.topology, at)
  }

  /** A nil error continues the loop before the intervals are read. */
  predicate ReadsIntervals(b: Branch) { !b.ErrorReceived? }

  function AfterTurn(s: Loop, t: Turn): Loop {
    if !s.outcome.Running? then s
    else
      var s1 := AfterBranch(s, t);
      if ReadsIntervals(t.branch) then ReloadedAll(s1, t.read, t.endAt) else s1
  }

  function After(config: Config, startedAt: PerKind<int>, turns: seq<Turn>): Loop {
    if turns == [] then Init(config, startedAt)
    else AfterTurn(After(config, startedAt, turns[..|turns| - 1]), turns[|turns| - 1])
  }

  // ---------------------------------------------------------------- the method

  /** The variables of the loop, and what has been checked and exported so far. */
  class LoopVariables {
    var capacityTickInterval: int
    var performanceTickInterval: int
    var topologyMetricsTickInterval: int
    var capacityTicker: Ticker
    var performanceTicker: Ticker
    var topologyMetricsTicker: Ticker
    var wasLeader: bool
    var collectedOnLeaderAcquired: bool
    var log: seq<Entry>
    var outcome: Outcome

    ghost function Value(): Loop
      reads this
    {
      Loop(PerKind(capacityTickInterval, performanceTickInterval, topologyMetricsTickInterval),
           PerKind(capacityTicker, performanceTicker, topologyMetricsTicker),
           wasLeader, collectedOnLeaderAcquired, log, outcome)
    }

    constructor (config: Config, startedAt: PerKind<int>)
      ensures Value() == Init(config, startedAt)
    {
      capacityTickInterval := config.intervals.capacity;
      performanceTickInterval := config.intervals.performance;
      topologyMetricsTickInterval := config.intervals.topology;
      capacityTicker := Started(config.intervals.capacity, startedAt.capacity);
      performanceTicker := Started(config.intervals.performance, startedAt.performance);
      topologyMetricsTicker := Started(config.intervals.topology, startedAt.topology);
      wasLeader, collectedOnLeaderAcquired := false, false;
      log, outcome := [], Running;
    }

    method CollectMetrics(k: Kind, leader: bool, enabled: bool)
      modifies this`log
      ensures log == old(log) + Collect(k, leader, enabled)
    {
      log := log + [LeaderChecked(k, leader)];
      if !leader {
        return;
      }
      log := log + [FlagRead(k, enabled)];
      if !enabled {
        return;
      }
      log := log + [Exported(k)];
    }

    method OnLeaderPoll(enabled: PerKind<bool>, b: Branch)
      requires b.LeaderPoll?
      modifies this
      ensures Value() == AfterPoll(enabled, old(Value()), b)
    {
      if wasLeader && !b.isLeader {
        collectedOnLeaderAcquired := false;
        wasLeader := false;
      }
      if !collectedOnLeaderAcquired && b.isLeader {
        wasLeader := true;
        CollectImmediately(enabled, b);
        if !b.cancelled.Never? {
          outcome := Cancelled;
          return;
        }
        collectedOnLeaderAcquired := true;
        capacityTicker := Started(capacityTickInterval, b.resetAt.capacity);
        performanceTicker := Started(performanceTickInterval, b.resetAt.performance);
        topologyMetricsTicker := Started(topologyMetricsTickInterval, b.resetAt.topology);
      }
    }

    /** The three collections of a burst, with a look at the context between them. */
    method CollectImmediately(enabled: PerKind<bool>, b: Branch)
      requires b.LeaderPoll?
      modifies this`log
      ensures log == BurstLog(enabled, old(log), b)
    {
      log := log + [BurstStarted];
      CollectMetrics(Capacity, b.leads.capacity, enabled.capacity);
      if b.cancelled.AfterCapacity? {
        return;
      }
      CollectMetrics(Performance, b.leads.performance, enabled.performance);
      if b.cancelled.AfterPerformance? {
        return;
      }
      CollectMetrics(Topology, b.leads.topology, enabled.topology);
    }

    method OnTick(enabled: PerKind<bool>, k: Kind, leader: bool, at: int)
      modifies this
      ensures Value() == AfterTick(enabled, old(Value()), k, leader, at)
    {
      match k
      case Capacity =>
        capacityTicker := Consumed(capacityTicker, at);
        CollectMetrics(Capacity, leader, enabled.capacity);
      case Performance =>
        performanceTicker := Consumed(performanceTicker, at);
      case Topology =>
        topologyMetricsTicker := Consumed(topologyMetricsTicker, at);
        CollectMetrics(Topology, leader, enabled.topology);
    }

    method CheckIntervals(read: PerKind<int>, at: int)
      requires outcome.Running?
      modifies this
      ensures Value() == ReloadedAll(old(Value()), read, at)
    {
      if capacityTickInterval != read.capacity {
        capacityTickInterval := read.capacity;
        if capacityTickInterval <= 0 { outcome := Panicked; return; }
        capacityTicker := Started(capacityTickInterval, at);
      }
      ghost var s1 := Reloaded(old(Value()), Capacity, read.capacity, at);
      assert Value() == s1;
      if performanceTickInterval != read.performance {
        performanceTickInterval := read.performance;
        if performanceTickInterval <= 0 { outcome := Panicked; return; }
        performanceTicker := Started(performanceTickInterval, at);
      }
      assert Value() == Reloaded(s1, Performance, read.performance, at);
      if topologyMetricsTickInterval != read.topology {
        topologyMetricsTickInterval := read.topology;
        if topologyMetricsTickInterval <= 0 { outcome := Panicked; return; }
        topologyMetricsTicker := Started(topologyMetricsTickInterval, at);
      }
    }
  }

  /** The configuration the loop starts with is checked; the intervals it reads later are not. */
  method Run(config: Option<Config>, startedAt: PerKind<int>, turns: seq<Turn>)
      returns (rejected: Option<ConfigError>, loop: LoopVariables?)
    ensures rejected == ValidateConfig(config)
    ensures rejected.Some? <==> loop == null
    ensures rejected.None? ==> loop.Value() == After(config.value, startedAt, turns)
  {
    rejected, loop := ValidateConfig(config), null;
    if rejected.Some? {
      return;
    }
    loop := new LoopVariables(config.value, startedAt);
    for n := 0 to |turns|
      invariant loop != null && fresh(loop)
      invariant loop.outcome.Running? && loop.Value() == After(config.value, startedAt, turns[..n])
    {
      assert turns[..n + 1][..n] == turns[..n];
      var t := turns[n];
      var skipped := false;
      match t.branch {
        case LeaderPoll(_, _, _, _) => loop.OnLeaderPoll(t.enabled, t.branch);
        case Tick(k, leader) => loop.OnTick(t.enabled, k, leader, t.at);
        case LivenessProbe =>
        case ErrorReceived(fatal) =>
          if fatal { loop.outcome := Failed; }
          skipped := true;
        case ContextDone => loop.outcome := Cancelled;
      }
      if loop.outcome.Running? && !skipped {
        loop.CheckIntervals(t.read, t.endAt);
      }
      assert loop.Value() == After(config.value, startedAt, turns[..n + 1]);
      if !loop.outcome.Running? {
        StoppedStays(config.value, startedAt, turns, n + 1);
        return;
      }
    }
    assert turns[..|turns|] == turns;
  }

  lemma {:induction false} StoppedStays(config: Config, startedAt: PerKind<int>, turns: seq<Turn>, n: nat)
    requires n <= |turns| && !After(config, startedAt, turns[..n]).outcome.Running?
    ensures After(config, startedAt, turns) == After(config, startedAt, turns[..n])
    decreases |turns|
  {
    if n == |turns| {
      assert turns[..n] == turns;
    } else {
      assert turns[..|turns| - 1][..n] == turns[..n];
      StoppedStays(config, startedAt, turns[..|turns| - 1], n);
    }
  }

  // ---------------------------------------------------------------- leadership

  /** All turns but perhaps the last leave the loop running. */
  predicate Executed(config: Config, startedAt: PerKind<int>, turns: seq<Turn>) {
    turns == [] || After(config, startedAt, turns[..|turns| - 1]).outcome.Running?
  }

  /** The answer to the last leader poll; before the first one, not leading. */
  function LastPoll(turns: seq<Turn>): bool {
    if turns == [] then false
    else
      var b := turns[|turns| - 1].branch;
      if b.LeaderPoll? then b.isLeader else LastPoll(turns[..|turns| - 1])
  }

  /** The last turn is a poll that finds leadership newly gained. */
  predicate IsEdge(turns: seq<Turn>) {
    turns != [] && var b := turns[|turns| - 1].branch;
    b.LeaderPoll? && b.isLeader && !LastPoll(turns[..|turns| - 1])
  }

  function Edges(turns: seq<Turn>): nat {
    if turns == [] then 0 else Edges(turns[..|turns| - 1]) + if IsEdge(turns) then 1 else 0
  }

  function Count(e: Entry, log: seq<Entry>): nat {
    if log == [] then 0 else Count(e, log[..|log| - 1]) + if log[|log| - 1] == e then 1 else 0
  }

  /** While the loop runs, both flags equal the last poll's answer at every loop head; and the
      number of bursts is the number of false-to-true edges of the polled status, also when a
      cancellation ends the run inside a burst. */
  lemma {:induction false} BurstsAreLeadershipEdges(config: Config, startedAt: PerKind<int>, turns: seq<Turn>)
    requires Executed(config, startedAt, turns)
    ensures var s := After(config, startedAt, turns);
            && (s.outcome.Running? ==> s.wasLeader == s.collectedOnLeaderAcquired == LastPoll(turns))
            && Count(BurstStarted, s.log) == Edges(turns)
  {
    if turns != [] {
      var front, t := turns[..|turns| - 1], turns[|turns| - 1];
      var before := After(config, startedAt, front);
      EarlierExecuted(config, startedAt, turns);
      BurstsAreLeadershipEdges(config, startedAt, front);
      BranchFlags(before, t, LastPoll(front));
      ReloadKeepsFlags(AfterBranch(before, t), t.read, t.endAt);
    }
  }

  lemma BranchFlags(s: Loop, t: Turn, lastPoll: bool)
    requires s.outcome.Running? && s.wasLeader == s.collectedOnLeaderAcquired == lastPoll
    ensures var s', poll := AfterBranch(s, t), t.branch.LeaderPoll?;
            && (s'.outcome.Running? ==>
                  s'.wasLeader == s'.collectedOnLeaderAcquired == (if poll then t.branch.isLeader else lastPoll))
            && Count(BurstStarted, s'.log) == Count(BurstStarted, s.log)
                 + (if poll && t.branch.isLeader && !lastPoll then 1 else 0)
  {
    match t.branch
    case LeaderPoll(_, _, _, _) =>
      BurstCounts(t.enabled, s.log, t.branch, BurstStarted);
      BurstGainIs(BurstStarted, t.enabled, t.branch);
    case Tick(k, leader) => CollectCounts(s.log, k, leader, t.enabled.Of(k), BurstStarted);
    case _ =>
  }

  lemma CountSnoc(e: Entry, log: seq<Entry>, last: Entry)
    ensures Count(e, log + [last]) == Count(e, log) + if last == e then 1 else 0
  {
    assert (log + [last])[..|log|] == log;
  }

  /** The exports of one call to a collection. */
  function Gain(e: Entry, k: Kind, leader: bool, enabled: bool): nat {
    if e == Exported(k) && leader && enabled then 1 else 0
  }

  /** The exports and the burst mark of a burst. */
  function BurstGain(e: Entry, enabled: PerKind<bool>, b: Branch): nat
    requires b.LeaderPoll?
  {
    (if e.BurstStarted? then 1 else 0) + Gain(e, Capacity, b.leads.capacity, enabled.capacity)
    + (if b.cancelled.AfterCapacity? then 0 else Gain(e, Performance, b.leads.performance, enabled.performance))
    + (if !b.cancelled.Never? then 0 else Gain(e, Topology, b.leads.topology, enabled.topology))
  }

  lemma BurstGainIs(e: Entry, enabled: PerKind<bool>, b: Branch)
    requires b.LeaderPoll? && (e.BurstStarted? || e.Exported?)
    ensures BurstGain(e, enabled, b) ==
              if e.BurstStarted? || (BurstCollects(b, e.kind) && enabled.Of(e.kind)) then 1 else 0
  {
  }

  lemma CollectCounts(log: seq<Entry>, k: Kind, leader: bool, enabled: bool, e: Entry)
    requires e.BurstStarted? || e.Exported?
    ensures Count(e, log + Collect(k, leader, enabled)) == Count(e, log) + Gain(e, k, leader, enabled)
  {
    var checked := log + [LeaderChecked(k, leader)];
    var read := checked + [FlagRead(k, enabled)];
    CountSnoc(e, log, LeaderChecked(k, leader));
    CountSnoc(e, checked, FlagRead(k, enabled));
    if leader && enabled {
      CountSnoc(e, read, Exported(k));
      assert log + Collect(k, leader, enabled) == read + [Exported(k)];
    } else if leader {
      assert log + Collect(k, leader, enabled) == read;
    } else {
      assert log + Collect(k, leader, enabled) == checked;
    }
  }

  lemma FirstCounts(enabled: PerKind<bool>, log: seq<Entry>, b: Branch, e: Entry)
    requires b.LeaderPoll? && (e.BurstStarted? || e.Exported?)
    ensures Count(e, log + [BurstStarted] + Collect(Capacity, b.leads.capacity, enabled.capacity))
         == Count(e, log) + (if e.BurstStarted? then 1 else 0) + Gain(e, Capacity, b.leads.capacity, enabled.capacity)
  {
    CountSnoc(e, log, BurstStarted);
    CollectCounts(log + [BurstStarted], Capacity, b.leads.capacity, enabled.capacity, e);
  }

  lemma BurstCounts(enabled: PerKind<bool>, log: seq<Entry>, b: Branch, e: Entry)
    requires b.LeaderPoll? && (e.BurstStarted? || e.Exported?)
    ensures Count(e, BurstLog(enabled, log, b)) == Count(e, log) + BurstGain(e, enabled, b)
  {
    var log1 := log + [BurstStarted] + Collect(Capacity, b.leads.capacity, enabled.capacity);
    var log2 := log1 + Collect(Performance, b.leads.performance, enabled.performance);
    var log3 := log2 + Collect(Topology, b.leads.topology, enabled.topology);
    FirstCounts(enabled, log, b, e);
    LaterCounts(enabled, log1, b, e);
    assert BurstLog(enabled, log, b) ==
           if b.cancelled.AfterCapacity? then log1 else if b.cancelled.AfterPerformance? then log2 else log3;
  }

  lemma LaterCounts(enabled: PerKind<bool>, log1: seq<Entry>, b: Branch, e: Entry)
    requires b.LeaderPoll? && (e.BurstStarted? || e.Exported?)
    ensures var log2 := log1 + Collect(Performance, b.leads.performance, enabled.performance);
            var performed := Count(e, log1) + Gain(e, Performance, b.leads.performance, enabled.performance);
            && Count(e, log2) == performed
            && Count(e, log2 + Collect(Topology, b.leads.topology, enabled.topology))
               == performed + Gain(e, Topology, b.leads.topology, enabled.topology)
  {
    var log2 := log1 + Collect(Performance, b.leads.performance, enabled.performance);
    CollectCounts(log1, Performance, b.leads.performance, enabled.performance, e);
    CollectCounts(log2, Topology, b.leads.topology, enabled.topology, e);
  }

  lemma EarlierExecuted(config: Config, startedAt: PerKind<int>, turns: seq<Turn>)
    requires Executed(config, startedAt, turns) && turns != []
    ensures Executed(config, startedAt, turns[..|turns| - 1])
  {
  }

  lemma ReloadKeepsFlags(s: Loop, read: PerKind<int>, at: int)
    ensures var s' := ReloadedAll(s, read, at);
            s'.wasLeader == s.wasLeader && s'.collectedOnLeaderAcquired == s.collectedOnLeaderAcquired
            && s'.log == s.log && (s'.outcome == s.outcome || s'.outcome.Panicked?)
  {
  }

  // ---------------------------------------------------------------- how runs end

  lemma BranchOutcome(s: Loop, t: Turn)
    requires s.outcome.Running? && s.wasLeader == s.collectedOnLeaderAcquired
    ensures var outcome := AfterBranch(s, t).outcome;
            && (outcome.Failed? <==> t.branch == ErrorReceived(true))
            && (outcome.Cancelled? <==>
                  || t.branch.ContextDone?
                  || (t.branch.LeaderPoll? && t.branch.isLeader && !s.wasLeader && !t.branch.cancelled.Never?))
            && (outcome.Running? || outcome.Failed? || outcome.Cancelled?)
  {
  }

  /** The run's last turn is a burst that a cancellation cut short. */
  predicate EndsInCutBurst(turns: seq<Turn>) {
    IsEdge(turns) && !turns[|turns| - 1].branch.cancelled.Never?
  }

  /** A run has failed exactly if its last turn received an error that is not nil, is cancelled
      exactly if its last turn found the context done or was a burst cut short, and has panicked
      exactly if it went on to read an interval that is not positive; else it goes on. A nil error
      ends nothing. */
  lemma RunEndsIff(config: Config, startedAt: PerKind<int>, turns: seq<Turn>)
    requires ValidateConfig(Some(config)).None? && Executed(config, startedAt, turns) && turns != []
    ensures var t, outcome := turns[|turns| - 1], After(config, startedAt, turns).outcome;
            var cancelled := t.branch.ContextDone? || EndsInCutBurst(turns);
            && (outcome.Failed? <==> t.branch == ErrorReceived(true))
            && (outcome.Cancelled? <==> cancelled)
            && (outcome.Panicked? <==> !cancelled && !t.branch.ErrorReceived? && !AllPositive(t.read))
            && (outcome.Running? <==>
                  t.branch == ErrorReceived(false) || (!cancelled && !t.branch.ErrorReceived? && AllPositive(t.read)))
  {
    var front, t := turns[..|turns| - 1], turns[|turns| - 1];
    var before := After(config, startedAt, front);
    EarlierExecuted(config, startedAt, turns);
    BurstsAreLeadershipEdges(config, startedAt, front);
    BranchOutcome(before, t);
    PanicsExactlyOnNonPositiveInterval(config, startedAt, turns);
    ReloadKeepsFlags(AfterBranch(before, t), t.read, t.endAt);
  }

  // ---------------------------------------------------------------- tickers

  predicate PeriodsMatch(s: Loop) {
    forall k: Kind :: s.tickers.Of(k).period == s.local.Of(k) > 0
  }

  /** At every loop head each live ticker runs at the loop's own interval, and after a turn that
      read the intervals those are the ones read. */
  lemma {:induction false} TickersRunAtTheLocalIntervals(config: Config, startedAt: PerKind<int>, turns: seq<Turn>)
    requires ValidateConfig(Some(config)).None?
    requires After(config, startedAt, turns).outcome.Running?
    ensures PeriodsMatch(After(config, startedAt, turns))
    ensures turns != [] && ReadsIntervals(turns[|turns| - 1].branch) ==>
              After(config, startedAt, turns).local == turns[|turns| - 1].read
    ensures turns != [] && !ReadsIntervals(turns[|turns| - 1].branch) ==>
              After(config, startedAt, turns).local == After(config, startedAt, turns[..|turns| - 1]).local
  {
    if turns != [] {
      TickersRunAtTheLocalIntervals(config, startedAt, turns[..|turns| - 1]);
      var before := After(config, startedAt, turns[..|turns| - 1]);
      BranchKeepsPeriods(before, turns[|turns| - 1]);
      ReloadKeepsPeriods(AfterBranch(before, turns[|turns| - 1]), turns[|turns| - 1].read, turns[|turns| - 1].endAt);
    }
  }

  lemma ReloadKeepsPeriods(s: Loop, read: PerKind<int>, at: int)
    requires PeriodsMatch(s)
    ensures var s' := ReloadedAll(s, read, at); s'.outcome.Running? ==> PeriodsMatch(s') && s'.local == read
  {
  }

  lemma BranchKeepsPeriods(s: Loop, t: Turn)
    requires PeriodsMatch(s)
    ensures PeriodsMatch(AfterBranch(s, t)) && AfterBranch(s, t).local == s.local
  {
  }

  /** A run panics exactly when a turn that would go on reads an interval that is not positive:
      the range check made at the start is not made again. */
  lemma PanicsExactlyOnNonPositiveInterval(config: Config, startedAt: PerKind<int>, turns: seq<Turn>)
    requires ValidateConfig(Some(config)).None? && Executed(config, startedAt, turns) && turns != []
    ensures var t := turns[|turns| - 1];
            var before := After(config, startedAt, turns[..|turns| - 1]);
            After(config, startedAt, turns).outcome.Panicked? <==>
              AfterBranch(before, t).outcome.Running? && ReadsIntervals(t.branch) && !AllPositive(t.read)
  {
    var before := After(config, startedAt, turns[..|turns| - 1]);
    TickersRunAtTheLocalIntervals(config, startedAt, turns[..|turns| - 1]);
    var t := turns[|turns| - 1];
    BranchKeepsPeriods(before, t);
    var s := AfterBranch(before, t);
    assert s.local.Of(Capacity) > 0 && s.local.Of(Performance) > 0 && s.local.Of(Topology) > 0;
  }

  /** The intervals stay in the allowed range at the next loop head exactly when the ones read
      were; so a reload leads the loop out of it. */
  lemma RangeHoldsExactlyWhenRead(config: Config, startedAt: PerKind<int>, turns: seq<Turn>)
    requires ValidateConfig(Some(config)).None? && turns != [] && ReadsIntervals(turns[|turns| - 1].branch)
    requires After(config, startedAt, turns).outcome.Running?
    ensures AllInRange(After(config, startedAt, turns).local) <==> AllInRange(turns[|turns| - 1].read)
  {
    TickersRunAtTheLocalIntervals(config, startedAt, turns);
  }

  /** A reload to one second is accepted by the loop and would be rejected at the start. */
  lemma ReloadEscapesTheRange(config: Config, startedAt: PerKind<int>)
    requires ValidateConfig(Some(config)).None?
    ensures var t := Reload(PerKind(SECOND, SECOND, SECOND));
            After(config, startedAt, [t]).outcome.Running? && !AllInRange(After(config, startedAt, [t]).local)
  {
    var turns := [Reload(PerKind(SECOND, SECOND, SECOND))];
    assert turns[..0] == [];
    PanicsExactlyOnNonPositiveInterval(config, startedAt, turns);
    RangeHoldsExactlyWhenRead(config, startedAt, turns);
  }

  /** A reload of one interval to zero seconds ends the run in a panic. */
  lemma ReloadToZeroPanics(config: Config, startedAt: PerKind<int>, k: Kind)
    requires ValidateConfig(Some(config)).None?
    ensures After(config, startedAt, [Reload(config.intervals.With(k, 0))]).outcome.Panicked?
  {
    var turns := [Reload(config.intervals.With(k, 0))];
    assert turns[..0] == [];
    PanicsExactlyOnNonPositiveInterval(config, startedAt, turns);
  }

  const SECOND: int := 1_000_000_000

  /** A turn that does nothing but read reloaded intervals; a reload sets whole seconds. */
  function Reload(intervals: PerKind<int>): Turn {
    Turn(0, LivenessProbe, PerKind(true, true, true), 0, intervals)
  }

  /** Turns happen one after the other, a reset within its turn; and no tick is received before
      its ticker's due time. */
  predicate Timed(config: Config, startedAt: PerKind<int>, turns: seq<Turn>) {
    forall n :: 0 <= n < |turns| ==> TimedTurn(config, startedAt, turns, n)
  }

  predicate TimedTurn(config: Config, startedAt: PerKind<int>, turns: seq<Turn>, n: nat)
    requires n < |turns|
  {
    var t := turns[n];
    && t.at <= t.endAt
    && (n > 0 ==> turns[n - 1].endAt <= t.at)
    && (t.branch.LeaderPoll? ==> forall k: Kind :: t.at <= t.branch.resetAt.Of(k) <= t.endAt)
    && (t.branch.Tick? ==> After(config, startedAt, turns[..n]).tickers.Of(t.branch.kind).due <= t.at)
  }

  /** Turn i is a burst that ran to its end. */
  predicate CompletesBurst(config: Config, startedAt: PerKind<int>, turns: seq<Turn>, i: nat)
    requires i < |turns|
  {
    var b := turns[i].branch;
    b.LeaderPoll? && b.isLeader && b.cancelled.Never? && !After(config, startedAt, turns[..i]).collectedOnLeaderAcquired
  }

  predicate NoTick(turns: seq<Turn>, k: Kind, from: nat) {
    forall m :: from <= m < |turns| ==> turns[m].branch != Tick(k, true) && turns[m].branch != Tick(k, false)
  }

  lemma {:induction false} DueAfterBurst(config: Config, startedAt: PerKind<int>, turns: seq<Turn>, i: nat, k: Kind)
    requires Timed(config, startedAt, turns) && ValidateConfig(Some(config)).None?
    requires i < |turns| && CompletesBurst(config, startedAt, turns, i) && NoTick(turns, k, i + 1)
    requires After(config, startedAt, turns).outcome.Running?
    ensures var s := After(config, startedAt, turns);
            s.tickers.Of(k).due >= turns[i].branch.resetAt.Of(k) + s.local.Of(k)
    ensures turns[|turns| - 1].endAt >= turns[i].branch.resetAt.Of(k)
    decreases |turns|
  {
    var n := |turns| - 1;
    var front, t := turns[..n], turns[n];
    var before := After(config, startedAt, front);
    TickersRunAtTheLocalIntervals(config, startedAt, front);
    assert TimedTurn(config, startedAt, turns, n);
    if n > i {
      assert front[..i] == turns[..i];
      TimedPrefix(config, startedAt, turns);
      DueAfterBurst(config, startedAt, front, i, k);
      assert turns[n - 1] == front[n - 1];
      assert !(t.branch.Tick? && t.branch.kind == k);
    }
    BranchDue(before, t, k, turns[i].branch.resetAt.Of(k), n == i);
    ReloadDue(AfterBranch(before, t), t.read, t.endAt, k, turns[i].branch.resetAt.Of(k));
  }

  lemma TimedPrefix(config: Config, startedAt: PerKind<int>, turns: seq<Turn>)
    requires Timed(config, startedAt, turns) && turns != []
    ensures Timed(config, startedAt, turns[..|turns| - 1])
  {
    var front := turns[..|turns| - 1];
    forall n | 0 <= n < |front|
      ensures TimedTurn(config, startedAt, front, n)
    {
      assert TimedTurn(config, startedAt, turns, n);
      assert front[..n] == turns[..n];
    }
  }

  lemma BranchDue(s: Loop, t: Turn, k: Kind, since: int, burst: bool)
    requires burst ==> t.branch.LeaderPoll? && t.branch.isLeader && t.branch.cancelled.Never?
                       && !s.collectedOnLeaderAcquired && t.branch.resetAt.Of(k) == since
    requires !burst ==> s.tickers.Of(k).due >= since + s.local.Of(k) && !(t.branch.Tick? && t.branch.kind == k)
    requires t.branch.LeaderPoll? ==> t.branch.resetAt.Of(k) >= since
    ensures var s' := AfterBranch(s, t); s'.tickers.Of(k).due >= since + s'.local.Of(k)
  {
  }

  lemma ReloadDue(s: Loop, read: PerKind<int>, at: int, k: Kind, since: int)
    requires s.tickers.Of(k).due >= since + s.local.Of(k) && at >= since
    ensures var s' := ReloadedAll(s, read, at); s'.outcome.Panicked? || s'.tickers.Of(k).due >= since + s'.local.Of(k)
  {
  }

  /** After a completed burst the next tick of each kind arrives no sooner than one full period of
      its live ticker after that ticker's reset, whatever drains, resets and interval changes lie
      in between. */
  lemma NoEarlyTickAfterBurst(config: Config, startedAt: PerKind<int>, turns: seq<Turn>, i: nat, j: nat, k: Kind)
    requires ValidateConfig(Some(config)).None? && Timed(config, startedAt, turns)
    requires i < j < |turns| && CompletesBurst(config, startedAt, turns, i)
    requires turns[j].branch.Tick? && turns[j].branch.kind == k && NoTick(turns[..j], k, i + 1)
    requires After(config, startedAt, turns[..j]).outcome.Running?
    ensures var live := After(config, startedAt, turns[..j]).tickers.Of(k);
            turns[j].at >= turns[i].branch.resetAt.Of(k) + live.period
  {
    var front := turns[..j];
    forall n | 0 <= n < |front|
      ensures TimedTurn(config, startedAt, front, n)
    {
      assert TimedTurn(config, startedAt, turns, n);
      assert front[..n] == turns[..n];
    }
    assert front[..i] == turns[..i];
    DueAfterBurst(config, startedAt, front, i, k);
    TickersRunAtTheLocalIntervals(config, startedAt, front);
    assert TimedTurn(config, startedAt, turns, j);
  }

  // ---------------------------------------------------------------- exports

  /** Every export is immediately preceded by a check that found the pod leading and then a look
      at the flag of its own kind that found it enabled. */
  predicate Guarded(log: seq<Entry>) {
    forall n :: 0 <= n < |log| && log[n].Exported? ==>
      n > 1 && log[n - 2] == LeaderChecked(log[n].kind, true) && log[n - 1] == FlagRead(log[n].kind, true)
  }

  lemma GuardedAppend(log: seq<Entry>, more: seq<Entry>)
    requires Guarded(log) && Guarded(more)
    ensures Guarded(log + more)
  {
  }

  lemma BurstKeepsGuarded(enabled: PerKind<bool>, log: seq<Entry>, b: Branch)
    requires b.LeaderPoll? && Guarded(log)
    ensures Guarded(BurstLog(enabled, log, b))
  {
    var log0 := log + [BurstStarted];
    var log1 := log0 + Collect(Capacity, b.leads.capacity, enabled.capacity);
    var log2 := log1 + Collect(Performance, b.leads.performance, enabled.performance);
    GuardedAppend(log, [BurstStarted]);
    GuardedAppend(log0, Collect(Capacity, b.leads.capacity, enabled.capacity));
    GuardedAppend(log1, Collect(Performance, b.leads.performance, enabled.performance));
    GuardedAppend(log2, Collect(Topology, b.leads.topology, enabled.topology));
  }

  lemma BranchKeepsGuarded(s: Loop, t: Turn)
    requires Guarded(s.log)
    ensures Guarded(AfterBranch(s, t).log)
  {
    match t.branch
    case LeaderPoll(_, _, _, _) => BurstKeepsGuarded(t.enabled, s.log, t.branch);
    case Tick(k, leader) => GuardedAppend(s.log, Collect(k, leader, t.enabled.Of(k)));
    case _ =>
  }

  lemma {:induction false} ExportsAreGuarded(config: Config, startedAt: PerKind<int>, turns: seq<Turn>)
    ensures Guarded(After(config, startedAt, turns).log)
  {
    if turns != [] {
      var before := After(config, startedAt, turns[..|turns| - 1]);
      ExportsAreGuarded(config, startedAt, turns[..|turns| - 1]);
      BranchKeepsGuarded(before, turns[|turns| - 1]);
      ReloadKeepsFlags(AfterBranch(before, turns[|turns| - 1]), turns[|turns| - 1].read, turns[|turns| - 1].endAt);
    }
  }

  /** The burst gets to a kind, and the pod still leads then. */
  predicate BurstCollects(b: Branch, k: Kind)
    requires b.LeaderPoll?
  {
    b.leads.Of(k) && (k.Capacity? || b.cancelled.Never? || (k.Performance? && b.cancelled.AfterPerformance?))
  }

  /** The exports of a kind that bursts make. */
  function BurstExports(k: Kind, turns: seq<Turn>): nat {
    if turns == [] then 0
    else
      var last := turns[|turns| - 1];
      BurstExports(k, turns[..|turns| - 1])
      + if IsEdge(turns) && BurstCollects(last.branch, k) && last.enabled.Of(k) then 1 else 0
  }

  /** The ticks of a kind received while leading, with its flag enabled. */
  function LeadingTicks(k: Kind, turns: seq<Turn>): nat {
    if turns == [] then 0
    else
      var last := turns[|turns| - 1];
      LeadingTicks(k, turns[..|turns| - 1]) + if last.branch == Tick(k, true) && last.enabled.Of(k) then 1 else 0
  }

  lemma BranchExports(s: Loop, t: Turn, k: Kind)
    requires s.wasLeader == s.collectedOnLeaderAcquired
    ensures var s' := AfterBranch(s, t);
            var burst := t.branch.LeaderPoll? && t.branch.isLeader && !s.wasLeader && BurstCollects(t.branch, k);
            Count(Exported(k), s'.log) == Count(Exported(k), s.log)
              + (if t.enabled.Of(k) && (burst || (t.branch == Tick(k, true) && !k.Performance?)) then 1 else 0)
  {
    match t.branch
    case LeaderPoll(_, _, _, _) =>
      BurstCounts(t.enabled, s.log, t.branch, Exported(k));
      BurstGainIs(Exported(k), t.enabled, t.branch);
    case Tick(other, leader) => CollectCounts(s.log, other, leader, t.enabled.Of(other), Exported(k));
    case _ =>
  }

  /** Every export of a kind comes from a burst or, but for performance, from one tick received
      while leading and enabled; and every one of those makes one export. */
  lemma {:induction false} ExportsCounted(config: Config, startedAt: PerKind<int>, turns: seq<Turn>, k: Kind)
    requires Executed(config, startedAt, turns)
    ensures Count(Exported(k), After(config, startedAt, turns).log)
         == BurstExports(k, turns) + (if k.Performance? then 0 else LeadingTicks(k, turns))
  {
    if turns != [] {
      var front, t := turns[..|turns| - 1], turns[|turns| - 1];
      var before := After(config, startedAt, front);
      EarlierExecuted(config, startedAt, turns);
      BurstsAreLeadershipEdges(config, startedAt, front);
      ExportsCounted(config, startedAt, front, k);
      BranchExports(before, t, k);
      ReloadKeepsFlags(AfterBranch(before, t), t.read, t.endAt);
    }
  }

  /** The intended law, one export for each tick while leading and enabled, holds for capacity and
      topology, and for performance exactly when there was no such tick. */
  lemma EachLeadingTickExportsIff(config: Config, startedAt: PerKind<int>, turns: seq<Turn>, k: Kind)
    requires Executed(config, startedAt, turns)
    ensures Count(Exported(k), After(config, startedAt, turns).log) == BurstExports(k, turns) + LeadingTicks(k, turns)
            <==> !k.Performance? || LeadingTicks(Performance, turns) == 0
  {
    ExportsCounted(config, startedAt, turns, k);
  }

  /** One performance tick while leading and enabled: no export, where one is meant. */
  lemma PerformanceTickCollectsNothing(config: Config, startedAt: PerKind<int>, t: Turn)
    requires t.branch == Tick(Performance, true) && t.enabled.performance
    ensures LeadingTicks(Performance, [t]) == 1
    ensures Count(Exported(Performance), After(config, startedAt, [t]).log) == 0
  {
    assert [t][..0] == [];
    ExportsCounted(config, startedAt, [t], Performance);
  }

  // ---------------------------------------------------------------- regular ticking

  /** The bounds of the range, in nanoseconds: five seconds and a day of 24 hours. */
  lemma RangeIsFiveSecondsToADay(interval: int)
    ensures InRange(interval) <==> 5 * SECOND <= interval <= 24 * 60 * 60 * SECOND
  {
  }

  /** Where a ticker's ticks lie: at whole periods after a start; the next one is the first, or the
      first after the time the last one was received. */
  datatype Beat = Beat(start: int, last: Option<int>)

  ghost predicate Keeps(t: Ticker, b: Beat) {
    && t.period > 0
    && InPeriods(t.due - b.start, t.period)
    && (match b.last
        case None => t.due == b.start + t.period
        case Some(at) => at < t.due <= at + t.period)
  }

  ghost predicate InPeriods(gap: int, period: int) { exists n: int :: n >= 1 && IsMultiple(gap, period, n) }

  predicate IsMultiple(x: int, period: int, n: int) { x == n * period }

  /** The beat of a kind after a turn, from what happened: a completed burst and a changed interval
      start it anew, and a tick is received. */
  function BeatAfter(k: Kind, before: Beat, t: Turn, burst: bool, changed: bool): Beat {
    if changed then Beat(t.endAt, None)
    else if burst && t.branch.LeaderPoll? then Beat(t.branch.resetAt.Of(k), None)
    else if t.branch.Tick? && t.branch.kind == k then Beat(before.start, Some(t.at))
    else before
  }

  predicate IsCompletedBurst(turns: seq<Turn>) {
    IsEdge(turns) && turns[|turns| - 1].branch.cancelled.Never?
  }

  /** The interval read differs from the one read last, at first from the configured one. */
  predicate ChangesInterval(config: Config, turns: seq<Turn>, k: Kind)
    requires turns != []
  {
    var last := turns[|turns| - 1];
    ReadsIntervals(last.branch) && last.read.Of(k) != LastRead(config, turns[..|turns| - 1]).Of(k)
  }

  function LastRead(config: Config, turns: seq<Turn>): PerKind<int> {
    if turns == [] then config.intervals
    else if ReadsIntervals(turns[|turns| - 1].branch) then turns[|turns| - 1].read
    else LastRead(config, turns[..|turns| - 1])
  }

  function BeatOf(config: Config, startedAt: PerKind<int>, turns: seq<Turn>, k: Kind): Beat {
    if turns == [] then Beat(startedAt.Of(k), None)
    else
      BeatAfter(k, BeatOf(config, startedAt, turns[..|turns| - 1], k), turns[|turns| - 1],
                IsCompletedBurst(turns), ChangesInterval(config, turns, k))
  }

  lemma NextMultiple(x: int, period: int, n: int, late: int)
    requires period > 0 && late >= 0 && n >= 1 && IsMultiple(x, period, n)
    ensures var m := n + late / period + 1;
            m >= 1 && IsMultiple(x + (late / period + 1) * period, period, m)
    ensures late < (late / period + 1) * period <= late + period
  {
    var q := late / period;
    assert q * period <= late < q * period + period;
    assert (q + 1) * period == q * period + period;
    assert (n + (q + 1)) * period == n * period + (q + 1) * period;
  }

  lemma ConsumedKeeps(t: Ticker, b: Beat, at: int)
    requires Keeps(t, b) && t.due <= at
    ensures Keeps(Consumed(t, at), Beat(b.start, Some(at))) && Consumed(t, at).period == t.period
  {
    var gap, late := t.due - b.start, at - t.due;
    var n: int :| n >= 1 && IsMultiple(gap, t.period, n);
    NextMultiple(gap, t.period, n, late);
    assert Consumed(t, at).due - b.start == gap + (late / t.period + 1) * t.period;
    assert InPeriods(gap + (late / t.period + 1) * t.period, t.period);
  }

  lemma StartedKeeps(period: int, at: int)
    requires period > 0
    ensures Keeps(Started(period, at), Beat(at, None))
  {
    assert IsMultiple(Started(period, at).due - at, period, 1);
  }

  lemma BranchKeepsBeat(s: Loop, t: Turn, k: Kind, b: Beat)
    requires PeriodsMatch(s) && s.outcome.Running? && Keeps(s.tickers.Of(k), b)
    requires s.wasLeader == s.collectedOnLeaderAcquired
    requires t.branch.Tick? && t.branch.kind == k ==> s.tickers.Of(k).due <= t.at
    ensures var burst := t.branch.LeaderPoll? && t.branch.isLeader && !s.wasLeader && t.branch.cancelled.Never?;
            Keeps(AfterBranch(s, t).tickers.Of(k), BeatAfter(k, b, t, burst, false))
  {
    match t.branch
    case Tick(kind, _) =>
      if kind == k {
        ConsumedKeeps(s.tickers.Of(k), b, t.at);
      }
    case LeaderPoll(_, _, _, resetAt) =>
      assert s.local.Of(k) > 0;
      StartedKeeps(s.local.Of(k), resetAt.Of(k));
    case _ =>
  }

  lemma ReloadKeepsBeat(s: Loop, read: PerKind<int>, at: int, k: Kind, b: Beat)
    requires Keeps(s.tickers.Of(k), b) && ReloadedAll(s, read, at).outcome.Running?
    ensures var t := ReloadedAll(s, read, at).tickers.Of(k);
            Keeps(t, if s.local.Of(k) != read.Of(k) then Beat(at, None) else b)
  {
    if s.local.Of(k) != read.Of(k) {
      StartedKeeps(read.Of(k), at);
    }
  }

  lemma {:induction false} LocalIsLastRead(config: Config, startedAt: PerKind<int>, turns: seq<Turn>)
    requires ValidateConfig(Some(config)).None? && After(config, startedAt, turns).outcome.Running?
    ensures After(config, startedAt, turns).local == LastRead(config, turns)
  {
    if turns != [] {
      LocalIsLastRead(config, startedAt, turns[..|turns| - 1]);
      TickersRunAtTheLocalIntervals(config, startedAt, turns);
    }
  }

  /** At every loop head the next tick of each kind is due exactly when its beat says: a whole number
      of periods after the ticker's last start, that is the start of the run, a completed burst or a
      changed interval, and at most one period after that start or the last tick received since. */
  lemma {:induction false} TickersAreRegular(config: Config, startedAt: PerKind<int>, turns: seq<Turn>, k: Kind)
    requires ValidateConfig(Some(config)).None? && Timed(config, startedAt, turns)
    requires After(config, startedAt, turns).outcome.Running?
    ensures Keeps(After(config, startedAt, turns).tickers.Of(k), BeatOf(config, startedAt, turns, k))
  {
    if turns == [] {
      StartedKeeps(config.intervals.Of(k), startedAt.Of(k));
    } else {
      var front, t := turns[..|turns| - 1], turns[|turns| - 1];
      var before, b := After(config, startedAt, front), BeatOf(config, startedAt, front, k);
      TimedPrefix(config, startedAt, turns);
      assert TimedTurn(config, startedAt, turns, |turns| - 1);
      TickersAreRegular(config, startedAt, front, k);
      TickersRunAtTheLocalIntervals(config, startedAt, front);
      LocalIsLastRead(config, startedAt, front);
      BurstsAreLeadershipEdges(config, startedAt, front);
      BranchKeepsPeriods(before, t);
      BranchKeepsBeat(before, t, k, b);
      if ReadsIntervals(t.branch) {
        var here := BeatAfter(k, b, t, IsCompletedBurst(turns), false);
        ReloadKeepsBeat(AfterBranch(before, t), t.read, t.endAt, k, here);
      }
    }
  }
}
