/** The worker of the storage group performance pool: one bulk call or one call per group, and
    the fallback from the first to the second. */
module StorageGroupPerformance {
  import opened Collections
  import opened MetricTypes

  /** The readings of one storage group at one time. */
  datatype Readings = Readings(
    hostMBReads: real, hostMBWritten: real, readResponseTime: real, writeResponseTime: real,
    hostReads: real, hostWrites: real, avgIOSize: real)

  datatype PerfRecord = PerfRecord(arrayId: string, storageGroupId: string, readings: Readings)

  /** Sent when there is no array. */
  const EMPTY_RECORD: PerfRecord := PerfRecord("", "", Readings(0.0, 0.0, 0.0, 0.0, 0.0, 0.0, 0.0))

  datatype Instance = Instance(id: string, metrics: seq<Readings>)

  datatype BulkAnswer = BulkError | BulkNil | BulkInstances(instances: seq<Instance>)

  datatype TimeInfo = TimeInfo(storageGroupId: string, lastAvailableDate: int)

  /** What the array's client answers: in bulk, the perf keys, and the readings of a group at a time. */
  datatype Client = Client(
    bulk: BulkAnswer,
    perfKeys: Answer<seq<TimeInfo>>,
    groupMetrics: (string, int) -> Answer<seq<Readings>>)

  // ---------------------------------------------------------------- what each path sends

  function InstanceRecords(arrayId: string, id: string, metrics: seq<Readings>): seq<PerfRecord> {
    Map((m: Readings) => PerfRecord(arrayId, id, m), metrics)
  }

  function BulkRecords(arrayId: string, sgs: set<string>, instances: seq<Instance>): seq<PerfRecord> {
    if instances == [] then []
    else
      var n := |instances| - 1;
      BulkRecords(arrayId, sgs, instances[..n])
      + (if instances[n].id in sgs then InstanceRecords(arrayId, instances[n].id, instances[n].metrics) else [])
  }

  /** The time of a group: the last one listed. */
  function LastTime(keys: seq<TimeInfo>, sg: string): Option<int> {
    if keys == [] then None
    else
      var n := |keys| - 1;
      if keys[n].storageGroupId == sg then Some(keys[n].lastAvailableDate) else LastTime(keys[..n], sg)
  }

  /** The records of one group on the per-group path. */
  function GroupRecords(arrayId: string, c: Client, sg: string): seq<PerfRecord> {
    if !c.perfKeys.Got? then []
    else
      var time := LastTime(c.perfKeys.value, sg);
      if time.None? then []
      else
        var metrics := c.groupMetrics(sg, time.value);
        if !metrics.Got? then [] else InstanceRecords(arrayId, sg, metrics.value)
  }

  /** The bulk answer has something for a requested group, or nothing was requested. */
  predicate BulkUsable(arrayId: string, sgs: set<string>, bulk: BulkAnswer) {
    bulk.BulkInstances? && (sgs == {} || BulkRecords(arrayId, sgs, bulk.instances) != [])
  }

  /** The records of one group, in order. */
  function OfGroup(rs: seq<PerfRecord>, sg: string): seq<PerfRecord> {
    if rs == [] then []
    else
      var n := |rs| - 1;
      OfGroup(rs[..n], sg) + (if rs[n].storageGroupId == sg then [rs[n]] else [])
  }

  /** The call for a group is made and its answer is nil. */
  predicate GroupPanics(c: Client, sg: string) {
    && c.perfKeys.Got?
    && var time := LastTime(c.perfKeys.value, sg);
       time.Some? && c.groupMetrics(sg, time.value).Nil?
  }

  predicate LegacyPanics(c: Client, sgs: set<string>) {
    c.perfKeys.Nil? || exists sg :: sg in sgs && GroupPanics(c, sg)
  }

  /** A stream holding, for each requested group, exactly that group's records of the per-group
      path in order, and nothing else; how the groups follow each other is Go's map order. */
  ghost predicate IsLegacyStream(arrayId: string, c: Client, sgs: set<string>, rs: seq<PerfRecord>) {
    forall sg :: OfGroup(rs, sg) == if sg in sgs then GroupRecords(arrayId, c, sg) else []
  }

  // ---------------------------------------------------------------- the methods

  /** The sending side of the pool's channel, by what has been sent on it. */
  class Channel {
    var sent: seq<PerfRecord>

    constructor ()
      ensures sent == []
    {
      sent := [];
    }

    method Send(r: PerfRecord)
      modifies this
      ensures sent == old(sent) + [r]
    {
      sent := sent + [r];
    }
  }

  method SendAll(ch: Channel, arrayId: string, id: string, metrics: seq<Readings>)
    modifies ch
    ensures ch.sent == old(ch.sent) + InstanceRecords(arrayId, id, metrics)
  {
    for n := 0 to |metrics|
      invariant ch.sent == old(ch.sent) + InstanceRecords(arrayId, id, metrics[..n])
    {
      assert metrics[..n + 1][..n] == metrics[..n];
      ch.Send(PerfRecord(arrayId, id, metrics[n]));
    }
    assert metrics[..|metrics|] == metrics;
  }

  /** Returning false means that nothing at all was sent. */
  method CollectSGMetricsBulk(bulk: BulkAnswer, arrayId: string, sgs: set<string>, ch: Channel) returns (ok: bool)
    modifies ch
    ensures ok <==> BulkUsable(arrayId, sgs, bulk)
    ensures ch.sent == old(ch.sent) + if ok then BulkRecords(arrayId, sgs, bulk.instances) else []
  {
    if !bulk.BulkInstances? {
      return false;
    }
    var metricsEmitted := 0;
    for n := 0 to |bulk.instances|
      invariant ch.sent == old(ch.sent) + BulkRecords(arrayId, sgs, bulk.instances[..n])
      invariant metricsEmitted == |BulkRecords(arrayId, sgs, bulk.instances[..n])|
    {
      assert bulk.instances[..n + 1][..n] == bulk.instances[..n];
      var instance := bulk.instances[n];
      if instance.id !in sgs {
        continue;
      }
      SendAll(ch, arrayId, instance.id, instance.metrics);
      metricsEmitted := metricsEmitted + |instance.metrics|;
    }
    assert bulk.instances[..|bulk.instances|] == bulk.instances;
    if metricsEmitted == 0 && |sgs| > 0 {
      return false;
    }
    return true;
  }

  method LastAvailTimes(keys: seq<TimeInfo>, sgs: set<string>) returns (times: map<string, int>)
    ensures forall sg :: sg in times <==> sg in sgs && LastTime(keys, sg).Some?
    ensures forall sg :: sg in times ==> LastTime(keys, sg) == Some(times[sg])
  {
    times := map[];
    for n := 0 to |keys|
      invariant forall sg :: sg in times <==> sg in sgs && LastTime(keys[..n], sg).Some?
      invariant forall sg :: sg in times ==> LastTime(keys[..n], sg) == Some(times[sg])
    {
      assert keys[..n + 1][..n] == keys[..n];
      if keys[n].storageGroupId in sgs {
        times := times[keys[n].storageGroupId := keys[n].lastAvailableDate];
      }
    }
    assert keys[..|keys|] == keys;
  }

  /** Panics exactly when a call that it makes answers nil. Up to then some requested groups have been
      sent in full, and nothing of any other. */
  method CollectSGMetricsLegacy(c: Client, arrayId: string, sgs: set<string>, ch: Channel) returns (panicked: bool)
    modifies ch
    ensures panicked <==> LegacyPanics(c, sgs)
    ensures old(ch.sent) <= ch.sent && SentInFull(arrayId, c, sgs, ch.sent[|old(ch.sent)|..])
    ensures !panicked ==> IsLegacyStream(arrayId, c, sgs, ch.sent[|old(ch.sent)|..])
  {
    ghost var start := ch.sent;
    ghost var done: set<string> := {};
    assert ch.sent[|start|..] == [];
    assert IsLegacyStream(arrayId, c, done, ch.sent[|start|..]);
    if !c.perfKeys.Got? {
      return c.perfKeys.Nil?;
    }
    var lastAvailTimes := LastAvailTimes(c.perfKeys.value, sgs);
    var todo := sgs;
    while todo != {}
      invariant done !! todo && done + todo == sgs
      invariant start <= ch.sent && IsLegacyStream(arrayId, c, done, ch.sent[|start|..])
      invariant forall sg :: sg in done ==> !GroupPanics(c, sg)
      decreases |todo|
    {
      var sg :| sg in todo;
      panicked := CollectGroup(c, arrayId, sg, lastAvailTimes, ch, |start|, done);
      if panicked {
        return;
      }
      todo, done := todo - {sg}, done + {sg};
    }
    assert done == sgs;
    return false;
  }

  /** The stream holds some of the groups, each in full. */
  ghost predicate SentInFull(arrayId: string, c: Client, sgs: set<string>, rs: seq<PerfRecord>) {
    exists done: set<string> :: done <= sgs && IsLegacyStream(arrayId, c, done, rs)
  }

  /** The body of the loop over the requested groups: `done` are those before `sg`, and the
      records of this call begin at `from`. */
  method CollectGroup(c: Client, arrayId: string, sg: string, lastAvailTimes: map<string, int>, ch: Channel,
                      ghost from: nat, ghost done: set<string>) returns (panicked: bool)
    requires c.perfKeys.Got?
    requires sg in lastAvailTimes <==> LastTime(c.perfKeys.value, sg).Some?
    requires sg in lastAvailTimes ==> LastTime(c.perfKeys.value, sg) == Some(lastAvailTimes[sg])
    requires from <= |ch.sent| && sg !in done && IsLegacyStream(arrayId, c, done, ch.sent[from..])
    modifies ch
    ensures panicked <==> GroupPanics(c, sg)
    ensures panicked ==> ch.sent == old(ch.sent)
    ensures old(ch.sent) <= ch.sent
    ensures !panicked ==> IsLegacyStream(arrayId, c, done + {sg}, ch.sent[from..])
  {
    ghost var before := ch.sent;
    panicked := SendGroup(c, arrayId, sg, lastAvailTimes, ch);
    if !panicked {
      LegacyStreamStep(arrayId, c, done, before[from..], sg);
      AppendedTail(before, GroupRecords(arrayId, c, sg), from);
    }
  }

  lemma AppendedTail<T>(xs: seq<T>, ys: seq<T>, from: nat)
    requires from <= |xs|
    ensures (xs + ys)[from..] == xs[from..] + ys
  {
  }

  method SendGroup(c: Client, arrayId: string, sg: string, lastAvailTimes: map<string, int>, ch: Channel)
      returns (panicked: bool)
    requires c.perfKeys.Got?
    requires sg in lastAvailTimes <==> LastTime(c.perfKeys.value, sg).Some?
    requires sg in lastAvailTimes ==> LastTime(c.perfKeys.value, sg) == Some(lastAvailTimes[sg])
    modifies ch
    ensures panicked <==> GroupPanics(c, sg)
    ensures ch.sent == old(ch.sent) + GroupRecords(arrayId, c, sg)
  {
    if sg !in lastAvailTimes {
      return false;
    }
    var metrics := c.groupMetrics(sg, lastAvailTimes[sg]);
    if metrics.Failed? {
      return false;
    }
    if metrics.Nil? {
      return true;
    }
    SendAll(ch, arrayId, sg, metrics.value);
    return false;
  }

  lemma {:induction false} OfGroupAppend(rs: seq<PerfRecord>, arrayId: string, id: string, metrics: seq<Readings>,
                                         sg: string)
    ensures OfGroup(rs + InstanceRecords(arrayId, id, metrics), sg)
         == OfGroup(rs, sg) + (if id == sg then InstanceRecords(arrayId, id, metrics) else [])
  {
    var tail := InstanceRecords(arrayId, id, metrics);
    if metrics == [] {
      assert rs + tail == rs;
    } else {
      var n := |metrics| - 1;
      OfGroupAppend(rs, arrayId, id, metrics[..n], sg);
      assert (rs + tail)[..|rs| + n] == rs + InstanceRecords(arrayId, id, metrics[..n]);
    }
  }

  lemma LegacyStreamStep(arrayId: string, c: Client, done: set<string>, rs: seq<PerfRecord>, sg: string)
    requires IsLegacyStream(arrayId, c, done, rs) && sg !in done
    ensures IsLegacyStream(arrayId, c, done + {sg}, rs + GroupRecords(arrayId, c, sg))
  {
    var more := GroupRecords(arrayId, c, sg);
    forall other
      ensures OfGroup(rs + more, other) == if other in done + {sg} then GroupRecords(arrayId, c, other) else []
    {
      if more == [] {
        assert rs + more == rs;
      } else {
        var time := LastTime(c.perfKeys.value, sg);
        OfGroupAppend(rs, arrayId, sg, c.groupMetrics(sg, time.value).value, other);
      }
    }
  }

  /** The ratio unless the environment sets another. */
  const DEFAULT_BULK_THRESHOLD_RATIO: real := 0.25

  /** Whether the bulk call is tried: more than the threshold share of the array's groups is
      monitored. `total` is what the count comes to; Nil stands for a panic on a nil list. */
  predicate TriesBulk(requested: nat, total: Answer<nat>, threshold: real) {
    total.Got? && total.value > 0 && requested > 0 && requested as real / total.value as real > threshold
  }

  /** The bulk answer is asked for and has something for the requested groups. */
  predicate TakesBulk(arrayId: string, c: Client, sgs: set<string>, total: Answer<nat>, threshold: real) {
    TriesBulk(|sgs|, total, threshold) && BulkUsable(arrayId, sgs, c.bulk)
  }

  predicate WorkerPanics(arrayId: string, c: Client, sgs: set<string>, total: Answer<nat>, threshold: real) {
    total.Nil? || (!TakesBulk(arrayId, c, sgs, total, threshold) && LegacyPanics(c, sgs))
  }

  /** Exactly the bulk answer filtered to the requested groups, or exactly the per-group result. */
  ghost predicate IsWorkerStream(arrayId: string, c: Client, sgs: set<string>, total: Answer<nat>, threshold: real,
                                 rs: seq<PerfRecord>)
  {
    if TakesBulk(arrayId, c, sgs, total, threshold)
    then rs == BulkRecords(arrayId, sgs, c.bulk.instances)
    else IsLegacyStream(arrayId, c, sgs, rs)
  }

  /** The worker body, once it has a client: it panics exactly when an answer that it reads without
      a test is nil. Otherwise its stream is exactly the bulk answer filtered to the requested groups,
      or exactly the per-group result, never both; and a panic leaves some groups sent in full. */
  method CollectStorageGroups(c: Client, arrayId: string, sgs: set<string>, total: Answer<nat>, threshold: real,
                              ch: Channel) returns (panicked: bool)
    modifies ch
    ensures panicked <==> WorkerPanics(arrayId, c, sgs, total, threshold)
    ensures old(ch.sent) <= ch.sent
    ensures !panicked ==> IsWorkerStream(arrayId, c, sgs, total, threshold, ch.sent[|old(ch.sent)|..])
    ensures panicked ==> SentInFull(arrayId, c, sgs, ch.sent[|old(ch.sent)|..])
  {
    if total.Nil? {
      assert ch.sent[|old(ch.sent)|..] == [];
      assert IsLegacyStream(arrayId, c, {}, []);
      return true;
    }
    if total.Failed? {
      panicked := CollectSGMetricsLegacy(c, arrayId, sgs, ch);
      return;
    }
    var useBulk := total.value > 0 && |sgs| > 0 && |sgs| as real / total.value as real > threshold;
    if useBulk {
      ghost var start := ch.sent;
      var ok := CollectSGMetricsBulk(c.bulk, arrayId, sgs, ch);
      if ok {
        assert ch.sent[|start|..] == BulkRecords(arrayId, sgs, c.bulk.instances);
        return false;
      }
      assert ch.sent == start;
    }
    panicked := CollectSGMetricsLegacy(c, arrayId, sgs, ch);
  }

  lemma RatioAbove(requested: real, total: real, threshold: real)
    requires total > 0.0
    ensures requested / total > threshold <==> requested > threshold * total
  {
    var ratio := requested / total;
    assert ratio * total == requested;
    if ratio > threshold {
      assert (ratio - threshold) * total > 0.0;
    } else {
      assert (threshold - ratio) * total >= 0.0;
    }
  }

  /** The bulk call is tried exactly when the count was had, neither it nor the request is empty, and
      the request is more than the threshold's share of it. */
  lemma TriesBulkIff(requested: nat, total: Answer<nat>, threshold: real)
    ensures TriesBulk(requested, total, threshold) <==>
              total.Got? && total.value > 0 && requested > 0 && requested as real > threshold * (total.value as real)
  {
    if total.Got? && total.value > 0 {
      RatioAbove(requested as real, total.value as real, threshold);
    }
  }

  /** With the default ratio a quarter is not enough, and any more is. */
  lemma DefaultRatioIsAQuarter(requested: nat, total: nat)
    ensures TriesBulk(requested, Got(total), DEFAULT_BULK_THRESHOLD_RATIO) <==> total > 0 && 4 * requested > total
  {
    TriesBulkIff(requested, Got(total), DEFAULT_BULK_THRESHOLD_RATIO);
  }

  predicate IsLastListing(keys: seq<TimeInfo>, sg: string, j: int) {
    && 0 <= j < |keys| && keys[j].storageGroupId == sg
    && forall k :: j < k < |keys| ==> keys[k].storageGroupId != sg
  }

  lemma {:induction false} LastTimeIsLast(keys: seq<TimeInfo>, sg: string)
    ensures match LastTime(keys, sg)
            case None => forall k :: 0 <= k < |keys| ==> keys[k].storageGroupId != sg
            case Some(time) => exists j :: IsLastListing(keys, sg, j) && time == keys[j].lastAvailableDate
  {
    if keys != [] {
      var n := |keys| - 1;
      LastTimeIsLast(keys[..n], sg);
      assert forall k :: 0 <= k < n ==> keys[..n][k] == keys[k];
      if keys[n].storageGroupId == sg {
        assert IsLastListing(keys, sg, n);
      } else if LastTime(keys[..n], sg).Some? {
        var j :| IsLastListing(keys[..n], sg, j) && LastTime(keys, sg).value == keys[..n][j].lastAvailableDate;
        assert IsLastListing(keys, sg, j);
      }
    }
  }

  /** The records are these readings of the group, in order. */
  predicate CarriesReadings(rs: seq<PerfRecord>, arrayId: string, sg: string, readings: seq<Readings>) {
    && |rs| == |readings|
    && forall i :: 0 <= i < |rs| ==>
         rs[i].arrayId == arrayId && rs[i].storageGroupId == sg && rs[i].readings == readings[i]
  }

  /** What the call for a group answers: at the time the perf keys list last for it. */
  predicate IsAnswerFor(c: Client, sg: string, j: int, answer: Answer<seq<Readings>>) {
    c.perfKeys.Got? && IsLastListing(c.perfKeys.value, sg, j)
    && c.groupMetrics(sg, c.perfKeys.value[j].lastAvailableDate) == answer
  }

  /** On the per-group path a group has exactly the readings its call answers at the time listed last
      for it, and none when no time is listed or the call fails. */
  lemma GroupRecordsAre(arrayId: string, c: Client, sg: string)
    ensures forall j, readings :: IsAnswerFor(c, sg, j, Got(readings)) ==>
              CarriesReadings(GroupRecords(arrayId, c, sg), arrayId, sg, readings)
    ensures (forall j, readings :: !IsAnswerFor(c, sg, j, Got(readings))) ==> GroupRecords(arrayId, c, sg) == []
  {
    if c.perfKeys.Got? {
      LastTimeIsLast(c.perfKeys.value, sg);
      if GroupRecords(arrayId, c, sg) != [] {
        var time := LastTime(c.perfKeys.value, sg).value;
        var j :| IsLastListing(c.perfKeys.value, sg, j) && time == c.perfKeys.value[j].lastAvailableDate;
        assert IsAnswerFor(c, sg, j, Got(c.groupMetrics(sg, time).value));
      }
    }
  }

  lemma GroupPanicsIff(c: Client, sg: string)
    ensures GroupPanics(c, sg) <==> exists j :: IsAnswerFor(c, sg, j, Nil)
  {
    if c.perfKeys.Got? {
      LastTimeIsLast(c.perfKeys.value, sg);
      if GroupPanics(c, sg) {
        var time := LastTime(c.perfKeys.value, sg).value;
        var j :| IsLastListing(c.perfKeys.value, sg, j) && time == c.perfKeys.value[j].lastAvailableDate;
        assert IsAnswerFor(c, sg, j, Nil);
      }
    }
  }

  predicate AsksForNil(c: Client, sgs: set<string>) {
    c.perfKeys.Got? && exists sg, j :: sg in sgs && 0 <= j < |c.perfKeys.value| && IsAnswerFor(c, sg, j, Nil)
  }

  /** The worker panics exactly when the list of groups is nil, or the bulk answer is not used and the
      perf keys are nil or some requested group's call answers nil. */
  lemma WorkerPanicsIff(arrayId: string, c: Client, sgs: set<string>, total: Answer<nat>, threshold: real)
    ensures WorkerPanics(arrayId, c, sgs, total, threshold) <==>
              || total.Nil?
              || (!TakesBulk(arrayId, c, sgs, total, threshold) && (c.perfKeys.Nil? || AsksForNil(c, sgs)))
  {
    forall sg
      ensures GroupPanics(c, sg) <==> exists j :: IsAnswerFor(c, sg, j, Nil)
    {
      GroupPanicsIff(c, sg);
    }
    if sg :| sg in sgs && GroupPanics(c, sg) {
      var j :| IsAnswerFor(c, sg, j, Nil);
      assert 0 <= j < |c.perfKeys.value|;
    }
  }

  /** A bulk call that returns nil is made good by the per-group calls; nil perf keys are not. */
  lemma NilKeysPanic(c: Client)
    requires c.bulk.BulkNil? && c.perfKeys.Nil?
    ensures WorkerPanics("a", c, {"x"}, Got(1), 0.25)
  {
  }

  // ---------------------------------------------------------------- consequences

  function InstancesOf(instances: seq<Instance>, sg: string): seq<Readings> {
    if instances == [] then []
    else
      var n := |instances| - 1;
      InstancesOf(instances[..n], sg) + (if instances[n].id == sg then instances[n].metrics else [])
  }

  lemma {:induction false} MapConcat<A, B>(f: A -> B, xs: seq<A>, ys: seq<A>)
    ensures Map(f, xs + ys) == Map(f, xs) + Map(f, ys)
  {
  }

  /** On the bulk path a requested group has exactly the readings of the instances that carry its
      ID, in order, and a group that was not requested has none. */
  lemma {:induction false} BulkStreamPerGroup(arrayId: string, sgs: set<string>, instances: seq<Instance>, sg: string)
    ensures OfGroup(BulkRecords(arrayId, sgs, instances), sg)
         == if sg in sgs then InstanceRecords(arrayId, sg, InstancesOf(instances, sg)) else []
  {
    if instances != [] {
      var n := |instances| - 1;
      BulkStreamPerGroup(arrayId, sgs, instances[..n], sg);
      var front := BulkRecords(arrayId, sgs, instances[..n]);
      assert front + [] == front && InstancesOf(instances[..n], sg) + [] == InstancesOf(instances[..n], sg);
      if instances[n].id in sgs {
        OfGroupAppend(front, arrayId, instances[n].id, instances[n].metrics, sg);
        MapConcat((m: Readings) => PerfRecord(arrayId, sg, m), InstancesOf(instances[..n], sg), instances[n].metrics);
      }
    }
  }

  /** No instance with the group's ID has a reading. */
  predicate NoReadings(instances: seq<Instance>, sg: string) {
    forall i :: 0 <= i < |instances| && instances[i].id == sg ==> instances[i].metrics == []
  }

  lemma {:induction false} NoInstancesOf(instances: seq<Instance>, sg: string)
    ensures InstancesOf(instances, sg) == [] <==> NoReadings(instances, sg)
  {
    if instances != [] {
      var n := |instances| - 1;
      NoInstancesOf(instances[..n], sg);
      assert forall i :: 0 <= i < n ==> instances[..n][i] == instances[i];
      assert |InstancesOf(instances, sg)| ==
             |InstancesOf(instances[..n], sg)| + if instances[n].id == sg then |instances[n].metrics| else 0;
    }
  }

  /** Each record of the bulk path carries its array, its group and one reading. */
  lemma BulkStreamCarries(arrayId: string, sgs: set<string>, instances: seq<Instance>, sg: string)
    requires sg in sgs
    ensures CarriesReadings(OfGroup(BulkRecords(arrayId, sgs, instances), sg), arrayId, sg, InstancesOf(instances, sg))
  {
    BulkStreamPerGroup(arrayId, sgs, instances, sg);
  }

  /** When groups are requested, a bulk answer is usable exactly if one of them has a reading in it.
      It is then final for all of them: a requested group goes without a record if and only if no
      instance of it has a reading, whatever the per-group path would send. */
  lemma OmittedIffNoReadings(arrayId: string, sgs: set<string>, instances: seq<Instance>, sg: string)
    requires sg in sgs
    ensures OfGroup(BulkRecords(arrayId, sgs, instances), sg) == [] <==> NoReadings(instances, sg)
    ensures BulkUsable(arrayId, sgs, BulkInstances(instances)) <==> exists g :: g in sgs && !NoReadings(instances, g)
  {
    BulkStreamPerGroup(arrayId, sgs, instances, sg);
    NoInstancesOf(instances, sg);
    NothingUsable(arrayId, sgs, instances);
  }

  lemma {:induction false} NothingUsable(arrayId: string, sgs: set<string>, instances: seq<Instance>)
    ensures BulkRecords(arrayId, sgs, instances) == [] <==> forall g :: g in sgs ==> NoReadings(instances, g)
  {
    if instances != [] {
      var n := |instances| - 1;
      var front, last := instances[..n], instances[n];
      NothingUsable(arrayId, sgs, front);
      assert forall i :: 0 <= i < n ==> front[i] == instances[i];
      forall g
        ensures NoReadings(instances, g) <==> NoReadings(front, g) && (last.id == g ==> last.metrics == [])
      {
      }
    }
  }

  /** A usable bulk answer for groups x and y can leave y, of which the per-group path has a record,
      without one. */
  lemma BulkCanOmitARequestedGroup(c: Client, r: Readings)
    requires c.bulk == BulkInstances([Instance("x", [r])])
    requires c.perfKeys == Got([TimeInfo("y", 0)]) && c.groupMetrics("y", 0) == Got([r])
    ensures BulkUsable("a", {"x", "y"}, c.bulk)
    ensures OfGroup(BulkRecords("a", {"x", "y"}, c.bulk.instances), "y") == []
    ensures GroupRecords("a", c, "y") == [PerfRecord("a", "y", r)]
  {
    var instances := c.bulk.instances;
    assert instances[..0] == [];
    assert "x"[0] != "y"[0];
    assert |InstanceRecords("a", "x", [r])| == 1;
    assert BulkRecords("a", {"x", "y"}, instances) != [];
    BulkStreamPerGroup("a", {"x", "y"}, instances, "y");
    assert InstancesOf(instances, "y") == [];
    assert LastTime(c.perfKeys.value, "y") == Some(0);
  }

  /** The readings of a group are those of its instances one after the other. */
  lemma {:induction false} InstancesOfConcat(xs: seq<Instance>, ys: seq<Instance>, sg: string)
    ensures InstancesOf(xs + ys, sg) == InstancesOf(xs, sg) + InstancesOf(ys, sg)
  {
    if ys == [] {
      assert xs + ys == xs;
    } else {
      InstancesOfConcat(xs, ys[..|ys| - 1], sg);
      assert (xs + ys)[..|xs + ys| - 1] == xs + ys[..|ys| - 1];
    }
  }

  lemma InstancesOfOne(instance: Instance, sg: string)
    ensures InstancesOf([instance], sg) == if instance.id == sg then instance.metrics else []
  {
    assert [instance][..0] == [];
  }

  /** The bulk answer serves the request: enough of the array's groups are asked for, and it has a
      reading for one of them. */
  predicate BulkServes(c: Client, sgs: set<string>, total: Answer<nat>, threshold: real) {
    && total.Got? && total.value > 0 && sgs != {} && |sgs| as real > threshold * (total.value as real)
    && c.bulk.BulkInstances? && exists sg :: sg in sgs && !NoReadings(c.bulk.instances, sg)
  }

  lemma TakesBulkIff(arrayId: string, c: Client, sgs: set<string>, total: Answer<nat>, threshold: real)
    ensures TakesBulk(arrayId, c, sgs, total, threshold) <==> BulkServes(c, sgs, total, threshold)
  {
    TriesBulkIff(|sgs|, total, threshold);
    if c.bulk.BulkInstances? && sgs != {} {
      assert |sgs| > 0;
      NothingUsable(arrayId, sgs, c.bulk.instances);
    }
  }

  /** What a worker's stream holds of a group: nothing unless it is requested; if the bulk answer
      serves the request, the group's readings in it; and if not, what the group's own call answers. */
  lemma WorkerStreamOfGroup(arrayId: string, c: Client, sgs: set<string>, total: Answer<nat>, threshold: real,
                            rs: seq<PerfRecord>, sg: string)
    requires IsWorkerStream(arrayId, c, sgs, total, threshold, rs)
    ensures sg !in sgs ==> OfGroup(rs, sg) == []
    ensures sg in sgs && BulkServes(c, sgs, total, threshold) ==>
              CarriesReadings(OfGroup(rs, sg), arrayId, sg, InstancesOf(c.bulk.instances, sg))
    ensures sg in sgs && !BulkServes(c, sgs, total, threshold) ==>
              && (forall j, readings :: IsAnswerFor(c, sg, j, Got(readings)) ==>
                    CarriesReadings(OfGroup(rs, sg), arrayId, sg, readings))
              && ((forall j, readings :: !IsAnswerFor(c, sg, j, Got(readings))) ==> OfGroup(rs, sg) == [])
  {
    TakesBulkIff(arrayId, c, sgs, total, threshold);
    if TakesBulk(arrayId, c, sgs, total, threshold) {
      BulkStreamPerGroup(arrayId, sgs, c.bulk.instances, sg);
    } else {
      GroupRecordsAre(arrayId, c, sg);
    }
  }
}
