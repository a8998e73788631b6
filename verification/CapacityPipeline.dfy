/** The capacity collector end to end: grouping, the worker pool in any schedule, and the fold. */
module CapacityPipeline {
  import opened Collections
  import opened MetricTypes
  import opened VolumeHandles
  import Gather = CapacityGather
  import Totals = CapacityTotals
  import Pool = WorkerPool

  /** What one array's client answers, or that no live client was found for it. */
  datatype Answers = NoClient | Answers(bulk: Gather.BulkAnswer, perVolume: seq<Answer<Gather.Volume>>)

  /** The records the worker of one array sends. */
  function WorkerOutput(arrayId: string, vs: seq<VolumeInfo>, answers: Answers): seq<CapacityRecord>
    requires answers.Answers? ==> |answers.perVolume| == |vs|
  {
    match answers
    case NoClient => []
    case Answers(bulk, perVolume) => Gather.ArrayRecords(arrayId, vs, bulk, perVolume)
  }

  /** The pool's task for a list of volumes: one worker per array some handle names. None of them
      panics: a panic ends the process, and no run completes. */
  ghost predicate IsTaskFor(c: Pool.Setup<CapacityRecord>, pvs: seq<VolumeInfo>, answers: map<string, Answers>) {
    && c.placeholder == EMPTY_CAPACITY_RECORD
    && (forall a :: a in c.out <==> exists i :: 0 <= i < |pvs| && Gather.IsOnArray(pvs[i], a))
    && (forall a :: a in c.out ==>
          && a in answers
          && (answers[a].Answers? ==> |answers[a].perVolume| == |Gather.OnArray(pvs, a)|
                                      && !Gather.WorkerPanics(answers[a].bulk, answers[a].perVolume))
          && c.out[a] == WorkerOutput(a, Gather.OnArray(pvs, a), answers[a]))
  }

  /** The stream the fold has consumed when a run is over. */
  ghost function Stream(c: Pool.Setup<CapacityRecord>, steps: seq<Pool.Step>): seq<CapacityRecord>
    requires Pool.Execute(c, steps).Some?
  {
    Pool.Payloads(Pool.Execute(c, steps).value.received)
  }

  ghost predicate Completed(c: Pool.Setup<CapacityRecord>, steps: seq<Pool.Step>) {
    Pool.Execute(c, steps).Some? && Pool.Final(Pool.Execute(c, steps).value)
  }

  lemma TaskRecordsNameTheirArray(c: Pool.Setup<CapacityRecord>, pvs: seq<VolumeInfo>, answers: map<string, Answers>)
    requires IsTaskFor(c, pvs, answers)
    ensures forall a :: a in c.out ==> '-' !in a
    ensures forall a, r :: a in c.out && r in c.out[a] ==> r.arrayId == a
  {
    forall a, r | a in c.out && r in c.out[a]
      ensures r.arrayId == a
    {
      var vs := Gather.OnArray(pvs, a);
      if answers[a].Answers? {
        Gather.RecordsNameTheirArray(a, vs, answers[a].bulk, answers[a].perVolume);
      }
    }
  }

  /** Every delivered record carries the array ID of the worker that sent it. */
  lemma DeliveredItems(c: Pool.Setup<CapacityRecord>, pvs: seq<VolumeInfo>, answers: map<string, Answers>,
                       steps: seq<Pool.Step>)
    requires IsTaskFor(c, pvs, answers) && Completed(c, steps)
    ensures forall item :: item in Pool.Execute(c, steps).value.received ==>
              if item.source.Some? then item.source.value in c.out && item.payload.arrayId == item.source.value
              else c.out.Keys == {} && item.payload == EMPTY_CAPACITY_RECORD
  {
    var items := Pool.Execute(c, steps).value.received;
    TaskRecordsNameTheirArray(c, pvs, answers);
    forall item | item in items
      ensures if item.source.Some? then item.source.value in c.out && item.payload.arrayId == item.source.value
              else c.out.Keys == {} && item.payload == EMPTY_CAPACITY_RECORD
    {
      var i :| 0 <= i < |items| && items[i] == item;
      Pool.DeliveredItem(c, steps, i);
    }
  }

  lemma StreamIsDashFree(c: Pool.Setup<CapacityRecord>, pvs: seq<VolumeInfo>, answers: map<string, Answers>,
                         steps: seq<Pool.Step>)
    requires IsTaskFor(c, pvs, answers) && Completed(c, steps)
    ensures Totals.DashFree(Stream(c, steps))
  {
    DeliveredItems(c, pvs, answers, steps);
    TaskRecordsNameTheirArray(c, pvs, answers);
    var items := Pool.Execute(c, steps).value.received;
    forall r | r in Stream(c, steps)
      ensures '-' !in r.arrayId
    {
      var i :| 0 <= i < |items| && items[i].payload == r;
      assert items[i] in items;
    }
  }

  /** Whatever handles, client answers and schedule: every array's published Total and Used are the
      sums over its volumes, its storage groups and its SRPs, and all five maps agree on the
      grand total. */
  lemma CapacityHierarchy(q: Totals.Reading, g: Totals.Grouping, arrayId: string, c: Pool.Setup<CapacityRecord>,
                          pvs: seq<VolumeInfo>, answers: map<string, Answers>, steps: seq<Pool.Step>)
    requires IsTaskFor(c, pvs, answers) && Completed(c, steps)
    ensures var rs := Stream(c, steps);
            var t, arrays := Totals.Folded(Totals.KeyOf(g), rs), Totals.Folded(Totals.KeyOf(Totals.ByArray), rs);
            && (!g.ByStorageClass? ==>
                  SumOver(Totals.EntriesOf(t, arrayId), Totals.EntryOf(q, t)) == Totals.EntryOf(q, arrays)(arrayId))
            && SumOver(t.Keys, Totals.EntryOf(q, t)) == SumOver(arrays.Keys, Totals.EntryOf(q, arrays))
  {
    var rs := Stream(c, steps);
    StreamIsDashFree(c, pvs, answers, steps);
    if !g.ByStorageClass? {
      Totals.ArrayIsSumOfParts(q, g, rs, arrayId);
    }
    Totals.GrandTotals(q, Totals.KeyOf(g), rs);
    Totals.GrandTotals(q, Totals.KeyOf(Totals.ByArray), rs);
  }

  /** The keys and sums of all five maps do not depend on how the workers were scheduled. */
  lemma CapacitiesAreScheduleIndependent(q: Totals.Reading, g: Totals.Grouping, c: Pool.Setup<CapacityRecord>,
                                         steps: seq<Pool.Step>, steps': seq<Pool.Step>)
    requires Completed(c, steps) && Completed(c, steps')
    ensures var k := Totals.KeyOf(g);
            var t, t' := Totals.Folded(k, Stream(c, steps)), Totals.Folded(k, Stream(c, steps'));
            t.Keys == t'.Keys && forall key :: Totals.EntryOf(q, t)(key) == Totals.EntryOf(q, t')(key)
  {
    Pool.ScheduleIndependent(c, steps, steps');
    Totals.FoldIsOrderIndependent(q, Totals.KeyOf(g), Stream(c, steps), Stream(c, steps'));
  }

  lemma {:induction false} ShareOfSource(q: Totals.Reading, a: string, items: seq<Pool.Item<CapacityRecord>>)
    requires forall item :: item in items ==> item.source == Some(item.payload.arrayId)
    ensures Sum(Totals.Share(q, Totals.KeyOf(Totals.ByArray), a), Pool.Payloads(items))
         == Sum((r: CapacityRecord) => Totals.Read(q, r), Pool.From(Some(a), items))
  {
    if items != [] {
      var n := |items| - 1;
      ShareOfSource(q, a, items[..n]);
      assert Pool.Payloads(items)[..n] == Pool.Payloads(items[..n]);
      assert items[n] in items;
      var mine := Pool.From(Some(a), items);
      if items[n].source == Some(a) {
        assert mine[..|mine| - 1] == Pool.From(Some(a), items[..n]);
      } else {
        assert mine == Pool.From(Some(a), items[..n]);
      }
    }
  }

  /** An array's published Total and Used are the sums over the records of its own worker. */
  lemma ArrayCapacityIsItsOwn(q: Totals.Reading, arrayId: string, c: Pool.Setup<CapacityRecord>,
                              pvs: seq<VolumeInfo>, answers: map<string, Answers>, steps: seq<Pool.Step>)
    requires IsTaskFor(c, pvs, answers) && Completed(c, steps) && arrayId in c.out
    ensures Totals.EntryOf(q, Totals.Folded(Totals.KeyOf(Totals.ByArray), Stream(c, steps)))(arrayId)
         == Sum((r: CapacityRecord) => Totals.Read(q, r), c.out[arrayId])
  {
    DeliveredItems(c, pvs, answers, steps);
    Pool.CompleteRunDelivers(c, steps);
    Totals.FoldedEntry(q, Totals.KeyOf(Totals.ByArray), Stream(c, steps), arrayId);
    ShareOfSource(q, arrayId, Pool.Execute(c, steps).value.received);
  }

  lemma {:induction false} OnlyPlaceholder(items: seq<Pool.Item<CapacityRecord>>)
    requires forall item :: item in items ==> item.source == None
    ensures |Pool.From(None, items)| == |items|
  {
    if items != [] {
      OnlyPlaceholder(items[..|items| - 1]);
      assert items[|items| - 1] in items;
    }
  }

  lemma PlaceholderStream(items: seq<Pool.Item<CapacityRecord>>)
    requires forall item :: item in items ==> item.source == None && item.payload == EMPTY_CAPACITY_RECORD
    requires |Pool.From(None, items)| == 1
    ensures Pool.Payloads(items) == [EMPTY_CAPACITY_RECORD]
  {
    OnlyPlaceholder(items);
    assert items[0] in items;
  }

  lemma FoldedSingle(k: Totals.Key, r: CapacityRecord)
    ensures Totals.Folded(k, [r]) == map[k(r) := r]
  {
    assert [r][..0] == [];
  }

  predicate NoHandleParses(pvs: seq<VolumeInfo>) {
    forall i :: 0 <= i < |pvs| ==> ParseHandle(pvs[i].volumeHandle).None?
  }

  lemma NoArraysIff(c: Pool.Setup<CapacityRecord>, pvs: seq<VolumeInfo>, answers: map<string, Answers>)
    requires IsTaskFor(c, pvs, answers)
    ensures c.out.Keys == {} <==> NoHandleParses(pvs)
  {
    if i :| 0 <= i < |pvs| && ParseHandle(pvs[i].volumeHandle).Some? {
      var a := ParseHandle(pvs[i].volumeHandle).value.arrayId;
      assert Gather.IsOnArray(pvs[i], a);
      assert a in c.out.Keys;
    } else {
      forall a
        ensures a !in c.out
      {
      }
    }
  }

  /** A completed run delivers the empty record if and only if no handle can be parsed. */
  lemma PlaceholderIff(c: Pool.Setup<CapacityRecord>, pvs: seq<VolumeInfo>, answers: map<string, Answers>,
                       steps: seq<Pool.Step>)
    requires IsTaskFor(c, pvs, answers) && Completed(c, steps)
    ensures Pool.From(None, Pool.Execute(c, steps).value.received) ==
              if NoHandleParses(pvs) then [EMPTY_CAPACITY_RECORD] else []
    ensures (exists i :: 0 <= i < |Pool.Execute(c, steps).value.received|
               && Pool.Execute(c, steps).value.received[i].source == None) <==> NoHandleParses(pvs)
  {
    var items := Pool.Execute(c, steps).value.received;
    NoArraysIff(c, pvs, answers);
    Pool.CompleteRunDelivers(c, steps);
    if i :| 0 <= i < |items| && items[i].source == None {
      Pool.DeliveredItem(c, steps, i);
    } else {
      Pool.FromAbsent(None, items);
    }
  }

  predicate IsEmptyRecord(r: CapacityRecord) {
    && r.arrayId == r.volumeId == r.srpId == r.storageGroupId == r.storageClass == r.driver == ""
    && r.persistentVolumeName == r.persistentVolumeStatus == r.persistentVolumeClaimName == r.namespace == ""
    && r.total == r.used == r.usedPercent == 0.0
  }

  /** It is then all that is delivered, and the percentage published for it under every grouping is
      not a number: it divides zero by zero. */
  lemma NothingToCollect(g: Totals.Grouping, c: Pool.Setup<CapacityRecord>, pvs: seq<VolumeInfo>,
                         answers: map<string, Answers>, steps: seq<Pool.Step>)
    requires IsTaskFor(c, pvs, answers) && Completed(c, steps) && NoHandleParses(pvs)
    ensures Stream(c, steps) == [EMPTY_CAPACITY_RECORD] && IsEmptyRecord(Stream(c, steps)[0])
    ensures var t := Totals.Folded(Totals.KeyOf(g), Stream(c, steps));
            |t.Keys| == 1 && forall key :: key in t ==> Totals.PublishedPercent(t[key]).None?
  {
    NoArraysIff(c, pvs, answers);
    DeliveredItems(c, pvs, answers, steps);
    Pool.CompleteRunDelivers(c, steps);
    PlaceholderStream(Pool.Execute(c, steps).value.received);
    FoldedSingle(Totals.KeyOf(g), EMPTY_CAPACITY_RECORD);
  }

  /** Although an empty record is meant whenever no volume is exported, nothing at all is delivered
      if and only if some handle can be parsed and no worker has a record. */
  lemma NothingDeliveredIff(c: Pool.Setup<CapacityRecord>, pvs: seq<VolumeInfo>, answers: map<string, Answers>,
                            steps: seq<Pool.Step>)
    requires IsTaskFor(c, pvs, answers) && Completed(c, steps)
    ensures Stream(c, steps) == [] <==> !NoHandleParses(pvs) && forall a :: a in c.out ==> c.out[a] == []
  {
    NoArraysIff(c, pvs, answers);
    Pool.NothingDeliveredIff(c, steps);
    assert |Stream(c, steps)| == |Pool.Execute(c, steps).value.received|;
  }

  function SilentPool(): Pool.Setup<CapacityRecord> { Pool.Setup(1, map["a" := []], EMPTY_CAPACITY_RECORD) }

  /** One array without a live client: its run completes and delivers nothing. */
  lemma NoClientDeliversNothing(v: VolumeInfo) returns (steps: seq<Pool.Step>)
    requires v.volumeHandle == "a-v"
    ensures IsTaskFor(SilentPool(), [v], map["a" := NoClient])
    ensures Completed(SilentPool(), steps) && Stream(SilentPool(), steps) == []
  {
    NoClientTask(v);
    steps := Pool.EveryRunCompletes(SilentPool(), []);
    NothingDeliveredIff(SilentPool(), [v], map["a" := NoClient], steps);
    NoArraysIff(SilentPool(), [v], map["a" := NoClient]);
  }

  lemma NoClientTask(v: VolumeInfo)
    requires v.volumeHandle == "a-v"
    ensures IsTaskFor(SilentPool(), [v], map["a" := NoClient]) && "a" in SilentPool().out
  {
    assert "a" + "-" + "v" == "a-v";
    ParsePlain("a", "v");
    assert Gather.IsOnArray([v][0], "a");
  }

  /** The published percentage of a group of one record is that record's UsedPercent: on the
      per-volume path exactly when the capacity is not zero. */
  lemma SingleLegacyPercent(k: Totals.Key, arrayId: string, v: VolumeInfo, vol: Gather.Volume)
    ensures var r := Gather.LegacyRecord(arrayId, v, vol);
            var t := Totals.Folded(k, [r]);
            && k(r) in t
            && (Totals.PublishedPercent(t[k(r)]) == Some(r.usedPercent) <==> vol.capacityGB != 0.0)
  {
    var r := Gather.LegacyRecord(arrayId, v, vol);
    assert [r][..0] == [];
    if vol.capacityGB != 0.0 {
      Gather.PercentOfShare(vol.allocatedPercent as real, vol.capacityGB, r.used);
    }
  }

  /** On the bulk path it is so for a positive capacity, and otherwise only for a negative capacity
      of which nothing is used. */
  lemma SingleBulkPercent(k: Totals.Key, arrayId: string, v: VolumeInfo, vol: Gather.VolumeEnhanced)
    ensures var r := Gather.BulkRecord(arrayId, v, vol);
            var t := Totals.Folded(k, [r]);
            && k(r) in t
            && (Totals.PublishedPercent(t[k(r)]) == Some(r.usedPercent) <==>
                  vol.capGB > 0.0 || (vol.capGB < 0.0 && vol.effectiveUsedCapacityGB == 0.0))
  {
    var r := Gather.BulkRecord(arrayId, v, vol);
    assert [r][..0] == [];
    if vol.capGB != 0.0 {
      SameQuotient(vol.effectiveUsedCapacityGB, vol.capGB);
    }
  }

  lemma SameQuotient(used: real, capacity: real)
    requires capacity != 0.0
    ensures used / capacity * 100.0 == used * 100.0 / capacity
    ensures used * 100.0 / capacity == 0.0 <==> used == 0.0
  {
    var q := used / capacity;
    assert q * capacity == used;
    assert (q * 100.0) * capacity == used * 100.0;
  }

  function ArrayOf(r: CapacityRecord): string { r.arrayId }

  /** In any schedule an array's records in the stream are what is to come of its volumes and its
      answers, in order; none without a live client. */
  lemma CapacityStreamOfArray(c: Pool.Setup<CapacityRecord>, pvs: seq<VolumeInfo>, answers: map<string, Answers>,
                              steps: seq<Pool.Step>, a: string)
    requires IsTaskFor(c, pvs, answers) && Completed(c, steps) && a in c.out
    ensures var mine := Pool.OfArray(ArrayOf, a, Stream(c, steps));
            match answers[a]
            case NoClient => mine == []
            case Answers(bulk, perVolume) => Gather.IsArrayOutput(a, Gather.OnArray(pvs, a), bulk, perVolume, mine)
  {
    TaskRecordsNameTheirArray(c, pvs, answers);
    Pool.StreamOfArray(c, steps, ArrayOf, a);
    if answers[a].Answers? {
      Gather.ArrayRecordsAre(a, Gather.OnArray(pvs, a), answers[a].bulk, answers[a].perVolume);
    }
  }
}
