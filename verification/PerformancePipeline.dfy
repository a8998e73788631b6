/** The performance collector's two pools in any schedule: what their streams hold of each array. */
module PerformancePipeline {
  import opened Collections
  import opened MetricTypes
  import opened VolumeHandles
  import Gather = CapacityGather
  import Groups = StorageGroupPerformance
  import Volumes = VolumePerformance
  import Pool = WorkerPool

  ghost predicate Completed<T>(c: Pool.Setup<T>, steps: seq<Pool.Step>) {
    Pool.Execute(c, steps).Some? && Pool.Final(Pool.Execute(c, steps).value)
  }

  // ---------------------------------------------------------------- storage groups

  /** What the worker of an array meets: no live client, or a client and a count of its groups. */
  datatype GroupWorker = NoClient | GroupWorker(client: Groups.Client, total: Answer<nat>)

  /** The pool's task for the group index: one worker per array, sending a stream of its own. None
      of them panics: a panic ends the process, and no run completes. */
  ghost predicate IsGroupTask(c: Pool.Setup<Groups.PerfRecord>, array2Sgs: map<string, set<string>>,
                              workers: map<string, GroupWorker>, threshold: real)
  {
    && c.placeholder == Groups.EMPTY_RECORD && c.out.Keys == array2Sgs.Keys <= workers.Keys
    && forall a :: a in c.out ==> IsGroupStream(a, array2Sgs[a], workers[a], threshold, c.out[a])
  }

  ghost predicate IsGroupStream(a: string, sgs: set<string>, worker: GroupWorker, threshold: real,
                                rs: seq<Groups.PerfRecord>)
  {
    match worker
    case NoClient => rs == []
    case GroupWorker(client, total) =>
      !Groups.WorkerPanics(a, client, sgs, total, threshold)
      && Groups.IsWorkerStream(a, client, sgs, total, threshold, rs)
  }

  lemma {:induction false} BulkRecordsNameTheirArray(a: string, sgs: set<string>, instances: seq<Groups.Instance>)
    ensures forall r :: r in Groups.BulkRecords(a, sgs, instances) ==> r.arrayId == a
  {
    if instances != [] {
      BulkRecordsNameTheirArray(a, sgs, instances[..|instances| - 1]);
    }
  }

  lemma {:induction false} InItsGroup(rs: seq<Groups.PerfRecord>, i: nat)
    requires i < |rs|
    ensures rs[i] in Groups.OfGroup(rs, rs[i].storageGroupId)
  {
    if i < |rs| - 1 {
      InItsGroup(rs[..|rs| - 1], i);
    }
  }

  lemma GroupStreamNamesItsArray(a: string, sgs: set<string>, worker: GroupWorker, threshold: real,
                                 rs: seq<Groups.PerfRecord>, i: nat)
    requires IsGroupStream(a, sgs, worker, threshold, rs) && i < |rs|
    ensures rs[i].arrayId == a
  {
    if Groups.TakesBulk(a, worker.client, sgs, worker.total, threshold) {
      BulkRecordsNameTheirArray(a, sgs, worker.client.bulk.instances);
    } else {
      InItsGroup(rs, i);
      assert rs[i] in Groups.GroupRecords(a, worker.client, rs[i].storageGroupId);
    }
  }

  function ArrayOfGroup(r: Groups.PerfRecord): string { r.arrayId }

  lemma GroupTaskNamesArrays(c: Pool.Setup<Groups.PerfRecord>, array2Sgs: map<string, set<string>>,
                             workers: map<string, GroupWorker>, threshold: real)
    requires IsGroupTask(c, array2Sgs, workers, threshold)
    ensures forall b, i :: b in c.out && 0 <= i < |c.out[b]| ==> ArrayOfGroup(c.out[b][i]) == b
  {
    forall b, i | b in c.out && 0 <= i < |c.out[b]|
      ensures ArrayOfGroup(c.out[b][i]) == b
    {
      GroupStreamNamesItsArray(b, array2Sgs[b], workers[b], threshold, c.out[b], i);
    }
  }

  /** In every schedule the records of an array in the stream are exactly its filtered bulk answer
      or exactly its per-group result: never a mix, a duplicate or another array's. */
  lemma GroupStreamOfArray(c: Pool.Setup<Groups.PerfRecord>, array2Sgs: map<string, set<string>>,
                           workers: map<string, GroupWorker>, threshold: real, steps: seq<Pool.Step>, a: string)
    requires IsGroupTask(c, array2Sgs, workers, threshold) && Completed(c, steps) && a in array2Sgs
    ensures var stream := Pool.Payloads(Pool.Execute(c, steps).value.received);
            IsGroupStream(a, array2Sgs[a], workers[a], threshold, Pool.OfArray(ArrayOfGroup, a, stream))
  {
    GroupTaskNamesArrays(c, array2Sgs, workers, threshold);
    Pool.StreamOfArray(c, steps, ArrayOfGroup, a);
  }

  // ---------------------------------------------------------------- volumes

  /** What the worker of an array meets: no last available time, no live client, or an answer. */
  datatype VolumeWorker = NoTime | NoLiveClient | Asked(answer: Answer<seq<Volumes.VolumeResult>>)

  function VolumeOutput(pvs: seq<VolumeInfo>, a: string, worker: VolumeWorker): seq<Volumes.PerfRecord> {
    if HasResults(worker) then Volumes.JoinedRecords(pvs, a, worker.answer.value) else []
  }

  predicate HasResults(worker: VolumeWorker) { worker.Asked? && worker.answer.Got? }

  ghost predicate IsVolumeTask(c: Pool.Setup<Volumes.PerfRecord>, pvs: seq<VolumeInfo>,
                               workers: map<string, VolumeWorker>)
  {
    && c.placeholder == Volumes.EMPTY_RECORD && c.out.Keys <= workers.Keys
    && (forall a :: a in c.out <==> exists i :: 0 <= i < |pvs| && Gather.IsOnArray(pvs[i], a))
    && forall a :: a in c.out ==>
         c.out[a] == VolumeOutput(pvs, a, workers[a]) && (workers[a].Asked? ==> !workers[a].answer.Nil?)
  }

  lemma {:induction false} JoinedRecordsNameTheirArray(pvs: seq<VolumeInfo>, a: string,
                                                       results: seq<Volumes.VolumeResult>)
    ensures forall r :: r in Volumes.JoinedRecords(pvs, a, results) ==> r.arrayId == a
  {
    if results != [] {
      JoinedRecordsNameTheirArray(pvs, a, results[..|results| - 1]);
    }
  }

  function ArrayOfVolume(r: Volumes.PerfRecord): string { r.arrayId }

  lemma VolumeTaskNamesArrays(c: Pool.Setup<Volumes.PerfRecord>, pvs: seq<VolumeInfo>,
                              workers: map<string, VolumeWorker>)
    requires IsVolumeTask(c, pvs, workers)
    ensures forall b, i :: b in c.out && 0 <= i < |c.out[b]| ==> ArrayOfVolume(c.out[b][i]) == b
  {
    forall b, i | b in c.out && 0 <= i < |c.out[b]|
      ensures ArrayOfVolume(c.out[b][i]) == b
    {
      if HasResults(workers[b]) {
        JoinedRecordsNameTheirArray(pvs, b, workers[b].answer.value);
      }
    }
  }

  /** The join of the results; nothing without a time, a live client or an answer. */
  ghost predicate IsVolumeStream(pvs: seq<VolumeInfo>, a: string, worker: VolumeWorker, rs: seq<Volumes.PerfRecord>) {
    match worker
    case Asked(Got(results)) => Volumes.IsJoin(pvs, a, results, rs)
    case _ => rs == []
  }

  lemma VolumeOutputIs(pvs: seq<VolumeInfo>, a: string, worker: VolumeWorker)
    ensures IsVolumeStream(pvs, a, worker, VolumeOutput(pvs, a, worker))
  {
    if HasResults(worker) {
      Volumes.JoinedRecordsAre(pvs, a, worker.answer.value);
    }
  }

  /** In every schedule the records of an array in the stream are exactly the join of its results,
      in their order. */
  lemma VolumeStreamOfArray(c: Pool.Setup<Volumes.PerfRecord>, pvs: seq<VolumeInfo>,
                            workers: map<string, VolumeWorker>, steps: seq<Pool.Step>, a: string)
    requires IsVolumeTask(c, pvs, workers) && Completed(c, steps) && a in c.out
    ensures var stream := Pool.Payloads(Pool.Execute(c, steps).value.received);
            IsVolumeStream(pvs, a, workers[a], Pool.OfArray(ArrayOfVolume, a, stream))
  {
    VolumeTaskNamesArrays(c, pvs, workers);
    Pool.StreamOfArray(c, steps, ArrayOfVolume, a);
    VolumeOutputIs(pvs, a, workers[a]);
  }

  predicate EqualsFreeResults(workers: map<string, VolumeWorker>) {
    forall a :: a in workers && HasResults(workers[a]) ==>
      forall r :: r in workers[a].answer.value ==> '=' !in r.volumeId
  }

  /** With `=`-free volume IDs, every record of a completed run is the placeholder of an empty one,
      or takes its Kubernetes fields from the last volume whose handle names its volume and array. */
  lemma VolumeStreamJoinsNamedVolumes(c: Pool.Setup<Volumes.PerfRecord>, pvs: seq<VolumeInfo>,
                                      workers: map<string, VolumeWorker>, steps: seq<Pool.Step>, i: nat)
    requires IsVolumeTask(c, pvs, workers) && Completed(c, steps)
    requires Volumes.EqualsFreeVolumeIds(pvs) && EqualsFreeResults(workers)
    requires i < |Pool.Execute(c, steps).value.received|
    ensures var p := Pool.Execute(c, steps).value.received[i].payload;
            if c.out.Keys == {} then p == Volumes.EMPTY_RECORD
            else
              && p.arrayId in workers && HasResults(workers[p.arrayId])
              && exists r, n: nat :: r in workers[p.arrayId].answer.value
                                  && Volumes.LastNaming(pvs, Ids(p.arrayId, p.volumeId), n)
                                  && Volumes.Joins(p, p.arrayId, r, pvs[n])
  {
    Pool.DeliveredItem(c, steps, i);
    if c.out.Keys != {} {
      var item := Pool.Execute(c, steps).value.received[i];
      var a := item.source.value;
      Volumes.RecordsJoinTheirVolume(pvs, a, workers[a].answer.value);
    }
  }
}
