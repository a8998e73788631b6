/** The gather side of the capacity collector: grouping volumes by array, and turning one array's
    bulk answer, or per-volume answers when there is none, into records. */
module CapacityGather {
  import opened Collections
  import opened MetricTypes
  import opened VolumeHandles

  /** One volume of the answer to GetVolumesCapacityBulk. */
  datatype VolumeEnhanced = VolumeEnhanced(id: string, capGB: real, effectiveUsedCapacityGB: real)

  /** The answer to GetVolumeByID; the API reports a whole percentage. */
  datatype Volume = Volume(capacityGB: real, allocatedPercent: int)

  datatype BulkAnswer = BulkError | BulkNil | BulkVolumes(volumes: seq<VolumeEnhanced>)

  predicate IsOnArray(v: VolumeInfo, arrayId: string) {
    var ids := ParseHandle(v.volumeHandle);
    ids.Some? && ids.value.arrayId == arrayId
  }

  /** The volumes of one array, in the order of the list. */
  function OnArray(pvs: seq<VolumeInfo>, arrayId: string): seq<VolumeInfo> {
    if pvs == [] then []
    else
      var n := |pvs| - 1;
      OnArray(pvs[..n], arrayId) + (if IsOnArray(pvs[n], arrayId) then [pvs[n]] else [])
  }

  /** The map holds exactly the arrays some volume is on, each with its volumes in order. */
  ghost predicate IsGrouping(m: map<string, seq<VolumeInfo>>, pvs: seq<VolumeInfo>) {
    && (forall a :: a in m <==> exists i :: 0 <= i < |pvs| && IsOnArray(pvs[i], a))
    && (forall a :: a in m ==> m[a] == OnArray(pvs, a))
  }

  lemma GroupingStep(m: map<string, seq<VolumeInfo>>, m': map<string, seq<VolumeInfo>>,
                     pvs: seq<VolumeInfo>, v: VolumeInfo)
    requires IsGrouping(m, pvs)
    requires ParseHandle(v.volumeHandle).None? ==> m' == m
    requires ParseHandle(v.volumeHandle).Some? ==>
               var a := ParseHandle(v.volumeHandle).value.arrayId;
               m' == m[a := (if a in m then m[a] else []) + [v]]
    ensures IsGrouping(m', pvs + [v])
  {
    var pvs' := pvs + [v];
    assert pvs'[..|pvs|] == pvs && pvs'[|pvs|] == v;
    forall a
      ensures a in m' <==> exists i :: 0 <= i < |pvs'| && IsOnArray(pvs'[i], a)
      ensures a in m' ==> m'[a] == OnArray(pvs', a)
    {
      if IsOnArray(v, a) {
        assert IsOnArray(pvs'[|pvs|], a);
        if a !in m {
          NoneOnArray(pvs, a);
        }
      } else if a in m {
        var i :| 0 <= i < |pvs| && IsOnArray(pvs[i], a);
        assert IsOnArray(pvs'[i], a);
      }
    }
  }

  lemma {:induction false} NoneOnArray(pvs: seq<VolumeInfo>, arrayId: string)
    requires forall i :: 0 <= i < |pvs| ==> !IsOnArray(pvs[i], arrayId)
    ensures OnArray(pvs, arrayId) == []
  {
    if pvs != [] {
      NoneOnArray(pvs[..|pvs| - 1], arrayId);
    }
  }

  method GroupByArray(pvs: seq<VolumeInfo>) returns (array2Volumes: map<string, seq<VolumeInfo>>)
    ensures IsGrouping(array2Volumes, pvs)
    ensures forall a :: a in array2Volumes ==> '-' !in a
  {
    array2Volumes := map[];
    for n := 0 to |pvs|
      invariant IsGrouping(array2Volumes, pvs[..n])
    {
      assert pvs[..n + 1] == pvs[..n] + [pvs[n]];
      ghost var before := array2Volumes;
      var parts := Split(pvs[n].volumeHandle, '-');
      if |parts| < 2 {
        GroupingStep(before, before, pvs[..n], pvs[n]);
        continue;
      }
      var arrayId := parts[|parts| - 2];
      array2Volumes := array2Volumes[arrayId :=
        (if arrayId in array2Volumes then array2Volumes[arrayId] else []) + [pvs[n]]];
      GroupingStep(before, array2Volumes, pvs[..n], pvs[n]);
    }
    assert pvs[..|pvs|] == pvs;
  }

  // ---------------------------------------------------------------- records of one array

  function PercentOf(used: real, capacity: real): real
    requires capacity != 0.0
  {
    used / capacity * 100.0
  }

  function ShareOf(percent: real, capacity: real): real { percent / 100.0 * capacity }

  /** A percentage and a share are each other's inverse: a hundred times the share is the percentage
      times the capacity. */
  lemma PercentAndShare(used: real, capacity: real, percent: real)
    requires capacity != 0.0
    ensures PercentOf(used, capacity) == percent <==> used * 100.0 == percent * capacity
    ensures ShareOf(percent, capacity) == used <==> used * 100.0 == percent * capacity
  {
    var q := used / capacity;
    assert q * capacity == used;
    if used * 100.0 == percent * capacity {
      SameFactor(q * 100.0, percent, capacity);
    }
  }

  lemma SameFactor(x: real, y: real, k: real)
    requires k != 0.0 && x * k == y * k
    ensures x == y
  {
    assert (x - y) * k == 0.0;
  }

  function BulkRecord(arrayId: string, v: VolumeInfo, vol: VolumeEnhanced): CapacityRecord {
    CapacityRecord(arrayId, VolumeIdOf(v.volumeHandle), v.srp, v.storageGroup, v.storageClass, v.driver,
                   v.persistentVolume, v.persistentVolumeStatus, v.volumeClaimName, v.namespace,
                   vol.capGB, vol.effectiveUsedCapacityGB,
                   if vol.capGB > 0.0 then PercentOf(vol.effectiveUsedCapacityGB, vol.capGB) else 0.0)
  }

  function LegacyRecord(arrayId: string, v: VolumeInfo, vol: Volume): CapacityRecord {
    CapacityRecord(arrayId, VolumeIdOf(v.volumeHandle), v.srp, v.storageGroup, v.storageClass, v.driver,
                   v.persistentVolume, v.persistentVolumeStatus, v.volumeClaimName, v.namespace,
                   vol.capacityGB, ShareOf(vol.allocatedPercent as real, vol.capacityGB),
                   vol.allocatedPercent as real)
  }

  /** The entry the bulk index keeps for an ID: the last one listed. */
  function LastById(vols: seq<VolumeEnhanced>, id: string): (vol: Option<VolumeEnhanced>)
    ensures vol.Some? ==> vol.value.id == id && vol.value in vols
    ensures vol.None? ==> forall i :: 0 <= i < |vols| ==> vols[i].id != id
  {
    if vols == [] then None
    else
      var n := |vols| - 1;
      if vols[n].id == id then Some(vols[n]) else LastById(vols[..n], id)
  }

  function BulkRecords(arrayId: string, vs: seq<VolumeInfo>, vols: seq<VolumeEnhanced>): seq<CapacityRecord> {
    if vs == [] then []
    else
      var n := |vs| - 1;
      BulkRecords(arrayId, vs[..n], vols) + BulkMore(arrayId, vs[n], vols)
  }

  function BulkMore(arrayId: string, v: VolumeInfo, vols: seq<VolumeEnhanced>): seq<CapacityRecord> {
    var vol := LastById(vols, VolumeIdOf(v.volumeHandle));
    if vol.Some? then [BulkRecord(arrayId, v, vol.value)] else []
  }

  /** `answers[i]` is what the call for the i-th volume returns. */
  function LegacyRecords(arrayId: string, vs: seq<VolumeInfo>, answers: seq<Answer<Volume>>): seq<CapacityRecord>
    requires |answers| == |vs|
  {
    if vs == [] then []
    else
      var n := |vs| - 1;
      LegacyRecords(arrayId, vs[..n], answers[..n])
      + (if answers[n].Got? then [LegacyRecord(arrayId, vs[n], answers[n].value)] else [])
  }

  /** The records of one array: all from the bulk answer, or all from per-volume answers. */
  function ArrayRecords(arrayId: string, vs: seq<VolumeInfo>, bulk: BulkAnswer, answers: seq<Answer<Volume>>)
      : seq<CapacityRecord>
    requires |answers| == |vs|
  {
    if bulk.BulkVolumes? then BulkRecords(arrayId, vs, bulk.volumes) else LegacyRecords(arrayId, vs, answers)
  }

  predicate HasNil(answers: seq<Answer<Volume>>) { exists i :: 0 <= i < |answers| && answers[i].Nil? }

  /** The array's worker panics: it asks volume by volume, and an answer is nil. */
  predicate WorkerPanics(bulk: BulkAnswer, answers: seq<Answer<Volume>>) { !bulk.BulkVolumes? && HasNil(answers) }

  method CollectArrayCapacityMetricsLegacy(arrayId: string, vs: seq<VolumeInfo>, answers: seq<Answer<Volume>>)
      returns (metrics: seq<CapacityRecord>, panicked: bool)
    requires |answers| == |vs|
    ensures panicked <==> HasNil(answers)
    ensures !panicked ==> metrics == LegacyRecords(arrayId, vs, answers)
  {
    metrics, panicked := [], false;
    for n := 0 to |vs|
      invariant !panicked && forall i :: 0 <= i < n ==> !answers[i].Nil?
      invariant metrics == LegacyRecords(arrayId, vs[..n], answers[..n])
    {
      assert vs[..n + 1][..n] == vs[..n] && answers[..n + 1][..n] == answers[..n];
      if answers[n].Failed? {
        continue;
      }
      if answers[n].Nil? {
        return metrics, true;
      }
      metrics := metrics + [LegacyRecord(arrayId, vs[n], answers[n].value)];
    }
    assert vs[..|vs|] == vs && answers[..|vs|] == answers;
  }

  method CollectArrayCapacityMetrics(arrayId: string, vs: seq<VolumeInfo>, bulk: BulkAnswer,
                                     answers: seq<Answer<Volume>>)
      returns (metrics: seq<CapacityRecord>, panicked: bool)
    requires |answers| == |vs|
    ensures panicked <==> WorkerPanics(bulk, answers)
    ensures !panicked ==> metrics == ArrayRecords(arrayId, vs, bulk, answers)
  {
    if !bulk.BulkVolumes? {
      metrics, panicked := CollectArrayCapacityMetricsLegacy(arrayId, vs, answers);
      return;
    }
    panicked := false;
    var capByVolumeId: map<string, VolumeEnhanced> := map[];
    for n := 0 to |bulk.volumes|
      invariant forall id :: id in capByVolumeId <==> LastById(bulk.volumes[..n], id).Some?
      invariant forall id :: id in capByVolumeId ==> LastById(bulk.volumes[..n], id) == Some(capByVolumeId[id])
    {
      assert bulk.volumes[..n + 1][..n] == bulk.volumes[..n];
      capByVolumeId := capByVolumeId[bulk.volumes[n].id := bulk.volumes[n]];
    }
    assert bulk.volumes[..|bulk.volumes|] == bulk.volumes;
    metrics := [];
    for n := 0 to |vs|
      invariant metrics == BulkRecords(arrayId, vs[..n], bulk.volumes)
    {
      assert vs[..n + 1][..n] == vs[..n];
      var volumeId := VolumeIdOf(vs[n].volumeHandle);
      if volumeId !in capByVolumeId {
        continue;
      }
      metrics := metrics + [BulkRecord(arrayId, vs[n], capByVolumeId[volumeId])];
    }
    assert vs[..|vs|] == vs;
  }

  // ---------------------------------------------------------------- which records there are

  /** A record's labels: the array asked, the volume ID in the handle, and the volume's own data. */
  predicate CarriesLabelsOf(r: CapacityRecord, arrayId: string, v: VolumeInfo) {
    && r.arrayId == arrayId && r.volumeId == VolumeIdOf(v.volumeHandle)
    && (ParseHandle(v.volumeHandle).Some? ==> r.volumeId == ParseHandle(v.volumeHandle).value.volumeId)
    && r.srpId == v.srp && r.storageGroupId == v.storageGroup
    && r.storageClass == v.storageClass && r.driver == v.driver && r.namespace == v.namespace
    && r.persistentVolumeName == v.persistentVolume && r.persistentVolumeStatus == v.persistentVolumeStatus
    && r.persistentVolumeClaimName == v.volumeClaimName
  }

  /** The readings of a per-volume answer: its capacity, and its percentage of it. */
  predicate CarriesAnswer(r: CapacityRecord, vol: Volume) {
    && r.total == vol.capacityGB && r.usedPercent == vol.allocatedPercent as real
    && r.used == ShareOf(r.usedPercent, r.total)
  }

  /** The readings of a bulk entry; a percentage is taken of positive capacities only. */
  predicate CarriesEntry(r: CapacityRecord, vol: VolumeEnhanced) {
    && r.total == vol.capGB && r.used == vol.effectiveUsedCapacityGB
    && r.usedPercent == if r.total > 0.0 then PercentOf(r.used, r.total) else 0.0
  }

  predicate IsLastListed(vols: seq<VolumeEnhanced>, id: string, j: int) {
    0 <= j < |vols| && vols[j].id == id && forall k :: j < k < |vols| ==> vols[k].id != id
  }

  predicate IsListed(vols: seq<VolumeEnhanced>, id: string) { exists j :: 0 <= j < |vols| && vols[j].id == id }

  predicate IsAnsweredRecord(arrayId: string, vs: seq<VolumeInfo>, answers: seq<Answer<Volume>>, i: int,
                             r: CapacityRecord)
  {
    && 0 <= i < |vs| && i < |answers| && answers[i].Got?
    && CarriesLabelsOf(r, arrayId, vs[i]) && CarriesAnswer(r, answers[i].value)
  }

  ghost predicate IsListedRecord(arrayId: string, vs: seq<VolumeInfo>, vols: seq<VolumeEnhanced>, i: int,
                                 r: CapacityRecord)
  {
    && 0 <= i < |vs| && CarriesLabelsOf(r, arrayId, vs[i])
    && exists j :: IsLastListed(vols, VolumeIdOf(vs[i].volumeHandle), j) && CarriesEntry(r, vols[j])
  }

  function Answered(answers: seq<Answer<Volume>>): (flags: seq<bool>)
    ensures |flags| == |answers| && forall i :: 0 <= i < |answers| ==> flags[i] == answers[i].Got?
  {
    seq(|answers|, i requires 0 <= i < |answers| => answers[i].Got?)
  }

  function Listed(vs: seq<VolumeInfo>, vols: seq<VolumeEnhanced>): (flags: seq<bool>)
    ensures |flags| == |vs|
    ensures forall i :: 0 <= i < |vs| ==> flags[i] == IsListed(vols, VolumeIdOf(vs[i].volumeHandle))
  {
    seq(|vs|, i requires 0 <= i < |vs| => IsListed(vols, VolumeIdOf(vs[i].volumeHandle)))
  }

  /** What is to come of an array: on a bulk answer one record for each volume whose ID it lists, from
      the last entry with it; on an error or nil one for each volume whose own call gave data. Each
      record is of its volume, in the volumes' order. */
  ghost predicate IsArrayOutput(arrayId: string, vs: seq<VolumeInfo>, bulk: BulkAnswer, answers: seq<Answer<Volume>>,
                                rs: seq<CapacityRecord>)
  {
    match bulk
    case BulkVolumes(vols) =>
      IsSelection(rs, Listed(vs, vols), (i: int, r: CapacityRecord) => IsListedRecord(arrayId, vs, vols, i, r))
    case _ =>
      IsSelection(rs, Answered(answers), (i: int, r: CapacityRecord) => IsAnsweredRecord(arrayId, vs, answers, i, r))
  }

  lemma {:induction false} LastByIdIsLast(vols: seq<VolumeEnhanced>, id: string)
    ensures match LastById(vols, id)
            case None => !IsListed(vols, id)
            case Some(vol) => IsListed(vols, id) && exists j :: IsLastListed(vols, id, j) && vol == vols[j]
  {
    if vols != [] {
      var n := |vols| - 1;
      LastByIdIsLast(vols[..n], id);
      assert forall k :: 0 <= k < n ==> vols[..n][k] == vols[k];
      if vols[n].id == id {
        assert IsLastListed(vols, id, n);
      } else if LastById(vols[..n], id).Some? {
        var j :| IsLastListed(vols[..n], id, j) && LastById(vols, id).value == vols[..n][j];
        assert IsLastListed(vols, id, j);
      }
    }
  }

  lemma {:induction false} LegacyRecordsFit(arrayId: string, vs: seq<VolumeInfo>, answers: seq<Answer<Volume>>,
                                            fits: (int, CapacityRecord) -> bool)
    requires |answers| == |vs|
    requires forall i :: 0 <= i < |vs| && answers[i].Got? ==> fits(i, LegacyRecord(arrayId, vs[i], answers[i].value))
    ensures IsSelection(LegacyRecords(arrayId, vs, answers), Answered(answers), fits)
  {
    if vs != [] {
      var n := |vs| - 1;
      LegacyRecordsFit(arrayId, vs[..n], answers[..n], fits);
      assert Answered(answers) == Answered(answers[..n]) + [answers[n].Got?];
      SelectionSnoc(LegacyRecords(arrayId, vs[..n], answers[..n]), Answered(answers[..n]), fits, answers[n].Got?,
                    if answers[n].Got? then [LegacyRecord(arrayId, vs[n], answers[n].value)] else []);
    }
  }

  lemma BulkMoreIs(arrayId: string, vs: seq<VolumeInfo>, vols: seq<VolumeEnhanced>, i: nat)
    requires i < |vs|
    ensures var more := BulkMore(arrayId, vs[i], vols);
            && |more| == (if IsListed(vols, VolumeIdOf(vs[i].volumeHandle)) then 1 else 0)
            && (more != [] ==> IsListedRecord(arrayId, vs, vols, i, more[0]))
  {
    var vol := LastById(vols, VolumeIdOf(vs[i].volumeHandle));
    LastByIdIsLast(vols, VolumeIdOf(vs[i].volumeHandle));
    if vol.Some? {
      assert CarriesEntry(BulkRecord(arrayId, vs[i], vol.value), vol.value);
    }
  }

  lemma {:induction false} BulkRecordsFit(arrayId: string, vs: seq<VolumeInfo>, vols: seq<VolumeEnhanced>,
                                          flags: seq<bool>, fits: (int, CapacityRecord) -> bool)
    requires |flags| == |vs|
    requires forall i :: 0 <= i < |vs| ==> |BulkMore(arrayId, vs[i], vols)| == if flags[i] then 1 else 0
    requires forall i :: 0 <= i < |vs| && flags[i] ==> fits(i, BulkMore(arrayId, vs[i], vols)[0])
    ensures IsSelection(BulkRecords(arrayId, vs, vols), flags, fits)
  {
    if vs != [] {
      var n := |vs| - 1;
      BulkRecordsFit(arrayId, vs[..n], vols, flags[..n], fits);
      SelectionSnoc(BulkRecords(arrayId, vs[..n], vols), flags[..n], fits, flags[n], BulkMore(arrayId, vs[n], vols));
      assert flags == flags[..n] + [flags[n]];
    }
  }

  /** The records of an array are what is to come of it. */
  lemma ArrayRecordsAre(arrayId: string, vs: seq<VolumeInfo>, bulk: BulkAnswer, answers: seq<Answer<Volume>>)
    requires |answers| == |vs|
    ensures IsArrayOutput(arrayId, vs, bulk, answers, ArrayRecords(arrayId, vs, bulk, answers))
  {
    match bulk
    case BulkVolumes(vols) =>
      forall i | 0 <= i < |vs|
        ensures var more := BulkMore(arrayId, vs[i], vols);
                |more| == (if Listed(vs, vols)[i] then 1 else 0)
                && (more != [] ==> IsListedRecord(arrayId, vs, vols, i, more[0]))
      {
        BulkMoreIs(arrayId, vs, vols, i);
      }
      BulkRecordsFit(arrayId, vs, vols, Listed(vs, vols),
                     (i: int, r: CapacityRecord) => IsListedRecord(arrayId, vs, vols, i, r));
    case _ =>
      LegacyRecordsFit(arrayId, vs, answers,
                       (i: int, r: CapacityRecord) => IsAnsweredRecord(arrayId, vs, answers, i, r));
  }

  function OnArrayFlags(pvs: seq<VolumeInfo>, arrayId: string): (flags: seq<bool>)
    ensures |flags| == |pvs| && forall i :: 0 <= i < |pvs| ==> flags[i] == IsOnArray(pvs[i], arrayId)
  {
    seq(|pvs|, i requires 0 <= i < |pvs| => IsOnArray(pvs[i], arrayId))
  }

  predicate IsAt(pvs: seq<VolumeInfo>, i: int, v: VolumeInfo) { 0 <= i < |pvs| && v == pvs[i] }

  lemma {:induction false} OnArrayPrefix(pvs: seq<VolumeInfo>, arrayId: string, n: nat, fits: (int, VolumeInfo) -> bool)
    requires n <= |pvs| && forall i, v :: IsAt(pvs, i, v) ==> fits(i, v)
    ensures IsSelection(OnArray(pvs[..n], arrayId), OnArrayFlags(pvs, arrayId)[..n], fits)
  {
    if n > 0 {
      OnArrayPrefix(pvs, arrayId, n - 1, fits);
      assert pvs[..n][..n - 1] == pvs[..n - 1];
      var flag := IsOnArray(pvs[n - 1], arrayId);
      assert OnArrayFlags(pvs, arrayId)[..n] == OnArrayFlags(pvs, arrayId)[..n - 1] + [flag];
      var more := if flag then [pvs[n - 1]] else [];
      assert IsAt(pvs, n - 1, pvs[n - 1]);
      SelectionSnoc(OnArray(pvs[..n - 1], arrayId), OnArrayFlags(pvs, arrayId)[..n - 1], fits, flag, more);
    }
  }

  /** The volumes of an array are those whose handles name it, each at its occurrence and in order. */
  lemma OnArrayAre(pvs: seq<VolumeInfo>, arrayId: string)
    ensures IsSelection(OnArray(pvs, arrayId), OnArrayFlags(pvs, arrayId), (i: int, v: VolumeInfo) => IsAt(pvs, i, v))
  {
    OnArrayPrefix(pvs, arrayId, |pvs|, (i: int, v: VolumeInfo) => IsAt(pvs, i, v));
    assert pvs[..|pvs|] == pvs;
    assert OnArrayFlags(pvs, arrayId)[..|pvs|] == OnArrayFlags(pvs, arrayId);
  }

  // ---------------------------------------------------------------- bulk against per-volume

  /** The per-volume answers describe the array the bulk answer describes. */
  predicate SameArrayState(vs: seq<VolumeInfo>, vols: seq<VolumeEnhanced>, answers: seq<Answer<Volume>>) {
    && |answers| == |vs|
    && forall i :: 0 <= i < |vs| ==> SameVolume(LastById(vols, VolumeIdOf(vs[i].volumeHandle)), answers[i])
  }

  predicate SameVolume(bulk: Option<VolumeEnhanced>, answer: Answer<Volume>) {
    match (bulk, answer)
    case (None, Failed) => true
    case (Some(b), Got(a)) =>
      b.capGB == a.capacityGB && b.effectiveUsedCapacityGB == ShareOf(a.allocatedPercent as real, a.capacityGB)
    case _ => false
  }

  predicate EqualButForPercent(r: CapacityRecord, r': CapacityRecord) {
    r.(usedPercent := 0.0) == r'.(usedPercent := 0.0) && (r.total > 0.0 ==> r == r')
  }

  lemma RecordsOfSameVolume(arrayId: string, v: VolumeInfo, b: VolumeEnhanced, a: Volume)
    requires SameVolume(Some(b), Got(a))
    ensures EqualButForPercent(BulkRecord(arrayId, v, b), LegacyRecord(arrayId, v, a))
    ensures BulkRecord(arrayId, v, b) == LegacyRecord(arrayId, v, a) <==> b.capGB > 0.0 || a.allocatedPercent == 0
  {
    var percent := a.allocatedPercent as real;
    if b.capGB > 0.0 {
      PercentAndShare(b.effectiveUsedCapacityGB, b.capGB, percent);
    }
    assert percent == 0.0 <==> a.allocatedPercent == 0;
  }

  /** The percentage taken back from the used capacity it was turned into. */
  lemma PercentOfShare(percent: real, capacity: real, used: real)
    requires capacity != 0.0 && used == percent / 100.0 * capacity
    ensures used / capacity * 100.0 == percent
    ensures used * 100.0 / capacity == percent
  {
    var share := percent / 100.0;
    assert used / capacity == share;
    assert used * 100.0 == percent * capacity;
  }

  /** When both kinds of answers describe the same array, both paths give the same sequence of
      records in the order of the volumes, with equal Total and Used, and with equal UsedPercent
      wherever the capacity is positive. They are entirely equal exactly when no volume without
      positive capacity reports a nonzero percentage: there the bulk path writes 0. */
  lemma {:induction false} BulkMatchesLegacy(arrayId: string, vs: seq<VolumeInfo>, vols: seq<VolumeEnhanced>,
                                            answers: seq<Answer<Volume>>)
    requires SameArrayState(vs, vols, answers)
    ensures var b, l := BulkRecords(arrayId, vs, vols), LegacyRecords(arrayId, vs, answers);
            && |b| == |l|
            && (forall i :: 0 <= i < |b| ==> EqualButForPercent(b[i], l[i]))
            && (b == l <==> PercentsAgree(answers))
  {
    if vs != [] {
      var n := |vs| - 1;
      BulkMatchesLegacy(arrayId, vs[..n], vols, answers[..n]);
      var vol := LastById(vols, VolumeIdOf(vs[n].volumeHandle));
      assert SameVolume(vol, answers[n]);
      PercentsAgreeStep(answers);
      if !answers[n].Got? {
        assert BulkRecords(arrayId, vs, vols) == BulkRecords(arrayId, vs[..n], vols);
        assert LegacyRecords(arrayId, vs, answers) == LegacyRecords(arrayId, vs[..n], answers[..n]);
      } else {
        RecordsOfSameVolume(arrayId, vs[n], vol.value, answers[n].value);
        AppendedEqual(BulkRecords(arrayId, vs[..n], vols), BulkRecord(arrayId, vs[n], vol.value),
                      LegacyRecords(arrayId, vs[..n], answers[..n]), LegacyRecord(arrayId, vs[n], answers[n].value));
      }
    }
  }

  /** No volume without positive capacity reports a nonzero percentage. */
  predicate PercentsAgree(answers: seq<Answer<Volume>>) {
    forall i :: 0 <= i < |answers| ==> PercentAgrees(answers[i])
  }

  predicate PercentAgrees(answer: Answer<Volume>) {
    answer.Got? ==> answer.value.capacityGB > 0.0 || answer.value.allocatedPercent == 0
  }

  lemma PercentsAgreeStep(answers: seq<Answer<Volume>>)
    requires answers != []
    ensures var n := |answers| - 1; PercentsAgree(answers) <==> PercentsAgree(answers[..n]) && PercentAgrees(answers[n])
  {
    var n := |answers| - 1;
    assert forall i :: 0 <= i < n ==> answers[..n][i] == answers[i];
  }

  lemma AppendedEqual<T>(xs: seq<T>, x: T, ys: seq<T>, y: T)
    requires |xs| == |ys|
    ensures xs + [x] == ys + [y] <==> xs == ys && x == y
  {
    if xs + [x] == ys + [y] {
      assert (xs + [x])[..|xs|] == xs && (ys + [y])[..|xs|] == ys;
      assert (xs + [x])[|xs|] == x && (ys + [y])[|xs|] == y;
    }
  }

  /** A volume of no capacity of which five percent are reported allocated: the two paths' answers
      describe the same state, and give different records. */
  lemma PathsDifferWithoutCapacity(v: VolumeInfo)
    requires v.volumeHandle == "a-v"
    ensures var vols, answers := [VolumeEnhanced("v", 0.0, 0.0)], [Got(Volume(0.0, 5))];
            SameArrayState([v], vols, answers) && BulkRecords("a", [v], vols) != LegacyRecords("a", [v], answers)
  {
    var vols, answers := [VolumeEnhanced("v", 0.0, 0.0)], [Got(Volume(0.0, 5))];
    assert "a" + "-" + "v" == "a-v";
    ParsePlain("a", "v");
    assert LastById(vols, "v") == Some(vols[0]);
    assert !PercentAgrees(answers[0]);
    BulkMatchesLegacy("a", [v], vols, answers);
  }

  /** Every record of an array carries that array's ID and the labels of one of its volumes. */
  lemma {:induction false} RecordsNameTheirArray(arrayId: string, vs: seq<VolumeInfo>, bulk: BulkAnswer,
                                                 answers: seq<Answer<Volume>>)
    requires |answers| == |vs|
    ensures forall r :: r in ArrayRecords(arrayId, vs, bulk, answers) ==>
              exists v :: v in vs && CarriesLabelsOf(r, arrayId, v)
  {
    if vs != [] {
      var n := |vs| - 1;
      RecordsNameTheirArray(arrayId, vs[..n], bulk, answers[..n]);
      assert vs[n] in vs;
      forall r | r in ArrayRecords(arrayId, vs, bulk, answers)
        ensures exists v :: v in vs && CarriesLabelsOf(r, arrayId, v)
      {
        if r in ArrayRecords(arrayId, vs[..n], bulk, answers[..n]) {
          var v :| v in vs[..n] && CarriesLabelsOf(r, arrayId, v);
          assert v in vs;
        } else {
          assert CarriesLabelsOf(r, arrayId, vs[n]);
        }
      }
    }
  }
}
