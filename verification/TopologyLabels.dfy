/** The recorder's cache of topology metrics and their labels, and the in-place update of a cached
    label list. A list is an array, shared between the cache and whoever made it. */
module TopologyLabels {
  import opened Collections
  import opened MetricTypes
  import Pipeline = TopologyPipeline

  datatype Label = Label(key: string, value: string)

  /** The value a label ends up with: of the last matching one that differs from it, if any. */
  function UpdatedValue(current: Label, labels: seq<Label>): string {
    if labels == [] then current.value
    else
      var last := labels[|labels| - 1];
      if last.key == current.key && last.value != current.value then last.value
      else UpdatedValue(current, labels[..|labels| - 1])
  }

  function Updated(current: seq<Label>, labels: seq<Label>): (updated: seq<Label>)
    ensures |updated| == |current|
    ensures forall i :: 0 <= i < |current| ==> updated[i] == Label(current[i].key, UpdatedValue(current[i], labels))
  {
    seq(|current|, i requires 0 <= i < |current| => Label(current[i].key, UpdatedValue(current[i], labels)))
  }

  /** Some shared key carries two different values. */
  predicate Differ(current: seq<Label>, labels: seq<Label>) {
    exists i, j :: 0 <= i < |current| && 0 <= j < |labels| && current[i].key == labels[j].key
                && current[i].value != labels[j].value
  }

  /** Flags a change exactly when some shared key carries two values, and writes the new values
      into the list it was given, which is also the list it returns. */
  method HaveLabelsChanged(current: array<Label>, labels: seq<Label>)
      returns (changed: bool, updatedLabels: array<Label>)
    modifies current
    ensures updatedLabels == current
    ensures current[..] == Updated(old(current[..]), labels)
    ensures changed <==> Differ(old(current[..]), labels)
  {
    updatedLabels := current;
    changed := false;
    ghost var was := current[..];
    for i := 0 to current.Length
      invariant forall k :: 0 <= k < i ==> updatedLabels[k] == Label(was[k].key, UpdatedValue(was[k], labels))
      invariant forall k :: i <= k < current.Length ==> updatedLabels[k] == was[k]
      invariant changed <==> Differ(was[..i], labels)
    {
      var own := current[i];
      ghost var before := changed;
      for j := 0 to |labels|
        invariant forall k :: 0 <= k < current.Length && k != i ==>
                    updatedLabels[k] == if k < i then Label(was[k].key, UpdatedValue(was[k], labels)) else was[k]
        invariant updatedLabels[i] == Label(was[i].key, UpdatedValue(was[i], labels[..j]))
        invariant changed <==> before || Differ([was[i]], labels[..j])
      {
        assert labels[..j + 1][..j] == labels[..j];
        var latest := labels[j];
        DifferStep(own, labels[..j], latest);
        assert labels[..j + 1] == labels[..j] + [latest];
        if own.key == latest.key {
          if own.value != latest.value {
            updatedLabels[i] := updatedLabels[i].(value := latest.value);
            changed := true;
          }
        }
      }
      assert labels[..|labels|] == labels;
      assert was[..i + 1] == was[..i] + [was[i]];
      DifferAppend(was[..i], was[i], labels);
    }
    assert was[..current.Length] == was;
  }

  lemma DifferStep(own: Label, labels: seq<Label>, last: Label)
    ensures Differ([own], labels + [last]) <==>
            Differ([own], labels) || (own.key == last.key && own.value != last.value)
  {
    var labels' := labels + [last];
    if Differ([own], labels) {
      var j :| 0 <= j < |labels| && own.key == labels[j].key && own.value != labels[j].value;
      assert labels'[j] == labels[j] && [own][0] == own;
    }
    if own.key == last.key && own.value != last.value {
      assert labels'[|labels|] == last && [own][0] == own;
    }
  }

  lemma DifferAppend(front: seq<Label>, own: Label, labels: seq<Label>)
    ensures Differ(front + [own], labels) <==> Differ(front, labels) || Differ([own], labels)
  {
    var all := front + [own];
    if Differ(front, labels) {
      var i, j :| 0 <= i < |front| && 0 <= j < |labels| && front[i].key == labels[j].key
                  && front[i].value != labels[j].value;
      assert all[i] == front[i];
    }
    if Differ([own], labels) {
      var j :| 0 <= j < |labels| && own.key == labels[j].key && own.value != labels[j].value;
      assert all[|front|] == own;
    }
  }

  /** On the keys of a list, equal keys of the new labels carry equal values. */
  predicate Consistent(current: seq<Label>, labels: seq<Label>) {
    forall i, j, j' ::
      (0 <= i < |current| && 0 <= j < |labels| && 0 <= j' < |labels|
       && labels[j].key == current[i].key && labels[j'].key == current[i].key) ==>
      labels[j].value == labels[j'].value
  }

  lemma {:induction false} UpdatedValueOf(current: Label, labels: seq<Label>)
    ensures UpdatedValue(current, labels) == current.value
            || exists j :: 0 <= j < |labels| && labels[j] == Label(current.key, UpdatedValue(current, labels))
    ensures UpdatedValue(current, labels) == current.value <==>
            forall j :: 0 <= j < |labels| && labels[j].key == current.key ==> labels[j].value == current.value
  {
    if labels != [] {
      var n := |labels| - 1;
      UpdatedValueOf(current, labels[..n]);
      assert forall j :: 0 <= j < n ==> labels[..n][j] == labels[j];
    }
  }

  lemma UnchangedIffAgrees(current: seq<Label>, labels: seq<Label>)
    ensures Updated(current, labels) == current <==> !Differ(current, labels)
  {
    var updated := Updated(current, labels);
    forall i | 0 <= i < |current|
      ensures updated[i] == current[i] <==> !Differ([current[i]], labels)
    {
      UpdatedValueOf(current[i], labels);
      assert [current[i]][0] == current[i];
    }
    if Differ(current, labels) {
      var i, j :| 0 <= i < |current| && 0 <= j < |labels| && current[i].key == labels[j].key
                  && current[i].value != labels[j].value;
      assert [current[i]][0] == current[i];
      assert Differ([current[i]], labels);
    }
  }

  predicate IsDifferent(current: Label, labels: seq<Label>, j: int) {
    0 <= j < |labels| && labels[j].key == current.key && labels[j].value != current.value
  }

  /** The value is that of the last label with the key that differs from the current one. */
  lemma {:induction false} UpdatedValueIsLastDifferent(current: Label, labels: seq<Label>)
    ensures if exists j :: IsDifferent(current, labels, j)
            then exists j :: IsDifferent(current, labels, j) && UpdatedValue(current, labels) == labels[j].value
                          && forall k :: j < k ==> !IsDifferent(current, labels, k)
            else UpdatedValue(current, labels) == current.value
  {
    if labels != [] {
      var n := |labels| - 1;
      UpdatedValueIsLastDifferent(current, labels[..n]);
      forall j | 0 <= j < n
        ensures IsDifferent(current, labels, j) <==> IsDifferent(current, labels[..n], j)
      {
      }
      if IsDifferent(current, labels, n) {
        assert forall k :: n < k ==> !IsDifferent(current, labels, k);
      } else if j :| IsDifferent(current, labels[..n], j)
                     && UpdatedValue(current, labels[..n]) == labels[..n][j].value
                     && forall k :: j < k ==> !IsDifferent(current, labels[..n], k) {
        assert IsDifferent(current, labels, j);
      }
    }
  }

  /** Keys and length stay. The result agrees with the new labels on every shared key if and only if
      the new labels are consistent; and so does a second application change nothing. */
  lemma UpdateAgreesIffConsistent(current: seq<Label>, labels: seq<Label>)
    ensures var updated := Updated(current, labels);
            && |updated| == |current|
            && (forall i :: 0 <= i < |current| ==> updated[i].key == current[i].key)
            && (!Differ(updated, labels) <==> Consistent(current, labels))
            && (Updated(updated, labels) == updated <==> Consistent(current, labels))
  {
    var updated := Updated(current, labels);
    if Consistent(current, labels) {
      forall i, j | 0 <= i < |updated| && 0 <= j < |labels| && updated[i].key == labels[j].key
        ensures updated[i].value == labels[j].value
      {
        UpdatedValueOf(current[i], labels);
      }
    }
    if !Differ(updated, labels) {
      forall i, j, j' | 0 <= i < |current| && 0 <= j < |labels| && 0 <= j' < |labels|
                     && labels[j].key == current[i].key && labels[j'].key == current[i].key
        ensures labels[j].value == labels[j'].value
      {
        assert updated[i].key == labels[j].key && updated[i].key == labels[j'].key;
      }
    }
    UnchangedIffAgrees(updated, labels);
  }

  /** An inconsistent list makes the update flip back and forth. */
  lemma InconsistentLabelsFlip()
    ensures var labels := [Label("k", "B"), Label("k", "A")];
            Updated([Label("k", "A")], labels) == [Label("k", "B")]
            && Updated([Label("k", "B")], labels) == [Label("k", "A")]
  {
    var labels := [Label("k", "B"), Label("k", "A")];
    assert labels[..1] == [Label("k", "B")] && labels[..1][..0] == [];
    assert "A" != "B";
    assert UpdatedValue(Label("k", "A"), labels[..1]) == "B";
    assert UpdatedValue(Label("k", "A"), labels) == "B";
    assert UpdatedValue(Label("k", "B"), labels) == "A";
  }

  // ---------------------------------------------------------------- the pair of maps

  /** The registered instrument of one topology metric. */
  class TopologyMetricsData {
    constructor () {}
  }

  class MetricsRecorderWrapper {
    var labels: map<string, array<Label>>
    var topologyMetrics: map<string, TopologyMetricsData>
    ghost var recorded: seq<TopologyMeta>   // what RecordTopologyMetrics was called with

    /** Both maps have the same keys, and no two share a label list. */
    ghost predicate Valid()
      reads this
    {
      && labels.Keys == topologyMetrics.Keys
      && forall id, id' :: id in labels && id' in labels && id != id' ==> labels[id] != labels[id']
    }

    /** The cached list of every volume recorded so far is that of its last recording. */
    ghost predicate CachesLastRecordings()
      reads this, labels.Values
    {
      forall id :: Caches(id, LastRecording(recorded, id))
    }

    ghost predicate Caches(id: string, last: Option<TopologyMeta>)
      reads this, labels.Values
    {
      if id in labels then last.Some? && labels[id][..] == TopologyLabelsOf(last.value) else last.None?
    }

    constructor ()
      ensures Valid() && labels == map[] && recorded == [] && CachesLastRecordings()
    {
      labels, topologyMetrics := map[], map[];
      recorded := [];
    }

    method InitTopologyMetrics(metaId: string, newLabels: array<Label>) returns (metrics: TopologyMetricsData)
      modifies this`topologyMetrics, this`labels
      ensures fresh(metrics)
      ensures topologyMetrics == old(topologyMetrics)[metaId := metrics]
      ensures labels == old(labels)[metaId := newLabels]
    {
      metrics := new TopologyMetricsData();
      topologyMetrics := topologyMetrics[metaId := metrics];
      labels := labels[metaId := newLabels];
    }

    /** A new ID stores the caller's list itself. A known one keeps its own list, updated in place;
        its instrument is replaced exactly when a label changed. Other IDs keep both. */
    method UpdateLabels(metaId: string, newLabels: array<Label>) returns (metrics: TopologyMetricsData)
      requires Valid() && newLabels !in labels.Values
      modifies this`topologyMetrics, this`labels, if metaId in labels then {labels[metaId]} else {}
      ensures Valid()
      ensures labels == (if metaId in old(labels) then old(labels) else old(labels)[metaId := newLabels])
      ensures topologyMetrics == old(topologyMetrics)[metaId := metrics]
      ensures metaId in old(labels) ==>
                labels[metaId][..] == Updated(old(labels[metaId][..]), newLabels[..])
                && if old(Differ(labels[metaId][..], newLabels[..])) then fresh(metrics)
                   else metrics == old(topologyMetrics)[metaId]
      ensures forall id :: id in old(labels) && id != metaId ==> labels[id][..] == old(labels[id][..])
    {
      if metaId !in topologyMetrics {
        metrics := InitTopologyMetrics(metaId, newLabels);
      } else {
        metrics := topologyMetrics[metaId];
        if metaId in labels {
          assert newLabels != labels[metaId] by { assert labels[metaId] in labels.Values; }
          var haveLabelsChanged, updatedLabels := HaveLabelsChanged(labels[metaId], newLabels[..]);
          if haveLabelsChanged {
            metrics := InitTopologyMetrics(metaId, updatedLabels);
          }
        }
      }
    }

    /** Recording a volume: whatever was recorded before, its cached labels are then its own. */
    method RecordTopologyMetrics(meta: TopologyMeta) returns (metrics: TopologyMetricsData)
      requires Valid() && CachesLastRecordings()
      modifies this, labels.Values
      ensures Valid() && CachesLastRecordings()
      ensures recorded == old(recorded) + [meta]
    {
      var id := meta.persistentVolume;
      var newLabels := NewLabelList(meta);
      assert Caches(id, LastRecording(recorded, id));
      if LastRecording(recorded, id).Some? {
        RerecordedLabelsAgree(LastRecording(recorded, id).value, meta);
      }
      metrics := UpdateLabels(id, newLabels);
      assert Caches(id, Some(meta));
      RecordingStep(recorded, meta);
      recorded := recorded + [meta];
      forall other
        ensures Caches(other, LastRecording(recorded, other))
      {
        assert other != id ==> old(Caches(other, LastRecording(recorded, other)));
      }
    }
  }

  method NewLabelList(meta: TopologyMeta) returns (list: array<Label>)
    ensures fresh(list) && list[..] == TopologyLabelsOf(meta)
  {
    var labels := TopologyLabelsOf(meta);
    list := new Label[|labels|](i requires 0 <= i < |labels| => labels[i]);
  }

  /** The last recording of a volume. */
  function LastRecording(recorded: seq<TopologyMeta>, id: string): Option<TopologyMeta> {
    if recorded == [] then None
    else
      var last := recorded[|recorded| - 1];
      if last.persistentVolume == id then Some(last) else LastRecording(recorded[..|recorded| - 1], id)
  }

  lemma RecordingStep(recorded: seq<TopologyMeta>, meta: TopologyMeta)
    ensures forall id :: LastRecording(recorded + [meta], id) ==
                           if id == meta.persistentVolume then Some(meta) else LastRecording(recorded, id)
  {
    assert (recorded + [meta])[..|recorded|] == recorded;
  }

  // ---------------------------------------------------------------- the labels that are recorded

  /** The label list of RecordTopologyMetrics; the storage class appears twice. */
  function TopologyLabelsOf(m: TopologyMeta): seq<Label> {
    [Label("PersistentVolumeClaim", m.persistentVolumeClaim),
     Label("Driver", m.driver),
     Label("PersistentVolume", m.persistentVolume),
     Label("PersistentVolumeStatus", m.persistentVolumeStatus),
     Label("StorageClass", m.storageClass),
     Label("PlotWithMean", "No"),
     Label("StorageClass", m.storageClass),
     Label("Namespace", m.namespace),
     Label("ProvisionedSize", m.provisionedSize),
     Label("StorageSystemVolumeName", m.storageSystemVolumeName),
     Label("StorageSystem", m.storageSystem),
     Label("Protocol", m.protocol),
     Label("CreatedTime", m.createdTime)]
  }

  /** The keys of that list by their length and a telling character: only the two storage class
      labels share one. */
  lemma TopologyLabelsConsistent(m: TopologyMeta, current: seq<Label>)
    ensures Consistent(current, TopologyLabelsOf(m))
    ensures !Differ(Updated(current, TopologyLabelsOf(m)), TopologyLabelsOf(m))
  {
    var labels := TopologyLabelsOf(m);
    forall j, j' | 0 <= j < |labels| && 0 <= j' < |labels| && labels[j].key == labels[j'].key
      ensures labels[j].value == labels[j'].value
    {
      assert |labels[j].key| == |labels[j'].key|;
      assert labels[j].key[0] == labels[j'].key[0];
    }
    UpdateAgreesIffConsistent(current, labels);
  }

  /** Recording the same volume again with any labels leaves the cached list in agreement with
      them: whatever was recorded before, the stored value of every label is the new one. */
  lemma RerecordedLabelsAgree(before: TopologyMeta, m: TopologyMeta)
    ensures Updated(TopologyLabelsOf(before), TopologyLabelsOf(m)) == TopologyLabelsOf(m)
  {
    var current, labels := TopologyLabelsOf(before), TopologyLabelsOf(m);
    TopologyLabelsConsistent(m, current);
    forall i | 0 <= i < |labels|
      ensures Updated(current, labels)[i] == labels[i]
    {
      assert current[i].key == labels[i].key;
    }
  }

  // ---------------------------------------------------------------- what is published of a volume

  predicate HasLabel(labels: seq<Label>, key: string, value: string) { Label(key, value) in labels }

  /** Each label that is recorded for a volume, by the field of the volume it is taken from. */
  lemma PublishedOf(v: VolumeInfo)
    ensures var labels := TopologyLabelsOf(Pipeline.MetaOf(v));
            && |labels| == 13
            && HasLabel(labels, "PersistentVolumeClaim", v.volumeClaimName)
            && HasLabel(labels, "Driver", v.driver)
            && HasLabel(labels, "PersistentVolume", v.persistentVolume)
            && HasLabel(labels, "PersistentVolumeStatus", v.persistentVolumeStatus)
            && HasLabel(labels, "StorageClass", v.storageClass)
            && HasLabel(labels, "PlotWithMean", "No")
            && HasLabel(labels, "Namespace", v.namespace)
            && HasLabel(labels, "ProvisionedSize", v.provisionedSize)
            && HasLabel(labels, "StorageSystemVolumeName", v.storageSystemVolumeName)
            && HasLabel(labels, "StorageSystem", v.symId)
            && HasLabel(labels, "Protocol", v.protocol)
            && HasLabel(labels, "CreatedTime", v.createdTime)
  {
    var labels := TopologyLabelsOf(Pipeline.MetaOf(v));
    assert labels[0].key == "PersistentVolumeClaim" && labels[1].key == "Driver";
  }

  /** The storage pool is gathered and not published: volumes that differ only in their SRP have the
      same labels. */
  lemma PoolIsNotPublished(v: VolumeInfo, srp: string)
    ensures TopologyLabelsOf(Pipeline.MetaOf(v.(srp := srp))) == TopologyLabelsOf(Pipeline.MetaOf(v))
  {
  }
}
