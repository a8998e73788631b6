/** The performance collector's two indexes over the persistent volumes, and the join of volume
    results back to the volumes. */
module VolumePerformance {
  import opened Collections
  import opened MetricTypes
  import opened VolumeHandles
  import Gather = CapacityGather

  datatype Sample = Sample(mbRead: real, mbWritten: real, readResponseTime: real, writeResponseTime: real,
                           readOps: real, writeOps: real)

  /** One volume of the answer to GetVolumesMetrics; `storageGroups` is a comma-joined text. */
  datatype VolumeResult = VolumeResult(volumeId: string, storageGroups: string, samples: seq<Sample>)

  datatype PerfRecord = PerfRecord(
    arrayId: string, volumeId: string, storageGroupId: string, storageClass: string, driver: string,
    persistentVolumeName: string, persistentVolumeClaimName: string, namespace: string, sample: Sample)

  /** Sent when there is no array. */
  const EMPTY_RECORD: PerfRecord :=
    PerfRecord("", "", "", "", "", "", "", "", Sample(0.0, 0.0, 0.0, 0.0, 0.0, 0.0))

  function GroupsOf(vs: seq<VolumeInfo>): set<string> {
    if vs == [] then {} else GroupsOf(vs[..|vs| - 1]) + {vs[|vs| - 1].storageGroup}
  }

  /** The composite key of a volume, when its handle can be parsed. */
  function KeyOfVolume(v: VolumeInfo): Option<string> {
    var ids := ParseHandle(v.volumeHandle);
    if ids.None? then None else Some(VolumeKey(ids.value.volumeId, ids.value.arrayId))
  }

  /** The last volume with a key. */
  function LastWithKey(pvs: seq<VolumeInfo>, key: string): (index: Option<nat>)
    ensures index.Some? ==> index.value < |pvs|
  {
    if pvs == [] then None
    else
      var n := |pvs| - 1;
      if HasKey(pvs[n], key) then Some(n) else LastWithKey(pvs[..n], key)
  }

  predicate HasKey(v: VolumeInfo, key: string) { KeyOfVolume(v) == Some(key) }

  /** The index is the last one with the key; None when there is none. */
  predicate IsLastWithKey(pvs: seq<VolumeInfo>, key: string, index: Option<nat>) {
    match index
    case None => forall i :: 0 <= i < |pvs| ==> !HasKey(pvs[i], key)
    case Some(last) => last < |pvs| && HasKey(pvs[last], key) && forall i :: last < i < |pvs| ==> !HasKey(pvs[i], key)
  }

  lemma LastWithKeyStep(front: seq<VolumeInfo>, v: VolumeInfo, key: string, index: Option<nat>)
    requires IsLastWithKey(front, key, index)
    ensures IsLastWithKey(front + [v], key, if HasKey(v, key) then Some(|front|) else index)
  {
  }

  lemma {:induction false} LastWithKeyIsLast(pvs: seq<VolumeInfo>, key: string)
    ensures IsLastWithKey(pvs, key, LastWithKey(pvs, key))
  {
    if pvs != [] {
      var front, v := pvs[..|pvs| - 1], pvs[|pvs| - 1];
      LastWithKeyIsLast(front, key);
      LastWithKeyStep(front, v, key, LastWithKey(front, key));
      assert pvs == front + [v];
    }
  }

  /** The same arrays as the capacity collector groups by, each with the storage groups of its
      volumes. */
  ghost predicate IsGroupIndex(m: map<string, set<string>>, pvs: seq<VolumeInfo>) {
    forall a :: IndexesArray(m, pvs, a)
  }

  ghost predicate IndexesArray(m: map<string, set<string>>, pvs: seq<VolumeInfo>, a: string) {
    && (a in m <==> exists i :: 0 <= i < |pvs| && Gather.IsOnArray(pvs[i], a))
    && (a in m ==> m[a] == GroupsOf(Gather.OnArray(pvs, a)))
  }

  ghost predicate IsVolumeIndex(m: map<string, nat>, pvs: seq<VolumeInfo>) {
    forall key :: if key in m then LastWithKey(pvs, key) == Some(m[key]) else LastWithKey(pvs, key) == None
  }

  method AddGroup(index: map<string, set<string>>, arrayId: string, sg: string)
      returns (extended: map<string, set<string>>)
    ensures extended == index[arrayId := (if arrayId in index then index[arrayId] else {}) + {sg}]
  {
    extended := index;
    if arrayId in index {
      if sg !in index[arrayId] {
        extended := index[arrayId := index[arrayId] + {sg}];
      } else {
        assert index[arrayId] + {sg} == index[arrayId];
      }
    } else {
      var none: set<string> := {};
      assert none + {sg} == {sg};
      extended := index[arrayId := {sg}];
    }
  }

  method BuildIndexes(pvs: seq<VolumeInfo>)
      returns (array2Sgs: map<string, set<string>>, id2Volume: map<string, nat>)
    ensures IsGroupIndex(array2Sgs, pvs)
    ensures IsVolumeIndex(id2Volume, pvs)
  {
    array2Sgs, id2Volume := map[], map[];
    for n := 0 to |pvs|
      invariant IsGroupIndex(array2Sgs, pvs[..n])
      invariant IsVolumeIndex(id2Volume, pvs[..n])
    {
      var volume := pvs[n];
      ghost var sgsBefore, volumesBefore := array2Sgs, id2Volume;
      assert pvs[..n + 1] == pvs[..n] + [volume];
      var parts := Split(volume.volumeHandle, '-');
      if |parts| < 2 {
        GroupIndexStep(sgsBefore, array2Sgs, pvs[..n], volume);
        VolumeIndexStep(volumesBefore, id2Volume, pvs[..n], volume);
        continue;
      }
      var volumeId := parts[|parts| - 1];
      var arrayId := parts[|parts| - 2];
      array2Sgs := AddGroup(array2Sgs, arrayId, volume.storageGroup);
      id2Volume := id2Volume[VolumeKey(volumeId, arrayId) := n];
      GroupIndexStep(sgsBefore, array2Sgs, pvs[..n], volume);
      VolumeIndexStep(volumesBefore, id2Volume, pvs[..n], volume);
    }
    assert pvs[..|pvs|] == pvs;
  }

  lemma GroupIndexStep(m: map<string, set<string>>, m': map<string, set<string>>, pvs: seq<VolumeInfo>, v: VolumeInfo)
    requires IsGroupIndex(m, pvs)
    requires ParseHandle(v.volumeHandle).None? ==> m' == m
    requires ParseHandle(v.volumeHandle).Some? ==>
               var a := ParseHandle(v.volumeHandle).value.arrayId;
               m' == m[a := (if a in m then m[a] else {}) + {v.storageGroup}]
    ensures IsGroupIndex(m', pvs + [v])
  {
    forall a
      ensures IndexesArray(m', pvs + [v], a)
    {
      assert IndexesArray(m, pvs, a);
      if Gather.IsOnArray(v, a) {
        ArrayGains(m, m', pvs, v, a);
      } else {
        ArrayKeeps(m, m', pvs, v, a);
      }
    }
  }

  lemma ArrayGains(m: map<string, set<string>>, m': map<string, set<string>>, pvs: seq<VolumeInfo>, v: VolumeInfo,
                   a: string)
    requires IndexesArray(m, pvs, a) && Gather.IsOnArray(v, a)
    requires a in m' && m'[a] == (if a in m then m[a] else {}) + {v.storageGroup}
    ensures IndexesArray(m', pvs + [v], a)
  {
    assert (pvs + [v])[..|pvs|] == pvs && (pvs + [v])[|pvs|] == v;
    GroupsOfAppend(Gather.OnArray(pvs, a), v);
    if a !in m {
      Gather.NoneOnArray(pvs, a);
    }
  }

  lemma ArrayKeeps(m: map<string, set<string>>, m': map<string, set<string>>, pvs: seq<VolumeInfo>, v: VolumeInfo,
                   a: string)
    requires IndexesArray(m, pvs, a) && !Gather.IsOnArray(v, a)
    requires a in m' <==> a in m
    requires a in m ==> m'[a] == m[a]
    ensures IndexesArray(m', pvs + [v], a)
  {
    var pvs' := pvs + [v];
    assert pvs'[..|pvs|] == pvs && pvs'[|pvs|] == v;
    assert Gather.OnArray(pvs', a) == Gather.OnArray(pvs, a);
    if i :| 0 <= i < |pvs| && Gather.IsOnArray(pvs[i], a) {
      assert Gather.IsOnArray(pvs'[i], a);
    }
  }

  lemma GroupsOfAppend(vs: seq<VolumeInfo>, v: VolumeInfo)
    ensures GroupsOf(vs + [v]) == GroupsOf(vs) + {v.storageGroup}
  {
    assert (vs + [v])[..|vs|] == vs;
  }

  /** The storage groups of an index entry are those of the array's volumes, and no other. */
  lemma {:induction false} GroupsOfAre(vs: seq<VolumeInfo>, sg: string)
    ensures sg in GroupsOf(vs) <==> exists v :: v in vs && v.storageGroup == sg
  {
    if vs != [] {
      var front, last := vs[..|vs| - 1], vs[|vs| - 1];
      GroupsOfAre(front, sg);
      assert vs == front + [last];
    }
  }

  /** The capacity and the performance collector work on the same arrays, and ask of each array
      exactly the storage groups its grouped volumes are in. */
  lemma CollectorsAgreeOnArrays(volumes: map<string, seq<VolumeInfo>>, groups: map<string, set<string>>,
                                pvs: seq<VolumeInfo>)
    requires Gather.IsGrouping(volumes, pvs) && IsGroupIndex(groups, pvs)
    ensures volumes.Keys == groups.Keys
    ensures forall a, sg :: a in groups ==> (sg in groups[a] <==> exists v :: v in volumes[a] && v.storageGroup == sg)
  {
    forall a
      ensures a in volumes <==> a in groups
    {
      assert IndexesArray(groups, pvs, a);
    }
    forall a, sg | a in groups
      ensures sg in groups[a] <==> exists v :: v in volumes[a] && v.storageGroup == sg
    {
      assert IndexesArray(groups, pvs, a);
      GroupsOfAre(volumes[a], sg);
    }
  }

  lemma VolumeIndexStep(m: map<string, nat>, m': map<string, nat>, pvs: seq<VolumeInfo>, v: VolumeInfo)
    requires IsVolumeIndex(m, pvs)
    requires KeyOfVolume(v).None? ==> m' == m
    requires KeyOfVolume(v).Some? ==> m' == m[KeyOfVolume(v).value := |pvs|]
    ensures IsVolumeIndex(m', pvs + [v])
  {
    assert (pvs + [v])[..|pvs|] == pvs;
  }

  // ---------------------------------------------------------------- the join

  /** strings.Contains. */
  predicate Contains(text: string, part: string) {
    exists i: nat :: i <= |text| && IsPrefix(part, text[i..])
  }

  predicate IsPrefix(part: string, text: string) { part <= text }

  lemma ContainsStep(c: char, text: string, part: string)
    ensures Contains([c] + text, part) <==> part <= [c] + text || Contains(text, part)
  {
    var all := [c] + text;
    if Contains(all, part) {
      var i: nat :| i <= |all| && IsPrefix(part, all[i..]);
      assert all[0..] == all;
      if i > 0 {
        assert all[i..] == text[i - 1..];
      }
    }
    if part <= all {
      assert all[0..] == all && IsPrefix(part, all[0..]);
    }
    if i: nat :| i <= |text| && IsPrefix(part, text[i..]) {
      assert all[i + 1..] == text[i..];
    }
  }

  /** Some part of the text contains it. */
  predicate PartContains(parts: seq<string>, part: string) {
    exists i :: 0 <= i < |parts| && Contains(parts[i], part)
  }

  lemma {:induction false} FirstPart(text: string, sep: char)
    ensures var first := Split(text, sep)[0];
            first <= text && (first == text || text[|first|] == sep)
  {
    if text != "" {
      FirstPart(text[1..], sep);
    }
  }

  /** A text contains one without the separator exactly if one of its parts does. */
  lemma {:induction false} ContainsInParts(text: string, sep: char, part: string)
    requires sep !in part
    ensures Contains(text, part) <==> PartContains(Split(text, sep), part)
  {
    var parts := Split(text, sep);
    if text == "" {
      assert parts == [text];
    } else {
      var rest := Split(text[1..], sep);
      ContainsInParts(text[1..], sep, part);
      assert text == [text[0]] + text[1..];
      ContainsStep(text[0], text[1..], part);
      FirstPart(text, sep);
      if text[0] == sep {
        SeparatorAhead(rest, part, sep, text[1..]);
      } else {
        ContainsStep(text[0], rest[0], part);
        assert part <= text ==> part <= parts[0];
        FirstPartGrows(text[0], rest, part);
      }
    }
  }

  lemma SeparatorAhead(rest: seq<string>, part: string, sep: char, text: string)
    requires sep !in part && |rest| >= 1
    requires Contains(text, part) <==> PartContains(rest, part)
    ensures part <= [sep] + text || Contains(text, part) <==> PartContains([""] + rest, part)
  {
    var parts := [""] + rest;
    assert ([sep] + text)[0] == sep;
    if part != "" {
      assert part[0] != sep;
    }
    assert Contains("", part) <==> part == "" by {
      assert ""[0..] == "";
      assert part == "" ==> IsPrefix(part, ""[0..]);
    }
    assert forall i :: 0 <= i < |rest| ==> parts[i + 1] == rest[i];
    assert parts[0] == "";
  }

  lemma FirstPartGrows(c: char, rest: seq<string>, part: string)
    requires |rest| >= 1
    ensures var parts := [[c] + rest[0]] + rest[1..];
            PartContains(parts, part) <==> part <= parts[0] || PartContains(rest, part)
  {
    var parts := [[c] + rest[0]] + rest[1..];
    ContainsStep(c, rest[0], part);
    assert forall i :: 1 <= i < |rest| ==> parts[i] == rest[i];
    if i :| 0 <= i < |rest| && Contains(rest[i], part) {
      assert Contains(parts[i], part);
    }
  }

  lemma ContainsItself(text: string)
    ensures Contains(text, text)
  {
    assert text[0..] == text;
    assert IsPrefix(text, text[0..]);
  }

  /** The groups of a result, as the comma-joined text lists them. */
  function ListedGroups(text: string): seq<string> { Split(text, ',') }

  /** The code asks whether the text contains the group. For a group without a comma that is to ask
      whether some listed group contains it; so it answers membership in the list if and only if
      the group itself is listed, or no listed group merely contains it. */
  lemma ContainsIsMembershipIff(text: string, sg: string)
    requires ',' !in sg
    ensures Contains(text, sg) <==> PartContains(ListedGroups(text), sg)
    ensures (Contains(text, sg) <==> sg in ListedGroups(text)) <==>
            sg in ListedGroups(text) || !PartContains(ListedGroups(text), sg)
  {
    var parts := ListedGroups(text);
    ContainsInParts(text, ',', sg);
    if sg in parts {
      var i :| 0 <= i < |parts| && parts[i] == sg;
      ContainsItself(sg);
      assert Contains(parts[i], sg);
    }
  }

  /** No listed group contains this one without being it. */
  predicate NoNearMiss(text: string, sg: string) {
    forall g :: g in ListedGroups(text) && Contains(g, sg) ==> g == sg
  }

  /** Where no listed group merely contains the group the test is membership. */
  lemma ContainsIsMembership(text: string, sg: string)
    requires ',' !in sg && NoNearMiss(text, sg)
    ensures Contains(text, sg) <==> sg in ListedGroups(text)
  {
    ContainsIsMembershipIff(text, sg);
  }

  /** A group with a comma is in no list, so that every join of a volume in one is a wrong one. */
  lemma CommaGroupIsNeverListed(text: string, sg: string)
    requires ',' in sg
    ensures sg !in ListedGroups(text)
  {
  }

  /** The volume a result is joined to, as the composite key finds it. */
  function JoinTarget(pvs: seq<VolumeInfo>, arrayId: string, r: VolumeResult): Option<nat> {
    var index := LastWithKey(pvs, VolumeKey(r.volumeId, arrayId));
    if index.Some? && Contains(r.storageGroups, pvs[index.value].storageGroup) && |r.samples| >= 1 then index else None
  }

  function JoinedRecord(arrayId: string, r: VolumeResult, v: VolumeInfo): PerfRecord
    requires |r.samples| >= 1
  {
    PerfRecord(arrayId, r.volumeId, v.storageGroup, v.storageClass, v.driver, v.persistentVolume,
               v.volumeClaimName, v.namespace, r.samples[0])
  }

  function JoinedRecords(pvs: seq<VolumeInfo>, arrayId: string, results: seq<VolumeResult>): seq<PerfRecord> {
    if results == [] then []
    else
      var n := |results| - 1;
      JoinedRecords(pvs, arrayId, results[..n]) + JoinedMore(pvs, arrayId, results[n])
  }

  function JoinedMore(pvs: seq<VolumeInfo>, arrayId: string, r: VolumeResult): seq<PerfRecord> {
    var target := JoinTarget(pvs, arrayId, r);
    if target.Some? then [JoinedRecord(arrayId, r, pvs[target.value])] else []
  }

  /** What the test by membership would join. */
  function ListedTarget(pvs: seq<VolumeInfo>, arrayId: string, r: VolumeResult): Option<nat> {
    var index := LastWithKey(pvs, VolumeKey(r.volumeId, arrayId));
    if index.Some? && pvs[index.value].storageGroup in ListedGroups(r.storageGroups) && |r.samples| >= 1
    then index else None
  }

  function ListedRecords(pvs: seq<VolumeInfo>, arrayId: string, results: seq<VolumeResult>): seq<PerfRecord> {
    if results == [] then []
    else
      var n := |results| - 1;
      var target := ListedTarget(pvs, arrayId, results[n]);
      ListedRecords(pvs, arrayId, results[..n])
      + (if target.Some? then [JoinedRecord(arrayId, results[n], pvs[target.value])] else [])
  }

  /** The result has a sample and its key a volume, whose group a listed one merely contains. */
  predicate JoinsNearMiss(pvs: seq<VolumeInfo>, arrayId: string, r: VolumeResult) {
    var index := LastWithKey(pvs, VolumeKey(r.volumeId, arrayId));
    && index.Some? && |r.samples| >= 1
    && pvs[index.value].storageGroup !in ListedGroups(r.storageGroups)
    && PartContains(ListedGroups(r.storageGroups), pvs[index.value].storageGroup)
  }

  predicate CommaFreeGroups(pvs: seq<VolumeInfo>) {
    forall i :: 0 <= i < |pvs| ==> ',' !in pvs[i].storageGroup
  }

  lemma TargetIsListedIff(pvs: seq<VolumeInfo>, arrayId: string, r: VolumeResult)
    requires CommaFreeGroups(pvs)
    ensures JoinTarget(pvs, arrayId, r) == ListedTarget(pvs, arrayId, r) <==> !JoinsNearMiss(pvs, arrayId, r)
    ensures ListedTarget(pvs, arrayId, r).Some? ==>
              JoinTarget(pvs, arrayId, r) == ListedTarget(pvs, arrayId, r)
  {
    var index := LastWithKey(pvs, VolumeKey(r.volumeId, arrayId));
    if index.Some? {
      ContainsIsMembershipIff(r.storageGroups, pvs[index.value].storageGroup);
    }
  }

  /** With comma-free groups, the records sent are those of volumes whose group the result lists, if
      and only if no result is joined through a group that is merely contained in a listed one. */
  lemma {:induction false} RecordsAreListedIff(pvs: seq<VolumeInfo>, arrayId: string, results: seq<VolumeResult>)
    requires CommaFreeGroups(pvs)
    ensures var sent, listed := JoinedRecords(pvs, arrayId, results), ListedRecords(pvs, arrayId, results);
            && |listed| <= |sent|
            && (sent == listed <==> |sent| == |listed|)
            && (sent == listed <==> forall r :: r in results ==> !JoinsNearMiss(pvs, arrayId, r))
  {
    if results != [] {
      var front, last := results[..|results| - 1], results[|results| - 1];
      assert results == front + [last];
      RecordsAreListedIff(pvs, arrayId, front);
      TargetIsListedIff(pvs, arrayId, last);
    }
  }

  /** What one array's worker does with the answer of GetVolumesMetrics: it panics exactly when the
      answer is nil, and sends nothing for an error. */
  method CollectVolumes(pvs: seq<VolumeInfo>, id2Volume: map<string, nat>, arrayId: string,
                        answer: Answer<seq<VolumeResult>>)
      returns (sent: seq<PerfRecord>, panicked: bool)
    requires IsVolumeIndex(id2Volume, pvs)
    ensures panicked <==> answer.Nil?
    ensures sent == if answer.Got? then JoinedRecords(pvs, arrayId, answer.value) else []
  {
    if answer.Failed? {
      return [], false;
    }
    if answer.Nil? {
      return [], true;
    }
    sent := JoinResults(pvs, id2Volume, arrayId, answer.value);
    panicked := false;
  }

  /** The loop of one array's worker over the volume results; the records it sends, in order. */
  method JoinResults(pvs: seq<VolumeInfo>, id2Volume: map<string, nat>, arrayId: string, results: seq<VolumeResult>)
      returns (sent: seq<PerfRecord>)
    requires IsVolumeIndex(id2Volume, pvs)
    ensures sent == JoinedRecords(pvs, arrayId, results)
  {
    sent := [];
    for n := 0 to |results|
      invariant sent == JoinedRecords(pvs, arrayId, results[..n])
    {
      assert results[..n + 1][..n] == results[..n];
      var key := VolumeKey(results[n].volumeId, arrayId);
      if key in id2Volume {
        assert LastWithKey(pvs, key) == Some(id2Volume[key]);
        var volume := pvs[id2Volume[key]];
        if Contains(results[n].storageGroups, volume.storageGroup) {
          if |results[n].samples| < 1 {
            continue;
          }
          sent := sent + [JoinedRecord(arrayId, results[n], volume)];
        }
      } else {
        assert LastWithKey(pvs, key) == None;
      }
    }
    assert results[..|results|] == results;
  }

  /** The handle of volume i names exactly this array and volume, and no later volume does. */
  predicate LastNaming(pvs: seq<VolumeInfo>, ids: Ids, i: nat) {
    i < |pvs| && ParseHandle(pvs[i].volumeHandle) == Some(ids)
    && forall j :: i < j < |pvs| ==> ParseHandle(pvs[j].volumeHandle) != Some(ids)
  }

  predicate EqualsFreeVolumeIds(pvs: seq<VolumeInfo>) {
    forall i :: 0 <= i < |pvs| && ParseHandle(pvs[i].volumeHandle).Some? ==>
      '=' !in ParseHandle(pvs[i].volumeHandle).value.volumeId
  }

  /** With `=`-free volume IDs the key finds a volume exactly when some handle names the pair, and
      then the last such volume: no other volume can be picked. */
  lemma KeyFindsTheNamedVolume(pvs: seq<VolumeInfo>, arrayId: string, volumeId: string)
    requires EqualsFreeVolumeIds(pvs) && '=' !in volumeId
    ensures var found := LastWithKey(pvs, VolumeKey(volumeId, arrayId));
            && (found.Some? ==> LastNaming(pvs, Ids(arrayId, volumeId), found.value))
            && (found.None? ==>
                  forall i :: 0 <= i < |pvs| ==> ParseHandle(pvs[i].volumeHandle) != Some(Ids(arrayId, volumeId)))
  {
    LastWithKeyIsLast(pvs, VolumeKey(volumeId, arrayId));
    forall i | 0 <= i < |pvs|
      ensures HasKey(pvs[i], VolumeKey(volumeId, arrayId)) <==>
              ParseHandle(pvs[i].volumeHandle) == Some(Ids(arrayId, volumeId))
    {
      var ids := ParseHandle(pvs[i].volumeHandle);
      if ids.Some? {
        VolumeKeyInjective(ids.value.volumeId, ids.value.arrayId, volumeId, arrayId);
      }
    }
  }

  /** In general the volume that the key finds is on another array or another volume than asked
      exactly if an `=` in one of the IDs makes the two pairs overlap. */
  lemma KeyFindsAnotherIff(pvs: seq<VolumeInfo>, arrayId: string, volumeId: string)
    requires LastWithKey(pvs, VolumeKey(volumeId, arrayId)).Some?
    ensures var ids := ParseHandle(pvs[LastWithKey(pvs, VolumeKey(volumeId, arrayId)).value].volumeHandle);
            && ids.Some?
            && (ids.value != Ids(arrayId, volumeId) <==>
                  || Overlaps('=', volumeId, arrayId, ids.value.volumeId, ids.value.arrayId)
                  || Overlaps('=', ids.value.volumeId, ids.value.arrayId, volumeId, arrayId))
  {
    LastWithKeyIsLast(pvs, VolumeKey(volumeId, arrayId));
    var ids := ParseHandle(pvs[LastWithKey(pvs, VolumeKey(volumeId, arrayId)).value].volumeHandle).value;
    PrefixKeyCollidesIff('=', volumeId, arrayId, ids.volumeId, ids.arrayId);
  }

  /** An `=` in one of the IDs gives the volume the key of the asked pair. */
  ghost predicate OverlapsAsked(v: VolumeInfo, arrayId: string, volumeId: string) {
    var ids := ParseHandle(v.volumeHandle);
    ids.Some? && (|| Overlaps('=', volumeId, arrayId, ids.value.volumeId, ids.value.arrayId)
                  || Overlaps('=', ids.value.volumeId, ids.value.arrayId, volumeId, arrayId))
  }

  predicate Names(v: VolumeInfo, arrayId: string, volumeId: string) {
    ParseHandle(v.volumeHandle) == Some(Ids(arrayId, volumeId))
  }

  lemma HasAskedKeyIff(v: VolumeInfo, arrayId: string, volumeId: string)
    ensures HasKey(v, VolumeKey(volumeId, arrayId)) <==>
            Names(v, arrayId, volumeId) || OverlapsAsked(v, arrayId, volumeId)
    ensures !(Names(v, arrayId, volumeId) && OverlapsAsked(v, arrayId, volumeId))
  {
    var ids := ParseHandle(v.volumeHandle);
    if ids.Some? {
      PrefixKeyCollidesIff('=', volumeId, arrayId, ids.value.volumeId, ids.value.arrayId);
    }
  }

  /** The look-up of a pair is right: it finds the last volume whose handle names the pair, and
      nothing when none does. */
  predicate LookUpIsRight(pvs: seq<VolumeInfo>, arrayId: string, volumeId: string) {
    match LastWithKey(pvs, VolumeKey(volumeId, arrayId))
    case Some(i) => LastNaming(pvs, Ids(arrayId, volumeId), i)
    case None => forall i :: 0 <= i < |pvs| ==> !Names(pvs[i], arrayId, volumeId)
  }

  /** For any volumes and IDs, the look-up is right if and only if every volume whose IDs overlap
      the asked pair is followed by one that names it. */
  lemma LookUpIsRightIff(pvs: seq<VolumeInfo>, arrayId: string, volumeId: string)
    ensures LookUpIsRight(pvs, arrayId, volumeId) <==>
            forall i :: 0 <= i < |pvs| && OverlapsAsked(pvs[i], arrayId, volumeId) ==>
              exists j :: i < j < |pvs| && Names(pvs[j], arrayId, volumeId)
  {
    var found := LastWithKey(pvs, VolumeKey(volumeId, arrayId));
    LastWithKeyIsLast(pvs, VolumeKey(volumeId, arrayId));
    forall i | 0 <= i < |pvs|
      ensures HasKey(pvs[i], VolumeKey(volumeId, arrayId)) <==>
              Names(pvs[i], arrayId, volumeId) || OverlapsAsked(pvs[i], arrayId, volumeId)
      ensures !(Names(pvs[i], arrayId, volumeId) && OverlapsAsked(pvs[i], arrayId, volumeId))
    {
      HasAskedKeyIff(pvs[i], arrayId, volumeId);
    }
    if found.Some? && Names(pvs[found.value], arrayId, volumeId) {
      assert LastNaming(pvs, Ids(arrayId, volumeId), found.value) by {
        assert forall j :: found.value < j < |pvs| ==> !HasKey(pvs[j], VolumeKey(volumeId, arrayId));
      }
      forall i | 0 <= i < |pvs| && OverlapsAsked(pvs[i], arrayId, volumeId)
        ensures exists j :: i < j < |pvs| && Names(pvs[j], arrayId, volumeId)
      {
        assert i < found.value;
      }
    }
  }

  /** A record of a result and a volume: the result's ID and first sample, the volume's own data. */
  predicate Joins(p: PerfRecord, arrayId: string, r: VolumeResult, v: VolumeInfo) {
    && p.arrayId == arrayId && p.volumeId == r.volumeId && |r.samples| >= 1 && p.sample == r.samples[0]
    && Contains(r.storageGroups, v.storageGroup) && p.storageGroupId == v.storageGroup
    && p.storageClass == v.storageClass && p.driver == v.driver && p.namespace == v.namespace
    && p.persistentVolumeName == v.persistentVolume && p.persistentVolumeClaimName == v.volumeClaimName
  }

  /** A result is joined to volume i: it has a sample, i is the last volume with its key, and the
      volume's group occurs in the text of its groups. */
  ghost predicate IsJoinedTo(pvs: seq<VolumeInfo>, arrayId: string, r: VolumeResult, i: nat) {
    && |r.samples| >= 1 && IsLastWithKey(pvs, VolumeKey(r.volumeId, arrayId), Some(i))
    && Contains(r.storageGroups, pvs[i].storageGroup)
  }

  ghost function JoinedFlags(pvs: seq<VolumeInfo>, arrayId: string, results: seq<VolumeResult>): (flags: seq<bool>)
    ensures |flags| == |results|
    ensures forall k :: 0 <= k < |results| ==> flags[k] == exists i: nat :: IsJoinedTo(pvs, arrayId, results[k], i)
  {
    seq(|results|, k requires 0 <= k < |results| => exists i: nat :: IsJoinedTo(pvs, arrayId, results[k], i))
  }

  ghost predicate IsJoinedRecord(pvs: seq<VolumeInfo>, arrayId: string, results: seq<VolumeResult>, k: int,
                                 p: PerfRecord)
  {
    0 <= k < |results|
    && exists i: nat :: IsJoinedTo(pvs, arrayId, results[k], i) && Joins(p, arrayId, results[k], pvs[i])
  }

  /** The join of an array's results: in their order, one record for each result that is joined to a
      volume, of both. */
  ghost predicate IsJoin(pvs: seq<VolumeInfo>, arrayId: string, results: seq<VolumeResult>, rs: seq<PerfRecord>) {
    IsSelection(rs, JoinedFlags(pvs, arrayId, results),
                (k: int, p: PerfRecord) => IsJoinedRecord(pvs, arrayId, results, k, p))
  }

  lemma JoinedMoreIs(pvs: seq<VolumeInfo>, arrayId: string, results: seq<VolumeResult>, k: nat)
    requires k < |results|
    ensures var more := JoinedMore(pvs, arrayId, results[k]);
            && |more| == (if JoinedFlags(pvs, arrayId, results)[k] then 1 else 0)
            && (more != [] ==> IsJoinedRecord(pvs, arrayId, results, k, more[0]))
  {
    var r := results[k];
    var target := JoinTarget(pvs, arrayId, r);
    LastWithKeyIsLast(pvs, VolumeKey(r.volumeId, arrayId));
    if target.Some? {
      assert IsJoinedTo(pvs, arrayId, r, target.value);
      assert Joins(JoinedRecord(arrayId, r, pvs[target.value]), arrayId, r, pvs[target.value]);
    } else if i: nat :| IsJoinedTo(pvs, arrayId, r, i) {
      SameLast(pvs, VolumeKey(r.volumeId, arrayId), i);
      assert false;
    }
  }

  lemma SameLast(pvs: seq<VolumeInfo>, key: string, i: nat)
    requires IsLastWithKey(pvs, key, Some(i))
    ensures LastWithKey(pvs, key) == Some(i)
  {
    LastWithKeyIsLast(pvs, key);
  }

  lemma {:induction false} JoinedRecordsFit(pvs: seq<VolumeInfo>, arrayId: string, results: seq<VolumeResult>,
                                            flags: seq<bool>, fits: (int, PerfRecord) -> bool)
    requires |flags| == |results|
    requires forall k :: 0 <= k < |results| ==> |JoinedMore(pvs, arrayId, results[k])| == if flags[k] then 1 else 0
    requires forall k :: 0 <= k < |results| && flags[k] ==> fits(k, JoinedMore(pvs, arrayId, results[k])[0])
    ensures IsSelection(JoinedRecords(pvs, arrayId, results), flags, fits)
  {
    if results != [] {
      var n := |results| - 1;
      JoinedRecordsFit(pvs, arrayId, results[..n], flags[..n], fits);
      SelectionSnoc(JoinedRecords(pvs, arrayId, results[..n]), flags[..n], fits, flags[n],
                    JoinedMore(pvs, arrayId, results[n]));
      assert flags == flags[..n] + [flags[n]];
    }
  }

  lemma JoinedRecordsAre(pvs: seq<VolumeInfo>, arrayId: string, results: seq<VolumeResult>)
    ensures IsJoin(pvs, arrayId, results, JoinedRecords(pvs, arrayId, results))
  {
    forall k | 0 <= k < |results|
      ensures var more := JoinedMore(pvs, arrayId, results[k]);
              && |more| == (if JoinedFlags(pvs, arrayId, results)[k] then 1 else 0)
              && (more != [] ==> IsJoinedRecord(pvs, arrayId, results, k, more[0]))
    {
      JoinedMoreIs(pvs, arrayId, results, k);
    }
    JoinedRecordsFit(pvs, arrayId, results, JoinedFlags(pvs, arrayId, results),
                     (k: int, p: PerfRecord) => IsJoinedRecord(pvs, arrayId, results, k, p));
  }

  /** Every record sent joins a result of the answer to the last volume whose handle names that
      volume on that array, and takes all its Kubernetes fields from it. */
  lemma {:induction false} RecordsJoinTheirVolume(pvs: seq<VolumeInfo>, arrayId: string, results: seq<VolumeResult>)
    requires EqualsFreeVolumeIds(pvs)
    requires forall r :: r in results ==> '=' !in r.volumeId
    ensures forall p :: p in JoinedRecords(pvs, arrayId, results) ==>
              exists r, i: nat ::
                r in results && LastNaming(pvs, Ids(arrayId, p.volumeId), i) && Joins(p, arrayId, r, pvs[i])
  {
    if results != [] {
      var n := |results| - 1;
      assert results == results[..n] + [results[n]];
      RecordsJoinTheirVolume(pvs, arrayId, results[..n]);
      KeyFindsTheNamedVolume(pvs, arrayId, results[n].volumeId);
      forall p | p in JoinedRecords(pvs, arrayId, results)
        ensures exists r, i: nat ::
                r in results && LastNaming(pvs, Ids(arrayId, p.volumeId), i) && Joins(p, arrayId, r, pvs[i])
      {
        if p in JoinedRecords(pvs, arrayId, results[..n]) {
          var r, i: nat :| r in results[..n] && LastNaming(pvs, Ids(arrayId, p.volumeId), i)
                          && Joins(p, arrayId, r, pvs[i]);
          assert r in results;
        } else {
          var target := JoinTarget(pvs, arrayId, results[n]);
          assert Joins(p, arrayId, results[n], pvs[target.value]);
          assert results[n] in results;
        }
      }
    }
  }

  lemma SingleJoin(pvs: seq<VolumeInfo>, arrayId: string, r: VolumeResult, i: nat)
    requires JoinTarget(pvs, arrayId, r) == Some(i) && i < |pvs|
    ensures JoinedRecords(pvs, arrayId, [r]) == [JoinedRecord(arrayId, r, pvs[i])]
  {
    assert [r][..0] == [];
  }

  /** With an `=` in an ID: array "b=c" is asked because of volume "x", and its result for its
      volume "a", which no handle names, is joined to volume "a=b" of array "c". */
  lemma EqualsSignPicksAnotherVolume(v: VolumeInfo, x: VolumeInfo, r: VolumeResult)
    requires v.volumeHandle == "c-a=b" && x.volumeHandle == "b=c-x"
    requires r.volumeId == "a" && r.storageGroups == v.storageGroup && |r.samples| >= 1
    ensures ParseHandle(v.volumeHandle) == Some(Ids("c", "a=b"))
    ensures ParseHandle(x.volumeHandle) == Some(Ids("b=c", "x"))
    ensures JoinedRecords([v, x], "b=c", [r]) == [JoinedRecord("b=c", r, v)]
  {
    assert "c" + "-" + "a=b" == "c-a=b" && "b=c" + "-" + "x" == "b=c-x";
    ParsePlain("c", "a=b");
    ParsePlain("b=c", "x");
    assert VolumeKey("a=b", "c") == "a=b=c" && VolumeKey("a", "b=c") == "a=b=c" && VolumeKey("x", "b=c") == "x=b=c";
    assert "x=b=c"[0] != "a=b=c"[0];
    assert [v, x][..1] == [v] && [v][..0] == [];
    assert LastWithKey([v], "a=b=c") == Some(0);
    assert LastWithKey([v, x], "a=b=c") == Some(0);
    ContainsItself(v.storageGroup);
    SingleJoin([v, x], "b=c", r, 0);
  }

  lemma OneVolumeFound(v: VolumeInfo, arrayId: string, volumeId: string)
    requires Names(v, arrayId, volumeId)
    ensures LastWithKey([v], VolumeKey(volumeId, arrayId)) == Some(0)
  {
    assert [v][..0] == [];
  }

  lemma Sg10ContainsSg1()
    ensures Contains("sg10", "sg1") && "sg1" !in ListedGroups("sg10")
  {
    assert "sg10"[0..] == "sg10";
    assert IsPrefix("sg1", "sg10"[0..]);
    SplitPlain("sg10", ',');
    assert |"sg1"| != |"sg10"|;
  }

  /** A volume in group "sg1" is joined to a result that lists only group "sg10". */
  lemma SubstringJoinsAnotherGroup(v: VolumeInfo, r: VolumeResult)
    requires v.volumeHandle == "a-v" && v.storageGroup == "sg1"
    requires r.volumeId == "v" && r.storageGroups == "sg10" && |r.samples| >= 1
    ensures JoinedRecords([v], "a", [r]) == [JoinedRecord("a", r, v)]
    ensures v.storageGroup !in ListedGroups(r.storageGroups)
  {
    assert "a" + "-" + "v" == "a-v";
    ParsePlain("a", "v");
    OneVolumeFound(v, "a", "v");
    Sg10ContainsSg1();
    SingleJoin([v], "a", r, 0);
  }
}
