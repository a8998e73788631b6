/** The push side of the capacity collector: folding the record stream into five group-by maps,
    and the percentage published for each entry. */
module CapacityTotals {
  import opened Collections
  import opened MetricTypes
  import opened VolumeHandles

  datatype Grouping = ByArray | ByStorageClass | ByVolume | ByStorageGroup | BySrp

  type Key = CapacityRecord -> string

  /** The key of a record in one of the five maps. */
  function KeyOf(g: Grouping): Key {
    match g
    case ByArray => (r: CapacityRecord) => r.arrayId
    case ByStorageClass => (r: CapacityRecord) => r.storageClass
    case ByVolume => (r: CapacityRecord) => DashKey(r.arrayId, r.volumeId)
    case ByStorageGroup => (r: CapacityRecord) => DashKey(r.arrayId, r.storageGroupId)
    case BySrp => (r: CapacityRecord) => DashKey(r.arrayId, r.srpId)
  }

  type Table = map<string, CapacityRecord>

  function Cumulated(table: Table, key: string, r: CapacityRecord): Table {
    if key !in table then table[key := r]
    else table[key := table[key].(total := table[key].total + r.total, used := table[key].used + r.used)]
  }

  function Folded(k: Key, rs: seq<CapacityRecord>): Table {
    if rs == [] then map[]
    else
      var n := |rs| - 1;
      Cumulated(Folded(k, rs[..n]), k(rs[n]), rs[n])
  }

  /** One of the group-by maps, which the fold updates in place. */
  class GroupTable {
    var entries: Table

    constructor ()
      ensures entries == map[]
    {
      entries := map[];
    }

    method Cumulate(key: string, metric: CapacityRecord)
      modifies this
      ensures entries == Cumulated(old(entries), key, metric)
    {
      if key !in entries {
        entries := entries[key := metric];
      } else {
        var volMetrics := entries[key];
        volMetrics := volMetrics.(total := volMetrics.total + metric.total);
        volMetrics := volMetrics.(used := volMetrics.used + metric.used);
        entries := entries[key := volMetrics];
      }
    }
  }

  /** The loop body's statement for one of the maps. */
  method CumulateBy(g: Grouping, table: GroupTable, metric: CapacityRecord)
    modifies table
    ensures table.entries == Cumulated(old(table.entries), KeyOf(g)(metric), metric)
  {
    var key := match g
      case ByArray => metric.arrayId
      case ByStorageClass => metric.storageClass
      case ByVolume => DashKey(metric.arrayId, metric.volumeId)
      case ByStorageGroup => DashKey(metric.arrayId, metric.storageGroupId)
      case BySrp => DashKey(metric.arrayId, metric.srpId);
    table.Cumulate(key, metric);
  }

  method FoldStream(stream: seq<CapacityRecord>)
      returns (arrays: GroupTable, classes: GroupTable, volumes: GroupTable, groups: GroupTable, srps: GroupTable)
    ensures arrays.entries == Folded(KeyOf(ByArray), stream)
    ensures classes.entries == Folded(KeyOf(ByStorageClass), stream)
    ensures volumes.entries == Folded(KeyOf(ByVolume), stream)
    ensures groups.entries == Folded(KeyOf(ByStorageGroup), stream)
    ensures srps.entries == Folded(KeyOf(BySrp), stream)
  {
    arrays := new GroupTable();
    classes := new GroupTable();
    groups := new GroupTable();
    srps := new GroupTable();
    volumes := new GroupTable();
    for n := 0 to |stream|
      invariant arrays.entries == Folded(KeyOf(ByArray), stream[..n])
      invariant classes.entries == Folded(KeyOf(ByStorageClass), stream[..n])
      invariant volumes.entries == Folded(KeyOf(ByVolume), stream[..n])
      invariant groups.entries == Folded(KeyOf(ByStorageGroup), stream[..n])
      invariant srps.entries == Folded(KeyOf(BySrp), stream[..n])
      invariant fresh(arrays) && fresh(classes) && fresh(volumes) && fresh(groups) && fresh(srps)
    {
      var metric := stream[n];
      assert stream[..n + 1][..n] == stream[..n];
      CumulateBy(ByArray, arrays, metric);
      CumulateBy(ByStorageClass, classes, metric);
      CumulateBy(ByVolume, volumes, metric);
      CumulateBy(ByStorageGroup, groups, metric);
      CumulateBy(BySrp, srps, metric);
    }
    assert stream[..|stream|] == stream;
  }

  // ---------------------------------------------------------------- what an entry holds

  /** The two readings that are summed. */
  datatype Reading = Total | Used

  function Read(q: Reading, r: CapacityRecord): real {
    match q
    case Total => r.total
    case Used => r.used
  }

  /** What a record contributes to the entry of a key. */
  function Share(q: Reading, k: Key, key: string): CapacityRecord -> real {
    (r: CapacityRecord) => if k(r) == key then Read(q, r) else 0.0
  }

  function EntryOf(q: Reading, t: Table): string -> real {
    (key: string) => if key in t then Read(q, t[key]) else 0.0
  }

  ghost predicate Seen(k: Key, rs: seq<CapacityRecord>, key: string) {
    exists r :: r in rs && k(r) == key
  }

  function Labels(r: CapacityRecord): CapacityRecord {
    r.(total := 0.0, used := 0.0)
  }

  /** Each map has exactly the keys seen; an entry holds the sum of Total and of Used over the
      records with its key, and carries the labels of one of them. */
  lemma {:induction false} FoldedEntry(q: Reading, k: Key, rs: seq<CapacityRecord>, key: string)
    ensures key in Folded(k, rs) <==> Seen(k, rs, key)
    ensures EntryOf(q, Folded(k, rs))(key) == Sum(Share(q, k, key), rs)
    ensures key in Folded(k, rs) ==>
              exists r :: r in rs && k(r) == key && Labels(r) == Labels(Folded(k, rs)[key])
  {
    if rs != [] {
      var n := |rs| - 1;
      FoldedEntry(q, k, rs[..n], key);
      assert rs == rs[..n] + [rs[n]];
    }
  }

  predicate IsFirstOf(k: Key, rs: seq<CapacityRecord>, key: string, i: int) {
    0 <= i < |rs| && k(rs[i]) == key && forall j :: 0 <= j < i ==> k(rs[j]) != key
  }

  /** The labels of an entry are those of the record with its key that arrived first. */
  lemma {:induction false} LabelsAreTheFirst(k: Key, rs: seq<CapacityRecord>, key: string)
    requires key in Folded(k, rs)
    ensures exists i :: IsFirstOf(k, rs, key, i) && Labels(rs[i]) == Labels(Folded(k, rs)[key])
  {
    var n := |rs| - 1;
    if key in Folded(k, rs[..n]) {
      LabelsAreTheFirst(k, rs[..n], key);
      var i :| IsFirstOf(k, rs[..n], key, i) && Labels(rs[..n][i]) == Labels(Folded(k, rs[..n])[key]);
      assert IsFirstOf(k, rs, key, i);
    } else {
      forall j | 0 <= j < n
        ensures k(rs[j]) != key
      {
        FoldedEntry(Total, k, rs[..n], key);
        assert rs[..n][j] in rs[..n];
      }
      assert IsFirstOf(k, rs, key, n);
    }
  }

  /** The five maps depend only on the multiset of records, not on the order of arrival. */
  lemma FoldIsOrderIndependent(q: Reading, k: Key, rs: seq<CapacityRecord>, rs': seq<CapacityRecord>)
    requires multiset(rs) == multiset(rs')
    ensures Folded(k, rs).Keys == Folded(k, rs').Keys
    ensures forall key :: EntryOf(q, Folded(k, rs))(key) == EntryOf(q, Folded(k, rs'))(key)
  {
    assert forall r :: r in rs <==> r in multiset(rs);
    assert forall r :: r in rs' <==> r in multiset(rs');
    forall key
      ensures key in Folded(k, rs) <==> key in Folded(k, rs')
      ensures EntryOf(q, Folded(k, rs))(key) == EntryOf(q, Folded(k, rs'))(key)
    {
      FoldedEntry(q, k, rs, key);
      FoldedEntry(q, k, rs', key);
      SumPermutation(Share(q, k, key), rs, rs');
    }
  }

  // ---------------------------------------------------------------- sums over a map

  /** Folding in a record adds its reading to the sum over some keys exactly when its key is one
      of them afterwards. */
  lemma CumulatedSum(q: Reading, t: Table, key: string, r: CapacityRecord, keys: set<string>, keys': set<string>)
    requires keys <= t.Keys && keys' <= Cumulated(t, key, r).Keys
    requires keys - {key} == keys' - {key} && (key in keys <==> key in keys' && key in t)
    ensures SumOver(keys', EntryOf(q, Cumulated(t, key, r)))
         == SumOver(keys, EntryOf(q, t)) + (if key in keys' then Read(q, r) else 0.0)
  {
    var t' := Cumulated(t, key, r);
    SumOverCongruent(keys - {key}, EntryOf(q, t), EntryOf(q, t'));
    if key in keys' {
      SumOverRemove(keys', EntryOf(q, t'), key);
    } else {
      assert keys' - {key} == keys';
    }
    if key in keys {
      SumOverRemove(keys, EntryOf(q, t), key);
    } else {
      assert keys - {key} == keys;
    }
  }

  /** All five maps sum to the same grand totals: those of the record stream. */
  lemma {:induction false} GrandTotals(q: Reading, k: Key, rs: seq<CapacityRecord>)
    ensures SumOver(Folded(k, rs).Keys, EntryOf(q, Folded(k, rs))) == Sum((r: CapacityRecord) => Read(q, r), rs)
  {
    if rs != [] {
      var n := |rs| - 1;
      GrandTotals(q, k, rs[..n]);
      var t, key := Folded(k, rs[..n]), k(rs[n]);
      CumulatedSum(q, t, key, rs[n], t.Keys, Cumulated(t, key, rs[n]).Keys);
    }
  }

  // ---------------------------------------------------------------- the hierarchy under an array

  /** Records whose array ID holds no dash, as every parsed handle gives. */
  predicate DashFree(rs: seq<CapacityRecord>) {
    forall r :: r in rs ==> '-' !in r.arrayId
  }

  /** Records with one key are of one array. */
  ghost predicate DeterminesArray(k: Key, rs: seq<CapacityRecord>) {
    forall r, r' :: r in rs && r' in rs && k(r) == k(r') ==> r.arrayId == r'.arrayId
  }

  /** With dash-free array IDs, the volume, storage group and SRP keys determine the array. */
  lemma KeysDetermineArray(g: Grouping, rs: seq<CapacityRecord>)
    requires DashFree(rs) && !g.ByStorageClass?
    ensures DeterminesArray(KeyOf(g), rs)
  {
    forall r, r' | r in rs && r' in rs && KeyOf(g)(r) == KeyOf(g)(r')
      ensures r.arrayId == r'.arrayId
    {
      match g
      case ByVolume => DashKeyInjective(r.arrayId, r.volumeId, r'.arrayId, r'.volumeId);
      case ByStorageGroup => DashKeyInjective(r.arrayId, r.storageGroupId, r'.arrayId, r'.storageGroupId);
      case BySrp => DashKeyInjective(r.arrayId, r.srpId, r'.arrayId, r'.srpId);
      case ByArray =>
    }
  }

  function EntriesOf(t: Table, arrayId: string): set<string> {
    set key | key in t && t[key].arrayId == arrayId
  }

  /** A map whose keys determine the array splits each array's Total and Used into parts. */
  lemma {:induction false} PartsAddUp(q: Reading, k: Key, rs: seq<CapacityRecord>, arrayId: string)
    requires DeterminesArray(k, rs)
    ensures SumOver(EntriesOf(Folded(k, rs), arrayId), EntryOf(q, Folded(k, rs)))
         == EntryOf(q, Folded(KeyOf(ByArray), rs))(arrayId)
  {
    if rs != [] {
      var front, r := rs[..|rs| - 1], rs[|rs| - 1];
      assert rs == front + [r];
      PartsAddUp(q, k, front, arrayId);
      var t, key := Folded(k, front), k(r);
      FoldedEntry(q, k, front, key);
      PartsStep(q, t, Folded(KeyOf(ByArray), front), key, r, arrayId);
      assert KeyOf(ByArray)(r) == r.arrayId;
    }
  }

  lemma PartsStep(q: Reading, parts: Table, whole: Table, key: string, r: CapacityRecord, arrayId: string)
    requires SumOver(EntriesOf(parts, arrayId), EntryOf(q, parts)) == EntryOf(q, whole)(arrayId)
    requires key in parts ==> parts[key].arrayId == r.arrayId
    ensures var parts', whole' := Cumulated(parts, key, r), Cumulated(whole, r.arrayId, r);
            SumOver(EntriesOf(parts', arrayId), EntryOf(q, parts')) == EntryOf(q, whole')(arrayId)
  {
    CumulatedSum(q, parts, key, r, EntriesOf(parts, arrayId), EntriesOf(Cumulated(parts, key, r), arrayId));
  }

  /** Each array's Total and Used are the sums over its volume entries, over its storage group
      entries and over its SRP entries. */
  lemma ArrayIsSumOfParts(q: Reading, g: Grouping, rs: seq<CapacityRecord>, arrayId: string)
    requires DashFree(rs) && !g.ByStorageClass?
    ensures var parts, whole := Folded(KeyOf(g), rs), Folded(KeyOf(ByArray), rs);
            SumOver(EntriesOf(parts, arrayId), EntryOf(q, parts)) == EntryOf(q, whole)(arrayId)
  {
    KeysDetermineArray(g, rs);
    PartsAddUp(q, KeyOf(g), rs, arrayId);
  }

  /** Where array IDs may hold a dash the sums part: two arrays' storage groups share one key. */
  lemma DashBreaksTheSum()
    ensures var r := EMPTY_CAPACITY_RECORD.(arrayId := "a-b", storageGroupId := "c", total := 1.0);
            var r' := EMPTY_CAPACITY_RECORD.(arrayId := "a", storageGroupId := "b-c", total := 1.0);
            var parts, whole := Folded(KeyOf(ByStorageGroup), [r, r']), Folded(KeyOf(ByArray), [r, r']);
            SumOver(EntriesOf(parts, "a"), EntryOf(Total, parts)) == 0.0 && EntryOf(Total, whole)("a") == 1.0
  {
    var r := EMPTY_CAPACITY_RECORD.(arrayId := "a-b", storageGroupId := "c", total := 1.0);
    var r' := EMPTY_CAPACITY_RECORD.(arrayId := "a", storageGroupId := "b-c", total := 1.0);
    var rs := [r, r'];
    assert rs[..1] == [r] && rs[..1][..0] == [];
    var k, key := KeyOf(ByStorageGroup), "a-b-c";
    assert k(r) == key && k(r') == key by {
      assert DashKey("a-b", "c") == key;
      assert DashKey("a", "b-c") == key;
    }
    assert Folded(k, rs[..1]) == map[key := r];
    assert Folded(k, rs) == map[key := r.(total := 2.0)];
    assert |"a-b"| != |"a"|;
    assert EntriesOf(Folded(k, rs), "a") == {};
    assert Folded(KeyOf(ByArray), rs[..1]) == map["a-b" := r];
    assert Folded(KeyOf(ByArray), rs) == map["a-b" := r, "a" := r'];
  }

  // ---------------------------------------------------------------- what is grouped together

  /** Two records agree on what a grouping is by. */
  predicate SameGroup(g: Grouping, r: CapacityRecord, r': CapacityRecord) {
    match g
    case ByArray => r.arrayId == r'.arrayId
    case ByStorageClass => r.storageClass == r'.storageClass
    case ByVolume => r.arrayId == r'.arrayId && r.volumeId == r'.volumeId
    case ByStorageGroup => r.arrayId == r'.arrayId && r.storageGroupId == r'.storageGroupId
    case BySrp => r.arrayId == r'.arrayId && r.srpId == r'.srpId
  }

  /** With dash-free array IDs two records share an entry exactly if they are of one array, storage
      class, volume on an array, storage group on an array, or SRP on an array. */
  lemma SharesEntryIff(g: Grouping, r: CapacityRecord, r': CapacityRecord)
    requires '-' !in r.arrayId && '-' !in r'.arrayId
    ensures KeyOf(g)(r) == KeyOf(g)(r') <==> SameGroup(g, r, r')
  {
    match g
    case ByVolume => DashKeyInjective(r.arrayId, r.volumeId, r'.arrayId, r'.volumeId);
    case ByStorageGroup => DashKeyInjective(r.arrayId, r.storageGroupId, r'.arrayId, r'.storageGroupId);
    case BySrp => DashKeyInjective(r.arrayId, r.srpId, r'.arrayId, r'.srpId);
    case _ =>
  }

  function GroupShare(q: Reading, g: Grouping, r: CapacityRecord): CapacityRecord -> real {
    (r': CapacityRecord) => if SameGroup(g, r, r') then Read(q, r') else 0.0
  }

  /** So the entry of a record holds the sums over the records of its group: an SRP's entry those of
      the records with its array and SRP, and so on. */
  lemma EntryIsSumOfGroup(q: Reading, g: Grouping, rs: seq<CapacityRecord>, r: CapacityRecord)
    requires DashFree(rs) && r in rs
    ensures KeyOf(g)(r) in Folded(KeyOf(g), rs)
    ensures Read(q, Folded(KeyOf(g), rs)[KeyOf(g)(r)]) == Sum(GroupShare(q, g, r), rs)
  {
    var k := KeyOf(g);
    FoldedEntry(q, k, rs, k(r));
    forall i | 0 <= i < |rs|
      ensures Share(q, k, k(r))(rs[i]) == GroupShare(q, g, r)(rs[i])
    {
      SharesEntryIff(g, r, rs[i]);
    }
    SumMonotone(Share(q, k, k(r)), GroupShare(q, g, r), rs);
    SumMonotone(GroupShare(q, g, r), Share(q, k, k(r)), rs);
  }

  // ---------------------------------------------------------------- the published percentage

  /** Used*100/Total; None when Total is zero, where Go publishes NaN or an infinity. */
  function PublishedPercent(r: CapacityRecord): Option<real> {
    if r.total == 0.0 then None else Some(r.used * 100.0 / r.total)
  }

  /** A member's own percentage weighted by its capacity. */
  function WeightedPercent(k: Key, key: string): CapacityRecord -> real {
    (r: CapacityRecord) =>
      if k(r) == key && r.total != 0.0 then r.total * PublishedPercent(r).value else 0.0
  }

  ghost predicate PositiveCapacities(k: Key, rs: seq<CapacityRecord>, key: string) {
    forall r :: r in rs && k(r) == key ==> r.total > 0.0
  }

  /** Every member's own percentage is at least lo and at most hi. */
  ghost predicate MembersWithin(k: Key, rs: seq<CapacityRecord>, key: string, lo: real, hi: real) {
    forall r :: r in rs && k(r) == key ==>
      PublishedPercent(r).Some? && lo <= PublishedPercent(r).value <= hi
  }

  lemma ProductOrder(x: real, y: real, k: real)
    requires x < y && k > 0.0
    ensures x * k < y * k
  {
    assert (y - x) * k > 0.0;
  }

  lemma QuotientScaled(x: real, k: real, lo: real, hi: real)
    requires k > 0.0
    ensures lo <= x / k <= hi <==> lo * k <= x <= hi * k
    ensures k * (x / k) == x
  {
    var p := x / k;
    assert p * k == x;
    if p < lo { ProductOrder(p, lo, k); }
    if lo < p { ProductOrder(lo, p, k); }
    if p > hi { ProductOrder(hi, p, k); }
    if hi > p { ProductOrder(p, hi, k); }
  }

  lemma PercentOfEntry(r: CapacityRecord, lo: real, hi: real)
    requires r.total > 0.0
    ensures var p := PublishedPercent(r);
            && p.Some? && r.total * p.value == 100.0 * r.used
            && (lo <= p.value <= hi <==> lo * r.total <= 100.0 * r.used <= hi * r.total)
  {
    QuotientScaled(r.used * 100.0, r.total, lo, hi);
  }

  lemma {:induction false} PositiveSum(k: Key, rs: seq<CapacityRecord>, key: string)
    requires PositiveCapacities(k, rs, key)
    ensures Sum(Share(Total, k, key), rs) >= 0.0
    ensures Seen(k, rs, key) ==> Sum(Share(Total, k, key), rs) > 0.0
  {
    if rs != [] {
      var n := |rs| - 1;
      PositiveSum(k, rs[..n], key);
      assert rs == rs[..n] + [rs[n]];
    }
  }

  /** The weighted percentages of the members add up to a hundred times their used capacity. */
  lemma {:induction false} WeightedSum(k: Key, rs: seq<CapacityRecord>, key: string, used: real)
    requires PositiveCapacities(k, rs, key) && used == Sum(Share(Used, k, key), rs)
    ensures Sum(WeightedPercent(k, key), rs) == 100.0 * used
  {
    if rs != [] {
      var n := |rs| - 1;
      WeightedSum(k, rs[..n], key, used - Share(Used, k, key)(rs[n]));
      if k(rs[n]) == key {
        PercentOfEntry(rs[n], 0.0, 0.0);
      }
    }
  }

  lemma SumsWithin(k: Key, rs: seq<CapacityRecord>, key: string, lo: real, hi: real, total: real, used: real)
    requires PositiveCapacities(k, rs, key) && MembersWithin(k, rs, key, lo, hi)
    requires total == Sum(Share(Total, k, key), rs) && used == Sum(Share(Used, k, key), rs)
    ensures lo * total <= 100.0 * used <= hi * total
  {
    var totals, useds := Share(Total, k, key), Share(Used, k, key);
    forall i | 0 <= i < |rs|
      ensures Scaled(lo, totals)(rs[i]) <= Scaled(100.0, useds)(rs[i]) <= Scaled(hi, totals)(rs[i])
    {
      MemberScaled(k, rs[i], key, lo, hi);
    }
    ScaledSums(lo, totals, total, 100.0, useds, used, rs);
    ScaledSums(100.0, useds, used, hi, totals, total, rs);
  }

  lemma ScaledSums(c: real, w: CapacityRecord -> real, sum: real,
                   c': real, w': CapacityRecord -> real, sum': real, rs: seq<CapacityRecord>)
    requires forall i :: 0 <= i < |rs| ==> Scaled(c, w)(rs[i]) <= Scaled(c', w')(rs[i])
    requires sum == Sum(w, rs) && sum' == Sum(w', rs)
    ensures c * sum <= c' * sum'
  {
    SumMonotone(Scaled(c, w), Scaled(c', w'), rs);
    SumScaled(c, w, rs, sum);
    SumScaled(c', w', rs, sum');
  }

  lemma MemberScaled(k: Key, r: CapacityRecord, key: string, lo: real, hi: real)
    requires k(r) == key ==> r.total > 0.0 && lo <= PublishedPercent(r).value <= hi
    ensures var totals, useds := Share(Total, k, key), Share(Used, k, key);
            Scaled(lo, totals)(r) <= Scaled(100.0, useds)(r) <= Scaled(hi, totals)(r)
  {
    MemberWithin(k, r, key, lo, hi);
  }

  lemma MemberWithin(k: Key, r: CapacityRecord, key: string, lo: real, hi: real)
    requires k(r) == key ==> r.total > 0.0 && lo <= PublishedPercent(r).value <= hi
    ensures lo * Share(Total, k, key)(r) <= 100.0 * Share(Used, k, key)(r) <= hi * Share(Total, k, key)(r)
  {
    if k(r) == key {
      PercentOfEntry(r, lo, hi);
    }
  }

  lemma EntryReads(k: Key, rs: seq<CapacityRecord>, key: string)
    requires key in Folded(k, rs)
    ensures Folded(k, rs)[key].total == Sum(Share(Total, k, key), rs)
    ensures Folded(k, rs)[key].used == Sum(Share(Used, k, key), rs)
    ensures PositiveCapacities(k, rs, key) ==> Folded(k, rs)[key].total > 0.0
  {
    FoldedEntry(Total, k, rs, key);
    FoldedEntry(Used, k, rs, key);
    if PositiveCapacities(k, rs, key) {
      PositiveSum(k, rs, key);
    }
  }

  lemma QuotientOfSums(k: Key, rs: seq<CapacityRecord>, key: string, lo: real, hi: real, total: real, used: real)
    requires PositiveCapacities(k, rs, key) && MembersWithin(k, rs, key, lo, hi) && total > 0.0
    requires total == Sum(Share(Total, k, key), rs) && used == Sum(Share(Used, k, key), rs)
    ensures lo <= used * 100.0 / total <= hi
  {
    SumsWithin(k, rs, key, lo, hi, total, used);
    QuotientScaled(used * 100.0, total, lo, hi);
  }

  lemma QuotientIsMean(k: Key, rs: seq<CapacityRecord>, key: string, total: real, used: real)
    requires PositiveCapacities(k, rs, key) && total > 0.0
    requires used == Sum(Share(Used, k, key), rs)
    ensures used * 100.0 / total == Sum(WeightedPercent(k, key), rs) / total
  {
    WeightedSum(k, rs, key, used);
  }

  /** The percentage of a group with positive capacities is the capacity-weighted mean of its
      members' percentages: their sum, each weighted by its capacity, over their total capacity. */
  lemma GroupPercentIsWeightedMean(k: Key, rs: seq<CapacityRecord>, key: string)
    requires key in Folded(k, rs) && PositiveCapacities(k, rs, key)
    ensures var e := Folded(k, rs)[key];
            && PublishedPercent(e).Some?
            && e.total == Sum(Share(Total, k, key), rs) > 0.0
            && PublishedPercent(e).value == Sum(WeightedPercent(k, key), rs) / e.total
  {
    EntryReads(k, rs, key);
    QuotientIsMean(k, rs, key, Folded(k, rs)[key].total, Folded(k, rs)[key].used);
  }

  /** It lies within any bounds that hold for every member: so between their minimum and maximum. */
  lemma GroupPercentWithinMembers(k: Key, rs: seq<CapacityRecord>, key: string, lo: real, hi: real)
    requires key in Folded(k, rs) && PositiveCapacities(k, rs, key) && MembersWithin(k, rs, key, lo, hi)
    ensures var p := PublishedPercent(Folded(k, rs)[key]); p.Some? && lo <= p.value <= hi
  {
    EntryReads(k, rs, key);
    QuotientOfSums(k, rs, key, lo, hi, Folded(k, rs)[key].total, Folded(k, rs)[key].used);
  }

  lemma PercentInRange(r: CapacityRecord)
    requires r.total > 0.0 && 0.0 <= r.used <= r.total
    ensures PublishedPercent(r).Some? && 0.0 <= PublishedPercent(r).value <= 100.0
  {
    PercentOfEntry(r, 0.0, 100.0);
  }

  /** Members that use between nothing and everything they have keep the group within 0 and 100. */
  lemma GroupPercentInRange(k: Key, rs: seq<CapacityRecord>, key: string)
    requires key in Folded(k, rs) && PositiveCapacities(k, rs, key)
    requires forall r :: r in rs && k(r) == key ==> 0.0 <= r.used <= r.total
    ensures var p := PublishedPercent(Folded(k, rs)[key]); p.Some? && 0.0 <= p.value <= 100.0
  {
    forall r | r in rs && k(r) == key
      ensures PublishedPercent(r).Some? && 0.0 <= PublishedPercent(r).value <= 100.0
    {
      PercentInRange(r);
    }
    GroupPercentWithinMembers(k, rs, key, 0.0, 100.0);
  }
}
