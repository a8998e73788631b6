/** The connection table: building it from the proxy configuration, keeping the connections that
    authenticate, and choosing one of an array. */
module Connections {
  import opened Collections

  /** The REST client of a connection. Every load of the table makes new ones: a client is known by
      the number of loads before its own, and by its connection's place in the configuration. */
  datatype Client = NoClient | Client(load: nat, arrayId: string, position: nat)

  datatype PowerMaxArray = PowerMaxArray(
    storageArrayId: string, endpoint: string, username: string, password: string,
    insecure: bool, isPrimary: bool, isActive: bool, client: Client)

  /** A configured server; the ConfigMap keeps credentials in a record, the Secret in two fields. */
  datatype ManagementServer = ManagementServer(
    endpoint: string, credentialsUser: string, credentialsPassword: string,
    username: string, password: string, skipCertificateValidation: bool)

  datatype StorageArray = StorageArray(
    identifier: string, primaryEndpoint: string, secondaryHost: string, secondaryEndpoint: string)

  /** The entries and servers, read from the ConfigMap or from the Secret. */
  datatype ProxyConfig = ProxyConfig(arrays: seq<StorageArray>, servers: seq<ManagementServer>, fromSecret: bool)

  // ---------------------------------------------------------------- building the table

  method GetManagementServer(url: string, servers: seq<ManagementServer>) returns (server: Option<ManagementServer>)
    ensures server == FirstServer(url, servers)
  {
    for n := 0 to |servers|
      invariant FirstServer(url, servers) == FirstServer(url, servers[n..])
    {
      if url == servers[n].endpoint {
        return Some(servers[n]);
      }
    }
    return None;
  }

  function FirstServer(url: string, servers: seq<ManagementServer>): Option<ManagementServer> {
    if servers == [] then None
    else if servers[0].endpoint == url then Some(servers[0])
    else FirstServer(url, servers[1..])
  }

  function Connection(id: string, endpoint: string, isPrimary: bool, config: ProxyConfig): PowerMaxArray {
    var c := PowerMaxArray(id, endpoint, "", "", false, isPrimary, false, NoClient);
    match FirstServer(endpoint, config.servers)
    case None => c
    case Some(s) =>
      c.(insecure := s.skipCertificateValidation,
         username := if config.fromSecret then s.username else s.credentialsUser,
         password := if config.fromSecret then s.password else s.credentialsPassword)
  }

  /** The connections of one configuration entry: the primary, then the backup if it has a host. */
  function ConnectionsOf(sa: StorageArray, config: ProxyConfig): seq<PowerMaxArray> {
    [Connection(sa.identifier, sa.primaryEndpoint, true, config)]
    + if sa.secondaryHost != "" then [Connection(sa.identifier, sa.secondaryEndpoint, false, config)] else []
  }

  /** An array's connections, over all of these entries with its identifier, in their order. */
  function RowOf(id: string, sas: seq<StorageArray>, config: ProxyConfig): seq<PowerMaxArray> {
    if sas == [] then []
    else
      var n := |sas| - 1;
      RowOf(id, sas[..n], config) + if sas[n].identifier == id then ConnectionsOf(sas[n], config) else []
  }

  function Configured(id: string, config: ProxyConfig): seq<PowerMaxArray> { RowOf(id, config.arrays, config) }

  method BuildConnection(id: string, endpoint: string, isPrimary: bool, config: ProxyConfig)
      returns (c: PowerMaxArray)
    ensures c == Connection(id, endpoint, isPrimary, config)
  {
    c := PowerMaxArray(id, endpoint, "", "", false, isPrimary, false, NoClient);
    var server := GetManagementServer(endpoint, config.servers);
    if server.Some? {
      c := c.(insecure := server.value.skipCertificateValidation);
      c := c.(username := if config.fromSecret then server.value.username else server.value.credentialsUser);
      c := c.(password := if config.fromSecret then server.value.password else server.value.credentialsPassword);
    }
  }

  /** getPowerMaxArrays, and when reading from the Secret getPowerMaxArraysFromSecret. */
  method BuildTable(config: ProxyConfig) returns (arrayMap: map<string, seq<PowerMaxArray>>)
    ensures forall id :: id in arrayMap <==> Configured(id, config) != []
    ensures forall id :: id in arrayMap ==> arrayMap[id] == Configured(id, config)
  {
    arrayMap := map[];
    var sas := config.arrays;
    for n := 0 to |sas|
      invariant forall id :: id in arrayMap <==> RowOf(id, sas[..n], config) != []
      invariant forall id :: id in arrayMap ==> arrayMap[id] == RowOf(id, sas[..n], config)
    {
      assert sas[..n + 1][..n] == sas[..n];
      var sa := sas[n];
      var arrayList := [];
      if sa.identifier in arrayMap {
        arrayList := arrayMap[sa.identifier];
      }
      var primary := BuildConnection(sa.identifier, sa.primaryEndpoint, true, config);
      var added := [primary];
      if sa.secondaryHost != "" {
        var backup := BuildConnection(sa.identifier, sa.secondaryEndpoint, false, config);
        added := added + [backup];
      }
      assert added == ConnectionsOf(sa, config);
      arrayMap := arrayMap[sa.identifier := arrayList + added];
    }
    assert sas[..|sas|] == sas;
  }

  // ---------------------------------------------------------------- the configured order

  /** Where a connection is configured: an entry, and whether it is the entry's backup. */
  datatype Slot = Slot(entry: nat, backup: bool)

  /** Entries in order, in each the primary before the backup. */
  predicate Before(x: Slot, y: Slot) {
    x.entry < y.entry || (x.entry == y.entry && !x.backup && y.backup)
  }

  predicate IsSlot(id: string, sas: seq<StorageArray>, slot: Slot) {
    slot.entry < |sas| && sas[slot.entry].identifier == id && (slot.backup ==> sas[slot.entry].secondaryHost != "")
  }

  function ConnectionAt(sas: seq<StorageArray>, config: ProxyConfig, slot: Slot): PowerMaxArray
    requires slot.entry < |sas|
  {
    var sa := sas[slot.entry];
    Connection(sa.identifier, if slot.backup then sa.secondaryEndpoint else sa.primaryEndpoint, !slot.backup, config)
  }

  predicate IsFirstServer(url: string, servers: seq<ManagementServer>, k: int) {
    0 <= k < |servers| && servers[k].endpoint == url && forall j :: 0 <= j < k ==> servers[j].endpoint != url
  }

  /** The credentials are those the configuration's source keeps: a record's, or the two fields'. */
  predicate CarriesServer(c: PowerMaxArray, s: ManagementServer, fromSecret: bool) {
    && c.insecure == s.skipCertificateValidation
    && (fromSecret ==> c.username == s.username && c.password == s.password)
    && (!fromSecret ==> c.username == s.credentialsUser && c.password == s.credentialsPassword)
  }

  /** A connection's fields, each by where it is configured: those of the entry, and those of the
      first server with its endpoint, or none. It is not active and has no client. */
  ghost predicate IsConnectionAt(c: PowerMaxArray, sas: seq<StorageArray>, config: ProxyConfig, slot: Slot) {
    && slot.entry < |sas|
    && c.storageArrayId == sas[slot.entry].identifier && c.isPrimary == !slot.backup
    && c.endpoint == (if slot.backup then sas[slot.entry].secondaryEndpoint else sas[slot.entry].primaryEndpoint)
    && !c.isActive && c.client == NoClient
    && (forall k :: IsFirstServer(c.endpoint, config.servers, k) ==>
          CarriesServer(c, config.servers[k], config.fromSecret))
    && ((forall k :: !IsFirstServer(c.endpoint, config.servers, k)) ==>
          !c.insecure && c.username == c.password == "")
  }

  lemma {:induction false} FirstServerIsFirst(url: string, servers: seq<ManagementServer>)
    ensures match FirstServer(url, servers)
            case None => forall k :: !IsFirstServer(url, servers, k)
            case Some(s) => exists k :: IsFirstServer(url, servers, k) && servers[k] == s
  {
    if servers != [] {
      FirstServerIsFirst(url, servers[1..]);
      if servers[0].endpoint == url {
        assert IsFirstServer(url, servers, 0);
      } else {
        forall k
          ensures IsFirstServer(url, servers, k) ==> IsFirstServer(url, servers[1..], k - 1)
        {
        }
        if FirstServer(url, servers).Some? {
          var k :| IsFirstServer(url, servers[1..], k) && servers[1..][k] == FirstServer(url, servers).value;
          assert IsFirstServer(url, servers, k + 1);
        }
      }
    }
  }

  lemma ConnectionAtIs(sas: seq<StorageArray>, config: ProxyConfig, slot: Slot)
    requires slot.entry < |sas|
    ensures IsConnectionAt(ConnectionAt(sas, config, slot), sas, config, slot)
  {
    var c := ConnectionAt(sas, config, slot);
    FirstServerIsFirst(c.endpoint, config.servers);
    forall k, k' | IsFirstServer(c.endpoint, config.servers, k) && IsFirstServer(c.endpoint, config.servers, k')
      ensures k == k'
    {
    }
  }

  function Slots(id: string, sas: seq<StorageArray>): seq<Slot> {
    if sas == [] then []
    else
      var n := |sas| - 1;
      Slots(id, sas[..n])
      + if sas[n].identifier != id then []
        else [Slot(n, false)] + if sas[n].secondaryHost != "" then [Slot(n, true)] else []
  }

  /** A row holds, for exactly the slots of its array and in their order, the connection there. */
  ghost predicate InSlotOrder(id: string, sas: seq<StorageArray>, config: ProxyConfig) {
    var slots, row := Slots(id, sas), RowOf(id, sas, config);
    && |slots| == |row|
    && (forall i :: 0 <= i < |row| ==> IsSlot(id, sas, slots[i]) && IsConnectionAt(row[i], sas, config, slots[i]))
    && (forall i, j :: 0 <= i < j < |row| ==> Before(slots[i], slots[j]))
    && (forall slot :: IsSlot(id, sas, slot) ==> slot in slots)
  }

  lemma RowsAreInSlotOrder(id: string, sas: seq<StorageArray>, config: ProxyConfig)
    ensures InSlotOrder(id, sas, config)
  {
    SlotsAreSorted(id, sas);
    RowMatchesSlots(id, sas, config);
    forall i | 0 <= i < |Slots(id, sas)|
      ensures IsConnectionAt(RowOf(id, sas, config)[i], sas, config, Slots(id, sas)[i])
    {
      ConnectionAtIs(sas, config, Slots(id, sas)[i]);
    }
    forall slot | IsSlot(id, sas, slot)
      ensures slot in Slots(id, sas)
    {
      EverySlotIsListed(id, sas, slot);
    }
  }

  lemma {:induction false} SlotsAreSorted(id: string, sas: seq<StorageArray>)
    ensures forall i :: 0 <= i < |Slots(id, sas)| ==> IsSlot(id, sas, Slots(id, sas)[i])
    ensures forall i, j :: 0 <= i < j < |Slots(id, sas)| ==> Before(Slots(id, sas)[i], Slots(id, sas)[j])
  {
    if sas != [] {
      var n := |sas| - 1;
      SlotsAreSorted(id, sas[..n]);
      var front := Slots(id, sas[..n]);
      assert forall i :: 0 <= i < |front| ==> IsSlot(id, sas[..n], front[i]) && front[i].entry < n;
    }
  }

  lemma {:induction false} RowMatchesSlots(id: string, sas: seq<StorageArray>, config: ProxyConfig)
    ensures |Slots(id, sas)| == |RowOf(id, sas, config)|
    ensures forall i :: 0 <= i < |Slots(id, sas)| ==>
              && Slots(id, sas)[i].entry < |sas|
              && RowOf(id, sas, config)[i] == ConnectionAt(sas, config, Slots(id, sas)[i])
  {
    if sas != [] {
      var n := |sas| - 1;
      RowMatchesSlots(id, sas[..n], config);
      var front := Slots(id, sas[..n]);
      assert forall i :: 0 <= i < |front| ==>
               ConnectionAt(sas, config, front[i]) == ConnectionAt(sas[..n], config, front[i]);
    }
  }

  lemma {:induction false} EverySlotIsListed(id: string, sas: seq<StorageArray>, slot: Slot)
    requires IsSlot(id, sas, slot)
    ensures slot in Slots(id, sas)
  {
    var n := |sas| - 1;
    if slot.entry < n {
      EverySlotIsListed(id, sas[..n], slot);
    } else {
      assert slot == Slot(n, slot.backup);
    }
  }

  // ---------------------------------------------------------------- keeping what authenticates

  /** For each array and configured position, whether a client could be made and authenticated. */
  type Dial = (string, nat) -> bool

  function Alive(load: nat, id: string, row: seq<PowerMaxArray>, dial: Dial): (alive: seq<PowerMaxArray>)
    ensures forall c :: c in alive ==> c.isActive && c.client.Client? && c.client.load == load
  {
    if row == [] then []
    else
      var n := |row| - 1;
      Alive(load, id, row[..n], dial)
      + if dial(id, n) then [row[n].(isActive := true, client := Client(load, id, n))] else []
  }

  /** The loop of GetPowerMaxArrays; the arrays come in any order. */
  method KeepAlive(load: nat, configured: map<string, seq<PowerMaxArray>>, dial: Dial)
      returns (arrayMap: map<string, seq<PowerMaxArray>>)
    ensures forall id :: id in arrayMap <==> id in configured && Alive(load, id, configured[id], dial) != []
    ensures forall id :: id in arrayMap ==> arrayMap[id] == Alive(load, id, configured[id], dial)
  {
    arrayMap := map[];
    var todo := configured.Keys;
    while todo != {}
      invariant todo <= configured.Keys
      invariant forall id :: id in arrayMap <==>
                  id in configured && id !in todo && Alive(load, id, configured[id], dial) != []
      invariant forall id :: id in arrayMap ==> arrayMap[id] == Alive(load, id, configured[id], dial)
      decreases |todo|
    {
      var id :| id in todo;
      var alive := KeepAliveRow(load, id, configured[id], dial);
      if alive != [] {
        arrayMap := arrayMap[id := alive];
      }
      todo := todo - {id};
    }
  }

  method KeepAliveRow(load: nat, id: string, row: seq<PowerMaxArray>, dial: Dial) returns (alive: seq<PowerMaxArray>)
    ensures alive == Alive(load, id, row, dial)
  {
    alive := [];
    for n := 0 to |row|
      invariant alive == Alive(load, id, row[..n], dial)
    {
      assert row[..n + 1][..n] == row[..n];
      if !dial(id, n) {
        continue;
      }
      alive := alive + [row[n].(isActive := true, client := Client(load, id, n))];
    }
    assert row[..|row|] == row;
  }

  /** An array's row after a load. */
  function LoadedRow(config: ProxyConfig, dial: Dial, load: nat, id: string): seq<PowerMaxArray> {
    Alive(load, id, Configured(id, config), dial)
  }

  function DialFlags(id: string, size: nat, dial: Dial): (flags: seq<bool>)
    ensures |flags| == size && forall i: nat :: i < size ==> flags[i] == dial(id, i)
  {
    seq(size, i requires 0 <= i < size => dial(id, i))
  }

  /** A connection that is kept: the configured one, now active and with the client made for it. */
  predicate IsKept(c: PowerMaxArray, row: seq<PowerMaxArray>, load: nat, id: string, i: int) {
    && 0 <= i < |row| && c.isActive && c.client == Client(load, id, i)
    && c.(isActive := row[i].isActive, client := row[i].client) == row[i]
  }

  lemma {:induction false} AlivePrefix(load: nat, id: string, row: seq<PowerMaxArray>, dial: Dial, n: nat,
                                       fits: (int, PowerMaxArray) -> bool)
    requires n <= |row| && forall i, c :: IsKept(c, row, load, id, i) ==> fits(i, c)
    ensures IsSelection(Alive(load, id, row[..n], dial), DialFlags(id, |row|, dial)[..n], fits)
  {
    if n > 0 {
      var flags := DialFlags(id, |row|, dial);
      AlivePrefix(load, id, row, dial, n - 1, fits);
      assert row[..n][..n - 1] == row[..n - 1];
      var c := row[n - 1].(isActive := true, client := Client(load, id, n - 1));
      assert IsKept(c, row, load, id, n - 1);
      SelectionSnoc(Alive(load, id, row[..n - 1], dial), flags[..n - 1], fits, flags[n - 1],
                    if dial(id, n - 1) then [c] else []);
      assert flags[..n] == flags[..n - 1] + [flags[n - 1]];
    }
  }

  /** A load keeps of an array exactly the connections that authenticated, in configured order, as
      they are configured but for the active mark and the client. */
  lemma LoadedRowIs(config: ProxyConfig, dial: Dial, load: nat, id: string)
    ensures var row := Configured(id, config);
            IsSelection(LoadedRow(config, dial, load, id), DialFlags(id, |row|, dial),
                        (i: int, c: PowerMaxArray) => IsKept(c, row, load, id, i))
  {
    var row := Configured(id, config);
    AlivePrefix(load, id, row, dial, |row|, (i: int, c: PowerMaxArray) => IsKept(c, row, load, id, i));
    assert row[..|row|] == row && DialFlags(id, |row|, dial)[..|row|] == DialFlags(id, |row|, dial);
  }

  /** Slices are arrays: copies of a table share its rows. */
  type Table = map<string, array<PowerMaxArray>>

  /** A row of the table, read as values; an array without an entry has an empty one. */
  ghost predicate HoldsRow(table: Table, id: string, row: seq<PowerMaxArray>)
    reads table.Values
  {
    if id in table then table[id][..] == row && row != [] else row == []
  }

  method ToTable(rows: map<string, seq<PowerMaxArray>>) returns (table: Table)
    ensures table.Keys == rows.Keys
    ensures forall id :: id in table ==> fresh(table[id]) && table[id][..] == rows[id]
  {
    table := map[];
    var todo := rows.Keys;
    while todo != {}
      invariant todo <= rows.Keys && table.Keys == rows.Keys - todo
      invariant forall id :: id in table ==> fresh(table[id]) && table[id][..] == rows[id]
      decreases |todo|
    {
      var id :| id in todo;
      var row := NewRow(rows[id]);
      table := table[id := row];
      todo := todo - {id};
    }
  }

  method NewRow(connections: seq<PowerMaxArray>) returns (row: array<PowerMaxArray>)
    ensures fresh(row) && row[..] == connections
  {
    row := new PowerMaxArray[|connections|](i requires 0 <= i < |connections| => connections[i]);
  }

  /** A load: building, filtering, and a new slice for every array that is left. */
  method LoadTable(config: ProxyConfig, dial: Dial, load: nat) returns (table: Table)
    ensures forall id :: id in table ==> fresh(table[id])
    ensures forall id :: HoldsRow(table, id, LoadedRow(config, dial, load, id))
  {
    var configured := BuildTable(config);
    var loaded := KeepAlive(load, configured, dial);
    table := ToTable(loaded);
    forall id
      ensures HoldsRow(table, id, LoadedRow(config, dial, load, id))
    {
      assert id !in configured ==> Configured(id, config) == [];
    }
  }

  // ---------------------------------------------------------------- choosing a connection

  /** The first active connection of a row. */
  function FirstActive(row: seq<PowerMaxArray>): (index: Option<nat>)
    ensures index.Some? ==> index.value < |row| && row[index.value].isActive
                            && forall i :: 0 <= i < index.value ==> !row[i].isActive
    ensures index.None? ==> forall c :: c in row ==> !c.isActive
  {
    if row == [] then None
    else if row[0].isActive then Some(0)
    else
      var later := FirstActive(row[1..]);
      if later.Some? then Some(later.value + 1) else None
  }

  /** Its client. */
  function ChosenClient(row: seq<PowerMaxArray>): Option<Client> {
    match FirstActive(row)
    case None => None
    case Some(i) => Some(row[i].client)
  }

  /** The first position of a row whose authentication succeeded. */
  predicate IsFirstDialed(id: string, size: nat, dial: Dial, i: nat) {
    i < size && dial(id, i) && forall j: nat :: j < i ==> !dial(id, j)
  }

  lemma {:induction false} ChosenIsFirstAuthenticated(load: nat, id: string, row: seq<PowerMaxArray>, dial: Dial)
    ensures match ChosenClient(Alive(load, id, row, dial))
            case None => forall i: nat :: i < |row| ==> !dial(id, i)
            case Some(c) => exists i: nat :: IsFirstDialed(id, |row|, dial, i) && c == Client(load, id, i)
  {
    if row != [] {
      var n := |row| - 1;
      ChosenIsFirstAuthenticated(load, id, row[..n], dial);
      var front, alive := Alive(load, id, row[..n], dial), Alive(load, id, row, dial);
      if front != [] {
        assert front[0] in front;
        assert alive[0] == front[0];
        assert ChosenClient(alive) == ChosenClient(front) == Some(front[0].client);
        var i: nat :| IsFirstDialed(id, n, dial, i) && front[0].client == Client(load, id, i);
        assert IsFirstDialed(id, n + 1, dial, i);
      } else if dial(id, n) {
        assert IsFirstDialed(id, n + 1, dial, n);
      }
    }
  }

  lemma EarlierSlots(id: string, config: ProxyConfig, i: nat)
    requires i < |Slots(id, config.arrays)|
    ensures var slots := Slots(id, config.arrays);
            forall j: nat :: j < |slots| && Before(slots[j], slots[i]) ==> j < i
  {
    var slots := Slots(id, config.arrays);
    SlotsAreSorted(id, config.arrays);
    forall j | i <= j < |slots|
      ensures !Before(slots[j], slots[i])
    {
      assert i == j || Before(slots[i], slots[j]);
    }
  }

  /** For all entries, servers and answers: of a table built and filtered from them, the client
      chosen for an array is that of the first connection in configured order, entry by entry and
      primary before backup, that authenticated; and none is chosen only when none did. */
  lemma LoadedChoiceIsFirstInOrder(config: ProxyConfig, dial: Dial, load: nat, id: string)
    ensures var slots := Slots(id, config.arrays);
            && InSlotOrder(id, config.arrays, config)
            && match ChosenClient(LoadedRow(config, dial, load, id))
               case None => forall i: nat :: i < |slots| ==> !dial(id, i)
               case Some(c) =>
                 exists i: nat :: i < |slots| && c == Client(load, id, i) && dial(id, i)
                               && forall j: nat :: j < |slots| && Before(slots[j], slots[i]) ==> !dial(id, j)
  {
    var slots, row := Slots(id, config.arrays), Configured(id, config);
    RowsAreInSlotOrder(id, config.arrays, config);
    ChosenIsFirstAuthenticated(load, id, row, dial);
    var chosen := ChosenClient(LoadedRow(config, dial, load, id));
    if chosen.Some? {
      var i: nat :| IsFirstDialed(id, |row|, dial, i) && chosen.value == Client(load, id, i);
      EarlierSlots(id, config, i);
    }
  }
}
