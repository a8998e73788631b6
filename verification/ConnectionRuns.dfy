/** The connection table over time: loads of the configuration, liveness probes, and exports by a
    collector that is made once. The table the service holds, the one the collector keeps, and the
    client that is used against the one that should be. */
module ConnectionRuns {
  import opened Collections
  import opened Connections

  /** What a client's authentication answers at one moment. */
  type Answers = Client -> bool

  // ---------------------------------------------------------------- service and collectors

  class PowerMaxService {
    var powerMaxClients: Table
    var maxPowerMaxConnections: int

    constructor ()
      ensures powerMaxClients == map[] && maxPowerMaxConnections == 0
    {
      powerMaxClients := map[];
      maxPowerMaxConnections := 0;
    }

    /** A snapshot: a new map over the same rows. */
    method GetPowerMaxClients() returns (clients: Table)
      ensures clients == powerMaxClients
    {
      clients := map id | id in powerMaxClients :: powerMaxClients[id];
    }

    method SetPowerMaxClients(clients: Table)
      modifies this`powerMaxClients
      ensures powerMaxClients == clients
    {
      powerMaxClients := map id | id in clients :: clients[id];
    }
  }

  /** The states a probe computes for a row. */
  ghost predicate AreVerdicts(states: seq<bool>, row: array<PowerMaxArray>, answers: Answers)
    reads row
  {
    |states| == row.Length && forall i :: 0 <= i < |states| ==> states[i] == answers(row[i].client)
  }

  /** The probe as it is: it assigns to the loop's copy of each connection. Every row keeps its
      contents; `verdicts` are the states it computed and dropped. */
  method ValidatePowerMaxArrays(svc: PowerMaxService, answers: Answers) returns (verdicts: map<string, seq<bool>>)
    ensures unchanged(svc)
    ensures forall id :: id in svc.powerMaxClients ==> unchanged(svc.powerMaxClients[id])
    ensures verdicts.Keys == svc.powerMaxClients.Keys
    ensures forall id :: id in verdicts ==> AreVerdicts(verdicts[id], svc.powerMaxClients[id], answers)
  {
    var clients := svc.GetPowerMaxClients();
    verdicts := map[];
    var todo := clients.Keys;
    while todo != {}
      invariant todo <= clients.Keys && verdicts.Keys == clients.Keys - todo
      invariant forall id :: id in verdicts ==> AreVerdicts(verdicts[id], clients[id], answers)
      decreases |todo|
    {
      var id :| id in todo;
      var states := ValidateRow(clients[id], answers);
      verdicts := verdicts[id := states];
      todo := todo - {id};
    }
  }

  method ValidateRow(row: array<PowerMaxArray>, answers: Answers) returns (states: seq<bool>)
    ensures AreVerdicts(states, row, answers)
  {
    states := [];
    for i := 0 to row.Length
      invariant |states| == i && forall j :: 0 <= j < i ==> states[j] == answers(row[j].client)
    {
      var connection := row[i];
      if answers(connection.client) {
        connection := connection.(isActive := true);
      } else {
        connection := connection.(isActive := false);
      }
      states := states + [connection.isActive];
    }
  }

  datatype ExportError = NoCollector | NoRecorder | NoClients | NoConnections

  class BaseMetrics {
    const powerMaxClients: Table
    const maxPowerMaxConnections: int

    constructor (svc: PowerMaxService)
      ensures powerMaxClients == svc.powerMaxClients && maxPowerMaxConnections == svc.maxPowerMaxConnections
    {
      powerMaxClients := svc.powerMaxClients;
      maxPowerMaxConnections := svc.maxPowerMaxConnections;
    }

    method GetPowerMaxClient(id: string) returns (client: Option<Client>)
      ensures client == if id in powerMaxClients then ChosenClient(powerMaxClients[id][..]) else None
    {
      if id in powerMaxClients {
        var row := powerMaxClients[id];
        for i := 0 to row.Length
          invariant forall j :: 0 <= j < i ==> !row[j].isActive
        {
          if row[i].isActive {
            assert row[..][i].isActive && forall j :: 0 <= j < i ==> !row[..][j].isActive;
            return Some(row[i].client);
          }
        }
      }
      return None;
    }

    /** The guard before collecting names the first thing that is missing; a collector never runs
        with a limit of zero. */
    method CheckExport(hasCollector: bool, hasRecorder: bool, nilClients: bool) returns (error: Option<ExportError>)
      ensures error.None? <==> hasCollector && hasRecorder && !nilClients && maxPowerMaxConnections != 0
      ensures error == Some(NoCollector) <==> !hasCollector
      ensures error == Some(NoRecorder) <==> hasCollector && !hasRecorder
      ensures error == Some(NoClients) <==> hasCollector && hasRecorder && nilClients
    {
      if !hasCollector { return Some(NoCollector); }
      if !hasRecorder { return Some(NoRecorder); }
      if nilClients { return Some(NoClients); }
      if maxPowerMaxConnections == 0 { return Some(NoConnections); }
      return None;
    }
  }

  // ---------------------------------------------------------------- runs

  /** What can happen: a load of a configuration with what its connections answer, a load that
      fails, a change of the connection limit, a probe with its answers, an export. */
  datatype Op =
    | Load(config: ProxyConfig, dial: Dial) | LoadFailed | SetLimit(limit: int) | Probe(answers: Answers) | Export

  function Loads(ops: seq<Op>): nat {
    if ops == [] then 0 else Loads(ops[..|ops| - 1]) + if ops[|ops| - 1].Load? then 1 else 0
  }

  /** An array's row in the service's table. */
  function ServiceRow(ops: seq<Op>, id: string): seq<PowerMaxArray> {
    if ops == [] then []
    else
      var front, last := ops[..|ops| - 1], ops[|ops| - 1];
      if last.Load? then LoadedRow(last.config, last.dial, Loads(front), id) else ServiceRow(front, id)
  }

  function ServiceLimit(ops: seq<Op>): int {
    if ops == [] then 0
    else if ops[|ops| - 1].SetLimit? then ops[|ops| - 1].limit
    else ServiceLimit(ops[..|ops| - 1])
  }

  predicate HasExport(ops: seq<Op>) { exists i :: 0 <= i < |ops| && ops[i].Export? }

  /** The operations before the first export: what the collector knows of. */
  function Kept(ops: seq<Op>): seq<Op> {
    if ops == [] then []
    else
      var front := ops[..|ops| - 1];
      if HasExport(front) then Kept(front) else front
  }

  /** The process that owns the service and the singleton collector. */
  class Exporter {
    const service: PowerMaxService
    var collector: BaseMetrics?
    var loads: nat
    ghost var ops: seq<Op>

    ghost function Rows(): set<object>
      reads this, service
    {
      service.powerMaxClients.Values + if collector == null then {} else collector.powerMaxClients.Values
    }

    /** The service holds what the operations so far make it hold, and the collector what those
        before the first export made it hold. */
    ghost predicate Valid()
      reads this, service, Rows()
    {
      && loads == Loads(ops)
      && (forall id :: HoldsRow(service.powerMaxClients, id, ServiceRow(ops, id)))
      && service.maxPowerMaxConnections == ServiceLimit(ops)
      && (collector == null <==> !HasExport(ops))
      && (collector != null ==>
            && (forall id :: HoldsRow(collector.powerMaxClients, id, ServiceRow(Kept(ops), id)))
            && collector.maxPowerMaxConnections == ServiceLimit(Kept(ops)))
    }

    constructor ()
      ensures Valid() && fresh(service) && ops == []
    {
      service := new PowerMaxService();
      collector := null;
      loads := 0;
      ops := [];
    }

    /** A changed secret or configuration: `config` is None when the connections cannot be had. */
    method UpdatePowerMaxArrays(config: Option<ProxyConfig>, dial: Dial)
      requires Valid()
      modifies this`loads, this`ops, service`powerMaxClients
      ensures Valid() && ops == old(ops) + [if config.Some? then Load(config.value, dial) else LoadFailed]
      ensures collector == old(collector)
      ensures config.None? ==> service.powerMaxClients == old(service.powerMaxClients)
    {
      ghost var was := ops;
      if config.Some? {
        var clients := LoadTable(config.value, dial, loads);
        service.SetPowerMaxClients(clients);
        loads := loads + 1;
        ops := ops + [Load(config.value, dial)];
      } else {
        ops := ops + [LoadFailed];
      }
      Extended(was, ops[|was|]);
    }

    method UpdateMaxConnections(limit: int)
      requires Valid()
      modifies this`ops, service`maxPowerMaxConnections
      ensures Valid() && ops == old(ops) + [SetLimit(limit)] && collector == old(collector)
    {
      service.maxPowerMaxConnections := limit;
      Extended(ops, SetLimit(limit));
      ops := ops + [SetLimit(limit)];
    }

    method OnLivenessProbe(answers: Answers)
      requires Valid()
      modifies this`ops
      ensures Valid() && ops == old(ops) + [Probe(answers)] && collector == old(collector)
      ensures service.powerMaxClients == old(service.powerMaxClients)
    {
      var verdicts := ValidatePowerMaxArrays(service, answers);
      Extended(ops, Probe(answers));
      ops := ops + [Probe(answers)];
    }

    /** The first export makes the collector; every later one gets that same object. */
    method CreateInstance() returns (instance: BaseMetrics)
      requires Valid()
      modifies this`collector, this`ops
      ensures Valid() && ops == old(ops) + [Export] && collector == instance
      ensures if old(collector) != null then instance == old(collector) else fresh(instance)
    {
      if collector == null {
        collector := new BaseMetrics(service);
        assert forall id :: HoldsRow(collector.powerMaxClients, id, ServiceRow(ops, id));
      }
      instance := collector;
      Extended(ops, Export);
      ops := ops + [Export];
    }

    /** The client the collector queries an array with. */
    method ClientFor(id: string) returns (client: Option<Client>)
      requires Valid() && collector != null
      ensures client == Chosen(ops, id)
    {
      client := collector.GetPowerMaxClient(id);
      assert HoldsRow(collector.powerMaxClients, id, ServiceRow(Kept(ops), id));
    }
  }

  lemma Extended(ops: seq<Op>, op: Op)
    ensures var ops' := ops + [op];
            && Loads(ops') == Loads(ops) + (if op.Load? then 1 else 0)
            && HasExport(ops') == (HasExport(ops) || op.Export?)
            && Kept(ops') == (if HasExport(ops) then Kept(ops) else ops)
            && ServiceLimit(ops') == (if op.SetLimit? then op.limit else ServiceLimit(ops))
            && forall id :: ServiceRow(ops', id) ==
                 if op.Load? then LoadedRow(op.config, op.dial, Loads(ops), id) else ServiceRow(ops, id)
  {
    var ops' := ops + [op];
    assert ops'[..|ops|] == ops && ops'[|ops|] == op;
    if HasExport(ops) {
      var i :| 0 <= i < |ops| && ops[i].Export?;
      assert ops'[i].Export?;
    }
  }

  // ---------------------------------------------------------------- the table that is kept

  /** The limit set last since the first export, if any was. */
  function LimitSince(ops: seq<Op>): Option<int> {
    if ops == [] || !HasExport(ops[..|ops| - 1]) then None
    else if ops[|ops| - 1].SetLimit? then Some(ops[|ops| - 1].limit)
    else LimitSince(ops[..|ops| - 1])
  }

  lemma {:induction false} KeptIsPrefix(ops: seq<Op>)
    requires HasExport(ops)
    ensures Kept(ops) < ops && ops[|Kept(ops)|].Export? && !HasExport(Kept(ops))
    ensures Loads(Kept(ops)) <= Loads(ops)
    ensures Loads(Kept(ops)) == Loads(ops) ==>
              forall id :: ServiceRow(Kept(ops), id) == ServiceRow(ops, id)
    ensures ServiceLimit(ops) == match LimitSince(ops) case None => ServiceLimit(Kept(ops)) case Some(limit) => limit
  {
    var n := |ops| - 1;
    var front := ops[..n];
    if HasExport(front) {
      KeptIsPrefix(front);
    } else {
      var i :| 0 <= i < |ops| && ops[i].Export?;
      assert i < n ==> front[i].Export?;
    }
  }

  /** The collector works for ever with what the operations before the first export left. */
  lemma {:induction false} CollectorKeepsFirstTable(before: seq<Op>, after: seq<Op>)
    requires !HasExport(before)
    ensures var ops := before + [Export] + after;
            HasExport(ops) && Kept(ops) == before && Loads(ops) == Loads(before) + Loads(after)
  {
    var ops := before + [Export] + after;
    assert ops[|before|].Export?;
    if after == [] {
      assert ops == before + [Export];
      Extended(before, Export);
    } else {
      var n := |after| - 1;
      CollectorKeepsFirstTable(before, after[..n]);
      Extended(before + [Export] + after[..n], after[n]);
      assert ops == before + [Export] + after[..n] + [after[n]];
    }
  }

  lemma {:induction false} RowsAreOfTheLastLoad(ops: seq<Op>, id: string)
    ensures forall c :: c in ServiceRow(ops, id) ==>
              c.isActive && Loads(ops) >= 1 && c.client.Client? && c.client.load == Loads(ops) - 1
  {
    if ops != [] {
      RowsAreOfTheLastLoad(ops[..|ops| - 1], id);
    }
  }

  /** Over any run the collector's row of an array is the service's current one if and only if no
      load has succeeded since the first export, or neither table has a connection of the array;
      and its limit is the current one if and only if the limit set last since then, if any, is the
      one it has. */
  lemma KeptIsCurrentIff(ops: seq<Op>, id: string)
    requires HasExport(ops)
    ensures var kept, current := ServiceRow(Kept(ops), id), ServiceRow(ops, id);
            kept == current <==> Loads(ops) == Loads(Kept(ops)) || (kept == [] && current == [])
    ensures ServiceLimit(Kept(ops)) == ServiceLimit(ops) <==>
              LimitSince(ops) == None || LimitSince(ops) == Some(ServiceLimit(Kept(ops)))
  {
    KeptIsPrefix(ops);
    RowsAreOfTheLastLoad(ops, id);
    RowsAreOfTheLastLoad(Kept(ops), id);
    var kept, current := ServiceRow(Kept(ops), id), ServiceRow(ops, id);
    if kept == current && kept != [] {
      assert kept[0] in kept && current[0] in current;
    }
  }

  // ---------------------------------------------------------------- the client that is used

  /** The client the collector uses. */
  function Chosen(ops: seq<Op>, id: string): Option<Client> { ChosenClient(ServiceRow(Kept(ops), id)) }

  /** Whether the last load authenticated the connection at a configured position. */
  predicate Dialed(ops: seq<Op>, id: string, i: nat) {
    if ops == [] then false
    else
      var last := ops[|ops| - 1];
      if last.Load? then i < |Configured(id, last.config)| && last.dial(id, i) else Dialed(ops[..|ops| - 1], id, i)
  }

  /** The client of a connection of the last load. */
  function CurrentClient(ops: seq<Op>, id: string, i: nat): Client {
    if Loads(ops) == 0 then NoClient else Client(Loads(ops) - 1, id, i)
  }

  /** Whether its latest authentication succeeded: at the load, or at a probe since, which asks the
      connections the load authenticated. */
  predicate Authenticated(ops: seq<Op>, id: string, i: nat) {
    if ops == [] then false
    else
      var front, last := ops[..|ops| - 1], ops[|ops| - 1];
      match last
      case Load(config, dial) => i < |Configured(id, config)| && dial(id, i)
      case Probe(answers) => Dialed(front, id, i) && answers(CurrentClient(front, id, i))
      case _ => Authenticated(front, id, i)
  }

  /** The choice that is meant: the first connection in configured order whose latest
      authentication succeeded, and none only when there is none. */
  ghost predicate IsIntended(ops: seq<Op>, id: string, choice: Option<Client>) {
    match choice
    case None => NoneAuthenticated(ops, id)
    case Some(c) => exists i: nat :: IsFirstAuthenticated(ops, id, i) && c == CurrentClient(ops, id, i)
  }

  ghost predicate NoneAuthenticated(ops: seq<Op>, id: string) { forall i: nat :: !Authenticated(ops, id, i) }

  ghost predicate IsFirstAuthenticated(ops: seq<Op>, id: string, i: nat) {
    Authenticated(ops, id, i) && forall j: nat :: j < i ==> !Authenticated(ops, id, j)
  }

  /** The last probe since the last load, if any, authenticated the client. */
  predicate Confirmed(ops: seq<Op>, client: Client) {
    if ops == [] then true
    else
      match ops[|ops| - 1]
      case Load(_, _) => true
      case Probe(answers) => answers(client)
      case _ => Confirmed(ops[..|ops| - 1], client)
  }

  lemma {:induction false} AuthenticatedIs(ops: seq<Op>, id: string, i: nat)
    ensures Authenticated(ops, id, i) <==> Dialed(ops, id, i) && Confirmed(ops, CurrentClient(ops, id, i))
    ensures Dialed(ops, id, i) ==> Loads(ops) >= 1
  {
    if ops != [] {
      AuthenticatedIs(ops[..|ops| - 1], id, i);
    }
  }

  ghost predicate IsFirstDialedOf(ops: seq<Op>, id: string, i: nat) {
    Dialed(ops, id, i) && forall j: nat :: j < i ==> !Dialed(ops, id, j)
  }

  lemma {:induction false} RowChoice(ops: seq<Op>, id: string)
    ensures match ChosenClient(ServiceRow(ops, id))
            case None => forall i: nat :: !Dialed(ops, id, i)
            case Some(c) => exists i: nat :: IsFirstDialedOf(ops, id, i) && c == CurrentClient(ops, id, i)
  {
    if ops != [] {
      var front, last := ops[..|ops| - 1], ops[|ops| - 1];
      RowChoice(front, id);
      if last.Load? {
        ChosenIsFirstAuthenticated(Loads(front), id, Configured(id, last.config), last.dial);
        var chosen := ChosenClient(ServiceRow(ops, id));
        if chosen.Some? {
          var i: nat :| IsFirstDialed(id, |Configured(id, last.config)|, last.dial, i)
                        && chosen.value == Client(Loads(front), id, i);
          assert IsFirstDialedOf(ops, id, i);
        }
      } else {
        var chosen := ChosenClient(ServiceRow(ops, id));
        if chosen.Some? {
          var i: nat :| IsFirstDialedOf(front, id, i) && chosen.value == CurrentClient(front, id, i);
          assert IsFirstDialedOf(ops, id, i);
        }
      }
    }
  }

  lemma {:induction false} KeptDialed(ops: seq<Op>, id: string, i: nat)
    requires HasExport(ops) && Loads(Kept(ops)) == Loads(ops)
    ensures Dialed(ops, id, i) == Dialed(Kept(ops), id, i)
  {
    var front := ops[..|ops| - 1];
    if HasExport(front) {
      KeptIsPrefix(front);
      KeptDialed(front, id, i);
    }
  }

  /** Every connection that the last load authenticated was refused by a probe since, the last one. */
  ghost predicate AllRefused(ops: seq<Op>, id: string) {
    forall i: nat :: Dialed(ops, id, i) ==> !Confirmed(ops, CurrentClient(ops, id, i))
  }

  /** Over any run: a client that is used is the one that is meant if and only if no load has
      succeeded since the first export and the last probe, if any came since the load, authenticated
      it. That none is used is right if and only if no load has succeeded since then, or the last
      load authenticated no connection of the array that the last probe since it, if any, did not
      refuse. */
  lemma ChosenIsIntendedIff(ops: seq<Op>, id: string)
    requires HasExport(ops)
    ensures IsIntended(ops, id, Chosen(ops, id)) <==>
              match Chosen(ops, id)
              case None => Loads(ops) == Loads(Kept(ops)) || AllRefused(ops, id)
              case Some(c) => Loads(ops) == Loads(Kept(ops)) && Confirmed(ops, c)
  {
    RowChoice(Kept(ops), id);
    var chosen := Chosen(ops, id);
    if chosen.Some? {
      var i: nat :| IsFirstDialedOf(Kept(ops), id, i) && chosen.value == CurrentClient(Kept(ops), id, i);
      UsedIsIntendedIff(ops, id, i);
      assert chosen == Some(CurrentClient(Kept(ops), id, i));
    } else {
      NoneIsIntendedIff(ops, id);
    }
  }

  lemma NoneIsIntendedIff(ops: seq<Op>, id: string)
    requires HasExport(ops) && forall i: nat :: !Dialed(Kept(ops), id, i)
    ensures IsIntended(ops, id, None) <==> Loads(ops) == Loads(Kept(ops)) || AllRefused(ops, id)
  {
    forall i: nat
      ensures Authenticated(ops, id, i) <==> Dialed(ops, id, i) && Confirmed(ops, CurrentClient(ops, id, i))
      ensures Loads(ops) == Loads(Kept(ops)) ==> !Dialed(ops, id, i)
    {
      AuthenticatedIs(ops, id, i);
      if Loads(ops) == Loads(Kept(ops)) {
        KeptDialed(ops, id, i);
      }
    }
  }

  lemma UsedIsIntendedIff(ops: seq<Op>, id: string, i: nat)
    requires HasExport(ops) && IsFirstDialedOf(Kept(ops), id, i)
    ensures var used := CurrentClient(Kept(ops), id, i);
            IsIntended(ops, id, Some(used)) <==> Loads(ops) == Loads(Kept(ops)) && Confirmed(ops, used)
  {
    var used := CurrentClient(Kept(ops), id, i);
    KeptIsPrefix(ops);
    AuthenticatedIs(Kept(ops), id, i);
    assert used == Client(Loads(Kept(ops)) - 1, id, i);
    if Loads(ops) == Loads(Kept(ops)) {
      forall j: nat
        ensures Authenticated(ops, id, j) <==> Dialed(Kept(ops), id, j) && Confirmed(ops, CurrentClient(ops, id, j))
      {
        AuthenticatedIs(ops, id, j);
        KeptDialed(ops, id, j);
      }
      assert Confirmed(ops, used) ==> IsFirstAuthenticated(ops, id, i);
    }
  }

  // ---------------------------------------------------------------- a probe that writes

  /** A row whose connections are active exactly if `answers` says so of their clients. */
  function Probed(row: seq<PowerMaxArray>, answers: Answers): (probed: seq<PowerMaxArray>)
    ensures |probed| == |row|
    ensures forall i :: 0 <= i < |row| ==> probed[i] == row[i].(isActive := answers(row[i].client))
  {
    seq(|row|, i requires 0 <= i < |row| => row[i].(isActive := answers(row[i].client)))
  }

  lemma {:induction false} FirstActiveAppend(row: seq<PowerMaxArray>, c: PowerMaxArray)
    ensures FirstActive(row + [c]) ==
              if FirstActive(row).Some? then FirstActive(row) else if c.isActive then Some(|row|) else None
  {
    if row != [] {
      FirstActiveAppend(row[1..], c);
      assert (row + [c])[1..] == row[1..] + [c];
    }
  }

  predicate IsFirstConfirmed(id: string, size: nat, load: nat, dial: Dial, answers: Answers, i: nat) {
    && i < size && dial(id, i) && answers(Client(load, id, i))
    && forall j: nat :: j < i ==> !(dial(id, j) && answers(Client(load, id, j)))
  }

  lemma {:induction false} ProbedChoice(load: nat, id: string, row: seq<PowerMaxArray>, dial: Dial, answers: Answers)
    ensures match ChosenClient(Probed(Alive(load, id, row, dial), answers))
            case None => forall i: nat :: i < |row| && dial(id, i) ==> !answers(Client(load, id, i))
            case Some(c) =>
              exists i: nat :: IsFirstConfirmed(id, |row|, load, dial, answers, i) && c == Client(load, id, i)
  {
    if row != [] {
      var n := |row| - 1;
      ProbedChoice(load, id, row[..n], dial, answers);
      var front := Probed(Alive(load, id, row[..n], dial), answers);
      var all := Probed(Alive(load, id, row, dial), answers);
      if dial(id, n) {
        var last := row[n].(isActive := answers(Client(load, id, n)), client := Client(load, id, n));
        assert all == front + [last];
        FirstActiveAppend(front, last);
      } else {
        assert all == front;
      }
      var chosen := ChosenClient(front);
      if chosen.Some? {
        var i: nat :| IsFirstConfirmed(id, n, load, dial, answers, i) && chosen.value == Client(load, id, i);
        assert IsFirstConfirmed(id, n + 1, load, dial, answers, i);
      } else if dial(id, n) && answers(Client(load, id, n)) {
        assert IsFirstConfirmed(id, n + 1, load, dial, answers, n);
      }
    }
  }

  ghost predicate IsProbedChoice(ops: seq<Op>, id: string, answers: Answers, choice: Option<Client>) {
    match choice
    case None => forall i: nat :: Dialed(ops, id, i) ==> !answers(CurrentClient(ops, id, i))
    case Some(c) => exists i: nat :: IsFirstDialedWith(ops, id, answers, i) && c == CurrentClient(ops, id, i)
  }

  lemma {:induction false} ProbedRowChoice(ops: seq<Op>, id: string, answers: Answers)
    ensures IsProbedChoice(ops, id, answers, ChosenClient(Probed(ServiceRow(ops, id), answers)))
  {
    if ops != [] {
      var front, last := ops[..|ops| - 1], ops[|ops| - 1];
      if last.Load? {
        ProbedLoadChoice(ops, id, answers);
      } else {
        ProbedRowChoice(front, id, answers);
        var chosen := ChosenClient(Probed(ServiceRow(ops, id), answers));
        if chosen.Some? {
          var i: nat :| IsFirstDialedWith(front, id, answers, i) && chosen.value == CurrentClient(front, id, i);
          assert IsFirstDialedWith(ops, id, answers, i);
        }
      }
    }
  }

  lemma ProbedLoadChoice(ops: seq<Op>, id: string, answers: Answers)
    requires ops != [] && ops[|ops| - 1].Load?
    ensures IsProbedChoice(ops, id, answers, ChosenClient(Probed(ServiceRow(ops, id), answers)))
  {
    var load, last := Loads(ops[..|ops| - 1]), ops[|ops| - 1];
    var row := Configured(id, last.config);
    ProbedChoice(load, id, row, last.dial, answers);
    forall i: nat
      ensures Dialed(ops, id, i) <==> i < |row| && last.dial(id, i)
      ensures CurrentClient(ops, id, i) == Client(load, id, i)
    {
    }
    var chosen := ChosenClient(Probed(ServiceRow(ops, id), answers));
    if chosen.Some? {
      var i: nat :| IsFirstConfirmed(id, |row|, load, last.dial, answers, i) && chosen.value == Client(load, id, i);
      assert IsFirstDialedWith(ops, id, answers, i);
    }
  }

  ghost predicate IsFirstDialedWith(ops: seq<Op>, id: string, answers: Answers, i: nat) {
    && Dialed(ops, id, i) && answers(CurrentClient(ops, id, i))
    && forall j: nat :: j < i ==> !(Dialed(ops, id, j) && answers(CurrentClient(ops, id, j)))
  }

  /** Were the last probe's verdicts written to the rows, and the service's own table used, the
      choice would be the one that is meant in every run. */
  lemma WrittenProbeChoosesTheIntended(ops: seq<Op>, id: string)
    ensures IsIntended(ops, id, ChosenClient(Probed(ServiceRow(ops, id), (c: Client) => Confirmed(ops, c))))
  {
    var answers := (c: Client) => Confirmed(ops, c);
    ProbedRowChoice(ops, id, answers);
    forall i: nat
      ensures Authenticated(ops, id, i) <==> Dialed(ops, id, i) && answers(CurrentClient(ops, id, i))
    {
      AuthenticatedIs(ops, id, i);
    }
    var chosen := ChosenClient(Probed(ServiceRow(ops, id), answers));
    if chosen.Some? {
      var i: nat :| IsFirstDialedWith(ops, id, answers, i) && chosen.value == CurrentClient(ops, id, i);
      assert IsFirstAuthenticated(ops, id, i);
    }
  }

  // ---------------------------------------------------------------- runs that go wrong

  /** With an array's first connection authenticating at every load: a second load is not seen. */
  lemma LaterLoadIsNotSeen(config: ProxyConfig, dial: Dial, id: string)
    requires Configured(id, config) != [] && dial(id, 0)
    ensures var ops := [Load(config, dial), Export, Load(config, dial)];
            Chosen(ops, id) == Some(Client(0, id, 0)) && !IsIntended(ops, id, Chosen(ops, id))
            && IsIntended(ops, id, Some(Client(1, id, 0)))
  {
    var ops := [Load(config, dial), Export, Load(config, dial)];
    FirstLoad(config, dial, id);
    Extended([Load(config, dial)], Export);
    assert [Load(config, dial)] + [Export] == ops[..2];
    assert ops[..2][1].Export?;
    Extended(ops[..2], Load(config, dial));
    assert ops == ops[..2] + [Load(config, dial)];
    assert ops[1].Export?;
    ChosenIsIntendedIff(ops, id);
    assert IsFirstAuthenticated(ops, id, 0);
  }

  /** Nor is a probe that finds it failing: the client that failed is used on. */
  lemma FailedProbeIsNotSeen(config: ProxyConfig, dial: Dial, id: string, answers: Answers)
    requires Configured(id, config) != [] && dial(id, 0) && !answers(Client(0, id, 0))
    ensures var ops := [Load(config, dial), Export, Probe(answers)];
            Chosen(ops, id) == Some(Client(0, id, 0)) && !IsIntended(ops, id, Chosen(ops, id))
  {
    var ops := [Load(config, dial), Export, Probe(answers)];
    FirstLoad(config, dial, id);
    Extended([Load(config, dial)], Export);
    assert [Load(config, dial)] + [Export] == ops[..2];
    assert ops[..2][1].Export?;
    Extended(ops[..2], Probe(answers));
    assert ops == ops[..2] + [Probe(answers)];
    assert ops[1].Export?;
    ChosenIsIntendedIff(ops, id);
  }

  /** And an exporter whose first export ran before anything was loaded never gets a client: the
      array's first connection authenticates at the load that follows, and is not used. */
  lemma EarlyExportNeverCollects(config: ProxyConfig, dial: Dial, id: string)
    requires Configured(id, config) != [] && dial(id, 0)
    ensures var ops := [Export, Load(config, dial)];
            Chosen(ops, id) == None && !IsIntended(ops, id, Chosen(ops, id))
            && IsIntended(ops, id, Some(Client(0, id, 0)))
  {
    var none: seq<Op> := [];
    var ops := [Export, Load(config, dial)];
    Extended(none, Export);
    assert none + [Export] == [Export];
    Extended([Export], Load(config, dial));
    assert [Export] + [Load(config, dial)] == ops;
    ChosenIsIntendedIff(ops, id);
    assert Dialed(ops, id, 0) && Confirmed(ops, CurrentClient(ops, id, 0));
    assert IsFirstAuthenticated(ops, id, 0);
  }

  lemma FirstLoad(config: ProxyConfig, dial: Dial, id: string)
    requires Configured(id, config) != [] && dial(id, 0)
    ensures var ops := [Load(config, dial)];
            !HasExport(ops) && Loads(ops) == 1 && ChosenClient(ServiceRow(ops, id)) == Some(Client(0, id, 0))
  {
    var ops := [Load(config, dial)];
    var none: seq<Op> := [];
    assert ops == none + ops;
    Extended(none, ops[0]);
    ChosenIsFirstAuthenticated(0, id, Configured(id, config), dial);
  }
}
