/** The topology collector: a volume server, a gather stage and a push stage, each spawning one
    goroutine per element, joined by channels; and the goroutine that drains the last channel.
    Volumes are followed by their index in the list of persistent volumes. */
module TopologyPipeline {
  import opened Collections
  import opened MetricTypes

  /** The volumes of one run, and for each whether recording it succeeds. */
  datatype Setup = Setup(pvs: seq<VolumeInfo>, succeeds: nat -> bool)

  /** The main goroutine of a stage: ranging over its input, holding an element it has received
      but not spawned a goroutine for, in wg.Wait(), or past the close of its output. */
  datatype Main = Ranging | Holding(i: nat) | Joining | Closed

  datatype GatherStage = GatherStage(
    main: Main,
    sending: set<nat>,        // goroutines about to send
    sent: set<nat>,           // goroutines that sent, before wg.Done
    wg: int
  )

  datatype PushStage = PushStage(
    main: Main,
    recording: set<nat>,      // goroutines in the recorder call
    sending: set<nat>,        // goroutines about to send a success
    ending: set<nat>,         // goroutines before wg.Done
    wg: int
  )

  datatype State = State(
    served: nat,              // volumes sent into the buffered channel
    serverClosed: bool,
    taken: nat,               // volumes the gather stage has received
    gather: GatherStage,
    push: PushStage,
    recorded: seq<nat>,       // recorder calls, in order
    output: seq<nat>,         // what the last channel has delivered
    drained: bool
  )

  datatype Step =
    | Serve | CloseServer
    | GatherTake | GatherSpawn | GatherSend(i: nat) | GatherDone(i: nat) | GatherEnd | GatherClose
    | PushSpawn | Record(i: nat) | PushSend(i: nat) | PushDone(i: nat) | PushEnd | PushClose
    | Drain

  function Init(): State {
    State(0, false, 0, GatherStage(Ranging, {}, {}, 0), PushStage(Ranging, {}, {}, {}, 0), [], [], false)
  }

  /** Whether a step can be taken without blocking: the server's channel has room for every
      volume; the other two are unbuffered, so a send needs its receiver to be ranging. */
  predicate Enabled(c: Setup, s: State, step: Step) {
    match step
    case Serve => s.served < |c.pvs|
    case CloseServer => s.served == |c.pvs| && !s.serverClosed
    case GatherTake => s.gather.main.Ranging? && s.taken < s.served
    case GatherSpawn => s.gather.main.Holding?
    case GatherSend(i) => i in s.gather.sending && s.push.main.Ranging?
    case GatherDone(i) => i in s.gather.sent
    case GatherEnd => s.gather.main.Ranging? && s.serverClosed && s.taken == s.served
    case GatherClose => s.gather.main.Joining? && s.gather.wg == 0
    case PushSpawn => s.push.main.Holding?
    case Record(i) => i in s.push.recording
    case PushSend(i) => i in s.push.sending && !s.drained
    case PushDone(i) => i in s.push.ending
    case PushEnd => s.push.main.Ranging? && s.gather.main.Closed?
    case PushClose => s.push.main.Joining? && s.push.wg == 0
    case Drain => s.push.main.Closed? && !s.drained
  }

  /** What a step leaves of the gather stage. */
  function GatherAfter(c: Setup, s: State, step: Step): GatherStage
    requires Enabled(c, s, step)
  {
    var g := s.gather;
    match step
    case GatherTake => g.(main := Holding(s.taken))
    case GatherSpawn => g.(main := Ranging, sending := g.sending + {g.main.i}, wg := g.wg + 1)
    case GatherSend(i) => g.(sending := g.sending - {i}, sent := g.sent + {i})
    case GatherDone(i) => g.(sent := g.sent - {i}, wg := g.wg - 1)
    case GatherEnd => g.(main := Joining)
    case GatherClose => g.(main := Closed)
    case _ => g
  }

  /** What a step leaves of the push stage. */
  function PushAfter(c: Setup, s: State, step: Step): PushStage
    requires Enabled(c, s, step)
  {
    var p := s.push;
    match step
    case GatherSend(i) => p.(main := Holding(i))
    case PushSpawn => p.(main := Ranging, recording := p.recording + {p.main.i}, wg := p.wg + 1)
    case Record(i) =>
      if c.succeeds(i) then p.(recording := p.recording - {i}, sending := p.sending + {i})
      else p.(recording := p.recording - {i}, ending := p.ending + {i})
    case PushSend(i) => p.(sending := p.sending - {i}, ending := p.ending + {i})
    case PushDone(i) => p.(ending := p.ending - {i}, wg := p.wg - 1)
    case PushEnd => p.(main := Joining)
    case PushClose => p.(main := Closed)
    case _ => p
  }

  function Apply(c: Setup, s: State, step: Step): State
    requires Enabled(c, s, step)
  {
    State(
      if step.Serve? then s.served + 1 else s.served,
      s.serverClosed || step.CloseServer?,
      if step.GatherTake? then s.taken + 1 else s.taken,
      GatherAfter(c, s, step),
      PushAfter(c, s, step),
      if step.Record? then s.recorded + [step.i] else s.recorded,
      if step.PushSend? then s.output + [step.i] else s.output,
      s.drained || step.Drain?)
  }

  /** A send on a closed channel or a WaitGroup counter below zero. */
  predicate Panics(c: Setup, s: State, step: Step) {
    match step
    case Serve => s.served < |c.pvs| && s.serverClosed
    case GatherSend(i) => i in s.gather.sending && s.gather.main.Closed?
    case GatherDone(i) => i in s.gather.sent && s.gather.wg <= 0
    case PushSend(i) => i in s.push.sending && s.push.main.Closed?
    case PushDone(i) => i in s.push.ending && s.push.wg <= 0
    case _ => false
  }

  predicate Final(s: State) {
    s.serverClosed && s.gather.main.Closed? && s.push.main.Closed? && s.drained
    && s.gather.sending == s.gather.sent == s.push.recording == s.push.sending == s.push.ending == {}
  }

  ghost predicate Stuck(c: Setup, s: State) {
    forall step :: !Enabled(c, s, step)
  }

  function Execute(c: Setup, steps: seq<Step>): Option<State> {
    if steps == [] then Some(Init())
    else
      var before := Execute(c, steps[..|steps| - 1]);
      var step := steps[|steps| - 1];
      if before.Some? && Enabled(c, before.value, step) then Some(Apply(c, before.value, step)) else None
  }

  // ---------------------------------------------------------------- the invariant

  predicate Separate(s: State) {
    && s.gather.sending !! s.gather.sent
    && s.push.recording !! s.push.sending && s.push.recording !! s.push.ending && s.push.sending !! s.push.ending
  }

  predicate GatherCount(g: GatherStage) { g.wg == |g.sending| + |g.sent| }

  predicate PushCount(p: PushStage) { p.wg == |p.recording| + |p.sending| + |p.ending| }

  predicate Counts(s: State) { Separate(s) && GatherCount(s.gather) && PushCount(s.push) }

  predicate Phases(c: Setup, s: State) {
    && s.taken <= s.served <= |c.pvs|
    && (s.serverClosed ==> s.served == |c.pvs|)
    && (s.gather.main.Joining? || s.gather.main.Closed? ==> s.serverClosed && s.taken == |c.pvs|)
    && (s.gather.main.Closed? ==> s.gather.sending == s.gather.sent == {})
    && (s.push.main.Joining? || s.push.main.Closed? ==> s.gather.main.Closed?)
    && (s.push.main.Closed? ==> s.push.recording == s.push.sending == s.push.ending == {})
    && (s.drained ==> s.push.main.Closed?)
  }

  /** Volume i has not reached its recorder call. */
  predicate Upstream(c: Setup, s: State, i: nat) {
    || s.taken <= i < |c.pvs| || s.gather.main == Holding(i) || i in s.gather.sending
    || s.push.main == Holding(i) || i in s.push.recording
  }

  /** Volume i is at one place before its recorder call at most. */
  predicate OnePlace(s: State, i: nat) {
    && (i in s.push.recording ==>
          s.push.main != Holding(i) && i !in s.gather.sending && s.gather.main != Holding(i) && i < s.taken)
    && (s.push.main == Holding(i) ==> i !in s.gather.sending && s.gather.main != Holding(i) && i < s.taken)
    && (i in s.gather.sending ==> s.gather.main != Holding(i) && i < s.taken)
    && (s.gather.main == Holding(i) ==> i < s.taken)
    && (i in s.gather.sent ==> s.gather.main != Holding(i) && i < s.taken)
    && (i in s.push.sending || i in s.push.ending ==> i in s.recorded)
  }

  /** A volume is either upstream or recorded, once. */
  ghost predicate RecordedUnlessUpstream(c: Setup, s: State, i: nat) {
    multiset(s.recorded)[i] == if i < |c.pvs| && !Upstream(c, s, i) then 1 else 0
  }

  /** A success that was recorded is either being sent or in the output, once. */
  ghost predicate SuccessDelivered(c: Setup, s: State, i: nat) {
    && multiset(s.output)[i] == (if c.succeeds(i) && i in s.recorded && i !in s.push.sending then 1 else 0)
    && (i in s.push.sending ==> c.succeeds(i))
  }

  ghost predicate Followed(c: Setup, s: State, i: nat) {
    OnePlace(s, i) && RecordedUnlessUpstream(c, s, i) && SuccessDelivered(c, s, i)
  }

  ghost predicate Inv(c: Setup, s: State) {
    Phases(c, s) && Counts(s) && forall i: nat :: Followed(c, s, i)
  }

  lemma StepKeepsPhases(c: Setup, s: State, step: Step)
    requires Phases(c, s) && Counts(s) && Enabled(c, s, step) && forall i: nat :: OnePlace(s, i)
    ensures Phases(c, Apply(c, s, step))
  {
  }

  /** What a main goroutine holds is new to the sets of its stage. */
  predicate HeldIsNew(s: State) {
    && (s.gather.main.Holding? ==> s.gather.main.i !in s.gather.sending && s.gather.main.i !in s.gather.sent)
    && (s.push.main.Holding? ==>
          s.push.main.i !in s.push.recording && s.push.main.i !in s.push.sending && s.push.main.i !in s.push.ending)
  }

  lemma StepKeepsSeparate(c: Setup, s: State, step: Step)
    requires Separate(s) && HeldIsNew(s) && Enabled(c, s, step)
    ensures Separate(Apply(c, s, step))
  {
  }

  lemma StepKeepsGatherCount(c: Setup, s: State, step: Step)
    requires GatherCount(s.gather) && Separate(s) && HeldIsNew(s) && Enabled(c, s, step)
    ensures GatherCount(GatherAfter(c, s, step))
  {
    var g := s.gather;
    match step
    case GatherSpawn => SizeAdd(g.sending, g.main.i);
    case GatherSend(i) => SizeRemove(g.sending, i); SizeAdd(g.sent, i);
    case GatherDone(i) => SizeRemove(g.sent, i);
    case _ =>
  }

  lemma StepKeepsPushCount(c: Setup, s: State, step: Step)
    requires PushCount(s.push) && Separate(s) && HeldIsNew(s) && Enabled(c, s, step)
    ensures PushCount(PushAfter(c, s, step))
  {
    var p := s.push;
    match step
    case PushSpawn => SizeAdd(p.recording, p.main.i);
    case Record(i) => SizeRemove(p.recording, i); SizeAdd(p.sending, i); SizeAdd(p.ending, i);
    case PushSend(i) => SizeRemove(p.sending, i); SizeAdd(p.ending, i);
    case PushDone(i) => SizeRemove(p.ending, i);
    case _ =>
  }

  lemma StepKeepsOnePlace(c: Setup, s: State, step: Step, i: nat)
    requires Phases(c, s) && Enabled(c, s, step) && OnePlace(s, i)
    ensures OnePlace(Apply(c, s, step), i)
  {
  }

  lemma StepMovesUpstream(c: Setup, s: State, step: Step, i: nat)
    requires Phases(c, s) && Enabled(c, s, step) && OnePlace(s, i) && i < |c.pvs|
    ensures Upstream(c, Apply(c, s, step), i) <==> Upstream(c, s, i) && step != Record(i)
  {
  }

  lemma StepKeepsRecorded(c: Setup, s: State, step: Step, i: nat)
    requires Phases(c, s) && Enabled(c, s, step) && OnePlace(s, i) && RecordedUnlessUpstream(c, s, i)
    ensures RecordedUnlessUpstream(c, Apply(c, s, step), i)
  {
    if i < |c.pvs| {
      StepMovesUpstream(c, s, step, i);
    }
    if step.Record? {
      CountAppend(s.recorded, step.i, i);
    }
  }

  lemma StepKeepsDelivered(c: Setup, s: State, step: Step, i: nat)
    requires Enabled(c, s, step) && OnePlace(s, i) && SuccessDelivered(c, s, i)
    requires i in s.push.recording ==> i !in s.recorded
    ensures SuccessDelivered(c, Apply(c, s, step), i)
  {
    match step
    case Record(j) => assert i in s.recorded + [j] <==> i in s.recorded || i == j;
    case PushSend(j) => CountAppend(s.output, j, i);
    case _ =>
  }

  lemma CountAppend(xs: seq<nat>, x: nat, i: nat)
    ensures multiset(xs + [x])[i] == multiset(xs)[i] + if x == i then 1 else 0
  {
  }

  lemma {:induction false} RunKeepsInv(c: Setup, steps: seq<Step>)
    requires Execute(c, steps).Some?
    ensures Inv(c, Execute(c, steps).value)
  {
    if steps != [] {
      var before, step := steps[..|steps| - 1], steps[|steps| - 1];
      RunKeepsInv(c, before);
      var s := Execute(c, before).value;
      forall i: nat
        ensures OnePlace(s, i) && Followed(c, Apply(c, s, step), i)
      {
        assert Followed(c, s, i);
        StepKeepsOnePlace(c, s, step, i);
        StepKeepsRecorded(c, s, step, i);
        NotYetRecorded(c, s, i);
        StepKeepsDelivered(c, s, step, i);
      }
      HeldWasTaken(c, s);
      StepKeepsSeparate(c, s, step);
      StepKeepsGatherCount(c, s, step);
      StepKeepsPushCount(c, s, step);
      StepKeepsPhases(c, s, step);
    }
  }

  lemma NotYetRecorded(c: Setup, s: State, i: nat)
    requires Phases(c, s) && Followed(c, s, i)
    ensures i in s.push.recording || s.push.main == Holding(i) ==> i !in s.recorded
  {
    assert i in s.recorded <==> i in multiset(s.recorded);
  }

  lemma HeldWasTaken(c: Setup, s: State)
    requires Inv(c, s)
    ensures HeldIsNew(s)
  {
    if s.gather.main.Holding? {
      assert Followed(c, s, s.gather.main.i);
    }
    if s.push.main.Holding? {
      assert Followed(c, s, s.push.main.i);
      NotYetRecorded(c, s, s.push.main.i);
    }
  }

  // ---------------------------------------------------------------- results

  /** In every schedule each stage closes its channel after its last send, and no counter of
      goroutines goes below zero. */
  lemma PipelineSafety(c: Setup, steps: seq<Step>, step: Step)
    requires Execute(c, steps).Some?
    ensures !Panics(c, Execute(c, steps).value, step)
    ensures var s := Execute(c, steps).value;
            && (s.served < |c.pvs| ==> !s.serverClosed)
            && (s.gather.sending + s.gather.sent != {} ==> !s.gather.main.Closed? && s.gather.wg > 0)
            && (s.push.recording + s.push.sending + s.push.ending != {} ==> !s.push.main.Closed? && s.push.wg > 0)
  {
    RunKeepsInv(c, steps);
    var s := Execute(c, steps).value;
    if i :| i in s.gather.sending + s.gather.sent {
      assert |s.gather.sending| + |s.gather.sent| > 0;
    }
    if i :| i in s.push.recording + s.push.sending + s.push.ending {
      assert |s.push.recording| + |s.push.sending| + |s.push.ending| > 0;
    }
  }

  function Ahead(m: Main): nat {
    match m
    case Ranging => 2
    case Holding(_) => 2
    case Joining => 1
    case Closed => 0
  }

  /** Steps that can still be taken, at most: by each stage on the volumes it holds, and in all. */
  function GatherWork(g: GatherStage): nat {
    (if g.main.Holding? then 7 else 0) + 6 * |g.sending| + |g.sent| + Ahead(g.main)
  }

  function PushWork(p: PushStage): nat {
    (if p.main.Holding? then 4 else 0) + 3 * |p.recording| + 2 * |p.sending| + |p.ending| + Ahead(p.main)
  }

  function Measure(c: Setup, s: State): int {
    9 * (|c.pvs| - s.served) + 8 * (s.served - s.taken) + (if s.serverClosed then 0 else 1)
    + GatherWork(s.gather) + PushWork(s.push) + (if s.drained then 0 else 1)
  }

  lemma StepMovesGatherWork(c: Setup, s: State, step: Step)
    requires Enabled(c, s, step)
    ensures GatherWork(GatherAfter(c, s, step)) <= GatherWork(s.gather) +
              (match step
               case GatherTake => 7
               case GatherSend(_) => -5
               case GatherSpawn | GatherDone(_) | GatherEnd | GatherClose => -1
               case _ => 0)
  {
    var g := s.gather;
    match step
    case GatherSpawn => SizeAdd(g.sending, g.main.i);
    case GatherSend(i) => SendMovesGatherWork(c, s, i);
    case GatherDone(i) => SizeRemove(g.sent, i);
    case _ =>
  }

  lemma SendMovesGatherWork(c: Setup, s: State, i: nat)
    requires Enabled(c, s, GatherSend(i))
    ensures GatherWork(GatherAfter(c, s, GatherSend(i))) <= GatherWork(s.gather) - 5
  {
    SizeRemove(s.gather.sending, i);
    SizeAdd(s.gather.sent, i);
  }

  lemma StepMovesPushWork(c: Setup, s: State, step: Step)
    requires Enabled(c, s, step)
    ensures PushWork(PushAfter(c, s, step)) <= PushWork(s.push) +
              (match step
               case GatherSend(_) => 4
               case PushSpawn | Record(_) | PushSend(_) | PushDone(_) | PushEnd | PushClose => -1
               case _ => 0)
  {
    var p := s.push;
    match step
    case PushSpawn => SizeAdd(p.recording, p.main.i);
    case Record(i) => RecordMovesPushWork(c, s, i);
    case PushSend(i) => SizeRemove(p.sending, i); SizeAdd(p.ending, i);
    case PushDone(i) => SizeRemove(p.ending, i);
    case _ =>
  }

  lemma RecordMovesPushWork(c: Setup, s: State, i: nat)
    requires Enabled(c, s, Record(i))
    ensures PushWork(PushAfter(c, s, Record(i))) <= PushWork(s.push) - 1
  {
    SizeRemove(s.push.recording, i);
    if c.succeeds(i) {
      SizeAdd(s.push.sending, i);
    } else {
      SizeAdd(s.push.ending, i);
    }
  }

  lemma StepLowersMeasure(c: Setup, s: State, step: Step)
    requires Enabled(c, s, step)
    ensures Measure(c, Apply(c, s, step)) < Measure(c, s)
  {
    StepMovesGatherWork(c, s, step);
    StepMovesPushWork(c, s, step);
  }

  /** No run has more than nine steps per volume and six more. */
  lemma {:induction false} RunsAreBounded(c: Setup, steps: seq<Step>)
    requires Execute(c, steps).Some?
    ensures |steps| + Measure(c, Execute(c, steps).value) <= 9 * |c.pvs| + 6
    ensures |steps| <= 9 * |c.pvs| + 6
  {
    RunKeepsInv(c, steps);
    if steps != [] {
      var before := steps[..|steps| - 1];
      RunsAreBounded(c, before);
      StepLowersMeasure(c, Execute(c, before).value, steps[|steps| - 1]);
    }
  }

  lemma CanStep(c: Setup, s: State) returns (step: Step)
    requires Phases(c, s) && Counts(s) && !Final(s)
    ensures Enabled(c, s, step)
  {
    if s.served < |c.pvs| { step := Serve; }
    else if !s.serverClosed { step := CloseServer; }
    else if s.push.main.Holding? { step := PushSpawn; }
    else if i :| i in s.push.recording { step := Record(i); }
    else if i :| i in s.push.sending { step := PushSend(i); }
    else if i :| i in s.push.ending { step := PushDone(i); }
    else if s.gather.main.Holding? { step := GatherSpawn; }
    else if i :| i in s.gather.sent { step := GatherDone(i); }
    else if i :| i in s.gather.sending { step := GatherSend(i); }
    else if s.gather.main.Ranging? { step := if s.taken < s.served then GatherTake else GatherEnd; }
    else if s.gather.main.Joining? { step := GatherClose; }
    else if s.push.main.Ranging? { step := PushEnd; }
    else if s.push.main.Joining? { step := PushClose; }
    else { step := Drain; }
  }

  /** A run that cannot go on has completed: no goroutine is left blocked. */
  lemma StuckMeansComplete(c: Setup, steps: seq<Step>)
    requires Execute(c, steps).Some? && Stuck(c, Execute(c, steps).value)
    ensures Final(Execute(c, steps).value)
  {
    RunKeepsInv(c, steps);
    if !Final(Execute(c, steps).value) {
      var step := CanStep(c, Execute(c, steps).value);
    }
  }

  /** Every run can be completed, and by going on in any way: there is always a next step, and runs
      are bounded. */
  lemma EveryRunCompletes(c: Setup, steps: seq<Step>) returns (all: seq<Step>)
    requires Execute(c, steps).Some?
    ensures steps <= all && Execute(c, all).Some? && Final(Execute(c, all).value)
    decreases 9 * |c.pvs| + 6 - |steps|
  {
    var s := Execute(c, steps).value;
    RunKeepsInv(c, steps);
    if Final(s) {
      return steps;
    }
    var step := CanStep(c, s);
    assert (steps + [step])[..|steps|] == steps;
    RunsAreBounded(c, steps + [step]);
    all := EveryRunCompletes(c, steps + [step]);
  }

  /** The labels recorded for a volume. */
  function MetaOf(v: VolumeInfo): TopologyMeta {
    TopologyMeta(v.namespace, v.volumeClaimName, v.persistentVolumeStatus, v.persistentVolume,
                 v.persistentVolume, v.storageClass, v.driver, v.provisionedSize,
                 v.storageSystemVolumeName, v.srp, v.symId, v.protocol, v.createdTime)
  }

  /** A meta's fields, each by the field of the volume it is taken from. */
  predicate CarriesFieldsOf(m: TopologyMeta, v: VolumeInfo) {
    && m.namespace == v.namespace && m.persistentVolumeClaim == v.volumeClaimName
    && m.volumeClaimName == v.persistentVolume && m.persistentVolume == v.persistentVolume
    && m.persistentVolumeStatus == v.persistentVolumeStatus && m.storageClass == v.storageClass
    && m.driver == v.driver && m.provisionedSize == v.provisionedSize
    && m.storageSystemVolumeName == v.storageSystemVolumeName && m.storagePoolName == v.srp
    && m.storageSystem == v.symId && m.protocol == v.protocol && m.createdTime == v.createdTime
  }

  function MetaAt(c: Setup): nat -> Option<TopologyMeta> {
    (i: nat) => if i < |c.pvs| then Some(MetaOf(c.pvs[i])) else None
  }

  function Indices(n: nat): (order: seq<nat>)
    ensures |order| == n && forall i :: 0 <= i < n ==> order[i] == i
  {
    if n == 0 then [] else Indices(n - 1) + [n - 1]
  }

  lemma {:induction false} IndicesCount(n: nat, i: nat)
    ensures multiset(Indices(n))[i] == if i < n then 1 else 0
  {
    if n > 0 {
      IndicesCount(n - 1, i);
      CountAppend(Indices(n - 1), n - 1, i);
    }
  }

  function InputMetas(c: Setup): seq<Option<TopologyMeta>> {
    Map((v: VolumeInfo) => Some(MetaOf(v)), c.pvs)
  }

  lemma MetasOfIndices(c: Setup)
    ensures Map(MetaAt(c), Indices(|c.pvs|)) == InputMetas(c)
  {
    var xs, ys := Map(MetaAt(c), Indices(|c.pvs|)), InputMetas(c);
    assert |xs| == |ys|;
    forall i | 0 <= i < |xs|
      ensures xs[i] == ys[i]
    {
      assert Indices(|c.pvs|)[i] == i;
    }
  }

  /** At the end every volume has been recorded once, and its success delivered once. */
  lemma FinalCounts(c: Setup, s: State, i: nat)
    requires Phases(c, s) && Followed(c, s, i) && Final(s)
    ensures multiset(s.recorded)[i] == if i < |c.pvs| then 1 else 0
    ensures multiset(s.output)[i] == if i < |c.pvs| && c.succeeds(i) then 1 else 0
  {
    assert i in s.recorded <==> i in multiset(s.recorded);
  }

  lemma RecordedOnce(c: Setup, s: State)
    requires Inv(c, s) && Final(s)
    ensures multiset(s.recorded) == multiset(Indices(|c.pvs|))
  {
    forall i: nat
      ensures multiset(s.recorded)[i] == multiset(Indices(|c.pvs|))[i]
    {
      FinalCounts(c, s, i);
      IndicesCount(|c.pvs|, i);
    }
  }

  lemma MetasRecorded(c: Setup, s: State)
    requires multiset(s.recorded) == multiset(Indices(|c.pvs|))
    ensures multiset(Map(MetaAt(c), s.recorded)) == multiset(InputMetas(c))
  {
    MapPermutation(MetaAt(c), s.recorded, Indices(|c.pvs|));
    MetasOfIndices(c);
  }

  /** In every completed schedule the recorded metas are, as a multiset, the image of the input
      volumes. */
  lemma CompleteRunRecordsAll(c: Setup, steps: seq<Step>)
    requires Execute(c, steps).Some? && Final(Execute(c, steps).value)
    ensures multiset(Map(MetaAt(c), Execute(c, steps).value.recorded)) == multiset(InputMetas(c))
  {
    RunKeepsInv(c, steps);
    RecordedOnce(c, Execute(c, steps).value);
    MetasRecorded(c, Execute(c, steps).value);
  }

  /** And the output is exactly the successful recordings, each once. */
  lemma CompleteRunOutputsSuccesses(c: Setup, steps: seq<Step>, i: nat)
    requires Execute(c, steps).Some? && Final(Execute(c, steps).value)
    ensures multiset(Execute(c, steps).value.output)[i] == if i < |c.pvs| && c.succeeds(i) then 1 else 0
  {
    RunKeepsInv(c, steps);
    FinalCounts(c, Execute(c, steps).value, i);
  }

  /** The metas recorded in a run, in order. */
  function RecordedMetas(c: Setup, s: State): seq<Option<TopologyMeta>> { Map(MetaAt(c), s.recorded) }

  /** In a completed schedule there are as many recordings as volumes; each carries, field by field,
      what one of the volumes has, and each volume has one that does. */
  lemma RecordedMetasCarryTheirVolumes(c: Setup, steps: seq<Step>)
    requires Execute(c, steps).Some? && Final(Execute(c, steps).value)
    ensures var s := Execute(c, steps).value;
            && |s.recorded| == |RecordedMetas(c, s)| == |c.pvs|
            && (forall k :: 0 <= k < |s.recorded| ==>
                  && s.recorded[k] < |c.pvs| && RecordedMetas(c, s)[k].Some?
                  && CarriesFieldsOf(RecordedMetas(c, s)[k].value, c.pvs[s.recorded[k]]))
            && (forall i: nat :: i < |c.pvs| ==> i in s.recorded)
  {
    RunKeepsInv(c, steps);
    var s := Execute(c, steps).value;
    RecordedOnce(c, s);
    SameLength(s.recorded, Indices(|c.pvs|));
    forall k | 0 <= k < |s.recorded|
      ensures s.recorded[k] < |c.pvs|
    {
      FinalCounts(c, s, s.recorded[k]);
      assert s.recorded[k] in multiset(s.recorded);
    }
    forall i: nat | i < |c.pvs|
      ensures i in s.recorded
    {
      FinalCounts(c, s, i);
      assert i in multiset(s.recorded);
    }
  }

  lemma SameLength<T>(xs: seq<T>, ys: seq<T>)
    requires multiset(xs) == multiset(ys)
    ensures |xs| == |ys|
  {
    assert |xs| == |multiset(xs)| == |multiset(ys)| == |ys|;
  }

  // ---------------------------------------------------------------- what schedules there are

  lemma GoOn(c: Setup, steps: seq<Step>, step: Step)
    requires Execute(c, steps).Some? && Enabled(c, Execute(c, steps).value, step)
    ensures Execute(c, steps + [step]) == Some(Apply(c, Execute(c, steps).value, step))
  {
    assert (steps + [step])[..|steps|] == steps;
  }

  function Below(n: nat): (s: set<nat>)
    ensures forall i: nat :: i in s <==> i < n
  {
    if n == 0 then {} else Below(n - 1) + {n - 1}
  }

  lemma ServeAll(c: Setup, n: nat) returns (steps: seq<Step>)
    requires n <= |c.pvs|
    ensures Execute(c, steps) == Some(Init().(served := n))
  {
    if n == 0 {
      steps := [];
    } else {
      steps := ServeAll(c, n - 1);
      GoOn(c, steps, Serve);
      steps := steps + [Serve];
    }
  }

  /** All volumes are served; the first n have a gather goroutine. */
  function Gathering(c: Setup, n: nat): State {
    Init().(served := |c.pvs|, taken := n, gather := GatherStage(Ranging, Below(n), {}, n))
  }

  lemma GatherAll(c: Setup, n: nat) returns (steps: seq<Step>)
    requires n <= |c.pvs|
    ensures Execute(c, steps) == Some(Gathering(c, n))
  {
    if n == 0 {
      steps := ServeAll(c, |c.pvs|);
      assert Below(0) == {};
    } else {
      steps := GatherAll(c, n - 1);
      GoOn(c, steps, GatherTake);
      GoOn(c, steps + [GatherTake], GatherSpawn);
      assert Below(n - 1) + {n - 1} == Below(n);
      steps := steps + [GatherTake] + [GatherSpawn];
    }
  }

  /** All volumes are gathered; the first n are in their recorder calls. */
  function Handing(c: Setup, n: nat): State {
    var all := |c.pvs|;
    Init().(served := all, taken := all, gather := GatherStage(Ranging, Below(all) - Below(n), Below(n), all),
            push := PushStage(Ranging, Below(n), {}, {}, n))
  }

  lemma HandOne(c: Setup, n: nat, steps: seq<Step>) returns (more: seq<Step>)
    requires n < |c.pvs| && Execute(c, steps) == Some(Handing(c, n))
    ensures Execute(c, more) == Some(Handing(c, n + 1))
  {
    var all := |c.pvs|;
    GoOn(c, steps, GatherSend(n));
    GoOn(c, steps + [GatherSend(n)], PushSpawn);
    more := steps + [GatherSend(n)] + [PushSpawn];
    assert Below(all) - Below(n) - {n} == Below(all) - Below(n + 1);
    var s := Execute(c, more).value;
    assert s.gather == Handing(c, n + 1).gather && s.push == Handing(c, n + 1).push;
  }

  lemma HandAll(c: Setup, n: nat) returns (steps: seq<Step>)
    requires n <= |c.pvs|
    ensures Execute(c, steps) == Some(Handing(c, n))
  {
    if n == 0 {
      steps := GatherAll(c, |c.pvs|);
      assert Below(|c.pvs|) - Below(0) == Below(|c.pvs|);
    } else {
      steps := HandAll(c, n - 1);
      steps := HandOne(c, n - 1, steps);
    }
  }

  /** The goroutines are not serialized: all volumes can be in their recorder calls at once. */
  lemma AllRecordAtOnce(c: Setup) returns (steps: seq<Step>)
    ensures Execute(c, steps).Some?
    ensures var s := Execute(c, steps).value; s.push.recording == Below(|c.pvs|) && s.recorded == s.output == []
  {
    steps := HandAll(c, |c.pvs|);
  }

  /** All volumes have reached their recorder calls; these are recorded and these delivered. */
  ghost predicate HasReached(c: Setup, steps: seq<Step>, recorded: seq<nat>, output: seq<nat>) {
    && Execute(c, steps).Some?
    && var s := Execute(c, steps).value;
       && s.taken == |c.pvs| && s.gather.main.Ranging? && s.gather.sending == {} && s.push.main.Ranging?
       && !s.drained && s.recorded == recorded && s.output == output
  }

  ghost predicate IsOrder(c: Setup, order: seq<nat>) {
    forall i: nat :: multiset(order)[i] == if i < |c.pvs| then 1 else 0
  }

  ghost predicate IsSuccessOrder(c: Setup, order: seq<nat>) {
    forall i: nat :: multiset(order)[i] == if i < |c.pvs| && c.succeeds(i) then 1 else 0
  }

  lemma NotEarlier(order: seq<nat>, k: nat)
    requires k < |order| && multiset(order)[order[k]] <= 1
    ensures order[k] !in order[..k] && multiset(order[..k])[order[k]] == 0
  {
    assert order == order[..k] + [order[k]] + order[k + 1..];
  }

  lemma RecordNext(c: Setup, steps: seq<Step>, order: seq<nat>, k: nat)
    requires IsOrder(c, order) && k < |order| && HasReached(c, steps, order[..k], [])
    ensures HasReached(c, steps + [Record(order[k])], order[..k + 1], [])
  {
    var s, i := Execute(c, steps).value, order[k];
    assert i in multiset(order);
    NotEarlier(order, k);
    assert Followed(c, s, i) by {
      RunKeepsInv(c, steps);
    }
    assert Enabled(c, s, Record(i));
    GoOn(c, steps, Record(i));
    assert order[..k + 1] == order[..k] + [i];
  }

  lemma RecordInOrder(c: Setup, order: seq<nat>, k: nat) returns (steps: seq<Step>)
    requires IsOrder(c, order) && k <= |order|
    ensures HasReached(c, steps, order[..k], [])
  {
    if k == 0 {
      steps := HandAll(c, |c.pvs|);
    } else {
      var before := RecordInOrder(c, order, k - 1);
      RecordNext(c, before, order, k - 1);
      steps := before + [Record(order[k - 1])];
    }
  }

  lemma DeliverNext(c: Setup, steps: seq<Step>, order: seq<nat>, output: seq<nat>, k: nat)
    requires IsOrder(c, order) && IsSuccessOrder(c, output) && k < |output|
    requires HasReached(c, steps, order, output[..k])
    ensures HasReached(c, steps + [PushSend(output[k])], order, output[..k + 1])
  {
    var s, i := Execute(c, steps).value, output[k];
    assert i in multiset(output);
    NotEarlier(output, k);
    assert i in multiset(order);
    assert i in order;
    assert Followed(c, s, i) by {
      RunKeepsInv(c, steps);
    }
    assert Enabled(c, s, PushSend(i));
    GoOn(c, steps, PushSend(i));
    assert output[..k + 1] == output[..k] + [i];
  }

  lemma DeliverInOrder(c: Setup, order: seq<nat>, output: seq<nat>, k: nat) returns (steps: seq<Step>)
    requires IsOrder(c, order) && IsSuccessOrder(c, output) && k <= |output|
    ensures HasReached(c, steps, order, output[..k])
  {
    if k == 0 {
      steps := RecordInOrder(c, order, |order|);
      assert order[..|order|] == order;
    } else {
      var before := DeliverInOrder(c, order, output, k - 1);
      DeliverNext(c, before, order, output, k - 1);
      steps := before + [PushSend(output[k - 1])];
    }
  }

  lemma {:induction false} OnlyGrows(c: Setup, steps: seq<Step>, all: seq<Step>)
    requires steps <= all && Execute(c, all).Some?
    ensures Execute(c, steps).Some?
    ensures Execute(c, steps).value.recorded <= Execute(c, all).value.recorded
    ensures Execute(c, steps).value.output <= Execute(c, all).value.output
    decreases |all|
  {
    if |steps| < |all| {
      OnlyGrows(c, steps, all[..|all| - 1]);
    } else {
      assert steps == all;
    }
  }

  lemma SameCounts(xs: seq<nat>, ys: seq<nat>)
    requires xs <= ys && forall i: nat :: multiset(xs)[i] == multiset(ys)[i]
    ensures xs == ys
  {
    assert multiset(xs) == multiset(ys);
    SameLength(xs, ys);
  }

  /** Whatever order the volumes are recorded in and the successes delivered in, there is a schedule
      that does so. */
  lemma EveryOrderIsPossible(c: Setup, order: seq<nat>, output: seq<nat>) returns (steps: seq<Step>)
    requires IsOrder(c, order) && IsSuccessOrder(c, output)
    ensures Execute(c, steps).Some? && Final(Execute(c, steps).value)
    ensures Execute(c, steps).value.recorded == order && Execute(c, steps).value.output == output
  {
    var done := DeliverInOrder(c, order, output, |output|);
    assert output[..|output|] == output;
    steps := EveryRunCompletes(c, done);
    OnlyGrows(c, done, steps);
    var s := Execute(c, steps).value;
    RunKeepsInv(c, steps);
    forall i: nat
      ensures multiset(s.recorded)[i] == multiset(order)[i] && multiset(s.output)[i] == multiset(output)[i]
    {
      FinalCounts(c, s, i);
    }
    SameCounts(order, s.recorded);
    SameCounts(output, s.output);
  }
}
