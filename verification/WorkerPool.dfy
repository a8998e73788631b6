/** The semaphore-bounded worker pool that the capacity and both performance collectors share:
    one producer goroutine, one worker goroutine per array, and the goroutine that drains `ch`.
    A state machine over the steps of all of them, in any interleaving. */
module WorkerPool {
  import opened Collections

  /** What one run is given: the capacity of `sem`, the records each array's worker sends (client
      answers are fixed but arbitrary), and the placeholder sent when there is no array. */
  datatype Setup<T> = Setup(limit: nat, out: map<string, seq<T>>, placeholder: T)

  datatype Producer =
    | Looping            // at the head of the loop over the arrays
    | Added(id: string)    // after wg.Add(1), before the send on sem
    | Acquired(id: string) // after the send on sem, before the go statement
    | Flushing           // about to send the placeholder
    | Waiting            // in wg.Wait()
    | ClosingCh
    | ClosingSem
    | Finished

  /** A record on `ch`, with the array whose worker sent it; the placeholder has none. */
  datatype Item<T> = Item(source: Option<string>, payload: T)

  /** What does not depend on the records: the goroutines and their synchronization. */
  datatype Control = Control(
    producer: Producer,
    exported: bool,
    pending: set<string>,         // arrays the loop has not reached
    running: set<string>,         // workers that have not called wg.Done
    releasing: set<string>,       // workers after wg.Done, before the receive from sem
    wg: int,
    tokens: nat,                  // values buffered in sem
    chClosed: bool,
    semClosed: bool,
    drained: bool                 // the consumer has seen ch closed
  )

  datatype State<T> = State(
    ctl: Control,
    rest: map<string, seq<T>>,    // records of each array that are not sent yet
    received: seq<Item<T>>
  )

  datatype Step =
    | Add(id: string) | Acquire | Spawn | EndLoop | SendPlaceholder | Wait | CloseCh | CloseSem
    | Send(id: string) | Done(id: string) | Release(id: string) | Drain

  function Init<T>(c: Setup<T>): State<T> {
    State(Control(Looping, false, c.out.Keys, {}, {}, 0, 0, false, false, false), c.out, [])
  }

  /** Whether a step can be taken without blocking. A send on `ch` needs the consumer to be
      receiving; a send on `sem` needs room; a receive from `sem` needs a token or a closed `sem`. */
  predicate Ready(limit: nat, k: Control, step: Step) {
    match step
    case Add(a) => k.producer.Looping? && a in k.pending
    case Acquire => k.producer.Added? && k.tokens < limit
    case Spawn => k.producer.Acquired?
    case EndLoop => k.producer.Looping? && k.pending == {}
    case SendPlaceholder => k.producer.Flushing? && !k.drained
    case Wait => k.producer.Waiting? && k.wg == 0
    case CloseCh => k.producer.ClosingCh?
    case CloseSem => k.producer.ClosingSem?
    case Send(a) => a in k.running && !k.drained
    case Done(a) => a in k.running
    case Release(a) => a in k.releasing && (k.tokens > 0 || k.semClosed)
    case Drain => k.chClosed && !k.drained
  }

  predicate Enabled<T>(c: Setup<T>, s: State<T>, step: Step) {
    && Ready(c.limit, s.ctl, step)
    && (step.Send? ==> step.id in s.rest && s.rest[step.id] != [])
    && (step.Done? ==> step.id in s.rest && s.rest[step.id] == [])
  }

  function ControlAfter(limit: nat, k: Control, step: Step): Control
    requires Ready(limit, k, step)
  {
    match step
    case Add(a) => k.(producer := Added(a), exported := true, pending := k.pending - {a}, wg := k.wg + 1)
    case Acquire => k.(producer := Acquired(k.producer.id), tokens := k.tokens + 1)
    case Spawn => k.(producer := Looping, running := k.running + {k.producer.id})
    case EndLoop => k.(producer := if k.exported then Waiting else Flushing)
    case SendPlaceholder => k.(producer := Waiting)
    case Wait => k.(producer := ClosingCh)
    case CloseCh => k.(producer := ClosingSem, chClosed := true)
    case CloseSem => k.(producer := Finished, semClosed := true)
    case Send(_) => k
    case Done(a) => k.(running := k.running - {a}, releasing := k.releasing + {a}, wg := k.wg - 1)
    case Release(a) => k.(releasing := k.releasing - {a}, tokens := if k.tokens > 0 then k.tokens - 1 else 0)
    case Drain => k.(drained := true)
  }

  function Apply<T>(c: Setup<T>, s: State<T>, step: Step): State<T>
    requires Enabled(c, s, step)
  {
    var k := ControlAfter(c.limit, s.ctl, step);
    match step
    case Send(a) => State(k, s.rest[a := s.rest[a][1..]], s.received + [Item(Some(a), s.rest[a][0])])
    case SendPlaceholder => State(k, s.rest, s.received + [Item(None, c.placeholder)])
    case _ => State(k, s.rest, s.received)
  }

  /** The operations Go answers with a panic: a send on a closed channel, closing a channel
      twice, a WaitGroup counter below zero. */
  predicate Panics<T>(s: State<T>, step: Step) {
    match step
    case Acquire => s.ctl.producer.Added? && s.ctl.semClosed
    case SendPlaceholder => s.ctl.producer.Flushing? && s.ctl.chClosed
    case Send(a) => a in s.ctl.running && a in s.rest && s.rest[a] != [] && s.ctl.chClosed
    case CloseCh => s.ctl.producer.ClosingCh? && s.ctl.chClosed
    case CloseSem => s.ctl.producer.ClosingSem? && s.ctl.semClosed
    case Done(a) => a in s.ctl.running && s.ctl.wg <= 0
    case _ => false
  }

  /** Everything has stopped: producer returned, no worker left, `ch` closed and drained. */
  predicate Final<T>(s: State<T>) {
    s.ctl.producer.Finished? && s.ctl.running == {} && s.ctl.releasing == {} && s.ctl.chClosed && s.ctl.drained
  }

  ghost predicate Stuck<T>(c: Setup<T>, s: State<T>) {
    forall step :: !Enabled(c, s, step)
  }

  /** The state after a run, when every step of it was enabled in turn. */
  function Execute<T>(c: Setup<T>, steps: seq<Step>): Option<State<T>> {
    if steps == [] then Some(Init(c))
    else
      var before := Execute(c, steps[..|steps| - 1]);
      var step := steps[|steps| - 1];
      if before.Some? && Enabled(c, before.value, step) then Some(Apply(c, before.value, step)) else None
  }

  // ---------------------------------------------------------------- the invariant

  /** The records of one source, in the order they arrived. */
  function From<T>(source: Option<string>, items: seq<Item<T>>): seq<T> {
    if items == [] then []
    else
      var last := items[|items| - 1];
      From(source, items[..|items| - 1]) + (if last.source == source then [last.payload] else [])
  }

  function InHand(p: Producer): set<string> {
    if p.Added? || p.Acquired? then {p.id} else {}
  }

  ghost predicate Counts(limit: nat, k: Control) {
    && k.wg == |k.running| + |InHand(k.producer)|
    && k.tokens == |k.running| + |k.releasing| + (if k.producer.Acquired? then 1 else 0)
    && k.tokens <= limit
  }

  ghost predicate Phases(all: set<string>, k: Control) {
    && (k.producer.Looping? || k.producer.Added? || k.producer.Acquired? || k.pending == {})
    && (k.producer.ClosingCh? || k.producer.ClosingSem? || k.producer.Finished? ==> k.running == {})
    && (k.chClosed <==> k.producer.ClosingSem? || k.producer.Finished?)
    && (k.semClosed <==> k.producer.Finished?)
    && (k.drained ==> k.chClosed)
    && (k.producer.Added? || k.producer.Acquired? ==> k.exported)
    && (!k.exported ==> k.pending == all)
    && (k.exported ==> all != {} && !k.producer.Flushing?)
  }

  /** Each array is in at most one place. */
  ghost predicate Places(all: set<string>, k: Control) {
    && (forall a :: a in k.pending ==> a in all && a !in InHand(k.producer) && a !in k.running && a !in k.releasing)
    && (forall a :: a in InHand(k.producer) ==> a in all && a !in k.running && a !in k.releasing)
    && (forall a :: a in k.running ==> a in all && a !in k.releasing)
    && (forall a :: a in k.releasing ==> a in all)
  }

  /** An array that no worker is running for or will run for has sent everything. */
  ghost predicate Sent<T>(c: Setup<T>, s: State<T>) {
    && s.rest.Keys == c.out.Keys
    && forall a :: a in c.out ==>
         a in s.ctl.pending || a in InHand(s.ctl.producer) || a in s.ctl.running || s.rest[a] == []
  }

  ghost predicate Delivered<T>(c: Setup<T>, s: State<T>)
    requires s.rest.Keys == c.out.Keys
  {
    && (forall a :: a in c.out ==> From(Some(a), s.received) + s.rest[a] == c.out[a])
    && From(None, s.received) ==
         (if s.ctl.exported || s.ctl.producer.Looping? || s.ctl.producer.Flushing? then [] else [c.placeholder])
    && (forall i :: 0 <= i < |s.received| && s.received[i].source.Some? ==> s.received[i].source.value in c.out)
  }

  ghost predicate Inv<T>(c: Setup<T>, s: State<T>) {
    && Counts(c.limit, s.ctl) && Phases(c.out.Keys, s.ctl) && Places(c.out.Keys, s.ctl)
    && Sent(c, s) && Delivered(c, s)
  }

  lemma StepKeepsCounts(all: set<string>, limit: nat, k: Control, step: Step)
    requires Counts(limit, k) && Places(all, k) && Ready(limit, k, step)
    ensures Counts(limit, ControlAfter(limit, k, step))
  {
    match step
    case Spawn => SpawnKeepsCounts(all, limit, k);
    case Done(a) => DoneKeepsCounts(all, limit, k, a);
    case Release(a) => SizeRemove(k.releasing, a);
    case _ =>
  }

  lemma SpawnKeepsCounts(all: set<string>, limit: nat, k: Control)
    requires Counts(limit, k) && Places(all, k) && Ready(limit, k, Spawn)
    ensures Counts(limit, ControlAfter(limit, k, Spawn))
  {
    SizeAdd(k.running, k.producer.id);
  }

  lemma DoneKeepsCounts(all: set<string>, limit: nat, k: Control, a: string)
    requires Counts(limit, k) && Places(all, k) && Ready(limit, k, Done(a))
    ensures Counts(limit, ControlAfter(limit, k, Done(a)))
  {
    DoneMovesWorker(limit, k, a);
  }

  /** A worker that calls wg.Done leaves the running ones for those that hold a token. */
  lemma DoneMovesWorker(limit: nat, k: Control, a: string)
    requires Ready(limit, k, Done(a))
    ensures var k' := ControlAfter(limit, k, Done(a));
            |k'.running| == |k.running| - 1 && |k'.releasing| == |k.releasing| + if a in k.releasing then 0 else 1
  {
    SizeRemove(k.running, a);
    SizeAdd(k.releasing, a);
  }

  lemma StepKeepsPhases(all: set<string>, limit: nat, k: Control, step: Step)
    requires Counts(limit, k) && Phases(all, k) && Places(all, k) && Ready(limit, k, step)
    ensures Phases(all, ControlAfter(limit, k, step))
  {
  }

  lemma StepKeepsPlaces(all: set<string>, limit: nat, k: Control, step: Step)
    requires Places(all, k) && Ready(limit, k, step)
    ensures Places(all, ControlAfter(limit, k, step))
  {
  }

  lemma StepKeepsSent<T>(c: Setup<T>, s: State<T>, step: Step)
    requires Sent(c, s) && Enabled(c, s, step)
    ensures Sent(c, Apply(c, s, step))
  {
  }

  lemma StepKeepsDelivered<T>(c: Setup<T>, s: State<T>, step: Step)
    requires s.rest.Keys == c.out.Keys && Phases(c.out.Keys, s.ctl) && Delivered(c, s) && Enabled(c, s, step)
    requires Apply(c, s, step).rest.Keys == c.out.Keys
    ensures Delivered(c, Apply(c, s, step))
  {
    match step
    case Send(a) => SendKeepsDelivered(c, s, a);
    case SendPlaceholder => PlaceholderKeepsDelivered(c, s);
    case _ => SilentStepKeepsDelivered(c, s, step);
  }

  lemma Received<T>(source: Option<string>, items: seq<Item<T>>, item: Item<T>)
    ensures From(source, items + [item]) == From(source, items) + (if item.source == source then [item.payload] else [])
  {
    assert (items + [item])[..|items|] == items;
  }

  lemma SilentStepKeepsDelivered<T>(c: Setup<T>, s: State<T>, step: Step)
    requires s.rest.Keys == c.out.Keys && Phases(c.out.Keys, s.ctl) && Delivered(c, s) && Enabled(c, s, step)
    requires !step.Send? && !step.SendPlaceholder?
    ensures Delivered(c, Apply(c, s, step))
  {
    assert Apply(c, s, step).rest == s.rest && Apply(c, s, step).received == s.received;
  }

  lemma PlaceholderKeepsDelivered<T>(c: Setup<T>, s: State<T>)
    requires s.rest.Keys == c.out.Keys && Phases(c.out.Keys, s.ctl) && Delivered(c, s) && Enabled(c, s, SendPlaceholder)
    ensures Delivered(c, Apply(c, s, SendPlaceholder))
  {
    Received(None, s.received, Item(None, c.placeholder));
    assert c.out.Keys == {};
  }

  lemma SendKeepsDelivered<T>(c: Setup<T>, s: State<T>, a: string)
    requires s.rest.Keys == c.out.Keys && Phases(c.out.Keys, s.ctl) && Delivered(c, s) && Enabled(c, s, Send(a))
    ensures Delivered(c, Apply(c, s, Send(a)))
  {
    var s', item := Apply(c, s, Send(a)), Item(Some(a), s.rest[a][0]);
    Received(None, s.received, item);
    forall b | b in c.out
      ensures From(Some(b), s'.received) + s'.rest[b] == c.out[b]
    {
      Received(Some(b), s.received, item);
      if b == a {
        HeadMoves(From(Some(a), s.received), s.rest[a]);
      }
    }
  }

  lemma HeadMoves<T>(xs: seq<T>, ys: seq<T>)
    requires ys != []
    ensures (xs + [ys[0]]) + ys[1..] == xs + ys
  {
    assert ys == [ys[0]] + ys[1..];
  }

  lemma {:induction false} RunKeepsInv<T>(c: Setup<T>, steps: seq<Step>)
    requires Execute(c, steps).Some?
    ensures Inv(c, Execute(c, steps).value)
  {
    if steps != [] {
      var before, step := steps[..|steps| - 1], steps[|steps| - 1];
      RunKeepsInv(c, before);
      var s := Execute(c, before).value;
      StepKeepsCounts(c.out.Keys, c.limit, s.ctl, step);
      StepKeepsPhases(c.out.Keys, c.limit, s.ctl, step);
      StepKeepsPlaces(c.out.Keys, c.limit, s.ctl, step);
      StepKeepsSent(c, s, step);
      StepKeepsDelivered(c, s, step);
    }
  }

  // ---------------------------------------------------------------- safety

  /** In every interleaving: worker bodies <= tokens in sem <= limit, and no step that could be
      attempted next panics, although workers give their token back after wg.Done and so possibly
      after close(sem). */
  lemma PoolSafety<T>(c: Setup<T>, steps: seq<Step>, step: Step)
    requires Execute(c, steps).Some?
    ensures var s := Execute(c, steps).value;
            |s.ctl.running| <= s.ctl.tokens <= c.limit && !Panics(s, step)
    ensures var k := Execute(c, steps).value.ctl;
            && (k.running != {} ==> !k.chClosed && k.wg > 0)
            && (k.producer.Flushing? || k.producer.ClosingCh? ==> !k.chClosed)
            && (k.producer.Added? || k.producer.ClosingSem? ==> !k.semClosed)
  {
    RunKeepsInv(c, steps);
    var s := Execute(c, steps).value;
    assert s.ctl.running != {} ==> |s.ctl.running| > 0;
  }

  /** No array is lost, repeated or reordered on the way: at every moment the records received
      from an array are a prefix of the ones its worker has to send. */
  lemma ReceivedInOrder<T>(c: Setup<T>, steps: seq<Step>, a: string)
    requires Execute(c, steps).Some? && a in c.out
    ensures From(Some(a), Execute(c, steps).value.received) <= c.out[a]
  {
    RunKeepsInv(c, steps);
  }

  // ---------------------------------------------------------------- termination

  ghost function Unsent<T>(rest: map<string, seq<T>>, keys: set<string>): nat
    requires keys <= rest.Keys
  {
    if keys == {} then 0 else
      var k :| k in keys;
      |rest[k]| + Unsent(rest, keys - {k})
  }

  lemma {:induction false} UnsentRemove<T>(rest: map<string, seq<T>>, keys: set<string>, k: string)
    requires k in keys && keys <= rest.Keys
    ensures Unsent(rest, keys) == |rest[k]| + Unsent(rest, keys - {k})
  {
    var p :| p in keys && Unsent(rest, keys) == |rest[p]| + Unsent(rest, keys - {p});
    if p != k {
      UnsentRemove(rest, keys - {p}, k);
      UnsentRemove(rest, keys - {k}, p);
      assert keys - {p} - {k} == keys - {k} - {p};
    }
  }

  lemma {:induction false} UnsentUpdate<T>(rest: map<string, seq<T>>, keys: set<string>, k: string, v: seq<T>)
    requires keys <= rest.Keys && k !in keys
    ensures Unsent(rest[k := v], keys) == Unsent(rest, keys)
  {
    if keys != {} {
      var p :| p in keys;
      UnsentRemove(rest, keys, p);
      UnsentRemove(rest[k := v], keys, p);
      UnsentUpdate(rest, keys - {p}, k, v);
    }
  }

  function Ahead(p: Producer): nat {
    match p
    case Looping => 5
    case Added(_) => 9
    case Acquired(_) => 8
    case Flushing => 4
    case Waiting => 3
    case ClosingCh => 2
    case ClosingSem => 1
    case Finished => 0
  }

  /** Steps other than sends that can still be taken, at most. */
  function Work(k: Control): nat {
    5 * |k.pending| + Ahead(k.producer) + 2 * |k.running| + |k.releasing| + (if k.drained then 0 else 1)
  }

  lemma StepLowersWork(limit: nat, k: Control, step: Step)
    requires Ready(limit, k, step) && !step.Send?
    ensures Work(ControlAfter(limit, k, step)) < Work(k)
  {
    match step
    case Add(a) => SizeRemove(k.pending, a);
    case Spawn => SizeAdd(k.running, k.producer.id);
    case Done(a) => DoneMovesWorker(limit, k, a);
    case Release(a) => SizeRemove(k.releasing, a);
    case _ =>
  }

  /** Steps that can still be taken, at most. */
  ghost function Measure<T>(s: State<T>): nat { Unsent(s.rest, s.rest.Keys) + Work(s.ctl) }

  lemma SendLowersUnsent<T>(rest: map<string, seq<T>>, a: string)
    requires a in rest && rest[a] != []
    ensures var rest' := rest[a := rest[a][1..]]; Unsent(rest', rest'.Keys) < Unsent(rest, rest.Keys)
  {
    var rest' := rest[a := rest[a][1..]];
    assert rest'.Keys == rest.Keys;
    UnsentRemove(rest, rest.Keys, a);
    UnsentRemove(rest', rest.Keys, a);
    UnsentUpdate(rest, rest.Keys - {a}, a, rest[a][1..]);
  }

  lemma StepLowersMeasure<T>(c: Setup<T>, s: State<T>, step: Step)
    requires Enabled(c, s, step)
    ensures Measure(Apply(c, s, step)) < Measure(s)
  {
    match step
    case Send(a) => SendLowersUnsent(s.rest, a);
    case _ => StepLowersWork(c.limit, s.ctl, step);
  }

  /** No run is longer than a bound known at the start. */
  lemma {:induction false} RunsAreBounded<T>(c: Setup<T>, steps: seq<Step>)
    requires Execute(c, steps).Some?
    ensures |steps| + Measure(Execute(c, steps).value) <= Measure(Init(c))
  {
    if steps != [] {
      var before := steps[..|steps| - 1];
      RunsAreBounded(c, before);
      RunKeepsInv(c, before);
      StepLowersMeasure(c, Execute(c, before).value, steps[|steps| - 1]);
    }
  }

  /** With a limit of at least one, some goroutine can move in every state that is not final. */
  lemma CanStep<T>(c: Setup<T>, s: State<T>) returns (step: Step)
    requires Inv(c, s) && c.limit >= 1 && !Final(s)
    ensures Enabled(c, s, step)
  {
    match s.ctl.producer {
      case Looping =>
        if s.ctl.pending == {} {
          step := EndLoop;
        } else {
          var a :| a in s.ctl.pending;
          step := Add(a);
        }
      case Added(_) =>
        if s.ctl.tokens < c.limit {
          step := Acquire;
        } else {
          step := WorkerCanStep(c, s);
        }
      case Acquired(_) => step := Spawn;
      case Flushing => step := SendPlaceholder;
      case Waiting =>
        if s.ctl.wg == 0 {
          step := Wait;
        } else {
          step := WorkerCanStep(c, s);
        }
      case ClosingCh => step := CloseCh;
      case ClosingSem => step := CloseSem;
      case Finished =>
        if !s.ctl.drained {
          step := Drain;
        } else {
          step := WorkerCanStep(c, s);
        }
    }
  }

  lemma WorkerCanStep<T>(c: Setup<T>, s: State<T>) returns (step: Step)
    requires Inv(c, s) && (s.ctl.running != {} || s.ctl.releasing != {})
    ensures Enabled(c, s, step)
  {
    if s.ctl.running != {} {
      var a :| a in s.ctl.running;
      step := if s.rest[a] == [] then Done(a) else Send(a);
    } else {
      var a :| a in s.ctl.releasing;
      assert |s.ctl.releasing| > 0;
      step := Release(a);
    }
  }

  /** With a limit of zero (an unbuffered `sem`) the first worker is never started. */
  lemma {:induction false} LimitZeroStartsNothing<T>(c: Setup<T>, steps: seq<Step>)
    requires c.limit == 0 && c.out.Keys != {} && Execute(c, steps).Some?
    ensures var s := Execute(c, steps).value;
            || s.ctl.producer.Added?
            || (s.ctl.producer.Looping? && s.ctl.pending == c.out.Keys && s.ctl.running == s.ctl.releasing == {})
    ensures var s := Execute(c, steps).value;
            s.ctl.running == s.ctl.releasing == {} && !s.ctl.chClosed
  {
    if steps != [] {
      LimitZeroStartsNothing(c, steps[..|steps| - 1]);
    }
  }

  /** A run that cannot go on has completed, if and only if the limit is at least one or there is
      nothing to do. Every run gets to such a point, because runs are bounded. */
  lemma StuckMeansComplete<T>(c: Setup<T>, steps: seq<Step>)
    requires Execute(c, steps).Some? && Stuck(c, Execute(c, steps).value)
    ensures Final(Execute(c, steps).value) <==> c.limit >= 1 || c.out.Keys == {}
  {
    var s := Execute(c, steps).value;
    RunKeepsInv(c, steps);
    if c.limit == 0 && c.out.Keys != {} {
      LimitZeroStartsNothing(c, steps);
    } else if !Final(s) {
      if c.limit >= 1 {
        var step := CanStep(c, s);
      } else {
        EmptyPoolCanStep(c, s);
      }
    }
  }

  lemma EmptyPoolCanStep<T>(c: Setup<T>, s: State<T>)
    requires Inv(c, s) && c.out.Keys == {} && !Final(s)
    ensures exists step :: Enabled(c, s, step)
  {
    assert s.ctl.running == {} && s.ctl.releasing == {} && s.ctl.pending == {};
    var step := match s.ctl.producer
      case Looping => EndLoop
      case Flushing => SendPlaceholder
      case Waiting => Wait
      case ClosingCh => CloseCh
      case ClosingSem => CloseSem
      case _ => Drain;
    assert Enabled(c, s, step);
  }

  /** Every run can be completed, and by going on in any way: there is always a next step, and runs
      are bounded. */
  lemma EveryRunCompletes<T>(c: Setup<T>, steps: seq<Step>) returns (all: seq<Step>)
    requires c.limit >= 1 || c.out.Keys == {}
    requires Execute(c, steps).Some?
    ensures steps <= all && Execute(c, all).Some? && Final(Execute(c, all).value)
    decreases Measure(Execute(c, steps).value)
  {
    var s := Execute(c, steps).value;
    if Final(s) {
      return steps;
    }
    RunKeepsInv(c, steps);
    if c.limit == 0 {
      EmptyPoolCanStep(c, s);
    } else {
      var possible := CanStep(c, s);
    }
    var step :| Enabled(c, s, step);
    StepLowersMeasure(c, s, step);
    assert (steps + [step])[..|steps|] == steps;
    all := EveryRunCompletes(c, steps + [step]);
  }

  /** What a completed run has delivered: each array's records exactly once and in order, and the
      placeholder exactly when there was no array. */
  lemma CompleteRunDelivers<T>(c: Setup<T>, steps: seq<Step>)
    requires Execute(c, steps).Some? && Final(Execute(c, steps).value)
    ensures var items := Execute(c, steps).value.received;
            && (forall a :: a in c.out ==> From(Some(a), items) == c.out[a])
            && (forall a :: a !in c.out ==> From(Some(a), items) == [])
            && From(None, items) == (if c.out.Keys == {} then [c.placeholder] else [])
  {
    RunKeepsInv(c, steps);
    var s := Execute(c, steps).value;
    forall a | a !in c.out
      ensures From(Some(a), s.received) == []
    {
      FromAbsent(Some(a), s.received);
    }
  }

  lemma {:induction false} InFrom<T>(source: Option<string>, items: seq<Item<T>>, i: nat)
    requires i < |items| && items[i].source == source
    ensures items[i].payload in From(source, items)
  {
    if i < |items| - 1 {
      InFrom(source, items[..|items| - 1], i);
    }
  }

  /** What is delivered was sent by a worker of the run, or is the placeholder. */
  lemma DeliveredItem<T>(c: Setup<T>, steps: seq<Step>, i: nat)
    requires Execute(c, steps).Some? && Final(Execute(c, steps).value)
    requires i < |Execute(c, steps).value.received|
    ensures var item := Execute(c, steps).value.received[i];
            if item.source.Some? then item.source.value in c.out && item.payload in c.out[item.source.value]
            else c.out.Keys == {} && item.payload == c.placeholder
  {
    var items := Execute(c, steps).value.received;
    CompleteRunDelivers(c, steps);
    InFrom(items[i].source, items, i);
  }

  /** A completed run delivers nothing at all, not even the placeholder, if and only if there is an
      array and no worker has a record. */
  lemma NothingDeliveredIff<T>(c: Setup<T>, steps: seq<Step>)
    requires Execute(c, steps).Some? && Final(Execute(c, steps).value)
    ensures Execute(c, steps).value.received == [] <==> c.out.Keys != {} && forall a :: a in c.out ==> c.out[a] == []
  {
    var items := Execute(c, steps).value.received;
    CompleteRunDelivers(c, steps);
    if items != [] {
      DeliveredItem(c, steps, 0);
    } else {
      assert From(None, items) == [];
      forall a | a in c.out
        ensures c.out[a] == []
      {
        assert From(Some(a), items) == [];
      }
    }
  }

  /** The records of one array in a stream, by the array each record names. */
  function OfArray<T>(arrayOf: T -> string, a: string, xs: seq<T>): seq<T> {
    if xs == [] then []
    else
      var n := |xs| - 1;
      OfArray(arrayOf, a, xs[..n]) + if arrayOf(xs[n]) == a then [xs[n]] else []
  }

  lemma {:induction false} OfArrayIsFrom<T>(items: seq<Item<T>>, arrayOf: T -> string, a: string)
    requires forall i :: 0 <= i < |items| ==> items[i].source == Some(arrayOf(items[i].payload))
    ensures OfArray(arrayOf, a, Payloads(items)) == From(Some(a), items)
  {
    if items != [] {
      var n := |items| - 1;
      OfArrayIsFrom(items[..n], arrayOf, a);
      assert Payloads(items)[..n] == Payloads(items[..n]);
    }
  }

  /** When every record names its own array, the records of an array in the stream of a completed
      run are exactly its worker's output, in order, in any schedule. */
  lemma StreamOfArray<T>(c: Setup<T>, steps: seq<Step>, arrayOf: T -> string, a: string)
    requires Execute(c, steps).Some? && Final(Execute(c, steps).value)
    requires forall b, i :: b in c.out && 0 <= i < |c.out[b]| ==> arrayOf(c.out[b][i]) == b
    requires a in c.out
    ensures OfArray(arrayOf, a, Payloads(Execute(c, steps).value.received)) == c.out[a]
  {
    var items := Execute(c, steps).value.received;
    forall i | 0 <= i < |items|
      ensures items[i].source == Some(arrayOf(items[i].payload))
    {
      DeliveredItem(c, steps, i);
    }
    OfArrayIsFrom(items, arrayOf, a);
    CompleteRunDelivers(c, steps);
  }

  lemma {:induction false} FromAbsent<T>(source: Option<string>, items: seq<Item<T>>)
    requires forall i :: 0 <= i < |items| ==> items[i].source != source
    ensures From(source, items) == []
  {
    if items != [] {
      FromAbsent(source, items[..|items| - 1]);
    }
  }

  lemma {:induction false} CountFrom<T>(source: Option<string>, payload: T, items: seq<Item<T>>)
    ensures multiset(items)[Item(source, payload)] == multiset(From(source, items))[payload]
  {
    if items != [] {
      var front := items[..|items| - 1];
      CountFrom(source, payload, front);
      assert items == front + [items[|items| - 1]];
    }
  }

  function Payloads<T>(items: seq<Item<T>>): seq<T> {
    Map((item: Item<T>) => item.payload, items)
  }

  lemma SameItemCount<T>(r: seq<Item<T>>, r': seq<Item<T>>, item: Item<T>)
    requires From(item.source, r) == From(item.source, r')
    ensures multiset(r)[item] == multiset(r')[item]
  {
    CountFrom(item.source, item.payload, r);
    CountFrom(item.source, item.payload, r');
  }

  /** Any two completed runs deliver the same multiset of records, whatever the scheduling. */
  lemma ScheduleIndependent<T(!new)>(c: Setup<T>, steps: seq<Step>, steps': seq<Step>)
    requires Execute(c, steps).Some? && Final(Execute(c, steps).value)
    requires Execute(c, steps').Some? && Final(Execute(c, steps').value)
    ensures multiset(Payloads(Execute(c, steps).value.received))
         == multiset(Payloads(Execute(c, steps').value.received))
  {
    var r, r' := Execute(c, steps).value.received, Execute(c, steps').value.received;
    forall source
      ensures From(source, r) == From(source, r')
    {
      CompleteRunDelivers(c, steps);
      CompleteRunDelivers(c, steps');
      if source.Some? && source.value in c.out {
        assert From(source, r) == c.out[source.value];
      }
    }
    forall item: Item<T>
      ensures multiset(r)[item] == multiset(r')[item]
    {
      SameItemCount(r, r', item);
    }
    MapPermutation((item: Item<T>) => item.payload, r, r');
  }

  // ---------------------------------------------------------------- what runs there are

  /** A run goes on by any step that is enabled. */
  lemma GoOn<T>(c: Setup<T>, steps: seq<Step>, step: Step)
    requires Execute(c, steps).Some? && Enabled(c, Execute(c, steps).value, step)
    ensures Execute(c, steps + [step]) == Some(Apply(c, Execute(c, steps).value, step))
  {
    assert (steps + [step])[..|steps|] == steps;
  }

  function Started(k: Control, ws: set<string>): Control {
    k.(exported := k.exported || ws != {}, pending := k.pending - ws, running := k.running + ws,
       wg := k.wg + |ws|, tokens := k.tokens + |ws|)
  }

  function Ended(k: Control, rs: set<string>): Control {
    k.(running := k.running - rs, releasing := k.releasing + rs, wg := k.wg - |rs|)
  }

  lemma StartWorker<T>(c: Setup<T>, steps: seq<Step>, a: string) returns (more: seq<Step>)
    requires Execute(c, steps).Some?
    requires var k := Execute(c, steps).value.ctl;
             k.producer.Looping? && a in k.pending && k.tokens < c.limit
    ensures Execute(c, more).Some?
    ensures var s := Execute(c, steps).value;
            Execute(c, more).value == s.(ctl := Started(s.ctl, {a}))
  {
    GoOn(c, steps, Add(a));
    GoOn(c, steps + [Add(a)], Acquire);
    GoOn(c, steps + [Add(a)] + [Acquire], Spawn);
    more := steps + [Add(a)] + [Acquire] + [Spawn];
  }

  lemma StartAll<T>(c: Setup<T>, steps: seq<Step>, ws: set<string>) returns (more: seq<Step>)
    requires Execute(c, steps).Some?
    requires var k := Execute(c, steps).value.ctl;
             k.producer.Looping? && ws <= k.pending && k.tokens + |ws| <= c.limit
    ensures Execute(c, more).Some?
    ensures var s := Execute(c, steps).value;
            Execute(c, more).value == s.(ctl := Started(s.ctl, ws))
    decreases ws
  {
    var s := Execute(c, steps).value;
    if ws == {} {
      assert s.ctl.pending - ws == s.ctl.pending && s.ctl.running + ws == s.ctl.running;
      return steps;
    }
    var a :| a in ws;
    SizeRemove(ws, a);
    more := StartWorker(c, steps, a);
    more := StartAll(c, more, ws - {a});
    StartedStep(s.ctl, ws, a);
  }

  lemma StartedStep(k: Control, ws: set<string>, a: string)
    requires a in ws
    ensures Started(Started(k, {a}), ws - {a}) == Started(k, ws)
  {
    SizeRemove(ws, a);
    assert k.pending - {a} - (ws - {a}) == k.pending - ws;
    assert k.running + {a} + (ws - {a}) == k.running + ws;
  }

  lemma SendRest<T>(c: Setup<T>, steps: seq<Step>, a: string) returns (more: seq<Step>)
    requires Execute(c, steps).Some? && a in c.out && a in Execute(c, steps).value.ctl.running
    ensures Execute(c, more).Some?
    ensures Execute(c, more).value.ctl == Execute(c, steps).value.ctl
    ensures a in Execute(c, more).value.rest && Execute(c, more).value.rest[a] == []
    decreases |if a in Execute(c, steps).value.rest then Execute(c, steps).value.rest[a] else []|
  {
    RunKeepsInv(c, steps);
    var s := Execute(c, steps).value;
    if s.rest[a] == [] {
      return steps;
    }
    GoOn(c, steps, Send(a));
    more := SendRest(c, steps + [Send(a)], a);
  }

  lemma EndWorker<T>(c: Setup<T>, steps: seq<Step>, a: string) returns (more: seq<Step>)
    requires Execute(c, steps).Some? && a in c.out && a in Execute(c, steps).value.ctl.running
    ensures Execute(c, more).Some?
    ensures Execute(c, more).value.ctl == Ended(Execute(c, steps).value.ctl, {a})
  {
    more := SendRest(c, steps, a);
    GoOn(c, more, Done(a));
    more := more + [Done(a)];
  }

  lemma EndAll<T>(c: Setup<T>, steps: seq<Step>, rs: set<string>) returns (more: seq<Step>)
    requires Execute(c, steps).Some? && rs <= c.out.Keys && rs <= Execute(c, steps).value.ctl.running
    ensures Execute(c, more).Some?
    ensures Execute(c, more).value.ctl == Ended(Execute(c, steps).value.ctl, rs)
    decreases rs
  {
    var k := Execute(c, steps).value.ctl;
    if rs == {} {
      assert k.running - rs == k.running && k.releasing + rs == k.releasing;
      return steps;
    }
    var a :| a in rs;
    more := EndWorker(c, steps, a);
    more := EndAll(c, more, rs - {a});
    EndedStep(k, rs, a);
  }

  lemma EndedStep(k: Control, rs: set<string>, a: string)
    requires a in rs
    ensures Ended(Ended(k, {a}), rs - {a}) == Ended(k, rs)
  {
    SizeRemove(rs, a);
    assert k.running - {a} - (rs - {a}) == k.running - rs;
    assert k.releasing + {a} + (rs - {a}) == k.releasing + rs;
  }

  /** The workers are not serialized: any arrays, up to the limit, can be running at once while any
      others have ended and not given their token back. */
  lemma AnyWorkersTogether<T>(c: Setup<T>, ws: set<string>, rs: set<string>) returns (steps: seq<Step>)
    requires ws <= c.out.Keys && rs <= c.out.Keys && ws !! rs && |ws| + |rs| <= c.limit
    ensures Execute(c, steps).Some?
    ensures var k := Execute(c, steps).value.ctl;
            k.running == ws && k.releasing == rs && k.tokens == |ws| + |rs|
  {
    assert |ws + rs| == |ws| + |rs|;
    steps := StartAll(c, [], ws + rs);
    steps := EndAll(c, steps, rs);
    assert ws + rs - rs == ws;
  }

  /** Arrays one after the other, each worker gone before the next is started. */
  lemma PassAll<T>(c: Setup<T>, steps: seq<Step>, os: set<string>) returns (more: seq<Step>)
    requires Execute(c, steps).Some? && os <= c.out.Keys
    requires var k := Execute(c, steps).value.ctl;
             k.producer.Looping? && os <= k.pending && k.tokens < c.limit && k.running == k.releasing == {}
    ensures Execute(c, more).Some?
    ensures var k, k' := Execute(c, steps).value.ctl, Execute(c, more).value.ctl;
            && k'.producer.Looping? && k'.pending == k.pending - os && k'.tokens == k.tokens
            && k'.running == k'.releasing == {} && k'.exported == (k.exported || os != {})
    decreases os
  {
    if os == {} {
      return steps;
    }
    var a :| a in os;
    more := StartWorker(c, steps, a);
    more := EndWorker(c, more, a);
    GoOn(c, more, Release(a));
    more := more + [Release(a)];
    more := PassAll(c, more, os - {a});
  }

  lemma CloseUp<T>(c: Setup<T>, steps: seq<Step>) returns (more: seq<Step>)
    requires Execute(c, steps).Some?
    requires var k := Execute(c, steps).value.ctl;
             k.producer.Looping? && k.pending == k.running == {} && k.exported && k.wg == 0
    ensures Execute(c, more).Some?
    ensures Execute(c, more).value.ctl.semClosed
    ensures Execute(c, more).value.ctl.releasing == Execute(c, steps).value.ctl.releasing
  {
    GoOn(c, steps, EndLoop);
    GoOn(c, steps + [EndLoop], Wait);
    GoOn(c, steps + [EndLoop] + [Wait], CloseCh);
    GoOn(c, steps + [EndLoop] + [Wait] + [CloseCh], CloseSem);
    more := steps + [EndLoop] + [Wait] + [CloseCh] + [CloseSem];
  }

  /** Workers can be left that have not given their token back when sem is closed: any of the
      arrays, up to the limit. */
  lemma TokensHeldAfterClose<T>(c: Setup<T>, rs: set<string>) returns (steps: seq<Step>)
    requires rs <= c.out.Keys && rs != {} && |rs| <= c.limit
    ensures Execute(c, steps).Some?
    ensures Execute(c, steps).value.ctl.semClosed && Execute(c, steps).value.ctl.releasing == rs
  {
    assert |rs| > 0;
    var passed := PassAll(c, [], c.out.Keys - rs);
    assert c.out.Keys - (c.out.Keys - rs) == rs;
    var started := StartAll(c, passed, rs);
    var ended := EndAll(c, started, rs);
    assert Counts(c.limit, Execute(c, ended).value.ctl) by {
      RunKeepsInv(c, ended);
    }
    steps := CloseUp(c, ended);
  }

  /** A sequence of the arrays' records that keeps the order of each array's own. */
  ghost predicate IsInterleaving<T>(c: Setup<T>, items: seq<Item<T>>) {
    && (forall i :: 0 <= i < |items| ==> items[i].source.Some? && items[i].source.value in c.out)
    && (forall a :: a in c.out ==> From(Some(a), items) == c.out[a])
  }

  lemma {:induction false} FromConcat<T>(source: Option<string>, xs: seq<Item<T>>, ys: seq<Item<T>>)
    ensures From(source, xs + ys) == From(source, xs) + From(source, ys)
  {
    if ys == [] {
      assert xs + ys == xs;
    } else {
      FromConcat(source, xs, ys[..|ys| - 1]);
      assert (xs + ys)[..|xs + ys| - 1] == xs + ys[..|ys| - 1];
    }
  }

  /** After the first k records the next is the head of what its array has not sent. */
  lemma NextToSend<T>(c: Setup<T>, items: seq<Item<T>>, k: nat, rest: seq<T>)
    requires IsInterleaving(c, items) && k < |items|
    requires From(items[k].source, items[..k]) + rest == c.out[items[k].source.value]
    ensures rest != [] && rest[0] == items[k].payload
  {
    var item, later := items[k], items[k + 1..];
    assert items == items[..k] + ([item] + later);
    FromConcat(item.source, items[..k], [item] + later);
    FromConcat(item.source, [item], later);
    assert [item][..0] == [];
    assert From(item.source, [item]) == [item.payload];
    NextOf(From(item.source, items[..k]), rest, item.payload, From(item.source, later));
  }

  /** What the invariant says of an array whose worker runs. */
  ghost predicate CanSendRest<T>(c: Setup<T>, s: State<T>, a: string) {
    && a in c.out && a in s.rest && a in s.ctl.running && !s.ctl.drained
    && From(Some(a), s.received) + s.rest[a] == c.out[a]
  }

  lemma RunningCanSend<T>(c: Setup<T>, s: State<T>, a: string)
    requires Inv(c, s) && a in s.ctl.running
    ensures CanSendRest(c, s, a)
  {
  }

  lemma SendNext<T>(c: Setup<T>, items: seq<Item<T>>, k: nat, s: State<T>)
    requires IsInterleaving(c, items) && k < |items| && s.received == items[..k]
    requires CanSendRest(c, s, items[k].source.value)
    ensures var step := Send(items[k].source.value);
            && Enabled(c, s, step)
            && Apply(c, s, step).ctl == s.ctl
            && Apply(c, s, step).received == items[..k + 1]
  {
    var a := items[k].source.value;
    NextToSend(c, items, k, s.rest[a]);
    assert Item(Some(a), s.rest[a][0]) == items[k];
    assert items[..k + 1] == items[..k] + [items[k]];
  }

  lemma StartEvery<T>(c: Setup<T>) returns (steps: seq<Step>)
    requires |c.out.Keys| <= c.limit
    ensures Execute(c, steps).Some?
    ensures Execute(c, steps).value.ctl.running == c.out.Keys && Execute(c, steps).value.received == []
  {
    steps := StartAll(c, [], c.out.Keys);
  }

  /** A run that has started every worker and received the first k records. */
  ghost predicate HasSent<T>(c: Setup<T>, items: seq<Item<T>>, k: nat, steps: seq<Step>)
    requires k <= |items|
  {
    && Execute(c, steps).Some?
    && Execute(c, steps).value.ctl.running == c.out.Keys
    && Execute(c, steps).value.received == items[..k]
  }

  lemma SendOne<T>(c: Setup<T>, items: seq<Item<T>>, k: nat, steps: seq<Step>)
    requires IsInterleaving(c, items) && k < |items| && HasSent(c, items, k, steps)
    ensures HasSent(c, items, k + 1, steps + [Send(items[k].source.value)])
  {
    var s, step := Execute(c, steps).value, Send(items[k].source.value);
    assert CanSendRest(c, s, items[k].source.value) by {
      RunKeepsInv(c, steps);
      RunningCanSend(c, s, items[k].source.value);
    }
    SendNext(c, items, k, s);
    GoOn(c, steps, step);
  }

  lemma SendInOrder<T>(c: Setup<T>, items: seq<Item<T>>, k: nat) returns (steps: seq<Step>)
    requires IsInterleaving(c, items) && k <= |items| && |c.out.Keys| <= c.limit
    ensures HasSent(c, items, k, steps)
  {
    if k == 0 {
      steps := StartEvery(c);
    } else {
      var before := SendInOrder(c, items, k - 1);
      SendOne(c, items, k - 1, before);
      steps := before + [Send(items[k - 1].source.value)];
    }
  }

  lemma NextOf<T>(sent: seq<T>, rest: seq<T>, x: T, later: seq<T>)
    requires sent + rest == sent + ([x] + later)
    ensures rest != [] && rest[0] == x
  {
    assert rest == (sent + rest)[|sent|..] == [x] + later;
  }

  lemma {:induction false} ReceivedGrows<T>(c: Setup<T>, steps: seq<Step>, all: seq<Step>)
    requires steps <= all && Execute(c, all).Some?
    ensures Execute(c, steps).Some? && Execute(c, steps).value.received <= Execute(c, all).value.received
    decreases |all|
  {
    if |steps| < |all| {
      ReceivedGrows(c, steps, all[..|all| - 1]);
    } else {
      assert steps == all;
    }
  }

  /** With a limit of at least the number of arrays, every interleaving of their records is what some
      completed run delivers: no order is favoured. */
  lemma EveryInterleavingIsDelivered<T>(c: Setup<T>, items: seq<Item<T>>) returns (steps: seq<Step>)
    requires IsInterleaving(c, items) && c.out.Keys != {} && |c.out.Keys| <= c.limit
    ensures Execute(c, steps).Some? && Final(Execute(c, steps).value) && Execute(c, steps).value.received == items
  {
    assert |c.out.Keys| > 0;
    var sent := SendInOrder(c, items, |items|);
    assert items[..|items|] == items;
    steps := EveryRunCompletes(c, sent);
    ReceivedGrows(c, sent, steps);
    CompleteRunDelivers(c, steps);
    var received := Execute(c, steps).value.received;
    var extra := received[|items|..];
    assert received == items + extra;
    if extra != [] {
      DeliveredItem(c, steps, |items|);
      FromConcat(received[|items|].source, items, extra);
      InFrom(received[|items|].source, extra, 0);
      assert false;
    }
  }
}
