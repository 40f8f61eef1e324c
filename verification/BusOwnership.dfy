/** Who owns the python-can bus: `_open`, `_close`, `start`, `stop`, `send` and
    `_run` of naviq_mts160/naviq_mts160/canbus.py at the granularity of
    `_bus_lock`, with one thread that calls `start` once, the reader thread, and
    any number of threads that call `send` and `stop` at any time.

    A step that is not enabled changes nothing, so every sequence of steps is a run. */
module BusOwnership {
  import opened Bytes

  /** Inside `start`: about to call `can.Bus`, holding a fresh bus, about to clear the stop flag, ... */
  datatype Starter =
    | NotCalled
    | StartOpening
    | StartOpened(bus: nat)
    | StartClearing
    | StartSpawning
    | StartReturned

  /** Inside `_run`; `Looking` is past the test of the stop flag, `Shut` past the swap in `_close`. */
  datatype Reader =
    | NotSpawned
    | Testing
    | Looking
    | Opening
    | Opened(bus: nat)
    | Receiving(bus: nat)
    | Closing
    | Shutting(victim: Option<nat>)
    | Exited

  /** A thread inside `send` or `stop`; `afterExit` says that the reader had exited when `join` returned. */
  datatype Caller =
    | Outside
    | SendLooking
    | Sending(bus: nat)
    | Joining
    | CallerClosing(afterExit: bool)
    | CallerShutting(victim: Option<nat>)

  /** `bus` is the field `_bus`; buses are numbered in the order they are opened; `down` logs the
      calls of `shutdown`; `cleared` is history: a `stop` emptied the field after the reader exited. */
  datatype State = State(
    bus: Option<nat>, stopping: bool, count: nat, down: seq<nat>, cleared: bool,
    starter: Starter, reader: Reader, callers: map<nat, Caller>)
  {
    function CallerAt(t: nat): Caller { if t in callers then callers[t] else Outside }

    function Store(b: nat): State { this.(bus := Some(b)) }
  }

  datatype Step =
    | CallStart(openNow: bool)
    | StarterOpens | StarterOpenFails | StarterStores | StarterClears | StarterSpawns
    | ReaderTests | ReaderLooks | ReaderOpens | ReaderOpenFails | ReaderStores
    | ReaderReceives | ReaderFails | ReaderSwaps | ReaderShuts
    | CallSend(t: nat) | SendLooks(t: nat) | SendSucceeds(t: nat) | SendFails(t: nat)
    | CallStop(t: nat) | JoinReturns(t: nat)
    | CallerSwaps(t: nat) | CallerShuts(t: nat)

  const INITIAL := State(None, false, 0, [], false, NotCalled, NotSpawned, map[])

  function Shutdown(down: seq<nat>, victim: Option<nat>): seq<nat> {
    match victim { case Some(b) => down + [b] case None => down }
  }

  function Apply(s: State, step: Step): State {
    match step
    case CallStart(openNow) =>
      if s.starter.NotCalled? then s.(starter := if openNow then StartOpening else StartClearing) else s
    case StarterOpens =>
      if s.starter.StartOpening? then s.(starter := StartOpened(s.count), count := s.count + 1) else s
    case StarterOpenFails =>
      if s.starter.StartOpening? then s.(starter := StartClearing) else s
    case StarterStores =>
      if s.starter.StartOpened? then s.Store(s.starter.bus).(starter := StartClearing) else s
    case StarterClears =>
      if s.starter.StartClearing? then s.(starter := StartSpawning, stopping := false) else s
    case StarterSpawns =>
      if s.starter.StartSpawning? then s.(starter := StartReturned, reader := Testing) else s
    case ReaderTests =>
      if s.reader.Testing? then s.(reader := if s.stopping then Exited else Looking) else s
    case ReaderLooks =>
      if s.reader.Looking? then
        s.(reader := match s.bus { case None => Opening case Some(b) => Receiving(b) })
      else s
    case ReaderOpens =>
      if s.reader.Opening? then s.(reader := Opened(s.count), count := s.count + 1) else s
    case ReaderOpenFails =>
      if s.reader.Opening? then s.(reader := Testing) else s
    case ReaderStores =>
      if s.reader.Opened? then s.Store(s.reader.bus).(reader := Testing) else s
    case ReaderReceives =>
      if s.reader.Receiving? then s.(reader := Testing) else s
    case ReaderFails =>
      if s.reader.Receiving? then s.(reader := Closing) else s
    case ReaderSwaps =>
      if s.reader.Closing? then s.(reader := Shutting(s.bus), bus := None) else s
    case ReaderShuts =>
      if s.reader.Shutting? then s.(reader := Testing, down := Shutdown(s.down, s.reader.victim)) else s
    case CallSend(t) =>
      if s.CallerAt(t).Outside? then s.(callers := s.callers[t := SendLooking]) else s
    case SendLooks(t) =>
      if s.CallerAt(t).SendLooking? then
        s.(callers := s.callers[t := match s.bus { case None => Outside case Some(b) => Sending(b) }])
      else s
    case SendSucceeds(t) =>
      if s.CallerAt(t).Sending? then s.(callers := s.callers[t := Outside]) else s
    case SendFails(t) =>
      if s.CallerAt(t).Sending? then s.(callers := s.callers[t := CallerClosing(false)]) else s
    case CallStop(t) =>
      if s.CallerAt(t).Outside? then s.(callers := s.callers[t := Joining], stopping := true) else s
    case JoinReturns(t) =>
      // join may also time out, and there is nothing to join before `start` has spawned the reader
      if s.CallerAt(t).Joining? then s.(callers := s.callers[t := CallerClosing(s.reader.Exited?)]) else s
    case CallerSwaps(t) =>
      if s.CallerAt(t).CallerClosing? then
        s.(callers := s.callers[t := CallerShutting(s.bus)], bus := None,
           cleared := s.cleared || s.CallerAt(t).afterExit)
      else s
    case CallerShuts(t) =>
      if s.CallerAt(t).CallerShutting? then
        s.(callers := s.callers[t := Outside], down := Shutdown(s.down, s.CallerAt(t).victim))
      else s
  }

  function Run(s: State, steps: seq<Step>): State
    decreases |steps|
  {
    if steps == [] then s else Apply(Run(s, steps[..|steps| - 1]), steps[|steps| - 1])
  }

  // --------------------------------------------------------------- ownership

  /** The places a bus object can be: the k-th shutdown call is one too, so a bus shut down twice
      would be in two places. */
  datatype Place =
    | InField
    | WithStarter
    | WithOpeningReader
    | WithClosingReader
    | WithCaller(t: nat)
    | ShutDown(k: nat)

  ghost predicate At(s: State, b: nat, p: Place) {
    match p
    case InField => s.bus == Some(b)
    case WithStarter => s.starter == StartOpened(b)
    case WithOpeningReader => s.reader == Opened(b)
    case WithClosingReader => s.reader == Shutting(Some(b))
    case WithCaller(t) => s.CallerAt(t) == CallerShutting(Some(b))
    case ShutDown(k) => k < |s.down| && s.down[k] == b
  }

  /** Who may be opening: never two threads, and never while the field is set. */
  ghost predicate Exclusive(s: State) {
    && (s.starter.StartReturned? <==> !s.reader.NotSpawned?)
    && (s.starter.NotCalled? || s.starter.StartOpening? || s.starter.StartOpened? ==> s.bus.None?)
    && (s.reader.Opening? || s.reader.Opened? ==> s.bus.None?)
    && (s.cleared ==> s.reader.Exited? && s.starter.StartReturned? && s.bus.None?)
    && (forall t :: s.CallerAt(t) == CallerClosing(true) ==> s.reader.Exited?)
  }

  /** `place` says where every opened bus is, and a bus is nowhere else. */
  ghost predicate Placed(s: State, place: map<nat, Place>) {
    && (forall b: nat :: b in place <==> b < s.count)
    && (forall b: nat, p :: At(s, b, p) <==> b in place && place[b] == p)
  }

  lemma CallersAfter(s: State, step: Step, t: nat)
    ensures Apply(s, step).CallerAt(t) == CallerClosing(true) ==>
              s.CallerAt(t) == CallerClosing(true) || (step == JoinReturns(t) && s.reader.Exited?)
  {
  }

  lemma StepExclusive(s: State, step: Step)
    requires Exclusive(s)
    ensures Exclusive(Apply(s, step))
  {
    forall t | Apply(s, step).CallerAt(t) == CallerClosing(true) ensures Apply(s, step).reader.Exited? {
      CallersAfter(s, step, t);
    }
  }

  /** The one bus a step moves, from where, and where to. */
  datatype Motion = Still | Fresh(to: Place) | Move(bus: nat, from: Place, to: Place)

  function MotionOf(s: State, step: Step): Motion {
    match step
    case StarterOpens => if s.starter.StartOpening? then Fresh(WithStarter) else Still
    case ReaderOpens => if s.reader.Opening? then Fresh(WithOpeningReader) else Still
    case StarterStores => if s.starter.StartOpened? then Move(s.starter.bus, WithStarter, InField) else Still
    case ReaderStores => if s.reader.Opened? then Move(s.reader.bus, WithOpeningReader, InField) else Still
    case ReaderSwaps =>
      if s.reader.Closing? && s.bus.Some? then Move(s.bus.value, InField, WithClosingReader) else Still
    case CallerSwaps(t) =>
      if s.CallerAt(t).CallerClosing? && s.bus.Some? then Move(s.bus.value, InField, WithCaller(t)) else Still
    case ReaderShuts =>
      if s.reader.Shutting? && s.reader.victim.Some? then
        Move(s.reader.victim.value, WithClosingReader, ShutDown(|s.down|))
      else Still
    case CallerShuts(t) =>
      if s.CallerAt(t).CallerShutting? && s.CallerAt(t).victim.Some? then
        Move(s.CallerAt(t).victim.value, WithCaller(t), ShutDown(|s.down|))
      else Still
    case _ => Still
  }

  ghost predicate AtAfter(s: State, m: Motion, b: nat, p: Place) {
    match m
    case Still => At(s, b, p)
    case Fresh(to) => if b == s.count then p == to else At(s, b, p)
    case Move(bus, _, to) => if b == bus then p == to else At(s, b, p)
  }

  lemma MotionStarts(s: State, step: Step)
    ensures (var m := MotionOf(s, step); m.Move? ==> At(s, m.bus, m.from))
    ensures Apply(s, step).count == if MotionOf(s, step).Fresh? then s.count + 1 else s.count
  {
  }

  ghost predicate Alone(s: State, m: Motion, b: nat, p: Place) {
    && (m.Move? && b == m.bus && At(s, b, p) ==> p == m.from)
    && (m.Fresh? && b == s.count ==> !At(s, b, p))
  }

  predicate OpensOrStores(step: Step) {
    step.StarterOpens? || step.ReaderOpens? || step.StarterStores? || step.ReaderStores?
  }

  lemma OpenOrStoreMoves(s: State, step: Step, b: nat, p: Place)
    requires OpensOrStores(step)
    requires Exclusive(s) && Alone(s, MotionOf(s, step), b, p)
    ensures At(Apply(s, step), b, p) <==> AtAfter(s, MotionOf(s, step), b, p)
  {
  }

  lemma ReaderClosesMoves(s: State, step: Step, b: nat, p: Place)
    requires (step.ReaderSwaps? || step.ReaderShuts?) && Alone(s, MotionOf(s, step), b, p)
    ensures At(Apply(s, step), b, p) <==> AtAfter(s, MotionOf(s, step), b, p)
  {
  }

  lemma CallerClosesMoves(s: State, step: Step, b: nat, p: Place)
    requires (step.CallerSwaps? || step.CallerShuts?) && Alone(s, MotionOf(s, step), b, p)
    ensures At(Apply(s, step), b, p) <==> AtAfter(s, MotionOf(s, step), b, p)
  {
  }

  lemma OthersStandStill(s: State, step: Step, b: nat, p: Place)
    requires Exclusive(s) && !OpensOrStores(step) && !step.ReaderSwaps? && !step.ReaderShuts?
    requires !step.CallerSwaps? && !step.CallerShuts?
    ensures At(Apply(s, step), b, p) <==> At(s, b, p)
  {
    match p
    case WithCaller(t) => StandingCallers(s, step, t);
    case _ =>
  }

  lemma StandingCallers(s: State, step: Step, t: nat)
    requires !step.CallerSwaps? && !step.CallerShuts?
    ensures Apply(s, step).CallerAt(t) == s.CallerAt(t)
         || (!Apply(s, step).CallerAt(t).CallerShutting? && !s.CallerAt(t).CallerShutting?)
  {
  }

  lemma StepPlaced(s: State, place: map<nat, Place>, step: Step) returns (after: map<nat, Place>)
    requires Exclusive(s) && Placed(s, place)
    ensures Placed(Apply(s, step), after)
  {
    var m := MotionOf(s, step);
    MotionStarts(s, step);
    after := match m
             case Still => place
             case Fresh(to) => place[s.count := to]
             case Move(bus, _, to) => place[bus := to];
    forall b: nat, p ensures At(Apply(s, step), b, p) <==> b in after && after[b] == p {
      assert At(s, b, p) <==> b in place && place[b] == p;
      if OpensOrStores(step) {
        OpenOrStoreMoves(s, step, b, p);
      } else if step.ReaderSwaps? || step.ReaderShuts? {
        ReaderClosesMoves(s, step, b, p);
      } else if step.CallerSwaps? || step.CallerShuts? {
        CallerClosesMoves(s, step, b, p);
      } else {
        OthersStandStill(s, step, b, p);
      }
    }
  }

  // ------------------------------------------------------------ main results

  /** In every reachable state every opened bus is in exactly one place, and a bus about to be
      stored finds the field empty. */
  lemma {:induction false} EveryBusInOnePlace(steps: seq<Step>) returns (place: map<nat, Place>)
    ensures (var s := Run(INITIAL, steps);
             Exclusive(s) && Placed(s, place)
             && (s.starter.StartOpened? || s.reader.Opened? ==> s.bus.None?))
    decreases |steps|
  {
    if steps == [] {
      place := map[];
    } else {
      var front, last := steps[..|steps| - 1], steps[|steps| - 1];
      var earlier := EveryBusInOnePlace(front);
      StepExclusive(Run(INITIAL, front), last);
      place := StepPlaced(Run(INITIAL, front), earlier, last);
    }
  }

  /** In every run no bus is shut down twice. */
  lemma NoDoubleShutdown(steps: seq<Step>, i: nat, j: nat)
    requires i < j < |Run(INITIAL, steps).down|
    ensures Run(INITIAL, steps).down[i] != Run(INITIAL, steps).down[j]
  {
    var s := Run(INITIAL, steps);
    var place := EveryBusInOnePlace(steps);
    assert At(s, s.down[i], ShutDown(i)) && At(s, s.down[j], ShutDown(j));
  }

  ghost predicate NoCloserInProgress(s: State) {
    && !(s.reader.Shutting? && s.reader.victim.Some?)
    && forall t :: !(s.CallerAt(t).CallerShutting? && s.CallerAt(t).victim.Some?)
  }

  // ---------------------------------------------- what a failing bus comes to

  /** A bus that has been opened and is past its opener's hands. */
  ghost predicate Known(s: State, b: nat) {
    b < s.count && s.starter != StartOpened(b) && s.reader != Opened(b)
  }

  /** Whatever a thread receives from or sends on has been in the field. */
  ghost predicate InUse(s: State) {
    && (s.reader.Receiving? ==> Known(s, s.reader.bus))
    && forall t :: s.CallerAt(t).Sending? ==> Known(s, s.CallerAt(t).bus)
  }

  lemma FieldKnown(s: State, place: map<nat, Place>)
    requires Placed(s, place) && s.bus.Some?
    ensures Known(s, s.bus.value)
  {
    var b := s.bus.value;
    assert At(s, b, InField) && place[b] == InField;
    assert !At(s, b, WithStarter) && !At(s, b, WithOpeningReader);
  }

  lemma StaysKnown(s: State, step: Step, b: nat)
    requires Known(s, b)
    ensures Known(Apply(s, step), b)
  {
  }

  lemma SendingFrom(s: State, step: Step, t: nat)
    requires Apply(s, step).CallerAt(t).Sending?
    ensures Apply(s, step).CallerAt(t) == s.CallerAt(t) || s.bus == Some(Apply(s, step).CallerAt(t).bus)
  {
  }

  lemma StepInUse(s: State, step: Step)
    requires InUse(s) && (s.bus.Some? ==> Known(s, s.bus.value))
    ensures InUse(Apply(s, step))
  {
    var after := Apply(s, step);
    if after.reader.Receiving? {
      StaysKnown(s, step, after.reader.bus);
    }
    forall t | after.CallerAt(t).Sending? ensures Known(after, after.CallerAt(t).bus) {
      SendingFrom(s, step, t);
      StaysKnown(s, step, after.CallerAt(t).bus);
    }
  }

  lemma {:induction false} RunInUse(steps: seq<Step>)
    ensures InUse(Run(INITIAL, steps))
    decreases |steps|
  {
    if steps != [] {
      var front := steps[..|steps| - 1];
      RunInUse(front);
      var place := EveryBusInOnePlace(front);
      if Run(INITIAL, front).bus.Some? {
        FieldKnown(Run(INITIAL, front), place);
      }
      StepInUse(Run(INITIAL, front), steps[|steps| - 1]);
    }
  }

  /** Somebody is still to empty the field, or `b` is out of it; `closer` is None for the reader. */
  ghost predicate Leaving(s: State, closer: Option<nat>, b: nat) {
    && Known(s, b)
    && (s.bus != Some(b) || IsClosing(s, closer))
  }

  ghost predicate IsClosing(s: State, closer: Option<nat>) {
    match closer case None => s.reader.Closing? && s.starter.StartReturned? case Some(t) => s.CallerAt(t).CallerClosing?
  }

  lemma StepLeaving(s: State, step: Step, closer: Option<nat>, b: nat)
    requires Leaving(s, closer, b)
    ensures Leaving(Apply(s, step), closer, b)
  {
    StaysKnown(s, step, b);
    if IsClosing(s, closer) {
      ClosingEnds(s, step, closer);
    } else {
      NotStored(s, step, b);
    }
  }

  lemma ClosingEnds(s: State, step: Step, closer: Option<nat>)
    requires IsClosing(s, closer)
    ensures IsClosing(Apply(s, step), closer) || Apply(s, step).bus.None?
  {
    if closer.Some? {
      OthersStay(s, step, closer.value);
    }
  }

  lemma NotStored(s: State, step: Step, b: nat)
    requires Known(s, b) && s.bus != Some(b)
    ensures Apply(s, step).bus != Some(b)
  {
  }

  lemma {:induction false} RunLeaving(s: State, more: seq<Step>, closer: Option<nat>, b: nat)
    requires Leaving(s, closer, b)
    ensures Leaving(Run(s, more), closer, b)
    decreases |more|
  {
    if more != [] {
      RunLeaving(s, more[..|more| - 1], closer, b);
      StepLeaving(Run(s, more[..|more| - 1]), more[|more| - 1], closer, b);
    }
  }

  lemma {:induction false} RunConcat(s: State, a: seq<Step>, b: seq<Step>)
    ensures Run(s, a + b) == Run(Run(s, a), b)
    decreases |b|
  {
    if b == [] {
      assert a + b == a;
    } else {
      RunConcat(s, a, b[..|b| - 1]);
      assert (a + b)[..|a + b| - 1] == a + b[..|b| - 1];
    }
  }

  /** A reachable bus that is out of the field and in no closer's hands is shut down. */
  lemma OutIsDown(steps: seq<Step>, b: nat)
    requires (var s := Run(INITIAL, steps); Known(s, b) && s.bus != Some(b) && NoCloserInProgress(s))
    ensures b in Run(INITIAL, steps).down
  {
    var s := Run(INITIAL, steps);
    var place := EveryBusInOnePlace(steps);
    assert At(s, b, place[b]);
    if place[b].ShutDown? {
      assert s.down[place[b].k] == b;
    }
  }

  /** A failed receive closes its bus: under every interleaving, when the reader is back at the top of
      its loop the bus it was receiving from is out of the field for good, and it is shut down once
      no closer holds it. */
  lemma FailedReceiveCloses(past: seq<Step>, b: nat, more: seq<Step>)
    requires Run(INITIAL, past).reader == Receiving(b)
    ensures (var s := Run(Apply(Run(INITIAL, past), ReaderFails), more);
             !s.reader.Closing? ==> s.bus != Some(b) && (NoCloserInProgress(s) ==> b in s.down))
  {
    RunInUse(past);
    var place := EveryBusInOnePlace(past);
    var failed := Then(INITIAL, past, ReaderFails);
    RunLeaving(Run(INITIAL, failed), more, None, b);
    RunConcat(INITIAL, failed, more);
    var s := Run(INITIAL, failed + more);
    if !s.reader.Closing? && NoCloserInProgress(s) {
      OutIsDown(failed + more, b);
    }
  }

  /** So does a failed send, once the sender has got as far as emptying the field. */
  lemma FailedSendCloses(past: seq<Step>, t: nat, b: nat, more: seq<Step>)
    requires Run(INITIAL, past).CallerAt(t) == Sending(b)
    ensures (var s := Run(Apply(Run(INITIAL, past), SendFails(t)), more);
             !s.CallerAt(t).CallerClosing? ==> s.bus != Some(b) && (NoCloserInProgress(s) ==> b in s.down))
  {
    RunInUse(past);
    var failed := Then(INITIAL, past, SendFails(t));
    RunLeaving(Run(INITIAL, failed), more, Some(t), b);
    RunConcat(INITIAL, failed, more);
    var s := Run(INITIAL, failed + more);
    if !s.CallerAt(t).CallerClosing? && NoCloserInProgress(s) {
      OutIsDown(failed + more, b);
    }
  }

  /** Such runs exist: the reader fails on bus 0 and shuts it down, and is ready to open another. */
  lemma FailedReceiveRun() returns (steps: seq<Step>)
    ensures ReaderFails in steps
    ensures Run(INITIAL, steps) == State(None, false, 1, [0], false, StartReturned, Testing, map[])
  {
    steps := ReceivingRun();
    steps := Then(INITIAL, steps, ReaderFails);
    steps := Then(INITIAL, steps, ReaderSwaps);
    steps := Then(INITIAL, steps, ReaderShuts);
  }

  lemma ReceivingRun() returns (steps: seq<Step>)
    ensures Run(INITIAL, steps) == State(Some(0), false, 1, [], false, StartReturned, Receiving(0), map[])
  {
    steps := Connected();
    steps := Then(INITIAL, steps, ReaderTests);
    steps := Then(INITIAL, steps, ReaderLooks);
  }

  /** A sender does the same. */
  lemma FailedSendRun() returns (steps: seq<Step>)
    ensures SendFails(1) in steps
    ensures Run(INITIAL, steps) == State(None, false, 1, [0], false, StartReturned, Testing, map[1 := Outside])
  {
    steps := Connected();
    steps := Then(INITIAL, steps, CallSend(1));
    steps := Then(INITIAL, steps, SendLooks(1));
    assert Run(INITIAL, steps) == State(Some(0), false, 1, [], false, StartReturned, Testing, map[1 := Sending(0)]);
    steps := Then(INITIAL, steps, SendFails(1));
    steps := CloseDown(steps);
  }

  lemma CloseDown(before: seq<Step>) returns (steps: seq<Step>)
    requires Run(INITIAL, before)
          == State(Some(0), false, 1, [], false, StartReturned, Testing, map[1 := CallerClosing(false)])
    ensures before <= steps
    ensures Run(INITIAL, steps) == State(None, false, 1, [0], false, StartReturned, Testing, map[1 := Outside])
  {
    var swapped := Then(INITIAL, before, CallerSwaps(1));
    steps := Then(INITIAL, swapped, CallerShuts(1));
  }

  /** A failed open leaves nothing behind: the reader is back at the top of its loop. */
  lemma FailedOpenRun() returns (steps: seq<Step>)
    ensures ReaderOpenFails in steps && Run(INITIAL, steps) == WhileOpening(false, map[]).(reader := Testing)
  {
    steps := ReaderOpening();
    steps := Then(INITIAL, steps, ReaderOpenFails);
  }

  lemma Connected() returns (steps: seq<Step>)
    ensures Run(INITIAL, steps) == State(Some(0), false, 1, [], false, StartReturned, Testing, map[])
  {
    steps := Then(INITIAL, [], CallStart(true));
    steps := Then(INITIAL, steps, StarterOpens);
    steps := Then(INITIAL, steps, StarterStores);
    assert Run(INITIAL, steps) == State(Some(0), false, 1, [], false, StartClearing, NotSpawned, map[]);
    steps := Then(INITIAL, steps, StarterClears);
    steps := Then(INITIAL, steps, StarterSpawns);
  }

  /** Nobody is about to take the bus out of the field. */
  ghost predicate Steady(s: State, b: nat) {
    && Exclusive(s) && s.bus == Some(b) && !s.reader.Closing?
    && forall t :: !s.CallerAt(t).Joining? && !s.CallerAt(t).CallerClosing?
  }

  predicate Fails(step: Step) { step.ReaderFails? || step.SendFails? || step.CallStop? }

  lemma NobodyNew(s: State, step: Step, t: nat)
    requires !Fails(step) && !s.CallerAt(t).Joining? && !s.CallerAt(t).CallerClosing?
    ensures !Apply(s, step).CallerAt(t).Joining? && !Apply(s, step).CallerAt(t).CallerClosing?
  {
  }

  lemma StepSteady(s: State, step: Step, b: nat)
    requires Steady(s, b) && !Fails(step)
    ensures Steady(Apply(s, step), b)
  {
    StepExclusive(s, step);
    forall t ensures !Apply(s, step).CallerAt(t).Joining? && !Apply(s, step).CallerAt(t).CallerClosing? {
      NobodyNew(s, step, t);
    }
  }

  /** And nothing else closes a bus: it stays open while no receive fails, no send fails and nobody
      calls `stop`, whatever else the threads do. */
  lemma {:induction false} OnlyFailuresClose(s: State, b: nat, more: seq<Step>)
    requires Steady(s, b) && forall i | 0 <= i < |more| :: !Fails(more[i])
    ensures Run(s, more).bus == Some(b) && Steady(Run(s, more), b)
    decreases |more|
  {
    if more != [] {
      OnlyFailuresClose(s, b, more[..|more| - 1]);
      StepSteady(Run(s, more[..|more| - 1]), more[|more| - 1], b);
    }
  }

  // --------------------------------------------------------- what `stop` does

  /** `_open` is under way: past the test of the stop flag, the next bus not yet in the field. */
  predicate UnderWay(reader: Reader) { reader.Looking? || reader.Opening? || reader.Opened? }

  /** `start` has cleared the stop flag for the last time. */
  predicate PastClear(starter: Starter) { starter.StartSpawning? || starter.StartReturned? }

  /** No `join` gave up while the reader was opening: each returned because the reader had exited,
      because there was no thread yet, or anywhere else in the reader's loop. */
  ghost predicate Patient(steps: seq<Step>) {
    forall i | 0 <= i < |steps| && steps[i].JoinReturns? ::
      Run(INITIAL, steps[..i]).stopping ==> !UnderWay(Run(INITIAL, steps[..i]).reader)
  }

  /** While stopping: somebody still waits for the reader, or no bus is on its way into the field and
      the field is empty or about to be emptied. */
  ghost predicate Winding(s: State) {
    && (s.reader.Exited? ==> s.stopping && s.starter.StartReturned?)
    && (s.stopping && PastClear(s.starter) ==>
          || (exists t :: s.CallerAt(t).Joining?)
          || (!UnderWay(s.reader) && (s.bus.None? || exists t :: s.CallerAt(t).CallerClosing?)))
  }

  /** The only steps that end a wait or a closing. */
  lemma OthersStay(s: State, step: Step, t: nat)
    ensures s.CallerAt(t).Joining? ==> Apply(s, step).CallerAt(t).Joining? || step == JoinReturns(t)
    ensures s.CallerAt(t).CallerClosing? ==> Apply(s, step).CallerAt(t).CallerClosing? || step == CallerSwaps(t)
  {
  }

  lemma StepWinding(s: State, step: Step)
    requires Exclusive(s) && Winding(s)
    requires step.JoinReturns? && s.stopping ==> !UnderWay(s.reader)
    ensures Winding(Apply(s, step))
  {
    var after := Apply(s, step);
    if after.stopping && PastClear(after.starter) {
      if step.CallStop? && s.CallerAt(step.t).Outside? {
        assert after.CallerAt(step.t).Joining?;
      } else if t :| s.CallerAt(t).Joining? {
        OthersStay(s, step, t);
        assert step == JoinReturns(t) ==> after.CallerAt(t).CallerClosing?;
      } else if s.bus.Some? {
        var t :| s.CallerAt(t).CallerClosing?;
        OthersStay(s, step, t);
      }
    }
  }

  lemma {:induction false} RunWinding(steps: seq<Step>)
    requires Patient(steps)
    ensures Winding(Run(INITIAL, steps))
    decreases |steps|
  {
    if steps != [] {
      var front, last := steps[..|steps| - 1], steps[|steps| - 1];
      assert forall i | 0 <= i < |front| :: front[i] == steps[i] && front[..i] == steps[..i];
      RunWinding(front);
      var place := EveryBusInOnePlace(front);
      StepWinding(Run(INITIAL, front), last);
    }
  }

  /** Nobody holds a bus to shut down, waits in `stop`, or is about to close. */
  ghost predicate AllReturned(s: State) {
    && NoCloserInProgress(s)
    && forall t :: !s.CallerAt(t).Joining? && !s.CallerAt(t).CallerClosing?
  }

  /** Once the reader has exited and every `stop` and closing `send` has returned, every bus ever
      opened has been shut down, in every run in which no `join` gave up in the middle of `_open`. */
  lemma StopReleasesEverything(steps: seq<Step>, b: nat)
    requires Patient(steps)
    requires (var s := Run(INITIAL, steps); s.reader.Exited? && AllReturned(s) && b < s.count)
    ensures b in Run(INITIAL, steps).down && Run(INITIAL, steps).bus.None?
  {
    var s := Run(INITIAL, steps);
    RunWinding(steps);
    var place := EveryBusInOnePlace(steps);
    assert At(s, b, place[b]);
    if place[b].ShutDown? {
      assert s.down[place[b].k] == b;
    }
  }

  /** And so it stays: after the reader's exit no thread opens a bus any more. */
  lemma {:induction false} ExitedForGood(s: State, more: seq<Step>)
    requires s.reader.Exited? && s.starter.StartReturned?
    ensures Run(s, more).reader.Exited? && Run(s, more).starter.StartReturned? && Run(s, more).count == s.count
    decreases |more|
  {
    if more != [] {
      ExitedForGood(s, more[..|more| - 1]);
      StaysExited(Run(s, more[..|more| - 1]), more[|more| - 1]);
    }
  }

  lemma StaysExited(s: State, step: Step)
    requires s.reader.Exited? && s.starter.StartReturned?
    ensures (var t := Apply(s, step); t.reader.Exited? && t.starter.StartReturned? && t.count == s.count)
  {
  }

  /** A bus is left open: the reader has exited and the field is set. */
  ghost predicate Leaked(s: State) { s.reader.Exited? && s.bus.Some? }

  /** `start` neither stores its bus nor clears the flag. */
  ghost predicate WithoutStart(steps: seq<Step>) {
    forall i | 0 <= i < |steps| :: !steps[i].StarterStores? && !steps[i].StarterClears?
  }

  ghost predicate LeaksBy(s: State, more: seq<Step>) { WithoutStart(more) && Leaked(Run(s, more)) }

  lemma {:induction false} EmptyForGood(s: State, more: seq<Step>)
    requires s.stopping && s.bus.None? && !UnderWay(s.reader) && WithoutStart(more)
    ensures (var t := Run(s, more); t.stopping && t.bus.None? && !UnderWay(t.reader))
    decreases |more|
  {
    if more != [] {
      EmptyForGood(s, more[..|more| - 1]);
      StaysEmpty(Run(s, more[..|more| - 1]), more[|more| - 1]);
    }
  }

  lemma StaysEmpty(s: State, step: Step)
    requires s.stopping && s.bus.None? && !UnderWay(s.reader) && !step.StarterStores? && !step.StarterClears?
    ensures (var t := Apply(s, step); t.stopping && t.bus.None? && !UnderWay(t.reader))
  {
  }

  /** Exactly when a `stop` is in vain: right after it has emptied the field, there is a continuation
      that leaves a bus open for good if and only if `_open` was under way; otherwise none does,
      whatever any thread does. */
  lemma LeakExact(s: State)
    requires s.stopping && s.bus.None?
    ensures (exists more :: LeaksBy(s, more)) <==> UnderWay(s.reader)
  {
    if more :| LeaksBy(s, more) {
      if !UnderWay(s.reader) {
        EmptyForGood(s, more);
      }
    }
    if UnderWay(s.reader) {
      var more := OpenAndExit(s);
      assert LeaksBy(s, more);
    }
  }

  /** The reader alone finishes `_open`, sees the flag and exits. */
  lemma OpenAndExit(s: State) returns (more: seq<Step>)
    requires s.stopping && s.bus.None? && UnderWay(s.reader)
    ensures LeaksBy(s, more) && OfReader(more)
  {
    if s.reader.Opened? {
      more := StoreAndExit(s, []);
    } else {
      var opening := LookAround(s);
      var holding := Then(s, opening, ReaderOpens);
      more := StoreAndExit(s, holding);
    }
  }

  ghost predicate OfReader(steps: seq<Step>) {
    forall i | 0 <= i < |steps| ::
      steps[i].ReaderLooks? || steps[i].ReaderOpens? || steps[i].ReaderStores? || steps[i].ReaderTests?
  }

  lemma LookAround(s: State) returns (steps: seq<Step>)
    requires s.bus.None? && (s.reader.Looking? || s.reader.Opening?)
    ensures Run(s, steps) == s.(reader := Opening) && OfReader(steps)
  {
    steps := [];
    if s.reader.Looking? {
      FindsNone(s);
      steps := Then(s, [], ReaderLooks);
    }
  }

  lemma FindsNone(s: State)
    requires s.bus.None? && s.reader.Looking?
    ensures Apply(s, ReaderLooks) == s.(reader := Opening)
  {
  }

  lemma StoreAndExit(s: State, holding: seq<Step>) returns (more: seq<Step>)
    requires Run(s, holding).reader.Opened? && Run(s, holding).stopping && OfReader(holding)
    ensures LeaksBy(s, more) && OfReader(more)
  {
    var stored := Then(s, holding, ReaderStores);
    more := Then(s, stored, ReaderTests);
  }

  /** A `stop` that saw the reader exited makes up for any earlier one: once it has emptied the field
      and no closer is in progress, every bus ever opened has been shut down. */
  lemma ClearedReleasesEverything(steps: seq<Step>, b: nat)
    requires (var s := Run(INITIAL, steps); s.cleared && NoCloserInProgress(s) && b < s.count)
    ensures b in Run(INITIAL, steps).down
    ensures Run(INITIAL, steps).reader.Exited? && Run(INITIAL, steps).bus.None?
  {
    var s := Run(INITIAL, steps);
    var place := EveryBusInOnePlace(steps);
    assert At(s, b, place[b]);
    if place[b].ShutDown? {
      assert s.down[place[b].k] == b;
    }
  }

  /** It stays so: the claim holds in every continuation of the run. */
  lemma {:induction false} ClearedForGood(steps: seq<Step>, more: seq<Step>)
    requires Run(INITIAL, steps).cleared
    ensures Run(INITIAL, steps + more).cleared && Run(INITIAL, steps + more).count == Run(INITIAL, steps).count
    decreases |more|
  {
    if more == [] {
      assert steps + more == steps;
    } else {
      var front := more[..|more| - 1];
      ClearedForGood(steps, front);
      assert (steps + more)[..|steps + more| - 1] == steps + front;
      var place := EveryBusInOnePlace(steps + front);
    }
  }

  lemma Then(s: State, steps: seq<Step>, x: Step) returns (more: seq<Step>)
    ensures more == steps + [x] && Run(s, more) == Apply(Run(s, steps), x)
  {
    more := steps + [x];
    assert more[..|more| - 1] == steps;
  }

  /** The case is reachable: a `join` times out while the reader is opening, `stop` returns, the
      reader exits, and nobody is left to shut the bus down. */
  lemma TimedOutJoinLeaks() returns (steps: seq<Step>)
    ensures (var s := Run(INITIAL, steps);
             s.reader.Exited? && s.callers == map[1 := Outside] && AllReturned(s)
             && CallStop(1) in steps && !s.cleared
             && s.count == 1 && s.bus == Some(0) && s.down == [])
  {
    steps := HastyStop();
    steps := Then(INITIAL, steps, ReaderOpens);
    steps := Then(INITIAL, steps, ReaderStores);
    assert Run(INITIAL, steps) == State(Some(0), true, 1, [], false, StartReturned, Testing, map[1 := Outside]);
    steps := Then(INITIAL, steps, ReaderTests);
  }

  function WhileOpening(stopping: bool, callers: map<nat, Caller>): State {
    State(None, stopping, 0, [], false, StartReturned, Opening, callers)
  }

  lemma HastyStop() returns (steps: seq<Step>)
    ensures Run(INITIAL, steps) == WhileOpening(true, map[1 := Outside])
    ensures CallStop(1) in steps
  {
    steps := HastyJoin();
    steps := Then(INITIAL, steps, CallerSwaps(1));
    assert Run(INITIAL, steps) == WhileOpening(true, map[1 := CallerShutting(None)]);
    steps := Then(INITIAL, steps, CallerShuts(1));
  }

  lemma HastyJoin() returns (steps: seq<Step>)
    ensures Run(INITIAL, steps) == WhileOpening(true, map[1 := CallerClosing(false)])
    ensures CallStop(1) in steps
  {
    steps := ReaderOpening();
    steps := Then(INITIAL, steps, CallStop(1));
    assert Run(INITIAL, steps) == WhileOpening(true, map[1 := Joining]);
    steps := Then(INITIAL, steps, JoinReturns(1));
  }

  lemma ReaderOpening() returns (steps: seq<Step>)
    ensures Run(INITIAL, steps) == WhileOpening(false, map[])
  {
    steps := Then(INITIAL, [], CallStart(false));
    steps := Then(INITIAL, steps, StarterClears);
    steps := Then(INITIAL, steps, StarterSpawns);
    assert Run(INITIAL, steps) == State(None, false, 0, [], false, StartReturned, Testing, map[]);
    steps := Then(INITIAL, steps, ReaderTests);
    steps := Then(INITIAL, steps, ReaderLooks);
  }
}
