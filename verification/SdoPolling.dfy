/** What the nested loops of `_transact` mean, in terms of the frames that `queue.get`
    hands to the client during a run: the first one that parses and matches decides. */
module SdoPolling {
  import opened Bytes
  import opened SdoCodec
  import opened SdoProtocol

  // ------------------------------------------------------- the simple meaning

  /** The first frame that parses and matches decides an attempt. */
  function FirstVerdict(key: Key, frames: seq<seq<byte>>): (v: Option<Outcome>)
    ensures v.Some? ==> v.value.Aborted? || v.value.Returned?
  {
    if frames == [] then None
    else if Verdict(key, frames[0]).Some? then Verdict(key, frames[0])
    else FirstVerdict(key, frames[1..])
  }

  /** The first attempt with a deciding frame decides the call. */
  function Decide(key: Key, attempts: seq<seq<seq<byte>>>): Outcome {
    if attempts == [] then TimedOut
    else match FirstVerdict(key, attempts[0])
         case Some(outcome) => outcome
         case None => Decide(key, attempts[1..])
  }

  lemma {:induction false} FirstVerdictConcat(key: Key, a: seq<seq<byte>>, b: seq<seq<byte>>)
    ensures FirstVerdict(key, a + b)
         == if FirstVerdict(key, a).Some? then FirstVerdict(key, a) else FirstVerdict(key, b)
  {
    if a == [] {
      assert a + b == b;
    } else {
      assert (a + b)[1..] == a[1..] + b;
      FirstVerdictConcat(key, a[1..], b);
    }
  }

  lemma {:induction false} DecideConcat(key: Key, a: seq<seq<seq<byte>>>, b: seq<seq<seq<byte>>>)
    requires forall i | 0 <= i < |a| :: FirstVerdict(key, a[i]).None?
    ensures Decide(key, a + b) == Decide(key, b)
  {
    if a == [] {
      assert a + b == b;
    } else {
      assert (a + b)[1..] == a[1..] + b;
      DecideConcat(key, a[1..], b);
    }
  }

  /** Malformed frames and frames for other objects never change what a call returns or raises. */
  lemma IrrelevantFramesIgnored(key: Key, before: seq<seq<seq<byte>>>, left: seq<seq<byte>>, frame: seq<byte>,
                                right: seq<seq<byte>>, after: seq<seq<seq<byte>>>)
    requires ParseResponse(frame).Err? || ParseResponse(frame).value.key != key
    ensures Decide(key, before + [left + [frame] + right] + after) == Decide(key, before + [left + right] + after)
    decreases |before|
  {
    if before == [] {
      FirstVerdictConcat(key, left + [frame], right);
      FirstVerdictConcat(key, left, [frame]);
      FirstVerdictConcat(key, left, right);
      assert FirstVerdict(key, [frame]).None?;
      assert (before + [left + [frame] + right] + after)[1..] == after == (before + [left + right] + after)[1..];
    } else {
      assert (before + [left + [frame] + right] + after)[1..] == before[1..] + [left + [frame] + right] + after;
      assert (before + [left + right] + after)[1..] == before[1..] + [left + right] + after;
      IrrelevantFramesIgnored(key, before[1..], left, frame, right, after);
    }
  }

  function Flatten(attempts: seq<seq<seq<byte>>>): seq<seq<byte>> {
    if attempts == [] then [] else attempts[0] + Flatten(attempts[1..])
  }

  /** Going attempt by attempt is the same as looking for the first deciding frame of all. */
  lemma {:induction false} DecideFlatten(key: Key, attempts: seq<seq<seq<byte>>>)
    ensures (var first := FirstVerdict(key, Flatten(attempts));
             Decide(key, attempts) == if first.Some? then first.value else TimedOut)
  {
    if attempts != [] {
      FirstVerdictConcat(key, attempts[0], Flatten(attempts[1..]));
      DecideFlatten(key, attempts[1..]);
    }
  }

  lemma {:induction false} FlattenAppend(attempts: seq<seq<seq<byte>>>, a: nat, more: seq<seq<byte>>)
    requires a < |attempts| && forall b | a < b < |attempts| :: attempts[b] == []
    ensures Flatten(attempts[a := attempts[a] + more]) == Flatten(attempts) + more
    decreases |attempts|
  {
    var longer := attempts[a := attempts[a] + more];
    if a == 0 {
      FlattenEmpty(attempts[1..]);
      assert longer[1..] == attempts[1..];
    } else {
      FlattenAppend(attempts[1..], a - 1, more);
      assert longer[1..] == attempts[1..][a - 1 := attempts[a] + more];
    }
  }

  lemma {:induction false} FlattenEmpty(attempts: seq<seq<seq<byte>>>)
    requires forall b | 0 <= b < |attempts| :: attempts[b] == []
    ensures Flatten(attempts) == []
  {
    if attempts != [] {
      FlattenEmpty(attempts[1..]);
    }
  }

  // ------------------------------------------------ the frames a run polls

  /** The frame a step takes from the queue for the waiting client; draining takes none. */
  function Taken(s: State, step: Step): seq<seq<byte>> {
    if step.Client? && s.pc.Getting? && s.queue != [] then [s.queue[0]] else []
  }

  /** All frames polled in a run, in order. */
  function Polled(cfg: Config, s: State, steps: seq<Step>): seq<seq<byte>>
    decreases |steps|
  {
    if steps == [] then [] else
      var front := steps[..|steps| - 1];
      Polled(cfg, s, front) + Taken(Run(cfg, s, front), steps[|steps| - 1])
  }

  /** The same frames, one list for each of the retries + 1 attempts. */
  function PolledBy(cfg: Config, s: State, steps: seq<Step>): (attempts: seq<seq<seq<byte>>>)
    ensures |attempts| == cfg.retries + 1
    decreases |steps|
  {
    if steps == [] then seq(cfg.retries + 1, _ => []) else
      var front := steps[..|steps| - 1];
      TakenBy(PolledBy(cfg, s, front), Run(cfg, s, front), steps[|steps| - 1])
  }

  function TakenBy(attempts: seq<seq<seq<byte>>>, s: State, step: Step): (r: seq<seq<seq<byte>>>)
    ensures |r| == |attempts|
  {
    if Taken(s, step) != [] && s.pc.attempt < |attempts| then
      attempts[s.pc.attempt := attempts[s.pc.attempt] + Taken(s, step)]
    else attempts
  }

  predicate Under(pc: Pc) { !pc.Idle? && !pc.Done? }

  /** The response or abort a call has ended in. */
  function Answer(pc: Pc): Option<Outcome> {
    if pc.Done? && (pc.outcome.Returned? || pc.outcome.Aborted?) then Some(pc.outcome) else None
  }

  lemma StepAnswers(cfg: Config, s: State, step: Step)
    requires Under(s.pc) && !step.Start?
    ensures (var t := Apply(cfg, s, step);
             !t.pc.Idle? && t.pc.call == s.pc.call && Answer(t.pc) == FirstVerdict(s.pc.call.key, Taken(s, step)))
  {
    if Taken(s, step) != [] {
      var frames := [s.queue[0]];
      assert frames[1..] == [];
    }
  }

  /** At every point of every run of a call, it has been answered exactly if one of the frames polled
      so far decides, and then by the first that does. */
  lemma {:induction false} FirstFrameAnswers(cfg: Config, s: State, steps: seq<Step>)
    requires Under(s.pc) && WithinCall(steps)
    ensures (var t := Run(cfg, s, steps);
             !t.pc.Idle? && t.pc.call == s.pc.call
             && Answer(t.pc) == FirstVerdict(s.pc.call.key, Polled(cfg, s, steps)))
    decreases |steps|
  {
    if steps != [] {
      var (front, x) := (steps[..|steps| - 1], steps[|steps| - 1]);
      FirstFrameAnswers(cfg, s, front);
      var t := Run(cfg, s, front);
      FirstVerdictConcat(s.pc.call.key, Polled(cfg, s, front), Taken(t, x));
      if Under(t.pc) {
        StepAnswers(cfg, t, x);
      }
    }
  }

  lemma StepAttempt(cfg: Config, s: State, step: Step)
    requires !s.pc.Idle? && !step.Start? && (s.pc.Done? || s.pc.attempt <= cfg.retries)
    ensures (var t := Apply(cfg, s, step);
             !t.pc.Idle? && (!t.pc.Done? ==> !s.pc.Done? && s.pc.attempt <= t.pc.attempt <= cfg.retries))
  {
  }

  /** Attempts poll one after the other. */
  lemma {:induction false} AttemptsInOrder(cfg: Config, begin: State, steps: seq<Step>)
    requires begin.pc.Draining? && begin.pc.attempt == 0 && WithinCall(steps)
    ensures Flatten(PolledBy(cfg, begin, steps)) == Polled(cfg, begin, steps)
    ensures (var t := Run(cfg, begin, steps);
             !t.pc.Idle? && (!t.pc.Done? ==>
               t.pc.attempt <= cfg.retries
               && forall b | t.pc.attempt < b <= cfg.retries :: PolledBy(cfg, begin, steps)[b] == []))
    decreases |steps|
  {
    if steps == [] {
      FlattenEmpty(PolledBy(cfg, begin, steps));
    } else {
      var (front, x) := (steps[..|steps| - 1], steps[|steps| - 1]);
      AttemptsInOrder(cfg, begin, front);
      var t := Run(cfg, begin, front);
      StepAttempt(cfg, t, x);
      if Taken(t, x) != [] {
        FlattenAppend(PolledBy(cfg, begin, front), t.pc.attempt, Taken(t, x));
      }
    }
  }

  /** The loops refine `Decide`: whatever the threads, the channels and the clock do, a call that has
      sent all it wanted ends as the frames it polled, attempt by attempt, decide; a call that has not
      ended, or whose send failed, polled none that decides. */
  lemma OutcomeDecided(cfg: Config, begin: State, steps: seq<Step>)
    requires begin.pc.Draining? && begin.pc.attempt == 0 && WithinCall(steps)
    ensures (var t := Run(cfg, begin, steps);
             var decided := Decide(begin.pc.call.key, PolledBy(cfg, begin, steps));
             !t.pc.Idle? && t.pc.call == begin.pc.call
             && decided == if t.pc.Done? && t.pc.outcome != SendFailed then t.pc.outcome else TimedOut)
  {
    FirstFrameAnswers(cfg, begin, steps);
    AttemptsInOrder(cfg, begin, steps);
    DecideFlatten(begin.pc.call.key, PolledBy(cfg, begin, steps));
  }

  // ------------------------------------------------------------- the draining

  predicate OnTheWire(pc: Pc) { pc.Sending? || pc.Arming? || pc.Checking? || pc.Getting? }

  /** After these steps the client is about to send for an attempt, and has just found its queue empty. */
  ghost predicate DrainedAt(cfg: Config, begin: State, steps: seq<Step>, n: nat, call: Call, attempt: nat)
    requires n <= |steps|
  {
    Run(cfg, begin, steps[..n]).pc == Sending(call, attempt) && Run(cfg, begin, steps[..n]).queue == []
  }

  lemma StepDrains(cfg: Config, s: State, step: Step)
    requires !step.Start? && OnTheWire(Apply(cfg, s, step).pc)
    ensures (var t := Apply(cfg, s, step);
             || (OnTheWire(s.pc) && t.pc.call == s.pc.call && t.pc.attempt == s.pc.attempt)
             || (s.pc.Draining? && t.pc == Sending(s.pc.call, s.pc.attempt) && t.queue == []))
  {
  }

  /** Every attempt of every run sends only after having seen its queue empty, so what it polls has
      arrived since. */
  lemma {:induction false} EachAttemptDrains(cfg: Config, begin: State, steps: seq<Step>) returns (n: nat)
    requires begin.pc.Draining? && WithinCall(steps) && OnTheWire(Run(cfg, begin, steps).pc)
    ensures n <= |steps|
    ensures (var pc := Run(cfg, begin, steps).pc; DrainedAt(cfg, begin, steps, n, pc.call, pc.attempt))
    decreases |steps|
  {
    n := |steps|;
    assert steps[..n] == steps;
    if steps != [] {
      var front := steps[..n - 1];
      StepDrains(cfg, Run(cfg, begin, front), steps[n - 1]);
      if OnTheWire(Run(cfg, begin, front).pc) {
        n := EachAttemptDrains(cfg, begin, front);
        assert front[..n] == steps[..n];
      }
    }
  }

  // ------------------------------------------------------- irrelevant frames

  /** The frames that parse and match. */
  function Relevant(key: Key, frames: seq<seq<byte>>): seq<seq<byte>> {
    if frames == [] then []
    else (if Verdict(key, frames[0]).Some? then [frames[0]] else []) + Relevant(key, frames[1..])
  }

  /** Exactly the frames that decide nothing are dropped. */
  lemma {:induction false} RelevantExact(key: Key, a: seq<seq<byte>>, frame: seq<byte>, b: seq<seq<byte>>)
    ensures Relevant(key, a + [frame] + b)
         == Relevant(key, a) + (if Verdict(key, frame).Some? then [frame] else []) + Relevant(key, b)
    decreases |a|
  {
    if a == [] {
      assert (a + [frame] + b)[1..] == b;
    } else {
      assert (a + [frame] + b)[1..] == a[1..] + [frame] + b;
      RelevantExact(key, a[1..], frame, b);
    }
  }

  lemma {:induction false} RelevantDecide(key: Key, frames: seq<seq<byte>>)
    ensures FirstVerdict(key, frames)
         == (var r := Relevant(key, frames); if r == [] then None else Verdict(key, r[0]))
  {
    if frames != [] {
      RelevantDecide(key, frames[1..]);
    }
  }

  /** Two calls for the same object that poll the same relevant frames end alike, whatever malformed
      and foreign frames each of them polls in between and whenever they come. */
  lemma IrrelevantFramesNeverMatter(cfg: Config, a: State, stepsA: seq<Step>, b: State, stepsB: seq<Step>)
    requires a.pc.Draining? && a.pc.attempt == 0 && WithinCall(stepsA)
    requires b.pc.Draining? && b.pc.attempt == 0 && WithinCall(stepsB)
    requires a.pc.call.key == b.pc.call.key
    requires Relevant(a.pc.call.key, Polled(cfg, a, stepsA)) == Relevant(a.pc.call.key, Polled(cfg, b, stepsB))
    ensures Answer(Run(cfg, a, stepsA).pc) == Answer(Run(cfg, b, stepsB).pc)
  {
    FirstFrameAnswers(cfg, a, stepsA);
    FirstFrameAnswers(cfg, b, stepsB);
    RelevantDecide(a.pc.call.key, Polled(cfg, a, stepsA));
    RelevantDecide(a.pc.call.key, Polled(cfg, b, stepsB));
  }

  // ------------------------------------------------------------------ shapes

  /** What a call returns came out of the parser. */
  lemma {:induction false} VerdictShape(key: Key, frames: seq<seq<byte>>)
    ensures (var v := FirstVerdict(key, frames);
             v.Some? && v.value.Returned? ==>
               && v.value.response.key == key && !v.value.response.Abort?
               && (v.value.response.Upload? ==> 1 <= |v.value.response.data| <= 4)
               && (v.value.response.Download? ==> v.value.response.data == []))
  {
    if frames != [] {
      ParsedResponseShape(frames[0]);
      VerdictShape(key, frames[1..]);
    }
  }
}
