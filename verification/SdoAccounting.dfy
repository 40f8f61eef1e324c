/** Whole-run bookkeeping of the SDO client: its counters, the frames it sends,
    and the time a call takes. */
module SdoAccounting {
  import opened SdoProtocol

  // ---------------------------------------------------------------- counters

  /** An attempt has been counted in `transactions` and has not ended. */
  function Open(pc: Pc): int {
    if pc.Sending? || pc.Arming? || pc.Checking? || pc.Getting? then 1 else 0
  }

  function Balance(s: State): int {
    s.transactions - s.timeouts - s.aborts - s.returned - s.failedSends - Open(s.pc)
  }

  lemma StepBalances(cfg: Config, s: State, step: Step)
    ensures Balance(Apply(cfg, s, step)) == Balance(s)
  {
    match step
    case Client =>
      match s.pc {
        case Checking(_, _, _) =>
        case Getting(_, _, _) =>
        case _ =>
      }
    case _ =>
  }

  /** No step of anyone, in any number of calls, changes the balance: every counted attempt ends
      in exactly one of a timeout, an abort, a returned response or a failed send. */
  lemma {:induction false} CountersBalance(cfg: Config, s: State, steps: seq<Step>)
    ensures Balance(Run(cfg, s, steps)) == Balance(s)
    decreases |steps|
  {
    if steps != [] {
      var front := steps[..|steps| - 1];
      CountersBalance(cfg, s, front);
      StepBalances(cfg, Run(cfg, s, front), steps[|steps| - 1]);
    }
  }

  /** One call raises exactly the counter of its end. */
  ghost predicate EndCounted(begin: State, s: State) {
    && (begin.pc.Draining? ==> !s.pc.Idle?)
    && s.aborts == begin.aborts + (if s.pc.Done? && s.pc.outcome.Aborted? then 1 else 0)
    && s.returned == begin.returned + (if s.pc.Done? && s.pc.outcome.Returned? then 1 else 0)
    && s.failedSends == begin.failedSends + (if s.pc.Done? && s.pc.outcome.SendFailed? then 1 else 0)
  }

  lemma StepCounted(cfg: Config, begin: State, s: State, step: Step)
    requires EndCounted(begin, s) && !step.Start?
    ensures EndCounted(begin, Apply(cfg, s, step))
  {
  }

  lemma {:induction false} CallCounted(cfg: Config, begin: State, steps: seq<Step>)
    requires begin.pc.Draining? && WithinCall(steps)
    ensures EndCounted(begin, Run(cfg, begin, steps))
    decreases |steps|
  {
    if steps != [] {
      CallCounted(cfg, begin, steps[..|steps| - 1]);
      StepCounted(cfg, begin, Run(cfg, begin, steps[..|steps| - 1]), steps[|steps| - 1]);
    }
  }

  // ------------------------------------------------------- attempts and time

  /** Attempts begun on the wire, as the program counter tells. */
  function Started(pc: Pc): nat
    requires !pc.Idle? && !pc.Done?
  {
    if pc.Draining? || pc.Sending? then pc.attempt else pc.attempt + 1
  }

  /** The start of the call plus `n` full timeouts. */
  function After(start: int, n: nat, timeout: int): int { start + n * timeout }

  /** Nothing but copies of one frame was sent in between. */
  ghost predicate OnlySent(before: seq<CanFrame>, after: seq<CanFrame>, frame: CanFrame) {
    before <= after && forall i | |before| <= i < |after| :: after[i] == frame
  }

  /** What holds at every point of one call. */
  ghost predicate OnSchedule(cfg: Config, begin: State, s: State)
    requires begin.pc.Draining?
  {
    && begin.now <= s.now
    && !s.pc.Idle? && s.pc.call == begin.pc.call
    && |begin.sent| <= |s.sent| <= |begin.sent| + cfg.retries + 1
    && OnlySent(begin.sent, s.sent, CanFrame(cfg.requestId, begin.pc.call.request))
    && (if s.pc.Done? then
          && (s.pc.outcome.Returned? || s.pc.outcome.Aborted? ==> |s.sent| > |begin.sent|)
          && (s.pc.outcome.TimedOut? ==>
                && |s.sent| == |begin.sent| + cfg.retries + 1
                && s.timeouts == begin.timeouts + cfg.retries + 1
                && s.now >= After(begin.now, cfg.retries + 1, cfg.timeout))
        else
          && s.pc.attempt <= cfg.retries
          && |s.sent| == |begin.sent| + Started(s.pc)
          && s.timeouts == begin.timeouts + s.pc.attempt
          && s.now >= After(begin.now, s.pc.attempt, cfg.timeout)
          && (s.pc.Checking? || s.pc.Getting? ==>
                s.pc.deadline >= After(begin.now, s.pc.attempt + 1, cfg.timeout)))
  }

  lemma OneMore(start: int, n: nat, timeout: int)
    ensures After(start, n + 1, timeout) == After(start, n, timeout) + timeout
  {
  }

  lemma StepOnSchedule(cfg: Config, begin: State, s: State, step: Step)
    requires begin.pc.Draining? && OnSchedule(cfg, begin, s) && !step.Start?
    ensures OnSchedule(cfg, begin, Apply(cfg, s, step))
  {
    if !s.pc.Done? {
      OneMore(begin.now, s.pc.attempt, cfg.timeout);
    }
  }

  /** In every run of one call: only its own request is sent, at most retries + 1 times, and at least
      once before an answer; and SdoTimeout is raised only after retries + 1 attempts, each counted
      and each a full timeout long. */
  lemma {:induction false} CallOnSchedule(cfg: Config, begin: State, steps: seq<Step>)
    requires begin.pc.Draining? && begin.pc.attempt == 0 && WithinCall(steps)
    ensures OnSchedule(cfg, begin, Run(cfg, begin, steps))
    decreases |steps|
  {
    if steps != [] {
      CallOnSchedule(cfg, begin, steps[..|steps| - 1]);
      StepOnSchedule(cfg, begin, Run(cfg, begin, steps[..|steps| - 1]), steps[|steps| - 1]);
    }
  }

  // ------------------------------------------------------------ the deadline

  function ClientSteps(steps: seq<Step>): nat {
    if steps == [] then 0
    else ClientSteps(steps[..|steps| - 1]) + if steps[|steps| - 1].Client? then 1 else 0
  }

  /** Once its deadline has passed, an attempt is over after two more statements of the client,
      whatever frames keep arriving: a flood of stale frames cannot extend it. */
  lemma {:induction false} DeadlineBinds(cfg: Config, s: State, steps: seq<Step>)
    requires (s.pc.Checking? || s.pc.Getting?) && s.now >= s.pc.deadline && WithinCall(steps)
    ensures (var t := Run(cfg, s, steps);
             t.now >= s.now && !t.pc.Idle?
             && (t.pc.Done? || t.pc.attempt > s.pc.attempt
                 || (t.pc == s.pc && ClientSteps(steps) == 0)
                 || (t.pc == Checking(s.pc.call, s.pc.attempt, s.pc.deadline) && ClientSteps(steps) < 2)))
    decreases |steps|
  {
    if steps != [] {
      DeadlineBinds(cfg, s, steps[..|steps| - 1]);
    }
  }
}
