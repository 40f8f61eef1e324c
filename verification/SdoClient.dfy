/** `SdoClient` of naviq_mts160/naviq_mts160/sdo.py with its loops and fields.

    Every call is shown to be a run of the protocol in SdoProtocol, with the
    reader thread, the channels, the server and the clock interleaved between
    any two statements; what is proved about all runs then holds of the calls.

    The environment is assumed to be finite while `_drain` empties the queue, and
    the clock to advance at least one tick per polled frame; `queue.get` gives up
    no earlier than its timeout. */
module SdoClient {
  import opened Bytes
  import opened SdoCodec
  import opened SdoServer
  import opened SdoProtocol
  import opened SdoPolling
  import opened SdoHazards
  import opened SdoErrors
  import opened SdoAccounting
  import Decoder

  datatype Failure =
    | ValueError
    | BusError
    | Timeout
    | AbortError(code: nat)
    | ProtocolFailure

  /** What `last_exc` may hold. */
  datatype Raised = RaisedTimeout | RaisedProtocol

  // ------------------------------------------------------------------- the bus

  /** What lies behind `bus.send`: the channels, the peer and the clock. */
  class Wire {
    var requests: seq<seq<byte>>
    var replies: seq<seq<byte>>
    var server: Server
    var sent: seq<CanFrame>
    var now: int

    constructor (server: Server, now: int)
      ensures this.server == server && this.now == now
      ensures requests == [] && replies == [] && sent == []
    {
      requests, replies, sent := [], [], [];
      this.server, this.now := server, now;
    }
  }

  // ---------------------------------------------------------------- the client

  class SdoClient {
    const wire: Wire
    const cfg: Config
    const responseId: nat
    var queue: seq<seq<byte>>
    var transactions: nat
    var timeouts: nat
    var aborts: nat
    ghost var returned: nat
    ghost var failedSends: nat

    /** The protocol state, given where the client is. */
    ghost function View(pc: Pc): State
      reads this, wire
    {
      State(pc, queue, wire.requests, wire.replies, wire.server, wire.sent, wire.now,
            transactions, timeouts, aborts, returned, failedSends)
    }

    constructor (wire: Wire, nodeId: nat, timeout: int, retries: nat)
      requires Decoder.ValidNodeId(nodeId)
      ensures this.wire == wire && cfg == Config(Decoder.FC_SDO_RX + nodeId, retries, timeout)
      ensures responseId == Decoder.FC_SDO_TX + nodeId
      ensures queue == [] && transactions == timeouts == aborts == returned == failedSends == 0
    {
      this.wire := wire;
      cfg := Config(Decoder.FC_SDO_RX + nodeId, retries, timeout);
      responseId := Decoder.FC_SDO_TX + nodeId;
      queue := [];
      transactions, timeouts, aborts := 0, 0, 0;
      returned, failedSends := 0, 0;
    }

    /** The listener called from the reader thread; it does not look at `is_extended`. */
    method OnFrame(canId: nat, data: seq<byte>)
      modifies this`queue
      ensures queue == if canId == responseId then old(queue) + [data] else old(queue)
    {
      if canId == responseId {
        queue := queue + [data];
      }
    }

    /** Anything the other threads, the channels and the clock may do, any number of times. */
    method Others(pc: Pc) returns (ghost steps: seq<Step>)
      modifies this`queue, wire
      ensures WithinCall(steps) && View(pc) == Run(cfg, old(View(pc)), steps)
      ensures wire.now >= old(wire.now)
    {
      steps := [];
      var n: nat := *;
      while n > 0
        invariant WithinCall(steps) && View(pc) == Run(cfg, old(View(pc)), steps)
        invariant wire.now >= old(wire.now)
      {
        var x: Step := *;
        if x.Environment() {
          OtherStep(pc, x);
          RunSnoc(cfg, old(View(pc)), steps, x);
          steps := steps + [x];
        }
        n := n - 1;
      }
    }

    /** The oldest request in flight reaches the server. */
    method ServeStep(pc: Pc)
      modifies wire`requests, wire`server, wire`replies
      ensures View(pc) == Apply(cfg, old(View(pc)), Serve)
    {
      if wire.requests != [] {
        var (server, reply) := wire.server.Serve(wire.requests[0]);
        wire.requests, wire.server := wire.requests[1..], server;
        if reply.Some? {
          wire.replies := wire.replies + [reply.value];
        }
      }
    }

    method OtherStep(pc: Pc, x: Step)
      requires x.Environment()
      modifies this`queue, wire
      ensures View(pc) == Apply(cfg, old(View(pc)), x)
      ensures wire.now >= old(wire.now)
    {
      match x
      case Tick(elapsed) =>
        wire.now := wire.now + elapsed;
      case Serve =>
        ServeStep(pc);
      case LoseRequest =>
        if wire.requests != [] {
          wire.requests := wire.requests[1..];
        }
      case LoseReply =>
        if wire.replies != [] {
          wire.replies := wire.replies[1..];
        }
      case Deliver =>
        if wire.replies != [] {
          OnFrame(responseId, wire.replies[0]);
          wire.replies := wire.replies[1..];
        }
      case Noise(frame) =>
        if NoiseAllowed(pc, frame) {
          OnFrame(responseId, frame);
        }
    }

    method Drain(call: Call, attempt: nat) returns (ghost steps: seq<Step>)
      modifies this`queue, wire
      ensures WithinCall(steps)
      ensures View(Draining(call, attempt)) == Run(cfg, old(View(Draining(call, attempt))), steps)
      ensures queue == []
    {
      steps := [];
      var arrivals: nat := *;
      while true
        invariant WithinCall(steps)
        invariant View(Draining(call, attempt)) == Run(cfg, old(View(Draining(call, attempt))), steps)
        decreases arrivals, |queue|
      {
        if arrivals > 0 {
          ghost var others := Others(Draining(call, attempt));
          RunConcat(cfg, old(View(Draining(call, attempt))), steps, others);
          steps := steps + others;
          arrivals := arrivals - 1;
        }
        if queue == [] {
          return;
        }
        ghost var last := GetNowait(call, attempt);
        RunConcat(cfg, old(View(Draining(call, attempt))), steps, last);
        steps := steps + last;
      }
    }

    method GetNowait(call: Call, attempt: nat) returns (ghost steps: seq<Step>)
      requires queue != []
      modifies this`queue
      ensures WithinCall(steps) && queue == old(queue)[1..]
      ensures View(Draining(call, attempt)) == Run(cfg, old(View(Draining(call, attempt))), steps)
    {
      RunSnoc(cfg, View(Draining(call, attempt)), [], Client);
      queue := queue[1..];
      steps := [] + [Client];
    }

    /** `queue.get(timeout=remaining)` up to the moment it has a frame or gives up. */
    method Wait(call: Call, attempt: nat, deadline: int) returns (ghost steps: seq<Step>)
      modifies this`queue, wire
      ensures WithinCall(steps)
      ensures View(Getting(call, attempt, deadline)) == Run(cfg, old(View(Getting(call, attempt, deadline))), steps)
      ensures wire.now >= old(wire.now)
      ensures queue == [] ==> wire.now >= deadline
    {
      steps := Others(Getting(call, attempt, deadline));
      if queue == [] {
        var late: nat :| true;
        var wait := late + if deadline > wire.now then deadline - wire.now else 0;
        RunSnoc(cfg, old(View(Getting(call, attempt, deadline))), steps, Tick(wait));
        wire.now := wire.now + wait;
        steps := steps + [Tick(wait)];
      }
    }

    /** The polled frame is parsed, matched and either decides the call or is discarded. */
    method Judge(call: Call, attempt: nat, deadline: int, lastExc: Option<Raised>)
      returns (verdict: Option<Outcome>, exc: Option<Raised>, frame: seq<byte>)
      requires queue != []
      modifies this
      ensures frame == old(queue)[0] && verdict == Verdict(call.key, frame)
      ensures View(if verdict.Some? then Done(call, verdict.value) else Checking(call, attempt, deadline))
           == ClientStep(cfg, old(View(Getting(call, attempt, deadline))))
    {
      frame, exc, verdict := queue[0], lastExc, None;
      queue := queue[1..];
      var parsed := ParseResponse(frame);
      if parsed.Err? {
        exc := Some(RaisedProtocol);
      } else if parsed.value.key == call.key {
        if parsed.value.Abort? {
          aborts := aborts + 1;
          verdict := Some(Aborted(parsed.value.code));
        } else {
          returned := returned + 1;
          verdict := Some(Returned(parsed.value));
        }
      }
    }

    /** One turn of the inner loop. */
    method Poll(call: Call, attempt: nat, deadline: int, lastExc: Option<Raised>)
      returns (expired: bool, verdict: Option<Outcome>, exc: Option<Raised>, ghost steps: seq<Step>)
      requires attempt <= cfg.retries
      modifies this, wire
      ensures WithinCall(steps)
      ensures Run(cfg, old(View(Checking(call, attempt, deadline))), steps)
           == View(if expired || verdict.Some? then AfterAttempt(call, attempt, verdict)
                   else Checking(call, attempt, deadline))
      ensures verdict == FirstVerdict(call.key, Polled(cfg, old(View(Checking(call, attempt, deadline))), steps))
      ensures expired ==> verdict.None? && exc == Some(RaisedTimeout)
      ensures !expired && verdict.None? ==> old(wire.now) < deadline && old(wire.now) < wire.now
    {
      verdict, exc := None, lastExc;
      ghost var begin := View(Checking(call, attempt, deadline));
      expired, steps := Check(call, attempt, deadline);
      if expired {
        exc := Some(RaisedTimeout);
      } else {
        ghost var more;
        verdict, exc, more := Get(call, attempt, deadline, exc);
        RunConcat(cfg, begin, steps, more);
        steps := steps + more;
      }
      FirstFrameAnswers(cfg, begin, steps);
    }

    /** The test of the remaining time. */
    method Check(call: Call, attempt: nat, deadline: int) returns (expired: bool, ghost steps: seq<Step>)
      requires attempt <= cfg.retries
      modifies this, wire
      ensures WithinCall(steps)
      ensures Run(cfg, old(View(Checking(call, attempt, deadline))), steps)
           == View(if expired then AfterAttempt(call, attempt, None) else Getting(call, attempt, deadline))
      ensures !expired ==> old(wire.now) <= wire.now < deadline
    {
      ghost var begin := View(Checking(call, attempt, deadline));
      steps := Others(Checking(call, attempt, deadline));
      RunSnoc(cfg, begin, steps, Client);
      steps := steps + [Client];
      var remaining := deadline - wire.now;
      expired := remaining <= 0;
      if expired {
        timeouts := timeouts + 1;
      }
    }

    /** The queue's turn: wait, take a frame if there is one, and judge it. */
    method Get(call: Call, attempt: nat, deadline: int, lastExc: Option<Raised>)
      returns (verdict: Option<Outcome>, exc: Option<Raised>, ghost steps: seq<Step>)
      requires wire.now < deadline
      modifies this, wire
      ensures WithinCall(steps)
      ensures Run(cfg, old(View(Getting(call, attempt, deadline))), steps)
           == View(if verdict.Some? then Done(call, verdict.value) else Checking(call, attempt, deadline))
      ensures verdict == FirstVerdict(call.key, Polled(cfg, old(View(Getting(call, attempt, deadline))), steps))
      ensures verdict.None? ==> old(wire.now) < wire.now
    {
      ghost var begin := View(Getting(call, attempt, deadline));
      steps := Wait(call, attempt, deadline);
      ghost var more;
      verdict, exc, more := Take(call, attempt, deadline, lastExc);
      RunConcat(cfg, begin, steps, more);
      steps := steps + more;
      FirstFrameAnswers(cfg, begin, steps);
    }

    /** The end of the wait: a frame to judge, which takes time, or none. */
    method Take(call: Call, attempt: nat, deadline: int, lastExc: Option<Raised>)
      returns (verdict: Option<Outcome>, exc: Option<Raised>, ghost steps: seq<Step>)
      requires queue == [] ==> wire.now >= deadline
      modifies this, wire
      ensures WithinCall(steps)
      ensures Run(cfg, old(View(Getting(call, attempt, deadline))), steps)
           == View(if verdict.Some? then Done(call, verdict.value) else Checking(call, attempt, deadline))
      ensures verdict.None? && old(queue) != [] ==> old(wire.now) < wire.now
      ensures old(queue) == [] || verdict.Some? ==> wire.now == old(wire.now)
      ensures verdict.Some? ==> verdict.value.Aborted? || verdict.value.Returned?
    {
      ghost var begin := View(Getting(call, attempt, deadline));
      verdict, exc := None, lastExc;
      RunSnoc(cfg, begin, [], Client);
      steps := [] + [Client];
      if queue != [] {
        var frame: seq<byte>;
        verdict, exc, frame := Judge(call, attempt, deadline, exc);
        if verdict.None? {
          var work: nat :| true;
          RunSnoc(cfg, begin, steps, Tick(1 + work));
          wire.now := wire.now + 1 + work;
          steps := steps + [Tick(1 + work)];
        }
      }
    }

    /** The inner loop: poll until a frame decides or the deadline passes. */
    method Await(call: Call, attempt: nat, deadline: int, lastExc: Option<Raised>)
      returns (verdict: Option<Outcome>, exc: Option<Raised>, ghost steps: seq<Step>)
      requires attempt <= cfg.retries
      modifies this, wire
      ensures WithinCall(steps)
      ensures Run(cfg, old(View(Checking(call, attempt, deadline))), steps)
           == View(AfterAttempt(call, attempt, verdict))
      ensures verdict == FirstVerdict(call.key, Polled(cfg, old(View(Checking(call, attempt, deadline))), steps))
      ensures verdict.None? ==> exc == Some(RaisedTimeout)
    {
      ghost var begin := View(Checking(call, attempt, deadline));
      exc, steps := lastExc, [];
      while true
        invariant WithinCall(steps) && View(Checking(call, attempt, deadline)) == Run(cfg, begin, steps)
        decreases deadline - wire.now
      {
        ghost var more;
        var expired: bool;
        expired, verdict, exc, more := Poll(call, attempt, deadline, exc);
        RunConcat(cfg, begin, steps, more);
        steps := steps + more;
        if expired || verdict.Some? {
          FirstFrameAnswers(cfg, begin, steps);
          return;
        }
      }
    }

    ghost function AfterAttempt(call: Call, attempt: nat, verdict: Option<Outcome>): Pc {
      if verdict.Some? then Done(call, verdict.value)
      else if attempt < cfg.retries then Draining(call, attempt + 1)
      else Done(call, TimedOut)
    }

    /** `bus.send`, which may raise. */
    method Send(call: Call, attempt: nat) returns (ok: bool)
      modifies this, wire
      ensures ok ==> View(Arming(call, attempt)) == Apply(cfg, old(View(Sending(call, attempt))), Client)
      ensures !ok ==> View(Done(call, SendFailed)) == Apply(cfg, old(View(Sending(call, attempt))), SendFails)
    {
      ok := *;
      if ok {
        wire.requests := wire.requests + [call.request];
        wire.sent := wire.sent + [CanFrame(cfg.requestId, call.request)];
      } else {
        failedSends := failedSends + 1;
      }
    }

    /** The deadline is read off the clock only after the send has returned. */
    method Arm(call: Call, attempt: nat) returns (deadline: int, ghost steps: seq<Step>)
      modifies this`queue, wire
      ensures WithinCall(steps)
      ensures Run(cfg, old(View(Arming(call, attempt))), steps) == View(Checking(call, attempt, deadline))
    {
      ghost var begin := View(Arming(call, attempt));
      steps := Others(Arming(call, attempt));
      ghost var sent := View(Arming(call, attempt));
      RunSnoc(cfg, begin, steps, Client);
      Armed(cfg, sent);
      deadline := wire.now + cfg.timeout;
      steps := steps + [Client];
      assert View(Checking(call, attempt, deadline)) == sent.(pc := Checking(call, attempt, deadline));
    }

    /** From the drained queue to the armed deadline. */
    method SendAndArm(call: Call, attempt: nat) returns (ok: bool, deadline: int, ghost steps: seq<Step>)
      modifies this, wire
      ensures WithinCall(steps)
      ensures Run(cfg, old(View(Sending(call, attempt))), steps)
           == View(if ok then Checking(call, attempt, deadline) else Done(call, SendFailed))
    {
      ghost var begin := View(Sending(call, attempt));
      deadline := 0;
      steps := Others(Sending(call, attempt));
      ok := Send(call, attempt);
      ghost var last := if ok then Client else SendFails;
      RunSnoc(cfg, begin, steps, last);
      steps := steps + [last];
      if ok {
        ghost var more;
        deadline, more := Arm(call, attempt);
        RunConcat(cfg, begin, steps, more);
        steps := steps + more;
      }
    }

    /** An attempt up to the point where it starts to wait: drained, counted, sent and armed. */
    method Prepare(call: Call, attempt: nat) returns (ok: bool, deadline: int, ghost steps: seq<Step>)
      modifies this, wire
      ensures WithinCall(steps)
      ensures Run(cfg, old(View(Draining(call, attempt))), steps)
           == View(if ok then Checking(call, attempt, deadline) else Done(call, SendFailed))
    {
      ghost var begin := View(Draining(call, attempt));
      steps := Drain(call, attempt);
      RunSnoc(cfg, begin, steps, Client);
      transactions := transactions + 1;
      steps := steps + [Client];
      ghost var more;
      ok, deadline, more := SendAndArm(call, attempt);
      RunConcat(cfg, begin, steps, more);
      steps := steps + more;
    }

    /** The body of the outer loop. */
    method Attempt(call: Call, attempt: nat, lastExc: Option<Raised>)
      returns (verdict: Option<Outcome>, exc: Option<Raised>, ghost steps: seq<Step>)
      requires attempt <= cfg.retries
      modifies this, wire
      ensures WithinCall(steps)
      ensures Run(cfg, old(View(Draining(call, attempt))), steps) == View(AfterAttempt(call, attempt, verdict))
      ensures verdict != Some(SendFailed) ==>
                verdict == FirstVerdict(call.key, Polled(cfg, old(View(Draining(call, attempt))), steps))
      ensures verdict.None? ==> exc == Some(RaisedTimeout)
    {
      ghost var begin := View(Draining(call, attempt));
      var ok, deadline;
      ok, deadline, steps := Prepare(call, attempt);
      if !ok {
        return Some(SendFailed), lastExc, steps;
      }
      ghost var more;
      verdict, exc, more := Await(call, attempt, deadline, lastExc);
      RunConcat(cfg, begin, steps, more);
      steps := steps + more;
      FirstFrameAnswers(cfg, begin, steps);
    }

    /** This call's run: from its first statement these steps lead to the state as it is now. */
    twostate predicate Ran(call: Call, outcome: Outcome, steps: seq<Step>)
      reads this, wire
    {
      WithinCall(steps) && Run(cfg, old(View(Draining(call, 0))), steps) == View(Done(call, outcome))
    }

    /** `_transact`: a run of the protocol from this call's first statement to its outcome, which is
        the one the polled frames decide, attempt by attempt. It never ends in the protocol error
        that `last_exc` may hold in between. */
    method Transact(call: Call) returns (outcome: Outcome, ghost steps: seq<Step>)
      modifies this, wire
      ensures Ran(call, outcome, steps)
      ensures Decide(call.key, PolledBy(cfg, old(View(Draining(call, 0))), steps))
           == if outcome == SendFailed then TimedOut else outcome
    {
      ghost var begin := View(Draining(call, 0));
      steps := [];
      var lastExc: Option<Raised> := None;
      for attempt := 0 to cfg.retries + 1
        invariant WithinCall(steps)
        invariant Run(cfg, begin, steps)
               == View(if attempt <= cfg.retries then Draining(call, attempt) else Done(call, TimedOut))
        invariant attempt > 0 ==> lastExc == Some(RaisedTimeout)
      {
        var verdict;
        ghost var more;
        verdict, lastExc, more := Attempt(call, attempt, lastExc);
        RunConcat(cfg, begin, steps, more);
        steps := steps + more;
        if verdict.Some? {
          OutcomeDecided(cfg, begin, steps);
          return verdict.value, steps;
        }
      }
      assert lastExc.Some?;
      assert lastExc.value == RaisedTimeout;
      OutcomeDecided(cfg, begin, steps);
      outcome := TimedOut;
    }

    // --------------------------------------------------------------- raw API

    /** What every call guarantees about the wire, the clock and the counters. */
    twostate predicate Accounted(request: seq<byte>, new answer: Option<Outcome>, timedOut: bool)
      reads this, wire
    {
      && OnlySent(old(wire.sent), wire.sent, CanFrame(cfg.requestId, request))
      && |wire.sent| <= |old(wire.sent)| + cfg.retries + 1
      && transactions - old(transactions)
         == timeouts - old(timeouts) + aborts - old(aborts)
            + returned - old(returned) + failedSends - old(failedSends)
      && aborts == old(aborts) + (if answer.Some? && answer.value.Aborted? then 1 else 0)
      && returned == old(returned) + (if answer.Some? && answer.value.Returned? then 1 else 0)
      && failedSends == old(failedSends) + (if answer.None? && !timedOut then 1 else 0)
      && (answer.Some? ==> |wire.sent| > |old(wire.sent)|)
      && (timedOut ==>
            && |wire.sent| == |old(wire.sent)| + cfg.retries + 1
            && timeouts == old(timeouts) + cfg.retries + 1
            && wire.now >= After(old(wire.now), cfg.retries + 1, cfg.timeout))
    }

    /** This call's run leads to the state as it is now. */
    twostate predicate RanOut(call: Call, new steps: seq<Step>)
      reads this, wire
    {
      var t := Run(cfg, old(View(Draining(call, 0))), steps);
      WithinCall(steps) && t.pc.Done? && t == View(t.pc)
    }

    /** The first of the frames polled by this call that parses and matches. */
    twostate function AnswerTo(call: Call, new steps: seq<Step>): Option<Outcome>
      reads this, wire
    {
      FirstVerdict(call.key, Polled(cfg, old(View(Draining(call, 0))), steps))
    }

    /** Which error a call without a usable response ends in. */
    twostate predicate FailsAs(new e: Failure, new answer: Option<Outcome>)
      reads this
    {
      && (answer.None? ==> e == if failedSends > old(failedSends) then BusError else Timeout)
      && (answer.Some? ==>
            match answer.value
            case Aborted(code) => e == AbortError(code)
            case _ => e == ProtocolFailure)
    }

    /** What a download promises. It is a run of the protocol from where the call began to where the
        client is now, and ends as the first deciding frame of that run says. With no leftover in
        flight when it began: a return means that the server executed exactly this write during the
        call, an abort that the server answered this very request so, and SdoProtocolError does not
        happen. */
    twostate predicate Downloaded(key: Key, data: seq<byte>, new r: Result<(), Failure>, new steps: seq<Step>)
      requires 1 <= |data| <= 4
      reads this, wire
    {
      var (begin, call) := (old(View(Idle)), DownloadCall(key, data));
      var answer := AnswerTo(call, steps);
      && RanOut(call, steps) && Accounted(call.request, answer, r == Err(Timeout))
      && (r.Ok? <==> answer == Some(Returned(SdoCodec.Download(key, []))))
      && (r.Err? ==> FailsAs(r.error, answer))
      && (r.Ok? ==>
            AckLeftover(begin, key, data) || Write(key, data) in WritesSince(old(wire.server), wire.server))
      && (r == Err(ProtocolFailure) ==> ReadLeftover(begin, key))
      && (r.Err? && r.error.AbortError? ==>
            AbortLeftover(begin, call, r.error.code) || OwnRefused(cfg, begin, call, r.error.code, steps))
    }

    /** What an upload promises: the same, and the returned value has 1..4 bytes and was the server's
        at some moment of this very run, unless an outdated response was in flight. */
    twostate predicate Uploaded(key: Key, new r: Result<seq<byte>, Failure>, new steps: seq<Step>)
      reads this, wire
    {
      var (begin, call) := (old(View(Idle)), UploadCall(key));
      var answer := AnswerTo(call, steps);
      && RanOut(call, steps) && Accounted(call.request, answer, r == Err(Timeout))
      && (forall d :: r == Ok(d) <==> answer == Some(Returned(SdoCodec.Upload(key, d))))
      && (r.Err? ==> FailsAs(r.error, answer))
      && (r.Ok? ==>
            && 1 <= |r.value| <= 4
            && (ValueLeftover(begin, key, r.value) || HeldDuring(cfg, begin, key, r.value, steps)))
      && (r == Err(ProtocolFailure) ==> WriteLeftover(begin, key))
      && (r.Err? && r.error.AbortError? ==>
            AbortLeftover(begin, call, r.error.code) || OwnRefused(cfg, begin, call, r.error.code, steps))
    }

    /** `_transact` with what the accounting says of it. */
    method Carry(call: Call) returns (outcome: Outcome, ghost steps: seq<Step>)
      modifies this, wire
      ensures Ran(call, outcome, steps)
      ensures Accounted(call.request, AnswerTo(call, steps), outcome == TimedOut)
      ensures AnswerTo(call, steps) == if outcome.Returned? || outcome.Aborted? then Some(outcome) else None
      ensures outcome.Returned? ==>
                || (exists d | 1 <= |d| <= 4 :: outcome.response == SdoCodec.Upload(call.key, d))
                || outcome.response == SdoCodec.Download(call.key, [])
    {
      ghost var begin := View(Draining(call, 0));
      outcome, steps := Transact(call);
      CallOnSchedule(cfg, begin, steps);
      CountersBalance(cfg, begin, steps);
      CallCounted(cfg, begin, steps);
      FirstFrameAnswers(cfg, begin, steps);
      VerdictShape(call.key, Polled(cfg, begin, steps));
    }

    method Download(key: Key, data: seq<byte>) returns (r: Result<(), Failure>, ghost steps: seq<Step>)
      modifies this, wire
      ensures r == Err(ValueError) <==> !(1 <= |data| <= 4)
      ensures r == Err(ValueError) ==> View(Idle) == old(View(Idle))
      ensures r != Err(ValueError) ==> Downloaded(key, data, r, steps)
    {
      steps := [];
      var request := BuildDownload(key, data);
      if request.None? {
        return Err(ValueError), steps;
      }
      var outcome;
      outcome, steps := Carry(Call(request.value, key));
      DownloadSoundly(cfg, old(View(Idle)), key, data, steps);
      match outcome
      case Returned(m) => r := if m.Download? then Ok(()) else Err(ProtocolFailure);
      case Aborted(code) => r := Err(AbortError(code));
      case TimedOut => r := Err(Timeout);
      case SendFailed => r := Err(BusError);
    }

    method Upload(key: Key) returns (r: Result<seq<byte>, Failure>, ghost steps: seq<Step>)
      modifies this, wire
      ensures Uploaded(key, r, steps)
    {
      var outcome;
      outcome, steps := Carry(Call(BuildUpload(key), key));
      UploadSoundly(cfg, old(View(Idle)), key, steps);
      match outcome
      case Returned(m) => r := if m.Upload? then Ok(m.data) else Err(ProtocolFailure);
      case Aborted(code) => r := Err(AbortError(code));
      case TimedOut => r := Err(Timeout);
      case SendFailed => r := Err(BusError);
    }

    // ------------------------------------------------------------- typed API

    /** `payload` is what the upload returned or raised. */
    method ReadU8(key: Key)
      returns (r: Result<nat, Failure>, ghost payload: Result<seq<byte>, Failure>, ghost steps: seq<Step>)
      modifies this, wire
      ensures Uploaded(key, payload, steps)
      ensures payload.Ok? ==> payload.value != [] && r == Ok(payload.value[0])
      ensures payload.Err? ==> r == Err(payload.error)
    {
      var data;
      data, steps := Upload(key);
      payload := data;
      match data
      case Ok(d) => r := Ok(d[0]);
      case Err(e) => r := Err(e);
    }

    method ReadU16(key: Key)
      returns (r: Result<nat, Failure>, ghost payload: Result<seq<byte>, Failure>, ghost steps: seq<Step>)
      modifies this, wire
      ensures Uploaded(key, payload, steps)
      ensures payload.Ok? ==> r == Ok(LowWord(payload.value))
      ensures payload.Err? ==> r == Err(payload.error)
    {
      var data;
      data, steps := Upload(key);
      payload := data;
      match data
      case Ok(d) => r := Ok(SdoCodec.ReadU16(d));
      case Err(e) => r := Err(e);
    }

    // -------------------------------------------------------- MTS160 helpers

    method StartZero() returns (r: Result<(), Failure>, ghost steps: seq<Step>)
      modifies this, wire
      ensures r != Err(ValueError) && Downloaded(Key(0x2000, 0), [1], r, steps)
    {
      var payload := WriteU8(1);
      assert payload == [1];
      r, steps := Download(OD_ZERO, payload);
    }

    /** The source documents period 0 as "disables the TPDO"; the range check lets it through. */
    method SetTpdoPeriod(tpdo: int, period: int) returns (r: Result<(), Failure>, ghost steps: seq<Step>)
      modifies this, wire
      ensures r == Err(ValueError) <==> !(1 <= tpdo <= 3 && 0 <= period <= 0xFFFF)
      ensures r == Err(ValueError) ==> View(Idle) == old(View(Idle))
      ensures r != Err(ValueError) ==> Downloaded(Key(0x1800 + tpdo - 1, 5), [period % 256, period / 256], r, steps)
    {
      if !(1 <= tpdo <= 3) || !(0 <= period <= 0xFFFF) {
        return Err(ValueError), [];
      }
      var payload := WriteU16(period);
      WordBytes(period);
      r, steps := Download(TimerKey(tpdo), payload);
    }

    method GetTpdoPeriod(tpdo: int)
      returns (r: Result<nat, Failure>, ghost payload: Result<seq<byte>, Failure>, ghost steps: seq<Step>)
      modifies this, wire
      ensures r == Err(ValueError) <==> !(1 <= tpdo <= 3)
      ensures r == Err(ValueError) ==> View(Idle) == old(View(Idle))
      ensures r != Err(ValueError) ==>
                && Uploaded(Key(0x1800 + tpdo - 1, 5), payload, steps)
                && (payload.Ok? ==> r == Ok(LowWord(payload.value)))
                && (payload.Err? ==> r == Err(payload.error))
    {
      if !(1 <= tpdo <= 3) {
        return Err(ValueError), Err(ValueError), [];
      }
      r, payload, steps := ReadU16(TimerKey(tpdo));
    }
  }

  /** The first two bytes, least significant first; a missing second byte counts as zero. */
  function LowWord(d: seq<byte>): nat {
    var (low: int, high: int) := (if |d| > 0 then d[0] else 0, if |d| > 1 then d[1] else 0);
    low + 256 * high
  }

  lemma WordBytes(v: int)
    requires 0 <= v <= 0xFFFF
    ensures Pack16(v) == [v % 256, v / 256] && 0 <= v % 256 < 256 && 0 <= v / 256 < 256
  {
  }

  lemma Armed(cfg: Config, s: State)
    requires s.pc.Arming?
    ensures Apply(cfg, s, Client) == s.(pc := Checking(s.pc.call, s.pc.attempt, s.now + cfg.timeout))
  {
  }

  /** The constructor's check: ValueError unless the node id is 1..127. */
  method NewClient(wire: Wire, nodeId: int, timeout: int, retries: nat) returns (r: Result<SdoClient, Failure>)
    ensures r.Ok? <==> Decoder.ValidNodeId(nodeId)
    ensures r.Err? ==> r.error == ValueError
    ensures r.Ok? ==> fresh(r.value) && r.value.wire == wire
                      && r.value.cfg == Config(0x600 + nodeId, retries, timeout)
                      && r.value.responseId == 0x580 + nodeId
  {
    if !Decoder.ValidNodeId(nodeId) {
      return Err(ValueError);
    }
    var client := new SdoClient(wire, nodeId, timeout, retries);
    r := Ok(client);
  }

  const OD_ZERO := Key(0x2000, 0)

  /** Event timer of TPDO 1..3. */
  function TimerKey(tpdo: int): Key { Key(0x1800 + tpdo - 1, 5) }
}
