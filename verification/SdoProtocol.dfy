/** The SDO transaction of naviq_mts160/naviq_mts160/sdo.py as a concurrent
    protocol: the client's `_transact` one statement at a time, the reader
    thread that fills its queue, a lossy and delaying FIFO channel in each
    direction, the server, and a clock.

    A run is a sequence of steps; a step that is not enabled changes nothing, so
    every sequence of steps is a run and quantifying over sequences quantifies
    over every interleaving. */
module SdoProtocol {
  import opened Bytes
  import opened SdoCodec
  import opened SdoServer

  /** A frame handed to `bus.send`. */
  datatype CanFrame = CanFrame(canId: nat, data: seq<byte>)

  /** What an `SdoClient` is constructed with; `requestId` is 0x600 plus the node id. */
  datatype Config = Config(requestId: nat, retries: nat, timeout: int)

  datatype Call = Call(request: seq<byte>, key: Key)

  datatype Outcome =
    | Returned(response: Message)
    | Aborted(code: nat)
    | TimedOut
    | SendFailed

  /** Where the client is inside `_transact`; `attempt` is the loop variable. */
  datatype Pc =
    | Idle
    | Draining(call: Call, attempt: nat)
    | Sending(call: Call, attempt: nat)
    | Arming(call: Call, attempt: nat)
    | Checking(call: Call, attempt: nat, deadline: int)
    | Getting(call: Call, attempt: nat, deadline: int)
    | Done(call: Call, outcome: Outcome)

  /** `returned` and `failedSends` are history: they count how calls ended. */
  datatype State = State(
    pc: Pc, queue: seq<seq<byte>>,
    requests: seq<seq<byte>>, replies: seq<seq<byte>>, server: Server,
    sent: seq<CanFrame>, now: int,
    transactions: nat, timeouts: nat, aborts: nat, returned: nat, failedSends: nat)
  {
    predicate Ready() { pc.Idle? || pc.Done? }
  }

  datatype Step =
    | Start(call: Call)          // a caller enters `_transact`
    | Client                     // the client's next statement
    | SendFails                  // `bus.send` raises
    | Tick(elapsed: nat)
    | Serve                      // the oldest request in flight reaches the server
    | LoseRequest
    | LoseReply
    | Deliver                    // the oldest reply in flight reaches the reader thread
    | Noise(frame: seq<byte>)    // a malformed frame, or one for another object
  {
    predicate Environment() { !Start? && !Client? && !SendFails? }
  }

  /** What one polled frame decides: nothing, if it is malformed or for another object. */
  function Verdict(key: Key, frame: seq<byte>): (v: Option<Outcome>)
    ensures v.Some? ==> v.value.Aborted? || v.value.Returned?
  {
    match ParseResponse(frame)
    case Err(_) => None
    case Ok(m) =>
      if m.key != key then None
      else if m.Abort? then Some(Aborted(m.code))
      else Some(Returned(m))
  }

  /** The server's replies decide as they should for their own object; for another object, or when
      malformed, a frame decides nothing. */
  lemma VerdictOfReplies(key: Key, other: Key, data: seq<byte>, code: nat, frame: seq<byte>)
    requires key.InRange() && 1 <= |data| <= 4 && code < 0x1_0000_0000
    ensures Verdict(other, BuildDownloadResponse(key))
         == if other == key then Some(Returned(Download(key, []))) else None
    ensures Verdict(other, BuildUploadResponse(key, data).value)
         == if other == key then Some(Returned(Upload(key, data))) else None
    ensures Verdict(other, BuildAbort(key, code)) == if other == key then Some(Aborted(code)) else None
    ensures |frame| != 8 ==> Verdict(other, frame).None?
  {
    ParseResponseInverts(key, data, code);
  }

  function Finish(s: State, call: Call, outcome: Outcome): State {
    s.(pc := Done(call, outcome),
       aborts := if outcome.Aborted? then s.aborts + 1 else s.aborts,
       returned := if outcome.Returned? then s.returned + 1 else s.returned,
       failedSends := if outcome.SendFailed? then s.failedSends + 1 else s.failedSends)
  }

  function ClientStep(cfg: Config, s: State): State {
    match s.pc
    case Draining(c, a) =>
      if s.queue != [] then s.(queue := s.queue[1..])
      else s.(pc := Sending(c, a), transactions := s.transactions + 1)
    case Sending(c, a) =>
      s.(pc := Arming(c, a), requests := s.requests + [c.request],
         sent := s.sent + [CanFrame(cfg.requestId, c.request)])
    case Arming(c, a) =>
      s.(pc := Checking(c, a, s.now + cfg.timeout))
    case Checking(c, a, deadline) =>
      if deadline - s.now <= 0 then
        var t := s.(timeouts := s.timeouts + 1);
        if a < cfg.retries then t.(pc := Draining(c, a + 1)) else Finish(t, c, TimedOut)
      else s.(pc := Getting(c, a, deadline))
    case Getting(c, a, deadline) =>
      if s.queue == [] then
        if s.now >= deadline then s.(pc := Checking(c, a, deadline)) else s
      else
        var t := s.(queue := s.queue[1..]);
        (match Verdict(c.key, s.queue[0])
         case None => t.(pc := Checking(c, a, deadline))
         case Some(outcome) => Finish(t, c, outcome))
    case Idle => s
    case Done(_, _) => s
  }

  predicate NoiseAllowed(pc: Pc, frame: seq<byte>) {
    pc.Idle? || pc.Done? || Verdict(pc.call.key, frame).None?
  }

  function Apply(cfg: Config, s: State, step: Step): State {
    match step
    case Start(c) => if s.Ready() then s.(pc := Draining(c, 0)) else s
    case Client => ClientStep(cfg, s)
    case SendFails => if s.pc.Sending? then Finish(s, s.pc.call, SendFailed) else s
    case Tick(elapsed) => s.(now := s.now + elapsed)
    case Serve =>
      if s.requests == [] then s else
        var (server, reply) := s.server.Serve(s.requests[0]);
        s.(requests := s.requests[1..], server := server,
           replies := match reply { case Some(r) => s.replies + [r] case None => s.replies })
    case LoseRequest => if s.requests == [] then s else s.(requests := s.requests[1..])
    case LoseReply => if s.replies == [] then s else s.(replies := s.replies[1..])
    case Deliver =>
      if s.replies == [] then s else s.(replies := s.replies[1..], queue := s.queue + [s.replies[0]])
    case Noise(frame) => if NoiseAllowed(s.pc, frame) then s.(queue := s.queue + [frame]) else s
  }

  function Run(cfg: Config, s: State, steps: seq<Step>): State
    decreases |steps|
  {
    if steps == [] then s
    else Apply(cfg, Run(cfg, s, steps[..|steps| - 1]), steps[|steps| - 1])
  }

  /** No second call starts: the steps stay inside one call. */
  ghost predicate WithinCall(steps: seq<Step>) {
    forall i | 0 <= i < |steps| :: !steps[i].Start?
  }

  function Begin(s: State, call: Call): State { s.(pc := Draining(call, 0)) }

  lemma RunSnoc(cfg: Config, s: State, steps: seq<Step>, x: Step)
    ensures Run(cfg, s, steps + [x]) == Apply(cfg, Run(cfg, s, steps), x)
  {
    assert (steps + [x])[..|steps + [x]| - 1] == steps;
  }

  lemma {:induction false} RunConcat(cfg: Config, s: State, a: seq<Step>, b: seq<Step>)
    ensures Run(cfg, s, a + b) == Run(cfg, Run(cfg, s, a), b)
    decreases |b|
  {
    if b == [] {
      assert a + b == a;
    } else {
      var front := b[..|b| - 1];
      RunConcat(cfg, s, a, front);
      assert a + b == (a + front) + [b[|b| - 1]];
      RunSnoc(cfg, s, a + front, b[|b| - 1]);
    }
  }
}
