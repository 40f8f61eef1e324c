/** How often a write is executed, and what a read after it yields, over every run. */
module SdoWrites {
  import opened Bytes
  import opened SdoCodec
  import opened SdoServer
  import opened SdoProtocol
  import opened SdoSoundness
  import opened SdoHazards
  import opened SdoErrors
  import opened SdoAccounting
  import opened SdoPerObject

  // --------------------------------------------------------------- how often

  lemma StepWrites(cfg: Config, s: State, step: Step)
    ensures (var t := Apply(cfg, s, step);
             |s.sent| <= |t.sent|
             && |t.server.writes| + |t.requests| + |s.sent| <= |s.server.writes| + |s.requests| + |t.sent|)
  {
  }

  /** Any number of calls: the server executes at most one write for each request that was in flight
      and each frame sent since, less those still in flight. */
  lemma {:induction false} WritesBounded(cfg: Config, s: State, steps: seq<Step>)
    ensures (var t := Run(cfg, s, steps);
             |s.sent| <= |t.sent|
             && |t.server.writes| + |t.requests| + |s.sent| <= |s.server.writes| + |s.requests| + |t.sent|)
    decreases |steps|
  {
    if steps != [] {
      WritesBounded(cfg, s, steps[..|steps| - 1]);
      StepWrites(cfg, Run(cfg, s, steps[..|steps| - 1]), steps[|steps| - 1]);
    }
  }

  ghost predicate OnlyWrites(before: Server, after: Server, w: Write) {
    before.writes <= after.writes && forall i | |before.writes| <= i < |after.writes| :: after.writes[i] == w
  }

  ghost predicate OnlyOwn(begin: State, s: State, w: Write)
    requires !begin.pc.Idle?
  {
    && InCall(s.pc, begin.pc.call) && OnlyWrites(begin.server, s.server, w)
    && forall i | 0 <= i < |s.requests| :: s.requests[i] == begin.pc.call.request
  }

  lemma StepOnlyOwn(cfg: Config, begin: State, s: State, step: Step, w: Write)
    requires !begin.pc.Idle? && OnlyOwn(begin, s, w) && !step.Start?
    requires ParseRequest(begin.pc.call.request) == Ok(Download(w.key, w.data))
    ensures OnlyOwn(begin, Apply(cfg, s, step), w)
  {
  }

  lemma {:induction false} RunOnlyOwn(cfg: Config, begin: State, steps: seq<Step>, w: Write)
    requires !begin.pc.Idle? && begin.requests == [] && WithinCall(steps)
    requires ParseRequest(begin.pc.call.request) == Ok(Download(w.key, w.data))
    ensures OnlyOwn(begin, Run(cfg, begin, steps), w)
    decreases |steps|
  {
    if steps != [] {
      RunOnlyOwn(cfg, begin, steps[..|steps| - 1], w);
      StepOnlyOwn(cfg, begin, Run(cfg, begin, steps[..|steps| - 1]), steps[|steps| - 1], w);
    }
  }

  /** From empty channels: all a download ever makes the server execute is its own write, at most once
      per frame sent and so at most retries + 1 times, and at least once if it returns. */
  lemma DownloadExecutions(cfg: Config, s: State, key: Key, data: seq<byte>, steps: seq<Step>)
    requires key.InRange() && 1 <= |data| <= 4 && s.requests == [] && s.replies == [] && WithinCall(steps)
    ensures (var t := Run(cfg, Begin(s, DownloadCall(key, data)), steps);
             && OnlyWrites(s.server, t.server, Write(key, data))
             && |t.server.writes| - |s.server.writes| <= |t.sent| - |s.sent| <= cfg.retries + 1
             && (DownloadReturns(cfg, s, key, data, steps) ==> |t.server.writes| > |s.server.writes|))
  {
    var begin := Begin(s, DownloadCall(key, data));
    ParseRequestInverts(key, data);
    RunOnlyOwn(cfg, begin, steps, Write(key, data));
    WritesBounded(cfg, begin, steps);
    CallOnSchedule(cfg, begin, steps);
    if DownloadFooled(cfg, s, key, data, steps) {
      DownloadSound(cfg, s, key, data, steps);
    }
  }

  // --------------------------------------------------------- read your writes

  /** This request does not give the object another value. */
  ghost predicate Harmless(key: Key, data: seq<byte>, request: seq<byte>) {
    RequestFor(key, request) ==>
      ParseRequest(request).value.Upload? || Payload(ParseRequest(request).value) == data
  }

  ghost predicate HarmlessCalls(key: Key, data: seq<byte>, steps: seq<Step>) {
    forall i | 0 <= i < |steps| && steps[i].Start? :: Harmless(key, data, steps[i].call.request)
  }

  ghost predicate TellsOther(key: Key, data: seq<byte>, reply: seq<byte>) {
    TellsValue(key, reply) && ParseResponse(reply).value.data != data
  }

  /** The object holds the value if it holds any, and nothing under way changes or denies it. */
  ghost predicate Settled(key: Key, data: seq<byte>, s: State) {
    && (key in s.server.od ==> s.server.od[key] == data)
    && (forall q | q in s.requests :: Harmless(key, data, q))
    && (forall r | r in s.replies :: !TellsOther(key, data, r))
    && (!s.pc.Idle? ==> Harmless(key, data, s.pc.call.request))
    && (!s.pc.Idle? && s.pc.call.key == key ==>
          && (!s.pc.Done? && !(s.pc.Draining? && s.pc.attempt == 0) ==>
                forall f | f in s.queue :: !TellsOther(key, data, f))
          && (s.pc.Done? && s.pc.outcome.Returned? && s.pc.outcome.response.Upload? ==>
                s.pc.outcome.response.data == data))
  }

  lemma ServeKeepsSettled(cfg: Config, key: Key, data: seq<byte>, s: State)
    requires Settled(key, data, s)
    ensures Settled(key, data, Apply(cfg, s, Serve))
  {
    if s.requests != [] {
      assert s.requests[0] in s.requests;
      ParsedRequestShape(s.requests[0]);
      if s.server.Serve(s.requests[0]).1.Some? {
        ReplyMeaning(s.server, s.requests[0]);
      }
    }
  }

  lemma ClientKeepsSettled(cfg: Config, key: Key, data: seq<byte>, s: State)
    requires Settled(key, data, s)
    ensures Settled(key, data, ClientStep(cfg, s))
  {
    if s.pc.Getting? && s.queue != [] {
      PollKeepsSettled(cfg, key, data, s);
    }
  }

  lemma PollKeepsSettled(cfg: Config, key: Key, data: seq<byte>, s: State)
    requires Settled(key, data, s) && s.pc.Getting? && s.queue != []
    ensures Settled(key, data, ClientStep(cfg, s))
  {
    assert s.queue[0] in s.queue;
  }

  lemma OthersKeepSettled(cfg: Config, key: Key, data: seq<byte>, s: State, step: Step)
    requires Settled(key, data, s) && !step.Client? && !step.Serve?
    requires step.Start? ==> Harmless(key, data, step.call.request)
    ensures Settled(key, data, Apply(cfg, s, step))
  {
  }

  lemma {:induction false} RunSettled(cfg: Config, key: Key, data: seq<byte>, s: State, steps: seq<Step>)
    requires Settled(key, data, s) && HarmlessCalls(key, data, steps)
    ensures Settled(key, data, Run(cfg, s, steps))
    decreases |steps|
  {
    if steps != [] {
      var (front, x) := (steps[..|steps| - 1], steps[|steps| - 1]);
      RunSettled(cfg, key, data, s, front);
      match x {
        case Client => ClientKeepsSettled(cfg, key, data, Run(cfg, s, front));
        case Serve => ServeKeepsSettled(cfg, key, data, Run(cfg, s, front));
        case _ => OthersKeepSettled(cfg, key, data, Run(cfg, s, front), x);
      }
    }
  }

  /** While a write is under way and nothing else about the object is: once it has been executed, the
      object holds its value. */
  ghost predicate Writing(w: Write, begin: State, s: State)
    requires !begin.pc.Idle?
  {
    && InCall(s.pc, begin.pc.call) && begin.server.writes <= s.server.writes
    && (Write(w.key, w.data) in s.server.writes[|begin.server.writes|..] && w.key in s.server.od ==>
          s.server.od[w.key] == w.data)
    && (forall q | q in s.requests && RequestFor(w.key, q) :: q == begin.pc.call.request)
    && (forall r | r in s.replies :: !TellsValue(w.key, r))
  }

  lemma ServeKeepsWriting(cfg: Config, w: Write, begin: State, s: State)
    requires !begin.pc.Idle? && ParseRequest(begin.pc.call.request) == Ok(Download(w.key, w.data))
    requires Writing(w, begin, s)
    ensures Writing(w, begin, Apply(cfg, s, Serve))
  {
    if s.requests != [] {
      var q := s.requests[0];
      assert q in s.requests;
      ServeKeepsObjects(s.server, q);
      if s.server.Serve(q).1.Some? {
        ReplyMeaning(s.server, q);
      }
      if !RequestFor(w.key, q) && w in s.server.Serve(q).0.writes[|begin.server.writes|..] {
        ExecutedBefore(begin.server, s.server, q, w);
      }
    }
  }

  /** Serving a request for another object puts no write of this one into the log. */
  lemma ExecutedBefore(begin: Server, s: Server, q: seq<byte>, w: Write)
    requires begin.writes <= s.writes
    requires w in s.Serve(q).0.writes[|begin.writes|..] && !RequestFor(w.key, q)
    ensures w in s.writes[|begin.writes|..]
  {
    var after := s.Serve(q).0.writes;
    var i :| |begin.writes| <= i < |after| && after[i] == w;
    if i < |s.writes| {
      assert s.writes[|begin.writes|..][i - |begin.writes|] == w;
    }
  }

  lemma OthersKeepWriting(cfg: Config, w: Write, begin: State, s: State, step: Step)
    requires !begin.pc.Idle? && Writing(w, begin, s) && !step.Serve? && !step.Start?
    ensures Writing(w, begin, Apply(cfg, s, step))
  {
  }

  lemma {:induction false} RunWriting(cfg: Config, w: Write, begin: State, steps: seq<Step>)
    requires !begin.pc.Idle? && ParseRequest(begin.pc.call.request) == Ok(Download(w.key, w.data))
    requires InFlight(w.key, begin) == 0 && WithinCall(steps)
    ensures Writing(w, begin, Run(cfg, begin, steps))
    decreases |steps|
  {
    if steps == [] {
      NoneInFlight(w.key, begin);
    } else {
      var (front, x) := (steps[..|steps| - 1], steps[|steps| - 1]);
      RunWriting(cfg, w, begin, front);
      if x.Serve? {
        ServeKeepsWriting(cfg, w, begin, Run(cfg, begin, front));
      } else {
        OthersKeepWriting(cfg, w, begin, Run(cfg, begin, front), x);
      }
    }
  }

  /** Where a returned download leaves the object, its retries still in flight included. */
  lemma ReturnedSettles(cfg: Config, s: State, key: Key, data: seq<byte>, steps: seq<Step>)
    requires key.InRange() && 1 <= |data| <= 4 && InFlight(key, s) == 0
    requires DownloadReturns(cfg, s, key, data, steps)
    ensures Settled(key, data, Run(cfg, Begin(s, DownloadCall(key, data)), steps))
  {
    var begin := Begin(s, DownloadCall(key, data));
    ParseRequestInverts(key, data);
    NoneInFlightTrusted(cfg, s, key, data, steps);
    RunWriting(cfg, Write(key, data), begin, steps);
  }

  /** Read your writes, in every run: a download that returns, then any calls that do not write another
      value to the object, then an upload that returns, yields what was written. Timeouts, losses and
      retries of all of them are allowed. */
  lemma ReadYourWrites(cfg: Config, s: State, key: Key, data: seq<byte>, write: seq<Step>, between: seq<Step>,
                       read: seq<Step>, got: seq<byte>)
    requires key.InRange() && 1 <= |data| <= 4 && InFlight(key, s) == 0
    requires DownloadReturns(cfg, s, key, data, write) && HarmlessCalls(key, data, between)
    requires UploadReturns(cfg, Run(cfg, Run(cfg, Begin(s, DownloadCall(key, data)), write), between), key, got, read)
    ensures got == data
  {
    var written := Run(cfg, Begin(s, DownloadCall(key, data)), write);
    ReturnedSettles(cfg, s, key, data, write);
    RunSettled(cfg, key, data, written, between);
    var later := Run(cfg, written, between);
    ParseRequestInverts(key, data);
    RunSettled(cfg, key, data, Begin(later, UploadCall(key)), read);
    UploadEndsForKey(cfg, later, key, read);
  }

  lemma UploadEndsForKey(cfg: Config, s: State, key: Key, steps: seq<Step>)
    requires WithinCall(steps)
    ensures InCall(Run(cfg, Begin(s, UploadCall(key)), steps).pc, UploadCall(key))
  {
    RunTraced(cfg, Begin(s, UploadCall(key)), steps);
  }

  /** write_uN, then read_uN: the value mod 2^N, over every such run. */
  lemma TypedReadYourWrites(cfg: Config, s: State, key: Key, value: int, data: seq<byte>, write: seq<Step>,
                            between: seq<Step>, read: seq<Step>, got: seq<byte>)
    requires key.InRange() && data in [WriteU8(value), WriteU16(value), WriteU32(value)] && InFlight(key, s) == 0
    requires DownloadReturns(cfg, s, key, data, write) && HarmlessCalls(key, data, between)
    requires UploadReturns(cfg, Run(cfg, Run(cfg, Begin(s, DownloadCall(key, data)), write), between), key, got, read)
    ensures data == WriteU8(value) ==> got != [] && ReadU8(got) == value % 0x100
    ensures data == WriteU16(value) ==> ReadU16(got) == value % 0x1_0000
    ensures data == WriteU32(value) ==> ReadU32(got) == value % 0x1_0000_0000
  {
    ReadYourWrites(cfg, s, key, data, write, between, read, got);
    TypedValuesRoundTrip(value);
  }
}
