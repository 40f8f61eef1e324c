/** Where leftovers come from: only from attempts that timed out. As long as no
    attempt does, every call of a whole run finds the channels empty, and what it
    returns can be trusted. */
module SdoLeftovers {
  import opened Bytes
  import opened SdoCodec
  import opened SdoServer
  import opened SdoProtocol
  import opened SdoHazards
  import opened SdoErrors

  ghost predicate NoneDecides(key: Key, queue: seq<seq<byte>>) {
    forall i | 0 <= i < |queue| :: Verdict(key, queue[i]).None?
  }

  ghost predicate OneDecides(key: Key, queue: seq<seq<byte>>) {
    forall i, j | 0 <= i < j < |queue| :: Verdict(key, queue[i]).None? || Verdict(key, queue[j]).None?
  }

  /** At most one frame or request that could decide the call exists, and between calls none is in flight. */
  ghost predicate Tidy(s: State) {
    match s.pc
    case Idle => s.requests == [] && s.replies == []
    case Done(_, _) => s.requests == [] && s.replies == []
    case Draining(_, _) => s.requests == [] && s.replies == []
    case Sending(c, _) => s.requests == [] && s.replies == [] && NoneDecides(c.key, s.queue)
    case Arming(c, _) => OneAtMost(c.key, s)
    case Checking(c, _, _) => OneAtMost(c.key, s)
    case Getting(c, _, _) => OneAtMost(c.key, s)
  }

  ghost predicate OneAtMost(key: Key, s: State) {
    || (|s.requests| + |s.replies| <= 1 && NoneDecides(key, s.queue))
    || (s.requests == [] && s.replies == [] && OneDecides(key, s.queue))
  }

  lemma ClientKeepsTidy(cfg: Config, s: State)
    requires Tidy(s) && ClientStep(cfg, s).timeouts == s.timeouts
    ensures Tidy(ClientStep(cfg, s))
  {
    if s.pc.Getting? && s.queue != [] {
      var rest := s.queue[1..];
      assert forall i | 0 <= i < |rest| :: rest[i] == s.queue[i + 1];
    }
  }

  lemma OthersKeepTidy(cfg: Config, s: State, step: Step)
    requires Tidy(s) && !step.Client?
    ensures Tidy(Apply(cfg, s, step))
  {
  }

  lemma {:induction false} TidyWithoutTimeouts(cfg: Config, s: State, steps: seq<Step>)
    requires Tidy(s)
    ensures Run(cfg, s, steps).timeouts >= s.timeouts
    ensures Run(cfg, s, steps).timeouts == s.timeouts ==> Tidy(Run(cfg, s, steps))
    decreases |steps|
  {
    if steps != [] {
      var front := steps[..|steps| - 1];
      TidyWithoutTimeouts(cfg, s, front);
      var t := Run(cfg, s, front);
      if Run(cfg, s, steps).timeouts == s.timeouts {
        if steps[|steps| - 1].Client? {
          ClientKeepsTidy(cfg, t);
        } else {
          OthersKeepTidy(cfg, t, steps[|steps| - 1]);
        }
      }
    }
  }

  /** Whole-run soundness: any number of calls on any objects, with losses, noise and failed sends,
      but no timed-out attempt; the next download or upload that returns tells the truth, none raises
      SdoProtocolError, and an abort is the server's answer to this very call. */
  lemma TrustworthyWithoutTimeouts(cfg: Config, s: State, past: seq<Step>, key: Key, data: seq<byte>, steps: seq<Step>)
    requires s.pc.Idle? && s.requests == [] && s.replies == []
    requires Run(cfg, s, past).timeouts == s.timeouts && Run(cfg, s, past).Ready()
    ensures 1 <= |data| <= 4 ==>
              !DownloadFooled(cfg, Run(cfg, s, past), key, data, steps)
              && !DownloadMisanswered(cfg, Run(cfg, s, past), key, data, steps)
    ensures !UploadFooled(cfg, Run(cfg, s, past), key, data, steps)
    ensures !UploadMisanswered(cfg, Run(cfg, s, past), key, steps)
    ensures forall call, code :: !AbortFooled(cfg, Run(cfg, s, past), call, code, steps)
  {
    TidyWithoutTimeouts(cfg, s, past);
    var t := Run(cfg, s, past);
    if 1 <= |data| <= 4 && DownloadFooled(cfg, t, key, data, steps) {
      DownloadSound(cfg, t, key, data, steps);
    }
    if 1 <= |data| <= 4 && DownloadMisanswered(cfg, t, key, data, steps) {
      DownloadMisansweredSound(cfg, t, key, data, steps);
    }
    if UploadFooled(cfg, t, key, data, steps) {
      UploadSound(cfg, t, key, data, steps);
    }
    if UploadMisanswered(cfg, t, key, steps) {
      UploadMisansweredExact(cfg, t, key);
    }
    forall call, code ensures !AbortFooled(cfg, t, call, code, steps) {
      if AbortFooled(cfg, t, call, code, steps) {
        AbortSound(cfg, t, call, code, steps);
      }
    }
  }

  /** One timed-out attempt is enough, and no send need fail: from any clean start, a write can end
      while a request of it is still under way - given up on, or, with retries, answered in time - and
      the next write of another value to the same object can then return without having been executed. */
  lemma TimeoutCanFool(cfg: Config, s: State, key: Key, first: seq<byte>, second: seq<byte>)
    returns (past: seq<Step>, steps: seq<Step>)
    requires s.pc.Idle? && s.requests == [] && s.replies == [] && s.queue == [] && cfg.timeout > 0
    requires key.InRange() && s.server.Accepts(key)
    requires 1 <= |first| <= 4 && 1 <= |second| <= 4 && first != second
    ensures (var t := Run(cfg, s, past);
             t.Ready() && t.timeouts == s.timeouts + 1 && t.failedSends == s.failedSends
             && DownloadFooled(cfg, t, key, second, steps))
  {
    ParseRequestInverts(key, first);
    Acknowledged(s.server, key, first);
    past := LeaveBehind(cfg, s, DownloadCall(key, first));
    var t := Run(cfg, s, past);
    assert WritesOther(t.server, key, second, t.requests[0]);
    DownloadExact(cfg, t, key, second);
    steps :| DownloadFooled(cfg, t, key, second, steps);
  }

  /** Reads are fooled after two timed-out attempts: a read is given up on, then a write of another
      value, both are served late, and the next read returns the value from before the write. */
  lemma TimeoutsCanFoolUpload(cfg: Config, s: State, key: Key, data: seq<byte>)
    returns (past: seq<Step>, steps: seq<Step>)
    requires s.pc.Idle? && s.requests == [] && s.replies == [] && s.queue == [] && cfg.timeout > 0
    requires key.InRange() && s.server.Accepts(key) && key !in s.server.writeOnly && Fits(s.server, key)
    requires 1 <= |data| <= 4 && data != s.server.od[key]
    ensures (var t := Run(cfg, s, past);
             t.Ready() && t.timeouts == s.timeouts + 2
             && UploadFooled(cfg, t, key, s.server.od[key], steps))
  {
    var read := GiveUp(cfg, s, UploadCall(key));
    var t1 := Run(cfg, s, read);
    var write := GiveUp(cfg, t1, DownloadCall(key, data));
    RunConcat(cfg, s, read, write);
    var late := read + write;
    RunSnoc(cfg, s, late, Serve);
    RunSnoc(cfg, s, late + [Serve], Serve);
    past := late + [Serve] + [Serve];
    ServedLate(s.server, key, data);
    var t := Run(cfg, s, past);
    assert StaleValue(t, key, s.server.od[key], t.replies[0]);
    UploadExact(cfg, t, key, s.server.od[key]);
    steps :| UploadFooled(cfg, t, key, s.server.od[key], steps);
  }

  /** A read and then a write, served in this order. */
  lemma ServedLate(server: Server, key: Key, data: seq<byte>)
    requires key.InRange() && server.Accepts(key) && key !in server.writeOnly && Fits(server, key)
    requires 1 <= |data| <= 4
    ensures (var (t, told) := server.Serve(BuildUpload(key));
             t == server && told.Some? && ParseResponse(told.value) == Ok(Upload(key, server.od[key])))
    ensures Holds(server.Serve(BuildDownload(key, data).value).0, key, data)
  {
    ParseRequestInverts(key, data);
    ParseResponseInverts(key, server.od[key], 0);
  }

  /** After one timed-out write, a read of the object can raise SdoProtocolError. */
  lemma TimeoutCanMisanswerUpload(cfg: Config, s: State, key: Key, data: seq<byte>)
    returns (past: seq<Step>, steps: seq<Step>)
    requires s.pc.Idle? && s.requests == [] && s.queue == [] && cfg.timeout > 0
    requires key.InRange() && s.server.Accepts(key) && 1 <= |data| <= 4
    ensures (var t := Run(cfg, s, past);
             t.Ready() && t.timeouts == s.timeouts + 1 && t.failedSends == s.failedSends
             && UploadMisanswered(cfg, t, key, steps))
  {
    ParseRequestInverts(key, data);
    Acknowledged(s.server, key, data);
    past := LeaveBehind(cfg, s, DownloadCall(key, data));
    var t := Run(cfg, s, past);
    assert WillBeAcknowledged(t.server, key, t.requests[0]);
    UploadMisansweredExact(cfg, t, key);
    steps :| UploadMisanswered(cfg, t, key, steps);
  }

  /** After one timed-out read, a write of the object can raise SdoProtocolError. */
  lemma TimeoutCanMisanswerDownload(cfg: Config, s: State, key: Key, data: seq<byte>)
    returns (past: seq<Step>, steps: seq<Step>)
    requires s.pc.Idle? && s.requests == [] && s.queue == [] && cfg.timeout > 0
    requires key.InRange() && key !in s.server.writeOnly && Fits(s.server, key) && 1 <= |data| <= 4
    ensures (var t := Run(cfg, s, past);
             t.Ready() && t.timeouts == s.timeouts + 1 && t.failedSends == s.failedSends
             && DownloadMisanswered(cfg, t, key, data, steps))
  {
    ParseRequestInverts(key, data);
    ParseResponseInverts(key, s.server.od[key], 0);
    past := LeaveBehind(cfg, s, UploadCall(key));
    var t := Run(cfg, s, past);
    assert ReadAnswerable(t.server, key, t.requests, 0);
    DownloadMisansweredExact(cfg, t, key, data);
    steps :| DownloadMisanswered(cfg, t, key, data, steps);
  }

  /** After one timed-out read of a write-only object, a write of it can be reported as aborted although
      the server never refused it. */
  lemma TimeoutCanAbort(cfg: Config, s: State, key: Key, data: seq<byte>)
    returns (past: seq<Step>, steps: seq<Step>)
    requires s.pc.Idle? && s.requests == [] && s.queue == [] && cfg.timeout > 0
    requires key.InRange() && key in s.server.writeOnly && 1 <= |data| <= 4
    ensures (var t := Run(cfg, s, past);
             t.Ready() && t.timeouts == s.timeouts + 1 && t.failedSends == s.failedSends
             && AbortFooled(cfg, t, DownloadCall(key, data), ABORT_WRITE_ONLY, steps))
  {
    ParseRequestInverts(key, data);
    AbortParses(key, ABORT_WRITE_ONLY);
    past := LeaveBehind(cfg, s, UploadCall(key));
    var t := Run(cfg, s, past);
    assert Refuses(t.server, key, ABORT_WRITE_ONLY, t.requests[0]);
    AbortExact(cfg, t, DownloadCall(key, data), ABORT_WRITE_ONLY);
    steps :| AbortFooled(cfg, t, DownloadCall(key, data), ABORT_WRITE_ONLY, steps);
  }

  /** A retried write can be executed twice: the first attempt times out, the retry is answered by the
      first request's acknowledge and the call returns, and the second request is served after that. */
  lemma RetryRepeatsWrite(cfg: Config, s: State, key: Key, data: seq<byte>) returns (past: seq<Step>)
    requires s.pc.Idle? && s.requests == [] && s.queue == [] && cfg.timeout > 0 && cfg.retries > 0
    requires key.InRange() && s.server.Accepts(key) && 1 <= |data| <= 4
    ensures (var t := Run(cfg, s, past);
             && t.pc == Done(DownloadCall(key, data), Returned(Download(key, [])))
             && t.server.writes == s.server.writes + [Write(key, data), Write(key, data)])
  {
    var call := DownloadCall(key, data);
    Acknowledged(s.server, key, data);
    var first := LeaveBehind(cfg, s, call);
    Acknowledged(Run(cfg, s, first).server, key, data);
    RunSnoc(cfg, s, first, Serve);
    past := first + [Serve];
  }

  lemma Acknowledged(server: Server, key: Key, data: seq<byte>)
    requires key.InRange() && server.Accepts(key) && 1 <= |data| <= 4
    ensures (var (t, ack) := server.Serve(BuildDownload(key, data).value);
             && t.Accepts(key) && t.writes == server.writes + [Write(key, data)]
             && ack.Some? && Verdict(key, ack.value) == Some(Returned(Download(key, []))))
  {
    ParseRequestInverts(key, data);
    ParseResponseInverts(key, [], 0);
  }

  /** A call that ends with a copy of its request still in flight after one timed-out attempt: given
      up on if there are no retries, else answered by the reply to its first request. */
  lemma LeaveBehind(cfg: Config, s: State, call: Call) returns (past: seq<Step>)
    requires s.pc.Idle? && s.requests == [] && s.queue == [] && cfg.timeout > 0
    requires s.server.Serve(call.request).1.Some? && Verdict(call.key, s.server.Serve(call.request).1.value).Some?
    ensures (var t := Run(cfg, s, past);
             && t.requests == [call.request] && t.timeouts == s.timeouts + 1 && t.failedSends == s.failedSends
             && if cfg.retries == 0 then t.pc.Done? && t.server == s.server
                else t.pc == Done(call, Verdict(call.key, s.server.Serve(call.request).1.value).value)
                     && t.server == s.server.Serve(call.request).0)
  {
    if cfg.retries == 0 {
      past := GiveUp(cfg, s, call);
    } else {
      var lose := Repeat(LoseReply, |s.replies|);
      RunLoseReplies(cfg, s, |s.replies|);
      var quiet := Run(cfg, s, lose);
      var late := TryTwice(cfg, quiet, call);
      RunConcat(cfg, s, lose, late);
      RunConcat(cfg, s, lose + late, [Deliver, Client]);
      RunLast(cfg, Run(cfg, quiet, late), Verdict(call.key, s.server.Serve(call.request).1.value).value);
      past := lose + late + [Deliver, Client];
    }
  }

  /** The first attempt times out, the second has begun to wait, and then the first request is served. */
  lemma TryTwice(cfg: Config, s: State, call: Call) returns (late: seq<Step>)
    requires s.Ready() && s.requests == [] && s.replies == [] && s.queue == []
    requires cfg.timeout > 0 && cfg.retries > 0 && s.server.Serve(call.request).1.Some?
    ensures (var t := Run(cfg, s, late);
             && t.pc.Getting? && t.pc.call == call && t.queue == [] && t.requests == [call.request]
             && t.replies == [s.server.Serve(call.request).1.value] && t.server == s.server.Serve(call.request).0
             && t.timeouts == s.timeouts + 1 && t.failedSends == s.failedSends)
  {
    var wait := WaitTooLong(cfg, s, call);
    RunSnoc(cfg, s, wait, Client);
    RunSnoc(cfg, s, wait + [Client], Client);
    var again := wait + [Client] + [Client];
    RunConcat(cfg, s, again, Repeat(Client, 4));
    RunFour(cfg, Run(cfg, s, again));
    RunSnoc(cfg, s, again + Repeat(Client, 4), Serve);
    late := again + Repeat(Client, 4) + [Serve];
  }

  /** Start, send, wait past the deadline, and give up: at once without retries, else because the
      second send fails. */
  lemma GiveUp(cfg: Config, s: State, call: Call) returns (past: seq<Step>)
    requires s.Ready() && s.queue == [] && cfg.timeout > 0
    ensures (var t := Run(cfg, s, past);
             && t.pc.Done? && t.queue == [] && t.requests == s.requests + [call.request] && t.replies == s.replies
             && t.server == s.server && t.timeouts == s.timeouts + 1
             && (cfg.retries == 0 ==> t.failedSends == s.failedSends))
  {
    var late := WaitTooLong(cfg, s, call);
    RunSnoc(cfg, s, late, Client);
    RunSnoc(cfg, s, late + [Client], Client);
    past := late + [Client] + [Client];
    if cfg.retries > 0 {
      RunSnoc(cfg, s, past, Client);
      RunSnoc(cfg, s, past + [Client], SendFails);
      past := past + [Client] + [SendFails];
    }
  }

  lemma WaitTooLong(cfg: Config, s: State, call: Call) returns (late: seq<Step>)
    requires s.Ready() && s.queue == [] && cfg.timeout > 0
    ensures (var t := Run(cfg, s, late);
             && t.pc == Getting(call, 0, s.now + cfg.timeout) && t.now == s.now + cfg.timeout
             && t.queue == [] && t.requests == s.requests + [call.request] && t.replies == s.replies
             && t.server == s.server && t.timeouts == s.timeouts && t.failedSends == s.failedSends)
  {
    var sent := Begun(cfg, s, call);
    RunSnoc(cfg, s, sent, Tick(cfg.timeout));
    late := sent + [Tick(cfg.timeout)];
  }

  lemma Begun(cfg: Config, s: State, call: Call) returns (sent: seq<Step>)
    requires s.Ready() && s.queue == [] && cfg.timeout > 0
    ensures (var t := Run(cfg, s, sent);
             && t.pc == Getting(call, 0, s.now + cfg.timeout) && t.now == s.now
             && t.queue == [] && t.requests == s.requests + [call.request] && t.replies == s.replies
             && t.server == s.server && t.timeouts == s.timeouts && t.failedSends == s.failedSends)
  {
    RunSnoc(cfg, s, [], Start(call));
    var start := [] + [Start(call)];
    RunConcat(cfg, s, start, Repeat(Client, 4));
    RunFour(cfg, Begin(s, call));
    sent := start + Repeat(Client, 4);
  }
}
