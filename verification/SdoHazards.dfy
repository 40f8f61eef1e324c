/** The main results about SDO calls: a download that returns wrote exactly its
    payload, and an upload that returns read a value the server held, in every
    run if and only if no leftover of an earlier call can answer in its place. */
module SdoHazards {
  import opened Bytes
  import opened SdoCodec
  import opened SdoServer
  import opened SdoProtocol
  import opened SdoSoundness

  // ------------------------------------------------------- what can go wrong

  ghost predicate Holds(server: Server, key: Key, data: seq<byte>) {
    key in server.od && server.od[key] == data
  }

  function WritesSince(before: Server, after: Server): seq<Write> {
    if |before.writes| <= |after.writes| then after.writes[|before.writes|..] else []
  }

  function DownloadCall(key: Key, data: seq<byte>): Call
    requires 1 <= |data| <= 4
  {
    Call(BuildDownload(key, data).value, key)
  }

  function UploadCall(key: Key): Call { Call(BuildUpload(key), key) }

  /** `download` returns after these steps. */
  ghost predicate DownloadReturns(cfg: Config, s: State, key: Key, data: seq<byte>, steps: seq<Step>)
    requires 1 <= |data| <= 4
  {
    var t := Run(cfg, Begin(s, DownloadCall(key, data)), steps);
    WithinCall(steps) && t.pc.Done? && t.pc.outcome.Returned? && t.pc.outcome.response.Download?
  }

  /** `download` returns although the server executed no such write during the call. */
  ghost predicate DownloadFooled(cfg: Config, s: State, key: Key, data: seq<byte>, steps: seq<Step>)
    requires 1 <= |data| <= 4
  {
    && DownloadReturns(cfg, s, key, data, steps)
    && var t := Run(cfg, Begin(s, DownloadCall(key, data)), steps);
       Write(key, data) !in WritesSince(s.server, t.server)
  }

  /** `upload` returns `data` after these steps. */
  ghost predicate UploadReturns(cfg: Config, s: State, key: Key, data: seq<byte>, steps: seq<Step>) {
    var t := Run(cfg, Begin(s, UploadCall(key)), steps);
    WithinCall(steps) && t.pc.Done? && t.pc.outcome.Returned?
    && t.pc.outcome.response.Upload? && t.pc.outcome.response.data == data
  }

  /** `upload` returns a value the server did not hold at any moment of the call. */
  ghost predicate UploadFooled(cfg: Config, s: State, key: Key, data: seq<byte>, steps: seq<Step>) {
    && UploadReturns(cfg, s, key, data, steps)
    && !HeldDuring(cfg, s, key, data, steps)
  }

  /** The server held `data` at some moment of the upload. */
  ghost predicate HeldDuring(cfg: Config, s: State, key: Key, data: seq<byte>, steps: seq<Step>) {
    exists n | 0 <= n <= |steps| :: Holds(Run(cfg, Begin(s, UploadCall(key)), steps[..n]).server, key, data)
  }

  /** `upload` raises SdoProtocolError: what decided its call was an acknowledge. */
  ghost predicate UploadMisanswered(cfg: Config, s: State, key: Key, steps: seq<Step>) {
    var t := Run(cfg, Begin(s, UploadCall(key)), steps);
    WithinCall(steps) && t.pc.Done? && t.pc.outcome.Returned? && !t.pc.outcome.response.Upload?
  }

  // ------------------------------------------------------------ the leftovers

  ghost predicate Acknowledges(key: Key, reply: seq<byte>) {
    ParseResponse(reply) == Ok(Download(key, []))
  }

  /** A request the server would acknowledge for `key`. */
  ghost predicate WillBeAcknowledged(server: Server, key: Key, request: seq<byte>) {
    ParseRequest(request).Ok? && !ParseRequest(request).value.Upload? && ParseRequest(request).value.key == key
    && server.Accepts(key)
  }

  /** A request that would be acknowledged for `key` without writing `data`. */
  ghost predicate WritesOther(server: Server, key: Key, data: seq<byte>, request: seq<byte>) {
    WillBeAcknowledged(server, key, request) && Payload(ParseRequest(request).value) != data
  }

  /** An earlier call's acknowledge, or an earlier call's other write, is still in flight. */
  ghost predicate AckLeftover(s: State, key: Key, data: seq<byte>) {
    || (exists i :: 0 <= i < |s.replies| && Acknowledges(key, s.replies[i]))
    || (exists j :: 0 <= j < |s.requests| && WritesOther(s.server, key, data, s.requests[j]))
  }

  ghost predicate WriteLeftover(s: State, key: Key) {
    || (exists i :: 0 <= i < |s.replies| && Acknowledges(key, s.replies[i]))
    || (exists j :: 0 <= j < |s.requests| && WillBeAcknowledged(s.server, key, s.requests[j]))
  }

  /** An earlier upload's response is still in flight and no longer tells the truth. */
  ghost predicate StaleValue(s: State, key: Key, data: seq<byte>, reply: seq<byte>) {
    ParseResponse(reply) == Ok(Upload(key, data)) && !Holds(s.server, key, data)
  }

  ghost predicate ValueLeftover(s: State, key: Key, data: seq<byte>) {
    exists i :: 0 <= i < |s.replies| && StaleValue(s, key, data, s.replies[i])
  }

  // --------------------------------------------------------------- soundness

  lemma {:induction false} NoTimeNoAnswer(cfg: Config, begin: State, steps: seq<Step>)
    requires begin.pc.Draining? && WithinCall(steps) && cfg.timeout <= 0
    ensures (var t := Run(cfg, begin, steps);
             !t.pc.Getting? && !t.pc.Idle? && (t.pc.Checking? ==> t.pc.deadline <= t.now)
             && (t.pc.Done? ==> !t.pc.outcome.Returned? && !t.pc.outcome.Aborted?))
    decreases |steps|
  {
    if steps != [] {
      NoTimeNoAnswer(cfg, begin, steps[..|steps| - 1]);
    }
  }

  lemma DownloadSound(cfg: Config, s: State, key: Key, data: seq<byte>, steps: seq<Step>)
    requires 1 <= |data| <= 4 && DownloadFooled(cfg, s, key, data, steps)
    ensures cfg.timeout > 0 && AckLeftover(s, key, data)
  {
    var begin := Begin(s, DownloadCall(key, data));
    if cfg.timeout <= 0 {
      NoTimeNoAnswer(cfg, begin, steps);
    }
    var frame, fromExec, e := ResponseOrigin(cfg, begin, steps);
    ParsedResponseShape(frame);
    assert Acknowledges(key, frame);
    if fromExec {
      var before := Run(cfg, begin, steps[..e.at]).server;
      ReplyMeaning(before, e.request);
      RunServer(cfg, begin, steps[..e.at]);
      ParseRequestInverts(key, data);
      assert e.request in s.requests && WritesOther(s.server, key, data, e.request);
    }
  }

  lemma UploadSound(cfg: Config, s: State, key: Key, data: seq<byte>, steps: seq<Step>)
    requires UploadFooled(cfg, s, key, data, steps)
    ensures cfg.timeout > 0 && ValueLeftover(s, key, data)
  {
    var begin := Begin(s, UploadCall(key));
    if cfg.timeout <= 0 {
      NoTimeNoAnswer(cfg, begin, steps);
    }
    var frame, fromExec, e := ResponseOrigin(cfg, begin, steps);
    if fromExec {
      ReplyMeaning(Run(cfg, begin, steps[..e.at]).server, e.request);
    } else {
      assert steps[..0] == [];
      assert StaleValue(s, key, data, frame);
    }
  }

  // ------------------------------------------------------- the fooling runs

  function Repeat(x: Step, n: nat): (r: seq<Step>)
    ensures |r| == n && forall i | 0 <= i < n :: r[i] == x
  {
    seq(n, _ => x)
  }

  lemma {:induction false} RunLoseReplies(cfg: Config, s: State, n: nat)
    requires n <= |s.replies|
    ensures Run(cfg, s, Repeat(LoseReply, n)) == s.(replies := s.replies[n..])
  {
    if n > 0 {
      RunLoseReplies(cfg, s, n - 1);
      assert Repeat(LoseReply, n) == Repeat(LoseReply, n - 1) + [LoseReply];
      RunSnoc(cfg, s, Repeat(LoseReply, n - 1), LoseReply);
    }
  }

  lemma {:induction false} RunLoseRequests(cfg: Config, s: State, n: nat)
    requires n <= |s.requests|
    ensures Run(cfg, s, Repeat(LoseRequest, n)) == s.(requests := s.requests[n..])
  {
    if n > 0 {
      RunLoseRequests(cfg, s, n - 1);
      assert Repeat(LoseRequest, n) == Repeat(LoseRequest, n - 1) + [LoseRequest];
      RunSnoc(cfg, s, Repeat(LoseRequest, n - 1), LoseRequest);
    }
  }

  lemma {:induction false} RunDrain(cfg: Config, s: State, n: nat)
    requires s.pc.Draining? && n <= |s.queue|
    ensures Run(cfg, s, Repeat(Client, n)) == s.(queue := s.queue[n..])
  {
    if n > 0 {
      RunDrain(cfg, s, n - 1);
      assert Repeat(Client, n) == Repeat(Client, n - 1) + [Client];
      RunSnoc(cfg, s, Repeat(Client, n - 1), Client);
    }
  }

  lemma RunFour(cfg: Config, s: State)
    requires s.pc.Draining? && s.queue == [] && cfg.timeout > 0
    ensures Run(cfg, s, Repeat(Client, 4))
         == s.(pc := Getting(s.pc.call, s.pc.attempt, s.now + cfg.timeout), transactions := s.transactions + 1,
               requests := s.requests + [s.pc.call.request],
               sent := s.sent + [CanFrame(cfg.requestId, s.pc.call.request)])
  {
    var c := [Client];
    assert Repeat(Client, 4) == (((([] + c) + c) + c) + c);
    RunSnoc(cfg, s, [], Client);
    RunSnoc(cfg, s, [] + c, Client);
    RunSnoc(cfg, s, ([] + c) + c, Client);
    RunSnoc(cfg, s, (([] + c) + c) + c, Client);
  }

  predicate Undisturbed(s: State, t: State) {
    t.server == s.server && t.requests == s.requests && t.timeouts == s.timeouts && t.failedSends == s.failedSends
  }

  lemma RunLast(cfg: Config, s: State, outcome: Outcome)
    requires s.pc.Getting? && s.queue == [] && s.replies != [] && Verdict(s.pc.call.key, s.replies[0]) == Some(outcome)
    ensures Run(cfg, s, [Deliver, Client]).pc == Done(s.pc.call, outcome)
    ensures Undisturbed(s, Run(cfg, s, [Deliver, Client]))
  {
    var t := s.(replies := s.replies[1..], queue := [s.replies[0]]);
    RunSnoc(cfg, s, [], Deliver);
    assert Run(cfg, s, [] + [Deliver]) == t;
    RunSnoc(cfg, s, [] + [Deliver], Client);
    assert [Deliver, Client] == [] + [Deliver] + [Client];
    DecisiveFrame(cfg, t, outcome);
  }

  lemma DecisiveFrame(cfg: Config, s: State, outcome: Outcome)
    requires s.pc.Getting? && s.queue != [] && Verdict(s.pc.call.key, s.queue[0]) == Some(outcome)
    ensures ClientStep(cfg, s).pc == Done(s.pc.call, outcome) && Undisturbed(s, ClientStep(cfg, s))
  {
  }

  /** Any decisive reply already in flight can be the one that decides the call. */
  lemma AnyReplyCanAnswer(cfg: Config, begin: State, i: nat, outcome: Outcome) returns (steps: seq<Step>)
    requires begin.pc.Draining? && cfg.timeout > 0
    requires i < |begin.replies| && Verdict(begin.pc.call.key, begin.replies[i]) == Some(outcome)
    ensures WithinCall(steps) && forall n | 0 <= n < |steps| :: !steps[n].Serve?
    ensures Run(cfg, begin, steps).pc == Done(begin.pc.call, outcome)
    ensures Run(cfg, begin, steps).server == begin.server
  {
    var lose, drain := Repeat(LoseReply, i), Repeat(Client, |begin.queue|);
    RunLoseReplies(cfg, begin, i);
    RunConcat(cfg, begin, lose, drain);
    RunDrain(cfg, Run(cfg, begin, lose), |begin.queue|);
    var waiting := Run(cfg, begin, lose + drain);
    steps := lose + drain + (Repeat(Client, 4) + [Deliver, Client]);
    RunConcat(cfg, begin, lose + drain, Repeat(Client, 4) + [Deliver, Client]);
    RunSix(cfg, waiting, outcome);
  }

  /** Drained, the client sends, and takes the reply at the head of the channel. */
  lemma RunSix(cfg: Config, s: State, outcome: Outcome)
    requires s.pc.Draining? && s.queue == [] && cfg.timeout > 0
    requires s.replies != [] && Verdict(s.pc.call.key, s.replies[0]) == Some(outcome)
    ensures Run(cfg, s, Repeat(Client, 4) + [Deliver, Client]).pc == Done(s.pc.call, outcome)
    ensures Run(cfg, s, Repeat(Client, 4) + [Deliver, Client]).server == s.server
  {
    RunFour(cfg, s);
    RunConcat(cfg, s, Repeat(Client, 4), [Deliver, Client]);
    RunLast(cfg, Run(cfg, s, Repeat(Client, 4)), outcome);
  }

  /** Losing the requests ahead of it, one request is served. */
  lemma ServeOne(cfg: Config, s: State, j: nat) returns (steps: seq<Step>)
    requires j < |s.requests|
    ensures WithinCall(steps) && |steps| == j + 1
    ensures (var t := Run(cfg, s, steps);
             && t.pc == s.pc && t.queue == s.queue && t.requests == s.requests[j + 1..]
             && t.server == s.server.Serve(s.requests[j]).0
             && t.replies == (match s.server.Serve(s.requests[j]).1
                              case Some(r) => s.replies + [r]
                              case None => s.replies))
    ensures forall n | 0 <= n < |steps| && steps[n].Serve? :: ServedAt(cfg, s, steps, n, s.requests[j])
  {
    var lose := Repeat(LoseRequest, j);
    RunLoseRequests(cfg, s, j);
    RunSnoc(cfg, s, lose, Serve);
    steps := lose + [Serve];
    assert steps[..j] == lose;
  }

  /** Any request already in flight can be served first and its reply decide the call. */
  lemma AnyRequestCanAnswer(cfg: Config, begin: State, j: nat, outcome: Outcome) returns (steps: seq<Step>)
    requires begin.pc.Draining? && cfg.timeout > 0 && j < |begin.requests|
    requires begin.server.Serve(begin.requests[j]).1.Some?
    requires Verdict(begin.pc.call.key, begin.server.Serve(begin.requests[j]).1.value) == Some(outcome)
    ensures WithinCall(steps)
    ensures Run(cfg, begin, steps).pc == Done(begin.pc.call, outcome)
    ensures Run(cfg, begin, steps).server == begin.server.Serve(begin.requests[j]).0
    ensures forall n | 0 <= n < |steps| && steps[n].Serve? :: ServedAt(cfg, begin, steps, n, begin.requests[j])
  {
    var head := ServeOne(cfg, begin, j);
    var mid := Run(cfg, begin, head);
    var rest := AnyReplyCanAnswer(cfg, mid, |mid.replies| - 1, outcome);
    steps := head + rest;
    RunConcat(cfg, begin, head, rest);
    assert forall n | 0 <= n < |head| :: steps[..n] == head[..n];
  }

  lemma {:induction false} NoServeNoChange(cfg: Config, s: State, steps: seq<Step>)
    requires forall i | 0 <= i < |steps| :: !steps[i].Serve?
    ensures Run(cfg, s, steps).server == s.server
    decreases |steps|
  {
    if steps != [] {
      NoServeNoChange(cfg, s, steps[..|steps| - 1]);
    }
  }

  // ------------------------------------------------------------ main results

  /** A download can return without its write if and only if time is allowed at all and an
      acknowledge for the object, or another accepted write to it, is left in flight. */
  lemma DownloadExact(cfg: Config, s: State, key: Key, data: seq<byte>)
    requires 1 <= |data| <= 4
    ensures (exists steps :: DownloadFooled(cfg, s, key, data, steps))
       <==> cfg.timeout > 0 && AckLeftover(s, key, data)
  {
    if steps :| DownloadFooled(cfg, s, key, data, steps) {
      DownloadSound(cfg, s, key, data, steps);
    }
    if cfg.timeout > 0 && AckLeftover(s, key, data) {
      var begin := Begin(s, DownloadCall(key, data));
      var steps: seq<Step>;
      if i :| 0 <= i < |s.replies| && Acknowledges(key, s.replies[i]) {
        steps := AnyReplyCanAnswer(cfg, begin, i, Returned(Download(key, [])));
      } else {
        var j :| 0 <= j < |s.requests| && WritesOther(s.server, key, data, s.requests[j]);
        AcknowledgedAnswer(s.server, key, s.requests[j]);
        steps := AnyRequestCanAnswer(cfg, begin, j, Returned(Download(key, [])));
      }
      assert DownloadFooled(cfg, s, key, data, steps);
    }
  }

  lemma AcknowledgedAnswer(server: Server, key: Key, request: seq<byte>)
    requires WillBeAcknowledged(server, key, request)
    ensures (var (t, reply) := server.Serve(request);
             reply.Some? && Verdict(key, reply.value) == Some(Returned(Download(key, [])))
             && WritesSince(server, t) == [Write(key, Payload(ParseRequest(request).value))])
  {
    ParsedRequestShape(request);
    ParseResponseInverts(key, [], 0);
  }

  /** An upload can return a value the server never held during the call if and only if time is
      allowed at all and an outdated response for the object is left in flight. */
  lemma UploadExact(cfg: Config, s: State, key: Key, data: seq<byte>)
    ensures (exists steps :: UploadFooled(cfg, s, key, data, steps))
       <==> cfg.timeout > 0 && ValueLeftover(s, key, data)
  {
    if steps :| UploadFooled(cfg, s, key, data, steps) {
      UploadSound(cfg, s, key, data, steps);
    }
    if cfg.timeout > 0 && ValueLeftover(s, key, data) {
      var begin := Begin(s, UploadCall(key));
      var i :| 0 <= i < |s.replies| && StaleValue(s, key, data, s.replies[i]);
      var steps := AnyReplyCanAnswer(cfg, begin, i, Returned(Upload(key, data)));
      forall n | 0 <= n <= |steps| ensures !Holds(Run(cfg, begin, steps[..n]).server, key, data) {
        NoServeNoChange(cfg, begin, steps[..n]);
      }
      assert UploadFooled(cfg, s, key, data, steps);
    }
  }

  /** An upload can end in SdoProtocolError if and only if time is allowed at all and a write of the
      same object, or its acknowledge, is left in flight. */
  lemma UploadMisansweredExact(cfg: Config, s: State, key: Key)
    ensures (exists steps :: UploadMisanswered(cfg, s, key, steps))
       <==> cfg.timeout > 0 && WriteLeftover(s, key)
  {
    var begin := Begin(s, UploadCall(key));
    if steps :| UploadMisanswered(cfg, s, key, steps) {
      if cfg.timeout <= 0 {
        NoTimeNoAnswer(cfg, begin, steps);
      }
      var frame, fromExec, e := ResponseOrigin(cfg, begin, steps);
      ParsedResponseShape(frame);
      assert Acknowledges(key, frame);
      if fromExec {
        ReplyMeaning(Run(cfg, begin, steps[..e.at]).server, e.request);
        RunServer(cfg, begin, steps[..e.at]);
        ParseRequestInverts(key, []);
        assert e.request in s.requests && WillBeAcknowledged(s.server, key, e.request);
      }
    }
    if cfg.timeout > 0 && WriteLeftover(s, key) {
      var steps: seq<Step>;
      if i :| 0 <= i < |s.replies| && Acknowledges(key, s.replies[i]) {
        steps := AnyReplyCanAnswer(cfg, begin, i, Returned(Download(key, [])));
      } else {
        var j :| 0 <= j < |s.requests| && WillBeAcknowledged(s.server, key, s.requests[j]);
        AcknowledgedAnswer(s.server, key, s.requests[j]);
        steps := AnyRequestCanAnswer(cfg, begin, j, Returned(Download(key, [])));
      }
      assert UploadMisanswered(cfg, s, key, steps);
    }
  }

  /** With no outdated response in flight, a returned value was held by the server during the call. */
  lemma UploadGrounded(cfg: Config, s: State, key: Key, data: seq<byte>, steps: seq<Step>)
    requires UploadReturns(cfg, s, key, data, steps)
    ensures ValueLeftover(s, key, data)
         || HeldDuring(cfg, s, key, data, steps)
  {
    if !HeldDuring(cfg, s, key, data, steps) {
      assert UploadFooled(cfg, s, key, data, steps);
      UploadSound(cfg, s, key, data, steps);
    }
  }
}
