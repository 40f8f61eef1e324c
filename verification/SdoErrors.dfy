/** The errors of SDO calls: exactly when `download` can raise SdoProtocolError, and
    exactly when a call can raise an SdoAbort that the server never gave to it. */
module SdoErrors {
  import opened Bytes
  import opened SdoCodec
  import opened SdoServer
  import opened SdoProtocol
  import opened SdoSoundness
  import opened SdoHazards

  // ------------------------------------------------- a download's wrong answer

  /** `download` raises SdoProtocolError: what decided its call was an upload response. */
  ghost predicate DownloadMisanswered(cfg: Config, s: State, key: Key, data: seq<byte>, steps: seq<Step>)
    requires 1 <= |data| <= 4
  {
    var t := Run(cfg, Begin(s, DownloadCall(key, data)), steps);
    WithinCall(steps) && t.pc.Done? && t.pc.outcome.Returned? && !t.pc.outcome.response.Download?
  }

  ghost predicate TellsValue(key: Key, reply: seq<byte>) {
    ParseResponse(reply).Ok? && ParseResponse(reply).value.Upload? && ParseResponse(reply).value.key == key
  }

  ghost predicate Reads(key: Key, request: seq<byte>) { ParseRequest(request) == Ok(Upload(key, [])) }

  /** The server can put the object's value into an expedited response. */
  ghost predicate Fits(server: Server, key: Key) { key in server.od && 1 <= |server.od[key]| <= 4 }

  /** Serving this request gives the object a value that fits. */
  ghost predicate Fills(server: Server, key: Key, request: seq<byte>) {
    WillBeAcknowledged(server, key, request) && ParseRequest(request).value.Download?
  }

  /** The j-th request reads the object, and is answered with a value: at once, or after an earlier write. */
  ghost predicate ReadAnswerable(server: Server, key: Key, requests: seq<seq<byte>>, j: nat)
    requires j < |requests|
  {
    && Reads(key, requests[j]) && key in server.od && key !in server.writeOnly
    && (Fits(server, key) || exists i :: 0 <= i < j && Fills(server, key, requests[i]))
  }

  /** An upload response for the object, or a read of it that will be answered, is still in flight. */
  ghost predicate ReadLeftover(s: State, key: Key) {
    || (exists i :: 0 <= i < |s.replies| && TellsValue(key, s.replies[i]))
    || (exists j :: 0 <= j < |s.requests| && ReadAnswerable(s.server, key, s.requests, j))
  }

  /** While nothing in flight tells the object's value, no step of a call that does not ask for it
      brings it about. */
  ghost predicate Mute(key: Key, s: State) {
    && !s.pc.Idle? && s.pc.call.key == key && !Reads(key, s.pc.call.request)
    && !ReadLeftover(s, key)
    && (!s.pc.Done? && !(s.pc.Draining? && s.pc.attempt == 0) ==>
          forall f | f in s.queue :: !TellsValue(key, f))
    && (s.pc.Done? && s.pc.outcome.Returned? ==> !s.pc.outcome.response.Upload?)
  }

  lemma ServeReads(s: Server, key: Key, requests: seq<seq<byte>>)
    requires requests != [] && forall j: nat | j < |requests| :: !ReadAnswerable(s, key, requests, j)
    ensures (var (t, reply) := s.Serve(requests[0]);
             (reply.Some? ==> !TellsValue(key, reply.value))
             && forall j: nat | j < |requests[1..]| :: !ReadAnswerable(t, key, requests[1..], j))
  {
    var q := requests[0];
    var (t, reply) := s.Serve(q);
    if reply.Some? && TellsValue(key, reply.value) {
      ReplyMeaning(s, q);
      ParsedResponseShape(reply.value);
      AnsweredFromStore(s, q);
      assert ReadAnswerable(s, key, requests, 0);
    }
    forall j: nat | j < |requests[1..]| ensures !ReadAnswerable(t, key, requests[1..], j) {
      if ReadAnswerable(t, key, requests[1..], j) {
        StillAnswerable(s, key, requests, j);
      }
    }
  }

  lemma AnsweredFromStore(s: Server, q: seq<byte>)
    requires s.Serve(q).1.Some? && ParseRequest(q).Ok?
    requires ParseResponse(s.Serve(q).1.value).Ok? && ParseResponse(s.Serve(q).1.value).value.Upload?
    ensures ParseRequest(q).value.key !in s.writeOnly && ParseRequest(q).value.Upload?
    ensures ParseRequest(q) == Ok(Upload(ParseRequest(q).value.key, []))
  {
    ParsedRequestShape(q);
    var key := ParseRequest(q).value.key;
    AbortParses(key, ABORT_WRITE_ONLY);
    AbortParses(key, ABORT_READ_ONLY);
    AbortParses(key, ABORT_UNKNOWN_OBJECT);
    ParseResponseInverts(key, [], 0);
  }

  lemma StillAnswerable(s: Server, key: Key, requests: seq<seq<byte>>, j: nat)
    requires requests != [] && j < |requests[1..]|
    requires ReadAnswerable(s.Serve(requests[0]).0, key, requests[1..], j)
    ensures ReadAnswerable(s, key, requests, j + 1)
  {
    var t := s.Serve(requests[0]).0;
    ServeKeepsObjects(s, requests[0]);
    ParsedRequestShape(requests[0]);
    if i :| 0 <= i < j && Fills(t, key, requests[1..][i]) {
      assert Fills(s, key, requests[i + 1]);
    } else if !Fits(s, key) {
      assert Fills(s, key, requests[0]);
    }
  }

  lemma ServeKeepsMute(cfg: Config, key: Key, s: State)
    requires Mute(key, s)
    ensures Mute(key, Apply(cfg, s, Serve))
  {
    if s.requests != [] {
      ServeReads(s.server, key, s.requests);
    }
  }

  lemma ClientKeepsMute(cfg: Config, key: Key, s: State)
    requires Mute(key, s)
    ensures Mute(key, ClientStep(cfg, s))
  {
    var t := ClientStep(cfg, s);
    if s.pc.Getting? && s.queue != [] {
      PollKeepsMute(cfg, key, s);
    }
    forall j: nat | j < |t.requests| ensures !ReadAnswerable(t.server, key, t.requests, j) {
      if j < |s.requests| {
        assert !ReadAnswerable(s.server, key, s.requests, j);
      }
    }
  }

  lemma PollKeepsMute(cfg: Config, key: Key, s: State)
    requires Mute(key, s) && s.pc.Getting? && s.queue != []
    ensures Mute(key, ClientStep(cfg, s))
  {
    assert s.queue[0] in s.queue;
  }

  lemma LossKeepsMute(cfg: Config, key: Key, s: State)
    requires Mute(key, s)
    ensures Mute(key, Apply(cfg, s, LoseRequest))
  {
    var t := Apply(cfg, s, LoseRequest);
    forall j: nat | j < |t.requests| ensures !ReadAnswerable(t.server, key, t.requests, j) {
      if s.requests != [] {
        assert !ReadAnswerable(s.server, key, s.requests, j + 1);
        assert forall i | 0 <= i < j :: t.requests[i] == s.requests[i + 1];
      }
    }
  }

  lemma OthersKeepMute(cfg: Config, key: Key, s: State, step: Step)
    requires Mute(key, s) && !step.Start? && !step.Client? && !step.Serve? && !step.LoseRequest?
    ensures Mute(key, Apply(cfg, s, step))
  {
  }

  lemma {:induction false} RunMute(cfg: Config, key: Key, s: State, steps: seq<Step>)
    requires Mute(key, s) && WithinCall(steps)
    ensures Mute(key, Run(cfg, s, steps))
    decreases |steps|
  {
    if steps != [] {
      var (front, x) := (steps[..|steps| - 1], steps[|steps| - 1]);
      RunMute(cfg, key, s, front);
      var t := Run(cfg, s, front);
      match x {
        case Client => ClientKeepsMute(cfg, key, t);
        case Serve => ServeKeepsMute(cfg, key, t);
        case LoseRequest => LossKeepsMute(cfg, key, t);
        case _ => OthersKeepMute(cfg, key, t, x);
      }
    }
  }

  lemma DownloadMisansweredSound(cfg: Config, s: State, key: Key, data: seq<byte>, steps: seq<Step>)
    requires 1 <= |data| <= 4 && DownloadMisanswered(cfg, s, key, data, steps)
    ensures cfg.timeout > 0 && ReadLeftover(s, key)
  {
    var begin := Begin(s, DownloadCall(key, data));
    if cfg.timeout <= 0 {
      NoTimeNoAnswer(cfg, begin, steps);
    }
    var frame, _, _ := ResponseOrigin(cfg, begin, steps);
    ParsedResponseShape(frame);
    ParseRequestInverts(key, data);
    if !ReadLeftover(s, key) {
      RunMute(cfg, key, begin, steps);
    }
  }

  /** A download can end in SdoProtocolError if and only if time is allowed at all and an upload
      response for the object, or a read of it that will be answered, is left in flight. */
  lemma DownloadMisansweredExact(cfg: Config, s: State, key: Key, data: seq<byte>)
    requires 1 <= |data| <= 4
    ensures (exists steps :: DownloadMisanswered(cfg, s, key, data, steps))
       <==> cfg.timeout > 0 && ReadLeftover(s, key)
  {
    var begin := Begin(s, DownloadCall(key, data));
    if steps :| DownloadMisanswered(cfg, s, key, data, steps) {
      DownloadMisansweredSound(cfg, s, key, data, steps);
    }
    if cfg.timeout > 0 && ReadLeftover(s, key) {
      var steps: seq<Step>;
      if i :| 0 <= i < |s.replies| && TellsValue(key, s.replies[i]) {
        steps := AnyReplyCanAnswer(cfg, begin, i, Returned(ParseResponse(s.replies[i]).value));
      } else {
        var j :| 0 <= j < |s.requests| && ReadAnswerable(s.server, key, s.requests, j);
        if Fits(s.server, key) {
          steps := AnyReadCanAnswer(cfg, begin, j);
        } else {
          steps := FilledReadCanAnswer(cfg, begin, j);
        }
      }
      assert DownloadMisanswered(cfg, s, key, data, steps);
    }
  }

  ghost predicate EndsInValue(cfg: Config, begin: State, steps: seq<Step>) {
    var t := Run(cfg, begin, steps);
    WithinCall(steps) && t.pc.Done? && t.pc.outcome.Returned? && t.pc.outcome.response.Upload?
  }

  lemma AnyReadCanAnswer(cfg: Config, begin: State, j: nat) returns (steps: seq<Step>)
    requires begin.pc.Draining? && cfg.timeout > 0 && j < |begin.requests|
    requires ReadAnswerable(begin.server, begin.pc.call.key, begin.requests, j) && Fits(begin.server, begin.pc.call.key)
    ensures EndsInValue(cfg, begin, steps)
  {
    var key := begin.pc.call.key;
    ParsedRequestShape(begin.requests[j]);
    ParseResponseInverts(key, begin.server.od[key], 0);
    steps := AnyRequestCanAnswer(cfg, begin, j, Returned(Upload(key, begin.server.od[key])));
  }

  lemma FilledReadCanAnswer(cfg: Config, begin: State, j: nat) returns (steps: seq<Step>)
    requires begin.pc.Draining? && cfg.timeout > 0 && j < |begin.requests|
    requires ReadAnswerable(begin.server, begin.pc.call.key, begin.requests, j)
    requires !Fits(begin.server, begin.pc.call.key)
    ensures EndsInValue(cfg, begin, steps)
  {
    var head, k := FillRun(cfg, begin, j);
    var rest := AnyReadCanAnswer(cfg, Run(cfg, begin, head), k);
    steps := head + rest;
    RunConcat(cfg, begin, head, rest);
  }

  /** The earlier write is served; the read stays in flight, answerable at once. */
  lemma FillRun(cfg: Config, begin: State, j: nat) returns (head: seq<Step>, k: nat)
    requires begin.pc.Draining? && j < |begin.requests|
    requires ReadAnswerable(begin.server, begin.pc.call.key, begin.requests, j)
    requires !Fits(begin.server, begin.pc.call.key)
    ensures WithinCall(head)
    ensures (var mid := Run(cfg, begin, head);
             && mid.pc == begin.pc && k < |mid.requests|
             && ReadAnswerable(mid.server, begin.pc.call.key, mid.requests, k) && Fits(mid.server, begin.pc.call.key))
  {
    var i :| 0 <= i < j && Fills(begin.server, begin.pc.call.key, begin.requests[i]);
    head := ServeAt(cfg, begin, i);
    FilledThenRead(begin.server, begin.pc.call.key, begin.requests, i, j);
    k := j - i - 1;
  }

  lemma ServeAt(cfg: Config, s: State, j: nat) returns (steps: seq<Step>)
    requires j < |s.requests|
    ensures WithinCall(steps)
    ensures (var t := Run(cfg, s, steps);
             t.pc == s.pc && t.requests == s.requests[j + 1..] && t.server == s.server.Serve(s.requests[j]).0)
  {
    steps := ServeOne(cfg, s, j);
  }

  lemma FilledThenRead(server: Server, key: Key, requests: seq<seq<byte>>, i: nat, j: nat)
    requires i < j < |requests| && Fills(server, key, requests[i]) && ReadAnswerable(server, key, requests, j)
    ensures Fits(server.Serve(requests[i]).0, key)
    ensures ReadAnswerable(server.Serve(requests[i]).0, key, requests[i + 1..], j - i - 1)
  {
    ParsedRequestShape(requests[i]);
    assert requests[i + 1..][j - i - 1] == requests[j];
  }

  // ------------------------------------------------------------ another's abort

  ghost predicate Aborts(key: Key, code: nat, reply: seq<byte>) { ParseResponse(reply) == Ok(Abort(key, code)) }

  /** The server's answer to this request is this abort. */
  ghost predicate Refuses(server: Server, key: Key, code: nat, request: seq<byte>) {
    server.Serve(request).1.Some? && Aborts(key, code, server.Serve(request).1.value)
  }

  /** At some step of the call the server answered the call's own request with this abort. */
  ghost predicate OwnRefused(cfg: Config, s: State, call: Call, code: nat, steps: seq<Step>) {
    exists n :: 0 <= n < |steps| && RefusedAt(cfg, s, call, code, steps, n)
  }

  ghost predicate RefusedAt(cfg: Config, s: State, call: Call, code: nat, steps: seq<Step>, n: nat)
    requires n < |steps|
  {
    && ServedAt(cfg, Begin(s, call), steps, n, call.request)
    && Refuses(Run(cfg, Begin(s, call), steps[..n]).server, call.key, code, call.request)
  }

  /** The call raises SdoAbort although the server never answered its request so. */
  ghost predicate AbortFooled(cfg: Config, s: State, call: Call, code: nat, steps: seq<Step>) {
    && WithinCall(steps) && Run(cfg, Begin(s, call), steps).pc == Done(call, Aborted(code))
    && !OwnRefused(cfg, s, call, code, steps)
  }

  /** Such an abort for the object, or another request that the server will answer with it, is still in flight. */
  ghost predicate AbortLeftover(s: State, call: Call, code: nat) {
    || (exists i :: 0 <= i < |s.replies| && Aborts(call.key, code, s.replies[i]))
    || (exists j :: 0 <= j < |s.requests| && s.requests[j] != call.request
                    && Refuses(s.server, call.key, code, s.requests[j]))
  }

  /** Refusals depend on the objects and their access only, which no request changes. */
  lemma RefusalStable(a: Server, b: Server, key: Key, code: nat, request: seq<byte>)
    requires SameObjects(a, b) && Refuses(b, key, code, request)
    ensures Refuses(a, key, code, request)
  {
    ReplyMeaning(b, request);
    ParsedRequestShape(request);
    var q := ParseRequest(request).value;
    ParseResponseInverts(q.key, if q.key in b.od then b.od[q.key] else [], 0);
  }

  lemma AbortSound(cfg: Config, s: State, call: Call, code: nat, steps: seq<Step>)
    requires AbortFooled(cfg, s, call, code, steps)
    ensures cfg.timeout > 0 && AbortLeftover(s, call, code)
  {
    var begin := Begin(s, call);
    if cfg.timeout <= 0 {
      NoTimeNoAnswer(cfg, begin, steps);
    }
    var frame, fromExec, e := ResponseOrigin(cfg, begin, steps);
    assert Aborts(call.key, code, frame);
    if fromExec {
      assert Refuses(Run(cfg, begin, steps[..e.at]).server, call.key, code, e.request);
      if e.request == call.request {
        assert RefusedAt(cfg, s, call, code, steps, e.at);
      } else {
        RunServer(cfg, begin, steps[..e.at]);
        RefusalStable(s.server, Run(cfg, begin, steps[..e.at]).server, call.key, code, e.request);
      }
    }
  }

  /** A call can end in an abort that the server never gave to its request if and only if time is
      allowed at all and such an abort, or another request so refused, is left in flight. */
  lemma AbortExact(cfg: Config, s: State, call: Call, code: nat)
    ensures (exists steps :: AbortFooled(cfg, s, call, code, steps))
       <==> cfg.timeout > 0 && AbortLeftover(s, call, code)
  {
    var begin := Begin(s, call);
    if steps :| AbortFooled(cfg, s, call, code, steps) {
      AbortSound(cfg, s, call, code, steps);
    }
    if cfg.timeout > 0 && AbortLeftover(s, call, code) {
      var steps := LeftoverAborts(cfg, s, call, code);
    }
  }

  lemma LeftoverAborts(cfg: Config, s: State, call: Call, code: nat) returns (steps: seq<Step>)
    requires cfg.timeout > 0 && AbortLeftover(s, call, code)
    ensures AbortFooled(cfg, s, call, code, steps)
  {
    var begin := Begin(s, call);
    if i :| 0 <= i < |s.replies| && Aborts(call.key, code, s.replies[i]) {
      steps := AnyReplyCanAnswer(cfg, begin, i, Aborted(code));
    } else {
      var j :| 0 <= j < |s.requests| && s.requests[j] != call.request
               && Refuses(s.server, call.key, code, s.requests[j]);
      steps := AnyRequestCanAnswer(cfg, begin, j, Aborted(code));
    }
  }

  // ------------------------------------------------------- what one run proves

  /** Every abort is explained. */
  lemma AbortSoundly(cfg: Config, s: State, call: Call, steps: seq<Step>)
    requires WithinCall(steps)
    ensures (var pc := Run(cfg, Begin(s, call), steps).pc;
             pc.Done? && pc.outcome.Aborted? ==>
               AbortLeftover(s, call, pc.outcome.code) || OwnRefused(cfg, s, call, pc.outcome.code, steps))
  {
    RunTraced(cfg, Begin(s, call), steps);
    var pc := Run(cfg, Begin(s, call), steps).pc;
    if pc.Done? && pc.outcome.Aborted? && !OwnRefused(cfg, s, call, pc.outcome.code, steps) {
      AbortSound(cfg, s, call, pc.outcome.code, steps);
    }
  }

  /** The soundness halves together, for one run of a download. */
  lemma DownloadSoundly(cfg: Config, s: State, key: Key, data: seq<byte>, steps: seq<Step>)
    requires 1 <= |data| <= 4 && WithinCall(steps)
    ensures (var call := DownloadCall(key, data);
             var t := Run(cfg, Begin(s, call), steps);
             && (t.pc.Done? && t.pc.outcome.Returned? ==>
                   if t.pc.outcome.response.Download? then
                     AckLeftover(s, key, data) || Write(key, data) in WritesSince(s.server, t.server)
                   else ReadLeftover(s, key))
             && (t.pc.Done? && t.pc.outcome.Aborted? ==>
                   AbortLeftover(s, call, t.pc.outcome.code) || OwnRefused(cfg, s, call, t.pc.outcome.code, steps)))
  {
    if DownloadFooled(cfg, s, key, data, steps) {
      DownloadSound(cfg, s, key, data, steps);
    }
    if DownloadMisanswered(cfg, s, key, data, steps) {
      DownloadMisansweredSound(cfg, s, key, data, steps);
    }
    AbortSoundly(cfg, s, DownloadCall(key, data), steps);
  }

  /** The same for an upload. */
  lemma UploadSoundly(cfg: Config, s: State, key: Key, steps: seq<Step>)
    requires WithinCall(steps)
    ensures (var call := UploadCall(key);
             var t := Run(cfg, Begin(s, call), steps);
             && (t.pc.Done? && t.pc.outcome.Returned? ==>
                   if t.pc.outcome.response.Upload? then
                     ValueLeftover(s, key, t.pc.outcome.response.data)
                     || HeldDuring(cfg, s, key, t.pc.outcome.response.data, steps)
                   else WriteLeftover(s, key))
             && (t.pc.Done? && t.pc.outcome.Aborted? ==>
                   AbortLeftover(s, call, t.pc.outcome.code) || OwnRefused(cfg, s, call, t.pc.outcome.code, steps)))
  {
    var t := Run(cfg, Begin(s, UploadCall(key)), steps);
    if t.pc.Done? && t.pc.outcome.Returned? && t.pc.outcome.response.Upload? {
      UploadGrounded(cfg, s, key, t.pc.outcome.response.data, steps);
    }
    if UploadMisanswered(cfg, s, key, steps) {
      UploadMisansweredExact(cfg, s, key);
    }
    AbortSoundly(cfg, s, UploadCall(key), steps);
  }
}
