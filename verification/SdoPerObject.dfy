/** Trust object by object: leftovers for an object come only from attempts for this
    object that timed out, whatever happened to calls for others. */
module SdoPerObject {
  import opened Bytes
  import opened SdoCodec
  import opened SdoServer
  import opened SdoProtocol
  import opened SdoHazards
  import opened SdoErrors
  import opened SdoLeftovers

  /** A call whose request is about the object whose reply it waits for. */
  ghost predicate Proper(c: Call) { RequestFor(c.key, c.request) }

  lemma ClientCallsProper(key: Key, data: seq<byte>)
    requires key.InRange()
    ensures Proper(UploadCall(key)) && (1 <= |data| <= 4 ==> Proper(DownloadCall(key, data)))
  {
    ParseRequestInverts(key, data);
  }

  ghost predicate ProperCalls(steps: seq<Step>) {
    forall i | 0 <= i < |steps| && steps[i].Start? :: Proper(steps[i].call)
  }

  // ---------------------------------------------------- in flight for one object

  predicate RequestFor(key: Key, request: seq<byte>) {
    ParseRequest(request).Ok? && ParseRequest(request).value.key == key
  }

  predicate ReplyFor(key: Key, reply: seq<byte>) {
    ParseResponse(reply).Ok? && ParseResponse(reply).value.key == key
  }

  function RequestsFor(key: Key, requests: seq<seq<byte>>): nat {
    if requests == [] then 0 else (if RequestFor(key, requests[0]) then 1 else 0) + RequestsFor(key, requests[1..])
  }

  function RepliesFor(key: Key, replies: seq<seq<byte>>): nat {
    if replies == [] then 0 else (if ReplyFor(key, replies[0]) then 1 else 0) + RepliesFor(key, replies[1..])
  }

  function InFlight(key: Key, s: State): nat { RequestsFor(key, s.requests) + RepliesFor(key, s.replies) }

  lemma {:induction false} RequestsForSnoc(key: Key, requests: seq<seq<byte>>, q: seq<byte>)
    ensures RequestsFor(key, requests + [q]) == RequestsFor(key, requests) + if RequestFor(key, q) then 1 else 0
    decreases |requests|
  {
    if requests == [] {
      assert requests + [q] == [q];
    } else {
      assert (requests + [q])[1..] == requests[1..] + [q];
      RequestsForSnoc(key, requests[1..], q);
    }
  }

  lemma {:induction false} RepliesForSnoc(key: Key, replies: seq<seq<byte>>, r: seq<byte>)
    ensures RepliesFor(key, replies + [r]) == RepliesFor(key, replies) + if ReplyFor(key, r) then 1 else 0
    decreases |replies|
  {
    if replies == [] {
      assert replies + [r] == [r];
    } else {
      assert (replies + [r])[1..] == replies[1..] + [r];
      RepliesForSnoc(key, replies[1..], r);
    }
  }

  lemma {:induction false} NoneInFlight(key: Key, s: State)
    requires InFlight(key, s) == 0
    ensures forall i | 0 <= i < |s.requests| :: !RequestFor(key, s.requests[i])
    ensures forall i | 0 <= i < |s.replies| :: !ReplyFor(key, s.replies[i])
  {
    NoRequests(key, s.requests);
    NoReplies(key, s.replies);
  }

  lemma {:induction false} NoRequests(key: Key, requests: seq<seq<byte>>)
    requires RequestsFor(key, requests) == 0
    ensures forall i | 0 <= i < |requests| :: !RequestFor(key, requests[i])
  {
    if requests != [] {
      NoRequests(key, requests[1..]);
      assert forall i | 0 < i < |requests| :: requests[i] == requests[1..][i - 1];
    }
  }

  lemma {:induction false} NoReplies(key: Key, replies: seq<seq<byte>>)
    requires RepliesFor(key, replies) == 0
    ensures forall i | 0 <= i < |replies| :: !ReplyFor(key, replies[i])
  {
    if replies != [] {
      NoReplies(key, replies[1..]);
      assert forall i | 0 < i < |replies| :: replies[i] == replies[1..][i - 1];
    }
  }

  // -------------------------------------------------------------- the invariant

  /** During a call for the object at most one request or frame that could decide it exists; at any
      other time none is in flight. */
  ghost predicate TidyFor(key: Key, s: State) {
    && (!s.pc.Idle? ==> Proper(s.pc.call))
    && (if !s.pc.Idle? && s.pc.call.key == key && (s.pc.Arming? || s.pc.Checking? || s.pc.Getting?) then
          || (InFlight(key, s) <= 1 && NoneDecides(key, s.queue))
          || (InFlight(key, s) == 0 && OneDecides(key, s.queue))
        else InFlight(key, s) == 0)
    && (s.pc.Sending? && s.pc.call.key == key ==> NoneDecides(key, s.queue))
  }

  /** This step gives up an attempt for the object. */
  predicate TimesOut(key: Key, s: State, step: Step) {
    step.Client? && s.pc.Checking? && s.pc.call.key == key && s.pc.deadline <= s.now
  }

  /** Timed-out attempts of calls for one object. */
  function TimeoutsFor(cfg: Config, key: Key, s: State, steps: seq<Step>): nat
    decreases |steps|
  {
    if steps == [] then 0 else
      var front := steps[..|steps| - 1];
      TimeoutsFor(cfg, key, s, front)
      + if TimesOut(key, Run(cfg, s, front), steps[|steps| - 1]) then 1 else 0
  }

  /** These are the steps that raise the timeout counter. */
  lemma TimesOutCounted(cfg: Config, key: Key, s: State, step: Step)
    ensures TimesOut(key, s, step)
       <==> Apply(cfg, s, step).timeouts > s.timeouts && s.pc.Checking? && s.pc.call.key == key
    ensures Apply(cfg, s, step).timeouts > s.timeouts ==> s.pc.Checking?
  {
  }

  lemma ClientKeepsTidyFor(cfg: Config, key: Key, s: State)
    requires TidyFor(key, s) && !TimesOut(key, s, Client)
    ensures TidyFor(key, ClientStep(cfg, s))
  {
    if s.pc.Sending? {
      RequestsForSnoc(key, s.requests, s.pc.call.request);
    }
    if s.pc.Getting? && s.queue != [] {
      var rest := s.queue[1..];
      assert forall i | 0 <= i < |rest| :: rest[i] == s.queue[i + 1];
    }
  }

  lemma ServeKeepsTidyFor(cfg: Config, key: Key, s: State)
    requires TidyFor(key, s)
    ensures TidyFor(key, Apply(cfg, s, Serve))
  {
    if s.requests != [] && s.server.Serve(s.requests[0]).1.Some? {
      ReplyMeaning(s.server, s.requests[0]);
      RepliesForSnoc(key, s.replies, s.server.Serve(s.requests[0]).1.value);
    }
  }

  lemma OthersKeepTidyFor(cfg: Config, key: Key, s: State, step: Step)
    requires TidyFor(key, s) && !step.Client? && !step.Serve? && (step.Start? ==> Proper(step.call))
    ensures TidyFor(key, Apply(cfg, s, step))
  {
  }

  lemma {:induction false} RunTidyFor(cfg: Config, key: Key, s: State, steps: seq<Step>)
    requires TidyFor(key, s) && ProperCalls(steps) && TimeoutsFor(cfg, key, s, steps) == 0
    ensures TidyFor(key, Run(cfg, s, steps))
    decreases |steps|
  {
    if steps != [] {
      var (front, x) := (steps[..|steps| - 1], steps[|steps| - 1]);
      RunTidyFor(cfg, key, s, front);
      match x {
        case Client => ClientKeepsTidyFor(cfg, key, Run(cfg, s, front));
        case Serve => ServeKeepsTidyFor(cfg, key, Run(cfg, s, front));
        case _ => OthersKeepTidyFor(cfg, key, Run(cfg, s, front), x);
      }
    }
  }

  // ---------------------------------------------------------------- main result

  /** Nothing in flight for the object: the call that begins now can be trusted. */
  lemma NoneInFlightTrusted(cfg: Config, s: State, key: Key, data: seq<byte>, steps: seq<Step>)
    requires InFlight(key, s) == 0
    ensures 1 <= |data| <= 4 ==>
              !DownloadFooled(cfg, s, key, data, steps) && !DownloadMisanswered(cfg, s, key, data, steps)
    ensures !UploadFooled(cfg, s, key, data, steps) && !UploadMisanswered(cfg, s, key, steps)
  {
    NoneInFlight(key, s);
    if 1 <= |data| <= 4 && DownloadFooled(cfg, s, key, data, steps) {
      DownloadSound(cfg, s, key, data, steps);
    }
    if 1 <= |data| <= 4 && DownloadMisanswered(cfg, s, key, data, steps) {
      DownloadMisansweredSound(cfg, s, key, data, steps);
    }
    if UploadFooled(cfg, s, key, data, steps) {
      UploadSound(cfg, s, key, data, steps);
    }
    if UploadMisanswered(cfg, s, key, steps) {
      UploadMisansweredExact(cfg, s, key);
    }
  }

  lemma NoneInFlightNoAbort(cfg: Config, s: State, call: Call, code: nat, steps: seq<Step>)
    requires InFlight(call.key, s) == 0
    ensures !AbortFooled(cfg, s, call, code, steps)
  {
    NoneInFlight(call.key, s);
    if AbortFooled(cfg, s, call, code, steps) {
      AbortSound(cfg, s, call, code, steps);
      if j :| 0 <= j < |s.requests| && s.requests[j] != call.request
              && Refuses(s.server, call.key, code, s.requests[j]) {
        ReplyMeaning(s.server, s.requests[j]);
      }
    }
  }

  /** Any number of calls on any objects, and any number of timed-out attempts for others: as long as
      none for this object has timed out, its next call that returns tells the truth, does not raise
      SdoProtocolError, and raises an abort only if the server answered it so. */
  lemma TrustworthyPerObject(cfg: Config, s: State, past: seq<Step>, key: Key, data: seq<byte>, steps: seq<Step>)
    requires s.pc.Idle? && InFlight(key, s) == 0 && ProperCalls(past)
    requires TimeoutsFor(cfg, key, s, past) == 0 && Run(cfg, s, past).Ready()
    ensures 1 <= |data| <= 4 ==>
              !DownloadFooled(cfg, Run(cfg, s, past), key, data, steps)
              && !DownloadMisanswered(cfg, Run(cfg, s, past), key, data, steps)
    ensures !UploadFooled(cfg, Run(cfg, s, past), key, data, steps)
    ensures !UploadMisanswered(cfg, Run(cfg, s, past), key, steps)
    ensures forall call: Call, code | call.key == key :: !AbortFooled(cfg, Run(cfg, s, past), call, code, steps)
  {
    RunTidyFor(cfg, key, s, past);
    var t := Run(cfg, s, past);
    NoneInFlightTrusted(cfg, t, key, data, steps);
    forall call: Call, code | call.key == key ensures !AbortFooled(cfg, t, call, code, steps) {
      NoneInFlightNoAbort(cfg, t, call, code, steps);
    }
  }
}
