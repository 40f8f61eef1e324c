/** What a returning SDO call proves about the server, over every run of the
    protocol: exactly when a leftover of an earlier call can fool it. */
module SdoSoundness {
  import opened Bytes
  import opened SdoCodec
  import opened SdoServer
  import opened SdoProtocol

  // ------------------------------------------------------------- provenance

  /** One answered request: served in the state after `at` steps. */
  datatype Exec = Exec(at: nat, request: seq<byte>, reply: seq<byte>)

  function Execs(cfg: Config, s: State, steps: seq<Step>): seq<Exec>
    decreases |steps|
  {
    if steps == [] then [] else
      var n := |steps| - 1;
      var before := Run(cfg, s, steps[..n]);
      var rest := Execs(cfg, s, steps[..n]);
      if steps[n].Serve? && before.requests != [] && before.server.Serve(before.requests[0]).1.Some? then
        rest + [Exec(n, before.requests[0], before.server.Serve(before.requests[0]).1.value)]
      else rest
  }

  /** A frame comes from the replies in flight when the call began, or from a request served since. */
  ghost predicate Provenance(begin: State, execs: seq<Exec>, frame: seq<byte>) {
    frame in begin.replies || exists i :: 0 <= i < |execs| && execs[i].reply == frame
  }

  /** The n-th step serves this request. */
  ghost predicate ServedAt(cfg: Config, begin: State, steps: seq<Step>, n: nat, request: seq<byte>)
    requires n < |steps|
  {
    var before := Run(cfg, begin, steps[..n]);
    steps[n].Serve? && before.requests != [] && before.requests[0] == request
  }

  ghost predicate ExecFits(cfg: Config, begin: State, steps: seq<Step>, e: Exec)
    requires !begin.pc.Idle?
  {
    && e.at < |steps| && ServedAt(cfg, begin, steps, e.at, e.request)
    && (e.request in begin.requests || e.request == begin.pc.call.request)
    && Run(cfg, begin, steps[..e.at]).server.Serve(e.request).1 == Some(e.reply)
  }

  /** The write that `e` acknowledges, if it acknowledges one, is in the server's log since the call began. */
  ghost predicate ExecLogged(begin: Server, now: Server, e: Exec)
    requires begin.writes <= now.writes
  {
    ParseRequest(e.request).Ok? && ParseResponse(e.reply).Ok? && ParseResponse(e.reply).value.Download? ==>
      Write(ParseRequest(e.request).value.key, Payload(ParseRequest(e.request).value))
        in now.writes[|begin.writes|..]
  }

  ghost predicate SameObjects(a: Server, b: Server) {
    a.od.Keys == b.od.Keys && a.readOnly == b.readOnly && a.writeOnly == b.writeOnly && a.writes <= b.writes
  }

  ghost predicate InCall(pc: Pc, call: Call) { !pc.Idle? && pc.call == call }

  /** Frames that could decide the call are accounted for, once the leftovers of the queue are drained. */
  ghost predicate Traced(begin: State, execs: seq<Exec>, s: State) {
    && begin.pc.Draining?
    && InCall(s.pc, begin.pc.call)
    && (forall f | f in s.replies :: Provenance(begin, execs, f))
    && (!s.pc.Done? && !(s.pc.Draining? && s.pc.attempt == 0) ==>
          forall f | f in s.queue :: Verdict(s.pc.call.key, f).Some? ==> Provenance(begin, execs, f))
    && (forall q | q in s.requests :: q in begin.requests || q == begin.pc.call.request)
    && (s.pc.Done? && (s.pc.outcome.Returned? || s.pc.outcome.Aborted?) ==>
          exists f :: Provenance(begin, execs, f) && Verdict(s.pc.call.key, f) == Some(s.pc.outcome))
  }

  lemma ProvenanceGrows(begin: State, execs: seq<Exec>, more: seq<Exec>)
    ensures forall f :: Provenance(begin, execs, f) ==> Provenance(begin, execs + more, f)
  {
    forall f | Provenance(begin, execs, f) ensures Provenance(begin, execs + more, f) {
      if f !in begin.replies {
        var i :| 0 <= i < |execs| && execs[i].reply == f;
        assert (execs + more)[i].reply == f;
      }
    }
  }

  lemma ClientKeepsTraced(cfg: Config, begin: State, execs: seq<Exec>, s: State)
    requires Traced(begin, execs, s)
    ensures Traced(begin, execs, ClientStep(cfg, s))
  {
  }

  lemma EnvironmentKeepsTraced(cfg: Config, begin: State, execs: seq<Exec>, s: State, step: Step)
    requires Traced(begin, execs, s) && !step.Start? && !step.Client? && !step.Serve?
    ensures Traced(begin, execs, Apply(cfg, s, step))
  {
  }

  lemma ServeKeepsTraced(cfg: Config, begin: State, execs: seq<Exec>, s: State, e: Exec)
    requires Traced(begin, execs, s) && s.requests != []
    requires s.server.Serve(s.requests[0]).1 == Some(e.reply)
    ensures Traced(begin, execs + [e], Apply(cfg, s, Serve))
  {
    ProvenanceGrows(begin, execs, [e]);
    assert (execs + [e])[|execs|].reply == e.reply;
  }

  lemma ServeKeepsTracedSilent(cfg: Config, begin: State, execs: seq<Exec>, s: State)
    requires Traced(begin, execs, s)
    requires s.requests != [] ==> s.server.Serve(s.requests[0]).1.None?
    ensures Traced(begin, execs, Apply(cfg, s, Serve))
  {
  }

  lemma {:induction false} RunTraced(cfg: Config, begin: State, steps: seq<Step>)
    requires begin.pc.Draining? && begin.pc.attempt == 0 && WithinCall(steps)
    ensures Traced(begin, Execs(cfg, begin, steps), Run(cfg, begin, steps))
    decreases |steps|
  {
    if steps != [] {
      var n := |steps| - 1;
      var (front, x) := (steps[..n], steps[n]);
      RunTraced(cfg, begin, front);
      var s := Run(cfg, begin, front);
      var execs := Execs(cfg, begin, front);
      if x.Client? {
        ClientKeepsTraced(cfg, begin, execs, s);
      } else if !x.Serve? {
        EnvironmentKeepsTraced(cfg, begin, execs, s, x);
      } else if s.requests != [] && s.server.Serve(s.requests[0]).1.Some? {
        ServeKeepsTraced(cfg, begin, execs, s, Exec(n, s.requests[0], s.server.Serve(s.requests[0]).1.value));
      } else {
        ServeKeepsTracedSilent(cfg, begin, execs, s);
      }
    }
  }

  lemma ServerStep(cfg: Config, s: State, step: Step)
    ensures SameObjects(s.server, Apply(cfg, s, step).server)
  {
    if s.requests != [] {
      ServeKeepsObjects(s.server, s.requests[0]);
    }
  }

  lemma {:induction false} RunServer(cfg: Config, begin: State, steps: seq<Step>)
    ensures SameObjects(begin.server, Run(cfg, begin, steps).server)
    decreases |steps|
  {
    if steps != [] {
      var n := |steps| - 1;
      RunServer(cfg, begin, steps[..n]);
      ServerStep(cfg, Run(cfg, begin, steps[..n]), steps[n]);
    }
  }

  lemma {:induction false} RunExecs(cfg: Config, begin: State, steps: seq<Step>, i: nat)
    requires begin.pc.Draining? && begin.pc.attempt == 0 && WithinCall(steps)
    requires i < |Execs(cfg, begin, steps)|
    ensures ExecFits(cfg, begin, steps, Execs(cfg, begin, steps)[i])
    ensures SameObjects(begin.server, Run(cfg, begin, steps).server)
    ensures ExecLogged(begin.server, Run(cfg, begin, steps).server, Execs(cfg, begin, steps)[i])
    decreases |steps|
  {
    RunServer(cfg, begin, steps);
    var front := steps[..|steps| - 1];
    if i < |Execs(cfg, begin, front)| {
      RunExecs(cfg, begin, front, i);
      EarlierExec(cfg, begin, steps, Execs(cfg, begin, front)[i]);
    } else {
      LatestExec(cfg, begin, steps, Execs(cfg, begin, steps)[i]);
    }
  }

  lemma EarlierExec(cfg: Config, begin: State, steps: seq<Step>, e: Exec)
    requires steps != [] && !begin.pc.Idle?
    requires SameObjects(begin.server, Run(cfg, begin, steps[..|steps| - 1]).server)
    requires SameObjects(begin.server, Run(cfg, begin, steps).server)
    requires ExecFits(cfg, begin, steps[..|steps| - 1], e)
    requires ExecLogged(begin.server, Run(cfg, begin, steps[..|steps| - 1]).server, e)
    ensures ExecFits(cfg, begin, steps, e)
    ensures ExecLogged(begin.server, Run(cfg, begin, steps).server, e)
  {
    var front := steps[..|steps| - 1];
    assert steps[..e.at] == front[..e.at];
    ServerStep(cfg, Run(cfg, begin, front), steps[|steps| - 1]);
    LogGrows(begin.server, Run(cfg, begin, front).server, Run(cfg, begin, steps).server, e);
  }

  lemma LatestExec(cfg: Config, begin: State, steps: seq<Step>, e: Exec)
    requires begin.pc.Draining? && begin.pc.attempt == 0 && WithinCall(steps) && steps != []
    requires (var s := Run(cfg, begin, steps[..|steps| - 1]);
              steps[|steps| - 1].Serve? && s.requests != [] && e.at == |steps| - 1 && e.request == s.requests[0]
              && s.server.Serve(e.request).1 == Some(e.reply))
    requires SameObjects(begin.server, Run(cfg, begin, steps).server)
    ensures ExecFits(cfg, begin, steps, e)
    ensures ExecLogged(begin.server, Run(cfg, begin, steps).server, e)
  {
    var front := steps[..|steps| - 1];
    RunTraced(cfg, begin, front);
    RunServer(cfg, begin, front);
    NewExecLogged(begin.server, Run(cfg, begin, front).server, e);
  }

  lemma LogGrows(begin: Server, before: Server, after: Server, e: Exec)
    requires begin.writes <= before.writes <= after.writes && ExecLogged(begin, before, e)
    ensures ExecLogged(begin, after, e)
  {
    assert before.writes[|begin.writes|..] <= after.writes[|begin.writes|..];
  }

  lemma NewExecLogged(begin: Server, before: Server, e: Exec)
    requires begin.writes <= before.writes && before.Serve(e.request).1 == Some(e.reply)
    ensures begin.writes <= before.Serve(e.request).0.writes
    ensures ExecLogged(begin, before.Serve(e.request).0, e)
  {
    ReplyMeaning(before, e.request);
    ServeKeepsObjects(before, e.request);
    var after := before.Serve(e.request).0;
    if ParseResponse(e.reply).value.Download? {
      assert after.writes[|begin.writes|..][|before.writes| - |begin.writes|] == after.writes[|before.writes|];
    }
  }

  /** Where the response or the abort of a call came from. */
  lemma ResponseOrigin(cfg: Config, begin: State, steps: seq<Step>) returns (frame: seq<byte>, fromExec: bool, e: Exec)
    requires begin.pc.Draining? && begin.pc.attempt == 0 && WithinCall(steps)
    requires var t := Run(cfg, begin, steps); t.pc.Done? && (t.pc.outcome.Returned? || t.pc.outcome.Aborted?)
    ensures Verdict(begin.pc.call.key, frame) == Some(Run(cfg, begin, steps).pc.outcome)
    ensures !fromExec ==> frame in begin.replies
    ensures fromExec ==>
              && e.reply == frame && ExecFits(cfg, begin, steps, e)
              && SameObjects(begin.server, Run(cfg, begin, steps).server)
              && ExecLogged(begin.server, Run(cfg, begin, steps).server, e)
  {
    RunTraced(cfg, begin, steps);
    var execs := Execs(cfg, begin, steps);
    var t := Run(cfg, begin, steps);
    frame :| Provenance(begin, execs, frame) && Verdict(t.pc.call.key, frame) == Some(t.pc.outcome);
    fromExec := frame !in begin.replies;
    e := Exec(0, [], []);
    if fromExec {
      var i :| 0 <= i < |execs| && execs[i].reply == frame;
      e := execs[i];
      RunExecs(cfg, begin, steps, i);
    }
  }
}
