/** `Mts160Driver` of naviq_mts160/naviq_mts160/driver.py: the frame handlers, the
    zero service and the TPDO period writes. */
module Driver {
  import opened Bytes
  import opened Decoder
  import opened Pipeline
  import opened SdoCodec
  import SdoServer
  import opened SdoProtocol
  import opened SdoAccounting
  import opened SdoHazards
  import opened SdoPolling
  import opened SdoClient
  import D = Diagnostics
  import DecodeLog

  // -------------------------------------------------------- what may be sent

  /** The two kinds of write the driver exists to make. */
  ghost predicate AllowedWrite(key: Key, data: seq<byte>, periods: seq<nat>)
    requires |periods| == 3
  {
    || (key == Key(0x2000, 0) && data == [1])
    || exists k | 1 <= k <= 3 :: TimerWrite(key, data, k, periods)
  }

  ghost predicate TimerWrite(key: Key, data: seq<byte>, tpdo: int, periods: seq<nat>)
    requires |periods| == 3 && 1 <= tpdo <= 3
  {
    1 <= periods[tpdo - 1] <= 0xFFFF && key == Key(0x1800 + tpdo - 1, 5)
    && |data| == 2 && U16(data[0], data[1]) == periods[tpdo - 1]
  }

  /** A frame that a server parses as an allowed write, addressed to the sensor. */
  ghost predicate SafeFrame(f: CanFrame, nodeId: nat, periods: seq<nat>)
    requires |periods| == 3
  {
    f.canId == 0x600 + nodeId
    && match ParseRequest(f.data)
       case Ok(Download(key, data)) => AllowedWrite(key, data, periods)
       case _ => false
  }

  ghost predicate SafeTraffic(sent: seq<CanFrame>, nodeId: nat, periods: seq<nat>)
    requires |periods| == 3
  {
    forall i | 0 <= i < |sent| :: SafeFrame(sent[i], nodeId, periods)
  }

  /** `start_zero` as a call. */
  function ZeroCall(): Call { DownloadCall(Key(0x2000, 0), [1]) }

  /** `set_tpdo_period` as a call. */
  function TimerCall(tpdo: int, period: nat): Call
    requires period <= 0xFFFF
  {
    DownloadCall(Key(0x1800 + tpdo - 1, 5), [period % 256, period / 256])
  }

  lemma {:induction false} ZeroFrameSafe(nodeId: nat, periods: seq<nat>)
    requires |periods| == 3
    ensures SafeFrame(CanFrame(0x600 + nodeId, ZeroCall().request), nodeId, periods)
  {
    ParseRequestInverts(ZeroCall().key, [1]);
  }

  lemma {:induction false} TimerFrameSafe(nodeId: nat, periods: seq<nat>, tpdo: int)
    requires |periods| == 3 && 1 <= tpdo <= 3 && 1 <= periods[tpdo - 1] <= 0xFFFF
    ensures SafeFrame(CanFrame(0x600 + nodeId, TimerCall(tpdo, periods[tpdo - 1]).request), nodeId, periods)
  {
    var period := periods[tpdo - 1];
    var data := [period % 256, period / 256];
    ParseRequestInverts(TimerCall(tpdo, period).key, data);
    assert TimerWrite(TimerCall(tpdo, period).key, data, tpdo, periods);
  }

  lemma SafeTrafficGrows(before: seq<CanFrame>, after: seq<CanFrame>, f: CanFrame, nodeId: nat, periods: seq<nat>)
    requires |periods| == 3 && SafeTraffic(before, nodeId, periods) && SafeFrame(f, nodeId, periods)
    requires OnlySent(before, after, f)
    ensures SafeTraffic(after, nodeId, periods)
  {
    forall i | 0 <= i < |after| ensures SafeFrame(after[i], nodeId, periods) {
      if i < |before| {
        assert after[i] == before[i];
      }
    }
  }

  /** A call the driver's code can make. */
  ghost predicate DriverCall(c: Call, periods: seq<nat>)
    requires |periods| == 3
  {
    || c == ZeroCall()
    || exists k | 1 <= k <= 3 :: SetsPeriod(c, k, periods)
  }

  ghost predicate SetsPeriod(c: Call, k: int, periods: seq<nat>)
    requires |periods| == 3 && 1 <= k <= 3
  {
    1 <= periods[k - 1] <= 0xFFFF && c == TimerCall(k, periods[k - 1])
  }

  lemma DriverCallSafe(c: Call, nodeId: nat, periods: seq<nat>)
    requires |periods| == 3 && DriverCall(c, periods)
    ensures SafeFrame(CanFrame(0x600 + nodeId, c.request), nodeId, periods)
  {
    if c == ZeroCall() {
      ZeroFrameSafe(nodeId, periods);
    } else {
      var k :| 1 <= k <= 3 && SetsPeriod(c, k, periods);
      TimerFrameSafe(nodeId, periods, k);
    }
  }

  /** In every run of the protocol in which only the driver's calls are made - any number of them,
      with any losses, retries, stale replies and failed sends in between - every frame sent is
      one of the allowed writes, so period 0 is never written and no other object is touched. */
  lemma {:induction false} WholeRunWriteSafety(cfg: Config, s: State, steps: seq<Step>, nodeId: nat, periods: seq<nat>)
    requires |periods| == 3 && cfg.requestId == 0x600 + nodeId
    requires s.pc.Idle? && SafeTraffic(s.sent, nodeId, periods)
    requires forall i | 0 <= i < |steps| :: steps[i].Start? ==> DriverCall(steps[i].call, periods)
    ensures (var t := Run(cfg, s, steps);
             SafeTraffic(t.sent, nodeId, periods) && (!t.pc.Idle? ==> DriverCall(t.pc.call, periods)))
    decreases |steps|
  {
    if steps != [] {
      var front := steps[..|steps| - 1];
      WholeRunWriteSafety(cfg, s, front, nodeId, periods);
      StepWriteSafety(cfg, Run(cfg, s, front), steps[|steps| - 1], nodeId, periods);
    }
  }

  lemma StepWriteSafety(cfg: Config, s: State, step: Step, nodeId: nat, periods: seq<nat>)
    requires |periods| == 3 && cfg.requestId == 0x600 + nodeId && SafeTraffic(s.sent, nodeId, periods)
    requires (!s.pc.Idle? ==> DriverCall(s.pc.call, periods)) && (step.Start? ==> DriverCall(step.call, periods))
    ensures (var t := Apply(cfg, s, step);
             SafeTraffic(t.sent, nodeId, periods) && (!t.pc.Idle? ==> DriverCall(t.pc.call, periods)))
  {
    if s.pc.Sending? {
      DriverCallSafe(s.pc.call, nodeId, periods);
    }
    StepCall(cfg, s, step);
  }

  lemma StepCall(cfg: Config, s: State, step: Step)
    ensures (var t := Apply(cfg, s, step);
             && (!t.pc.Idle? ==> (step.Start? && t.pc.call == step.call) || (!s.pc.Idle? && t.pc.call == s.pc.call))
             && (t.sent == s.sent
                 || (s.pc.Sending? && t.sent == s.sent + [CanFrame(cfg.requestId, s.pc.call.request)])))
  {
  }

  /** This run of one call leads from `before` to `after`, and is answered with an acknowledge iff `ok`. */
  ghost predicate CallEnds(cfg: Config, before: State, call: Call, after: State, ok: bool, steps: seq<Step>) {
    var end := Run(cfg, Begin(before, call), steps);
    && WithinCall(steps) && end.pc.Done? && after == end.(pc := Idle)
    && (ok <==> end.pc.outcome == Returned(Download(call.key, [])))
  }

  ghost predicate CallMade(cfg: Config, before: State, call: Call, after: State, ok: bool) {
    exists steps :: CallEnds(cfg, before, call, after, ok, steps)
  }

  lemma MadeSo(cfg: Config, before: State, call: Call, after: State, ok: bool, steps: seq<Step>)
    requires WithinCall(steps)
    requires (var end := Run(cfg, Begin(before, call), steps); end.pc.Done? && after == end.(pc := Idle))
    requires ok <==> FirstVerdict(call.key, Polled(cfg, Begin(before, call), steps))
                     == Some(Returned(Download(call.key, [])))
    ensures CallMade(cfg, before, call, after, ok)
  {
    FirstFrameAnswers(cfg, Begin(before, call), steps);
    assert CallEnds(cfg, before, call, after, ok, steps);
  }

  // ------------------------------------------------------------------- the node

  class Mts160Driver {
    const nodeId: nat
    const tpdoPeriods: seq<nat>
    const sdo: SdoClient
    const stats: D.Stats
    var invertPosition: bool
    var invertAngle: bool
    var closing: bool
    var lastTrack: Option<TrackFrame>
    var lastNavicodeCounter: Option<int>
    var tracks: seq<TrackMsg>
    var markers: seq<MarkersMsg>
    var navicodes: seq<NavicodeMsg>
    /** Every frame handled so far, with the settings it met. */
    ghost var history: seq<Delivery>

    /** Published messages and statistics are those of the history, and only safe frames were sent. */
    ghost predicate Valid()
      reads this, stats, sdo, sdo.wire
    {
      HistoryMatches() && WriteSafe()
    }

    ghost predicate HistoryMatches()
      reads this, stats
    {
      View() == Handled(history, nodeId) && stats.Matches(history, nodeId)
    }

    /** Published and remembered values, the statistics' included. */
    ghost function View(): Outputs
      reads this, stats
    {
      Outputs(tracks, markers, navicodes, lastTrack, lastNavicodeCounter, stats.lastTpdo1, stats.intervals,
              stats.Beat())
    }

    ghost predicate WriteSafe()
      reads sdo, sdo.wire
    {
      && ValidNodeId(nodeId) && sdo.cfg.requestId == 0x600 + nodeId
      && |tpdoPeriods| == 3 && (forall k | 0 <= k < 3 :: tpdoPeriods[k] <= 0xFFFF)
      && SafeTraffic(sdo.wire.sent, nodeId, tpdoPeriods)
    }

    /** Parameter ranges are those of the parameter descriptors. */
    constructor (nodeId: nat, tpdoPeriods: seq<nat>, sdo: SdoClient, stats: D.Stats)
      requires ValidNodeId(nodeId) && sdo.cfg.requestId == FC_SDO_RX + nodeId && sdo.wire.sent == []
      requires |tpdoPeriods| == 3 && forall k | 0 <= k < 3 :: tpdoPeriods[k] <= 0xFFFF
      requires stats.Matches([], nodeId)
      ensures Valid() && history == [] && !closing
    {
      this.nodeId, this.tpdoPeriods, this.sdo, this.stats := nodeId, tpdoPeriods, sdo, stats;
      invertPosition, invertAngle, closing := false, false, false;
      lastTrack, lastNavicodeCounter := None, None;
      tracks, markers, navicodes := [], [], [];
      history := [];
    }

    method SetInversions(position: bool, angle: bool)
      requires Valid()
      modifies this`invertPosition, this`invertAngle
      ensures Valid() && invertPosition == position && invertAngle == angle
    {
      invertPosition, invertAngle := position, angle;
    }

    // ------------------------------------------------------------ CAN frames

    /** While closing, frames are dropped unseen; otherwise the frame joins the history. */
    method OnFrame(frame: Frame)
      requires HistoryMatches()
      modifies this`lastTrack, this`lastNavicodeCounter, this`tracks, this`markers, this`navicodes, this`history, stats
      ensures HistoryMatches()
      ensures history == if closing then old(history)
                         else old(history) + [Delivery(frame, invertPosition, invertAngle)]
    {
      if closing {
        return;
      }
      ghost var d := Delivery(frame, invertPosition, invertAngle);
      assert (history + [d])[..|history|] == history;
      assert Classes(history + [d], nodeId)[..|history|] == Classes(history, nodeId);
      Dispatch(frame);
      history := history + [d];
    }

    /** The dispatch of `_on_frame`: one counter goes up, and at most one message goes out. */
    method Dispatch(frame: Frame)
      requires stats.lastTrack == lastTrack && stats.BeatWhole()
      modifies this`lastTrack, this`lastNavicodeCounter, this`tracks, this`markers, this`navicodes, stats
      ensures stats.lastTrack == lastTrack && stats.sdoErrors == old(stats.sdoErrors) && stats.BeatWhole()
      ensures stats.Counted() == old(stats.Counted()).Bump(Classify(frame, nodeId))
      ensures View() == HandleOne(old(View()), Delivery(frame, invertPosition, invertAngle), nodeId)
    {
      if frame.isExtended || !IsNodeFrame(frame.canId, nodeId) {
        stats.otherNode := stats.otherNode + 1;
        return;
      }
      if FunctionCode(frame.canId) == FC_SDO_TX {
        stats.sdoResponses := stats.sdoResponses + 1;
        return;
      }
      var decoded := DecodeFrame(frame.canId, frame.data, nodeId);
      if decoded.Err? {
        stats.badLength := stats.badLength + 1;
        return;
      }
      if decoded.value.None? {
        stats.unknown := stats.unknown + 1;
        return;
      }
      HandleDecoded(decoded.value.value, frame.tMono);
    }

    method HandleDecoded(value: Decoded, tMono: int)
      requires stats.lastTrack == lastTrack && stats.BeatWhole()
      modifies this`lastTrack, this`lastNavicodeCounter, this`tracks, this`markers, this`navicodes, stats
      ensures stats.lastTrack == lastTrack && stats.sdoErrors == old(stats.sdoErrors) && stats.BeatWhole()
      ensures stats.Counted() == old(stats.Counted()).Bump(ClassOf(value))
      ensures View() == Emit(old(View()), Sample(tMono, value, invertPosition, invertAngle))
    {
      match value
      case Track(t) => HandleTrack(t, tMono);
      case Marker(m) => HandleMarkers(m);
      case Navicode(n) => HandleNavicode(n);
      case Heartbeat(state) =>
        stats.heartbeatCount := stats.heartbeatCount + 1;
        stats.lastHeartbeat := Some(tMono);
        stats.nmtState := Some(state);
    }

    method HandleTrack(t: TrackFrame, tMono: int)
      modifies this`lastTrack, this`tracks, stats`tpdoCounts, stats`intervals, stats`lastTpdo1, stats`lastTrack
      ensures View() == Emit(old(View()), Sample(tMono, Track(t), invertPosition, invertAngle))
      ensures stats.lastTrack == lastTrack
      ensures stats.Counted() == old(stats.Counted()).Bump(Tpdo1)
    {
      lastTrack := Some(t);
      var out := ApplyInversions(t, invertPosition, invertAngle);
      tracks := tracks + [TrackMsg(out.leftPosition, out.leftAngle, out.rightPosition, out.rightAngle, out.strength,
                                   out.TapeDetected(), out.SingleTrack(), out.leftMarker, out.rightMarker,
                                   out.intersection, out.fork, out.merge)];
      stats.RecordTrack(t, tMono);
    }

    method HandleMarkers(m: MarkerFrame)
      modifies this`markers, stats`tpdoCounts
      ensures forall tMono :: View() == Emit(old(View()), Sample(tMono, Marker(m), invertPosition, invertAngle))
      ensures stats.Counted() == old(stats.Counted()).Bump(Tpdo2)
    {
      var sx := if invertPosition then -1 else 1;
      var left := lastTrack.Some? && lastTrack.value.leftMarker;
      var right := lastTrack.Some? && lastTrack.value.rightMarker;
      markers := markers + [MarkersMsg(left, right, sx * m.leftX, m.leftY, sx * m.rightX, m.rightY)];
      stats.tpdoCounts := stats.tpdoCounts.(tpdo2 := stats.tpdoCounts.tpdo2 + 1);
    }

    method HandleNavicode(n: NavicodeFrame)
      modifies this`navicodes, this`lastNavicodeCounter, stats`tpdoCounts
      ensures forall tMono :: View() == Emit(old(View()), Sample(tMono, Navicode(n), invertPosition, invertAngle))
      ensures stats.Counted() == old(stats.Counted()).Bump(Tpdo3)
    {
      var isNew := CounterAdvanced(lastNavicodeCounter, n.counter);
      lastNavicodeCounter := Some(n.counter);
      navicodes := navicodes + [NavicodeMsg(n.code, n.counter, isNew)];
      stats.tpdoCounts := stats.tpdoCounts.(tpdo3 := stats.tpdoCounts.tpdo3 + 1);
    }

    // ------------------------------------------------------------ SDO writes

    /** The zero service: exactly one object written, and ok tells whether it was acknowledged. */
    method HandleZero() returns (ok: bool)
      requires Valid()
      modifies stats`sdoErrors, sdo, sdo.wire
      ensures Valid()
      ensures OnlySent(old(sdo.wire.sent), sdo.wire.sent, CanFrame(0x600 + nodeId, ZeroCall().request))
      ensures CallMade(sdo.cfg, old(sdo.View(Idle)), ZeroCall(), sdo.View(Idle), ok)
      ensures stats.sdoErrors == old(stats.sdoErrors) + if ok then 0 else 1
      ensures ok ==>
                AckLeftover(old(sdo.View(Idle)), Key(0x2000, 0), [1])
                || SdoServer.Write(Key(0x2000, 0), [1]) in WritesSince(old(sdo.wire.server), sdo.wire.server)
    {
      ghost var before := sdo.wire.sent;
      ok := WriteZero();
      ZeroFrameSafe(nodeId, tpdoPeriods);
      SafeTrafficGrows(before, sdo.wire.sent, CanFrame(0x600 + nodeId, ZeroCall().request), nodeId, tpdoPeriods);
      if !ok {
        stats.sdoErrors := stats.sdoErrors + 1;
      }
    }

    /** `start_zero`; ok unless it raises. */
    method WriteZero() returns (ok: bool)
      modifies sdo, sdo.wire
      ensures OnlySent(old(sdo.wire.sent), sdo.wire.sent, CanFrame(sdo.cfg.requestId, ZeroCall().request))
      ensures CallMade(sdo.cfg, old(sdo.View(Idle)), ZeroCall(), sdo.View(Idle), ok)
      ensures ok ==>
                AckLeftover(old(sdo.View(Idle)), Key(0x2000, 0), [1])
                || SdoServer.Write(Key(0x2000, 0), [1]) in WritesSince(old(sdo.wire.server), sdo.wire.server)
    {
      ghost var begin := sdo.View(Idle);
      var r;
      ghost var steps;
      r, steps := sdo.StartZero();
      ok := r.Ok?;
      MadeSo(sdo.cfg, begin, ZeroCall(), sdo.View(Idle), ok, steps);
    }

    /** `set_tpdo_period`; ok unless it raises. */
    method WriteTimer(tpdo: int, period: nat) returns (ok: bool)
      requires 1 <= tpdo <= 3 && period <= 0xFFFF
      modifies sdo, sdo.wire
      ensures OnlySent(old(sdo.wire.sent), sdo.wire.sent,
                       CanFrame(sdo.cfg.requestId, TimerCall(tpdo, period).request))
      ensures CallMade(sdo.cfg, old(sdo.View(Idle)), TimerCall(tpdo, period), sdo.View(Idle), ok)
      ensures ok ==> |sdo.wire.sent| > |old(sdo.wire.sent)|
    {
      ghost var begin := sdo.View(Idle);
      var r;
      ghost var steps;
      r, steps := sdo.SetTpdoPeriod(tpdo, period);
      ok := r.Ok?;
      MadeSo(sdo.cfg, begin, TimerCall(tpdo, period), sdo.View(Idle), ok, steps);
    }

    /** Each configured period is written, in order, a period of 0 is left alone, and every failure is
        counted: three calls in a row, `states` being the client before, between and after them.
        `marks` cuts the frames sent into the three TPDOs' shares. */
    method ApplyTpdoPeriods() returns (results: seq<bool>, ghost states: seq<State>, ghost marks: seq<nat>)
      requires Valid()
      modifies stats`sdoErrors, sdo, sdo.wire
      ensures Valid() && |results| == 3
      ensures stats.sdoErrors == old(stats.sdoErrors) + Failures(results)
      ensures Applied(old(sdo.View(Idle)), sdo.View(Idle), results, states, 3)
      ensures Shares(old(sdo.wire.sent), sdo.wire.sent, results, marks, 3)
    {
      results, states, marks := [], [sdo.View(Idle)], [|sdo.wire.sent|];
      for tpdo := 1 to 4
        invariant Valid() && |results| == tpdo - 1
        invariant stats.sdoErrors == old(stats.sdoErrors) + Failures(results)
        invariant Applied(old(sdo.View(Idle)), sdo.View(Idle), results, states, tpdo - 1)
        invariant Shares(old(sdo.wire.sent), sdo.wire.sent, results, marks, tpdo - 1)
      {
        ghost var before := sdo.View(Idle);
        var period := tpdoPeriods[tpdo - 1];
        var ok := true;
        if period > 0 {
          ok := ApplyPeriod(tpdo, period);
        }
        MoreApplied(old(sdo.View(Idle)), before, sdo.View(Idle), results, states, tpdo, ok);
        MoreShares(old(sdo.wire.sent), before.sent, sdo.wire.sent, results, marks, tpdo, ok);
        assert (results + [ok])[..|results|] == results;
        results, states, marks := results + [ok], states + [sdo.View(Idle)], marks + [|sdo.wire.sent|];
      }
    }

    /** A state notification: a connect writes the periods again if any is configured, a disconnect
        and the node's own shutdown write nothing. */
    method OnBusState(connected: bool) returns (results: seq<bool>, ghost states: seq<State>, ghost marks: seq<nat>)
      requires Valid()
      modifies stats`sdoErrors, sdo, sdo.wire
      ensures Valid()
      ensures stats.sdoErrors == old(stats.sdoErrors) + Failures(results)
      ensures if !closing && connected && exists k :: 0 <= k < 3 && tpdoPeriods[k] > 0
              then Applied(old(sdo.View(Idle)), sdo.View(Idle), results, states, 3)
                   && Shares(old(sdo.wire.sent), sdo.wire.sent, results, marks, 3)
              else sdo.View(Idle) == old(sdo.View(Idle)) && results == []
    {
      results, states, marks := [], [], [];
      if closing {
        return;
      }
      if connected && (tpdoPeriods[0] > 0 || tpdoPeriods[1] > 0 || tpdoPeriods[2] > 0) {
        results, states, marks := ApplyTpdoPeriods();
      }
    }

    /** The k-th of `n` calls in a row, from `before` to `now`; none for a period of 0. */
    ghost predicate Applied(before: State, now: State, results: seq<bool>, states: seq<State>, n: nat) {
      && |tpdoPeriods| == 3 && n <= 3 && |results| == n && |states| == n + 1
      && states[0] == before && states[n] == now
      && forall k | 0 <= k < n :: PeriodApplied(states[k], states[k + 1], results[k], k)
    }

    ghost predicate PeriodApplied(before: State, after: State, ok: bool, k: nat)
      requires k < |tpdoPeriods|
    {
      if tpdoPeriods[k] == 0 then ok && after == before
      else tpdoPeriods[k] <= 0xFFFF
           && CallMade(sdo.cfg, before, TimerCall(k + 1, tpdoPeriods[k]), after, ok)
    }

    lemma MoreApplied(start: State, before: State, now: State, results: seq<bool>, states: seq<State>,
                      tpdo: int, ok: bool)
      requires 1 <= tpdo <= 3 && Applied(start, before, results, states, tpdo - 1)
      requires PeriodApplied(before, now, ok, tpdo - 1)
      ensures Applied(start, now, results + [ok], states + [now], tpdo)
    {
      var (rs, ss) := (results + [ok], states + [now]);
      forall k | 0 <= k < tpdo ensures PeriodApplied(ss[k], ss[k + 1], rs[k], k) {
        if k < tpdo - 1 {
          assert PeriodApplied(states[k], states[k + 1], results[k], k);
        }
      }
    }

    /** After the first `n` TPDOs: the k-th share holds copies of its own write only, at least one
        if it succeeded, and none if its period is 0. */
    ghost predicate Shares(before: seq<CanFrame>, now: seq<CanFrame>, results: seq<bool>, marks: seq<nat>, n: nat)
    {
      && |tpdoPeriods| == 3 && n <= 3 && |results| == n && |marks| == n + 1
      && before <= now && marks[0] == |before| && marks[n] == |now|
      && forall k | 0 <= k < n :: Share(now, results[k], marks[k], marks[k + 1], k)
    }

    ghost predicate Share(now: seq<CanFrame>, ok: bool, from: nat, to: nat, k: nat)
      requires k < |tpdoPeriods|
    {
      && from <= to <= |now|
      && (if tpdoPeriods[k] == 0 then ok && from == to
          else (ok ==> from < to) && tpdoPeriods[k] <= 0xFFFF
               && forall i | from <= i < to ::
                    now[i] == CanFrame(0x600 + nodeId, TimerCall(k + 1, tpdoPeriods[k]).request))
    }

    lemma MoreShares(start: seq<CanFrame>, before: seq<CanFrame>, now: seq<CanFrame>,
                     results: seq<bool>, marks: seq<nat>, tpdo: int, ok: bool)
      requires 1 <= tpdo <= 3 && Shares(start, before, results, marks, tpdo - 1)
      requires before <= now && Share(now, ok, |before|, |now|, tpdo - 1)
      ensures Shares(start, now, results + [ok], marks + [|now|], tpdo)
    {
      var (rs, ms) := (results + [ok], marks + [|now|]);
      forall k | 0 <= k < tpdo ensures Share(now, rs[k], ms[k], ms[k + 1], k) {
        if k < tpdo - 1 {
          assert Share(before, results[k], marks[k], marks[k + 1], k);
        }
      }
    }

    method ApplyPeriod(tpdo: int, period: nat) returns (ok: bool)
      requires Valid() && 1 <= tpdo <= 3 && period == tpdoPeriods[tpdo - 1] && 0 < period <= 0xFFFF
      modifies stats`sdoErrors, sdo, sdo.wire
      ensures Valid()
      ensures OnlySent(old(sdo.wire.sent), sdo.wire.sent, CanFrame(0x600 + nodeId, TimerCall(tpdo, period).request))
      ensures ok ==> |sdo.wire.sent| > |old(sdo.wire.sent)|
      ensures PeriodApplied(old(sdo.View(Idle)), sdo.View(Idle), ok, tpdo - 1)
      ensures stats.sdoErrors == old(stats.sdoErrors) + if ok then 0 else 1
    {
      ghost var before := sdo.wire.sent;
      ok := WriteTimer(tpdo, period);
      TimerFrameSafe(nodeId, tpdoPeriods, tpdo);
      SafeTrafficGrows(before, sdo.wire.sent, CanFrame(0x600 + nodeId, TimerCall(tpdo, period).request),
                       nodeId, tpdoPeriods);
      if !ok {
        stats.sdoErrors := stats.sdoErrors + 1;
      }
    }

    method Close()
      requires Valid()
      modifies this`closing
      ensures Valid() && closing
    {
      closing := true;
    }
  }

  /** What a node has published and counted is what its history says: per class of frame, per
      decoded sample, and, on standard traffic under fixed settings, per sample of `decode_log`. */
  lemma PublishedMeaning(d: Mts160Driver)
    requires d.HistoryMatches()
    ensures (var s := Samples(d.history, d.nodeId);
             d.tracks == TrackMsgs(s) && d.markers == MarkersMsgs(s) && d.navicodes == NavicodeMsgs(s)
             && d.stats.intervals == Latest(WINDOW, Intervals(TrackTimes(s))) && d.stats.Beat() == LastBeat(s))
    ensures d.stats.Counted().Total() == |d.history|
    ensures CountNew(d.navicodes) == DecodeLog.CounterChanges(Counters(Samples(d.history, d.nodeId)))
    ensures forall p, a | Uniform(d.history, p, a) ::
              Samples(d.history, d.nodeId) == Attach(DecodeLog.Decode(Log(d.history), d.nodeId), p, a)
  {
    HandledIsOutputs(d.history, d.nodeId);
    FramesConserved(Classes(d.history, d.nodeId));
    NewMessagesAreChanges(Samples(d.history, d.nodeId));
    forall p, a | Uniform(d.history, p, a)
      ensures Samples(d.history, d.nodeId) == Attach(DecodeLog.Decode(Log(d.history), d.nodeId), p, a)
    {
      SamplesAreDecodeLog(d.history, d.nodeId, p, a);
    }
  }

  /** What the statistics say, counter by counter: how many of the frames seen had such an identifier
      and length, and when and in which state the latest heartbeat came. */
  lemma StatsMeaning(d: Mts160Driver)
    requires d.HistoryMatches() && ValidNodeId(d.nodeId)
    ensures d.stats.otherNode == Tellable(d.history, OtherNode, d.nodeId)
    ensures d.stats.sdoResponses == Tellable(d.history, SdoReply, d.nodeId)
    ensures d.stats.badLength == Tellable(d.history, BadLength, d.nodeId)
    ensures d.stats.unknown == Tellable(d.history, Unknown, d.nodeId)
    ensures d.stats.tpdoCounts.tpdo1 == Tellable(d.history, Tpdo1, d.nodeId)
    ensures d.stats.tpdoCounts.tpdo2 == Tellable(d.history, Tpdo2, d.nodeId)
    ensures d.stats.tpdoCounts.tpdo3 == Tellable(d.history, Tpdo3, d.nodeId)
    ensures d.stats.heartbeatCount == Tellable(d.history, Beat, d.nodeId)
    ensures (var samples := Samples(d.history, d.nodeId);
             if d.stats.lastHeartbeat.None? then NoneBefore(Values(samples), |samples|, Beat)
             else d.stats.nmtState.Some?
                  && exists j | 0 <= j < |samples| ::
                       && LatestAt(Values(samples), |samples|, j, Beat)
                       && samples[j].tMono == d.stats.lastHeartbeat.value
                       && samples[j].value == Heartbeat(d.stats.nmtState.value))
  {
    CountersMeaning(d.history, d.nodeId, OtherNode);
    CountersMeaning(d.history, d.nodeId, SdoReply);
    CountersMeaning(d.history, d.nodeId, BadLength);
    CountersMeaning(d.history, d.nodeId, Unknown);
    CountersMeaning(d.history, d.nodeId, Tpdo1);
    CountersMeaning(d.history, d.nodeId, Tpdo2);
    CountersMeaning(d.history, d.nodeId, Tpdo3);
    CountersMeaning(d.history, d.nodeId, Beat);
    HandledIsOutputs(d.history, d.nodeId);
    LastBeatMeaning(Samples(d.history, d.nodeId));
  }

  function Failures(results: seq<bool>): nat {
    if results == [] then 0
    else Failures(results[..|results| - 1]) + if results[|results| - 1] then 0 else 1
  }
}
