/** naviq_mts160/naviq_mts160/diagnostics.py: the counters shared with the driver
    and the periodic tasks that report their changes. Times are integers
    (microseconds); the least time difference the source divides by is one. */
module Diagnostics {
  import opened Bytes
  import opened Decoder
  import opened Pipeline

  datatype TpdoCounts = TpdoCounts(tpdo1: nat, tpdo2: nat, tpdo3: nat)

  class Stats {
    var heartbeatCount: nat
    var lastHeartbeat: Option<int>
    var nmtState: Option<byte>
    var tpdoCounts: TpdoCounts
    var lastTpdo1: Option<int>
    var lastTrack: Option<TrackFrame>
    var badLength: nat
    var unknown: nat
    var otherNode: nat
    var sdoResponses: nat
    var sdoErrors: nat
    var intervals: seq<int>

    constructor ()
      ensures heartbeatCount == badLength == unknown == otherNode == sdoResponses == sdoErrors == 0
      ensures lastHeartbeat.None? && nmtState.None? && lastTpdo1.None? && lastTrack.None?
      ensures tpdoCounts == TpdoCounts(0, 0, 0) && intervals == []
    {
      heartbeatCount, badLength, unknown, otherNode, sdoResponses, sdoErrors := 0, 0, 0, 0, 0, 0;
      lastHeartbeat, nmtState, lastTpdo1, lastTrack := None, None, None, None;
      tpdoCounts, intervals := TpdoCounts(0, 0, 0), [];
    }

    ghost function Counted(): Tally
      reads this
    {
      Tally(otherNode, sdoResponses, badLength, unknown, tpdoCounts.tpdo1, tpdoCounts.tpdo2, tpdoCounts.tpdo3,
            heartbeatCount)
    }

    /** The latest heartbeat: its time and state are always set together. */
    ghost function Beat(): Option<(int, byte)>
      reads this
    {
      if lastHeartbeat.Some? && nmtState.Some? then Some((lastHeartbeat.value, nmtState.value)) else None
    }

    ghost predicate BeatWhole()
      reads this
    {
      lastHeartbeat.Some? <==> nmtState.Some?
    }

    /** The counters and the reception times are those of these deliveries. */
    ghost predicate Matches(history: seq<Delivery>, nodeId: nat)
      reads this
    {
      && Counted() == Counts(history, nodeId)
      && lastTpdo1 == Handled(history, nodeId).lastTpdo1
      && intervals == Handled(history, nodeId).intervals
      && lastTrack == Handled(history, nodeId).lastTrack
      && Beat() == Handled(history, nodeId).lastBeat && BeatWhole()
    }

    /** The statistics a track updates under the lock. */
    method RecordTrack(t: TrackFrame, tMono: int)
      modifies this`tpdoCounts, this`intervals, this`lastTpdo1, this`lastTrack
      ensures Counted() == old(Counted()).Bump(Tpdo1)
      ensures intervals == PushInterval(old(intervals), old(lastTpdo1), tMono)
      ensures lastTpdo1 == Some(tMono) && lastTrack == Some(t)
    {
      tpdoCounts := tpdoCounts.(tpdo1 := tpdoCounts.tpdo1 + 1);
      if lastTpdo1.Some? {
        // a deque of at most WINDOW intervals
        intervals := Latest(WINDOW, intervals + [tMono - lastTpdo1.value]);
      }
      lastTpdo1 := Some(tMono);
      lastTrack := Some(t);
    }
  }

  function CountsOf(history: seq<Delivery>, nodeId: nat): TpdoCounts {
    TpdoCounts(Counts(history, nodeId).tpdo1, Counts(history, nodeId).tpdo2, Counts(history, nodeId).tpdo3)
  }

  /** The status levels of a diagnostics message. */
  datatype Level = OK | WARN | ERROR

  /** Count differences since the previous report, and the time they are divided by. */
  datatype DataReport = DataReport(level: Level, new1: int, new2: int, new3: int, elapsed: int)

  datatype FrameErrorsReport = FrameErrorsReport(level: Level, dropped: nat)

  class Mts160Diagnostics {
    const stats: Stats
    var timeout: int
    var heartbeatTimeout: int
    var prevCounts: TpdoCounts
    var prevTime: int
    var prevBadLength: nat

    constructor (stats: Stats, timeout: int, heartbeatTimeout: int, now: int)
      ensures this.stats == stats && this.timeout == timeout && this.heartbeatTimeout == heartbeatTimeout
      ensures prevCounts == TpdoCounts(0, 0, 0) && prevTime == now && prevBadLength == 0
    {
      this.stats, this.timeout, this.heartbeatTimeout := stats, timeout, heartbeatTimeout;
      prevCounts, prevTime, prevBadLength := TpdoCounts(0, 0, 0), now, 0;
    }

    method DataTask(now: int) returns (r: DataReport)
      modifies this
      ensures prevCounts == stats.tpdoCounts && prevTime == now
      ensures r.new1 == stats.tpdoCounts.tpdo1 - old(prevCounts).tpdo1
      ensures r.new2 == stats.tpdoCounts.tpdo2 - old(prevCounts).tpdo2
      ensures r.new3 == stats.tpdoCounts.tpdo3 - old(prevCounts).tpdo3
      ensures r.elapsed == (if now - old(prevTime) >= 1 then now - old(prevTime) else 1)
      ensures r.level == OK <==> stats.lastTpdo1.Some? && now - stats.lastTpdo1.value <= timeout
      ensures r.level != WARN
      ensures timeout == old(timeout) && heartbeatTimeout == old(heartbeatTimeout)
      ensures prevBadLength == old(prevBadLength)
    {
      var counts := stats.tpdoCounts;
      var dt := if now - prevTime > 1 then now - prevTime else 1;
      r := DataReport(OK, counts.tpdo1 - prevCounts.tpdo1, counts.tpdo2 - prevCounts.tpdo2,
                      counts.tpdo3 - prevCounts.tpdo3, dt);
      prevCounts := counts;
      prevTime := now;
      match stats.lastTpdo1
      case None =>
        r := r.(level := ERROR);
      case Some(last) =>
        if now - last > timeout {
          r := r.(level := ERROR);
        }
    }

    method FrameErrorsTask() returns (r: FrameErrorsReport)
      modifies this`prevBadLength
      ensures prevBadLength == stats.badLength
      ensures stats.badLength >= old(prevBadLength) ==> r.dropped == stats.badLength - old(prevBadLength)
      ensures r.level == WARN <==> r.dropped > 0
      ensures r.level != ERROR
    {
      var bad := stats.badLength;
      r := FrameErrorsReport(OK, 0);
      if bad > prevBadLength {
        r := FrameErrorsReport(WARN, bad - prevBadLength);
      }
      prevBadLength := bad;
    }

    /** The previous figures are those after `reported`. */
    ghost predicate UpTo(reported: seq<Delivery>, nodeId: nat)
      reads this
    {
      prevBadLength == Counts(reported, nodeId).badLength && prevCounts == CountsOf(reported, nodeId)
    }

    /** One cycle of the updater: the figures are the changes since the cycle before, and the data
        is fresh iff some TPDO1 of the history is no older than the timeout. */
    method Update(now: int, ghost reported: seq<Delivery>, ghost history: seq<Delivery>, ghost nodeId: nat)
      returns (figures: Figures, level: Level)
      requires UpTo(reported, nodeId) && stats.Matches(history, nodeId) && reported <= history
      modifies this
      ensures UpTo(history, nodeId)
      ensures figures == Change(reported, history, nodeId)
      ensures Sorted(TrackTimes(Samples(history, nodeId))) ==>
                (level == OK <==> SomeFresh(TrackTimes(Samples(history, nodeId)), now, old(timeout)))
    {
      var data := DataTask(now);
      var errors := FrameErrorsTask();
      figures := Figures(errors.dropped, data.new1, data.new2, data.new3);
      level := data.level;
      WrongLengthsGrow(reported, history, nodeId);
      if Sorted(TrackTimes(Samples(history, nodeId))) {
        LastIsFreshest(history, nodeId, now, old(timeout));
      }
    }

    /** Lost heartbeats are errors; a live node that is not operational is a warning. */
    method HeartbeatTask(now: int) returns (level: Level)
      ensures level == OK <==>
                stats.lastHeartbeat.Some? && now - stats.lastHeartbeat.value <= heartbeatTimeout
                && stats.nmtState == Some(5)
      ensures level == ERROR <==>
                stats.lastHeartbeat.Some? && now - stats.lastHeartbeat.value > heartbeatTimeout
    {
      match stats.lastHeartbeat
      case None => level := WARN;
      case Some(last) =>
        if now - last > heartbeatTimeout {
          level := ERROR;
        } else if stats.nmtState != Some(NMT_OPERATIONAL) {
          level := WARN;
        } else {
          level := OK;
        }
    }
  }

  ghost predicate Sorted(times: seq<int>) {
    forall i, j | 0 <= i <= j < |times| :: times[i] <= times[j]
  }

  /** One of these times is no longer ago than the timeout. */
  ghost predicate SomeFresh(times: seq<int>, now: int, timeout: int) {
    exists t :: t in times && now - t <= timeout
  }

  /** With reception times in order, the last one is fresh iff any is. */
  lemma {:induction false} FreshMeaning(times: seq<int>, now: int, timeout: int)
    requires Sorted(times)
    ensures (times != [] && now - times[|times| - 1] <= timeout) <==> SomeFresh(times, now, timeout)
  {
    if t :| t in times && now - t <= timeout {
      var i :| 0 <= i < |times| && times[i] == t;
      assert times[i] <= times[|times| - 1];
    }
    if times != [] && now - times[|times| - 1] <= timeout {
      assert times[|times| - 1] in times;
    }
  }

  /** So it is enough to remember the last reception. */
  lemma LastIsFreshest(history: seq<Delivery>, nodeId: nat, now: int, timeout: int)
    requires Sorted(TrackTimes(Samples(history, nodeId)))
    ensures (var last := Handled(history, nodeId).lastTpdo1;
             (last.Some? && now - last.value <= timeout)
             <==> SomeFresh(TrackTimes(Samples(history, nodeId)), now, timeout))
  {
    var times := TrackTimes(Samples(history, nodeId));
    HandledIsOutputs(history, nodeId);
    assert Handled(history, nodeId).lastTpdo1 == LastOf(times);
    FreshMeaning(times, now, timeout);
  }

  // -------------------------------------------------------------- telescoping

  /** What happens to a running node, as far as the reports are concerned. */
  datatype Event = Received(d: Delivery) | Report(now: int)

  function History(events: seq<Event>): seq<Delivery> {
    if events == [] then [] else
      var last := events[|events| - 1];
      History(events[..|events| - 1]) + if last.Received? then [last.d] else []
  }

  /** A history is the deliveries among the events, in order. */
  lemma {:induction false} HistoryConcat(a: seq<Event>, b: seq<Event>)
    ensures History(a + b) == History(a) + History(b)
    decreases |b|
  {
    if b == [] {
      assert a + b == a;
    } else {
      HistoryConcat(a, b[..|b| - 1]);
      assert (a + b)[..|a + b| - 1] == a + b[..|b| - 1];
    }
  }

  lemma HistoryOfOne(d: Delivery)
    ensures History([Received(d)]) == [d]
  {
    assert [Received(d)][..0] == [];
  }

  /** The deliveries before the latest report. */
  function Reported(events: seq<Event>): seq<Delivery> {
    if events == [] then []
    else if events[|events| - 1].Report? then History(events)
    else Reported(events[..|events| - 1])
  }

  /** Those before a report after which there is none. */
  lemma {:induction false} ReportedExact(before: seq<Event>, now: int, after: seq<Event>)
    requires forall i | 0 <= i < |after| :: !after[i].Report?
    ensures Reported(before + [Report(now)] + after) == History(before)
    decreases |after|
  {
    var events := before + [Report(now)] + after;
    if after == [] {
      HistoryConcat(before, [Report(now)]);
      HistoryOfReport(now);
      assert events == before + [Report(now)];
    } else {
      ReportedExact(before, now, after[..|after| - 1]);
      assert events[..|events| - 1] == before + [Report(now)] + after[..|after| - 1];
    }
  }

  lemma HistoryOfReport(now: int)
    ensures History([Report(now)]) == []
  {
    assert [Report(now)][..0] == [];
  }

  /** One report's figures. */
  datatype Figures = Figures(dropped: int, new1: int, new2: int, new3: int)
  {
    function Plus(f: Figures): Figures {
      Figures(dropped + f.dropped, new1 + f.new1, new2 + f.new2, new3 + f.new3)
    }
  }

  /** The figures the tasks report at each report of the schedule: changes since the previous one. */
  function Reports(events: seq<Event>, nodeId: nat): seq<Figures> {
    if events == [] then [] else
      var front := events[..|events| - 1];
      Reports(front, nodeId)
      + if events[|events| - 1].Report? then [Change(Reported(front), History(front), nodeId)] else []
  }

  function Change(before: seq<Delivery>, after: seq<Delivery>, nodeId: nat): Figures {
    var bad := Counts(after, nodeId).badLength;
    var prev := Counts(before, nodeId).badLength;
    Figures(if bad > prev then bad - prev else 0,
            Counts(after, nodeId).tpdo1 - Counts(before, nodeId).tpdo1,
            Counts(after, nodeId).tpdo2 - Counts(before, nodeId).tpdo2,
            Counts(after, nodeId).tpdo3 - Counts(before, nodeId).tpdo3)
  }

  function Total(reports: seq<Figures>): Figures {
    if reports == [] then Figures(0, 0, 0, 0)
    else Total(reports[..|reports| - 1]).Plus(reports[|reports| - 1])
  }

  lemma {:induction false} ReportedIsPrefix(events: seq<Event>)
    ensures Reported(events) <= History(events)
    decreases |events|
  {
    if events != [] {
      ReportedIsPrefix(events[..|events| - 1]);
    }
  }

  lemma WrongLengthsGrow(before: seq<Delivery>, after: seq<Delivery>, nodeId: nat)
    requires before <= after
    ensures Counts(before, nodeId).badLength <= Counts(after, nodeId).badLength
  {
    ClassesPrefix(before, after, nodeId);
    TallyGrows(Classes(before, nodeId), Classes(after, nodeId), BadLength);
  }

  /** Over any schedule of frames and reports, the reported figures add up to the totals at the
      latest report. */
  lemma {:induction false} ReportsTelescope(events: seq<Event>, nodeId: nat)
    ensures (var h := Reported(events);
             Total(Reports(events, nodeId))
             == Figures(Counts(h, nodeId).badLength, Counts(h, nodeId).tpdo1,
                        Counts(h, nodeId).tpdo2, Counts(h, nodeId).tpdo3))
    decreases |events|
  {
    if events != [] {
      var front := events[..|events| - 1];
      ReportsTelescope(front, nodeId);
      ReportedIsPrefix(front);
      WrongLengthsGrow(Reported(front), History(front), nodeId);
      var reports := Reports(events, nodeId);
      if events[|events| - 1].Report? {
        assert reports[..|reports| - 1] == Reports(front, nodeId);
        assert History(events) == History(front);
      } else {
        assert reports == Reports(front, nodeId);
      }
    }
  }
}
