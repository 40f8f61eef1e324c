/** What naviq_mts160/naviq_mts160/driver.py publishes and counts, as functions of
    the frames it has been given. */
module Pipeline {
  import opened Bytes
  import opened Decoder
  import DecodeLog

  datatype Frame = Frame(canId: nat, data: seq<byte>, tMono: int, isExtended: bool)

  /** A frame handed to `_on_frame`, with the inversion settings in force at that moment. */
  datatype Delivery = Delivery(frame: Frame, invertPosition: bool, invertAngle: bool)

  /** A delivery that decodes. */
  datatype Sample = Sample(tMono: int, value: Decoded, invertPosition: bool, invertAngle: bool)

  datatype TrackMsg = TrackMsg(
    leftPosition: int, leftAngle: int, rightPosition: int, rightAngle: int, strength: int,
    tapeDetected: bool, singleTrack: bool, leftMarker: bool, rightMarker: bool,
    intersection: bool, fork: bool, merge: bool)

  /** Coordinates in tenths of a millimetre. */
  datatype MarkersMsg = MarkersMsg(leftDetected: bool, rightDetected: bool,
                                   leftX: int, leftY: int, rightX: int, rightY: int)

  datatype NavicodeMsg = NavicodeMsg(code: nat, counter: byte, isNew: bool)

  // ------------------------------------------------------------------ classes

  /** What `_on_frame` does with a frame; every frame is exactly one of these. */
  datatype Class = OtherNode | SdoReply | BadLength | Unknown | Tpdo1 | Tpdo2 | Tpdo3 | Beat

  /** What the decoder says about a frame that reaches it; SDO replies and foreign frames do not. */
  function Decoding(f: Frame, nodeId: nat): Result<Option<Decoded>, WrongLength> {
    if f.isExtended then Ok(None) else DecodeFrame(f.canId, f.data, nodeId)
  }

  function Classify(f: Frame, nodeId: nat): Class {
    if f.isExtended || !IsNodeFrame(f.canId, nodeId) then OtherNode
    else if FunctionCode(f.canId) == FC_SDO_TX then SdoReply
    else match Decoding(f, nodeId)
         case Err(_) => BadLength
         case Ok(None) => Unknown
         case Ok(Some(value)) => ClassOf(value)
  }

  function ClassOf(value: Decoded): Class {
    match value
    case Track(_) => Tpdo1
    case Marker(_) => Tpdo2
    case Navicode(_) => Tpdo3
    case Heartbeat(_) => Beat
  }

  // What the classes mean, by identifier and length.

  predicate IsOtherNode(f: Frame, nodeId: nat) { f.isExtended || f.canId > 0x7FF || f.canId % 128 != nodeId }

  predicate IsSdoReply(f: Frame, nodeId: nat) { !f.isExtended && f.canId == 0x580 + nodeId }

  predicate IsTpdo1(f: Frame, nodeId: nat) { !f.isExtended && f.canId == 0x180 + nodeId && |f.data| == 5 }

  predicate IsTpdo2(f: Frame, nodeId: nat) { !f.isExtended && f.canId == 0x280 + nodeId && |f.data| == 8 }

  predicate IsTpdo3(f: Frame, nodeId: nat) { !f.isExtended && f.canId == 0x380 + nodeId && |f.data| == 3 }

  predicate IsBeat(f: Frame, nodeId: nat) { !f.isExtended && f.canId == 0x700 + nodeId && |f.data| == 1 }

  predicate IsBadLength(f: Frame, nodeId: nat) {
    && !f.isExtended
    && (|| (f.canId == 0x180 + nodeId && |f.data| != 5)
        || (f.canId == 0x280 + nodeId && |f.data| != 8)
        || (f.canId == 0x380 + nodeId && |f.data| != 3)
        || (f.canId == 0x700 + nodeId && |f.data| != 1))
  }

  /** From the sensor, with a function code that is none of the above. */
  predicate IsUnknown(f: Frame, nodeId: nat) {
    && !IsOtherNode(f, nodeId) && !IsSdoReply(f, nodeId)
    && f.canId !in {0x180 + nodeId, 0x280 + nodeId, 0x380 + nodeId, 0x700 + nodeId}
  }

  predicate IsOf(c: Class, f: Frame, nodeId: nat) {
    match c
    case OtherNode => IsOtherNode(f, nodeId)
    case SdoReply => IsSdoReply(f, nodeId)
    case BadLength => IsBadLength(f, nodeId)
    case Unknown => IsUnknown(f, nodeId)
    case Tpdo1 => IsTpdo1(f, nodeId)
    case Tpdo2 => IsTpdo2(f, nodeId)
    case Tpdo3 => IsTpdo3(f, nodeId)
    case Beat => IsBeat(f, nodeId)
  }

  lemma ClassifyMeaning(f: Frame, nodeId: nat, c: Class)
    requires ValidNodeId(nodeId)
    ensures Classify(f, nodeId) == c <==> IsOf(c, f, nodeId)
  {
    DecodeFrameMeaning(f.canId, f.data, nodeId);
    FunctionCodeOf(f.canId, nodeId);
  }

  /** A delivery is a sample iff it is process data or a heartbeat of the right length, and then the
      sample is what its bytes say. */
  lemma SampleMeaning(d: Delivery, nodeId: nat)
    requires ValidNodeId(nodeId)
    ensures (var s := SampleOf(d, nodeId);
             && (s.Some? <==> IsTpdo1(d.frame, nodeId) || IsTpdo2(d.frame, nodeId) || IsTpdo3(d.frame, nodeId)
                              || IsBeat(d.frame, nodeId))
             && (s.Some? ==>
                   && s.value.tMono == d.frame.tMono && s.value.invertPosition == d.invertPosition
                   && s.value.invertAngle == d.invertAngle
                   && Carries(d.frame.canId, d.frame.data, nodeId, s.value.value)))
  {
    DecodeFrameMeaning(d.frame.canId, d.frame.data, nodeId);
  }

  /** The class of every frame of a history. */
  function Classes(history: seq<Delivery>, nodeId: nat): (r: seq<Class>)
    ensures |r| == |history|
    decreases |history|
  {
    if history == [] then [] else
      Classes(history[..|history| - 1], nodeId) + [Classify(history[|history| - 1].frame, nodeId)]
  }

  lemma {:induction false} ClassesPrefix(before: seq<Delivery>, after: seq<Delivery>, nodeId: nat)
    requires before <= after
    ensures Classes(before, nodeId) <= Classes(after, nodeId)
    decreases |after|
  {
    if |before| < |after| {
      ClassesPrefix(before, after[..|after| - 1], nodeId);
    } else {
      assert before == after;
    }
  }

  // ------------------------------------------------------------------ samples

  function SampleOf(d: Delivery, nodeId: nat): Option<Sample> {
    match Decoding(d.frame, nodeId)
    case Ok(Some(value)) => Some(Sample(d.frame.tMono, value, d.invertPosition, d.invertAngle))
    case _ => None
  }

  function Samples(history: seq<Delivery>, nodeId: nat): seq<Sample>
    decreases |history|
  {
    if history == [] then [] else
      var rest := Samples(history[..|history| - 1], nodeId);
      match SampleOf(history[|history| - 1], nodeId)
      case None => rest
      case Some(s) => rest + [s]
  }

  /** One counter per class. */
  datatype Tally = Tally(otherNode: nat, sdoReply: nat, badLength: nat, unknown: nat,
                         tpdo1: nat, tpdo2: nat, tpdo3: nat, beat: nat)
  {
    function Bump(c: Class): Tally {
      match c
      case OtherNode => this.(otherNode := otherNode + 1)
      case SdoReply => this.(sdoReply := sdoReply + 1)
      case BadLength => this.(badLength := badLength + 1)
      case Unknown => this.(unknown := unknown + 1)
      case Tpdo1 => this.(tpdo1 := tpdo1 + 1)
      case Tpdo2 => this.(tpdo2 := tpdo2 + 1)
      case Tpdo3 => this.(tpdo3 := tpdo3 + 1)
      case Beat => this.(beat := beat + 1)
    }

    function Get(c: Class): nat {
      match c
      case OtherNode => otherNode
      case SdoReply => sdoReply
      case BadLength => badLength
      case Unknown => unknown
      case Tpdo1 => tpdo1
      case Tpdo2 => tpdo2
      case Tpdo3 => tpdo3
      case Beat => beat
    }

    function Total(): nat {
      otherNode + sdoReply + badLength + unknown + tpdo1 + tpdo2 + tpdo3 + beat
    }
  }

  function TallyOf(classes: seq<Class>): Tally {
    if classes == [] then Tally(0, 0, 0, 0, 0, 0, 0, 0)
    else TallyOf(classes[..|classes| - 1]).Bump(classes[|classes| - 1])
  }

  /** The counters after a history. */
  function Counts(history: seq<Delivery>, nodeId: nat): Tally { TallyOf(Classes(history, nodeId)) }

  lemma BumpCounts(t: Tally, c: Class, other: Class)
    ensures t.Bump(c).Total() == t.Total() + 1
    ensures t.Bump(c).Get(other) == t.Get(other) + if c == other then 1 else 0
  {
  }

  function Occurrences(classes: seq<Class>, c: Class): nat {
    if classes == [] then 0
    else Occurrences(classes[..|classes| - 1], c) + if classes[|classes| - 1] == c then 1 else 0
  }

  /** No frame is lost or counted twice: the counters add up to the number of frames. */
  lemma {:induction false} FramesConserved(classes: seq<Class>)
    ensures TallyOf(classes).Total() == |classes|
    decreases |classes|
  {
    if classes != [] {
      var front, last := classes[..|classes| - 1], classes[|classes| - 1];
      FramesConserved(front);
      BumpCounts(TallyOf(front), last, last);
    }
  }

  /** Each counter is the number of frames of its class. */
  lemma {:induction false} CountersAreOccurrences(classes: seq<Class>, c: Class)
    ensures TallyOf(classes).Get(c) == Occurrences(classes, c)
    decreases |classes|
  {
    if classes != [] {
      var front, last := classes[..|classes| - 1], classes[|classes| - 1];
      CountersAreOccurrences(front, c);
      BumpCounts(TallyOf(front), last, c);
    }
  }

  /** Of a history, the frames of a class, told by identifier and length. */
  function Tellable(history: seq<Delivery>, c: Class, nodeId: nat): nat {
    if history == [] then 0
    else Tellable(history[..|history| - 1], c, nodeId)
         + if IsOf(c, history[|history| - 1].frame, nodeId) then 1 else 0
  }

  /** Each counter is the number of frames with such an identifier and length. */
  lemma {:induction false} CountersMeaning(history: seq<Delivery>, nodeId: nat, c: Class)
    requires ValidNodeId(nodeId)
    ensures Counts(history, nodeId).Get(c) == Tellable(history, c, nodeId)
    decreases |history|
  {
    CountersAreOccurrences(Classes(history, nodeId), c);
    if history != [] {
      CountersMeaning(history[..|history| - 1], nodeId, c);
      CountersAreOccurrences(Classes(history[..|history| - 1], nodeId), c);
      ClassifyMeaning(history[|history| - 1].frame, nodeId, c);
      assert Classes(history, nodeId)[..|history| - 1] == Classes(history[..|history| - 1], nodeId);
    }
  }

  lemma {:induction false} TallyGrows(before: seq<Class>, after: seq<Class>, c: Class)
    requires before <= after
    ensures TallyOf(before).Get(c) <= TallyOf(after).Get(c)
    decreases |after|
  {
    if |before| < |after| {
      TallyGrows(before, after[..|after| - 1], c);
      BumpCounts(TallyOf(after[..|after| - 1]), after[|after| - 1], c);
    } else {
      assert before == after;
    }
  }

  // ----------------------------------------------------------------- messages

  function ToTrackMsg(t: TrackFrame, invertPosition: bool, invertAngle: bool): TrackMsg {
    var out := ApplyInversions(t, invertPosition, invertAngle);
    TrackMsg(out.leftPosition, out.leftAngle, out.rightPosition, out.rightAngle, out.strength,
             out.TapeDetected(), out.SingleTrack(), out.leftMarker, out.rightMarker,
             out.intersection, out.fork, out.merge)
  }

  function ToMarkersMsg(m: MarkerFrame, last: Option<TrackFrame>, invertPosition: bool): MarkersMsg {
    var sx := if invertPosition then -1 else 1;
    MarkersMsg(last.Some? && last.value.leftMarker, last.Some? && last.value.rightMarker,
               sx * m.leftX, m.leftY, sx * m.rightX, m.rightY)
  }

  function LastOfClass(samples: seq<Sample>, c: Class): (r: Option<Sample>)
    ensures r.Some? ==> ClassOf(r.value.value) == c
  {
    if samples == [] then None
    else if ClassOf(samples[|samples| - 1].value) == c then Some(samples[|samples| - 1])
    else LastOfClass(samples[..|samples| - 1], c)
  }

  /** The latest track of a stream. */
  function LastTrack(samples: seq<Sample>): Option<TrackFrame> {
    match LastOfClass(samples, Tpdo1) case None => None case Some(s) => Some(s.value.track)
  }

  function LastCounter(samples: seq<Sample>): Option<int> {
    match LastOfClass(samples, Tpdo3) case None => None case Some(s) => Some(s.value.navicode.counter)
  }

  /** Reception time and NMT state of the latest heartbeat. */
  function LastBeat(samples: seq<Sample>): Option<(int, byte)> {
    match LastOfClass(samples, Beat) case None => None case Some(s) => Some((s.tMono, s.value.state))
  }

  function TrackMsgs(samples: seq<Sample>): seq<TrackMsg> {
    if samples == [] then [] else
      var s := samples[|samples| - 1];
      TrackMsgs(samples[..|samples| - 1])
      + if s.value.Track? then [ToTrackMsg(s.value.track, s.invertPosition, s.invertAngle)] else []
  }

  function MarkersMsgs(samples: seq<Sample>): seq<MarkersMsg> {
    if samples == [] then [] else
      var (front, s) := (samples[..|samples| - 1], samples[|samples| - 1]);
      MarkersMsgs(front)
      + if s.value.Marker? then [ToMarkersMsg(s.value.marker, LastTrack(front), s.invertPosition)] else []
  }

  function NavicodeMsgs(samples: seq<Sample>): seq<NavicodeMsg> {
    if samples == [] then [] else
      var (front, s) := (samples[..|samples| - 1], samples[|samples| - 1]);
      NavicodeMsgs(front)
      + if s.value.Navicode? then
          [NavicodeMsg(s.value.navicode.code, s.value.navicode.counter,
                       CounterAdvanced(LastCounter(front), s.value.navicode.counter))]
        else []
  }

  /** Everything the driver has published or remembers after a stream of samples. */
  datatype Outputs = Outputs(tracks: seq<TrackMsg>, markers: seq<MarkersMsg>, navicodes: seq<NavicodeMsg>,
                             lastTrack: Option<TrackFrame>, lastCounter: Option<int>,
                             lastTpdo1: Option<int>, intervals: seq<int>, lastBeat: Option<(int, byte)>)

  function OutputsOf(samples: seq<Sample>): Outputs {
    Outputs(TrackMsgs(samples), MarkersMsgs(samples), NavicodeMsgs(samples), LastTrack(samples), LastCounter(samples),
            LastOf(TrackTimes(samples)), Latest(WINDOW, Intervals(TrackTimes(samples))), LastBeat(samples))
  }

  /** What one more sample adds. */
  function Emit(o: Outputs, s: Sample): Outputs {
    match s.value
    case Track(t) =>
      o.(tracks := o.tracks + [ToTrackMsg(t, s.invertPosition, s.invertAngle)], lastTrack := Some(t),
         lastTpdo1 := Some(s.tMono),
         intervals := PushInterval(o.intervals, o.lastTpdo1, s.tMono))
    case Marker(m) =>
      o.(markers := o.markers + [ToMarkersMsg(m, o.lastTrack, s.invertPosition)])
    case Navicode(n) =>
      o.(navicodes := o.navicodes + [NavicodeMsg(n.code, n.counter, CounterAdvanced(o.lastCounter, n.counter))],
         lastCounter := Some(n.counter))
    case Heartbeat(state) => o.(lastBeat := Some((s.tMono, state)))
  }

  lemma {:induction false} RememberedSnoc(samples: seq<Sample>, s: Sample)
    ensures LastTrack(samples + [s]) == if s.value.Track? then Some(s.value.track) else LastTrack(samples)
    ensures LastCounter(samples + [s])
         == if s.value.Navicode? then Some(s.value.navicode.counter) else LastCounter(samples)
    ensures LastBeat(samples + [s])
         == if s.value.Heartbeat? then Some((s.tMono, s.value.state)) else LastBeat(samples)
    ensures TrackTimes(samples + [s]) == TrackTimes(samples) + if s.value.Track? then [s.tMono] else []
  {
    assert (samples + [s])[..|samples + [s]| - 1] == samples;
  }

  lemma {:induction false} TracksSnoc(samples: seq<Sample>, s: Sample)
    ensures TrackMsgs(samples + [s]) == TrackMsgs(samples)
            + if s.value.Track? then [ToTrackMsg(s.value.track, s.invertPosition, s.invertAngle)] else []
  {
    assert (samples + [s])[..|samples + [s]| - 1] == samples;
  }

  lemma {:induction false} MarkersSnoc(samples: seq<Sample>, s: Sample)
    ensures MarkersMsgs(samples + [s]) == MarkersMsgs(samples)
            + if s.value.Marker? then [ToMarkersMsg(s.value.marker, LastTrack(samples), s.invertPosition)] else []
  {
    assert (samples + [s])[..|samples + [s]| - 1] == samples;
  }

  lemma {:induction false} NavicodesSnoc(samples: seq<Sample>, s: Sample)
    ensures NavicodeMsgs(samples + [s]) == NavicodeMsgs(samples)
            + if s.value.Navicode? then
                [NavicodeMsg(s.value.navicode.code, s.value.navicode.counter,
                             CounterAdvanced(LastCounter(samples), s.value.navicode.counter))]
              else []
  {
    assert (samples + [s])[..|samples + [s]| - 1] == samples;
  }

  lemma {:induction false} IntervalsSnoc(samples: seq<Sample>, s: Sample)
    ensures (var before := TrackTimes(samples); var after := TrackTimes(samples + [s]);
             LastOf(after) == (if s.value.Track? then Some(s.tMono) else LastOf(before))
             && Latest(WINDOW, Intervals(after))
                == if s.value.Track? then PushInterval(Latest(WINDOW, Intervals(before)), LastOf(before), s.tMono)
                   else Latest(WINDOW, Intervals(before)))
  {
    RememberedSnoc(samples, s);
    if s.value.Track? {
      WindowPush(TrackTimes(samples), s.tMono);
    } else {
      assert TrackTimes(samples) + [] == TrackTimes(samples);
    }
  }

  lemma {:induction false} OutputsSnoc(samples: seq<Sample>, s: Sample)
    ensures OutputsOf(samples + [s]) == Emit(OutputsOf(samples), s)
  {
    TracksSnoc(samples, s);
    MarkersSnoc(samples, s);
    NavicodesSnoc(samples, s);
    RememberedSnoc(samples, s);
    IntervalsSnoc(samples, s);
  }

  /** One delivery handled. */
  function HandleOne(o: Outputs, d: Delivery, nodeId: nat): Outputs {
    match SampleOf(d, nodeId)
    case None => o
    case Some(s) => Emit(o, s)
  }

  /** A whole history handled, one delivery at a time. */
  function Handled(history: seq<Delivery>, nodeId: nat): Outputs
    decreases |history|
  {
    if history == [] then OutputsOf([]) else
      HandleOne(Handled(history[..|history| - 1], nodeId), history[|history| - 1], nodeId)
  }

  /** Handling frame by frame yields exactly the outputs of the decoded stream. */
  lemma {:induction false} HandledIsOutputs(history: seq<Delivery>, nodeId: nat)
    ensures Handled(history, nodeId) == OutputsOf(Samples(history, nodeId))
    decreases |history|
  {
    if history != [] {
      var front, d := history[..|history| - 1], history[|history| - 1];
      HandledIsOutputs(front, nodeId);
      if SampleOf(d, nodeId).Some? {
        OutputsSnoc(Samples(front, nodeId), SampleOf(d, nodeId).value);
      }
    }
  }

  // ----------------------------------------------------- agreement with decode_log

  function ToLogFrame(f: Frame): DecodeLog.LogFrame { DecodeLog.LogFrame(f.tMono, f.canId, f.data) }

  function Log(history: seq<Delivery>): (r: seq<DecodeLog.LogFrame>)
    ensures |r| == |history| && forall i | 0 <= i < |history| :: r[i] == ToLogFrame(history[i].frame)
  {
    seq(|history|, i requires 0 <= i < |history| => ToLogFrame(history[i].frame))
  }

  /** Standard 11-bit traffic under fixed settings. */
  ghost predicate Uniform(history: seq<Delivery>, invertPosition: bool, invertAngle: bool) {
    forall i | 0 <= i < |history| ::
      !history[i].frame.isExtended && history[i].invertPosition == invertPosition
      && history[i].invertAngle == invertAngle
  }

  /** A decoded log with the settings attached. */
  function Attach(decoded: seq<DecodeLog.DecodedSample>, invertPosition: bool, invertAngle: bool): (r: seq<Sample>)
    ensures |r| == |decoded|
    ensures forall i | 0 <= i < |decoded| ::
              r[i] == Sample(decoded[i].t, decoded[i].value, invertPosition, invertAngle)
  {
    seq(|decoded|, i requires 0 <= i < |decoded| =>
      Sample(decoded[i].t, decoded[i].value, invertPosition, invertAngle))
  }

  /** The driver sees exactly the samples of `decode_log`, in order. */
  lemma {:induction false} SamplesAreDecodeLog(history: seq<Delivery>, nodeId: nat, p: bool, a: bool)
    requires Uniform(history, p, a)
    ensures Samples(history, nodeId) == Attach(DecodeLog.Decode(Log(history), nodeId), p, a)
    decreases |history|
  {
    if history != [] {
      var front := history[..|history| - 1];
      SamplesAreDecodeLog(front, nodeId, p, a);
      assert Log(history)[..|history| - 1] == Log(front);
    }
  }

  // --------------------------------------------------------- message by message

  function Values(samples: seq<Sample>): (r: seq<Decoded>)
    ensures |r| == |samples| && forall i | 0 <= i < |samples| :: r[i] == samples[i].value
  {
    seq(|samples|, i requires 0 <= i < |samples| => samples[i].value)
  }

  function LogValues(decoded: seq<DecodeLog.DecodedSample>): (r: seq<Decoded>)
    ensures |r| == |decoded| && forall i | 0 <= i < |decoded| :: r[i] == decoded[i].value
  {
    seq(|decoded|, i requires 0 <= i < |decoded| => decoded[i].value)
  }

  /** Where a stream has its values of one class, in order. */
  function Positions(values: seq<Decoded>, c: Class): (r: seq<nat>)
    ensures forall k | 0 <= k < |r| :: r[k] < |values| && ClassOf(values[r[k]]) == c
  {
    if values == [] then [] else
      var n := |values| - 1;
      Positions(values[..n], c) + if ClassOf(values[n]) == c then [n] else []
  }

  /** None is left out. */
  lemma {:induction false} PositionsComplete(values: seq<Decoded>, c: Class, i: nat)
    requires i < |values| && ClassOf(values[i]) == c
    ensures i in Positions(values, c)
    decreases |values|
  {
    var n := |values| - 1;
    if i < n {
      PositionsComplete(values[..n], c, i);
    } else {
      assert Positions(values, c)[|Positions(values[..n], c)|] == n;
    }
  }

  /** They come in order. */
  lemma {:induction false} PositionsIncrease(values: seq<Decoded>, c: Class, j: nat, k: nat)
    requires j < k < |Positions(values, c)|
    ensures Positions(values, c)[j] < Positions(values, c)[k]
    decreases |values|
  {
    var n := |values| - 1;
    if k < |Positions(values[..n], c)| {
      PositionsIncrease(values[..n], c, j, k);
    }
  }

  /** Of the values before `i`, `j` is the latest of its class. */
  ghost predicate LatestAt(values: seq<Decoded>, i: nat, j: nat, c: Class)
    requires j < i <= |values|
  {
    ClassOf(values[j]) == c && forall l | j < l < i :: ClassOf(values[l]) != c
  }

  ghost predicate NoneBefore(values: seq<Decoded>, i: nat, c: Class)
    requires i <= |values|
  {
    forall l | 0 <= l < i :: ClassOf(values[l]) != c
  }

  lemma {:induction false} LastMeaning(samples: seq<Sample>, c: Class)
    ensures (var last := LastOfClass(samples, c);
             if last.None? then NoneBefore(Values(samples), |samples|, c)
             else exists j | 0 <= j < |samples| ::
                    samples[j] == last.value && LatestAt(Values(samples), |samples|, j, c))
    decreases |samples|
  {
    if samples != [] {
      var n := |samples| - 1;
      LastMeaning(samples[..n], c);
      if ClassOf(samples[n].value) == c {
        assert samples[n] == LastOfClass(samples, c).value && LatestAt(Values(samples), n + 1, n, c);
      } else if LastOfClass(samples, c).Some? {
        var j :| 0 <= j < n && samples[..n][j] == LastOfClass(samples, c).value
                 && LatestAt(Values(samples[..n]), n, j, c);
        EarlierLatest(samples, n, j, c);
        assert samples[j] == LastOfClass(samples, c).value;
      } else {
        assert forall l | 0 <= l < n :: Values(samples)[l] == Values(samples[..n])[l];
      }
    }
  }

  lemma EarlierLatest(samples: seq<Sample>, n: nat, j: nat, c: Class)
    requires j < n == |samples| - 1 && ClassOf(samples[n].value) != c
    requires LatestAt(Values(samples[..n]), n, j, c)
    ensures LatestAt(Values(samples), n + 1, j, c)
  {
    forall l | j < l < n + 1 ensures ClassOf(Values(samples)[l]) != c {
      if l < n {
        assert Values(samples)[l] == Values(samples[..n])[l];
      }
    }
  }

  /** The remembered track has no later track behind it, and there is none only if there was none. */
  lemma {:induction false} LastTrackMeaning(samples: seq<Sample>)
    ensures LastTrack(samples).None? <==> forall i | 0 <= i < |samples| :: !samples[i].value.Track?
    ensures LastTrack(samples).Some? ==>
              exists i | 0 <= i < |samples| ::
                samples[i].value == Track(LastTrack(samples).value)
                && forall j | i < j < |samples| :: !samples[j].value.Track?
  {
    LastMeaning(samples, Tpdo1);
    if LastTrack(samples).Some? {
      var i :| 0 <= i < |samples| && samples[i] == LastOfClass(samples, Tpdo1).value
               && LatestAt(Values(samples), |samples|, i, Tpdo1);
      assert samples[i].value == Track(LastTrack(samples).value);
      forall j | i < j < |samples| ensures !samples[j].value.Track? {
        assert Values(samples)[j] == samples[j].value;
      }
    } else {
      forall i | 0 <= i < |samples| ensures !samples[i].value.Track? {
        assert Values(samples)[i] == samples[i].value;
      }
    }
  }

  /** The latest heartbeat's time and state. */
  lemma {:induction false} LastBeatMeaning(samples: seq<Sample>)
    ensures LastBeat(samples).None? ==> NoneBefore(Values(samples), |samples|, Beat)
    ensures LastBeat(samples).Some? ==>
              exists j | 0 <= j < |samples| ::
                && LatestAt(Values(samples), |samples|, j, Beat)
                && LastBeat(samples).value.0 == samples[j].tMono
                && Heartbeat(LastBeat(samples).value.1) == samples[j].value
  {
    LastMeaning(samples, Beat);
  }

  // What a message tells, in terms of the stream of values and nothing else.

  /** The track: positions negated exactly if `p`, angles exactly if `a`, the rest as it was. */
  ghost predicate TellsTrack(msg: TrackMsg, value: Decoded, p: bool, a: bool) {
    && value.Track?
    && var t := value.track;
       && msg.leftPosition == (if p then -t.leftPosition else t.leftPosition)
       && msg.rightPosition == (if p then -t.rightPosition else t.rightPosition)
       && msg.leftAngle == (if a then -t.leftAngle else t.leftAngle)
       && msg.rightAngle == (if a then -t.rightAngle else t.rightAngle)
       && msg.strength == t.strength && (msg.tapeDetected <==> t.strength != 0)
       && (msg.singleTrack <==> t.leftPosition == t.rightPosition && t.leftAngle == t.rightAngle)
       && msg.leftMarker == t.leftMarker && msg.rightMarker == t.rightMarker
       && msg.intersection == t.intersection && msg.fork == t.fork && msg.merge == t.merge
  }

  /** The marker at position `i`: its coordinates, the lateral axis negated exactly if `p`, and the
      detected flags of the latest earlier track, false if there is none. */
  ghost predicate TellsMarkers(msg: MarkersMsg, values: seq<Decoded>, i: nat, p: bool) {
    && i < |values| && values[i].Marker?
    && var m := values[i].marker;
       && msg.leftX == (if p then -m.leftX else m.leftX) && msg.leftY == m.leftY
       && msg.rightX == (if p then -m.rightX else m.rightX) && msg.rightY == m.rightY
       && (NoneBefore(values, i, Tpdo1) ==> !msg.leftDetected && !msg.rightDetected)
       && forall j | 0 <= j < i && LatestAt(values, i, j, Tpdo1) ::
            values[j].Track? && msg.leftDetected == values[j].track.leftMarker
            && msg.rightDetected == values[j].track.rightMarker
  }

  /** The navicode at position `i`: new iff there is an earlier one and the latest such has another counter. */
  ghost predicate TellsNavicode(msg: NavicodeMsg, values: seq<Decoded>, i: nat) {
    && i < |values| && values[i].Navicode?
    && msg.code == values[i].navicode.code && msg.counter == values[i].navicode.counter
    && (NoneBefore(values, i, Tpdo3) ==> !msg.isNew)
    && forall j | 0 <= j < i && LatestAt(values, i, j, Tpdo3) ::
         values[j].Navicode? && (msg.isNew <==> values[j].navicode.counter != values[i].navicode.counter)
  }

  lemma TrackTold(s: Sample)
    requires s.value.Track?
    ensures TellsTrack(ToTrackMsg(s.value.track, s.invertPosition, s.invertAngle), s.value,
                       s.invertPosition, s.invertAngle)
  {
  }

  lemma ValuesPrefix(samples: seq<Sample>, i: nat)
    requires i <= |samples|
    ensures forall l | 0 <= l < i :: Values(samples[..i])[l] == Values(samples)[l]
  {
  }

  /** The message the i-th sample gives rise to. */
  function MarkersAt(samples: seq<Sample>, i: nat): MarkersMsg
    requires i < |samples| && samples[i].value.Marker?
  {
    ToMarkersMsg(samples[i].value.marker, LastTrack(samples[..i]), samples[i].invertPosition)
  }

  function NavicodeAt(samples: seq<Sample>, i: nat): NavicodeMsg
    requires i < |samples| && samples[i].value.Navicode?
  {
    NavicodeMsg(samples[i].value.navicode.code, samples[i].value.navicode.counter,
                CounterAdvanced(LastCounter(samples[..i]), samples[i].value.navicode.counter))
  }

  lemma {:induction false} MarkersTold(samples: seq<Sample>, i: nat)
    requires i < |samples| && samples[i].value.Marker?
    ensures TellsMarkers(MarkersAt(samples, i), Values(samples), i, samples[i].invertPosition)
  {
    LastMeaning(samples[..i], Tpdo1);
    ValuesPrefix(samples, i);
    if LastOfClass(samples[..i], Tpdo1).Some? {
      var j :| 0 <= j < i && samples[..i][j] == LastOfClass(samples[..i], Tpdo1).value
               && LatestAt(Values(samples[..i]), i, j, Tpdo1);
      OneLatest(Values(samples), i, j, Tpdo1);
    }
  }

  lemma OneLatest(values: seq<Decoded>, i: nat, j: nat, c: Class)
    requires j < i <= |values| && LatestAt(values, i, j, c)
    ensures !NoneBefore(values, i, c)
    ensures forall l | 0 <= l < i && LatestAt(values, i, l, c) :: l == j
  {
  }

  lemma AdvancedMeaning(previous: byte, current: byte)
    ensures CounterAdvanced(Some(previous), current) <==> current != previous
    ensures !CounterAdvanced(None, current)
  {
  }

  lemma {:induction false} NavicodeTold(samples: seq<Sample>, i: nat)
    requires i < |samples| && samples[i].value.Navicode?
    ensures TellsNavicode(NavicodeAt(samples, i), Values(samples), i)
  {
    LastMeaning(samples[..i], Tpdo3);
    ValuesPrefix(samples, i);
    if LastOfClass(samples[..i], Tpdo3).Some? {
      var j :| 0 <= j < i && samples[..i][j] == LastOfClass(samples[..i], Tpdo3).value
               && LatestAt(Values(samples[..i]), i, j, Tpdo3);
      AdvancedMeaning(samples[j].value.navicode.counter, samples[i].value.navicode.counter);
      OneLatest(Values(samples), i, j, Tpdo3);
    }
  }

  /** What the last sample adds to the positions of a class. */
  lemma PositionsFront(samples: seq<Sample>, c: Class)
    requires samples != []
    ensures (var n := |samples| - 1;
             Positions(Values(samples), c)
             == Positions(Values(samples[..n]), c) + if ClassOf(samples[n].value) == c then [n as nat] else [])
  {
    assert Values(samples)[..|samples| - 1] == Values(samples[..|samples| - 1]);
  }

  /** There are as many messages and reception times as values of their class. */
  lemma {:induction false} TracksCounted(samples: seq<Sample>)
    ensures |TrackMsgs(samples)| == |Positions(Values(samples), Tpdo1)| == |TrackTimes(samples)|
    decreases |samples|
  {
    if samples != [] {
      TracksCounted(samples[..|samples| - 1]);
      PositionsFront(samples, Tpdo1);
    }
  }

  lemma {:induction false} MarkersCounted(samples: seq<Sample>)
    ensures |MarkersMsgs(samples)| == |Positions(Values(samples), Tpdo2)|
    decreases |samples|
  {
    if samples != [] {
      MarkersCounted(samples[..|samples| - 1]);
      PositionsFront(samples, Tpdo2);
    }
  }

  lemma {:induction false} NavicodesCounted(samples: seq<Sample>)
    ensures |NavicodeMsgs(samples)| == |Positions(Values(samples), Tpdo3)|
    decreases |samples|
  {
    if samples != [] {
      NavicodesCounted(samples[..|samples| - 1]);
      PositionsFront(samples, Tpdo3);
    }
  }

  /** The k-th published track tells of the k-th track received, under the settings it met; the k-th
      reception time is its own. */
  lemma {:induction false} TracksTold(samples: seq<Sample>, k: nat)
    requires k < |Positions(Values(samples), Tpdo1)| == |TrackMsgs(samples)| == |TrackTimes(samples)|
    ensures (var s := samples[Positions(Values(samples), Tpdo1)[k]];
             TellsTrack(TrackMsgs(samples)[k], s.value, s.invertPosition, s.invertAngle)
             && TrackTimes(samples)[k] == s.tMono)
    decreases |samples|
  {
    var n := |samples| - 1;
    PositionsFront(samples, Tpdo1);
    TracksCounted(samples[..n]);
    if k < |Positions(Values(samples[..n]), Tpdo1)| {
      TracksTold(samples[..n], k);
    } else {
      TrackTold(samples[n]);
    }
  }

  /** The k-th published markers message tells of the k-th marker received. */
  lemma {:induction false} AllMarkersTold(samples: seq<Sample>, k: nat)
    requires k < |Positions(Values(samples), Tpdo2)| == |MarkersMsgs(samples)|
    ensures (var i := Positions(Values(samples), Tpdo2)[k];
             TellsMarkers(MarkersMsgs(samples)[k], Values(samples), i, samples[i].invertPosition))
  {
    MarkersDefined(samples, k);
    MarkersTold(samples, Positions(Values(samples), Tpdo2)[k]);
  }

  lemma MarkersAtEarlier(samples: seq<Sample>, n: nat, i: nat)
    requires i < n <= |samples| && samples[i].value.Marker?
    ensures MarkersAt(samples[..n], i) == MarkersAt(samples, i)
  {
    assert samples[..n][..i] == samples[..i];
  }

  lemma MarkersFront(samples: seq<Sample>)
    requires samples != []
    ensures (var n := |samples| - 1;
             MarkersMsgs(samples)
             == MarkersMsgs(samples[..n]) + if samples[n].value.Marker? then [MarkersAt(samples, n)] else [])
  {
  }

  lemma {:induction false} MarkersDefined(samples: seq<Sample>, k: nat)
    requires k < |Positions(Values(samples), Tpdo2)| == |MarkersMsgs(samples)|
    ensures (var i := Positions(Values(samples), Tpdo2)[k];
             samples[i].value.Marker? && MarkersMsgs(samples)[k] == MarkersAt(samples, i))
    decreases |samples|
  {
    var n := |samples| - 1;
    PositionsFront(samples, Tpdo2);
    MarkersFront(samples);
    MarkersCounted(samples[..n]);
    if k < |Positions(Values(samples[..n]), Tpdo2)| {
      MarkersDefined(samples[..n], k);
      MarkersAtEarlier(samples, n, Positions(Values(samples[..n]), Tpdo2)[k]);
    }
  }

  /** The k-th published navicode message tells of the k-th navicode received. */
  lemma {:induction false} AllNavicodesTold(samples: seq<Sample>, k: nat)
    requires k < |Positions(Values(samples), Tpdo3)| == |NavicodeMsgs(samples)|
    ensures TellsNavicode(NavicodeMsgs(samples)[k], Values(samples), Positions(Values(samples), Tpdo3)[k])
  {
    NavicodesDefined(samples, k);
    NavicodeTold(samples, Positions(Values(samples), Tpdo3)[k]);
  }

  lemma NavicodeAtEarlier(samples: seq<Sample>, n: nat, i: nat)
    requires i < n <= |samples| && samples[i].value.Navicode?
    ensures NavicodeAt(samples[..n], i) == NavicodeAt(samples, i)
  {
    assert samples[..n][..i] == samples[..i];
  }

  lemma NavicodesFront(samples: seq<Sample>)
    requires samples != []
    ensures (var n := |samples| - 1;
             NavicodeMsgs(samples)
             == NavicodeMsgs(samples[..n]) + if samples[n].value.Navicode? then [NavicodeAt(samples, n)] else [])
  {
  }

  lemma {:induction false} NavicodesDefined(samples: seq<Sample>, k: nat)
    requires k < |Positions(Values(samples), Tpdo3)| == |NavicodeMsgs(samples)|
    ensures (var i := Positions(Values(samples), Tpdo3)[k];
             samples[i].value.Navicode? && NavicodeMsgs(samples)[k] == NavicodeAt(samples, i))
    decreases |samples|
  {
    var n := |samples| - 1;
    PositionsFront(samples, Tpdo3);
    NavicodesFront(samples);
    NavicodesCounted(samples[..n]);
    if k < |Positions(Values(samples[..n]), Tpdo3)| {
      NavicodesDefined(samples[..n], k);
      NavicodeAtEarlier(samples, n, Positions(Values(samples[..n]), Tpdo3)[k]);
    }
  }

  lemma {:induction false} SameValues(history: seq<Delivery>, nodeId: nat, p: bool, a: bool)
    requires Uniform(history, p, a)
    ensures (var samples := Samples(history, nodeId);
             && Values(samples) == LogValues(DecodeLog.Decode(Log(history), nodeId))
             && forall i | 0 <= i < |samples| ::
                  samples[i].invertPosition == p && samples[i].invertAngle == a)
  {
    SamplesAreDecodeLog(history, nodeId, p, a);
  }

  /** For any standard 11-bit stream and fixed settings, the k-th published track tells of the k-th
      track of `decode_log`, and there are no others. */
  lemma {:induction false} PublishedTracksAreDecodeLog(history: seq<Delivery>, nodeId: nat, p: bool, a: bool)
    requires Uniform(history, p, a)
    ensures (var values := LogValues(DecodeLog.Decode(Log(history), nodeId));
             var published := TrackMsgs(Samples(history, nodeId));
             |published| == |Positions(values, Tpdo1)|
             && forall k | 0 <= k < |published| :: TellsTrack(published[k], values[Positions(values, Tpdo1)[k]], p, a))
  {
    var samples := Samples(history, nodeId);
    SameValues(history, nodeId, p, a);
    TracksCounted(samples);
    var values := LogValues(DecodeLog.Decode(Log(history), nodeId));
    forall k | 0 <= k < |TrackMsgs(samples)|
      ensures TellsTrack(TrackMsgs(samples)[k], values[Positions(values, Tpdo1)[k]], p, a)
    {
      TracksTold(samples, k);
    }
  }

  /** Likewise the markers messages. */
  lemma {:induction false} PublishedMarkersAreDecodeLog(history: seq<Delivery>, nodeId: nat, p: bool, a: bool)
    requires Uniform(history, p, a)
    ensures (var values := LogValues(DecodeLog.Decode(Log(history), nodeId));
             var published := MarkersMsgs(Samples(history, nodeId));
             |published| == |Positions(values, Tpdo2)|
             && forall k | 0 <= k < |published| :: TellsMarkers(published[k], values, Positions(values, Tpdo2)[k], p))
  {
    var samples := Samples(history, nodeId);
    SameValues(history, nodeId, p, a);
    MarkersCounted(samples);
    var values := LogValues(DecodeLog.Decode(Log(history), nodeId));
    forall k | 0 <= k < |MarkersMsgs(samples)|
      ensures TellsMarkers(MarkersMsgs(samples)[k], values, Positions(values, Tpdo2)[k], p)
    {
      AllMarkersTold(samples, k);
    }
  }

  /** Likewise the navicode messages, whatever the settings. */
  lemma {:induction false} PublishedNavicodesAreDecodeLog(history: seq<Delivery>, nodeId: nat, p: bool, a: bool)
    requires Uniform(history, p, a)
    ensures (var values := LogValues(DecodeLog.Decode(Log(history), nodeId));
             var published := NavicodeMsgs(Samples(history, nodeId));
             |published| == |Positions(values, Tpdo3)|
             && forall k | 0 <= k < |published| :: TellsNavicode(published[k], values, Positions(values, Tpdo3)[k]))
  {
    var samples := Samples(history, nodeId);
    SameValues(history, nodeId, p, a);
    NavicodesCounted(samples);
    var values := LogValues(DecodeLog.Decode(Log(history), nodeId));
    forall k | 0 <= k < |NavicodeMsgs(samples)|
      ensures TellsNavicode(NavicodeMsgs(samples)[k], values, Positions(values, Tpdo3)[k])
    {
      AllNavicodesTold(samples, k);
    }
  }

  // ------------------------------------------------------------------ is_new

  function CountNew(msgs: seq<NavicodeMsg>): nat {
    if msgs == [] then 0
    else CountNew(msgs[..|msgs| - 1]) + if msgs[|msgs| - 1].isNew then 1 else 0
  }

  function Counters(samples: seq<Sample>): seq<int> {
    if samples == [] then [] else
      var s := samples[|samples| - 1];
      Counters(samples[..|samples| - 1]) + if s.value.Navicode? then [s.value.navicode.counter as int] else []
  }

  lemma {:induction false} CountersInRange(samples: seq<Sample>)
    ensures forall i | 0 <= i < |Counters(samples)| :: 0 <= Counters(samples)[i] < 256
    decreases |samples|
  {
    if samples != [] {
      CountersInRange(samples[..|samples| - 1]);
    }
  }

  lemma {:induction false} LastCounterIs(samples: seq<Sample>)
    ensures LastCounter(samples)
         == (var c := Counters(samples); if c == [] then None else Some(c[|c| - 1]))
    decreases |samples|
  {
    if samples != [] {
      LastCounterIs(samples[..|samples| - 1]);
    }
  }

  /** As many messages are marked new as the fixture loop finds counter changes: wraps at 255
      count, the first message does not. */
  lemma {:induction false} NewMessagesAreChanges(samples: seq<Sample>)
    ensures CountNew(NavicodeMsgs(samples)) == DecodeLog.CounterChanges(Counters(samples))
    decreases |samples|
  {
    if samples != [] {
      var front, s := samples[..|samples| - 1], samples[|samples| - 1];
      NewMessagesAreChanges(front);
      LastCounterIs(front);
      CountersInRange(front);
      if s.value.Navicode? {
        var msgs, counters := NavicodeMsgs(samples), Counters(samples);
        assert msgs[..|msgs| - 1] == NavicodeMsgs(front);
        assert counters[..|counters| - 1] == Counters(front);
        var earlier := Counters(front);
        if earlier != [] {
          assert counters[|counters| - 2] == earlier[|earlier| - 1];
        }
      } else {
        assert NavicodeMsgs(samples) == NavicodeMsgs(front) && Counters(samples) == Counters(front);
      }
    }
  }

  // --------------------------------------------------------- interval window

  const WINDOW := 2000

  function TrackTimes(samples: seq<Sample>): seq<int> {
    if samples == [] then [] else
      var s := samples[|samples| - 1];
      TrackTimes(samples[..|samples| - 1]) + if s.value.Track? then [s.tMono] else []
  }

  /** Differences of consecutive times. */
  function Intervals(times: seq<int>): (r: seq<int>)
    ensures |r| == if |times| == 0 then 0 else |times| - 1
  {
    if |times| < 2 then []
    else Intervals(times[..|times| - 1]) + [times[|times| - 1] - times[|times| - 2]]
  }

  /** A deque with `maxlen`. */
  function Latest(n: nat, s: seq<int>): seq<int> {
    if |s| <= n then s else s[|s| - n..]
  }

  function Sum(s: seq<int>): int {
    if s == [] then 0 else Sum(s[..|s| - 1]) + s[|s| - 1]
  }

  lemma {:induction false} IntervalsTelescope(times: seq<int>, from: nat)
    requires from < |times|
    ensures Sum(Intervals(times)[from..]) == times[|times| - 1] - times[from]
    decreases |times|
  {
    var all := Intervals(times);
    if from == |times| - 1 {
      assert all[from..] == [];
    } else {
      var front := times[..|times| - 1];
      IntervalsTelescope(front, from);
      assert all == Intervals(front) + [times[|times| - 1] - times[|times| - 2]];
      assert all[from..] == Intervals(front)[from..] + [times[|times| - 1] - times[|times| - 2]];
      assert all[from..][..|all[from..]| - 1] == Intervals(front)[from..];
    }
  }

  /** The window holds the last min(2000, count - 1) intervals, and they add up to the time from the
      reception at the window's start to the last one. */
  lemma {:induction false} WindowTelescopes(times: seq<int>)
    requires times != []
    ensures (var window := Latest(WINDOW, Intervals(times));
             |window| == (if |times| - 1 <= 2000 then |times| - 1 else 2000)
             && Sum(window) == times[|times| - 1] - times[|times| - 1 - |window|])
  {
    var all := Intervals(times);
    var from := if |all| <= WINDOW then 0 else |all| - WINDOW;
    assert Latest(WINDOW, all) == all[from..];
    IntervalsTelescope(times, from);
  }

  lemma {:induction false} IntervalAt(times: seq<int>, i: nat)
    requires i + 1 < |times|
    ensures Intervals(times)[i] == times[i + 1] - times[i]
    decreases |times|
  {
    if i + 2 < |times| {
      IntervalAt(times[..|times| - 1], i);
    }
  }

  /** Entry by entry: the differences of the last reception times, oldest first. */
  lemma {:induction false} WindowEntries(times: seq<int>, i: nat)
    requires i < |Latest(WINDOW, Intervals(times))|
    ensures (var window := Latest(WINDOW, Intervals(times));
             var first := |times| - |window|;
             window[i] == times[first + i] - times[first + i - 1])
  {
    IntervalAt(times, |times| - 1 - |Latest(WINDOW, Intervals(times))| + i);
  }

  function LastOf(times: seq<int>): Option<int> {
    if times == [] then None else Some(times[|times| - 1])
  }

  /** What one more reception time does to the window. */
  function PushInterval(window: seq<int>, last: Option<int>, t: int): seq<int> {
    if last.None? then window else Latest(WINDOW, window + [t - last.value])
  }

  /** Appending to the bounded deque keeps the latest intervals of the whole list. */
  lemma {:induction false} WindowPush(times: seq<int>, t: int)
    ensures Latest(WINDOW, Intervals(times + [t]))
         == PushInterval(Latest(WINDOW, Intervals(times)), LastOf(times), t)
  {
    if times != [] {
      IntervalsPush(times, t);
      LatestPush(Intervals(times), t - times[|times| - 1]);
    }
  }

  lemma {:induction false} IntervalsPush(times: seq<int>, t: int)
    requires times != []
    ensures Intervals(times + [t]) == Intervals(times) + [t - times[|times| - 1]]
  {
    assert (times + [t])[..|times + [t]| - 1] == times;
  }

  lemma {:induction false} LatestPush(s: seq<int>, x: int)
    ensures Latest(WINDOW, s + [x]) == Latest(WINDOW, Latest(WINDOW, s) + [x])
  {
  }
}
