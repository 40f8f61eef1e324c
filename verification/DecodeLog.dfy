/** `decode_log` and the counter-change loop of naviq_mts160/test/fixture_utils.py,
    and what they do not depend on: traffic of other nodes. */
module DecodeLog {
  import opened Bytes
  import opened Decoder

  datatype LogFrame = LogFrame(t: int, canId: nat, data: seq<byte>)

  datatype DecodedSample = DecodedSample(t: int, value: Decoded)

  /** The sample a frame contributes, if any. */
  function SampleOf(f: LogFrame, nodeId: nat): Option<DecodedSample> {
    match DecodeFrame(f.canId, f.data, nodeId)
    case Err(_) => None
    case Ok(None) => None
    case Ok(Some(d)) => Some(DecodedSample(f.t, d))
  }

  function Decode(frames: seq<LogFrame>, nodeId: nat): seq<DecodedSample>
    decreases |frames|
  {
    if frames == [] then [] else
      var rest := Decode(frames[..|frames| - 1], nodeId);
      match SampleOf(frames[|frames| - 1], nodeId)
      case None => rest
      case Some(s) => rest + [s]
  }

  method DecodeLog(frames: seq<LogFrame>, nodeId: nat) returns (out: seq<DecodedSample>)
    ensures out == Decode(frames, nodeId)
  {
    out := [];
    for i := 0 to |frames|
      invariant out == Decode(frames[..i], nodeId)
    {
      var f := frames[i];
      assert frames[..i + 1][..i] == frames[..i];
      var dec := DecodeFrame(f.canId, f.data, nodeId);
      if dec.Err? || dec.value.None? {
        continue;
      }
      out := out + [DecodedSample(f.t, dec.value.value)];
    }
    assert frames[..|frames|] == frames;
  }

  /** The frames that yield samples. */
  function Decodable(frames: seq<LogFrame>, nodeId: nat): (r: seq<nat>)
    ensures forall k | 0 <= k < |r| :: r[k] < |frames|
    decreases |frames|
  {
    if frames == [] then [] else
      var n := |frames| - 1;
      Decodable(frames[..n], nodeId) + if SampleOf(frames[n], nodeId).Some? then [n] else []
  }

  lemma {:induction false} DecodableComplete(frames: seq<LogFrame>, nodeId: nat, i: nat)
    requires i < |frames|
    ensures i in Decodable(frames, nodeId) <==> SampleOf(frames[i], nodeId).Some?
    decreases |frames|
  {
    var n := |frames| - 1;
    if i < n {
      DecodableComplete(frames[..n], nodeId, i);
    } else if SampleOf(frames[i], nodeId).Some? {
      assert Decodable(frames, nodeId)[|Decodable(frames[..n], nodeId)|] == n;
    }
  }

  lemma {:induction false} DecodableIncrease(frames: seq<LogFrame>, nodeId: nat, j: nat, k: nat)
    requires j < k < |Decodable(frames, nodeId)|
    ensures Decodable(frames, nodeId)[j] < Decodable(frames, nodeId)[k]
    decreases |frames|
  {
    var n := |frames| - 1;
    if k < |Decodable(frames[..n], nodeId)| {
      DecodableIncrease(frames[..n], nodeId, j, k);
    }
  }

  /** The k-th sample is that of the k-th frame that yields one. */
  lemma {:induction false} DecodeInOrder(frames: seq<LogFrame>, nodeId: nat, k: nat)
    requires k < |Decodable(frames, nodeId)|
    ensures |Decode(frames, nodeId)| == |Decodable(frames, nodeId)|
    ensures Some(Decode(frames, nodeId)[k]) == SampleOf(frames[Decodable(frames, nodeId)[k]], nodeId)
    decreases |frames|
  {
    var n := |frames| - 1;
    DecodeLength(frames, nodeId);
    DecodeLength(frames[..n], nodeId);
    if k < |Decodable(frames[..n], nodeId)| {
      DecodeInOrder(frames[..n], nodeId, k);
    }
  }

  lemma {:induction false} DecodeLength(frames: seq<LogFrame>, nodeId: nat)
    ensures |Decode(frames, nodeId)| == |Decodable(frames, nodeId)|
    decreases |frames|
  {
    if frames != [] {
      DecodeLength(frames[..|frames| - 1], nodeId);
    }
  }

  /** A sample keeps its frame's time and carries what its bytes say; the other frames yield none. */
  lemma SampleMeaning(f: LogFrame, nodeId: nat)
    requires ValidNodeId(nodeId)
    ensures (var s := SampleOf(f, nodeId);
             var expected := LengthFor(f.canId, nodeId);
             && (s.Some? <==> expected != 0 && |f.data| == expected)
             && (s.Some? ==> s.value.t == f.t && Carries(f.canId, f.data, nodeId, s.value.value)))
  {
    DecodeFrameMeaning(f.canId, f.data, nodeId);
  }

  // -------------------------------------------------------- non-interference

  /** A frame and the node that put it on the bus. */
  datatype Sent = Sent(sender: nat, frame: LogFrame)

  function Frames(bus: seq<Sent>): (r: seq<LogFrame>)
    ensures |r| == |bus| && forall i | 0 <= i < |bus| :: r[i] == bus[i].frame
  {
    seq(|bus|, i requires 0 <= i < |bus| => bus[i].frame)
  }

  /** One sender's stream, in order. */
  function StreamOf(bus: seq<Sent>, sender: nat): seq<LogFrame>
    decreases |bus|
  {
    if bus == [] then [] else
      var rest := StreamOf(bus[..|bus| - 1], sender);
      if bus[|bus| - 1].sender == sender then rest + [bus[|bus| - 1].frame] else rest
  }

  /** What a sender put on the bus. */
  function SentBy(bus: seq<Sent>, sender: nat): (r: seq<nat>)
    ensures forall k | 0 <= k < |r| :: r[k] < |bus| && bus[r[k]].sender == sender
    decreases |bus|
  {
    if bus == [] then [] else
      var n := |bus| - 1;
      SentBy(bus[..n], sender) + if bus[n].sender == sender then [n] else []
  }

  lemma {:induction false} SentByComplete(bus: seq<Sent>, sender: nat, i: nat)
    requires i < |bus| && bus[i].sender == sender
    ensures i in SentBy(bus, sender)
    decreases |bus|
  {
    var n := |bus| - 1;
    if i < n {
      SentByComplete(bus[..n], sender, i);
    } else {
      assert SentBy(bus, sender)[|SentBy(bus[..n], sender)|] == n;
    }
  }

  lemma {:induction false} SentByIncrease(bus: seq<Sent>, sender: nat, j: nat, k: nat)
    requires j < k < |SentBy(bus, sender)|
    ensures SentBy(bus, sender)[j] < SentBy(bus, sender)[k]
    decreases |bus|
  {
    var n := |bus| - 1;
    if k < |SentBy(bus[..n], sender)| {
      SentByIncrease(bus[..n], sender, j, k);
    }
  }

  /** A stream holds the sender's frames, all of them and in order. */
  lemma {:induction false} StreamInOrder(bus: seq<Sent>, sender: nat)
    ensures |StreamOf(bus, sender)| == |SentBy(bus, sender)|
    ensures forall k | 0 <= k < |StreamOf(bus, sender)| ::
              StreamOf(bus, sender)[k] == bus[SentBy(bus, sender)[k]].frame
    decreases |bus|
  {
    if bus != [] {
      StreamInOrder(bus[..|bus| - 1], sender);
    }
  }

  /** Every sender is a sensor that uses only its own COB-IDs. */
  ghost predicate SensorTraffic(bus: seq<Sent>) {
    forall i | 0 <= i < |bus| ::
      ValidNodeId(bus[i].sender) && bus[i].frame.canId in CobIds(bus[i].sender).value
  }

  /** However the streams of any number of sensors are interleaved on the bus, decoding for one
      node gives what decoding that node's stream alone gives. */
  lemma {:induction false} NodeNonInterference(bus: seq<Sent>, nodeId: nat)
    requires SensorTraffic(bus) && ValidNodeId(nodeId)
    ensures Decode(Frames(bus), nodeId) == Decode(StreamOf(bus, nodeId), nodeId)
    decreases |bus|
  {
    if bus != [] {
      var front, last := bus[..|bus| - 1], bus[|bus| - 1];
      NodeNonInterference(front, nodeId);
      assert Frames(bus)[..|bus| - 1] == Frames(front);
      CobIdsDisjoint(last.sender, nodeId);
      var stream := StreamOf(front, nodeId);
      assert (stream + [last.frame])[..|stream|] == stream;
    }
  }

  // --------------------------------------------------------- counter changes

  /** How often a counter differs from the one before it. */
  function CounterChanges(counters: seq<int>): nat {
    if |counters| < 2 then 0
    else CounterChanges(counters[..|counters| - 1])
         + if counters[|counters| - 1] != counters[|counters| - 2] then 1 else 0
  }

  predicate Differs(counters: seq<int>, i: int)
    requires 0 < i < |counters|
  {
    counters[i] != counters[i - 1]
  }

  lemma {:induction false} ChangesCounted(counters: seq<int>)
    ensures CounterChanges(counters) == |set i | 0 < i < |counters| && Differs(counters, i)|
  {
    if |counters| < 2 {
      assert (set i | 0 < i < |counters| && Differs(counters, i)) == {};
    } else {
      ChangesCounted(counters[..|counters| - 1]);
      OneMorePosition(counters);
    }
  }

  lemma OneMorePosition(counters: seq<int>)
    requires |counters| >= 2
    ensures (var n := |counters| - 1;
             var earlier := set i | 0 < i < n && Differs(counters[..n], i);
             && n !in earlier
             && (set i | 0 < i < |counters| && Differs(counters, i))
                == if Differs(counters, n) then earlier + {n} else earlier)
  {
    var n := |counters| - 1;
    assert forall i | 0 < i < n :: Differs(counters, i) == Differs(counters[..n], i);
  }

  /** The loop of `evaluate_segment`. */
  method CountChanges(counters: seq<int>) returns (changes: nat)
    ensures changes == CounterChanges(counters)
  {
    changes := 0;
    var prev: Option<int> := None;
    for i := 0 to |counters|
      invariant changes == CounterChanges(counters[..i])
      invariant prev == if i == 0 then None else Some(counters[i - 1])
    {
      var c := counters[i];
      assert counters[..i + 1][..i] == counters[..i];
      if prev.Some? && c != prev.value {
        changes := changes + 1;
      }
      prev := Some(c);
    }
    assert counters[..|counters|] == counters;
  }
}
